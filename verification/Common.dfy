/** Values shared by the hosted and the local models. */
module Common {
  datatype Option<+T> = None | Some(value: T)

  /** SHA-256 of a secret. Collision freedom is built in: equal digests have equal texts. */
  datatype Hash = Sha256(text: string)

  /** Seconds on the database clock. */
  type Time = int

  /** Why a changed file is not in the prompt. */
  datatype OmissionReason =
    | TokenBudget | PatchOmitted | PatchTruncated | Binary | Generated
    | IgnoredPath | FileSizeLimit | CloneTimeout

  /** A step of a loop that moves one element from what is left to what is done. */
  lemma Regroup<T>(done: seq<T>, x: T, rest: seq<T>)
    ensures done + ([x] + rest) == done + [x] + rest && [] + rest == rest
  {
  }
}
