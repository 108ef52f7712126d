/** What a pairing code is good for over its life: when it is approved and exchanged, and when no longer. */
module PairingAnswers {
  import opened Common
  import opened Registry
  import opened Pairing
  import opened PairingRuns

  /** A known code less than ten minutes old. */
  predicate Young(s: State, code: Hash) { code in s.codes && s.now - s.codes[code].createdAt < 600 }

  // ---- approval ----------------------------------------------------------------------------------

  /** A code can be approved exactly while it is young and not approved yet, for a known installation that is not
      revoked, and only for repositories inside the verified access. The reasons of a denial come in this order. */
  lemma ApproveAnswers(s: State, code: Hash, access: Access, ids: seq<int>, newIds: seq<RepositoryId>)
    requires |ids| == |newIds|
    ensures var (s', answer) := Approve(s, code, access, ids, newIds);
            var open := Young(s, code) && s.codes[code].approval.None?;
            var known := access.installation in s.tables.installations;
            var inside := forall i | 0 <= i < |ids| :: ids[i] in access.repositories;
            && (answer == ApprovalDenied(InvalidOrExpiredCode) <==> !open)
            && (answer == ApprovalDenied(PairingDenial.UnknownInstallation) <==> open && !known)
            && (answer == ApprovalDenied(PairingDenial.RevokedInstallation) <==>
                  open && known && s.tables.installations[access.installation])
            && (answer == ApprovalDenied(RepositoryNotInInstallation) <==>
                  open && known && !s.tables.installations[access.installation] && !inside)
            && (answer.Granted? <==> open && known && !s.tables.installations[access.installation] && inside)
            && (!answer.Granted? ==> s' == s)
  {
  }

  /** A granted approval stores the rows of the requested repositories, in order, for the installation; nothing else of
      the code changes, and no other code. */
  lemma ApprovalStores(s: State, code: Hash, access: Access, ids: seq<int>, newIds: seq<RepositoryId>)
    requires |ids| == |newIds| && Approve(s, code, access, ids, newIds).1.Granted?
    ensures var (s', answer) := Approve(s, code, access, ids, newIds);
            && code in s.codes && s'.codes.Keys == s.codes.Keys
            && (forall other | other in s.codes && other != code :: s'.codes[other] == s.codes[other])
            && s'.codes[code] == s.codes[code].(approval := s'.codes[code].approval)
            && s'.codes[code].approval.Some?
            && s'.codes[code].approval.value.installation == access.installation
            && s'.codes[code].approval.value.repositories == answer.repositories && |answer.repositories| == |ids|
            && (forall i | 0 <= i < |ids| ::
                  var repo := GitHubRepository(access.installation, ids[i]);
                  repo in s'.tables.repositories && s'.tables.repositories[repo] == answer.repositories[i])
  {
    UpsertAllRegisters(s.tables, access.installation, ids, newIds);
  }

  // ---- exchange ----------------------------------------------------------------------------------

  /** An exchange gets past the code exactly when it is young, approved, not exchanged yet, and the proof is the one
      its challenge was made from. */
  lemma ExchangeNeeds(s: State, code: string, proof: string, runner: RunnerId, secret: string)
    ensures var hash := Sha256(code);
            !Exchange(s, code, proof, runner, secret).1.InvalidCode? <==>
              && Young(s, hash) && s.codes[hash].approval.Some? && !s.codes[hash].exchanged
              && s.codes[hash].challenge == Sha256(proof)
  {
    ExchangeAnswers(s, code, proof, runner, secret);
  }

  /** The three answers of a status question. */
  lemma StatusAnswers(s: State, code: string, challenge: Hash)
    ensures var hash := Sha256(code);
            var known := Young(s, hash) && s.codes[hash].challenge == challenge && !s.codes[hash].exchanged;
            && (StatusOf(s, code, challenge) == InvalidOrExpired <==> !known)
            && (StatusOf(s, code, challenge) == PendingApproval <==> known && s.codes[hash].approval.None?)
            && (StatusOf(s, code, challenge) == Exchangeable <==> known && s.codes[hash].approval.Some?)
  {
  }

  /** The credential names the new runner; its row holds the device of the code and the hash of the secret handed out,
      and the code is spent. */
  lemma ExchangeCreatesRunner(s: State, code: string, proof: string, runner: RunnerId, secret: string)
    requires Exchange(s, code, proof, runner, secret).1.Credential? && runner !in s.tables.runners
    ensures var (s', answer) := Exchange(s, code, proof, runner, secret);
            var hash := Sha256(code);
            && answer == Credential(runner, secret) && hash in s.codes
            && s'.tables.runners == s.tables.runners[runner := Runner(s.codes[hash].deviceName, Sha256(secret), false)]
            && s'.codes == s.codes[hash := s.codes[hash].(exchanged := true)]
            && s'.tables.installations == s.tables.installations && s'.tables.repositories == s.tables.repositories
  {
  }

  // ---- over a run --------------------------------------------------------------------------------

  /** What a code keeps: its device, its challenge and its birth; an approval once it has one; and being spent. */
  ghost predicate Keeps(s: State, s': State, code: Hash) {
    && code in s.codes && code in s'.codes && s.now <= s'.now
    && s'.codes[code].deviceName == s.codes[code].deviceName
    && s'.codes[code].challenge == s.codes[code].challenge && s'.codes[code].createdAt == s.codes[code].createdAt
    && (s.codes[code].approval.Some? ==> s'.codes[code].approval == s.codes[code].approval)
    && (s.codes[code].exchanged ==> s'.codes[code].exchanged)
  }

  lemma ApplyKeeps(s: State, op: Op, code: Hash)
    requires Fresh(s, op) && code in s.codes
    ensures Keeps(s, Apply(s, op), code)
  {
    if op.ApproveCode? {
      UpsertAllRegisters(s.tables, op.access.installation, op.ids, op.newIds);
    }
  }

  /** Over every run an approval is never changed, and a code is never renewed. */
  lemma {:induction false} RunKeepsCodes(s: State, ops: seq<Op>, code: Hash)
    requires Legal(s, ops) && code in s.codes
    ensures Keeps(s, Run(s, ops), code)
    decreases ops
  {
    if ops != [] {
      ApplyKeeps(s, ops[0], code);
      RunKeepsCodes(Apply(s, ops[0]), ops[1..], code);
    }
  }

  /** Ten minutes after its creation a code is dead, in every continuation: no status, no approval, no exchange. */
  lemma CodesExpire(s: State, ops: seq<Op>, code: string, challenge: Hash, proof: string, runner: RunnerId,
                    secret: string,
                    access: Access)
    requires Legal(s, ops) && Sha256(code) in s.codes && s.now - s.codes[Sha256(code)].createdAt >= 600
    ensures var later := Run(s, ops);
            && StatusOf(later, code, challenge) == InvalidOrExpired
            && Exchange(later, code, proof, runner, secret) == (later, InvalidCode)
            && Approve(later, Sha256(code), access, [], []) == (later, ApprovalDenied(InvalidOrExpiredCode))
  {
    RunKeepsCodes(s, ops, Sha256(code));
    StatusAnswers(Run(s, ops), code, challenge);
  }

  /** A spent code stays spent. */
  lemma SpentStaysSpent(s: State, code: string, proof: string, runner: RunnerId, secret: string, ops: seq<Op>,
                        again: string, other: RunnerId, next: string)
    requires Exchange(s, code, proof, runner, secret).1.Credential?
    requires Legal(Exchange(s, code, proof, runner, secret).0, ops)
    ensures var later := Run(Exchange(s, code, proof, runner, secret).0, ops);
            Exchange(later, code, again, other, next) == (later, InvalidCode)
  {
    RunKeepsCodes(Exchange(s, code, proof, runner, secret).0, ops, Sha256(code));
  }

  /** A code just created waits for its approval, and its challenge is asked for. */
  lemma CreatedWaits(s: State, deviceName: string, challenge: Hash, secret: string, other: Hash)
    ensures var s' := Create(s, deviceName, challenge, secret);
            && StatusOf(s', secret, challenge) == PendingApproval
            && (other != challenge ==> StatusOf(s', secret, other) == InvalidOrExpired)
            && s'.codes[Sha256(secret)].deviceName == deviceName
  {
  }

  /** A revoked runner holds nothing and nobody else loses anything; its row stays. */
  lemma RevokedHoldsNothing(s: State, runner: RunnerId)
    ensures var s' := Revoke(s, runner);
            && RepositoriesOf(s'.tables, runner) == {}
            && (forall other | other != runner :: RepositoriesOf(s'.tables, other) == RepositoriesOf(s.tables, other))
            && s'.tables.runners.Keys == s.tables.runners.Keys && !ActiveRunner(s'.tables, runner)
            && (forall other | other in s.tables.runners && other != runner ::
                  s'.tables.runners[other] == s.tables.runners[other])
            && s'.codes == s.codes
  {
    var t, t' := s.tables, Revoke(s, runner).tables;
    forall other, r | other != runner && r in RepositoriesOf(t, other)
      ensures r in RepositoriesOf(t', other)
    {
      assert Assignment(r, other) in t'.assignments;
    }
  }
}
