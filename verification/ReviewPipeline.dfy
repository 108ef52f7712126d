/** From the packed diff to the posted comment: which drafts are accepted, which of them pass the
    static line test, and where they are anchored. */
module ReviewPipeline {
  import opened Common
  import opened Ordering
  import opened DiffText
  import opened DiffAgreement
  import opened DiffMethods
  import opened Packing

  const MAX_FINDING_DRAFTS: nat := 32

  datatype Draft = Draft(filePath: string, lineStart: nat, lineEnd: nat, title: string, evidence: seq<string>)

  /** What the contract type validates about the lines. */
  predicate WellFormed(d: Draft) { 0 < d.lineStart <= d.lineEnd }

  // ---- accepting drafts -------------------------------------------------------------------------

  /** The dictionary of new-side numbers per packed path; a later item overwrites. */
  function LinesByPath(items: seq<Item>): map<string, set<nat>> {
    if items == [] then map[]
    else LinesByPath(items[..|items| - 1])[items[|items| - 1].path := Recovered(items[|items| - 1].content)]
  }

  predicate InChangedDiff(d: Draft, lines: map<string, set<nat>>) {
    && d.filePath in lines && lines[d.filePath] != {}
    && forall n | d.lineStart <= n <= d.lineEnd :: n in lines[d.filePath]
  }

  type Key = (string, nat, nat, string)

  function KeyOf(d: Draft): Key { (d.filePath, d.lineStart, d.lineEnd, d.title) }

  function Keys(ds: seq<Draft>): set<Key> { set d | d in ds :: KeyOf(d) }

  /** The accept loop; `None` is a raw finding that does not validate. */
  function Accept(raw: seq<Option<Draft>>, lines: map<string, set<nat>>, accepted: seq<Draft>): seq<Draft>
    decreases raw
  {
    if raw == [] then accepted
    else if raw[0].None? || !InChangedDiff(raw[0].value, lines) || KeyOf(raw[0].value) in Keys(accepted) then
      Accept(raw[1..], lines, accepted)
    else if |accepted| + 1 >= MAX_FINDING_DRAFTS then accepted + [raw[0].value]
    else Accept(raw[1..], lines, accepted + [raw[0].value])
  }

  /** `_candidates_from_parsed`; `None` when the response holds no list of findings. */
  method CandidatesFromParsed(parsed: Option<seq<Option<Draft>>>, items: seq<Item>) returns (accepted: seq<Draft>)
    ensures accepted == if parsed.None? then [] else Accept(parsed.value, LinesByPath(items), [])
  {
    if parsed.None? {
      return [];
    }
    var lines: map<string, set<nat>> := map[];
    for i := 0 to |items|
      invariant lines == LinesByPath(items[..i])
    {
      var numbers := NewSideLines(items[i].content);
      assert items[..i + 1][..i] == items[..i];
      lines := lines[items[i].path := numbers];
    }
    assert items[..|items|] == items;
    accepted := [];
    var seen: set<Key> := {};
    var raw := parsed.value;
    var i := 0;
    while i < |raw|
      invariant i <= |raw|
      invariant seen == Keys(accepted)
      invariant Accept(raw[i..], lines, accepted) == Accept(raw, lines, [])
    {
      assert raw[i..][1..] == raw[i + 1..];
      var item := raw[i];
      i := i + 1;
      if item.None? || !InChangedDiff(item.value, lines) {
        continue;
      }
      var key := KeyOf(item.value);
      if key in seen {
        continue;
      }
      seen := seen + {key};
      accepted := accepted + [item.value];
      if |accepted| >= MAX_FINDING_DRAFTS {
        break;
      }
    }
  }

  ghost predicate DistinctKeys(ds: seq<Draft>) {
    forall i, j | 0 <= i < j < |ds| :: KeyOf(ds[i]) != KeyOf(ds[j])
  }

  lemma NewKey(accepted: seq<Draft>, d: Draft)
    requires DistinctKeys(accepted) && KeyOf(d) !in Keys(accepted)
    ensures DistinctKeys(accepted + [d])
  {
    forall i | 0 <= i < |accepted|
      ensures KeyOf(accepted[i]) != KeyOf(d)
    {
      assert accepted[i] in accepted;
    }
  }

  lemma KeysGrow(a: seq<Draft>, b: seq<Draft>)
    requires a <= b
    ensures Keys(a) <= Keys(b)
  {
    forall d | d in a
      ensures d in b
    {
      var i :| 0 <= i < |a| && a[i] == d;
      assert b[i] == d;
    }
  }

  lemma {:induction false} AcceptShape(raw: seq<Option<Draft>>, lines: map<string, set<nat>>, accepted: seq<Draft>)
    requires |accepted| < MAX_FINDING_DRAFTS && DistinctKeys(accepted)
    ensures var r := Accept(raw, lines, accepted);
            accepted <= r && |r| <= MAX_FINDING_DRAFTS && DistinctKeys(r)
    decreases raw
  {
    if raw != [] {
      var head, rest := raw[0], raw[1..];
      if head.None? || !InChangedDiff(head.value, lines) || KeyOf(head.value) in Keys(accepted) {
        AcceptShape(rest, lines, accepted);
      } else {
        NewKey(accepted, head.value);
        if |accepted| + 1 < MAX_FINDING_DRAFTS {
          AcceptShape(rest, lines, accepted + [head.value]);
        }
      }
    }
  }

  lemma {:induction false} AcceptedAreOffered(raw: seq<Option<Draft>>, lines: map<string, set<nat>>,
                                              accepted: seq<Draft>,
                                              d: Draft)
    requires d in Accept(raw, lines, accepted)
    ensures d in accepted || (InChangedDiff(d, lines) && Some(d) in raw)
    decreases raw
  {
    if raw != [] {
      var head, rest := raw[0], raw[1..];
      if head.None? || !InChangedDiff(head.value, lines) || KeyOf(head.value) in Keys(accepted) {
        AcceptedAreOffered(rest, lines, accepted, d);
      } else if |accepted| + 1 < MAX_FINDING_DRAFTS {
        AcceptedAreOffered(rest, lines, accepted + [head.value], d);
      }
    }
  }

  lemma {:induction false} NoneIsLost(raw: seq<Option<Draft>>, lines: map<string, set<nat>>, accepted: seq<Draft>,
                                      i: nat)
    requires |accepted| < MAX_FINDING_DRAFTS && DistinctKeys(accepted)
    requires i < |raw| && raw[i].Some? && InChangedDiff(raw[i].value, lines)
    requires |Accept(raw, lines, accepted)| < MAX_FINDING_DRAFTS
    ensures KeyOf(raw[i].value) in Keys(Accept(raw, lines, accepted))
    decreases raw
  {
    var head, rest := raw[0], raw[1..];
    if head.None? || !InChangedDiff(head.value, lines) || KeyOf(head.value) in Keys(accepted) {
      if i == 0 {
        AcceptShape(rest, lines, accepted);
        KeysGrow(accepted, Accept(rest, lines, accepted));
      } else {
        NoneIsLost(rest, lines, accepted, i - 1);
      }
    } else {
      var more := accepted + [head.value];
      NewKey(accepted, head.value);
      if i == 0 {
        assert head.value in more;
        AcceptShape(rest, lines, more);
        KeysGrow(more, Accept(rest, lines, more));
      } else {
        NoneIsLost(rest, lines, more, i - 1);
      }
    }
  }

  /** At most 32 drafts are accepted, no two with the same path, range and title, each on changed lines
      of an included file; and below the limit no acceptable draft is lost, duplicates aside. */
  lemma AcceptedDrafts(raw: seq<Option<Draft>>, items: seq<Item>)
    ensures var lines := LinesByPath(items);
            var r := Accept(raw, lines, []);
            && |r| <= MAX_FINDING_DRAFTS && DistinctKeys(r)
            && (forall d | d in r :: InChangedDiff(d, lines) && Some(d) in raw)
            && (|r| < MAX_FINDING_DRAFTS ==>
                  forall i | 0 <= i < |raw| && raw[i].Some? && InChangedDiff(raw[i].value, lines) ::
                    KeyOf(raw[i].value) in Keys(r))
  {
    var lines := LinesByPath(items);
    var r := Accept(raw, lines, []);
    AcceptShape(raw, lines, []);
    forall d | d in r
      ensures InChangedDiff(d, lines) && Some(d) in raw
    {
      AcceptedAreOffered(raw, lines, [], d);
    }
    if |r| < MAX_FINDING_DRAFTS {
      forall i | 0 <= i < |raw| && raw[i].Some? && InChangedDiff(raw[i].value, lines)
        ensures KeyOf(raw[i].value) in Keys(r)
      {
        NoneIsLost(raw, lines, [], i);
      }
    }
  }

  /** The same place and title. */
  predicate SameSpot(a: Draft, b: Draft) {
    a.filePath == b.filePath && a.lineStart == b.lineStart && a.lineEnd == b.lineEnd && a.title == b.title
  }

  /** Every line of the draft is a new-side line of the packed file it names. */
  ghost predicate Shown(items: seq<Item>, d: Draft) {
    exists i | 0 <= i < |items| :: items[i].path == d.filePath && LinesIn(d, Recovered(items[i].content))
  }

  predicate LinesIn(d: Draft, numbers: set<nat>) { forall n | d.lineStart <= n <= d.lineEnd :: n in numbers }

  ghost predicate DistinctItems(items: seq<Item>) {
    forall i, j | 0 <= i < j < |items| :: items[i].path != items[j].path
  }

  /** In terms of the drafts themselves: no two accepted ones are about the same spot, each is an offered one on shown
      lines, at most 32; and below the limit every offered one on shown lines has an accepted one at its spot. */
  lemma AcceptedByFields(raw: seq<Option<Draft>>, items: seq<Item>)
    requires DistinctItems(items)
    ensures var r := Accept(raw, LinesByPath(items), []);
            && |r| <= 32
            && (forall i, j | 0 <= i < j < |r| :: !SameSpot(r[i], r[j]))
            && (forall d | d in r :: Some(d) in raw && Shown(items, d))
            && (|r| < 32 ==>
                  forall d | Some(d) in raw && WellFormed(d) && Shown(items, d) :: exists e | e in r :: SameSpot(d, e))
  {
    var lines := LinesByPath(items);
    var r := Accept(raw, lines, []);
    AcceptedDrafts(raw, items);
    forall i, j | 0 <= i < j < |r|
      ensures !SameSpot(r[i], r[j])
    {
      assert KeyOf(r[i]) != KeyOf(r[j]);
    }
    forall d | d in r
      ensures Shown(items, d)
    {
      assert InChangedDiff(d, lines);
      var i := LinesComeFromItem(items, d.filePath);
      assert LinesIn(d, Recovered(items[i].content));
    }
    if |r| < 32 {
      forall d | Some(d) in raw && WellFormed(d) && Shown(items, d)
        ensures exists e | e in r :: SameSpot(d, e)
      {
        ShownIsAcceptable(items, d);
        var i :| 0 <= i < |raw| && raw[i] == Some(d);
        assert KeyOf(raw[i].value) in Keys(r);
        var e :| e in r && KeyOf(e) == KeyOf(d);
        assert SameSpot(d, e);
      }
    }
  }

  lemma ShownIsAcceptable(items: seq<Item>, d: Draft)
    requires DistinctItems(items) && WellFormed(d) && Shown(items, d)
    ensures InChangedDiff(d, LinesByPath(items))
  {
    var i :| 0 <= i < |items| && items[i].path == d.filePath && LinesIn(d, Recovered(items[i].content));
    ItemPathListed(items, items[i]);
    var j := LinesComeFromItem(items, d.filePath);
    assert i == j;
    assert d.lineStart in Recovered(items[i].content);
  }

  // ---- the static check -------------------------------------------------------------------------

  datatype Check = Passed | BlankEvidence | StaleHead | UnknownFile | LinesUnchanged

  /** `str.isspace` on one character. */
  predicate IsSpace(c: char) {
    || '\U{09}' <= c <= '\U{0D}' || '\U{1C}' <= c <= '\U{20}' || c == '\U{85}' || c == '\U{A0}' || c == '\U{1680}'
    || '\U{2000}' <= c <= '\U{200A}' || '\U{2028}' <= c <= '\U{2029}' || c == '\U{202F}' || c == '\U{205F}'
      || c == '\U{3000}'
  }

  predicate Blank(s: string) { forall i | 0 <= i < |s| :: IsSpace(s[i]) }

  /** The dictionary of files by path: the last one with the path wins. */
  function FileAt(files: seq<File>, path: string): Option<File> {
    if files == [] then None
    else if files[|files| - 1].path == path then Some(files[|files| - 1])
    else FileAt(files[..|files| - 1], path)
  }

  function Changed(f: File): set<nat> { Static(if f.patch.None? then [] else f.patch.value) }

  /** Some line of the draft is a changed line of the patch. */
  predicate TouchesChange(d: Draft, f: File) { Meets(d, Changed(f)) }

  predicate Meets(d: Draft, changed: set<nat>) { exists n | d.lineStart <= n <= d.lineEnd :: n in changed }

  /** `check_static`. */
  method CheckStatic(d: Draft, files: seq<File>, headSha: string, requiredHeadSha: string) returns (check: Check)
    ensures check == BlankEvidence <==> exists i | 0 <= i < |d.evidence| :: Blank(d.evidence[i])
    ensures check == StaleHead <==> check != BlankEvidence && headSha != requiredHeadSha
    ensures check == UnknownFile <==> check !in {BlankEvidence, StaleHead} && FileAt(files, d.filePath).None?
    ensures check == Passed <==>
              check !in {BlankEvidence, StaleHead, UnknownFile} && TouchesChange(d, FileAt(files, d.filePath).value)
  {
    for i := 0 to |d.evidence|
      invariant forall k | 0 <= k < i :: !Blank(d.evidence[k])
    {
      if Blank(d.evidence[i]) {
        return BlankEvidence;
      }
    }
    if headSha != requiredHeadSha {
      return StaleHead;
    }
    var file := FileAt(files, d.filePath);
    if file.None? {
      return UnknownFile;
    }
    var changed := StaticNewSideLines(if file.value.patch.None? then "" else file.value.patch.value);
    var overlap := set n | n in changed && d.lineStart <= n <= d.lineEnd;
    if overlap == {} {
      assert forall n | n in changed && d.lineStart <= n <= d.lineEnd :: n in overlap;
      return LinesUnchanged;
    }
    var n :| n in overlap;
    assert n in Changed(file.value);
    return Passed;
  }

  // ---- anchoring --------------------------------------------------------------------------------

  datatype Comment = Comment(path: string, line: nat, body: string)

  /** The first patch with the path. */
  function PatchAt(patches: seq<FilePatch>, path: string): Option<FilePatch> {
    if patches == [] then None
    else if patches[0].path == path then Some(patches[0])
    else PatchAt(patches[1..], path)
  }

  /** `_anchor`. */
  function Anchor(d: Draft, patches: seq<FilePatch>): Option<Comment> {
    var patch := PatchAt(patches, d.filePath);
    if patch.None? || d.lineStart !in Recovered(Render(patch.value)) then None
    else Some(Comment(patch.value.path, d.lineStart, d.title))
  }

  /** The patches of a snapshot, in its order. */
  function PatchesOf(files: seq<File>): seq<FilePatch> {
    if files == [] then [] else (if files[0].patch.Some? then [PatchOf(files[0])] else []) + PatchesOf(files[1..])
  }

  // ---- end to end -------------------------------------------------------------------------------

  lemma {:induction false} LinesComeFromItem(items: seq<Item>, path: string) returns (i: nat)
    requires path in LinesByPath(items)
    ensures i < |items| && items[i].path == path && LinesByPath(items)[path] == Recovered(items[i].content)
    decreases items
  {
    var last := |items| - 1;
    if items[last].path == path {
      i := last;
    } else {
      i := LinesComeFromItem(items[..last], path);
    }
  }

  lemma {:induction false} FileAtDistinct(files: seq<File>, f: File)
    requires f in files && DistinctPaths(files)
    ensures FileAt(files, f.path) == Some(f)
    decreases files
  {
    var last := |files| - 1;
    if files[last] != f {
      assert f in files[..last];
      FileAtDistinct(files[..last], f);
    }
  }

  lemma {:induction false} PatchAtDistinct(files: seq<File>, f: File)
    requires f in files && f.patch.Some? && DistinctPaths(files)
    ensures PatchAt(PatchesOf(files), f.path) == Some(PatchOf(f))
    decreases files
  {
    var rest := PatchesOf(files[1..]);
    if files[0] != f {
      assert f in files[1..];
      PatchAtDistinct(files[1..], f);
      if files[0].patch.Some? {
        assert ([PatchOf(files[0])] + rest)[1..] == rest;
      } else {
        assert [] + rest == rest;
      }
    }
  }

  /** The file an accepted draft is about: it was packed, and every line of the draft is recovered from
      its rendering. */
  lemma AcceptedFile(files: seq<File>, budget: nat, p: Policy, cost: Counter, r: PackResult, d: Draft) returns (f: File)
    requires r == Pack(files, budget, p, cost) && r.Packed? && InChangedDiff(d, LinesByPath(r.items))
    ensures f in files && f.path == d.filePath && f.patch.Some? && Classify(f, p) == None
    ensures forall n | d.lineStart <= n <= d.lineEnd :: n in Recovered(Render(PatchOf(f)))
  {
    var i := LinesComeFromItem(r.items, d.filePath);
    var kept, dropped := PackIsMaximalPartition(files, budget, p, cost);
    f := kept[i];
    assert f in multiset(kept) && f in multiset(files);
    assert r.items[i] == ItemOf(f);
  }

  /** A draft accepted against the packed diff is anchored inline at its first line on the same snapshot,
      and passes the static line test unless the patch has an old-side line that begins with "NEW ". */
  lemma AcceptedIsAnchored(files: seq<File>, budget: nat, p: Policy, cost: Counter, r: PackResult, d: Draft)
    returns (f: File)
    requires r == Pack(files, budget, p, cost) && r.Packed? && InChangedDiff(d, LinesByPath(r.items))
    requires WellFormed(d) && DistinctPaths(files)
    requires forall g | g in files && g.patch.Some? :: PathsOneLine(PatchOf(g))
    ensures f in files && f.patch.Some? && FileAt(files, d.filePath) == Some(f)
    ensures Anchor(d, PatchesOf(files)) == Some(Comment(d.filePath, d.lineStart, d.title))
    ensures NoFalseHeader(f.patch.value) ==> TouchesChange(d, f)
  {
    f := AcceptedFile(files, budget, p, cost, r, d);
    FileAtDistinct(files, f);
    PatchAtDistinct(files, f);
    var fp := PatchOf(f);
    RecoveredIsStaticPlusLeaks(fp);
    assert d.lineStart in Recovered(Render(fp));
    if NoFalseHeader(f.patch.value) {
      RecoveredIsStatic(fp);
      assert d.lineStart in Changed(f);
    }
  }

  lemma {:induction false} ItemPathListed(items: seq<Item>, item: Item)
    requires item in items
    ensures item.path in LinesByPath(items)
    decreases items
  {
    var last := |items| - 1;
    if items[last] != item {
      assert item in items[..last];
      ItemPathListed(items[..last], item);
    }
  }

  /** The lines on which drafts about a packed file are accepted. */
  lemma PackedLines(files: seq<File>, budget: nat, p: Policy, cost: Counter, r: PackResult, f: File)
    requires r == Pack(files, budget, p, cost) && r.Packed? && DistinctPaths(files)
    requires f in files && f.patch.Some? && ItemOf(f) in r.items
    ensures f.path in LinesByPath(r.items) && LinesByPath(r.items)[f.path] == Recovered(Render(PatchOf(f)))
  {
    ItemPathListed(r.items, ItemOf(f));
    var i := LinesComeFromItem(r.items, f.path);
    var kept, dropped := PackIsMaximalPartition(files, budget, p, cost);
    assert kept[i] in multiset(kept) && kept[i] in multiset(files);
    assert r.items[i] == ItemOf(kept[i]);
    SamePath(files, f, kept[i]);
  }

  /** Every draft accepted about a packed file passes the static line test exactly when every line that the
      old sides of its patch leak is a changed line anyway. */
  lemma AcceptedPassExactly(files: seq<File>, budget: nat, p: Policy, cost: Counter, r: PackResult, f: File)
    requires r == Pack(files, budget, p, cost) && r.Packed? && DistinctPaths(files)
    requires f in files && f.patch.Some? && ItemOf(f) in r.items && PathsOneLine(PatchOf(f))
    ensures (forall d: Draft | WellFormed(d) && d.filePath == f.path && InChangedDiff(d, LinesByPath(r.items)) ::
               TouchesChange(d, f))
            <==> forall n | n in Leaked(f.patch.value) && n > 0 :: n in Changed(f)
  {
    PackedLines(files, budget, p, cost, r, f);
    PassExactly(f, LinesByPath(r.items), Leaked(f.patch.value));
  }

  lemma PassExactly(f: File, lines: map<string, set<nat>>, leaked: set<nat>)
    requires f.patch.Some? && PathsOneLine(PatchOf(f)) && leaked == Leaked(f.patch.value)
    requires f.path in lines && lines[f.path] == Recovered(Render(PatchOf(f)))
    ensures (forall d: Draft | WellFormed(d) && d.filePath == f.path && InChangedDiff(d, lines) :: TouchesChange(d, f))
            <==> forall n | n in leaked && n > 0 :: n in Changed(f)
  {
    var changed := Changed(f);
    assert lines[f.path] == changed + leaked by {
      RecoveredIsStaticPlusLeaks(PatchOf(f));
    }
    OneLineDrafts(f.path, lines, changed, leaked);
    assert forall d: Draft :: TouchesChange(d, f) <==> Meets(d, changed);
  }

  /** The draft about one line. */
  lemma OneLineDraft(path: string, lines: map<string, set<nat>>, n: nat) returns (d: Draft)
    requires path in lines && n in lines[path] && n > 0
    ensures d.filePath == path && d.lineStart == n == d.lineEnd && WellFormed(d) && InChangedDiff(d, lines)
  {
    d := Draft(path, n, n, "t", ["e"]);
  }

  lemma OneLineDrafts(path: string, lines: map<string, set<nat>>, changed: set<nat>, leaked: set<nat>)
    requires path in lines && lines[path] == changed + leaked
    ensures (forall d: Draft | WellFormed(d) && d.filePath == path && InChangedDiff(d, lines) :: Meets(d, changed))
            <==> forall n | n in leaked && n > 0 :: n in changed
  {
    if forall n | n in leaked && n > 0 :: n in changed {
      forall d: Draft | WellFormed(d) && d.filePath == path && InChangedDiff(d, lines)
        ensures Meets(d, changed)
      {
        assert d.lineStart in lines[path];
      }
    } else {
      var n :| n in leaked && n > 0 && n !in changed;
      var d := OneLineDraft(path, lines, n);
      assert !Meets(d, changed);
    }
  }
}
