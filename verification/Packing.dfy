/** `pack_diff`: whole files spent greedily against a token budget, and `fit_retrieved_chunks`, which
    spends what is left. */
module Packing {
  import opened Common
  import opened Ordering
  import opened DiffText
  import opened DiffMethods

  datatype File = File(
    path: string, patch: Option<string>, previousPath: Option<string>,
    truncated: bool, binary: bool, omission: Option<OmissionReason>)

  datatype Policy = Policy(
    sensitivity: Option<map<string, real>>, generated: Option<set<string>>, ignored: Option<set<string>>)

  type Counter = string -> nat

  datatype Item = Item(path: string, lineStart: nat, lineEnd: nat, content: string)
  datatype Omitted = Omitted(path: string, reason: OmissionReason, changeSize: nat)

  /** `RangeInverted`: an item whose last new-side number is below its first is refused by the
      contract type, and the exception leaves `pack_diff`. */
  datatype PackResult =
    | Packed(items: seq<Item>, omitted: seq<Omitted>, promptTokens: nat)
    | RangeInverted

  // ---- the program ------------------------------------------------------------------------------

  predicate CountsAsChange(line: string) {
    && !StartsWith(line, "+++") && !StartsWith(line, "---")
    && (StartsWith(line, "+") || StartsWith(line, "-"))
  }

  function ChangedLines(lines: seq<string>): nat {
    if lines == [] then 0 else (if CountsAsChange(lines[0]) then 1 else 0) + ChangedLines(lines[1..])
  }

  function ChangeSize(patch: Option<string>): nat {
    if patch.None? then 0 else ChangedLines(SplitLines(patch.value))
  }

  method ComputeChangeSize(patch: Option<string>) returns (count: nat)
    ensures count == ChangeSize(patch)
  {
    if patch.None? || patch.value == "" {
      return 0;
    }
    count := 0;
    var lines := SplitLines(patch.value);
    var i := 0;
    while i < |lines|
      invariant i <= |lines|
      invariant count + ChangedLines(lines[i..]) == ChangeSize(patch)
    {
      var line := lines[i];
      assert lines[i..][1..] == lines[i + 1..];
      i := i + 1;
      if StartsWith(line, "+++") || StartsWith(line, "---") {
        continue;
      }
      if StartsWith(line, "+") || StartsWith(line, "-") {
        count := count + 1;
      }
    }
  }

  function Score(f: File, p: Policy): real {
    if p.sensitivity.Some? && f.path in p.sensitivity.value then p.sensitivity.value[f.path] else 0.0
  }

  /** `_sort_key` order: sensitivity down, change size down, path up. */
  predicate Priority(a: File, b: File, p: Policy) {
    if Score(a, p) != Score(b, p) then Score(a, p) > Score(b, p)
    else if ChangeSize(a.patch) != ChangeSize(b.patch) then ChangeSize(a.patch) > ChangeSize(b.patch)
    else StrLeq(a.path, b.path)
  }

  function ByPriority(p: Policy): (File, File) -> bool { (a: File, b: File) => Priority(a, b, p) }

  function Classify(f: File, p: Policy): Option<OmissionReason> {
    if f.omission.Some? then f.omission
    else if f.binary then Some(Binary)
    else if p.generated.Some? && f.path in p.generated.value then Some(Generated)
    else if p.ignored.Some? && f.path in p.ignored.value then Some(IgnoredPath)
    else if f.truncated then Some(PatchTruncated)
    else if f.patch.None? || f.patch.value == [] then Some(PatchOmitted)
    else None
  }

  function PatchOf(f: File): FilePatch
    requires f.patch.Some?
  {
    FilePatch(f.path, f.patch.value, f.previousPath)
  }

  /** What a file would put into the prompt. */
  function Content(f: File): string { if f.patch.None? then [] else Render(PatchOf(f)) }

  /** `_line_range`. */
  function LineRange(content: string): (nat, nat) {
    var numbers := Scan(SplitLines(content), false);
    if numbers == [] then (0, 0) else (numbers[0], numbers[|numbers| - 1])
  }

  method ComputeLineRange(content: string) returns (first: nat, last: nat)
    ensures (first, last) == LineRange(content)
  {
    var inNew := false;
    var collected: seq<nat> := [];
    var lines := SplitLines(content);
    var i := 0;
    assert lines[0..] == lines;
    while i < |lines|
      invariant i <= |lines|
      invariant collected + Scan(lines[i..], inNew) == Scan(lines, false)
    {
      ScanStep(collected, lines, i, inNew);
      var line := lines[i];
      i := i + 1;
      if StartsWith(line, "NEW ") {
        assert collected + [] == collected;
        inNew := true;
        continue;
      }
      if StartsWith(line, "OLD ") {
        assert collected + [] == collected;
        inNew := false;
        continue;
      }
      var number := LineNumber(line);
      if !inNew || number.None? {
        assert collected + [] == collected;
        continue;
      }
      collected := collected + [number.value];
    }
    if collected == [] {
      return 0, 0;
    }
    return collected[0], collected[|collected| - 1];
  }

  function ItemOf(f: File): Item {
    var (first, last) := LineRange(Content(f));
    Item(f.path, first, last, Content(f))
  }

  predicate Inverted(item: Item) { item.lineEnd < item.lineStart }

  /** How a file is rendered and measured. The greedy loop is proved for every choice; the program
      uses `PROGRAM`. */
  datatype Lens = Lens(render: File -> Item, size: File -> nat)

  const PROGRAM := Lens((f: File) => ItemOf(f), (f: File) => ChangeSize(f.patch))

  /** The decision on each file of an ordered list, with `left` tokens to spend. */
  datatype Verdict = Keep | Drop(reason: OmissionReason)

  function Decide(f: File, left: nat, p: Policy, cost: Counter, lens: Lens): Verdict {
    match Classify(f, p)
    case Some(reason) => Drop(reason)
    case None => if cost(lens.render(f).content) > left then Drop(TokenBudget) else Keep
  }

  function Left(f: File, left: nat, p: Policy, cost: Counter, lens: Lens): nat {
    if Decide(f, left, p, cost, lens).Keep? then left - cost(lens.render(f).content) else left
  }

  function Verdicts(files: seq<File>, left: nat, p: Policy, cost: Counter, lens: Lens): (vs: seq<Verdict>)
    ensures |vs| == |files|
  {
    if files == [] then []
    else [Decide(files[0], left, p, cost, lens)]
         + Verdicts(files[1..], Left(files[0], left, p, cost, lens), p, cost, lens)
  }

  function Items(files: seq<File>, vs: seq<Verdict>, lens: Lens): seq<Item>
    requires |files| == |vs|
  {
    if files == [] then []
    else (if vs[0].Keep? then [lens.render(files[0])] else []) + Items(files[1..], vs[1..], lens)
  }

  function OmissionOf(f: File, reason: OmissionReason, lens: Lens): Omitted { Omitted(f.path, reason, lens.size(f)) }

  function Omissions(files: seq<File>, vs: seq<Verdict>, lens: Lens): seq<Omitted>
    requires |files| == |vs|
  {
    if files == [] then []
    else (if vs[0].Keep? then [] else [OmissionOf(files[0], vs[0].reason, lens)]) + Omissions(files[1..], vs[1..], lens)
  }

  function Tokens(items: seq<Item>, cost: Counter): nat {
    if items == [] then 0 else cost(items[0].content) + Tokens(items[1..], cost)
  }

  function Pack(files: seq<File>, budget: nat, p: Policy, cost: Counter): PackResult {
    PackOrdered(Sort(files, ByPriority(p)), budget, p, cost, PROGRAM)
  }

  function PackOrdered(ordered: seq<File>, budget: nat, p: Policy, cost: Counter, lens: Lens): PackResult {
    var vs := Verdicts(ordered, budget, p, cost, lens);
    var items := Items(ordered, vs, lens);
    if exists i | 0 <= i < |items| :: Inverted(items[i]) then RangeInverted
    else Packed(items, Omissions(ordered, vs, lens), Tokens(items, cost))
  }

  /** What is done, plus what the rest of the files will add, is the whole result. */
  ghost predicate Remains(items: seq<Item>, omitted: seq<Omitted>, rest: seq<File>, left: nat, p: Policy, cost: Counter,
                          lens: Lens,
                          allItems: seq<Item>, allOmitted: seq<Omitted>)
  {
    var vs := Verdicts(rest, left, p, cost, lens);
    items + Items(rest, vs, lens) == allItems && omitted + Omissions(rest, vs, lens) == allOmitted
  }

  /** The lens says what the program's methods compute. The triggers keep the renderer's definition out of
      the proof of the loop. */
  ghost predicate IsProgram(lens: Lens) {
    && (forall f: File {:trigger ItemOf(f)} :: lens.render(f) == ItemOf(f))
    && (forall f: File {:trigger ChangeSize(f.patch)} :: lens.size(f) == ChangeSize(f.patch))
  }

  /** The loop of `pack_diff` over the ordered files. The ghost lens only names what `RenderFor` and `Measure`
      compute. */
  method PackLoop(ordered: seq<File>, budget: nat, p: Policy, cost: Counter, ghost lens: Lens)
    returns (result: PackResult)
    requires IsProgram(lens)
    ensures result == PackOrdered(ordered, budget, p, cost, lens)
  {
    var remaining: nat := budget;
    var items: seq<Item>, omitted: seq<Omitted> := [], [];
    ghost var allItems := Items(ordered, Verdicts(ordered, budget, p, cost, lens), lens);
    ghost var allOmitted := Omissions(ordered, Verdicts(ordered, budget, p, cost, lens), lens);
    var i := 0;
    assert ordered[0..] == ordered;
    while i < |ordered|
      invariant i <= |ordered|
      invariant Remains(items, omitted, ordered[i..], remaining, p, cost, lens, allItems, allOmitted)
      invariant forall k | 0 <= k < |items| :: !Inverted(items[k])
    {
      var file := ordered[i];
      PackStep(items, omitted, ordered[i..], remaining, p, cost, lens, allItems, allOmitted);
      assert ordered[i..][1..] == ordered[i + 1..];
      i := i + 1;
      var reason := Classify(file, p);
      var size := Measure(file, lens);
      if reason.Some? {
        omitted := omitted + [Omitted(file.path, reason.value, size)];
        continue;
      }
      var item := RenderFor(file, lens);
      var tokens := cost(item.content);
      if tokens > remaining {
        omitted := omitted + [Omitted(file.path, TokenBudget, size)];
        continue;
      }
      remaining := remaining - tokens;
      items := items + [item];
      if item.lineEnd < item.lineStart {
        assert allItems[|items| - 1] == item && Inverted(item);
        return RangeInverted;
      }
    }
    assert ordered[i..] == [];
    assert items == allItems && omitted == allOmitted;
    var promptTokens := SumTokens(items, cost);
    result := Packed(items, omitted, promptTokens);
  }

  /** `pack_diff`. */
  method PackDiff(files: seq<File>, budget: nat, p: Policy, cost: Counter) returns (result: PackResult)
    ensures result == Pack(files, budget, p, cost)
  {
    assert IsProgram(PROGRAM);
    result := PackLoop(Sort(files, ByPriority(p)), budget, p, cost, PROGRAM);
  }

  /** The rendering of one file with its line range. */
  method RenderItem(file: File) returns (item: Item)
    requires file.patch.Some?
    ensures item == ItemOf(file)
  {
    var content := RenderHunks(PatchOf(file));
    var first, last := ComputeLineRange(content);
    item := Item(file.path, first, last, content);
  }

  method RenderFor(file: File, ghost lens: Lens) returns (item: Item)
    requires IsProgram(lens) && file.patch.Some?
    ensures item == lens.render(file)
  {
    item := RenderItem(file);
  }

  method Measure(file: File, ghost lens: Lens) returns (size: nat)
    requires IsProgram(lens)
    ensures size == lens.size(file)
  {
    size := ComputeChangeSize(file.patch);
  }

  method SumTokens(items: seq<Item>, cost: Counter) returns (sum: nat)
    ensures sum == Tokens(items, cost)
  {
    sum := 0;
    for i := 0 to |items|
      invariant sum + Tokens(items[i..], cost) == Tokens(items, cost)
    {
      assert items[i..][1..] == items[i + 1..];
      sum := sum + cost(items[i].content);
    }
  }

  /** One file of the loop, moved from what is still to do into what is done. */
  lemma PackStep(items: seq<Item>, omitted: seq<Omitted>, rest: seq<File>, left: nat, p: Policy, cost: Counter,
                 lens: Lens,
                 allItems: seq<Item>, allOmitted: seq<Omitted>)
    requires rest != [] && Remains(items, omitted, rest, left, p, cost, lens, allItems, allOmitted)
    ensures match Decide(rest[0], left, p, cost, lens)
            case Keep =>
              var item := lens.render(rest[0]);
              Remains(items + [item], omitted, rest[1..], left - cost(item.content), p, cost, lens, allItems,
                      allOmitted)
            case Drop(reason) =>
              Remains(items, omitted + [OmissionOf(rest[0], reason, lens)], rest[1..], left, p, cost, lens, allItems,
                      allOmitted)
  {
    var f := rest[0];
    var v, left' := Decide(f, left, p, cost, lens), Left(f, left, p, cost, lens);
    var vs, tail := Verdicts(rest, left, p, cost, lens), Verdicts(rest[1..], left', p, cost, lens);
    assert vs == [v] + tail && vs[1..] == tail;
    match v
    case Keep =>
      assert Items(rest, vs, lens) == [lens.render(f)] + Items(rest[1..], tail, lens);
      assert Omissions(rest, vs, lens) == [] + Omissions(rest[1..], tail, lens);
      Regroup(items, lens.render(f), Items(rest[1..], tail, lens));
    case Drop(reason) =>
      assert Items(rest, vs, lens) == [] + Items(rest[1..], tail, lens);
      assert Omissions(rest, vs, lens) == [OmissionOf(f, reason, lens)] + Omissions(rest[1..], tail, lens);
      Regroup(omitted, OmissionOf(f, reason, lens), Omissions(rest[1..], tail, lens));
  }

  // ---- what a packed diff is --------------------------------------------------------------------

  function Kept(files: seq<File>, vs: seq<Verdict>): seq<File>
    requires |files| == |vs|
  {
    if files == [] then [] else (if vs[0].Keep? then [files[0]] else []) + Kept(files[1..], vs[1..])
  }

  function Dropped(files: seq<File>, vs: seq<Verdict>): seq<File>
    requires |files| == |vs|
  {
    if files == [] then [] else (if vs[0].Keep? then [] else [files[0]]) + Dropped(files[1..], vs[1..])
  }

  /** Why a file is missing: its own classification, or that it does not fit beside what was packed. */
  predicate Explains(o: Omitted, f: File, p: Policy, cost: Counter, spent: nat, budget: nat, lens: Lens) {
    && o.path == f.path && o.changeSize == lens.size(f)
    && match Classify(f, p) {
         case Some(reason) => o.reason == reason
         case None => o.reason == TokenBudget && spent + cost(lens.render(f).content) > budget
       }
  }

  ghost predicate AllRendered(items: seq<Item>, kept: seq<File>, p: Policy, lens: Lens) {
    |items| == |kept| && forall i | 0 <= i < |items| :: Classify(kept[i], p) == None && items[i] == lens.render(kept[i])
  }

  ghost predicate AllExplained(os: seq<Omitted>, dropped: seq<File>, p: Policy, cost: Counter, spent: nat, budget: nat,
                               lens: Lens) {
    |os| == |dropped| && forall i | 0 <= i < |os| :: Explains(os[i], dropped[i], p, cost, spent, budget, lens)
  }

  lemma {:induction false} VerdictsPartition(files: seq<File>, vs: seq<Verdict>)
    requires |files| == |vs|
    ensures multiset(Kept(files, vs)) + multiset(Dropped(files, vs)) == multiset(files)
    decreases files
  {
    if files != [] {
      VerdictsPartition(files[1..], vs[1..]);
      assert files == [files[0]] + files[1..];
    }
  }

  lemma {:induction false} ItemsAreRendered(files: seq<File>, left: nat, p: Policy, cost: Counter, lens: Lens)
    ensures var vs := Verdicts(files, left, p, cost, lens);
            AllRendered(Items(files, vs, lens), Kept(files, vs), p, lens)
    decreases files
  {
    if files != [] {
      var vs, tail := Verdicts(files, left, p, cost, lens),
          Verdicts(files[1..], Left(files[0], left, p, cost, lens), p, cost, lens);
      ItemsAreRendered(files[1..], Left(files[0], left, p, cost, lens), p, cost, lens);
      assert vs[1..] == tail;
    }
  }

  lemma {:induction false} TokensWithin(files: seq<File>, left: nat, p: Policy, cost: Counter, lens: Lens)
    ensures Tokens(Items(files, Verdicts(files, left, p, cost, lens), lens), cost) <= left
    decreases files
  {
    if files != [] {
      var left' := Left(files[0], left, p, cost, lens);
      TokensWithin(files[1..], left', p, cost, lens);
      TokensStep(files, left, p, cost, lens);
    }
  }

  lemma TokensStep(files: seq<File>, left: nat, p: Policy, cost: Counter, lens: Lens)
    requires files != []
    ensures var rest := Left(files[0], left, p, cost, lens);
            left - Tokens(Items(files, Verdicts(files, left, p, cost, lens), lens), cost) ==
              rest - Tokens(Items(files[1..], Verdicts(files[1..], rest, p, cost, lens), lens), cost)
  {
    var rest := Left(files[0], left, p, cost, lens);
    var tail := Items(files[1..], Verdicts(files[1..], rest, p, cost, lens), lens);
    assert Verdicts(files, left, p, cost, lens)[1..] == Verdicts(files[1..], rest, p, cost, lens);
    assert ([lens.render(files[0])] + tail)[1..] == tail;
    assert [] + tail == tail;
  }

  /** Dropping later files never makes an earlier one fit: what is left only shrinks. */
  lemma {:induction false} OmissionsAreExplained(files: seq<File>, left: nat, p: Policy, cost: Counter, lens: Lens)
    ensures var vs := Verdicts(files, left, p, cost, lens);
            AllExplained(Omissions(files, vs, lens), Dropped(files, vs), p, cost, Tokens(Items(files, vs, lens), cost),
                         left, lens)
    decreases files
  {
    if files != [] {
      var rest := Left(files[0], left, p, cost, lens);
      var vs, tail := Verdicts(files, left, p, cost, lens), Verdicts(files[1..], rest, p, cost, lens);
      OmissionsAreExplained(files[1..], rest, p, cost, lens);
      assert vs[1..] == tail;
      TokensStep(files, left, p, cost, lens);
      var spent, spent' := Tokens(Items(files, vs, lens), cost), Tokens(Items(files[1..], tail, lens), cost);
      assert left + spent' == rest + spent;
      ExplainedShift(Omissions(files[1..], tail, lens), Dropped(files[1..], tail), p, cost, spent', rest, spent, left,
                     lens);
      if vs[0].Drop? {
        ExplainedPrepend(OmissionOf(files[0], vs[0].reason, lens), files[0], Omissions(files[1..], tail, lens),
                         Dropped(files[1..], tail), p, cost, spent, left, lens);
      } else {
        assert Omissions(files, vs, lens) == Omissions(files[1..], tail, lens)
               && Dropped(files, vs) == Dropped(files[1..], tail);
      }
    }
  }

  lemma ExplainedPrepend(o: Omitted, f: File, os: seq<Omitted>, dropped: seq<File>, p: Policy, cost: Counter,
                         spent: nat, budget: nat, lens: Lens)
    requires Explains(o, f, p, cost, spent, budget, lens) && AllExplained(os, dropped, p, cost, spent, budget, lens)
    ensures AllExplained([o] + os, [f] + dropped, p, cost, spent, budget, lens)
  {
  }

  lemma ExplainedShift(os: seq<Omitted>, dropped: seq<File>, p: Policy, cost: Counter, spent: nat, budget: nat,
                       spent': nat, budget': nat, lens: Lens)
    requires AllExplained(os, dropped, p, cost, spent, budget, lens) && budget + spent' == budget' + spent
    ensures AllExplained(os, dropped, p, cost, spent', budget', lens)
  {
    forall i | 0 <= i < |os|
      ensures Explains(os[i], dropped[i], p, cost, spent', budget', lens)
    {
      assert Explains(os[i], dropped[i], p, cost, spent, budget, lens);
    }
  }

  lemma PriorityIsPreorder(p: Policy)
    ensures Preorder(ByPriority(p))
  {
    forall x: File, y: File
      ensures Priority(x, y, p) || Priority(y, x, p)
    {
      StrTotal(x.path, y.path);
    }
    forall x: File, y: File, z: File | Priority(x, y, p) && Priority(y, z, p)
      ensures Priority(x, z, p)
    {
      if StrLeq(x.path, y.path) && StrLeq(y.path, z.path) {
        StrTransitive(x.path, y.path, z.path);
      }
    }
  }

  /** The packed diff splits the changed files into kept and dropped ones. The items are the
      renderings of the kept files and cost no more than the budget; each omission names its file and
      reason, and nothing dropped for the budget could still be added. */
  lemma PackIsMaximalPartition(files: seq<File>, budget: nat, p: Policy, cost: Counter)
    returns (kept: seq<File>, dropped: seq<File>)
    requires Pack(files, budget, p, cost).Packed?
    ensures multiset(kept) + multiset(dropped) == multiset(files)
    ensures var r := Pack(files, budget, p, cost);
            && r.promptTokens == Tokens(r.items, cost) <= budget
            && AllRendered(r.items, kept, p, PROGRAM)
            && AllExplained(r.omitted, dropped, p, cost, r.promptTokens, budget, PROGRAM)
  {
    var ordered := Sort(files, ByPriority(p));
    var vs := Verdicts(ordered, budget, p, cost, PROGRAM);
    kept, dropped := Kept(ordered, vs), Dropped(ordered, vs);
    PriorityIsPreorder(p);
    SortFacts(files, ByPriority(p));
    VerdictsPartition(ordered, vs);
    ItemsAreRendered(ordered, budget, p, cost, PROGRAM);
    TokensWithin(ordered, budget, p, cost, PROGRAM);
    OmissionsAreExplained(ordered, budget, p, cost, PROGRAM);
  }

  // ---- input order ------------------------------------------------------------------------------

  ghost predicate DistinctPaths(files: seq<File>) {
    forall i, j | 0 <= i < j < |files| :: files[i].path != files[j].path
  }

  /** The same files in another order are packed the same way. */
  lemma InputOrderIrrelevant(files: seq<File>, shuffled: seq<File>, budget: nat, p: Policy, cost: Counter)
    requires multiset(files) == multiset(shuffled) && DistinctPaths(files)
    ensures Pack(files, budget, p, cost) == Pack(shuffled, budget, p, cost)
  {
    SameOrder(files, shuffled, p);
  }

  lemma SameOrder(files: seq<File>, shuffled: seq<File>, p: Policy)
    requires multiset(files) == multiset(shuffled) && DistinctPaths(files)
    ensures Sort(files, ByPriority(p)) == Sort(shuffled, ByPriority(p))
  {
    var leq := ByPriority(p);
    var a, b := Sort(files, leq), Sort(shuffled, leq);
    PriorityIsPreorder(p);
    SortFacts(files, leq);
    SortFacts(shuffled, leq);
    MembersOfPermutation(a, files);
    forall x, y | x in a && y in a && leq(x, y) && leq(y, x)
      ensures x == y
    {
      TiedIsSame(files, p, x, y);
    }
    SortedIsUnique(a, b, leq);
  }

  lemma TiedIsSame(files: seq<File>, p: Policy, x: File, y: File)
    requires DistinctPaths(files) && x in files && y in files && Priority(x, y, p) && Priority(y, x, p)
    ensures x == y
  {
    StrTotal(x.path, y.path);
    SamePath(files, x, y);
  }

  lemma SamePath(files: seq<File>, x: File, y: File)
    requires DistinctPaths(files) && x in files && y in files && x.path == y.path
    ensures x == y
  {
    var i :| 0 <= i < |files| && files[i] == x;
    var j :| 0 <= j < |files| && files[j] == y;
  }

  // ---- spending the rest on retrieved chunks ----------------------------------------------------

  datatype Chunk = Chunk(id: string, content: string)

  function ChunkTokens(chunks: seq<Chunk>, cost: Counter): nat {
    if chunks == [] then 0 else cost(chunks[0].content) + ChunkTokens(chunks[1..], cost)
  }

  /** The chunks a loop with `left` tokens to spend selects; `left` may be negative. */
  function Selected(chunks: seq<Chunk>, left: int, cost: Counter): seq<Chunk>
    decreases chunks
  {
    if chunks == [] then []
    else if cost(chunks[0].content) <= left then
      [chunks[0]] + Selected(chunks[1..], left - cost(chunks[0].content), cost)
    else Selected(chunks[1..], left, cost)
  }

  /** `fit_retrieved_chunks`. */
  method FitRetrievedChunks(promptTokens: nat, chunks: seq<Chunk>, budget: nat, cost: Counter)
    returns (selected: seq<Chunk>)
    ensures selected == Selected(chunks, budget - promptTokens, cost)
  {
    var remaining := budget - promptTokens;
    selected := [];
    for i := 0 to |chunks|
      invariant selected + Selected(chunks[i..], remaining, cost) == Selected(chunks, budget - promptTokens, cost)
    {
      assert chunks[i..][1..] == chunks[i + 1..];
      var tokens := cost(chunks[i].content);
      if tokens <= remaining {
        selected := selected + [chunks[i]];
        remaining := remaining - tokens;
      }
    }
  }

  function Skipped(chunks: seq<Chunk>, left: int, cost: Counter): seq<Chunk>
    decreases chunks
  {
    if chunks == [] then []
    else if cost(chunks[0].content) <= left then Skipped(chunks[1..], left - cost(chunks[0].content), cost)
    else [chunks[0]] + Skipped(chunks[1..], left, cost)
  }

  lemma TokensPrepend(c: Chunk, s: seq<Chunk>, cost: Counter)
    ensures ChunkTokens([c] + s, cost) == cost(c.content) + ChunkTokens(s, cost)
  {
    assert ([c] + s)[1..] == s;
  }

  lemma {:induction false} SelectedWithin(chunks: seq<Chunk>, left: nat, cost: Counter)
    ensures ChunkTokens(Selected(chunks, left, cost), cost) <= left
    decreases chunks
  {
    if chunks != [] {
      var c, rest := chunks[0], chunks[1..];
      if cost(c.content) <= left {
        SelectedWithin(rest, left - cost(c.content), cost);
        TokensPrepend(c, Selected(rest, left - cost(c.content), cost), cost);
      } else {
        SelectedWithin(rest, left, cost);
      }
    }
  }

  lemma {:induction false} SelectedPartition(chunks: seq<Chunk>, left: nat, cost: Counter)
    ensures multiset(Selected(chunks, left, cost)) + multiset(Skipped(chunks, left, cost)) == multiset(chunks)
    decreases chunks
  {
    if chunks != [] {
      var c, rest := chunks[0], chunks[1..];
      assert chunks == [c] + rest;
      SelectedPartition(rest, if cost(c.content) <= left then left - cost(c.content) else left, cost);
    }
  }

  lemma {:induction false} SkippedTooBig(chunks: seq<Chunk>, left: nat, cost: Counter, x: Chunk)
    requires x in Skipped(chunks, left, cost)
    ensures ChunkTokens(Selected(chunks, left, cost), cost) + cost(x.content) > left
    decreases chunks
  {
    var c, rest := chunks[0], chunks[1..];
    if cost(c.content) <= left {
      SkippedTooBig(rest, left - cost(c.content), cost, x);
      TokensPrepend(c, Selected(rest, left - cost(c.content), cost), cost);
    } else if x in Skipped(rest, left, cost) {
      SkippedTooBig(rest, left, cost, x);
    }
  }

  /** With `spent` tokens gone, the selected chunks stay within the budget and none of the skipped
      ones could still be added. */
  ghost predicate FitsBeside(spent: nat, selected: seq<Chunk>, chunks: seq<Chunk>, budget: nat, cost: Counter) {
    && spent + ChunkTokens(selected, cost) <= budget
    && exists skipped: seq<Chunk> :: TooBig(spent + ChunkTokens(selected, cost), skipped, budget, cost)
                                     && multiset(selected) + multiset(skipped) == multiset(chunks)
  }

  ghost predicate TooBig(spent: nat, skipped: seq<Chunk>, budget: nat, cost: Counter) {
    forall c | c in skipped :: spent + cost(c.content) > budget
  }

  lemma SelectedFitsBeside(spent: nat, chunks: seq<Chunk>, budget: nat, cost: Counter)
    requires spent <= budget
    ensures FitsBeside(spent, Selected(chunks, budget - spent, cost), chunks, budget, cost)
  {
    var left := budget - spent;
    SelectedWithin(chunks, left, cost);
    SelectedPartition(chunks, left, cost);
    forall x | x in Skipped(chunks, left, cost)
      ensures ChunkTokens(Selected(chunks, left, cost), cost) + cost(x.content) > left
    {
      SkippedTooBig(chunks, left, cost, x);
    }
    BesideFacts(spent, Selected(chunks, left, cost), Skipped(chunks, left, cost), chunks, budget, cost);
  }

  lemma BesideFacts(spent: nat, selected: seq<Chunk>, skipped: seq<Chunk>, chunks: seq<Chunk>, budget: nat,
                    cost: Counter)
    requires spent + ChunkTokens(selected, cost) <= budget && multiset(selected) + multiset(skipped) == multiset(chunks)
    requires forall c | c in skipped :: ChunkTokens(selected, cost) + cost(c.content) > budget - spent
    ensures FitsBeside(spent, selected, chunks, budget, cost)
  {
    assert TooBig(spent + ChunkTokens(selected, cost), skipped, budget, cost);
  }

  /** Packing and then fitting chunks into what is left stays within the one budget, and no chunk
      left out could still be added. */
  lemma CombinedCostWithinBudget(files: seq<File>, chunks: seq<Chunk>, budget: nat, p: Policy, cost: Counter,
                                 r: PackResult)
    requires r == Pack(files, budget, p, cost) && r.Packed?
    ensures r.promptTokens == Tokens(r.items, cost)
    ensures FitsBeside(r.promptTokens, Selected(chunks, budget - r.promptTokens, cost), chunks, budget, cost)
  {
    PackedWithin(files, budget, p, cost, r);
    SelectedFitsBeside(r.promptTokens, chunks, budget, cost);
  }

  lemma PackedWithin(files: seq<File>, budget: nat, p: Policy, cost: Counter, r: PackResult)
    requires r == Pack(files, budget, p, cost) && r.Packed?
    ensures r.promptTokens == Tokens(r.items, cost) <= budget
  {
    var _, _ := PackIsMaximalPartition(files, budget, p, cost);
  }
}
