/** Who gets the budget: the graver file goes first, and never loses its place to a lesser one. */
module PackingOrder {
  import opened Common
  import opened Ordering
  import opened DiffText
  import opened Packing

  // ---- the order promised ------------------------------------------------------------------------

  function Sensitivity(p: Policy, path: string): real {
    match p.sensitivity
    case None => 0.0
    case Some(scores) => if path in scores then scores[path] else 0.0
  }

  /** More sensitive; or as sensitive with more changed lines; or tied in both with no later path. */
  predicate Outranks(a: File, b: File, p: Policy) {
    var x, y := Sensitivity(p, a.path), Sensitivity(p, b.path);
    var m, n := ChangeSize(a.patch), ChangeSize(b.patch);
    x > y || (x == y && (m > n || (m == n && StrLeq(a.path, b.path))))
  }

  lemma PriorityIsRank(a: File, b: File, p: Policy)
    ensures Priority(a, b, p) <==> Outranks(a, b, p)
  {
  }

  // ---- the greedy loop keeps it ------------------------------------------------------------------

  lemma {:induction false} SplitMembers(files: seq<File>, vs: seq<Verdict>, f: File)
    requires |files| == |vs|
    ensures f in Kept(files, vs) || f in Dropped(files, vs) ==> f in files
    decreases files
  {
    if files != [] {
      SplitMembers(files[1..], vs[1..], f);
    }
  }

  lemma {:induction false} KeptStaySorted(files: seq<File>, vs: seq<Verdict>, leq: (File, File) -> bool)
    requires |files| == |vs| && SortedBy(files, leq)
    ensures SortedBy(Kept(files, vs), leq)
    decreases files
  {
    if files != [] {
      var rest := Kept(files[1..], vs[1..]);
      SortedTail(files, leq);
      KeptStaySorted(files[1..], vs[1..], leq);
      if vs[0].Keep? {
        forall f | f in rest
          ensures leq(files[0], f)
        {
          SplitMembers(files[1..], vs[1..], f);
          HeadFirst(files, leq, f);
        }
        assert Kept(files, vs) == [files[0]] + rest;
      }
    }
  }

  lemma HeadFirst(files: seq<File>, leq: (File, File) -> bool, f: File)
    requires files != [] && SortedBy(files, leq) && f in files[1..]
    ensures leq(files[0], f)
  {
    var i :| 0 <= i < |files[1..]| && files[1..][i] == f;
    assert files[i + 1] == f;
  }

  /** What is kept from `j` on was not yet spent when `d` was turned away. */
  lemma {:induction false} TurnedAwayFirst(files: seq<File>, left: nat, p: Policy, cost: Counter, lens: Lens,
                                           leq: (File, File) -> bool, d: File, j: nat)
    requires SortedBy(files, leq)
    requires var vs := Verdicts(files, left, p, cost, lens);
             && d in Dropped(files, vs) && Classify(d, p) == None
             && j < |Kept(files, vs)| && !leq(Kept(files, vs)[j], d)
    ensures j < |Items(files, Verdicts(files, left, p, cost, lens), lens)|
    ensures Tokens(Items(files, Verdicts(files, left, p, cost, lens), lens)[..j], cost)
              + cost(lens.render(d).content) > left
    decreases files
  {
    var f, rest := files[0], files[1..];
    var vs, left' := Verdicts(files, left, p, cost, lens), Left(files[0], left, p, cost, lens);
    var tail := Verdicts(rest, left', p, cost, lens);
    var items := Items(rest, tail, lens);
    assert vs[1..] == tail;
    SameCount(files, vs, lens);
    SortedTail(files, leq);
    if vs[0].Keep? {
      SplitMembers(rest, tail, d);
      HeadFirst(files, leq, d);
      TurnedAwayFirst(rest, left', p, cost, lens, leq, d, j - 1);
      TokensFromHead(lens.render(f), items, j, cost);
    } else if d in Dropped(rest, tail) {
      TurnedAwayFirst(rest, left', p, cost, lens, leq, d, j);
      assert [] + items == items;
    }
  }

  lemma {:induction false} SameCount(files: seq<File>, vs: seq<Verdict>, lens: Lens)
    requires |files| == |vs|
    ensures |Items(files, vs, lens)| == |Kept(files, vs)|
    decreases files
  {
    if files != [] {
      SameCount(files[1..], vs[1..], lens);
    }
  }

  lemma TokensFromHead(item: Item, items: seq<Item>, j: nat, cost: Counter)
    requires 0 < j <= |items| + 1
    ensures Tokens(([item] + items)[..j], cost) == cost(item.content) + Tokens(items[..j - 1], cost)
  {
    assert ([item] + items)[..j] == [item] + items[..j - 1];
    assert ([item] + items[..j - 1])[1..] == items[..j - 1];
  }

  // ---- the theorem -------------------------------------------------------------------------------

  /** The kept files come in rank order. */
  ghost predicate InRankOrder(kept: seq<File>, p: Policy) {
    forall i, j | 0 <= i < j < |kept| :: Outranks(kept[i], kept[j], p)
  }

  /** Before any lesser file was kept, the turned-away file did not fit either. */
  ghost predicate NeverLosesToLesser(items: seq<Item>, kept: seq<File>, d: File, budget: nat, p: Policy, cost: Counter)
    requires |items| == |kept|
  {
    forall j | 0 <= j < |kept| && !Outranks(kept[j], d, p) :: Tokens(items[..j], cost) + cost(Content(d)) > budget
  }

  /** The budget goes by sensitivity, then changed lines, then path: the kept files are in that order, and a file
      omitted for the budget never loses to a lesser one. */
  lemma BudgetGoesByRank(files: seq<File>, budget: nat, p: Policy, cost: Counter)
    returns (kept: seq<File>, dropped: seq<File>)
    requires Pack(files, budget, p, cost).Packed?
    ensures multiset(kept) + multiset(dropped) == multiset(files)
    ensures var r := Pack(files, budget, p, cost);
            && AllRendered(r.items, kept, p, PROGRAM) && InRankOrder(kept, p)
            && forall d | d in dropped && Classify(d, p) == None ::
                 NeverLosesToLesser(r.items, kept, d, budget, p, cost)
  {
    var leq := ByPriority(p);
    var ordered := Sort(files, leq);
    PriorityIsPreorder(p);
    SortFacts(files, leq);
    kept, dropped := RankedSplit(ordered, budget, p, cost, PROGRAM);
    ProgramContents();
  }

  lemma ProgramContents()
    ensures forall d: File :: PROGRAM.render(d).content == Content(d)
  {
  }

  lemma RankedSplit(ordered: seq<File>, budget: nat, p: Policy, cost: Counter, lens: Lens)
    returns (kept: seq<File>, dropped: seq<File>)
    requires SortedBy(ordered, ByPriority(p)) && PackOrdered(ordered, budget, p, cost, lens).Packed?
    ensures multiset(kept) + multiset(dropped) == multiset(ordered)
    ensures AllRendered(PackOrdered(ordered, budget, p, cost, lens).items, kept, p, lens) && InRankOrder(kept, p)
    ensures forall d, j | d in dropped && Classify(d, p) == None && 0 <= j < |kept| && !Outranks(kept[j], d, p) ::
              Tokens(PackOrdered(ordered, budget, p, cost, lens).items[..j], cost)
                + cost(lens.render(d).content) > budget
  {
    var leq := ByPriority(p);
    var vs := Verdicts(ordered, budget, p, cost, lens);
    kept, dropped := Kept(ordered, vs), Dropped(ordered, vs);
    VerdictsPartition(ordered, vs);
    ItemsAreRendered(ordered, budget, p, cost, lens);
    KeptStaySorted(ordered, vs, leq);
    forall i, j | 0 <= i < j < |kept|
      ensures Outranks(kept[i], kept[j], p)
    {
      assert leq(kept[i], kept[j]);
      PriorityIsRank(kept[i], kept[j], p);
    }
    forall d, j | d in dropped && Classify(d, p) == None && 0 <= j < |kept| && !Outranks(kept[j], d, p)
      ensures Tokens(PackOrdered(ordered, budget, p, cost, lens).items[..j], cost)
                + cost(lens.render(d).content) > budget
    {
      PriorityIsRank(kept[j], d, p);
      TurnedAwayFirst(ordered, budget, p, cost, lens, leq, d, j);
    }
  }

  // ---- why a file is left out --------------------------------------------------------------------

  /** The reason a file is left out before the budget is asked, in the order of the checks; a reason given with
      the file comes first. */
  lemma ReasonsInOrder(f: File, p: Policy)
    requires f.omission.None?
    ensures var listed := p.generated.Some? && f.path in p.generated.value;
            var ignored := p.ignored.Some? && f.path in p.ignored.value;
            var empty := f.patch.None? || |f.patch.value| == 0;
            && (Classify(f, p) == Some(Binary) <==> f.binary)
            && (Classify(f, p) == Some(Generated) <==> !f.binary && listed)
            && (Classify(f, p) == Some(IgnoredPath) <==> !f.binary && !listed && ignored)
            && (Classify(f, p) == Some(PatchTruncated) <==> !f.binary && !listed && !ignored && f.truncated)
            && (Classify(f, p) == Some(PatchOmitted) <==>
                  !f.binary && !listed && !ignored && !f.truncated && empty)
            && (Classify(f, p) == None <==> !f.binary && !listed && !ignored && !f.truncated && !empty)
  {
  }

  lemma GivenReasonFirst(f: File, p: Policy)
    requires f.omission.Some?
    ensures Classify(f, p) == f.omission
  {
  }

  // ---- the chunks that fill the rest -------------------------------------------------------------

  lemma PrefixStep(c: Chunk, chunks: seq<Chunk>, left: nat, cost: Counter)
    ensures Selected([c] + chunks, left, cost) ==
              if cost(c.content) <= left then [c] + Selected(chunks, left - cost(c.content), cost)
              else Selected(chunks, left, cost)
  {
    assert ([c] + chunks)[1..] == chunks;
  }

  lemma {:induction false} SelectedGrows(chunks: seq<Chunk>, left: nat, cost: Counter, i: nat)
    requires i <= |chunks|
    ensures Selected(chunks[..i], left, cost) <= Selected(chunks, left, cost)
    decreases chunks
  {
    if i > 0 {
      var c, rest := chunks[0], chunks[1..];
      assert chunks[..i] == [c] + rest[..i - 1] && chunks == [c] + rest;
      PrefixStep(c, rest, left, cost);
      PrefixStep(c, rest[..i - 1], left, cost);
      SelectedGrows(rest, if cost(c.content) <= left then left - cost(c.content) else left, cost, i - 1);
    }
  }

  /** Selecting from `more` and one further chunk. */
  lemma {:induction false} LastChunk(more: seq<Chunk>, d: Chunk, left: nat, cost: Counter)
    ensures var before := Selected(more, left, cost);
            Selected(more + [d], left, cost) ==
              if ChunkTokens(before, cost) + cost(d.content) <= left then before + [d] else before
    decreases more
  {
    if more == [] {
      assert more + [d] == [d] + more;
      PrefixStep(d, more, left, cost);
    } else {
      var c, rest := more[0], more[1..];
      assert more == [c] + rest && more + [d] == [c] + (rest + [d]);
      PrefixStep(c, rest, left, cost);
      PrefixStep(c, rest + [d], left, cost);
      var left' := if cost(c.content) <= left then left - cost(c.content) else left;
      LastChunk(rest, d, left', cost);
      var before := Selected(rest, left', cost);
      TokensPrepend(c, before, cost);
      assert [c] + (before + [d]) == [c] + before + [d];
    }
  }

  /** A chunk is skipped only when it did not fit beside the chunks selected before it: no later chunk is
      preferred to an earlier one that fits. */
  lemma EarlierChunksFirst(chunks: seq<Chunk>, left: nat, cost: Counter, i: nat)
    requires i < |chunks|
    ensures Selected(chunks[..i], left, cost) <= Selected(chunks[..i + 1], left, cost) <= Selected(chunks, left, cost)
    ensures var before := Selected(chunks[..i], left, cost);
            Selected(chunks[..i + 1], left, cost) ==
              if ChunkTokens(before, cost) + cost(chunks[i].content) <= left then before + [chunks[i]] else before
  {
    assert chunks[..i + 1] == chunks[..i] + [chunks[i]];
    LastChunk(chunks[..i], chunks[i], left, cost);
    SelectedGrows(chunks, left, cost, i + 1);
  }
}
