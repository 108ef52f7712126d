/** When `pack_diff` raises: an item's line range is taken from the first and the last number of its
    rendering, and the contract type refuses a range that ends before it starts. */
module PackingRange {
  import opened Common
  import opened Ordering
  import opened DiffText
  import opened DiffAgreement
  import opened Packing

  // ---- which files make it raise ----------------------------------------------------------------

  ghost predicate NoneInverted(files: seq<File>, p: Policy, lens: Lens) {
    forall f | f in files && Classify(f, p) == None :: !Inverted(lens.render(f))
  }

  lemma {:induction false} KeptAreFiles(files: seq<File>, vs: seq<Verdict>, f: File)
    requires |files| == |vs| && f in Kept(files, vs)
    ensures f in files
    decreases files
  {
    if !(vs[0].Keep? && f == files[0]) {
      KeptAreFiles(files[1..], vs[1..], f);
    }
  }

  lemma CleanFilesPack(ordered: seq<File>, budget: nat, p: Policy, cost: Counter, lens: Lens)
    requires NoneInverted(ordered, p, lens)
    ensures PackOrdered(ordered, budget, p, cost, lens).Packed?
  {
    var vs := Verdicts(ordered, budget, p, cost, lens);
    var items, kept := Items(ordered, vs, lens), Kept(ordered, vs);
    ItemsAreRendered(ordered, budget, p, cost, lens);
    forall i | 0 <= i < |items|
      ensures !Inverted(items[i])
    {
      KeptAreFiles(ordered, vs, kept[i]);
    }
  }

  function Free(): Counter { (_: string) => 0 }

  /** When nothing costs anything, every file that may be packed is. */
  lemma {:induction false} FreeKeepsAll(files: seq<File>, p: Policy, lens: Lens, f: File)
    requires f in files && Classify(f, p) == None
    ensures lens.render(f) in Items(files, Verdicts(files, 0, p, Free(), lens), lens)
    decreases files
  {
    var vs := Verdicts(files, 0, p, Free(), lens);
    var tail := Verdicts(files[1..], Left(files[0], 0, p, Free(), lens), p, Free(), lens);
    assert vs[1..] == tail;
    if f != files[0] {
      FreeKeepsAll(files[1..], p, lens, f);
    }
  }

  /** `pack_diff` succeeds for every budget and token counter exactly when no file that may be packed is
      rendered with an inverted range. */
  lemma PacksExactlyWhen(files: seq<File>, p: Policy)
    ensures (forall budget: nat, cost: Counter :: Pack(files, budget, p, cost).Packed?) <==>
              NoneInverted(files, p, PROGRAM)
  {
    var ordered := Sort(files, ByPriority(p));
    SameFiles(files, p);
    PacksOrderedExactlyWhen(ordered, p, PROGRAM);
    assert NoneInverted(ordered, p, PROGRAM) <==> NoneInverted(files, p, PROGRAM);
    assert forall budget: nat, cost: Counter ::
           Pack(files, budget, p, cost) == PackOrdered(ordered, budget, p, cost, PROGRAM);
  }

  lemma SameFiles(files: seq<File>, p: Policy)
    ensures forall f :: f in Sort(files, ByPriority(p)) <==> f in files
  {
    PriorityIsPreorder(p);
    SortFacts(files, ByPriority(p));
    MembersOfPermutation(Sort(files, ByPriority(p)), files);
  }

  lemma PacksOrderedExactlyWhen(ordered: seq<File>, p: Policy, lens: Lens)
    ensures (forall budget: nat, cost: Counter :: PackOrdered(ordered, budget, p, cost, lens).Packed?) <==>
              NoneInverted(ordered, p, lens)
  {
    if NoneInverted(ordered, p, lens) {
      forall budget: nat, cost: Counter
        ensures PackOrdered(ordered, budget, p, cost, lens).Packed?
      {
        CleanFilesPack(ordered, budget, p, cost, lens);
      }
    } else {
      var f :| f in ordered && Classify(f, p) == None && Inverted(lens.render(f));
      FreeKeepsAll(ordered, p, lens, f);
      assert !PackOrdered(ordered, 0, p, Free(), lens).Packed?;
    }
  }

  // ---- which patches are rendered that way ------------------------------------------------------

  function NewCount(body: seq<string>): nat {
    if body == [] then 0 else (if OnNewSide(body[0]) then 1 else 0) + NewCount(body[1..])
  }

  /** The numbers from `no` on. */
  function Upwards(no: nat, count: nat): (r: seq<nat>)
    ensures |r| == count && forall i | 0 <= i < count :: r[i] == no + i
  {
    seq(count, i => no + i)
  }

  lemma {:induction false} ScanInOrder(body: seq<string>, no: nat)
    ensures Scan(NewLines(body, no), true) == Upwards(no, NewCount(body)) && ModeAtEnd(NewLines(body, no), true)
    decreases body
  {
    if body != [] {
      if OnNewSide(body[0]) {
        ScanInOrder(body[1..], no + 1);
        var line, rest := Numbered(no, body[0][1..]), NewLines(body[1..], no + 1);
        NumberedReads(no, body[0][1..]);
        assert ([line] + rest)[1..] == rest;
        assert Upwards(no, NewCount(body)) == [no] + Upwards(no + 1, NewCount(body[1..]));
      } else {
        ScanInOrder(body[1..], no);
      }
    }
  }

  /** What the old side of a hunk leaks, in order. */
  function Leaks(hunk: Hunk): seq<nat> { Scan(OldLines(hunk.lines), false) }

  function Reads(hunk: Hunk): seq<nat> { Upwards(hunk.newStart, NewCount(hunk.lines)) + Leaks(hunk) }

  lemma ScanReads(hunk: Hunk, fp: FilePatch, inNew: bool)
    ensures Scan(Block(hunk, NewHeader(fp), OldHeader(fp)), inNew) == Reads(hunk)
  {
    ScanInOrder(hunk.lines, hunk.newStart);
    HeadersDiffer(fp);
    ScanHeaded(NewHeader(fp), NewLines(hunk.lines, hunk.newStart), OldHeader(fp), OldLines(hunk.lines), inNew);
  }

  /** The hunk has a new side, or its old side leaks. */
  predicate Shows(hunk: Hunk) { NewCount(hunk.lines) > 0 || Leaks(hunk) != [] }

  function Showing(hunks: seq<Hunk>): (r: seq<Hunk>)
    ensures forall i | 0 <= i < |r| :: r[i] in hunks && Shows(r[i])
  {
    if hunks == [] then [] else (if Shows(hunks[0]) then [hunks[0]] else []) + Showing(hunks[1..])
  }

  /** The first number read from a hunk: its start, or the first leak when it has no new side. */
  function First(hunk: Hunk): nat
    requires Shows(hunk)
  {
    if NewCount(hunk.lines) > 0 then hunk.newStart else Leaks(hunk)[0]
  }

  /** The last number read from a hunk: its last leak, or the last line of its new side. */
  function Last(hunk: Hunk): nat
    requires Shows(hunk)
  {
    if Leaks(hunk) != [] then Leaks(hunk)[|Leaks(hunk)| - 1] else hunk.newStart + NewCount(hunk.lines) - 1
  }

  /** What the scan of a rendering starts and ends with. */
  ghost predicate Bounds(numbers: seq<nat>, shown: seq<Hunk>)
    requires forall i | 0 <= i < |shown| :: Shows(shown[i])
  {
    && (numbers == [] <==> shown == [])
    && (numbers != [] ==> numbers[0] == First(shown[0]) && numbers[|numbers| - 1] == Last(shown[|shown| - 1]))
  }

  lemma {:induction false} ScanBounds(hunks: seq<Hunk>, fp: FilePatch, inNew: bool)
    ensures Bounds(Scan(Blocks(hunks, NewHeader(fp), OldHeader(fp)), inNew), Showing(hunks))
    decreases hunks
  {
    if hunks != [] {
      var block, rest := Block(hunks[0], NewHeader(fp), OldHeader(fp)),
          Blocks(hunks[1..], NewHeader(fp), OldHeader(fp));
      var mode := ModeAtEnd(block, inNew);
      ScanAppend(block, rest, inNew);
      ScanReads(hunks[0], fp, inNew);
      ScanBounds(hunks[1..], fp, mode);
      BoundsPrepend(hunks[0], Scan(rest, mode), Showing(hunks[1..]));
    }
  }

  lemma BoundsPrepend(hunk: Hunk, numbers: seq<nat>, shown: seq<Hunk>)
    requires (forall i | 0 <= i < |shown| :: Shows(shown[i])) && Bounds(numbers, shown)
    ensures Bounds(Reads(hunk) + numbers, (if Shows(hunk) then [hunk] else []) + shown)
  {
    var own := Reads(hunk);
    ReadsBounds(hunk);
    if Shows(hunk) {
      var all := own + numbers;
      assert all[0] == own[0] && all[|all| - 1] == (if numbers == [] then own[|own| - 1] else numbers[|numbers| - 1]);
    } else {
      assert own + numbers == numbers && [] + shown == shown;
    }
  }

  lemma ReadsBounds(hunk: Hunk)
    ensures Reads(hunk) == [] <==> !Shows(hunk)
    ensures Shows(hunk) ==> Reads(hunk)[0] == First(hunk) && Reads(hunk)[|Reads(hunk)| - 1] == Last(hunk)
  {
  }

  /** A file's range is inverted exactly when the last number of its last hunk that shows one is below the
      first number of its first such hunk. */
  lemma InvertedExactlyWhen(f: File)
    requires f.patch.Some? && PathsOneLine(PatchOf(f))
    ensures Inverted(ItemOf(f)) <==> EndsAboveItsStart(Showing(Hunks(f.patch.value)))
  {
    var _ := ItemReads(f, Hunks(f.patch.value));
  }

  /** The numbers read from a file's rendering: the range is their first and last, and so are the bounds of its
      hunks. */
  lemma ItemReads(f: File, hunks: seq<Hunk>) returns (numbers: seq<nat>)
    requires f.patch.Some? && PathsOneLine(PatchOf(f)) && hunks == Hunks(f.patch.value)
    ensures Inverted(ItemOf(f)) <==> EndsAboveItsStart(Showing(hunks))
  {
    var content := Content(f);
    numbers := Scan(SplitLines(content), false);
    RangeOf(content, numbers);
    RenderingBounds(PatchOf(f), content, numbers);
    BoundsCompare(numbers, Showing(hunks));
  }

  /** The last number of the last of these hunks is below the first number of the first. */
  predicate EndsAboveItsStart(shown: seq<Hunk>)
    requires forall i | 0 <= i < |shown| :: Shows(shown[i])
  {
    shown != [] && Last(shown[|shown| - 1]) < First(shown[0])
  }

  lemma RenderingBounds(fp: FilePatch, content: string, numbers: seq<nat>)
    requires PathsOneLine(fp) && content == Render(fp) && numbers == Scan(SplitLines(content), false)
    ensures Bounds(numbers, Showing(Hunks(fp.patch)))
  {
    RenderedLines(fp);
    ScanBounds(Hunks(fp.patch), fp, false);
  }

  lemma RangeOf(content: string, numbers: seq<nat>)
    requires numbers == Scan(SplitLines(content), false)
    ensures LineRange(content).1 < LineRange(content).0 <==> numbers != [] && numbers[|numbers| - 1] < numbers[0]
  {
  }

  lemma BoundsCompare(numbers: seq<nat>, shown: seq<Hunk>)
    requires (forall i | 0 <= i < |shown| :: Shows(shown[i])) && Bounds(numbers, shown)
    ensures numbers != [] && numbers[|numbers| - 1] < numbers[0] <==> EndsAboveItsStart(shown)
  {
  }

  /** Patches whose hunks come in file order and whose old sides have no line beginning with "NEW " never
      make `pack_diff` raise. */
  lemma OrderedHunksPack(files: seq<File>, budget: nat, p: Policy, cost: Counter)
    requires forall f | f in files && f.patch.Some? :: PathsOneLine(PatchOf(f)) && NoFalseHeader(f.patch.value)
    requires forall f | f in files && f.patch.Some? :: InFileOrder(Hunks(f.patch.value))
    ensures Pack(files, budget, p, cost).Packed?
  {
    forall f | f in files && Classify(f, p) == None
      ensures !Inverted(PROGRAM.render(f))
    {
      InvertedExactlyWhen(f);
      ShowingInOrder(Hunks(f.patch.value));
      forall hunk | hunk in Showing(Hunks(f.patch.value))
        ensures Leaks(hunk) == []
      {
        QuietScan(OldLines(hunk.lines));
      }
    }
    PacksExactlyWhen(files, p);
  }

  predicate InFileOrder(hunks: seq<Hunk>) {
    forall i, j | 0 <= i <= j < |hunks| :: hunks[i].newStart <= hunks[j].newStart
  }

  lemma {:induction false} ShowingInOrder(hunks: seq<Hunk>)
    requires InFileOrder(hunks)
    ensures InFileOrder(Showing(hunks))
    decreases hunks
  {
    if hunks != [] {
      ShowingInOrder(hunks[1..]);
    }
  }

  // ---- a patch that makes it raise --------------------------------------------------------------

  predicate Adds(line: string) { line != [] && line[0] == '+' && OneLine(line) }

  lemma AddsOneLine(line: string)
    requires Adds(line)
    ensures OnNewSide(line) && !OnOldSide(line) && HunkHeader(line) == None
  {
    assert "\\"[0] == '\\' && "@@ -"[0] == '@';
  }

  lemma SomeAddition() returns (line: string)
    ensures Adds(line)
  {
    line := "+";
  }

  /** Two hunks of one added line each. */
  predicate TwoHunks(lines: seq<string>, m: nat, n: nat, header: Header) {
    && |lines| == 4
    && header(lines[0]) == Some(m) && header(lines[1]) == None
    && header(lines[2]) == Some(n) && header(lines[3]) == None
  }

  lemma TwoHunksParse(lines: seq<string>, m: nat, n: nat, header: Header)
    requires TwoHunks(lines, m, n, header)
    ensures HunksFrom(lines, 1, [], false, header) == [Hunk(m, [lines[1]]), Hunk(n, [lines[3]])]
  {
    assert lines[1..][1..] == lines[2..] && lines[2..][1..] == lines[3..] && lines[3..][1..] == [];
    var rest := [Hunk(n, [lines[3]])];
    assert HunksFrom(lines[3..], n, [], true, header) == rest by {
      HunksAtBody(lines[3..], n, [], true, header);
      assert [] + [lines[3]] == [lines[3]];
    }
    assert HunksFrom(lines[1..], m, [], true, header) == [Hunk(m, [lines[1]])] + rest by {
      HunksAtBody(lines[1..], m, [], true, header);
      assert [] + [lines[1]] == [lines[1]];
      HunksAtHeader(lines[2..], m, [lines[1]], true, n, header);
    }
    HunksAtHeader(lines, 1, [], false, m, header);
  }

  lemma FourLines(a: string, b: string, c: string, d: string, m: nat, n: nat, header: Header)
    returns (lines: seq<string>)
    requires OneLine(a) && OneLine(b) && OneLine(c) && OneLine(d)
    requires header(a) == Some(m) && header(b) == None && header(c) == Some(n) && header(d) == None
    ensures TwoHunks(lines, m, n, header) && AllOneLine(lines) && lines[1] == b && lines[3] == d
  {
    lines := [a, b, c, d];
  }

  lemma TwoHunksExist(m: nat, n: nat) returns (lines: seq<string>)
    ensures TwoHunks(lines, m, n, HunkHeader) && AllOneLine(lines) && Adds(lines[1]) && Adds(lines[3])
  {
    var first := HeaderFor(m);
    var second := HeaderFor(n);
    var added := SomeAddition();
    AddsOneLine(added);
    lines := FourLines(first, added, second, added, m, n, HunkHeader);
  }

  lemma AddedLine(line: string, no: nat)
    requires Adds(line)
    ensures NewCount([line]) == 1 && Leaks(Hunk(no, [line])) == []
  {
    AddsOneLine(line);
    assert [line][1..] == [] && OldLines([line]) == [];
  }

  lemma ShowsBoth(a: Hunk, b: Hunk)
    requires Shows(a) && Shows(b)
    ensures Showing([a, b]) == [a, b]
  {
    assert [a, b][1..] == [b] && [b][1..] == [];
    assert Showing([b]) == [b] + [];
  }

  lemma TwoHunksText(lines: seq<string>, m: nat, n: nat)
    requires TwoHunks(lines, m, n, HunkHeader) && AllOneLine(lines) && lines[3] != []
    ensures Hunks(Join(lines)) == [Hunk(m, [lines[1]]), Hunk(n, [lines[3]])]
  {
    SplitOfJoin(lines);
    TwoHunksParse(lines, m, n, HunkHeader);
  }

  lemma BackwardsIsInverted(f: File, a: Hunk, b: Hunk)
    requires f.patch.Some? && PathsOneLine(PatchOf(f)) && Hunks(f.patch.value) == [a, b] && b.newStart < a.newStart
    requires NewCount(a.lines) == 1 && Leaks(a) == []
    requires NewCount(b.lines) == 1 && Leaks(b) == []
    ensures Inverted(ItemOf(f))
  {
    ShowsBoth(a, b);
    InvertedExactlyWhen(f);
  }

  lemma InvertedRaises(f: File, p: Policy)
    requires Classify(f, p) == None && Inverted(ItemOf(f))
    ensures Pack([f], 0, p, Free()) == RangeInverted
  {
    FreeKeepsAll([f], p, PROGRAM, f);
    assert [f][1..] == [];
    assert Sort([f], ByPriority(p)) == [f];
  }

  /** A patch whose second hunk adds a line above the first makes `pack_diff` raise, whichever two starts
      are out of order. */
  lemma BackwardsHunksRaise(path: string, m: nat, n: nat) returns (f: File, p: Policy)
    requires OneLine(path) && n < m
    ensures f.path == path && Pack([f], 0, p, Free()) == RangeInverted
  {
    p := Policy(None, None, None);
    var lines := TwoHunksExist(m, n);
    f := File(path, Some(Join(lines)), None, false, false, None);
    assert Inverted(ItemOf(f)) by {
      TwoHunksText(lines, m, n);
      AddedLine(lines[1], m);
      AddedLine(lines[3], n);
      BackwardsIsInverted(f, Hunk(m, [lines[1]]), Hunk(n, [lines[3]]));
    }
    assert Join(lines) != [];
    InvertedRaises(f, p);
  }

  // ---- a patch in file order that makes it raise ------------------------------------------------

  /** A header and three deletions: one that looks like a NEW header, two that look like numbered lines. */
  predicate LeaksTwice(lines: seq<string>, a: nat, b: nat) {
    |lines| == 4 && lines[1] == "-" + ("NEW " + []) && lines[2] == "-" + Numbered(a, [])
      && lines[3] == "-" + Numbered(b, [])
  }

  lemma ScanNumbered(x: string, a: nat)
    requires x == Numbered(a, [])
    ensures Scan([x], true) == [a] && ModeAtEnd([x], true)
  {
    NumberedReads(a, []);
    ScanOne(x, true);
  }

  lemma ScanTwoNumbered(x: string, y: string, a: nat, b: nat)
    requires x == Numbered(a, []) && y == Numbered(b, [])
    ensures Scan([x] + [y], true) == [a, b]
  {
    ScanNumbered(x, a);
    ScanNumbered(y, b);
    ScanAppend([x], [y], true);
  }

  lemma ScanTwoLeaks(h: string, x: string, y: string, a: nat, b: nat)
    requires h == "NEW " + [] && x == Numbered(a, []) && y == Numbered(b, [])
    ensures Scan([h, x, y], false) == [a, b]
  {
    assert [h, x, y] == [h] + ([x] + [y]);
    ScanAppend([h], [x] + [y], false);
    ScanOne(h, false);
    ScanTwoNumbered(x, y, a, b);
  }

  lemma DeletedThree(x: string, y: string, z: string)
    requires OnOldSide(x) && OnOldSide(y) && OnOldSide(z)
    ensures OldLines([x, y, z]) == [x[1..], y[1..], z[1..]]
  {
    assert [x, y, z][1..] == [y, z];
    DeletedLines(y, z);
  }

  lemma NoNewSide(x: string, y: string, z: string)
    requires !OnNewSide(x) && !OnNewSide(y) && !OnNewSide(z)
    ensures NewCount([x, y, z]) == 0
  {
    assert [x, y, z][1..] == [y, z] && [y, z][1..] == [z] && [z][1..] == [];
    assert NewCount([z]) == 0 && NewCount([y, z]) == 0;
  }

  lemma MinusIsOldSide(line: string)
    requires line != [] && line[0] == '-'
    ensures OnOldSide(line) && !OnNewSide(line)
  {
    assert "\\"[0] == '\\';
  }

  lemma LeaksInOrder(lines: seq<string>, n: nat, a: nat, b: nat)
    requires LeaksTwice(lines, a, b)
    ensures NewCount(lines[1..]) == 0 && Leaks(Hunk(n, lines[1..])) == [a, b]
  {
    var x, y, z := lines[1], lines[2], lines[3];
    assert lines[1..] == [x, y, z];
    MinusIsOldSide(x);
    MinusIsOldSide(y);
    MinusIsOldSide(z);
    NoNewSide(x, y, z);
    DeletedThree(x, y, z);
    assert x[1..] == "NEW " + [] && y[1..] == Numbered(a, []) && z[1..] == Numbered(b, []);
    ScanTwoLeaks(x[1..], y[1..], z[1..], a, b);
  }

  lemma LeaksTwiceExists(header: string, a: nat, b: nat) returns (lines: seq<string>)
    requires OneLine(header)
    ensures LeaksTwice(lines, a, b) && lines[0] == header && AllOneLine(lines) && lines[3] != []
  {
    lines := [header, "-" + ("NEW " + []), "-" + Numbered(a, []), "-" + Numbered(b, [])];
    NumberedOneLine(a, []);
    NumberedOneLine(b, []);
    DeletedOneLine("NEW " + []);
    DeletedOneLine(Numbered(a, []));
    DeletedOneLine(Numbered(b, []));
  }

  lemma LeaksTwiceText(lines: seq<string>, n: nat, a: nat, b: nat)
    requires LeaksTwice(lines, a, b) && AllOneLine(lines) && lines[3] != [] && HunkHeader(lines[0]) == Some(n)
    ensures Hunks(Join(lines)) == [Hunk(n, lines[1..])]
  {
    LeaksTwiceDeletes(lines, a, b);
    DeletionText(lines, n);
  }

  lemma LeaksTwiceDeletes(lines: seq<string>, a: nat, b: nat)
    requires LeaksTwice(lines, a, b)
    ensures DeletesOnly(lines, HunkHeader)
  {
    DashedDeletes(lines);
  }

  lemma OneHunkInverted(f: File, hunk: Hunk, a: nat, b: nat)
    requires f.patch.Some? && PathsOneLine(PatchOf(f)) && Hunks(f.patch.value) == [hunk]
    requires NewCount(hunk.lines) == 0 && Leaks(hunk) == [a, b] && b < a
    ensures Inverted(ItemOf(f)) && InFileOrder(Hunks(f.patch.value))
  {
    LeaksEndAbove(hunk, a, b);
    var _ := ItemReads(f, [hunk]);
  }

  lemma LeaksEndAbove(hunk: Hunk, a: nat, b: nat)
    requires NewCount(hunk.lines) == 0 && Leaks(hunk) == [a, b] && b < a
    ensures EndsAboveItsStart(Showing([hunk]))
  {
    assert [hunk][1..] == [] && Showing([hunk]) == [hunk];
  }

  /** File order alone is not enough: a single hunk of deletions makes `pack_diff` raise, for any two leaked
      numbers out of order. */
  lemma LeaksOutOfOrderRaise(path: string, a: nat, b: nat) returns (f: File, p: Policy)
    requires OneLine(path) && b < a
    ensures f.path == path && f.patch.Some? && |Hunks(f.patch.value)| == 1 && InFileOrder(Hunks(f.patch.value))
    ensures Pack([f], 0, p, Free()) == RangeInverted
  {
    p := Policy(None, None, None);
    var header := HeaderFor(1);
    var lines := LeaksTwiceExists(header, a, b);
    f := File(path, Some(Join(lines)), None, false, false, None);
    assert Inverted(ItemOf(f)) && |Hunks(f.patch.value)| == 1 && InFileOrder(Hunks(f.patch.value)) by {
      LeaksTwiceText(lines, 1, a, b);
      LeaksInOrder(lines, 1, a, b);
      OneHunkInverted(f, Hunk(1, lines[1..]), a, b);
    }
    assert Join(lines) != [];
    InvertedRaises(f, p);
  }
}
