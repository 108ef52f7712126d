/** Printer and parsers agree: what the text recoverers read from a rendering against what the
    static check computes from the patch. */
module DiffAgreement {
  import opened Common
  import opened Decimal
  import opened DiffText

  // ---- the scan ---------------------------------------------------------------------------------

  function ModeAtEnd(lines: seq<string>, inNew: bool): bool
    decreases lines
  {
    if lines == [] then inNew else ModeAtEnd(lines[1..], ModeAfter(lines[0], inNew))
  }

  /** What the first line contributes and the mode it leaves depend on nothing after it. */
  lemma ScanHead(x: seq<string>, y: seq<string>, inNew: bool) returns (c: seq<nat>, mode: bool)
    requires x != [] && y != [] && x[0] == y[0]
    ensures Scan(x, inNew) == c + Scan(x[1..], mode) && ModeAtEnd(x, inNew) == ModeAtEnd(x[1..], mode)
    ensures Scan(y, inNew) == c + Scan(y[1..], mode) && ModeAtEnd(y, inNew) == ModeAtEnd(y[1..], mode)
  {
    c, mode := Contribution(x[0], inNew), ModeAfter(x[0], inNew);
  }

  /** The step of the induction, for sums of any kind. */
  lemma JoinSums(whole: seq<nat>, first: seq<nat>, c: seq<nat>, part: seq<nat>, tail: seq<nat>)
    requires whole == c + (part + tail) && first == c + part
    ensures whole == first + tail
  {
  }

  lemma {:induction false} ScanAppend(a: seq<string>, b: seq<string>, inNew: bool)
    ensures Scan(a + b, inNew) == Scan(a, inNew) + Scan(b, ModeAtEnd(a, inNew))
    ensures ModeAtEnd(a + b, inNew) == ModeAtEnd(b, ModeAtEnd(a, inNew))
    decreases a
  {
    if a == [] {
      assert a + b == b;
    } else {
      var c, mode := ScanHead(a, a + b, inNew);
      assert (a + b)[1..] == a[1..] + b;
      ScanAppend(a[1..], b, mode);
      JoinSums(Scan(a + b, inNew), Scan(a, inNew), c, Scan(a[1..], mode), Scan(b, ModeAtEnd(a[1..], mode)));
    }
  }

  lemma NumbersAppend(a: seq<nat>, b: seq<nat>)
    ensures Numbers(a + b) == Numbers(a) + Numbers(b)
  {
  }

  lemma {:induction false} DigitRunOf(d: string, rest: string)
    requires AllDigits(d) && (rest == [] || !IsDigit(rest[0]))
    ensures DigitRun(d + rest) == |d|
  {
    if d == [] {
      assert d + rest == rest;
    } else {
      assert (d + rest)[1..] == d[1..] + rest;
      DigitRunOf(d[1..], rest);
    }
  }

  /** A printed line is read back as its number and never as a header. */
  lemma NumberedReads(no: nat, content: string)
    ensures LineNumber(Numbered(no, content)) == Some(no)
    ensures !StartsWith(Numbered(no, content), "NEW ") && !StartsWith(Numbered(no, content), "OLD ")
  {
    PrintParse(no);
    var d := Print(no);
    var line := Numbered(no, content);
    assert line == d + ("| " + content);
    DigitRunOf(d, "| " + content);
    assert line[..|d|] == d && line[|d|..] == "| " + content;
    assert IsDigit(line[0]);
  }

  /** The new-side numbers of one hunk. */
  function HunkNumbers(body: seq<string>, no: nat): set<nat>
    decreases body
  {
    if body == [] then {}
    else if OnNewSide(body[0]) then {no} + HunkNumbers(body[1..], no + 1)
    else HunkNumbers(body[1..], no)
  }

  lemma {:induction false} ScanNewLines(body: seq<string>, no: nat)
    ensures Numbers(Scan(NewLines(body, no), true)) == HunkNumbers(body, no)
    ensures ModeAtEnd(NewLines(body, no), true)
    decreases body
  {
    if body != [] {
      if OnNewSide(body[0]) {
        ScanNewLines(body[1..], no + 1);
        var line := Numbered(no, body[0][1..]);
        NumberedReads(no, body[0][1..]);
        var rest := NewLines(body[1..], no + 1);
        assert ([line] + rest)[1..] == rest;
        NumbersAppend([no], Scan(rest, true));
      } else {
        ScanNewLines(body[1..], no);
      }
    }
  }

  /** What an old side leaks: the numbers read after one of its lines looks like a NEW header. */
  function Leak(hunk: Hunk): set<nat> { Numbers(Scan(OldLines(hunk.lines), false)) }

  lemma HeadersDiffer(fp: FilePatch)
    ensures StartsWith(NewHeader(fp), "NEW ")
    ensures StartsWith(OldHeader(fp), "OLD ") && !StartsWith(OldHeader(fp), "NEW ")
  {
    assert OldHeader(fp)[0] == 'O' && "NEW "[0] == 'N';
  }

  lemma ScanBlock(hunk: Hunk, fp: FilePatch, inNew: bool)
    ensures Numbers(Scan(Block(hunk, NewHeader(fp), OldHeader(fp)), inNew)) ==
              HunkNumbers(hunk.lines, hunk.newStart) + Leak(hunk)
  {
    var news, olds := NewLines(hunk.lines, hunk.newStart), OldLines(hunk.lines);
    ScanNewLines(hunk.lines, hunk.newStart);
    HeadersDiffer(fp);
    ScanHeaded(NewHeader(fp), news, OldHeader(fp), olds, inNew);
    NumbersAppend(Scan(news, true), Scan(olds, false));
  }

  /** A block is read as its new side and then its old side. */
  lemma ScanHeaded(nh: string, news: seq<string>, oh: string, olds: seq<string>, inNew: bool)
    requires StartsWith(nh, "NEW ") && StartsWith(oh, "OLD ") && !StartsWith(oh, "NEW ") && ModeAtEnd(news, true)
    ensures Scan([nh] + news + [oh] + olds, inNew) == Scan(news, true) + Scan(olds, false)
  {
    ScanOldPart(oh, olds);
    ScanAppend(news, [oh] + olds, true);
    ScanOne(nh, inNew);
    ScanAppend([nh], news + ([oh] + olds), inNew);
    HeadedParts(nh, news, oh, olds);
  }

  lemma HeadedParts(nh: string, news: seq<string>, oh: string, olds: seq<string>)
    ensures [nh] + news + [oh] + olds == [nh] + (news + ([oh] + olds))
  {
  }

  lemma ScanOldPart(oh: string, olds: seq<string>)
    requires StartsWith(oh, "OLD ") && !StartsWith(oh, "NEW ")
    ensures Scan([oh] + olds, true) == Scan(olds, false)
  {
    ScanOne(oh, true);
    ScanAppend([oh], olds, true);
  }

  lemma ScanOne(line: string, inNew: bool)
    ensures Scan([line], inNew) == Contribution(line, inNew) && ModeAtEnd([line], inNew) == ModeAfter(line, inNew)
  {
    assert [line][1..] == [];
  }

  function AllNumbers(hunks: seq<Hunk>): set<nat> {
    if hunks == [] then {} else HunkNumbers(hunks[0].lines, hunks[0].newStart) + AllNumbers(hunks[1..])
  }

  function AllLeaks(hunks: seq<Hunk>): set<nat> {
    if hunks == [] then {} else Leak(hunks[0]) + AllLeaks(hunks[1..])
  }

  lemma {:induction false} ScanBlocks(hunks: seq<Hunk>, fp: FilePatch, inNew: bool)
    ensures Numbers(Scan(Blocks(hunks, NewHeader(fp), OldHeader(fp)), inNew)) == AllNumbers(hunks) + AllLeaks(hunks)
    decreases hunks
  {
    if hunks != [] {
      var block, rest := Block(hunks[0], NewHeader(fp), OldHeader(fp)),
          Blocks(hunks[1..], NewHeader(fp), OldHeader(fp));
      ScanAppend(block, rest, inNew);
      ScanBlock(hunks[0], fp, inNew);
      ScanBlocks(hunks[1..], fp, ModeAtEnd(block, inNew));
      NumbersAppend(Scan(block, inNew), Scan(rest, ModeAtEnd(block, inNew)));
    }
  }

  // ---- joining and splitting loses no number ----------------------------------------------------

  predicate PathsOneLine(fp: FilePatch) {
    OneLine(fp.path) && (fp.previousPath.Some? ==> OneLine(fp.previousPath.value))
  }

  lemma {:induction false} HunksOneLine(lines: seq<string>, newStart: nat, body: seq<string>, inHunk: bool,
                                        header: Header)
    requires AllOneLine(lines) && AllOneLine(body)
    ensures BodiesOneLine(HunksFrom(lines, newStart, body, inHunk, header))
    decreases lines
  {
    if lines != [] {
      match header(lines[0])
      case Some(n) =>
        HunksOneLine(lines[1..], n, [], true, header);
        HunksAtHeader(lines, newStart, body, inHunk, n, header);
        BodiesAppend(if inHunk then [Hunk(newStart, body)] else [], HunksFrom(lines[1..], n, [], true, header));
      case None =>
        HunksOneLine(lines[1..], newStart, if inHunk then body + [lines[0]] else body, inHunk, header);
        HunksAtBody(lines, newStart, body, inHunk, header);
    }
  }

  ghost predicate BodiesOneLine(hunks: seq<Hunk>) { forall i | 0 <= i < |hunks| :: AllOneLine(hunks[i].lines) }

  lemma BodiesAppend(a: seq<Hunk>, b: seq<Hunk>)
    requires BodiesOneLine(a) && BodiesOneLine(b)
    ensures BodiesOneLine(a + b)
  {
  }

  lemma HunksAtBody(lines: seq<string>, newStart: nat, body: seq<string>, inHunk: bool, header: Header)
    requires lines != [] && header(lines[0]) == None
    ensures HunksFrom(lines, newStart, body, inHunk, header) ==
              HunksFrom(lines[1..], newStart, if inHunk then body + [lines[0]] else body, inHunk, header)
  {
  }

  lemma NumberedOneLine(no: nat, content: string)
    requires OneLine(content)
    ensures OneLine(Numbered(no, content))
  {
    PrintParse(no);
  }

  lemma {:induction false} NewLinesOneLine(body: seq<string>, no: nat)
    requires AllOneLine(body)
    ensures AllOneLine(NewLines(body, no))
    decreases body
  {
    if body != [] {
      if OnNewSide(body[0]) {
        NewLinesOneLine(body[1..], no + 1);
        NumberedOneLine(no, body[0][1..]);
      } else {
        NewLinesOneLine(body[1..], no);
      }
    }
  }

  lemma {:induction false} OldLinesOneLine(body: seq<string>)
    requires AllOneLine(body)
    ensures AllOneLine(OldLines(body))
  {
    if body != [] {
      OldLinesOneLine(body[1..]);
    }
  }

  lemma {:induction false} BlocksOneLine(hunks: seq<Hunk>, newHeader: string, oldHeader: string)
    requires OneLine(newHeader) && OneLine(oldHeader)
    requires BodiesOneLine(hunks)
    ensures AllOneLine(Blocks(hunks, newHeader, oldHeader))
  {
    if hunks != [] {
      NewLinesOneLine(hunks[0].lines, hunks[0].newStart);
      OldLinesOneLine(hunks[0].lines);
      BlocksOneLine(hunks[1..], newHeader, oldHeader);
    }
  }

  lemma TrailingEmptyLine(lines: seq<string>, inNew: bool)
    ensures Scan(lines + [[]], inNew) == Scan(lines, inNew)
  {
    ScanAppend(lines, [[]], inNew);
    ScanOne([], ModeAtEnd(lines, inNew));
  }

  lemma JoinedScan(lines: seq<string>, inNew: bool)
    requires AllOneLine(lines)
    ensures Scan(SplitLines(Join(lines)), inNew) == Scan(lines, inNew)
  {
    SplitOfJoin(lines);
    if lines != [] && lines[|lines| - 1] == [] {
      var front := lines[..|lines| - 1];
      assert lines == front + [[]];
      TrailingEmptyLine(front, inNew);
    }
  }

  lemma HeadersOneLine(fp: FilePatch)
    requires PathsOneLine(fp)
    ensures OneLine(NewHeader(fp)) && OneLine(OldHeader(fp))
  {
  }

  lemma RenderedLines(fp: FilePatch)
    requires PathsOneLine(fp)
    ensures Scan(SplitLines(Render(fp)), false) == Scan(Blocks(Hunks(fp.patch), NewHeader(fp), OldHeader(fp)), false)
  {
    HunksOneLine(SplitLines(fp.patch), 1, [], false, HunkHeader);
    HeadersOneLine(fp);
    BlocksOneLine(Hunks(fp.patch), NewHeader(fp), OldHeader(fp));
    JoinedScan(Blocks(Hunks(fp.patch), NewHeader(fp), OldHeader(fp)), false);
  }

  // ---- the static check counts the same hunks ---------------------------------------------------

  function NextNumber(body: seq<string>, no: nat): nat
    decreases body
  {
    if body == [] then no else NextNumber(body[1..], if OnNewSide(body[0]) then no + 1 else no)
  }

  lemma {:induction false} HunkNumbersAppend(body: seq<string>, line: string, no: nat)
    ensures HunkNumbers(body + [line], no) ==
              HunkNumbers(body, no) + (if OnNewSide(line) then {NextNumber(body, no)} else {})
    ensures NextNumber(body + [line], no) == NextNumber(body, no) + (if OnNewSide(line) then 1 else 0)
    decreases body
  {
    if body == [] {
      assert body + [line] == [line] && [line][1..] == [];
    } else {
      assert (body + [line])[1..] == body[1..] + [line];
      HunkNumbersAppend(body[1..], line, if OnNewSide(body[0]) then no + 1 else no);
    }
  }

  /** What `StaticFrom` still adds once the hunk collected so far is accounted for. */
  function StaticTotal(lines: seq<string>, newStart: nat, body: seq<string>, inHunk: bool, header: Header): set<nat> {
    if inHunk then HunkNumbers(body, newStart) + StaticFrom(lines, Some(NextNumber(body, newStart)), header)
    else StaticFrom(lines, None, header)
  }

  lemma CountPrepend(hunk: Hunk, rest: seq<Hunk>)
    ensures AllNumbers([hunk] + rest) == HunkNumbers(hunk.lines, hunk.newStart) + AllNumbers(rest)
  {
    assert ([hunk] + rest)[1..] == rest;
  }

  lemma HunksAtHeader(lines: seq<string>, newStart: nat, body: seq<string>, inHunk: bool, n: nat, header: Header)
    requires lines != [] && header(lines[0]) == Some(n)
    ensures HunksFrom(lines, newStart, body, inHunk, header) ==
              (if inHunk then [Hunk(newStart, body)] else []) + HunksFrom(lines[1..], n, [], true, header)
  {
  }

  lemma StaticAtHeader(lines: seq<string>, no: Option<nat>, n: nat, header: Header)
    requires lines != [] && header(lines[0]) == Some(n)
    ensures StaticFrom(lines, no, header) == StaticFrom(lines[1..], Some(n), header)
  {
  }

  lemma CountAtHeader(lines: seq<string>, newStart: nat, body: seq<string>, inHunk: bool, n: nat, header: Header)
    requires lines != [] && header(lines[0]) == Some(n)
    requires AllNumbers(HunksFrom(lines[1..], n, [], true, header)) == StaticTotal(lines[1..], n, [], true, header)
    ensures AllNumbers(HunksFrom(lines, newStart, body, inHunk, header)) ==
              StaticTotal(lines, newStart, body, inHunk, header)
  {
    var rest := HunksFrom(lines[1..], n, [], true, header);
    assert AllNumbers(rest) == StaticFrom(lines[1..], Some(n), header);
    assert HunksFrom(lines, newStart, body, inHunk, header) ==
           (if inHunk then [Hunk(newStart, body)] else []) + rest by {
      HunksAtHeader(lines, newStart, body, inHunk, n, header);
    }
    assert StaticTotal(lines, newStart, body, inHunk, header) ==
           (if inHunk then HunkNumbers(body, newStart) else {}) + StaticFrom(lines[1..], Some(n), header) by {
      StaticAtHeader(lines, if inHunk then Some(NextNumber(body, newStart)) else None, n, header);
    }
    CountPrepend(Hunk(newStart, body), rest);
    assert [] + rest == rest;
  }

  lemma CountAtBody(lines: seq<string>, newStart: nat, body: seq<string>, inHunk: bool, header: Header)
    requires lines != [] && header(lines[0]) == None
    requires var next := if inHunk then body + [lines[0]] else body;
             AllNumbers(HunksFrom(lines[1..], newStart, next, inHunk, header)) ==
               StaticTotal(lines[1..], newStart, next, inHunk, header)
    ensures AllNumbers(HunksFrom(lines, newStart, body, inHunk, header)) ==
              StaticTotal(lines, newStart, body, inHunk, header)
  {
    HunkNumbersAppend(body, lines[0], newStart);
  }

  lemma {:induction false} StaticCountsHunks(lines: seq<string>, newStart: nat, body: seq<string>, inHunk: bool,
                                             header: Header)
    ensures AllNumbers(HunksFrom(lines, newStart, body, inHunk, header)) ==
              StaticTotal(lines, newStart, body, inHunk, header)
    decreases lines
  {
    if lines == [] {
      if inHunk {
        CountPrepend(Hunk(newStart, body), []);
      }
    } else {
      match header(lines[0])
      case Some(n) =>
        StaticCountsHunks(lines[1..], n, [], true, header);
        CountAtHeader(lines, newStart, body, inHunk, n, header);
      case None =>
        StaticCountsHunks(lines[1..], newStart, if inHunk then body + [lines[0]] else body, inHunk, header);
        CountAtBody(lines, newStart, body, inHunk, header);
    }
  }

  // ---- the theorem ------------------------------------------------------------------------------

  /** Everything the old sides of a patch leak. */
  function Leaked(patch: string): set<nat> { AllLeaks(Hunks(patch)) }

  /** The recoverers read exactly the static new-side numbers plus what the old sides leak. Hence they
      never miss a number, and they agree with the static check exactly when every leaked number is
      a changed line anyway. */
  lemma RecoveredIsStaticPlusLeaks(fp: FilePatch)
    requires PathsOneLine(fp)
    ensures Recovered(Render(fp)) == Static(fp.patch) + Leaked(fp.patch)
    ensures Static(fp.patch) <= Recovered(Render(fp))
    ensures Recovered(Render(fp)) == Static(fp.patch) <==> Leaked(fp.patch) <= Static(fp.patch)
  {
    RenderedLines(fp);
    ScanBlocks(Hunks(fp.patch), fp, false);
    StaticCountsHunks(SplitLines(fp.patch), 1, [], false, HunkHeader);
  }

  /** No line of any old side begins with "NEW ". */
  predicate NoFalseHeader(patch: string) {
    forall i | 0 <= i < |Hunks(patch)| :: QuietOldSide(OldLines(Hunks(patch)[i].lines))
  }

  predicate QuietOldSide(olds: seq<string>) { forall i | 0 <= i < |olds| :: !StartsWith(olds[i], "NEW ") }

  lemma {:induction false} QuietScan(olds: seq<string>)
    requires QuietOldSide(olds)
    ensures Scan(olds, false) == []
  {
    if olds != [] {
      QuietScan(olds[1..]);
    }
  }

  lemma {:induction false} QuietLeaks(hunks: seq<Hunk>)
    requires forall i | 0 <= i < |hunks| :: QuietOldSide(OldLines(hunks[i].lines))
    ensures AllLeaks(hunks) == {}
  {
    if hunks != [] {
      QuietScan(OldLines(hunks[0].lines));
      QuietLeaks(hunks[1..]);
    }
  }

  /** Without such a line, recovering from the rendering and counting in the patch give the same set. */
  lemma RecoveredIsStatic(fp: FilePatch)
    requires PathsOneLine(fp) && NoFalseHeader(fp.patch)
    ensures Recovered(Render(fp)) == Static(fp.patch)
  {
    RecoveredIsStaticPlusLeaks(fp);
    QuietLeaks(Hunks(fp.patch));
  }

  // ---- the hypothesis is needed -----------------------------------------------------------------

  predicate Printable(s: string) { forall i | 0 <= i < |s| :: ' ' <= s[i] <= '~' }

  lemma PrintableIsOneLine(s: string)
    requires Printable(s)
    ensures OneLine(s)
  {
  }

  /** Headers exist, for every new start. */
  lemma HeaderFor(n: nat) returns (line: string)
    ensures HunkHeader(line) == Some(n) && OneLine(line)
  {
    PrintParse(n);
    var d := Print(n);
    line := "@@ -" + ("1" + (" +" + (d + " @@")));
    HeaderReads(line, d);
    HeaderOneLine(d);
  }

  lemma HeaderReads(line: string, d: string)
    requires d != [] && AllDigits(d) && line == "@@ -" + ("1" + (" +" + (d + " @@")))
    ensures HunkHeader(line) == Some(Parse(d))
  {
    var after := d + " @@";
    DigitRunOf("1", " +" + after);
    DigitRunOf(d, " @@");
    HeaderSlices(d);
    HeaderFrom(line, 1, after, |d|);
  }

  lemma HeaderSlices(d: string)
    ensures var after := d + " @@";
            && ("@@ -" + ("1" + (" +" + after)))[4..] == "1" + (" +" + after)
            && ("1" + (" +" + after))[1..] == " +" + after && (" +" + after)[2..] == after
            && after[|d|..] == " @@" && after[..|d|] == d
  {
  }

  /** A header without counts, piece by piece. */
  lemma HeaderFrom(line: string, k: nat, after: string, m: nat)
    requires StartsWith(line, "@@ -") && k == DigitRun(line[4..]) && k > 0
    requires line[4..][k..] == " +" + after && (" +" + after)[2..] == after
    requires m == DigitRun(after) && m > 0 && after[m..] == " @@"
    ensures HunkHeader(line) == Some(Parse(after[..m]))
  {
  }

  lemma HeaderOneLine(d: string)
    requires AllDigits(d)
    ensures OneLine("@@ -" + ("1" + (" +" + (d + " @@"))))
  {
    PrintableAppend(d, " @@");
    PrintableAppend(" +", d + " @@");
    PrintableAppend("1", " +" + (d + " @@"));
    PrintableAppend("@@ -", "1" + (" +" + (d + " @@")));
    PrintableIsOneLine("@@ -" + ("1" + (" +" + (d + " @@"))));
  }

  lemma PrintableAppend(a: string, b: string)
    requires Printable(a) && Printable(b)
    ensures Printable(a + b)
  {
  }

  predicate Deletion(line: string, header: Header) { header(line) == None && !OnNewSide(line) }

  ghost predicate DeletesOnly(lines: seq<string>, header: Header) {
    forall i | 0 < i < |lines| :: Deletion(lines[i], header)
  }

  lemma StepsAtDeletion(lines: seq<string>, n: nat, body: seq<string>, header: Header)
    requires lines != [] && Deletion(lines[0], header)
    ensures HunksFrom(lines, n, body, true, header) == HunksFrom(lines[1..], n, body + [lines[0]], true, header)
    ensures StaticFrom(lines, Some(n), header) == StaticFrom(lines[1..], Some(n), header)
  {
  }

  /** A hunk of deletions, seen by the renderer and by the static check. */
  lemma {:induction false} DeletionHunk(lines: seq<string>, n: nat, body: seq<string>, header: Header)
    requires forall i | 0 <= i < |lines| :: Deletion(lines[i], header)
    ensures HunksFrom(lines, n, body, true, header) == [Hunk(n, body + lines)]
    ensures StaticFrom(lines, Some(n), header) == {}
    decreases lines
  {
    if lines == [] {
      assert body + lines == body;
    } else {
      StepsAtDeletion(lines, n, body, header);
      DeletionHunk(lines[1..], n, body + [lines[0]], header);
      assert body + [lines[0]] + lines[1..] == body + lines;
    }
  }

  lemma DeletedLines(a: string, b: string)
    requires OnOldSide(a) && OnOldSide(b)
    ensures OldLines([a, b]) == [a[1..], b[1..]]
  {
    assert [a, b][1..] == [b] && [b][1..] == [];
    assert OldLines([b]) == [b[1..]];
  }

  lemma ScanFalseHeader(a: string, b: string, n: nat)
    requires StartsWith(a, "NEW ") && !StartsWith(b, "NEW ") && !StartsWith(b, "OLD ") && LineNumber(b) == Some(n)
    ensures Scan([a, b], false) == [n]
  {
    assert [a, b] == [a] + [b];
    ScanAppend([a], [b], false);
    ScanOne(a, false);
    ScanOne(b, true);
  }

  lemma LeakyBody(a: string, b: string, x: string, m: nat, y: string, n: nat)
    requires a == "-" + ("NEW " + x) && b == "-" + Numbered(m, y)
    ensures m in Leak(Hunk(n, [a, b]))
  {
    assert a[0] == '-' && b[0] == '-' && "\\"[0] == '\\';
    assert a[1..] == "NEW " + x && b[1..] == Numbered(m, y);
    DeletedLines(a, b);
    NumberedReads(m, y);
    ScanFalseHeader(a[1..], b[1..], m);
  }

  lemma DashIsDeletion(line: string)
    requires line != [] && line[0] == '-'
    ensures Deletion(line, HunkHeader)
  {
    assert "@@ -"[0] == '@';
  }

  /** A patch of one header and deletions: one hunk, no new-side line. */
  lemma DeletionPatch(lines: seq<string>, n: nat, header: Header)
    requires lines != [] && header(lines[0]) == Some(n)
    requires DeletesOnly(lines, header)
    ensures HunksFrom(lines, 1, [], false, header) == [Hunk(n, lines[1..])] && StaticFrom(lines, None, header) == {}
  {
    var rest := lines[1..];
    DeletionHunk(rest, n, [], header);
    assert [] + rest == rest;
    HunksAtHeader(lines, 1, [], false, n, header);
    StaticAtHeader(lines, None, n, header);
  }

  lemma DeletionText(lines: seq<string>, n: nat)
    requires lines != [] && AllOneLine(lines) && lines[|lines| - 1] != []
    requires HunkHeader(lines[0]) == Some(n) && DeletesOnly(lines, HunkHeader)
    ensures Hunks(Join(lines)) == [Hunk(n, lines[1..])] && Static(Join(lines)) == {}
  {
    SplitOfJoin(lines);
    DeletionPatch(lines, n, HunkHeader);
  }

  lemma OneLeak(hunk: Hunk)
    ensures AllLeaks([hunk]) == Leak(hunk)
  {
    assert [hunk][1..] == [];
  }

  lemma DeletedOneLine(x: string)
    requires OneLine(x)
    ensures OneLine("-" + x) && ("-" + x)[0] == '-'
  {
  }

  /** With one hunk and no changed line, the recoverers read exactly what that hunk leaks. */
  lemma OnlyLeaks(fp: FilePatch, hunk: Hunk)
    requires PathsOneLine(fp) && Hunks(fp.patch) == [hunk] && Static(fp.patch) == {}
    ensures Recovered(Render(fp)) == Leak(hunk)
  {
    OneLeak(hunk);
    RecoveredIsStaticPlusLeaks(fp);
  }

  /** A header and the two deletions. */
  predicate Leaky(lines: seq<string>, x: string, m: nat, y: string) {
    |lines| == 3 && lines[1] == "-" + ("NEW " + x) && lines[2] == "-" + Numbered(m, y)
  }

  lemma LeakyLines(lines: seq<string>, x: string, m: nat, y: string)
    requires Leaky(lines, x, m, y) && OneLine(lines[0]) && OneLine(x) && OneLine(y)
    ensures AllOneLine(lines) && lines[2] != []
  {
    NumberedOneLine(m, y);
    DeletedOneLine("NEW " + x);
    DeletedOneLine(Numbered(m, y));
  }

  lemma LeakyDeletes(lines: seq<string>, x: string, m: nat, y: string)
    requires Leaky(lines, x, m, y)
    ensures DeletesOnly(lines, HunkHeader)
  {
    DashedDeletes(lines);
  }

  lemma DashedDeletes(lines: seq<string>)
    requires forall i | 0 < i < |lines| :: lines[i] != [] && lines[i][0] == '-'
    ensures DeletesOnly(lines, HunkHeader)
  {
    forall i | 0 < i < |lines|
      ensures Deletion(lines[i], HunkHeader)
    {
      DashIsDeletion(lines[i]);
    }
  }

  lemma LeakyPatch(lines: seq<string>, n: nat, x: string, m: nat, y: string)
    requires Leaky(lines, x, m, y) && OneLine(lines[0]) && OneLine(x) && OneLine(y) && HunkHeader(lines[0]) == Some(n)
    ensures Hunks(Join(lines)) == [Hunk(n, lines[1..])] && Static(Join(lines)) == {}
  {
    LeakyLines(lines, x, m, y);
    LeakyDeletes(lines, x, m, y);
    DeletionText(lines, n);
  }

  lemma LeakyHunk(lines: seq<string>, n: nat, x: string, m: nat, y: string)
    requires Leaky(lines, x, m, y)
    ensures m in Leak(Hunk(n, lines[1..]))
  {
    assert lines[1..] == [lines[1], lines[2]];
    LeakyBody(lines[1], lines[2], x, m, y, n);
  }

  /** The whole failing family: after any header, a deleted line that begins with "NEW " and a deleted line
      that looks like line `m` make the recoverers report `m`, while the patch changes no line. */
  lemma FalseHeaderLeaks(fp: FilePatch, lines: seq<string>, n: nat, x: string, m: nat, y: string)
    requires PathsOneLine(fp) && fp.patch == Join(lines)
    requires Leaky(lines, x, m, y) && OneLine(lines[0]) && OneLine(x) && OneLine(y) && HunkHeader(lines[0]) == Some(n)
    ensures m in Recovered(Render(fp)) && Static(fp.patch) == {}
  {
    LeakyHunk(lines, n, x, m, y);
    LeakyPatch(lines, n, x, m, y);
    OnlyLeaks(fp, Hunk(n, lines[1..]));
  }

  lemma LeakyExists(header: string, m: nat) returns (lines: seq<string>)
    ensures Leaky(lines, [], m, []) && lines[0] == header
  {
    lines := [header, "-" + ("NEW " + []), "-" + Numbered(m, [])];
  }

  /** One such patch for every number: the recoverers report a line of a patch that only deletes. */
  lemma AnyNumberLeaks(path: string, m: nat) returns (fp: FilePatch)
    requires OneLine(path)
    ensures fp.path == path && m in Recovered(Render(fp)) && Static(fp.patch) == {}
  {
    var header := HeaderFor(1);
    var lines := LeakyExists(header, m);
    fp := FilePatch(path, Join(lines), None);
    FalseHeaderLeaks(fp, lines, 1, [], m, []);
  }
}
