/** The diff pipeline against the texts a patch was made from: a hunk is a list of edits between an old and a new
    text, and what the renderer shows and the checks count is told in terms of those texts. */
module EditScripts {
  import opened Common
  import opened Decimal
  import opened DiffText
  import opened DiffAgreement
  import opened Packing

  /** One line of a hunk; the last is the note that a file lacks its final newline. */
  datatype Edit = Keep(text: string) | Add(text: string) | Delete(text: string) | NoFinalNewline

  datatype HunkOf = HunkOf(header: string, start: nat, edits: seq<Edit>)

  function PatchLine(e: Edit): string {
    match e
    case Keep(text) => " " + text
    case Add(text) => "+" + text
    case Delete(text) => "-" + text
    case NoFinalNewline => "\\ No newline at end of file"
  }

  function PatchLines(es: seq<Edit>): seq<string> { if es == [] then [] else [PatchLine(es[0])] + PatchLines(es[1..]) }

  /** The new and the old text of a hunk. */
  function NewText(es: seq<Edit>): seq<string> {
    if es == [] then [] else (if es[0].Keep? || es[0].Add? then [es[0].text] else []) + NewText(es[1..])
  }

  function OldText(es: seq<Edit>): seq<string> {
    if es == [] then [] else (if es[0].Keep? || es[0].Delete? then [es[0].text] else []) + OldText(es[1..])
  }

  function AllLines(hunks: seq<HunkOf>): seq<string> {
    if hunks == [] then [] else [hunks[0].header] + PatchLines(hunks[0].edits) + AllLines(hunks[1..])
  }

  /** Each header announces its start, and every text is one line. */
  ghost predicate WellMade(hunks: seq<HunkOf>) {
    forall h | h in hunks ::
      && HunkHeader(h.header) == Some(h.start) && OneLine(h.header)
      && forall e | e in h.edits && !e.NoFinalNewline? :: OneLine(e.text)
  }

  /** The same as far as splitting into lines goes. */
  ghost predicate Lined(hunks: seq<HunkOf>) {
    forall h | h in hunks ::
      h.header != [] && OneLine(h.header) && forall e | e in h.edits && !e.NoFinalNewline? :: OneLine(e.text)
  }

  lemma HeaderStarts(header: string)
    requires HunkHeader(header).Some?
    ensures header != [] && header[0] == '@'
  {
    assert "@@ -" <= header && "@@ -"[0] == '@';
  }

  lemma WellMadeIsLined(hunks: seq<HunkOf>)
    requires WellMade(hunks)
    ensures Lined(hunks)
  {
    forall h | h in hunks
      ensures h.header != []
    {
      HeaderStarts(h.header);
    }
  }

  // ---- one line ----------------------------------------------------------------------------------

  lemma PatchLineSides(e: Edit)
    ensures var line := PatchLine(e);
            && line != [] && HunkHeader(line) == None
            && (OnNewSide(line) <==> e.Keep? || e.Add?) && (OnOldSide(line) <==> e.Keep? || e.Delete?)
            && (!e.NoFinalNewline? ==> line[1..] == e.text)
  {
    var line := PatchLine(e);
    assert "@@ -"[0] == '@' && "\\"[0] == '\\';
    assert e.NoFinalNewline? ==> line[0] == '\\' && line[..1] == "\\";
  }

  lemma PatchLineIsOneLine(e: Edit)
    requires !e.NoFinalNewline? ==> OneLine(e.text)
    ensures OneLine(PatchLine(e))
  {
    if e.NoFinalNewline? {
      PrintableIsOneLine("\\ No newline at end of file");
    }
  }

  // ---- what a hunk shows -------------------------------------------------------------------------

  /** The new text, each line with its number. */
  function Counted(texts: seq<string>, no: nat): seq<string> {
    seq(|texts|, i requires 0 <= i < |texts| => Numbered(no + i, texts[i]))
  }

  /** The two sides of a rendered hunk are its new text, numbered from its start, and its old text. */
  lemma {:induction false} SidesAreTexts(es: seq<Edit>, no: nat)
    ensures NewLines(PatchLines(es), no) == Counted(NewText(es), no)
    ensures OldLines(PatchLines(es)) == OldText(es)
    decreases es
  {
    if es != [] {
      var e, rest := es[0], es[1..];
      var text := if e.NoFinalNewline? then [] else e.text;
      PatchLineSides(e);
      SidesAreTexts(rest, if OnNewSide(PatchLine(e)) then no + 1 else no);
      NewStep(PatchLine(e), PatchLines(rest), text, NewText(rest), no);
      OldStep(PatchLine(e), PatchLines(rest), text, OldText(rest));
    }
  }

  lemma NewStep(line: string, body: seq<string>, text: string, texts: seq<string>, no: nat)
    requires OnNewSide(line) ==> line[1..] == text
    requires var no' := if OnNewSide(line) then no + 1 else no; NewLines(body, no') == Counted(texts, no')
    ensures NewLines([line] + body, no) == Counted((if OnNewSide(line) then [text] else []) + texts, no)
  {
    assert ([line] + body)[1..] == body;
    if OnNewSide(line) {
      CountedStep(text, texts, no);
    } else {
      assert [] + texts == texts;
    }
  }

  lemma OldStep(line: string, body: seq<string>, text: string, texts: seq<string>)
    requires OnOldSide(line) ==> line[1..] == text
    requires OldLines(body) == texts
    ensures OldLines([line] + body) == (if OnOldSide(line) then [text] else []) + texts
  {
    assert ([line] + body)[1..] == body;
  }

  lemma CountedStep(text: string, texts: seq<string>, no: nat)
    ensures Counted([text] + texts, no) == [Numbered(no, text)] + Counted(texts, no + 1)
  {
  }

  /** `no` and the numbers after it, `count` of them. */
  function NumbersFrom(no: nat, count: nat): set<nat>
    decreases count
  {
    if count == 0 then {} else {no} + NumbersFrom(no + 1, count - 1)
  }

  lemma {:induction false} NumbersFromMeans(no: nat, count: nat, n: nat)
    ensures n in NumbersFrom(no, count) <==> no <= n < no + count
    decreases count
  {
    if count > 0 {
      NumbersFromMeans(no + 1, count - 1, n);
    }
  }

  lemma {:induction false} HunkCountsNewText(es: seq<Edit>, no: nat)
    ensures HunkNumbers(PatchLines(es), no) == NumbersFrom(no, |NewText(es)|)
    decreases es
  {
    if es != [] {
      PatchLineSides(es[0]);
      assert PatchLines(es)[0] == PatchLine(es[0]) && PatchLines(es)[1..] == PatchLines(es[1..]);
      HunkCountsNewText(es[1..], if es[0].Keep? || es[0].Add? then no + 1 else no);
    }
  }

  // ---- what a patch parses to --------------------------------------------------------------------

  function Parsed(hunks: seq<HunkOf>): seq<Hunk> {
    if hunks == [] then [] else [Hunk(hunks[0].start, PatchLines(hunks[0].edits))] + Parsed(hunks[1..])
  }

  lemma {:induction false} BodyIsCollected(body: seq<string>, rest: seq<string>, n: nat, acc: seq<string>,
                                           header: Header)
    requires forall l | l in body :: header(l) == None
    ensures HunksFrom(body + rest, n, acc, true, header) == HunksFrom(rest, n, acc + body, true, header)
    decreases body
  {
    if body == [] {
      assert body + rest == rest && acc + body == acc;
    } else {
      assert (body + rest)[0] == body[0] && (body + rest)[1..] == body[1..] + rest && body[0] in body;
      HunksAtBody(body + rest, n, acc, true, header);
      BodyIsCollected(body[1..], rest, n, acc + [body[0]], header);
      assert acc + [body[0]] + body[1..] == acc + body;
    }
  }

  lemma {:induction false} BodiesHaveNoHeader(es: seq<Edit>)
    ensures forall l | l in PatchLines(es) :: HunkHeader(l) == None
    decreases es
  {
    if es != [] {
      PatchLineSides(es[0]);
      BodiesHaveNoHeader(es[1..]);
    }
  }

  ghost predicate Announced(hunks: seq<HunkOf>, header: Header) {
    forall h | h in hunks ::
      header(h.header) == Some(h.start) && forall l | l in PatchLines(h.edits) :: header(l) == None
  }

  lemma {:induction false} LinesParse(hunks: seq<HunkOf>, n: nat, acc: seq<string>, inHunk: bool, header: Header)
    requires Announced(hunks, header)
    ensures HunksFrom(AllLines(hunks), n, acc, inHunk, header) ==
              (if inHunk then [Hunk(n, acc)] else []) + Parsed(hunks)
    decreases hunks
  {
    if hunks != [] {
      var h, rest := hunks[0], AllLines(hunks[1..]);
      var body := PatchLines(h.edits);
      var lines := AllLines(hunks);
      assert lines[0] == h.header && lines[1..] == body + rest && h in hunks;
      HunksAtHeader(lines, n, acc, inHunk, h.start, header);
      BodyIsCollected(body, rest, h.start, [], header);
      assert [] + body == body;
      assert Announced(hunks[1..], header);
      LinesParse(hunks[1..], h.start, body, true, header);
    }
  }

  lemma {:induction false} LinesAreLines(hunks: seq<HunkOf>)
    requires Lined(hunks)
    ensures AllOneLine(AllLines(hunks)) && (hunks != [] ==> AllLines(hunks)[|AllLines(hunks)| - 1] != [])
    decreases hunks
  {
    if hunks != [] {
      var h := hunks[0];
      assert h in hunks;
      BodyLines(h.edits);
      LinesAreLines(hunks[1..]);
      LastOfThree(h.header, PatchLines(h.edits), AllLines(hunks[1..]));
    }
  }

  lemma LastOfThree(header: string, body: seq<string>, rest: seq<string>)
    requires header != [] && OneLine(header) && AllOneLine(body) && AllOneLine(rest)
    requires forall i | 0 <= i < |body| :: body[i] != []
    requires rest != [] ==> rest[|rest| - 1] != []
    ensures var lines := [header] + body + rest;
            AllOneLine(lines) && lines[|lines| - 1] != []
  {
  }

  lemma LinesSplit(hunks: seq<HunkOf>)
    requires Lined(hunks)
    ensures SplitLines(Join(AllLines(hunks))) == AllLines(hunks)
  {
    LinesAreLines(hunks);
    SplitOfJoin(AllLines(hunks));
  }

  lemma {:induction false} BodyLines(es: seq<Edit>)
    requires forall e | e in es && !e.NoFinalNewline? :: OneLine(e.text)
    ensures AllOneLine(PatchLines(es)) && forall i | 0 <= i < |PatchLines(es)| :: PatchLines(es)[i] != []
    decreases es
  {
    if es != [] {
      assert es[0] in es;
      PatchLineSides(es[0]);
      PatchLineIsOneLine(es[0]);
      BodyLines(es[1..]);
    }
  }

  /** A patch parses to its hunks, whatever the headers look like that announce them. */
  lemma PatchParses(hunks: seq<HunkOf>)
    requires WellMade(hunks)
    ensures Hunks(Join(AllLines(hunks))) == Parsed(hunks)
  {
    WellMadeIsLined(hunks);
    LinesSplit(hunks);
    forall h | h in hunks
      ensures forall l | l in PatchLines(h.edits) :: HunkHeader(l) == None
    {
      BodiesHaveNoHeader(h.edits);
    }
    LinesParse(hunks, 1, [], false, HunkHeader);
  }

  // ---- the whole rendering -----------------------------------------------------------------------

  /** What the model is shown of a file: for each hunk the file's name, the new text with its line numbers, the name
      it had before, and the old text. */
  function Display(path: string, previousPath: Option<string>, hunks: seq<HunkOf>): seq<string> {
    if hunks == [] then []
    else
      var before := if previousPath.Some? && |previousPath.value| > 0 then previousPath.value else path;
      ["NEW " + path] + Counted(NewText(hunks[0].edits), hunks[0].start)
      + ["OLD " + before] + OldText(hunks[0].edits) + Display(path, previousPath, hunks[1..])
  }

  lemma {:induction false} BlocksAreDisplay(fp: FilePatch, hunks: seq<HunkOf>)
    ensures Blocks(Parsed(hunks), NewHeader(fp), OldHeader(fp)) == Display(fp.path, fp.previousPath, hunks)
    decreases hunks
  {
    if hunks != [] {
      var h := hunks[0];
      SidesAreTexts(h.edits, h.start);
      BlocksAreDisplay(fp, hunks[1..]);
      assert Parsed(hunks)[0] == Hunk(h.start, PatchLines(h.edits)) && Parsed(hunks)[1..] == Parsed(hunks[1..]);
      var rest := Blocks(Parsed(hunks[1..]), NewHeader(fp), OldHeader(fp));
      assert Blocks(Parsed(hunks), NewHeader(fp), OldHeader(fp)) ==
             Block(Hunk(h.start, PatchLines(h.edits)), NewHeader(fp), OldHeader(fp)) + rest;
    }
  }

  /** The rendering of a patch is the display of its hunks, line by line. */
  lemma RenderingIsTrue(path: string, previousPath: Option<string>, hunks: seq<HunkOf>)
    requires WellMade(hunks)
    ensures Render(FilePatch(path, Join(AllLines(hunks)), previousPath)) == Join(Display(path, previousPath, hunks))
  {
    PatchParses(hunks);
    BlocksAreDisplay(FilePatch(path, Join(AllLines(hunks)), previousPath), hunks);
  }

  // ---- the numbers -------------------------------------------------------------------------------

  /** Where the new texts of the hunks stand. */
  function NewPlaces(hunks: seq<HunkOf>): set<nat> {
    if hunks == [] then {} else NumbersFrom(hunks[0].start, |NewText(hunks[0].edits)|) + NewPlaces(hunks[1..])
  }

  lemma {:induction false} ParsedNumbers(hunks: seq<HunkOf>)
    ensures AllNumbers(Parsed(hunks)) == NewPlaces(hunks)
    decreases hunks
  {
    if hunks != [] {
      HunkCountsNewText(hunks[0].edits, hunks[0].start);
      ParsedNumbers(hunks[1..]);
      assert Parsed(hunks)[1..] == Parsed(hunks[1..]);
    }
  }

  /** The static check counts exactly the places of the new texts. */
  lemma StaticIsTrue(hunks: seq<HunkOf>)
    requires WellMade(hunks)
    ensures Static(Join(AllLines(hunks))) == NewPlaces(hunks)
  {
    var patch := Join(AllLines(hunks));
    StaticCountsHunks(SplitLines(patch), 1, [], false, HunkHeader);
    PatchParses(hunks);
    ParsedNumbers(hunks);
  }

  lemma {:induction false} ParsedOldSides(hunks: seq<HunkOf>, i: nat)
    requires i < |Parsed(hunks)|
    ensures i < |hunks| && Parsed(hunks)[i] == Hunk(hunks[i].start, PatchLines(hunks[i].edits))
    ensures OldLines(Parsed(hunks)[i].lines) == OldText(hunks[i].edits)
    decreases hunks
  {
    if i == 0 {
      SidesAreTexts(hunks[0].edits, 0);
    } else {
      ParsedOldSides(hunks[1..], i - 1);
    }
  }

  /** The recoverers read exactly the places of the new texts from the rendering, unless an old line begins with
      "NEW ". */
  lemma RecoveredIsTrue(path: string, previousPath: Option<string>, hunks: seq<HunkOf>)
    requires WellMade(hunks) && OneLine(path) && (previousPath.Some? ==> OneLine(previousPath.value))
    requires forall h, t | h in hunks && t in OldText(h.edits) :: !StartsWith(t, "NEW ")
    ensures Recovered(Render(FilePatch(path, Join(AllLines(hunks)), previousPath))) == NewPlaces(hunks)
  {
    var fp := FilePatch(path, Join(AllLines(hunks)), previousPath);
    PatchParses(hunks);
    forall i | 0 <= i < |Parsed(hunks)|
      ensures QuietOldSide(OldLines(Parsed(hunks)[i].lines))
    {
      ParsedOldSides(hunks, i);
      assert hunks[i] in hunks;
    }
    RecoveredIsStatic(fp);
    StaticIsTrue(hunks);
  }

  // ---- the change size ---------------------------------------------------------------------------

  /** Added and deleted lines; one whose text would make it look like a file header is overlooked. */
  predicate Counts(e: Edit) {
    (e.Add? && !StartsWith(e.text, "++")) || (e.Delete? && !StartsWith(e.text, "--"))
  }

  function Changes(es: seq<Edit>): nat { if es == [] then 0 else (if Counts(es[0]) then 1 else 0) + Changes(es[1..]) }

  function AllChanges(hunks: seq<HunkOf>): nat {
    if hunks == [] then 0 else Changes(hunks[0].edits) + AllChanges(hunks[1..])
  }

  lemma PatchLineCounts(e: Edit)
    ensures CountsAsChange(PatchLine(e)) <==> Counts(e)
  {
    var line := PatchLine(e);
    match e
    case Keep(_) => assert line[0] == ' ';
    case Add(text) => AddedCounts(text);
    case Delete(text) => DeletedCounts(text);
    case NoFinalNewline => assert line[0] == '\\';
  }

  lemma AddedCounts(text: string)
    ensures CountsAsChange("+" + text) <==> !StartsWith(text, "++")
  {
    var line := "+" + text;
    assert line[0] == '+' && "---"[0] == '-' && line[..1] == "+";
    LooksLikeHeader('+', text);
    assert "+++" == ['+', '+', '+'] && "++" == ['+', '+'] && line == ['+'] + text;
  }

  lemma DeletedCounts(text: string)
    ensures CountsAsChange("-" + text) <==> !StartsWith(text, "--")
  {
    var line := "-" + text;
    assert line[0] == '-' && "+++"[0] == '+' && line[..1] == "-";
    LooksLikeHeader('-', text);
    assert "---" == ['-', '-', '-'] && "--" == ['-', '-'] && line == ['-'] + text;
  }

  lemma LooksLikeHeader(c: char, text: string)
    ensures StartsWith([c] + text, [c, c, c]) <==> StartsWith(text, [c, c])
  {
    var line := [c] + text;
    assert line[1..] == text;
    if |text| >= 2 {
      assert line[1] == text[0] && line[2] == text[1];
    }
  }

  lemma {:induction false} ChangesAppend(a: seq<string>, b: seq<string>)
    ensures ChangedLines(a + b) == ChangedLines(a) + ChangedLines(b)
    decreases a
  {
    if a == [] {
      assert a + b == b;
    } else {
      assert (a + b)[0] == a[0] && (a + b)[1..] == a[1..] + b;
      ChangesAppend(a[1..], b);
    }
  }

  lemma {:induction false} BodyChanges(es: seq<Edit>)
    ensures ChangedLines(PatchLines(es)) == Changes(es)
    decreases es
  {
    if es != [] {
      PatchLineCounts(es[0]);
      BodyChanges(es[1..]);
      assert PatchLines(es)[0] == PatchLine(es[0]) && PatchLines(es)[1..] == PatchLines(es[1..]);
    }
  }

  lemma HeaderChangesNothing(header: string)
    requires HunkHeader(header).Some?
    ensures ChangedLines([header]) == 0
  {
    HeaderStarts(header);
    NoChange(header);
  }

  lemma NoChange(line: string)
    requires line != [] && line[0] == '@'
    ensures ChangedLines([line]) == 0
  {
    assert "+"[0] == '+' && "-"[0] == '-' && [line][1..] == [];
  }

  lemma {:induction false} LinesChanges(hunks: seq<HunkOf>)
    requires forall h | h in hunks :: HunkHeader(h.header).Some?
    ensures ChangedLines(AllLines(hunks)) == AllChanges(hunks)
    decreases hunks
  {
    if hunks != [] {
      var h := hunks[0];
      assert h in hunks;
      HeaderChangesNothing(h.header);
      BodyChanges(h.edits);
      LinesChanges(hunks[1..]);
      ChangesAppend([h.header], PatchLines(h.edits));
      ChangesAppend([h.header] + PatchLines(h.edits), AllLines(hunks[1..]));
    }
  }

  /** The change size of a patch is the number of its added and deleted lines, those overlooked aside. */
  lemma ChangeSizeIsTrue(hunks: seq<HunkOf>)
    requires WellMade(hunks)
    ensures ChangeSize(Some(Join(AllLines(hunks)))) == AllChanges(hunks)
  {
    var lines := AllLines(hunks);
    WellMadeIsLined(hunks);
    LinesSplit(hunks);
    LinesChanges(hunks);
    SizeOf(Join(lines), lines);
  }

  lemma SizeOf(patch: string, lines: seq<string>)
    requires SplitLines(patch) == lines
    ensures ChangeSize(Some(patch)) == ChangedLines(lines)
  {
  }

  // ---- headers with counts -----------------------------------------------------------------------

  /** A start, and a line count unless it is left out. */
  function Range(start: nat, count: Option<nat>): string {
    Print(start) + if count.Some? then [','] + Print(count.value) else []
  }

  function HeaderOf(oldStart: nat, oldCount: Option<nat>, newStart: nat, newCount: Option<nat>, tail: string): string {
    "@@ -" + (Range(oldStart, oldCount) + (" +" + (Range(newStart, newCount) + (" @@" + tail))))
  }

  /** Reading a range leaves what follows it. */
  lemma RangeReads(start: nat, count: Option<nat>, rest: string)
    requires rest != [] && !IsDigit(rest[0]) && rest[0] != ','
    ensures var s, k := Range(start, count) + rest, |Print(start)|;
            DigitRun(s) == k > 0 && s[..k] == Print(start) && SkipCount(s[k..]) == rest
  {
    var after := AfterStart(start, count, rest);
    PrintParse(start);
    ReadsDigits(Print(start), after);
  }

  lemma ReadsDigits(d: string, after: string)
    requires d != [] && AllDigits(d) && after != [] && !IsDigit(after[0])
    ensures DigitRun(d + after) == |d| && (d + after)[..|d|] == d && (d + after)[|d|..] == after
  {
    DigitRunOf(d, after);
  }

  lemma AfterStart(start: nat, count: Option<nat>, rest: string) returns (after: string)
    requires rest != [] && !IsDigit(rest[0]) && rest[0] != ','
    ensures Range(start, count) + rest == Print(start) + after
    ensures after != [] && !IsDigit(after[0]) && SkipCount(after) == rest
  {
    if count.Some? {
      var e := Print(count.value);
      PrintParse(count.value);
      after := [','] + (e + rest);
      SkipsCount(e, rest, after);
      CommaParts(Print(start), e, rest);
    } else {
      after := rest;
      SkipsNothing(rest);
      NoParts(Print(start), rest);
    }
  }

  lemma CommaParts(d: string, e: string, rest: string)
    ensures d + ([','] + e) + rest == d + ([','] + (e + rest))
  {
  }

  lemma NoParts(d: string, rest: string)
    ensures d + [] + rest == d + rest
  {
  }

  lemma SkipsCount(e: string, rest: string, after: string)
    requires e != [] && AllDigits(e) && (rest == [] || !IsDigit(rest[0])) && after == [','] + (e + rest)
    ensures SkipCount(after) == rest && after != [] && !IsDigit(after[0])
  {
    DigitRunOf(e, rest);
    assert after[1..] == e + rest && (e + rest)[|e|..] == rest;
  }

  lemma SkipsNothing(rest: string)
    requires rest == [] || rest[0] != ','
    ensures SkipCount(rest) == rest
  {
  }

  /** Every header, with or without its counts and whatever follows it, is read back as its new start. */
  lemma HeaderReadsBack(oldStart: nat, oldCount: Option<nat>, newStart: nat, newCount: Option<nat>, tail: string)
    ensures HunkHeader(HeaderOf(oldStart, oldCount, newStart, newCount, tail)) == Some(newStart)
  {
    var last := " @@" + tail;
    var new_ := Range(newStart, newCount) + last;
    var mid := " +" + new_;
    var old_ := Range(oldStart, oldCount) + mid;
    RangeReads(newStart, newCount, last);
    RangeReads(oldStart, oldCount, mid);
    PrintParse(newStart);
    HeaderSteps("@@ -" + old_, old_, mid, new_, last, |Print(oldStart)|, |Print(newStart)|);
  }

  lemma HeaderSteps(line: string, old_: string, mid: string, new_: string, last: string, k: nat, m: nat)
    requires line == "@@ -" + old_ && DigitRun(old_) == k > 0 && SkipCount(old_[k..]) == mid
    requires mid == " +" + new_ && DigitRun(new_) == m > 0 && SkipCount(new_[m..]) == last && StartsWith(last, " @@")
    ensures HunkHeader(line) == Some(Parse(new_[..m]))
  {
    assert line[4..] == old_ && mid[2..] == new_;
  }
}
