/** Lines, hunk headers, and the numbered rendering of a patch, as character sequences. */
module DiffText {
  import opened Common
  import opened Decimal

  // ---- lines ------------------------------------------------------------------------------------

  /** The boundaries `str.splitlines` recognises. */
  predicate IsBreak(c: char) {
    c == '\n' || c == '\r' || '\U{0B}' <= c <= '\U{0C}' || '\U{1C}' <= c <= '\U{1E}'
    || c == '\U{85}' || '\U{2028}' <= c <= '\U{2029}'
  }

  predicate OneLine(s: string) { forall i | 0 <= i < |s| :: !IsBreak(s[i]) }

  predicate AllOneLine(lines: seq<string>) { forall i | 0 <= i < |lines| :: OneLine(lines[i]) }

  function FirstBreak(s: string): (k: nat)
    ensures k <= |s| && OneLine(s[..k]) && (k < |s| ==> IsBreak(s[k]))
  {
    if s == [] || IsBreak(s[0]) then 0
    else
      var k := FirstBreak(s[1..]) + 1;
      assert s[..k] == [s[0]] + s[1..][..k - 1];
      k
  }

  function SplitLines(s: string): (lines: seq<string>)
    ensures AllOneLine(lines)
  {
    if s == [] then []
    else
      var k := FirstBreak(s);
      if k == |s| then [s]
      else
        var next := if s[k] == '\r' && k + 1 < |s| && s[k + 1] == '\n' then k + 2 else k + 1;
        [s[..k]] + SplitLines(s[next..])
  }

  /** `"\n".join(lines)`. */
  function Join(lines: seq<string>): string {
    if lines == [] then []
    else if |lines| == 1 then lines[0]
    else lines[0] + "\n" + Join(lines[1..])
  }

  lemma {:induction false} FirstBreakOf(x: string, rest: string)
    requires OneLine(x)
    ensures FirstBreak(x + rest) == |x| + FirstBreak(rest)
  {
    if x == [] {
      assert x + rest == rest;
    } else {
      assert (x + rest)[1..] == x[1..] + rest;
      FirstBreakOf(x[1..], rest);
    }
  }

  lemma SplitOneLine(x: string)
    requires OneLine(x)
    ensures SplitLines(x) == if x == [] then [] else [x]
  {
    FirstBreakOf(x, []);
    assert x + [] == x;
  }

  lemma SplitFirst(x: string, rest: string)
    requires OneLine(x)
    ensures SplitLines(x + "\n" + rest) == [x] + SplitLines(rest)
  {
    var s := x + "\n" + rest;
    assert s == x + ("\n" + rest);
    FirstBreakOf(x, "\n" + rest);
    assert FirstBreak("\n" + rest) == 0;
    assert s[..|x|] == x && s[|x|] == '\n' && s[|x| + 1..] == rest;
  }

  /** Splitting a joined text gives the lines back, except that one trailing empty line is lost. */
  lemma {:induction false} SplitOfJoin(lines: seq<string>)
    requires AllOneLine(lines)
    ensures SplitLines(Join(lines)) ==
              if lines != [] && lines[|lines| - 1] == [] then lines[..|lines| - 1] else lines
  {
    if |lines| == 1 {
      SplitOneLine(lines[0]);
      assert lines == [lines[0]] && lines[..0] == [];
    } else if |lines| > 1 {
      var rest := lines[1..];
      assert lines == [lines[0]] + rest;
      SplitOfJoin(rest);
      SplitFirst(lines[0], Join(rest));
      assert rest[|rest| - 1] == lines[|lines| - 1];
      assert lines[..|lines| - 1] == [lines[0]] + rest[..|rest| - 1];
    }
  }

  predicate StartsWith(s: string, prefix: string) { prefix <= s }

  // ---- hunk headers -----------------------------------------------------------------------------

  function DigitRun(s: string): (k: nat)
    ensures k <= |s| && AllDigits(s[..k]) && (k < |s| ==> !IsDigit(s[k]))
  {
    if s == [] || !IsDigit(s[0]) then 0
    else
      var k := DigitRun(s[1..]) + 1;
      assert s[..k] == [s[0]] + s[1..][..k - 1];
      k
  }

  /** `(?:,(\d+))?` */
  function SkipCount(s: string): string {
    if s != [] && s[0] == ',' && DigitRun(s[1..]) > 0 then s[1..][DigitRun(s[1..])..] else s
  }

  /** Matches `^@@ -(\d+)(?:,(\d+))? \+(\d+)(?:,(\d+))? @@` and returns the new start. */
  function HunkHeader(line: string): Option<nat> {
    if !StartsWith(line, "@@ -") then None
    else
      var before := line[4..];
      var k := DigitRun(before);
      if k == 0 then None
      else
        var mid := SkipCount(before[k..]);
        if !StartsWith(mid, " +") then None
        else
          var after := mid[2..];
          var m := DigitRun(after);
          if m == 0 || !StartsWith(SkipCount(after[m..]), " @@") then None
          else Some(Parse(after[..m]))
  }

  // ---- the renderer -----------------------------------------------------------------------------

  datatype Hunk = Hunk(newStart: nat, lines: seq<string>)
  datatype FilePatch = FilePatch(path: string, patch: string, previousPath: Option<string>)

  /** A recogniser of hunk headers that yields the new start; the program uses `HunkHeader`. */
  type Header = string -> Option<nat>

  /** `_parse_hunks` from the middle of its loop. */
  function HunksFrom(lines: seq<string>, newStart: nat, body: seq<string>, inHunk: bool, header: Header): seq<Hunk>
    decreases lines
  {
    if lines == [] then (if inHunk then [Hunk(newStart, body)] else [])
    else
      match header(lines[0])
      case Some(n) => (if inHunk then [Hunk(newStart, body)] else []) + HunksFrom(lines[1..], n, [], true, header)
      case None => HunksFrom(lines[1..], newStart, if inHunk then body + [lines[0]] else body, inHunk, header)
  }

  function Hunks(patch: string): seq<Hunk> { HunksFrom(SplitLines(patch), 1, [], false, HunkHeader) }

  predicate Skipped(raw: string) { StartsWith(raw, "\\") || raw == [] }
  predicate OnNewSide(raw: string) { !Skipped(raw) && (raw[0] == ' ' || raw[0] == '+') }
  predicate OnOldSide(raw: string) { !Skipped(raw) && (raw[0] == ' ' || raw[0] == '-') }

  function Numbered(no: nat, content: string): string { Print(no) + "| " + content }

  /** The two result lists of `_split_hunk`. */
  function NewLines(body: seq<string>, no: nat): seq<string>
    decreases body
  {
    if body == [] then []
    else if OnNewSide(body[0]) then [Numbered(no, body[0][1..])] + NewLines(body[1..], no + 1)
    else NewLines(body[1..], no)
  }

  function OldLines(body: seq<string>): seq<string> {
    if body == [] then []
    else (if OnOldSide(body[0]) then [body[0][1..]] else []) + OldLines(body[1..])
  }

  function Block(hunk: Hunk, newHeader: string, oldHeader: string): seq<string> {
    [newHeader] + NewLines(hunk.lines, hunk.newStart) + [oldHeader] + OldLines(hunk.lines)
  }

  function Blocks(hunks: seq<Hunk>, newHeader: string, oldHeader: string): seq<string> {
    if hunks == [] then [] else Block(hunks[0], newHeader, oldHeader) + Blocks(hunks[1..], newHeader, oldHeader)
  }

  function NewHeader(fp: FilePatch): string { "NEW " + fp.path }

  function OldHeader(fp: FilePatch): string {
    "OLD " + if fp.previousPath.Some? && fp.previousPath.value != [] then fp.previousPath.value else fp.path
  }

  function Render(fp: FilePatch): string {
    Join(Blocks(Hunks(fp.patch), NewHeader(fp), OldHeader(fp)))
  }

  // ---- the recoverers ---------------------------------------------------------------------------

  /** Matches `^(\d+)\| `. */
  function LineNumber(line: string): Option<nat> {
    var k := DigitRun(line);
    if k > 0 && StartsWith(line[k..], "| ") then Some(Parse(line[..k])) else None
  }

  /** One step of the scan: the mode after a line, and the number it contributes. */
  function ModeAfter(line: string, inNew: bool): bool {
    if StartsWith(line, "NEW ") then true else if StartsWith(line, "OLD ") then false else inNew
  }

  function Contribution(line: string, inNew: bool): seq<nat> {
    if StartsWith(line, "NEW ") || StartsWith(line, "OLD ") || !inNew || LineNumber(line).None? then []
    else [LineNumber(line).value]
  }

  /** The numbers a text recoverer collects, in order. */
  function Scan(lines: seq<string>, inNew: bool): seq<nat>
    decreases lines
  {
    if lines == [] then []
    else Contribution(lines[0], inNew) + Scan(lines[1..], ModeAfter(lines[0], inNew))
  }

  function Numbers(s: seq<nat>): set<nat> { set n | n in s }

  /** The numbers recovered from a rendering. */
  function Recovered(content: string): set<nat> { Numbers(Scan(SplitLines(content), false)) }

  /** `static_checks._new_side_lines`, straight from the patch. */
  function StaticFrom(lines: seq<string>, no: Option<nat>, header: Header): set<nat>
    decreases lines
  {
    if lines == [] then {}
    else
      match header(lines[0])
      case Some(n) => StaticFrom(lines[1..], Some(n), header)
      case None =>
        if no.None? || !OnNewSide(lines[0]) then StaticFrom(lines[1..], no, header)
        else {no.value} + StaticFrom(lines[1..], Some(no.value + 1), header)
  }

  function Static(patch: string): set<nat> { StaticFrom(SplitLines(patch), None, HunkHeader) }
}
