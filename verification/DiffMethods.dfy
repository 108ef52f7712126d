/** The diff loops as the program runs them, each proved equal to its function in `DiffText`. */
module DiffMethods {
  import opened Common
  import opened Decimal
  import opened DiffText
  import opened DiffAgreement

  /** `_parse_hunks`. */
  method ParseHunks(patch: string) returns (hunks: seq<Hunk>)
    ensures hunks == Hunks(patch)
  {
    hunks := ParseLines(SplitLines(patch), HunkHeader);
  }

  /** Its loop, for any header recogniser. */
  method ParseLines(lines: seq<string>, header: Header) returns (hunks: seq<Hunk>)
    ensures hunks == HunksFrom(lines, 1, [], false, header)
  {
    hunks := [];
    var newStart, body, inHunk := 1, [], false;
    var i := 0;
    ghost var all := HunksFrom(lines, 1, [], false, header);
    assert lines[0..] == lines && hunks + all == all;
    while i < |lines|
      invariant i <= |lines|
      invariant hunks + HunksFrom(lines[i..], newStart, body, inHunk, header) == all
    {
      HunksStep(hunks, lines, i, newStart, body, inHunk, header);
      var found := header(lines[i]);
      if found.Some? {
        if inHunk {
          hunks := hunks + [Hunk(newStart, body)];
        }
        newStart, body, inHunk := found.value, [], true;
      } else {
        if inHunk {
          body := body + [lines[i]];
        }
      }
      i := i + 1;
    }
    NoLinesLeft(lines[i..], newStart, body, inHunk, header);
    if inHunk {
      hunks := hunks + [Hunk(newStart, body)];
    }
  }

  lemma NoLinesLeft(lines: seq<string>, newStart: nat, body: seq<string>, inHunk: bool, header: Header)
    requires lines == []
    ensures HunksFrom(lines, newStart, body, inHunk, header) == if inHunk then [Hunk(newStart, body)] else []
  {
  }

  lemma HunksStep(done: seq<Hunk>, lines: seq<string>, i: nat, newStart: nat, body: seq<string>, inHunk: bool,
                  header: Header)
    requires i < |lines|
    ensures done + HunksFrom(lines[i..], newStart, body, inHunk, header) ==
              match header(lines[i])
              case Some(n) => (if inHunk then done + [Hunk(newStart, body)] else done)
                   + HunksFrom(lines[i + 1..], n, [], true, header)
              case None =>
                done + HunksFrom(lines[i + 1..], newStart, if inHunk then body + [lines[i]] else body, inHunk, header)
  {
    assert lines[i..][1..] == lines[i + 1..] && lines[i..][0] == lines[i];
    var found := header(lines[i]);
    if found.Some? {
      HunksAtHeader(lines[i..], newStart, body, inHunk, found.value, header);
      Regroup(done, Hunk(newStart, body), HunksFrom(lines[i + 1..], found.value, [], true, header));
    } else {
      HunksAtBody(lines[i..], newStart, body, inHunk, header);
    }
  }

  /** One line of a hunk, moved from what is still to split into what is split. */
  lemma SplitStep(news: seq<string>, olds: seq<string>, body: seq<string>, i: nat, no: nat)
    requires i < |body|
    ensures news + NewLines(body[i..], no) ==
              if OnNewSide(body[i]) then news + [Numbered(no, body[i][1..])] + NewLines(body[i + 1..], no + 1)
              else news + NewLines(body[i + 1..], no)
    ensures olds + OldLines(body[i..]) ==
              if OnOldSide(body[i]) then olds + [body[i][1..]] + OldLines(body[i + 1..])
                else olds + OldLines(body[i + 1..])
  {
    assert body[i..][1..] == body[i + 1..] && body[i..][0] == body[i];
  }

  /** `_split_hunk`. */
  method SplitHunk(hunk: Hunk) returns (newLines: seq<string>, oldLines: seq<string>)
    ensures newLines == NewLines(hunk.lines, hunk.newStart) && oldLines == OldLines(hunk.lines)
  {
    newLines, oldLines := [], [];
    var newNo := hunk.newStart;
    var body := hunk.lines;
    assert body[0..] == body;
    var i := 0;
    while i < |body|
      invariant i <= |body|
      invariant newLines + NewLines(body[i..], newNo) == NewLines(body, hunk.newStart)
      invariant oldLines + OldLines(body[i..]) == OldLines(body)
    {
      var raw := body[i];
      SplitStep(newLines, oldLines, body, i, newNo);
      i := i + 1;
      if StartsWith(raw, "\\") || raw == "" {
        continue;
      }
      var mark, content := raw[0], raw[1..];
      if mark == ' ' {
        newLines := newLines + [Numbered(newNo, content)];
        oldLines := oldLines + [content];
        newNo := newNo + 1;
      } else if mark == '+' {
        newLines := newLines + [Numbered(newNo, content)];
        newNo := newNo + 1;
      } else if mark == '-' {
        oldLines := oldLines + [content];
      }
    }
  }

  /** `render_hunks`. */
  method RenderHunks(fp: FilePatch) returns (text: string)
    ensures text == Render(fp)
  {
    var newHeader, oldHeader := NewHeader(fp), OldHeader(fp);
    var hunks := ParseHunks(fp.patch);
    var blocks: seq<string> := [];
    for i := 0 to |hunks|
      invariant blocks + Blocks(hunks[i..], newHeader, oldHeader) == Blocks(hunks, newHeader, oldHeader)
    {
      BlocksStep(blocks, hunks, i, newHeader, oldHeader);
      var newLines, oldLines := SplitHunk(hunks[i]);
      blocks := blocks + [newHeader];
      blocks := blocks + newLines;
      blocks := blocks + [oldHeader];
      blocks := blocks + oldLines;
    }
    assert blocks == Blocks(hunks, newHeader, oldHeader);
    text := Join(blocks);
  }

  lemma BlocksStep(done: seq<string>, hunks: seq<Hunk>, i: nat, newHeader: string, oldHeader: string)
    requires i < |hunks|
    ensures done + Blocks(hunks[i..], newHeader, oldHeader) ==
              done + [newHeader] + NewLines(hunks[i].lines, hunks[i].newStart)
              + [oldHeader] + OldLines(hunks[i].lines) + Blocks(hunks[i + 1..], newHeader, oldHeader)
  {
    assert hunks[i..][1..] == hunks[i + 1..] && hunks[i..][0] == hunks[i];
  }

  /** One line of a scan, moved from what is still to read into what is collected. */
  lemma ScanStep(done: seq<nat>, lines: seq<string>, i: nat, inNew: bool)
    requires i < |lines|
    ensures done + Scan(lines[i..], inNew) ==
              done + Contribution(lines[i], inNew) + Scan(lines[i + 1..], ModeAfter(lines[i], inNew))
  {
    assert lines[i..][1..] == lines[i + 1..] && lines[i..][0] == lines[i];
  }

  /** `review_pull_request._new_side_lines`; `post_review._new_side_numbers` is the same loop. */
  method NewSideLines(content: string) returns (numbers: set<nat>)
    ensures numbers == Recovered(content)
  {
    var inNew := false;
    numbers := {};
    var lines := SplitLines(content);
    var i := 0;
    while i < |lines|
      invariant i <= |lines|
      invariant numbers + Numbers(Scan(lines[i..], inNew)) == Recovered(content)
    {
      var line := lines[i];
      assert lines[i..][1..] == lines[i + 1..];
      NumbersAppend(Contribution(line, inNew), Scan(lines[i + 1..], ModeAfter(line, inNew)));
      i := i + 1;
      if StartsWith(line, "NEW ") {
        inNew := true;
        continue;
      }
      if StartsWith(line, "OLD ") {
        inNew := false;
        continue;
      }
      if !inNew {
        continue;
      }
      var number := LineNumber(line);
      if number.Some? {
        numbers := numbers + {number.value};
      }
    }
  }

  /** `static_checks._new_side_lines`. */
  method StaticNewSideLines(patch: string) returns (numbers: set<nat>)
    ensures numbers == Static(patch)
  {
    numbers := CountLines(SplitLines(patch), HunkHeader);
  }

  /** Its loop, for any header recogniser. */
  method CountLines(lines: seq<string>, header: Header) returns (numbers: set<nat>)
    ensures numbers == StaticFrom(lines, None, header)
  {
    numbers := {};
    var newNo: Option<nat> := None;
    var i := 0;
    assert lines[0..] == lines;
    while i < |lines|
      invariant i <= |lines|
      invariant numbers + StaticFrom(lines[i..], newNo, header) == StaticFrom(lines, None, header)
    {
      var raw := lines[i];
      assert lines[i..][1..] == lines[i + 1..];
      i := i + 1;
      var found := header(raw);
      if found.Some? {
        StaticAtHeader(lines[i - 1..], newNo, found.value, header);
        newNo := found;
        continue;
      }
      StaticAtBody(lines[i - 1..], newNo, header);
      if newNo.None? || StartsWith(raw, "\\") || raw == "" {
        continue;
      }
      if raw[0] in {' ', '+'} {
        numbers := numbers + {newNo.value};
        newNo := Some(newNo.value + 1);
      }
    }
  }

  lemma StaticAtBody(lines: seq<string>, no: Option<nat>, header: Header)
    requires lines != [] && header(lines[0]) == None
    ensures StaticFrom(lines, no, header) ==
              if no.None? || !OnNewSide(lines[0]) then StaticFrom(lines[1..], no, header)
              else {no.value} + StaticFrom(lines[1..], Some(no.value + 1), header)
  {
  }
}
