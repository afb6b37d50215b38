/** src/serializer.cpp: cutting a text into lines, and telling section names, parameter lines and comments apart. */
module Lines {
  import opened Sequences

  const MAX_SIZE := 256 * 1024
  const MAX_LINE_POS := MAX_SIZE - 1
  const PARAM_NAME_MAX_LENGTH := 8
  const SECTION_NAME := "mpeemulator"
  const SECTION_NAME_POS_LIMIT := 12  // one more than the name has

  predicate IsDigit(c: char) {
    '0' <= c <= '9'
  }

  function Digit(d: nat): char
    requires d < 10
  {
    (d + 48) as char
  }

  predicate IsNameChar(c: char) {
    IsDigit(c) || 'A' <= c <= 'Z' || 'a' <= c <= 'z'
  }

  predicate IsLineBreak(c: char) {
    c == '\n' || c == '\r'
  }

  predicate IsInlineWhitespace(c: char) {
    c == ' ' || c == '\t'
  }

  function ToUpper(c: char): char {
    if 'a' <= c <= 'z' then (c as int - 32) as char else c
  }

  // ---- Lines ----

  /** The text up to its first line break. */
  function FirstLine(text: string): (r: string)
    ensures r <= text && (forall c :: c in r ==> !IsLineBreak(c))
    ensures |r| < |text| ==> IsLineBreak(text[|r|])
  {
    if text == "" || IsLineBreak(text[0]) then "" else [text[0]] + FirstLine(text[1..])
  }

  function Capped(line: string): string {
    if |line| > MAX_LINE_POS then line[..MAX_LINE_POS] else line
  }

  /** The non-empty lines of a text, each cut off after so many characters. */
  function SplitLines(text: string): seq<string>
    decreases |text|
  {
    if text == "" then []
    else
      var line := FirstLine(text);
      if line == "" then SplitLines(text[1..]) else [Capped(line)] + SplitLines(text[|line|..])
  }

  /**
   What one pass over `rest` adds, with `line` collected so far; `truncating` while the end of a long line is
   skipped.
   */
  function LinesFrom(line: string, truncating: bool, rest: string): seq<string>
    decreases |rest|
  {
    if rest == "" then if line == "" then [] else [line]
    else if IsLineBreak(rest[0]) then (if line == "" then [] else [line]) + LinesFrom("", false, rest[1..])
    else if truncating then LinesFrom(line, true, rest[1..])
    else if |line| + 1 == MAX_LINE_POS then [line + [rest[0]]] + LinesFrom("", true, rest[1..])
    else LinesFrom(line + [rest[0]], false, rest[1..])
  }

  lemma {:induction false} LinesFromSplits(line: string, truncating: bool, rest: string)
    requires |line| < MAX_LINE_POS && (truncating ==> line == "")
    ensures var more := FirstLine(rest);
      LinesFrom(line, truncating, rest)
      == (if truncating || line + more == "" then [] else [Capped(line + more)]) + SplitLines(rest[|more|..])
    decreases |rest|, 0
  {
    hide FirstLine, SplitLines, Capped;
    if rest == "" || IsLineBreak(rest[0]) {
      LineEnds(line, rest);
      if rest != "" {
        LinesFromAll(rest[1..]);
      }
    } else {
      LineGoesOn(line, rest);
      if truncating || |line| + 1 == MAX_LINE_POS {
        LinesFromSplits("", true, rest[1..]);
      } else {
        LinesFromSplits(line + [rest[0]], false, rest[1..]);
      }
    }
  }

  lemma LineEnds(line: string, rest: string)
    requires |line| < MAX_LINE_POS && (rest == "" || IsLineBreak(rest[0]))
    ensures FirstLine(rest) == "" && line + FirstLine(rest) == line
    ensures Capped(line) == line && rest[|FirstLine(rest)|..] == rest
    ensures SplitLines(rest) == if rest == "" then [] else SplitLines(rest[1..])
  {
  }

  lemma LineGoesOn(line: string, rest: string)
    requires rest != "" && !IsLineBreak(rest[0])
    ensures var more, further := FirstLine(rest), FirstLine(rest[1..]);
      && line + more != "" && line + more == line + [rest[0]] + further && rest[|more|..] == rest[1..][|further|..]
      && (|line| + 1 == MAX_LINE_POS ==> Capped(line + more) == line + [rest[0]])
  {
    hide FirstLine, Capped;
    FirstLineGoesOn(rest);
    var start, further := line + [rest[0]], FirstLine(rest[1..]);
    Joined(line, [rest[0]], further);
    if |start| == MAX_LINE_POS {
      CappedThere(start, further);
    }
  }

  lemma FirstLineGoesOn(rest: string)
    requires rest != "" && !IsLineBreak(rest[0])
    ensures FirstLine(rest) == [rest[0]] + FirstLine(rest[1..])
    ensures |FirstLine(rest[1..])| <= |rest| - 1
    ensures |FirstLine(rest)| <= |rest| && rest[|FirstLine(rest)|..] == rest[1..][|FirstLine(rest[1..])|..]
  {
  }

  lemma CappedThere(start: string, further: string)
    requires |start| == MAX_LINE_POS
    ensures Capped(start + further) == start
  {
    assert (start + further)[..MAX_LINE_POS] == start;
    assert further == "" ==> start + further == start;
  }

  lemma LinesFromAll(text: string)
    ensures LinesFrom("", false, text) == SplitLines(text)
    decreases |text|, 1
  {
    LinesFromSplits("", false, text);
    LineThenRest(text);
    assert "" + FirstLine(text) == FirstLine(text);
  }

  lemma LineThenRest(text: string)
    ensures var line := FirstLine(text);
      SplitLines(text) == (if line == "" then [] else [Capped(line)]) + SplitLines(text[|line|..])
  {
  }

  /** src/serializer.cpp:149-192 */
  method ParseLines(serialized: string) returns (lines: seq<string>)
    ensures lines == SplitLines(serialized)
  {
    hide SplitLines, FirstLine, Capped;
    LinesFromAll(serialized);
    lines := [];
    assert serialized[0..] == serialized;
    var line := "";
    var truncating := false;
    var i := 0;
    while i < |serialized|
      invariant 0 <= i <= |serialized| && |line| < MAX_LINE_POS && (truncating ==> line == "")
      invariant lines + LinesFrom(line, truncating, serialized[i..]) == LinesFrom("", false, serialized)
    {
      var c := serialized[i];
      ghost var rest := serialized[i + 1..];
      assert serialized[i..][0] == c && serialized[i..][1..] == rest;
      Joined(lines, [line], LinesFrom("", false, rest));
      Joined(lines, [line + [c]], LinesFrom("", true, rest));
      i := i + 1;
      if IsLineBreak(c) {
        if line != "" {
          lines := lines + [line];
        }
        line := "";
        truncating := false;
        continue;
      }
      if truncating {
        continue;
      }
      line := line + [c];
      if |line| == MAX_LINE_POS {
        lines := lines + [line];
        line := "";
        truncating := true;
      }
    }
    if line != "" {
      lines := lines + [line];
    }
  }

  ghost predicate ProperLine(line: string) {
    0 < |line| <= MAX_LINE_POS && forall c :: c in line ==> !IsLineBreak(c)
  }

  lemma {:induction false} SplitGivesProperLines(text: string)
    ensures forall line :: line in SplitLines(text) ==> ProperLine(line)
    decreases |text|
  {
    if text != "" {
      var line := FirstLine(text);
      if line == "" {
        SplitGivesProperLines(text[1..]);
      } else {
        SplitGivesProperLines(text[|line|..]);
        assert forall c :: c in Capped(line) ==> c in line;
      }
    }
  }

  /** The lines of a text that has been put together from lines. */
  function Join(lines: seq<string>): string {
    if lines == [] then "" else lines[0] + "\r\n" + Join(lines[1..])
  }

  lemma {:induction false} FirstLineIs(line: string, rest: string)
    requires (forall c :: c in line ==> !IsLineBreak(c)) && rest != "" && IsLineBreak(rest[0])
    ensures FirstLine(line + rest) == line
  {
    if line == "" {
      assert line + rest == rest;
    } else {
      assert (line + rest)[1..] == line[1..] + rest && line[0] in line;
      FirstLineIs(line[1..], rest);
    }
  }

  lemma SplitOne(line: string, rest: string)
    requires ProperLine(line)
    ensures SplitLines(line + "\r\n" + rest) == [line] + SplitLines(rest)
  {
    var end := "\r\n" + rest;
    assert line + "\r\n" + rest == line + end;
    FirstLineIs(line, end);
    assert (line + end)[|line|..] == end;
    SplitBreaks(rest);
  }

  lemma SplitBreaks(rest: string)
    ensures SplitLines("\r\n" + rest) == SplitLines(rest)
  {
    assert ("\r\n" + rest)[1..] == "\n" + rest && ("\n" + rest)[1..] == rest;
    assert FirstLine("\r\n" + rest) == "" && FirstLine("\n" + rest) == "";
  }

  lemma {:induction false} SplitJoin(lines: seq<string>, rest: string)
    requires forall line :: line in lines ==> ProperLine(line)
    ensures SplitLines(Join(lines) + rest) == lines + SplitLines(rest)
  {
    hide SplitLines;
    if lines == [] {
      assert Join(lines) + rest == rest;
    } else {
      Joined(lines[0] + "\r\n", Join(lines[1..]), rest);
      assert lines[0] in lines && forall line :: line in lines[1..] ==> line in lines;
      SplitOne(lines[0], Join(lines[1..]) + rest);
      SplitJoin(lines[1..], rest);
      assert lines == [lines[0]] + lines[1..];
    }
  }

  lemma {:induction false} JoinNext(lines: seq<string>, line: string)
    ensures Join(lines + [line]) == Join(lines) + line + "\r\n"
  {
    if lines == [] {
      assert lines + [line] == [line] && [line][1..] == [];
      assert Join([line]) == line + "\r\n" + Join([]);
    } else {
      assert (lines + [line])[1..] == lines[1..] + [line];
      JoinNext(lines[1..], line);
    }
  }
}
