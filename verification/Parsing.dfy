/** src/serializer.cpp: reading one line, as a section name or as the start of a parameter. */
module Parsing {
  import opened Sequences
  import opened Lines

  // ---- What a line says ----

  /** What is left after inline whitespace; nothing if only a comment follows. */
  function SkipBlank(s: string): (r: string)
    ensures |r| <= |s|
  {
    if s == "" then ""
    else if IsInlineWhitespace(s[0]) then SkipBlank(s[1..])
    else if s[0] == ';' then ""
    else s
  }

  function SkipSpaces(s: string): (r: string)
    ensures |r| <= |s|
  {
    if s != "" && IsInlineWhitespace(s[0]) then SkipSpaces(s[1..]) else s
  }

  /** The letters and digits at the start of a text. */
  function NamePart(s: string): (r: string)
    ensures r <= s && forall c :: c in r ==> IsNameChar(c)
    ensures |r| < |s| ==> !IsNameChar(s[|r|])
  {
    if s != "" && IsNameChar(s[0]) then [s[0]] + NamePart(s[1..]) else ""
  }

  function Upper(s: string): (r: string)
    ensures |r| == |s| && forall i :: 0 <= i < |s| ==> r[i] == ToUpper(s[i])
  {
    if s == "" then "" else [ToUpper(s[0])] + Upper(s[1..])
  }

  /** One character more than the known section name has is enough to tell names apart. */
  function Shortened(name: string): string {
    if |name| > SECTION_NAME_POS_LIMIT then name[..SECTION_NAME_POS_LIMIT] else name
  }

  /** The name of a section, if the line is the head of one. */
  function SectionName(line: string): Option<string> {
    var s := SkipBlank(line);
    if s == "" || s[0] != '[' then None
    else
      var inner := SkipSpaces(s[1..]);
      var rest := SkipSpaces(inner[|NamePart(inner)|..]);
      if rest == "" || rest[0] != ']' || SkipBlank(rest[1..]) != "" then None else Some(Shortened(NamePart(inner)))
  }

  predicate IsHeader(line: string) {
    SectionName(line).Some?
  }

  predicate StartsSection(line: string) {
    SectionName(line) == Some(SECTION_NAME)
  }

  /** The name of a parameter, in capitals, and what follows the equal sign; names have at most six characters. */
  function UntilValue(line: string): Option<(string, string)> {
    var s := SkipBlank(line);
    var name := NamePart(s);
    if name == "" || |name| + 1 >= PARAM_NAME_MAX_LENGTH || |name| == |s| then None
    else
      var rest := SkipBlank(s[|name|..]);
      if rest == "" || rest[0] != '=' then None else Some((Upper(name), rest[1..]))
  }

  // ---- Reading it ----

  /** A position in a line stands for what is left of the line. */
  lemma Ahead(line: string, it: nat)
    requires it < |line|
    ensures line[it..] != "" && line[it..][0] == line[it] && line[it..][1..] == line[it + 1..]
  {
  }

  method SkippingReachesTheEnd(line: string, it: nat) returns (reached: bool, next: nat)
    requires it <= |line|
    ensures it <= next <= |line| && line[next..] == SkipBlank(line[it..]) && (reached <==> next == |line|)
  {
    next := it;
    if next == |line| {
      return true, next;
    }
    Ahead(line, next);
    while IsInlineWhitespace(line[next])
      invariant it <= next < |line| && SkipBlank(line[next..]) == SkipBlank(line[it..])
      invariant line[next..][0] == line[next]
      decreases |line| - next
    {
      Ahead(line, next);
      next := next + 1;
      if next == |line| {
        return true, next;
      }
      Ahead(line, next);
    }
    if line[next] == ';' {
      return true, |line|;
    }
    reached := false;
  }

  method SkipInlineWhitespace(line: string, it: nat) returns (next: nat)
    requires it <= |line|
    ensures it <= next <= |line| && line[next..] == SkipSpaces(line[it..])
  {
    next := it;
    while next != |line| && IsInlineWhitespace(line[next])
      invariant it <= next <= |line| && SkipSpaces(line[next..]) == SkipSpaces(line[it..])
    {
      Ahead(line, next);
      next := next + 1;
    }
    if next < |line| {
      Ahead(line, next);
    }
  }

  /** src/serializer.cpp:293-338 */
  method ParseSectionName(line: string) returns (ok: bool, sectionName: string)
    ensures ok <==> IsHeader(line)
    ensures ok ==> sectionName == SectionName(line).value
  {
    hide SkipBlank, SkipSpaces, NamePart;
    sectionName := "";
    var reached, it := SkippingReachesTheEnd(line, 0);
    assert line[0..] == line;
    if reached || line[it] != '[' {
      return false, sectionName;
    }
    Ahead(line, it);
    it := SkipInlineWhitespace(line, it + 1);
    ghost var inner := line[it..];
    sectionName, it := ReadSectionName(line, it);
    it := SkipInlineWhitespace(line, it);
    if it == |line| || line[it] != ']' {
      return false, sectionName;
    }
    Ahead(line, it);
    ok, it := SkippingReachesTheEnd(line, it + 1);
  }

  /** The characters from `it` to `next` belong to the name. */
  ghost predicate ReadUpTo(line: string, it: nat, next: nat) {
    it <= next <= |line| && NamePart(line[it..]) == line[it..next] + NamePart(line[next..])
  }

  /** The characters of the name, of which only the first few are kept. */
  method ReadSectionName(line: string, it: nat) returns (name: string, next: nat)
    requires it <= |line|
    ensures it <= next <= |line|
    ensures name == Shortened(NamePart(line[it..])) && line[next..] == line[it..][|NamePart(line[it..])|..]
  {
    hide NamePart, Shortened, Upper, IsNameChar, ReadUpTo;
    name, next := "", it;
    NothingRead(line, it);
    while next != |line| && IsNameChar(line[next])
      invariant it <= next <= |line| && name == Shortened(line[it..next])
      invariant ReadUpTo(line, it, next)
    {
      NamePartGoesOn(line, it, next);
      ShortenedNext(line[it..next], line[next]);
      if |name| != SECTION_NAME_POS_LIMIT {
        name := name + [line[next]];
      }
      next := next + 1;
    }
    NamePartEnds(line, it, next);
  }

  lemma NothingRead(line: string, it: nat)
    requires it <= |line|
    ensures line[it..it] == "" && Shortened("") == "" && Upper("") == ""
    ensures ReadUpTo(line, it, it)
  {
  }

  lemma NamePartGoesOn(line: string, it: nat, next: nat)
    requires it <= next < |line| && IsNameChar(line[next])
    requires ReadUpTo(line, it, next)
    ensures line[it..next + 1] == line[it..next] + [line[next]]
    ensures ReadUpTo(line, it, next + 1) && |NamePart(line[it..])| >= next + 1 - it
  {
    hide NamePart;
    Ahead(line, next);
    NamePartStep(line[next..]);
    Joined(line[it..next], [line[next]], NamePart(line[next + 1..]));
    assert line[it..next + 1] == line[it..next] + [line[next]];
  }

  lemma NamePartStep(s: string)
    requires s != ""
    ensures NamePart(s) == if IsNameChar(s[0]) then [s[0]] + NamePart(s[1..]) else ""
  {
  }

  lemma NamePartEnds(line: string, it: nat, next: nat)
    requires it <= next <= |line| && (next < |line| ==> !IsNameChar(line[next]))
    requires ReadUpTo(line, it, next)
    ensures NamePart(line[it..]) == line[it..next] && line[next..] == line[it..][|NamePart(line[it..])|..]
  {
    if next < |line| {
      Ahead(line, next);
    }
  }

  lemma ShortenedNext(name: string, c: char)
    ensures Shortened(name + [c])
      == if |Shortened(name)| == SECTION_NAME_POS_LIMIT then Shortened(name) else Shortened(name) + [c]
  {
  }

  /** src/serializer.cpp:415-434; the name must be followed by something. */
  method ParseParamName(line: string, it: nat) returns (ok: bool, name: string, next: nat)
    requires it < |line|
    ensures it <= next <= |line|
    ensures var whole := NamePart(line[it..]);
      && (ok <==> whole != "" && |whole| + 1 < PARAM_NAME_MAX_LENGTH && |whole| < |line[it..]|)
      && (ok ==> name == Upper(whole) && line[next..] == line[it..][|whole|..])
  {
    hide NamePart, Upper, Shortened, IsNameChar, ReadUpTo;
    name, next := "", it;
    NothingRead(line, it);
    while IsNameChar(line[next])
      invariant it <= next < |line| && name == Upper(line[it..next]) && |name| + 1 < PARAM_NAME_MAX_LENGTH
      invariant ReadUpTo(line, it, next)
      decreases |line| - next
    {
      NamePartGoesOn(line, it, next);
      UpperNext(line[it..next], line[next]);
      name := name + [ToUpper(line[next])];
      next := next + 1;
      if |name| == PARAM_NAME_MAX_LENGTH - 1 || next == |line| {
        return false, name, next;
      }
    }
    NamePartEnds(line, it, next);
    ok := |name| > 0;
  }

  lemma {:induction false} UpperNext(s: string, c: char)
    ensures Upper(s + [c]) == Upper(s) + [ToUpper(c)]
  {
    if s != "" {
      assert (s + [c])[1..] == s[1..] + [c];
      UpperNext(s[1..], c);
    } else {
      assert s + [c] == [c] && [c][1..] == "";
    }
  }

  method ParseLineUntilValue(line: string) returns (ok: bool, name: string, it: nat)
    ensures it <= |line|
    ensures ok <==> UntilValue(line).Some?
    ensures ok ==> UntilValue(line) == Some((name, line[it..]))
  {
    hide SkipBlank, NamePart, Upper;
    var reached;
    reached, it := SkippingReachesTheEnd(line, 0);
    assert line[0..] == line;
    if reached {
      return false, "", it;
    }
    ok, name, it := ParseParamName(line, it);
    if !ok {
      return;
    }
    reached, it := SkippingReachesTheEnd(line, it);
    if reached || line[it] != '=' {
      return false, name, it;
    }
    Ahead(line, it);
    it := it + 1;
  }
}
