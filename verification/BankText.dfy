/** src/bank.cpp: the text of a whole bank, and that importing it gives the bank back. */
module BankTexts {
  import opened Sequences
  import opened Lines
  import opened Parsing
  import opened ProgramTexts

  const NUMBER_OF_PROGRAMS := 128
  const HEAD := "[mpeemulator]"
  const NAME_START := "NAME = "

  function Prefix(name: string): string {
    HEAD + "\r\n" + (NAME_START + name) + "\r\n"
  }

  function TextOf(p: ProgramText): string {
    Prefix(p.name) + Join(p.params)
  }

  function BankText(programs: seq<ProgramText>): string {
    if programs == [] then "" else TextOf(programs[0]) + "\r\n" + BankText(programs[1..])
  }

  /** "Prog001" and so on. */
  function DefaultName(i: nat): string
    requires i < NUMBER_OF_PROGRAMS
  {
    var n := i + 1;
    "Prog" + [Digit(n / 100), Digit(n / 10 % 10), Digit(n % 10)]
  }

  function EmptyProgram(i: nat): ProgramText
    requires i < NUMBER_OF_PROGRAMS
  {
    ProgramText(DefaultName(i), DefaultName(i), DefaultName(i), [])
  }

  /** The programs from the `i`th on after importing a bank: those that found no lines become empty ones. */
  function ImportedFrom(programs: seq<ProgramText>, i: nat, lines: seq<string>): (r: seq<ProgramText>)
    requires i <= |programs| == NUMBER_OF_PROGRAMS
    ensures |r| == |programs| - i
    decreases |programs| - i
  {
    if i == |programs| then []
    else if lines == [] then [EmptyProgram(i)] + ImportedFrom(programs, i + 1, [])
    else [Imported(programs[i], lines)] + ImportedFrom(programs, i + 1, Rest(lines))
  }

  // ---- The lines of a program ----

  function LinesOf(p: ProgramText): seq<string> {
    [HEAD, NAME_START + p.name] + p.params
  }

  function BankLines(programs: seq<ProgramText>): seq<string> {
    if programs == [] then [] else LinesOf(programs[0]) + BankLines(programs[1..])
  }

  lemma NameLineIsProper(name: string)
    requires Clean(name)
    ensures ProperLine(NAME_START + name) && ProperLine(HEAD)
  {
    assert forall c :: c in NAME_START + name ==> c in NAME_START || c in name;
  }

  lemma ProgramLines(p: ProgramText, more: string)
    requires WellFormed(p)
    ensures SplitLines(TextOf(p) + "\r\n" + more) == LinesOf(p) + SplitLines(more)
  {
    hide SplitLines, ProperLine, Clean, Truncated;
    NameLineIsProper(p.name);
    var name, params := NAME_START + p.name, Join(p.params);
    assert TextOf(p) + "\r\n" + more == HEAD + "\r\n" + (name + "\r\n" + (params + ("\r\n" + more)));
    SplitOne(HEAD, name + "\r\n" + (params + ("\r\n" + more)));
    SplitOne(name, params + ("\r\n" + more));
    SplitJoin(p.params, "\r\n" + more);
    SplitBreaks(more);
  }

  lemma {:induction false} BankTextLines(programs: seq<ProgramText>)
    requires forall p :: p in programs ==> WellFormed(p)
    ensures SplitLines(BankText(programs)) == BankLines(programs)
  {
    hide SplitLines, WellFormed, LinesOf, TextOf;
    if programs == [] {
      assert SplitLines("") == [] by {
        NoLines();
      }
    } else {
      assert programs[0] in programs && forall p :: p in programs[1..] ==> p in programs;
      ProgramLines(programs[0], BankText(programs[1..]));
      BankTextLines(programs[1..]);
    }
  }

  lemma NoLines()
    ensures SplitLines("") == []
  {
  }

  // ---- What the lines say ----

  lemma {:induction false} WholeName(name: string, rest: string)
    requires (forall c :: c in name ==> IsNameChar(c)) && (rest != "" ==> !IsNameChar(rest[0]))
    ensures NamePart(name + rest) == name && (name + rest)[|name|..] == rest
  {
    if name == "" {
      assert name + rest == rest;
    } else {
      assert (name + rest)[1..] == name[1..] + rest && name[0] in name;
      WholeName(name[1..], rest);
    }
  }

  lemma Behind(c: char, s: string)
    ensures ([c] + s)[0] == c && ([c] + s)[1..] == s
  {
  }

  lemma SkipBlankSteps(s: string)
    requires s != ""
    ensures SkipBlank(s) == if IsInlineWhitespace(s[0]) then SkipBlank(s[1..]) else if s[0] == ';' then "" else s
    ensures !IsInlineWhitespace(s[0]) ==> SkipSpaces(s) == s
  {
  }

  lemma SkipNothing()
    ensures SkipBlank("") == "" && Shortened(SECTION_NAME) == SECTION_NAME
  {
  }

  lemma HeadStartsSection()
    ensures StartsSection(HEAD)
  {
    hide SkipBlank, SkipSpaces, NamePart, Shortened;
    SkipNothing();
    var inner := SECTION_NAME + "]";
    assert HEAD == ['['] + inner;
    Behind('[', inner);
    SkipBlankSteps(HEAD);
    SkipBlankSteps(inner);
    WholeName(SECTION_NAME, "]");
    SkipBlankSteps("]");
    assert "]"[1..] == "";
  }

  lemma {:induction false} CleanIsCString(s: string)
    requires forall c :: c in s ==> IsAllowedChar(c)
    ensures CString(s) == s
  {
    if s != "" {
      assert s[0] in s;
      CleanIsCString(s[1..]);
    }
  }

  predicate Readable(name: string) {
    name != "" && name[0] != ';'
  }

  lemma NameLineSays(name: string)
    requires Clean(name)
    ensures !IsHeader(NAME_START + name)
    ensures NameValue(NAME_START + name) == Some(if Readable(name) then name else "")
  {
    hide UntilValue, SkipBlank, CString, SectionName;
    assert NAME_START + name == "NAME" + " = " + name;
    LineUntilValue("NAME", name);
    ValueOfName(name);
  }

  /** The name of a parameter as it is printed: capitals and digits. */
  predicate IsPlain(name: string) {
    0 < |name| <= 6 && forall i :: 0 <= i < |name| ==> IsDigit(name[i]) || 'A' <= name[i] <= 'Z'
  }

  lemma {:induction false} PlainIsUpper(name: string)
    requires forall i :: 0 <= i < |name| ==> IsDigit(name[i]) || 'A' <= name[i] <= 'Z'
    ensures Upper(name) == name
  {
    if name != "" {
      PlainIsUpper(name[1..]);
    }
  }

  lemma LineUntilValue(name: string, value: string)
    requires IsPlain(name)
    ensures UntilValue(name + " = " + value) == Some((name, " " + value)) && !IsHeader(name + " = " + value)
  {
    hide SkipBlank, NamePart, Upper, SkipSpaces;
    var line, spaced := name + " = " + value, " " + value;
    var tail, rest := " = " + value, "= " + value;
    assert line == name + tail && tail == [' '] + rest && rest == ['='] + spaced && line[0] == name[0];
    Behind(' ', rest);
    Behind('=', spaced);
    SkipBlankSteps(line);
    WholeName(name, tail);
    SkipBlankSteps(tail);
    SkipBlankSteps(rest);
    PlainIsUpper(name);
  }

  lemma ValueOfName(name: string)
    requires Clean(name)
    ensures CString(SkipBlank(" " + name)) == if Readable(name) then name else ""
  {
    hide SkipBlank, CString;
    Behind(' ', name);
    assert " " + name == [' '] + name;
    SkipBlankSteps(" " + name);
    SkipNothing();
    CleanIsCString("");
    CleanIsCString(name);
    if name != "" {
      assert name[0] in name;
      SkipBlankSteps(name);
    }
  }

  lemma {:induction false} BodyUpToHead(body: seq<string>, more: seq<string>)
    requires (forall line :: line in body ==> !IsHeader(line)) && (more != [] ==> IsHeader(more[0]))
    ensures Body(body + more) == body && (body + more)[|body|..] == more
  {
    if body == [] {
      assert body + more == more;
    } else {
      assert (body + more)[1..] == body[1..] + more && body[0] in body;
      BodyUpToHead(body[1..], more);
    }
  }

  lemma {:induction false} ParamsAreKept(first: string, params: seq<string>)
    requires NameValue(first).Some? && forall line :: line in params ==> NameValue(line) == None
    ensures ParamLines([first] + params) == params && LastName([first] + params) == NameValue(first)
  {
    hide NameValue;
    var body := [first] + params;
    if params == [] {
      assert body[..|body| - 1] == [];
    } else {
      var start := params[..|params| - 1];
      assert body[..|body| - 1] == [first] + start && params[|params| - 1] in params;
      assert forall line :: line in start ==> line in params;
      ParamsAreKept(first, start);
      assert params == start + [params[|params| - 1]];
    }
  }

  /** The program `t` after it has imported the lines of the program `p`. */
  function Restored(p: ProgramText, t: ProgramText): ProgramText {
    Renamed(t, if Readable(p.name) then p.name else "").(params := p.params)
  }

  lemma ImportOwnLines(p: ProgramText, t: ProgramText, more: seq<string>)
    requires WellFormed(p) && (more != [] ==> IsHeader(more[0]))
    ensures Imported(t, LinesOf(p) + more) == Restored(p, t) && Rest(LinesOf(p) + more) == more
  {
    hide NameValue, SectionName, Renamed, Clean, ProperLine, Readable;
    HeadStartsSection();
    NameLineSays(p.name);
    var name := NAME_START + p.name;
    var lines, body := LinesOf(p) + more, [name] + p.params;
    assert lines[0] == HEAD && lines[1..] == body + more;
    BodyUpToHead(body, more);
    ParamsAreKept(name, p.params);
  }

  /** A readable name comes back with its short form; otherwise the program has its own default name. */
  lemma RestoredMeans(p: ProgramText, t: ProgramText)
    requires WellFormed(p) && WellFormed(t)
    ensures var r := Restored(p, t);
      && r.params == p.params && r.defaultName == t.defaultName
      && (if Readable(p.name) then r.name == p.name && r.shortName == p.shortName && TextOf(r) == TextOf(p)
          else r.name == t.defaultName && r.shortName == Truncated(t.defaultName, SHORT_NAME_MAX_LENGTH))
  {
    CleanIsSanitized(if Readable(p.name) then p.name else "", t.defaultName);
  }

  lemma BankLinesHead(programs: seq<ProgramText>)
    ensures programs != [] ==> BankLines(programs) != [] && BankLines(programs)[0] == HEAD
  {
  }

  lemma {:induction false} ImportBankLines(programs: seq<ProgramText>, target: seq<ProgramText>, i: nat)
    requires i <= |programs| == |target| == NUMBER_OF_PROGRAMS && forall p :: p in programs ==> WellFormed(p)
    ensures ImportedFrom(target, i, BankLines(programs[i..]))
         == seq(NUMBER_OF_PROGRAMS - i,
                k requires 0 <= k < NUMBER_OF_PROGRAMS - i => Restored(programs[i + k], target[i + k]))
    decreases NUMBER_OF_PROGRAMS - i
  {
    hide LinesOf, Imported, Rest, Restored, WellFormed, IsHeader, SectionName;
    if i < NUMBER_OF_PROGRAMS {
      var more := BankLines(programs[i + 1..]);
      assert programs[i..][0] == programs[i] && programs[i..][1..] == programs[i + 1..];
      BankLinesHead(programs[i..]);
      BankLinesHead(programs[i + 1..]);
      HeadIsHeader();
      assert programs[i] in programs;
      ImportOwnLines(programs[i], target[i], more);
      ImportBankLines(programs, target, i + 1);
    }
  }

  lemma HeadIsHeader()
    ensures IsHeader(HEAD)
  {
    HeadStartsSection();
  }

  /** Importing the text of one bank into any other bank. */
  lemma BankRoundTrip(programs: seq<ProgramText>, target: seq<ProgramText>)
    requires |programs| == |target| == NUMBER_OF_PROGRAMS
    requires forall i :: 0 <= i < NUMBER_OF_PROGRAMS ==> WellFormed(programs[i]) && WellFormed(target[i])
    ensures var r := ImportedFrom(target, 0, SplitLines(BankText(programs)));
      forall i :: 0 <= i < NUMBER_OF_PROGRAMS ==>
        && r[i].params == programs[i].params
        && (r[i].name == programs[i].name <==> Readable(programs[i].name) || programs[i].name == target[i].defaultName)
        && (Readable(programs[i].name) ==>
              r[i].shortName == programs[i].shortName && TextOf(r[i]) == TextOf(programs[i]))
  {
    hide Restored, WellFormed, TextOf, ImportedFrom, Readable;
    BankTextLines(programs);
    assert programs[0..] == programs;
    ImportBankLines(programs, target, 0);
    forall i | 0 <= i < NUMBER_OF_PROGRAMS {
      RestoredMeans(programs[i], target[i]);
    }
  }
}
