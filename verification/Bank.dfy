/** src/bank.cpp: programs that keep their text up to date, and the bank of them. */
module Banks {
  import opened Sequences
  import opened Lines
  import opened Parsing
  import opened ProgramTexts
  import opened BankTexts

  lemma JoinEmpty(lines: seq<string>)
    ensures Join(lines) == "" <==> lines == []
  {
  }

  class Program {
    var name: string
    var shortName: string
    var defaultName: string
    var serialized: string
    var paramsStart: nat
    ghost var params: seq<string>

    ghost function Text(): ProgramText
      reads this
    {
      ProgramText(name, shortName, defaultName, params)
    }

    /** The text from the start of the parameters on is their lines; what comes before may be out of date. */
    ghost predicate Loose()
      reads this
    {
      WellFormed(Text()) && paramsStart <= |serialized| && serialized[paramsStart..] == Join(params)
    }

    ghost predicate Valid()
      reads this
    {
      Loose() && serialized == TextOf(Text()) && paramsStart == |Prefix(name)|
    }

    constructor Blank()
      ensures Valid() && Text() == ProgramText("", "", "", [])
    {
      name, shortName, defaultName, serialized, paramsStart := "", "", "", "", 0;
      params := [];
      new;
      Update();
    }

    constructor (name: string, defaultName: string, serialized: string)
      ensures Valid()
      ensures Text() == BuiltIn(name, defaultName, serialized).Text()
    {
      this.name, shortName, this.defaultName, this.serialized, paramsStart := "", "", "", "", 0;
      params := [];
      new;
      SanitizedIsClean(defaultName, "");
      TruncatedIsClean(Sanitized(defaultName, ""));
      var sanitized := SanitizeName(defaultName);
      this.defaultName := Truncated(sanitized, NAME_MAX_LENGTH);
      ImportTextWithoutUpdate(serialized);
      SetName(name);
    }

    method SetName(newName: string)
      requires Loose()
      modifies this
      ensures Valid() && Text() == Renamed(old(Text()), newName)
    {
      SetNameWithoutUpdate(newName);
      Update();
    }

    method SetNameWithoutUpdate(newName: string)
      requires Loose()
      modifies this`name, this`shortName
      ensures Loose() && Text() == Renamed(old(Text()), newName)
    {
      RenamedIsWellFormed(Text(), newName);
      var sanitizedName := SanitizeName(newName);
      name := Truncated(sanitizedName, NAME_MAX_LENGTH);
      shortName := Truncated(sanitizedName, SHORT_NAME_MAX_LENGTH);
    }

    /** src/bank.cpp:64-92: a buffer is filled, and cut back at its end. */
    method SanitizeName(name: string) returns (sanitized: string)
      ensures sanitized == Sanitized(name, defaultName)
    {
      var filtered := "";
      var i := 0;
      while i != |name|
        invariant 0 <= i <= |name| && filtered == Kept(name[..i])
      {
        assert name[..i + 1][..i] == name[..i];
        if IsAllowedChar(name[i]) && (|filtered| > 0 || name[i] != ' ') {
          filtered := filtered + [name[i]];
        }
        i := i + 1;
      }
      assert name[..i] == name;
      while |filtered| > 0 && filtered[|filtered| - 1] == ' '
        invariant WithoutTrailingSpaces(filtered) == WithoutTrailingSpaces(Kept(name))
      {
        filtered := filtered[..|filtered| - 1];
      }
      sanitized := if |filtered| == 0 then defaultName else filtered;
    }

    /** src/bank.cpp:132-142 */
    method Update()
      requires Loose()
      modifies this`serialized, this`paramsStart
      ensures Valid() && Text() == old(Text())
    {
      var prefix := "[mpeemulator]\r\nNAME = " + name + "\r\n";
      assert prefix == Prefix(name);
      serialized := prefix + serialized[paramsStart..];
      paramsStart := |prefix|;
    }

    predicate IsBlank()
      requires Valid()
      reads this
      ensures IsBlank() <==> params == []
    {
      JoinEmpty(params);
      paramsStart == |serialized|
    }

    method ImportText(serialized: string)
      requires Valid()
      modifies this
      ensures Valid() && Text() == Imported(old(Text()), SplitLines(serialized))
    {
      ImportTextWithoutUpdate(serialized);
      Update();
    }

    method ImportTextWithoutUpdate(serialized: string)
      requires Loose()
      modifies this
      ensures Loose() && Text() == Imported(old(Text()), SplitLines(serialized))
    {
      var lines := ParseLines(serialized);
      SplitGivesProperLines(serialized);
      assert lines[0..] == lines;
      var it := ImportLinesWithoutUpdate(lines, 0);
    }

    method ImportLines(lines: seq<string>, it: nat) returns (next: nat)
      requires Valid() && it <= |lines| && forall line :: line in lines ==> ProperLine(line)
      modifies this
      ensures Valid() && Text() == Imported(old(Text()), lines[it..])
      ensures it <= next <= |lines| && lines[next..] == Rest(lines[it..])
    {
      next := ImportLinesWithoutUpdate(lines, it);
      Update();
    }

    /** src/bank.cpp:206-261: up to and without the head of the section that follows ours. */
    method ImportLinesWithoutUpdate(lines: seq<string>, it: nat) returns (next: nat)
      requires Loose() && it <= |lines| && forall line :: line in lines ==> ProperLine(line)
      modifies this
      ensures Loose() && Text() == Imported(old(Text()), lines[it..])
      ensures it <= next <= |lines| && lines[next..] == Rest(lines[it..])
    {
      var isOurs, found, programName, serializedParams;
      ghost var body;
      next, isOurs, found, programName, serializedParams, body := ReadSection(lines, it);
      assert forall line :: line in lines[it..] ==> line in lines;
      ImportedIsWellFormed(Text(), lines[it..]);
      if isOurs {
        if found {
          SetNameWithoutUpdate(programName);
        }
        paramsStart, serialized, params := 0, serializedParams, ParamLines(body);
      } else {
        SetNameWithoutUpdate("");
        paramsStart, serialized, params := 0, "", [];
      }
    }

    /** Half-way through our section: `body` has been read, `rest` is still to come. */
    static ghost predicate Inside(lines: seq<string>, body: seq<string>, rest: seq<string>,
                                  found: bool, programName: string, serializedParams: string)
    {
      AfterHead(lines).Some? && AfterHead(lines).value == body + rest && Body(body + rest) == body + Body(rest)
      && serializedParams == Join(ParamLines(body))
      && LastName(body) == if found then Some(programName) else None
    }

    /** The loop over lines: it stops at the second head once it is inside our section. */
    static method ReadSection(lines: seq<string>, it: nat)
      returns (next: nat, isOurs: bool, found: bool, programName: string, serializedParams: string,
               ghost body: seq<string>)
      requires it <= |lines|
      ensures it <= next <= |lines| && lines[next..] == Rest(lines[it..])
      ensures isOurs <==> AfterHead(lines[it..]).Some?
      ensures isOurs ==> body == Body(AfterHead(lines[it..]).value) && serializedParams == Join(ParamLines(body))
      ensures isOurs ==> LastName(body) == if found then Some(programName) else None
    {
      hide AfterHead, Body, ParamLines, LastName, SectionName, NameValue, Join, Inside, Rest;
      next, isOurs, found, programName, serializedParams, body := it, false, false, "", "", [];
      while next != |lines|
        invariant it <= next <= |lines|
        invariant !isOurs ==> AfterHead(lines[it..]) == AfterHead(lines[next..]) && !found && serializedParams == ""
        invariant isOurs ==> Inside(lines[it..], body, lines[next..], found, programName, serializedParams)
      {
        var line := lines[next];
        Upcoming(lines, next);
        var isHead, sectionName := ParseSectionName(line);
        if isHead {
          if isOurs {
            break;
          }
          serializedParams, programName := "", "";
          isOurs := sectionName == SECTION_NAME;
          body := [];
          Enter(lines[it..], lines[next + 1..]);
        } else if isOurs {
          GoOn(lines[it..], body, line, lines[next + 1..], found, programName, serializedParams);
          var isName, value := ParseName(line);
          if isName {
            programName, found := value, true;
          } else {
            serializedParams := serializedParams + line + "\r\n";
          }
          body := body + [line];
        }
        next := next + 1;
      }
      if isOurs {
        Leave(lines[it..], body, lines[next..], found, programName, serializedParams);
      } else {
        NoHead(lines, next);
      }
    }

    static lemma NoHead(lines: seq<string>, it: nat)
      requires it == |lines|
      ensures AfterHead(lines[it..]) == None && lines[it..] == []
      ensures forall all :: AfterHead(all) == None ==> Rest(all) == []
    {
    }

    static lemma Upcoming(lines: seq<string>, k: nat)
      requires k < |lines|
      ensures lines[k..] == [lines[k]] + lines[k + 1..]
      ensures AfterHead(lines[k..])
        == if StartsSection(lines[k]) then Some(lines[k + 1..]) else AfterHead(lines[k + 1..])
    {
      assert lines[k..][1..] == lines[k + 1..];
    }

    static lemma Enter(lines: seq<string>, rest: seq<string>)
      ensures AfterHead(lines) == Some(rest) ==> Inside(lines, [], rest, false, "", "")
    {
      assert [] + rest == rest && [] + Body(rest) == Body(rest);
    }

    static lemma GoOn(lines: seq<string>, body: seq<string>, line: string, rest: seq<string>,
                      found: bool, programName: string, serializedParams: string)
      requires Inside(lines, body, [line] + rest, found, programName, serializedParams) && !IsHeader(line)
      ensures NameValue(line).Some? ==>
        Inside(lines, body + [line], rest, true, NameValue(line).value, serializedParams)
      ensures NameValue(line).None? ==>
        Inside(lines, body + [line], rest, found, programName, serializedParams + line + "\r\n")
    {
      hide AfterHead, Body, ParamLines, LastName, SectionName, NameValue, Join;
      BodyGrows(body, line);
      BodyStarts(line, rest);
      Joined(body, [line], rest);
      Joined(body, [line], Body(rest));
    }

    static lemma BodyGrows(body: seq<string>, line: string)
      ensures Join(ParamLines(body + [line]))
        == if NameValue(line).Some? then Join(ParamLines(body)) else Join(ParamLines(body)) + line + "\r\n"
      ensures LastName(body + [line]) == if NameValue(line).Some? then NameValue(line) else LastName(body)
    {
      hide NameValue, Join;
      assert (body + [line])[..|body|] == body;
      JoinNext(ParamLines(body), line);
    }

    static lemma BodyStarts(line: string, rest: seq<string>)
      requires !IsHeader(line)
      ensures Body([line] + rest) == [line] + Body(rest)
    {
      assert ([line] + rest)[1..] == rest;
    }

    static lemma Leave(lines: seq<string>, body: seq<string>, rest: seq<string>,
                       found: bool, programName: string, serializedParams: string)
      requires Inside(lines, body, rest, found, programName, serializedParams) && (rest == [] || IsHeader(rest[0]))
      ensures AfterHead(lines).Some? && Rest(lines) == rest && body == Body(AfterHead(lines).value)
      ensures serializedParams == Join(ParamLines(body)) && LastName(body) == if found then Some(programName) else None
    {
      hide ParamLines, LastName, SectionName, Join;
      assert body + [] == body && (body + rest)[|body|..] == rest;
    }

    /** The name that a line gives, read as a C string. */
    static method ParseName(line: string) returns (isName: bool, value: string)
      ensures isName <==> NameValue(line).Some?
      ensures isName ==> NameValue(line) == Some(value)
    {
      hide SkipBlank, CString, UntilValue;
      value := "";
      var ok, paramName, it := ParseLineUntilValue(line);
      isName := ok && paramName == "NAME";
      if isName {
        var reached;
        reached, it := SkippingReachesTheEnd(line, it);
        value := CString(line[it..]);
      }
    }
  }

  /** Importing nothing, as the empty programs of a bank do, leaves the default name. */
  lemma EmptyProgramIs(i: nat)
    requires i < NUMBER_OF_PROGRAMS
    ensures Clean(DefaultName(i)) && Truncated(Sanitized(DefaultName(i), ""), NAME_MAX_LENGTH) == DefaultName(i)
    ensures var start := ProgramText("", "", DefaultName(i), []);
      Renamed(Imported(start, SplitLines("")), "") == EmptyProgram(i) && WellFormed(EmptyProgram(i))
  {
    hide Kept, WithoutTrailingSpaces;
    DefaultNameIsClean(i);
    CleanIsSanitized(DefaultName(i), "");
    CleanIsSanitized("", DefaultName(i));
  }

  lemma DefaultNameIsClean(i: nat)
    requires i < NUMBER_OF_PROGRAMS
    ensures Clean(DefaultName(i)) && |DefaultName(i)| == 7
  {
  }

  datatype BuiltIn = BuiltIn(name: string, defaultName: string, serialized: string) {
    function Text(): ProgramText {
      var start := ProgramText("", "", Truncated(Sanitized(defaultName, ""), NAME_MAX_LENGTH), []);
      Renamed(Imported(start, SplitLines(serialized)), name)
    }
  }

  class Bank {
    const programs: array<Program>

    /** src/bank.cpp:285-294: the built-in programs come first. */
    constructor (builtIn: seq<BuiltIn>)
      requires |builtIn| <= NUMBER_OF_PROGRAMS
      ensures Valid() && forall i :: 0 <= i < NUMBER_OF_PROGRAMS ==>
        Texts()[i] == if i < |builtIn| then builtIn[i].Text() else EmptyProgram(i)
    {
      hide Program.Valid, Program.Text, EmptyProgram, BuiltIn.Text;
      var blank := new Program.Blank();
      programs := new Program[NUMBER_OF_PROGRAMS](_ => blank);
      new;
      var i := 0;
      while i < NUMBER_OF_PROGRAMS
        invariant 0 <= i <= NUMBER_OF_PROGRAMS && fresh(programs)
        invariant forall j, k :: 0 <= j < k < i ==> programs[j] != programs[k]
        invariant forall j :: 0 <= j < i ==> programs[j].Valid()
        invariant forall j :: 0 <= j < i ==>
          programs[j].Text() == if j < |builtIn| then builtIn[j].Text() else EmptyProgram(j)
      {
        programs[i] := NewProgram(builtIn, i);
        i := i + 1;
      }
    }

    static method NewProgram(builtIn: seq<BuiltIn>, i: nat) returns (program: Program)
      requires |builtIn| <= NUMBER_OF_PROGRAMS && i < NUMBER_OF_PROGRAMS
      ensures fresh(program) && program.Valid()
      ensures program.Text() == if i < |builtIn| then builtIn[i].Text() else EmptyProgram(i)
    {
      hide Program.Valid, Program.Text, EmptyProgram, Renamed, Imported, Truncated, Sanitized, SplitLines;
      EmptyProgramIs(i);
      var b := if i < |builtIn| then builtIn[i] else BuiltIn("", DefaultName(i), "");
      program := new Program(b.name, b.defaultName, b.serialized);
    }

    ghost predicate Separate()
      reads programs
    {
      programs.Length == NUMBER_OF_PROGRAMS
      && forall i, j :: 0 <= i < j < programs.Length ==> programs[i] != programs[j]
    }

    ghost predicate Valid()
      reads programs, programs[..]
    {
      Separate() && forall i :: 0 <= i < programs.Length ==> programs[i].Valid()
    }

    ghost function Texts(): (r: seq<ProgramText>)
      reads programs, programs[..]
      ensures |r| == programs.Length && forall i :: 0 <= i < |r| ==> r[i] == programs[i].Text()
    {
      TextsUpTo(programs.Length)
    }

    ghost function TextsUpTo(n: nat): (r: seq<ProgramText>)
      requires n <= programs.Length
      reads programs, programs[..]
      ensures |r| == n && forall i :: 0 <= i < n ==> r[i] == programs[i].Text()
    {
      if n == 0 then [] else TextsUpTo(n - 1) + [programs[n - 1].Text()]
    }

    /** The programs from `start` on become empty ones. */
    method GenerateEmptyPrograms(start: nat)
      requires Valid() && start <= NUMBER_OF_PROGRAMS
      modifies programs
      ensures Valid()
      ensures forall i :: 0 <= i < start ==> programs[i] == old(programs[i])
      ensures forall i :: start <= i < NUMBER_OF_PROGRAMS ==> fresh(programs[i])
      ensures forall i :: start <= i < NUMBER_OF_PROGRAMS ==> programs[i].Text() == EmptyProgram(i)
    {
      hide Program.Valid, Program.Text, EmptyProgram;
      var i := start;
      while i < NUMBER_OF_PROGRAMS
        invariant start <= i <= NUMBER_OF_PROGRAMS && Valid()
        invariant forall j :: 0 <= j < NUMBER_OF_PROGRAMS && !(start <= j < i) ==> programs[j] == old(programs[j])
        invariant forall j :: start <= j < i ==> programs[j].Text() == EmptyProgram(j) && fresh(programs[j])
      {
        MakeEmpty(i);
        i := i + 1;
      }
    }

    method MakeEmpty(i: nat)
      requires Valid() && i < NUMBER_OF_PROGRAMS
      modifies programs
      ensures Valid() && programs[i].Text() == EmptyProgram(i) && fresh(programs[i])
      ensures forall j :: 0 <= j < NUMBER_OF_PROGRAMS && j != i ==> programs[j] == old(programs[j])
    {
      hide Program.Valid, Program.Text, EmptyProgram, Renamed, Imported, Truncated, Sanitized;
      EmptyProgramIs(i);
      programs[i] := new Program("", DefaultName(i), "");
    }

    method ImportNext(i: nat, lines: seq<string>, it: nat) returns (next: nat)
      requires Valid() && i < NUMBER_OF_PROGRAMS && it <= |lines| && forall line :: line in lines ==> ProperLine(line)
      modifies programs[i]
      ensures Valid() && programs[i].Text() == Imported(old(programs[i].Text()), lines[it..])
      ensures it <= next <= |lines| && lines[next..] == Rest(lines[it..])
    {
      hide Program.Valid, Program.Text, Imported, Rest, ProperLine;
      next := programs[i].ImportLines(lines, it);
    }

    /** The first programs have been read, the others are as before. */
    ghost predicate Reading(before: seq<ProgramText>, done: seq<ProgramText>)
      reads programs, programs[..]
    {
      Valid() && |done| <= NUMBER_OF_PROGRAMS == |before|
      && (forall j :: |done| <= j < NUMBER_OF_PROGRAMS ==> programs[j].Text() == before[j])
      && (forall j :: 0 <= j < |done| ==> programs[j].Text() == done[j])
    }

    /** The body of the loop over lines. */
    method ReadNext(i: nat, lines: seq<string>, it: nat, ghost before: seq<ProgramText>, ghost done: seq<ProgramText>)
      returns (next: nat)
      requires Reading(before, done) && |done| == i < NUMBER_OF_PROGRAMS
      requires it <= |lines| && forall line :: line in lines ==> ProperLine(line)
      modifies programs[i]
      ensures i < |before| && Reading(before, done + [Imported(before[i], lines[it..])])
      ensures it <= next <= |lines| && lines[next..] == Rest(lines[it..])
    {
      hide Program.Valid, Program.Text, Imported, Rest, ProperLine, EmptyProgram;
      next := ImportNext(i, lines, it);
    }

    /** src/bank.cpp:349-363 */
    method Import(serializedBank: string)
      requires Valid()
      modifies programs, programs[..]
      ensures Valid() && Texts() == ImportedFrom(old(Texts()), 0, SplitLines(serializedBank))
      ensures forall i :: 0 <= i < NUMBER_OF_PROGRAMS ==> programs[i] == old(programs[i]) || fresh(programs[i])
    {
      hide Program.Valid, Program.Text, Imported, Rest, ProperLine, EmptyProgram, SplitLines, Reading;
      var lines := ParseLines(serializedBank);
      SplitGivesProperLines(serializedBank);
      ghost var before, goal := Texts(), ImportedFrom(Texts(), 0, lines);
      ghost var done: seq<ProgramText> := [];
      assert lines[0..] == lines && done + goal == goal;
      NothingRead();
      var it, i := 0, 0;
      while it != |lines| && i < NUMBER_OF_PROGRAMS
        invariant 0 <= it <= |lines| && 0 <= i <= NUMBER_OF_PROGRAMS && Separate() && |done| == i
        invariant programs[..] == old(programs[..]) && Reading(before, done)
        invariant goal == done + ImportedFrom(before, i, lines[it..])
        decreases NUMBER_OF_PROGRAMS - i
      {
        ghost var next := Imported(before[i], lines[it..]);
        assert lines[it..] != [];
        Joined(done, [next], ImportedFrom(before, i + 1, Rest(lines[it..])));
        it := ReadNext(i, lines, it, before, done);
        done := done + [next];
        i := i + 1;
      }
      assert i < NUMBER_OF_PROGRAMS ==> lines[it..] == [];
      FillUp(i, before, done);
    }

    lemma NothingRead()
      requires Valid()
      ensures Reading(Texts(), [])
    {
      hide Program.Valid, Program.Text;
    }

    /** What the text does not reach becomes empty. */
    method FillUp(i: nat, ghost before: seq<ProgramText>, ghost done: seq<ProgramText>)
      requires Reading(before, done) && |done| == i
      modifies programs
      ensures Valid() && Texts() == done + ImportedFrom(before, i, [])
      ensures forall j :: 0 <= j < NUMBER_OF_PROGRAMS ==> programs[j] == old(programs[j]) || fresh(programs[j])
    {
      hide Program.Valid, Program.Text, Imported, Rest, EmptyProgram;
      EmptyTail(before, i);
      GenerateEmptyPrograms(i);
    }

    lemma TextsAreWellFormed()
      requires Valid()
      ensures forall p :: p in Texts() ==> WellFormed(p)
    {
    }

    twostate lemma StaysAsItIs()
      requires old(Valid()) && unchanged(programs) && forall p :: p in old(programs[..]) ==> unchanged(p)
      ensures Valid() && Texts() == old(Texts())
    {
      hide TextOf, WellFormed;
      forall i | 0 <= i < NUMBER_OF_PROGRAMS
        ensures programs[i].Valid() && programs[i].Text() == old(programs[i].Text())
      {
        assert programs[i] == old(programs[..])[i] && programs[i] in old(programs[..]);
      }
    }

    static lemma {:induction false} EmptyTail(programs: seq<ProgramText>, i: nat)
      requires i <= |programs| == NUMBER_OF_PROGRAMS
      ensures forall j :: i <= j < NUMBER_OF_PROGRAMS ==> ImportedFrom(programs, i, [])[j - i] == EmptyProgram(j)
      decreases NUMBER_OF_PROGRAMS - i
    {
      hide EmptyProgram;
      if i < NUMBER_OF_PROGRAMS {
        EmptyTail(programs, i + 1);
      }
    }

    /** src/bank.cpp:389-409 */
    method Serialize() returns (result: string)
      requires Valid()
      ensures result == BankText(Texts())
    {
      hide TextOf;
      result := "";
      var i := 0;
      assert Texts()[..0] == [];
      while i != NUMBER_OF_PROGRAMS
        invariant 0 <= i <= NUMBER_OF_PROGRAMS && result == BankText(Texts()[..i])
      {
        assert Texts()[..i + 1] == Texts()[..i] + [programs[i].Text()];
        BankTextNext(Texts()[..i], programs[i].Text());
        result := result + programs[i].serialized;
        result := result + "\r\n";
        i := i + 1;
      }
      assert Texts()[..NUMBER_OF_PROGRAMS] == Texts();
    }
  }

  /** What becomes of a program `was` that receives the text of `sent`. */
  ghost predicate Arrives(sent: ProgramText, was: ProgramText, r: ProgramText) {
    r.params == sent.params
    && (r.name == sent.name <==> Readable(sent.name) || sent.name == was.defaultName)
    && (Readable(sent.name) ==> r.shortName == sent.shortName && TextOf(r) == TextOf(sent))
  }

  lemma TextsArrive(sent: seq<ProgramText>, was: seq<ProgramText>)
    requires |sent| == |was| == NUMBER_OF_PROGRAMS
    requires (forall p :: p in sent ==> WellFormed(p)) && forall p :: p in was ==> WellFormed(p)
    ensures var r := ImportedFrom(was, 0, SplitLines(BankText(sent)));
      |r| == NUMBER_OF_PROGRAMS && forall i :: 0 <= i < NUMBER_OF_PROGRAMS ==> Arrives(sent[i], was[i], r[i])
  {
    hide ImportedFrom, SplitLines, BankText, Readable, WellFormed, TextOf;
    assert forall i :: 0 <= i < NUMBER_OF_PROGRAMS ==> sent[i] in sent && was[i] in was;
    BankRoundTrip(sent, was);
  }

  /**
   The text of one bank imported into another: all parameters arrive, a name does exactly when it is readable or
   is the default name there, and a program with a readable name arrives character by character.
   */
  method Transfer(source: Bank, target: Bank)
    requires source.Valid() && target.Valid() && source.programs != target.programs
    requires forall p :: p in source.programs[..] ==> p !in target.programs[..]
    modifies target.programs, target.programs[..]
    ensures source.Valid() && source.Texts() == old(source.Texts()) && target.Valid()
    ensures forall i :: 0 <= i < NUMBER_OF_PROGRAMS ==>
      Arrives(source.Texts()[i], old(target.Texts())[i], target.Texts()[i])
  {
    hide Program.Valid, Program.Text, Program.Loose, ImportedFrom, SplitLines, BankText, WellFormed, Arrives;
    source.TextsAreWellFormed();
    target.TextsAreWellFormed();
    TextsArrive(source.Texts(), target.Texts());
    var text := source.Serialize();
    target.Import(text);
    assert forall p :: p in old(source.programs[..]) ==> unchanged(p);
    source.StaysAsItIs();
  }

  lemma {:induction false} BankTextNext(programs: seq<ProgramText>, p: ProgramText)
    ensures BankText(programs + [p]) == BankText(programs) + TextOf(p) + "\r\n"
  {
    hide TextOf;
    if programs == [] {
      assert [] + [p] == [p] && [p][1..] == [];
      assert BankText([p]) == TextOf(p) + "\r\n" + "";
    } else {
      assert (programs + [p])[1..] == programs[1..] + [p];
      BankTextNext(programs[1..], p);
      var first, rest := TextOf(programs[0]) + "\r\n", BankText(programs[1..]);
      Joined(first, rest, TextOf(p));
      Joined(first, rest + TextOf(p), "\r\n");
    }
  }
}
