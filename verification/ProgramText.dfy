/** What a program of src/bank.cpp holds, how its names are made, and what importing lines makes of it. */
module ProgramTexts {
  import opened Sequences
  import opened Lines
  import opened Parsing

  const NAME_MAX_LENGTH := 24
  const SHORT_NAME_MAX_LENGTH := 8

  /** The lines of a program are its parameters, without the head of its section and without its name. */
  datatype ProgramText = ProgramText(name: string, shortName: string, defaultName: string, params: seq<string>)

  // ---- Names ----

  /** Printable ASCII, except for brackets and the backslash. */
  predicate IsAllowedChar(c: char) {
    ' ' <= c <= '~' && c != '[' && c != '\\' && c != ']'
  }

  /** The allowed characters of a name from its first one that is not a space. */
  function Kept(name: string): (r: string)
    ensures |r| <= |name|
  {
    if name == "" then ""
    else
      var start, c := Kept(name[..|name| - 1]), name[|name| - 1];
      if IsAllowedChar(c) && (start != "" || c != ' ') then start + [c] else start
  }

  function WithoutTrailingSpaces(s: string): (r: string)
    ensures |r| <= |s| && r == s[..|r|]
    ensures r != "" ==> r[|r| - 1] != ' '
    ensures forall i :: |r| <= i < |s| ==> s[i] == ' '
  {
    if s != "" && s[|s| - 1] == ' ' then WithoutTrailingSpaces(s[..|s| - 1]) else s
  }

  function Sanitized(name: string, defaultName: string): string {
    var s := WithoutTrailingSpaces(Kept(name));
    if s == "" then defaultName else s
  }

  /** Texts that reach the limit keep their start and their last character, with dots in between. */
  function Truncated(text: string, maxLength: nat): string {
    if |text| < maxLength then text
    else if maxLength < 1 then ""
    else if maxLength >= 6 then text[..maxLength - 4] + ".." + [text[|text| - 1]]
    else text[..maxLength]
  }

  /** A name that has been through sanitising and truncating. */
  ghost predicate Clean(name: string) {
    |name| < NAME_MAX_LENGTH && CleanChars(name)
  }

  ghost predicate CleanChars(s: string) {
    (forall c :: c in s ==> IsAllowedChar(c)) && (s != "" ==> s[0] != ' ' && s[|s| - 1] != ' ')
  }

  lemma {:induction false} KeptIsClean(name: string)
    ensures var r := Kept(name); (forall c :: c in r ==> IsAllowedChar(c)) && (r != "" ==> r[0] != ' ')
  {
    if name != "" {
      KeptIsClean(name[..|name| - 1]);
    }
  }

  lemma SanitizedIsClean(name: string, defaultName: string)
    requires CleanChars(defaultName)
    ensures CleanChars(Sanitized(name, defaultName))
  {
    KeptIsClean(name);
    var k := Kept(name);
    var s := WithoutTrailingSpaces(k);
    assert forall c :: c in s ==> c in k;
  }

  lemma {:induction false} CleanIsKept(s: string)
    requires (forall c :: c in s ==> IsAllowedChar(c)) && (s != "" ==> s[0] != ' ')
    ensures Kept(s) == s
  {
    if s != "" {
      var start := s[..|s| - 1];
      assert (forall c :: c in start ==> c in s) && s[|s| - 1] in s && (start != "" ==> start[0] == s[0]);
      CleanIsKept(start);
      assert s == start + [s[|s| - 1]];
    }
  }

  /** All the allowed characters of a name. */
  function Filtered(name: string): string {
    if name == "" then ""
    else if IsAllowedChar(name[0]) then [name[0]] + Filtered(name[1..])
    else Filtered(name[1..])
  }

  lemma {:induction false} FilteredNext(name: string, c: char)
    ensures Filtered(name + [c]) == if IsAllowedChar(c) then Filtered(name) + [c] else Filtered(name)
  {
    if name != "" {
      assert (name + [c])[1..] == name[1..] + [c];
      FilteredNext(name[1..], c);
    }
  }

  ghost predicate AllSpaces(s: string) {
    forall c :: c in s ==> c == ' '
  }

  lemma {:induction false} KeptIsFiltered(name: string) returns (spaces: string)
    ensures AllSpaces(spaces) && Filtered(name) == spaces + Kept(name)
  {
    spaces := "";
    if name != "" {
      var start, c := name[..|name| - 1], name[|name| - 1];
      spaces := KeptIsFiltered(start);
      FilteredNext(start, c);
      assert name == start + [c];
      if IsAllowedChar(c) && Kept(start) == "" && c == ' ' {
        spaces := spaces + [c];
      }
    }
  }

  /** Sanitising takes out the characters that are not allowed and then the spaces at both ends, and nothing else. */
  lemma SanitizingKeepsTheRest(name: string, defaultName: string) returns (before: string, core: string, after: string)
    ensures Filtered(name) == before + core + after && AllSpaces(before) && AllSpaces(after)
    ensures core != "" ==> core[0] != ' ' && core[|core| - 1] != ' '
    ensures Sanitized(name, defaultName) == if core == "" then defaultName else core
  {
    before := KeptIsFiltered(name);
    KeptIsClean(name);
    var kept := Kept(name);
    core := WithoutTrailingSpaces(kept);
    after := kept[|core|..];
    assert kept == core + after;
    Joined(before, core, after);
  }

  /** Sanitising changes nothing about a clean name, except that an empty one becomes the default name. */
  lemma CleanIsSanitized(s: string, defaultName: string)
    requires CleanChars(s)
    ensures Sanitized(s, defaultName) == if s == "" then defaultName else s
  {
    CleanIsKept(s);
  }

  lemma TruncatedIsClean(s: string)
    requires CleanChars(s)
    ensures Clean(Truncated(s, NAME_MAX_LENGTH))
    ensures Truncated(Truncated(s, NAME_MAX_LENGTH), SHORT_NAME_MAX_LENGTH) == Truncated(s, SHORT_NAME_MAX_LENGTH)
  {
    var t := Truncated(s, NAME_MAX_LENGTH);
    if |s| >= NAME_MAX_LENGTH {
      assert s[|s| - 1] in s && forall c :: c in s[..20] ==> c in s;
      assert t[..4] == s[..4] && t[0] == s[0];
    }
  }

  function Renamed(p: ProgramText, newName: string): ProgramText {
    var s := Sanitized(newName, p.defaultName);
    p.(name := Truncated(s, NAME_MAX_LENGTH), shortName := Truncated(s, SHORT_NAME_MAX_LENGTH))
  }

  // ---- Importing ----

  /** A text as C sees it, up to its first zero character. */
  function CString(s: string): string {
    if s == "" || s[0] == '\0' then "" else [s[0]] + CString(s[1..])
  }

  /** The name that a line gives, if it gives one. */
  function NameValue(line: string): Option<string> {
    match UntilValue(line)
    case None => None
    case Some((param, rest)) => if param == "NAME" then Some(CString(SkipBlank(rest))) else None
  }

  /** A line that a program keeps as part of its parameters. */
  ghost predicate ParamLine(line: string) {
    ProperLine(line) && !IsHeader(line) && NameValue(line) == None
  }

  /** The lines after the first head of our section. */
  function AfterHead(lines: seq<string>): (r: Option<seq<string>>)
    ensures r.Some? ==> |r.value| < |lines| && r.value == lines[|lines| - |r.value|..]
  {
    if lines == [] then None
    else if StartsSection(lines[0]) then Some(lines[1..])
    else AfterHead(lines[1..])
  }

  /** The lines up to the next head of any section. */
  function Body(lines: seq<string>): (r: seq<string>)
    ensures r <= lines && forall line :: line in r ==> !IsHeader(line)
  {
    if lines == [] || IsHeader(lines[0]) then [] else [lines[0]] + Body(lines[1..])
  }

  function ParamLines(body: seq<string>): (r: seq<string>)
    ensures forall line :: line in r ==> line in body && NameValue(line) == None
  {
    if body == [] then []
    else
      var start, line := ParamLines(body[..|body| - 1]), body[|body| - 1];
      if NameValue(line).Some? then start else start + [line]
  }

  function LastName(body: seq<string>): Option<string> {
    if body == [] then None
    else if NameValue(body[|body| - 1]).Some? then NameValue(body[|body| - 1])
    else LastName(body[..|body| - 1])
  }

  function Imported(p: ProgramText, lines: seq<string>): ProgramText {
    match AfterHead(lines)
    case None => Renamed(p, "").(params := [])
    case Some(tail) =>
      var named := match LastName(Body(tail)) case None => p case Some(name) => Renamed(p, name);
      named.(params := ParamLines(Body(tail)))
  }

  /** What importing one program leaves for the next one. */
  function Rest(lines: seq<string>): seq<string> {
    match AfterHead(lines)
    case None => []
    case Some(tail) => tail[|Body(tail)|..]
  }

  ghost predicate WellFormed(p: ProgramText) {
    Clean(p.name) && Clean(p.defaultName) && p.shortName == Truncated(p.name, SHORT_NAME_MAX_LENGTH)
    && forall line :: line in p.params ==> ParamLine(line)
  }

  lemma RenamedIsWellFormed(p: ProgramText, newName: string)
    requires WellFormed(p)
    ensures WellFormed(Renamed(p, newName))
  {
    SanitizedIsClean(newName, p.defaultName);
    TruncatedIsClean(Sanitized(newName, p.defaultName));
  }

  lemma ImportedIsWellFormed(p: ProgramText, lines: seq<string>)
    requires WellFormed(p) && forall line :: line in lines ==> ProperLine(line)
    ensures WellFormed(Imported(p, lines))
  {
    hide Renamed, IsHeader, NameValue, Clean, Truncated;
    match AfterHead(lines) {
      case None => RenamedIsWellFormed(p, "");
      case Some(tail) =>
        assert forall line :: line in Body(tail) ==> line in tail;
        assert forall line :: line in tail ==> line in lines;
        if LastName(Body(tail)).Some? {
          RenamedIsWellFormed(p, LastName(Body(tail)).value);
        }
        KeepsDefault(p, "");
    }
  }

  lemma KeepsDefault(p: ProgramText, newName: string)
    ensures Renamed(p, newName).defaultName == p.defaultName && Renamed(p, newName).params == p.params
  {
  }
}
