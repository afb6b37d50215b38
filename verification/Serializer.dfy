/** src/serializer.cpp: writing the settings of a proxy as text, and importing such a text in the audio thread. */
module Serializers {
  import opened Midi
  import opened Sequences
  import opened Params
  import opened Lines
  import opened Parsing
  import opened ProgramTexts
  import opened BankTexts
  import opened Decimals
  import opened Settings
  import opened ProxyClass

  const LINE_SIZE := 128

  /** src/serializer.cpp:38-74 */
  method Serialize(ps: ParamTable) returns (serialized: string)
    ensures serialized == SettingsText(ps)
  {
    hide WithinSpecs, SettingLine;
    serialized := "[" + SECTION_NAME + "]" + "\r\n";
    var i := 0;
    ghost var head := HEAD + "\r\n";
    assert serialized == head + Join(SettingLines(ps, 0));
    while i != PARAM_ID_COUNT
      invariant 0 <= i <= PARAM_ID_COUNT && serialized == head + Join(SettingLines(ps, i))
    {
      if Deviates(ps, i) {
        var line := PrintSetting(i, ps[i].ratio);
        JoinNext(SettingLines(ps, i), line);
        Joined(head, Join(SettingLines(ps, i)), line + "\r\n");
        serialized := serialized + line + "\r\n";
      }
      i := i + 1;
    }
  }

  method PrintSetting(id: nat, ratio: Ratio) returns (line: string)
    requires id < PARAM_ID_COUNT
    ensures line == SettingLine(id, ratio)
  {
    hide NameOf, Numeral, Trimmed, Fifteen;
    var text := NameOf(id) + " = " + Numeral(Fifteen(ratio));
    PrintableSetting(id, Fifteen(ratio));
    var buffer := new char[LINE_SIZE];
    Print(buffer, text);
    TrimExcessZerosFromEnd(buffer, |text|, LINE_SIZE, |text|);
    TrimmedBehind(NameOf(id) + " = ", Numeral(Fifteen(ratio)));
    line := CString(buffer[..]);
  }

  lemma PrintableSetting(id: nat, k: nat)
    requires id < PARAM_ID_COUNT && k <= ONE
    ensures var text := NameOf(id) + " = " + Numeral(k); 0 < |text| < LINE_SIZE && '\0' !in text
    ensures '.' in Numeral(k)
  {
    hide NameOf, Padded;
    NameIsPlain(id);
    NumeralDenotes(k);
    assert Numeral(k)[1] == '.';
  }

  lemma TrimmedBehind(start: string, number: string)
    requires '.' in number
    ensures Trimmed(start + number) == start + Trimmed(number)
  {
    ZeroRunBehind(start, number);
    var z := ZeroRun(number);
    assert z > 0 ==> (start + number)[..|start| + |number| - z + 1] == start + number[..|number| - z + 1];
  }

  lemma {:induction false} ZeroRunBehind(start: string, number: string)
    requires '.' in number
    ensures ZeroRun(start + number) == ZeroRun(number)
  {
    if number[|number| - 1] == '0' {
      assert (start + number)[..|start + number| - 1] == start + number[..|number| - 1];
      ZeroRunBehind(start, number[..|number| - 1]);
    }
  }

  /** src/serializer.cpp:451-484 */
  method ParseNumber(line: string, it: nat) returns (ok: bool, number: Ratio, next: nat)
    requires it <= |line|
    ensures it <= next <= |line|
    ensures var part := NumberPart(line[it..], false);
      && (ok <==> part.Some? && part.value != "")
      && (ok ==> number == ClampRatio(Number(part.value)) && line[next..] == line[it..][|part.value|..])
  {
    hide NumberPart, Number;
    number, next := 0.0, it;
    var hasDot := false;
    ghost var part := NumberPart(line[it..], false);
    NumberStarts(line, it);
    while next != |line|
      invariant it <= next <= |line|
      invariant AfterPart(line[it..next], NumberPart(line[next..], hasDot), part)
    {
      NumberGoesOn(line, it, next, hasDot, part);
      if line[next] == '.' {
        if hasDot {
          return false, number, next;
        }
        hasDot := true;
      } else if !IsDigit(line[next]) {
        break;
      }
      next := next + 1;
    }
    NumberEnds(line, it, next, hasDot, part);
    var text := line[it..next];
    if text == "" {
      return false, number, next;
    }
    number := ClampRatio(Number(text));
    ok := true;
  }

  /** The number read so far and what is still to come make up the whole number, if there is one. */
  ghost predicate AfterPart(read: string, rest: Option<string>, whole: Option<string>) {
    whole == match rest case None => None case Some(more) => Some(read + more)
  }

  lemma NumberStarts(line: string, it: nat)
    requires it <= |line|
    ensures AfterPart(line[it..it], NumberPart(line[it..], false), NumberPart(line[it..], false))
  {
    hide NumberPart;
    var part := NumberPart(line[it..], false);
    assert part.Some? ==> line[it..it] + part.value == part.value;
  }

  lemma NumberStep(s: string, hasDot: bool)
    requires s != ""
    ensures NumberPart(s, hasDot)
      == if s[0] != '.' && !IsDigit(s[0]) then Some("")
         else if s[0] == '.' && hasDot then None
         else match NumberPart(s[1..], hasDot || s[0] == '.') case None => None case Some(rest) => Some([s[0]] + rest)
  {
  }

  lemma NumberGoesOn(line: string, it: nat, next: nat, hasDot: bool, whole: Option<string>)
    requires it <= next < |line| && AfterPart(line[it..next], NumberPart(line[next..], hasDot), whole)
    ensures line[next] == '.' && hasDot ==> whole == None
    ensures (line[next] == '.' && !hasDot) || IsDigit(line[next]) ==>
      AfterPart(line[it..next + 1], NumberPart(line[next + 1..], hasDot || line[next] == '.'), whole)
    ensures line[next] != '.' && !IsDigit(line[next]) ==> NumberPart(line[next..], hasDot) == Some("")
  {
    hide NumberPart;
    Ahead(line, next);
    NumberStep(line[next..], hasDot);
    assert line[it..next + 1] == line[it..next] + [line[next]];
    var more := NumberPart(line[next + 1..], hasDot || line[next] == '.');
    if more.Some? {
      Joined(line[it..next], [line[next]], more.value);
    }
  }

  lemma NumberEnds(line: string, it: nat, next: nat, hasDot: bool, whole: Option<string>)
    requires it <= next <= |line| && AfterPart(line[it..next], NumberPart(line[next..], hasDot), whole)
    requires next < |line| ==> NumberPart(line[next..], hasDot) == Some("")
    ensures whole == Some(line[it..next]) && line[next..] == line[it..][next - it..]
  {
    assert line[it..next] + "" == line[it..next];
  }

  /** src/serializer.cpp:355-384 */
  method ProcessLine(messages: seq<Message>, line: string) returns (more: seq<Message>)
    ensures more == messages + if LineMessage(line).Some? then [LineMessage(line).value] else []
  {
    hide UntilValue, SkipBlank, NumberPart, Number, Lookup;
    SkipNothing();
    var ok, name, it := ParseLineUntilValue(line);
    if !ok {
      return messages;
    }
    ghost var value := line[it..];
    var reached;
    reached, it := SkippingReachesTheEnd(line, it);
    if reached {
      NothingIsNoNumber();
      return messages;
    }
    var number;
    ok, number, it := ParseNumber(line, it);
    if !ok {
      return messages;
    }
    reached, it := SkippingReachesTheEnd(line, it);
    if !reached {
      return messages;
    }
    var id := Lookup(name, PARAM_ID_COUNT);
    if id.None? {
      return messages;
    }
    more := messages + [(id.value, number)];
  }

  lemma NothingIsNoNumber()
    ensures NumberPart("", false) == Some("")
  {
  }

  /** src/serializer.cpp:237-273, up to the messages that are sent. */
  method ReadMessages(lines: seq<string>) returns (messages: seq<Message>)
    ensures messages == Messages(lines, false)
  {
    hide LineMessage, SectionName;
    messages := [];
    var inside := false;
    var it := 0;
    assert lines[0..] == lines;
    while it != |lines|
      invariant 0 <= it <= |lines| && messages + Messages(lines[it..], inside) == Messages(lines, false)
    {
      var line := lines[it];
      assert lines[it..][0] == line && lines[it..][1..] == lines[it + 1..];
      var isHead, sectionName := ParseSectionName(line);
      if isHead {
        inside := sectionName == SECTION_NAME;
      } else if inside {
        messages := ProcessLine(messages, line);
      }
      it := it + 1;
    }
  }

  /** Importing in the audio thread: everything is cleared first, then set line by line. */
  method ImportSettings(proxy: Proxy, serialized: string)
    requires proxy.Valid()
    modifies proxy`params, proxy`state
    ensures proxy.Valid()
    ensures proxy.state == old(proxy.state).(params := Settings.Imported(old(proxy.state).params, serialized))
  {
    hide Proxy.Valid, SplitLines, Messages, Cleared, SetRatio;
    var lines := ParseLines(serialized);
    var messages := ReadMessages(lines);
    proxy.HandleClear();
    ghost var cleared := proxy.state.params;
    var i := 0;
    while i != |messages|
      invariant 0 <= i <= |messages| && proxy.Valid()
      invariant forall m :: m in messages[..i] ==> m.0 < PARAM_ID_COUNT
      invariant proxy.state == old(proxy.state).(params := Applied(cleared, messages[..i]))
    {
      assert messages[i] in messages && messages[..i + 1][..i] == messages[..i];
      proxy.HandleSetParam(messages[i].0, messages[i].1);
      i := i + 1;
    }
    assert messages[..i] == messages;
  }
}
