/** src/serializer.cpp: the settings of a proxy as text, and that importing the text restores them. */
module Settings {
  import opened Midi
  import opened Sequences
  import opened Params
  import opened Lines
  import opened Parsing
  import opened BankTexts
  import opened Decimals

  // ---- The names of parameters ----

  function FieldName(field: nat): (r: string)
    requires field < RULE_PARAMS
    ensures |r| == 2 && forall c :: c in r ==> 'A' <= c <= 'Z'
  {
    match field
    case 0 => "IN"
    case 1 => "OU"
    case 2 => "IV"
    case 3 => "TR"
    case 4 => "DT"
    case 5 => "DL"
    case 6 => "MP"
    case 7 => "RS"
    case _ => "NV"
  }

  function RuleName(rule: nat, suffix: string): string
    requires rule < RULES
  {
    "Z1R" + [Digit(rule + 1)] + suffix
  }

  /** src/proxy.cpp:237-300 */
  function NameOf(id: nat): string
    requires id < PARAM_ID_COUNT
  {
    if id == MCM then "MCM"
    else if id == Z1TYP then "Z1TYP"
    else if id == Z1CHN then "Z1CHN"
    else if id == Z1ENH then "Z1ENH"
    else if id == Z1ANC then "Z1ANC"
    else if id == Z1ORV then "Z1ORV"
    else if id < Z1TRB then RuleName((id - Z1R1IN) / RULE_PARAMS, FieldName((id - Z1R1IN) % RULE_PARAMS))
    else if id == Z1TRB then "Z1TRB"
    else if id == Z1TRA then "Z1TRA"
    else if id == Z1SUS then "Z1SUS"
    else RuleName(id - Z1R1FB, "FB")
  }

  /** The parameter of this name among the first `n`; the original keeps a hash table for this. */
  function Lookup(name: string, n: nat): (r: Option<nat>)
    requires n <= PARAM_ID_COUNT
    ensures r.Some? ==> r.value < n && NameOf(r.value) == name
    ensures r.None? ==> forall id :: 0 <= id < n ==> NameOf(id) != name
  {
    if n == 0 then None else if NameOf(n - 1) == name then Some(n - 1) else Lookup(name, n - 1)
  }

  lemma RuleNameParts(rule: nat, suffix: string)
    requires rule < RULES && |suffix| == 2
    ensures var name := RuleName(rule, suffix);
      |name| == 6 && name[3] as int == 49 + rule && name[4] == suffix[0] && name[5] == suffix[1]
  {
  }

  lemma NameLength(id: nat)
    requires id < PARAM_ID_COUNT
    ensures |NameOf(id)| == if Z1R1IN <= id < Z1TRB || Z1R1FB <= id then 6 else if id == MCM then 3 else 5
  {
  }

  /** No two parameters have the same name. */
  lemma NamesAreDifferent(a: nat, b: nat)
    requires a < b < PARAM_ID_COUNT
    ensures NameOf(a) != NameOf(b)
  {
    NameLength(a);
    NameLength(b);
    if |NameOf(a)| == |NameOf(b)| == 6 {
      RuleNameParts(RuleOf(a), SuffixOf(a));
      RuleNameParts(RuleOf(b), SuffixOf(b));
    } else if |NameOf(a)| == |NameOf(b)| == 5 {
      assert NameOf(a)[4] != NameOf(b)[4];
    }
  }

  predicate OfRule(id: nat) {
    Z1R1IN <= id < Z1TRB || Z1R1FB <= id < PARAM_ID_COUNT
  }

  function RuleOf(id: nat): (r: nat)
    requires OfRule(id)
    ensures r < RULES
  {
    if id < Z1TRB then (id - Z1R1IN) / RULE_PARAMS else id - Z1R1FB
  }

  function SuffixOf(id: nat): (r: string)
    requires OfRule(id)
    ensures |r| == 2 && (forall i :: 0 <= i < 2 ==> 'A' <= r[i] <= 'Z') && NameOf(id) == RuleName(RuleOf(id), r)
  {
    if id < Z1TRB then FieldName((id - Z1R1IN) % RULE_PARAMS) else "FB"
  }

  lemma LookupFinds(id: nat, n: nat)
    requires id < n <= PARAM_ID_COUNT
    ensures Lookup(NameOf(id), n) == Some(id)
  {
    hide NameOf;
    var found := Lookup(NameOf(id), n);
    if found.value < id {
      NamesAreDifferent(found.value, id);
    } else if id < found.value {
      NamesAreDifferent(id, found.value);
    }
  }

  lemma NameIsPlain(id: nat)
    requires id < PARAM_ID_COUNT
    ensures IsPlain(NameOf(id))
  {
    if OfRule(id) {
      RuleNameParts(RuleOf(id), SuffixOf(id));
    }
  }

  // ---- The text ----

  function Fifteen(ratio: Ratio): (k: nat)
    ensures k <= ONE
  {
    RoundEven(ratio * ONE as real)
  }

  /** The ratio that is actually written. */
  function Quantized(ratio: Ratio): Ratio {
    Fifteen(ratio) as real / ONE as real
  }

  lemma QuantizedIsNear(ratio: Ratio)
    ensures -0.000000000000001 < Quantized(ratio) - ratio < 0.000000000000001
  {
    var k, x := Fifteen(ratio), ratio * ONE as real;
    assert -0.5 <= k as real - x <= 0.5;
    assert Quantized(ratio) - ratio == (k as real - x) / ONE as real;
  }

  lemma DecimalsAreKept(k: nat)
    requires k <= ONE
    ensures 0.0 <= k as real / ONE as real <= 1.0 && Quantized(k as real / ONE as real) == k as real / ONE as real
  {
    assert (k as real / ONE as real) * ONE as real == k as real;
  }

  function NumeralOf(ratio: Ratio): string {
    Trimmed(Numeral(Fifteen(ratio)))
  }

  function SettingLine(id: nat, ratio: Ratio): string
    requires id < PARAM_ID_COUNT
  {
    NameOf(id) + " = " + NumeralOf(ratio)
  }

  predicate Deviates(ps: ParamTable, id: nat)
    requires id < PARAM_ID_COUNT
  {
    DefaultRatio(id) - ps[id].ratio > 0.000001 || ps[id].ratio - DefaultRatio(id) > 0.000001
  }

  function SettingLines(ps: ParamTable, n: nat): seq<string>
    requires n <= PARAM_ID_COUNT
  {
    if n == 0 then []
    else if Deviates(ps, n - 1) then SettingLines(ps, n - 1) + [SettingLine(n - 1, ps[n - 1].ratio)]
    else SettingLines(ps, n - 1)
  }

  function SettingsText(ps: ParamTable): string {
    HEAD + "\r\n" + Join(SettingLines(ps, PARAM_ID_COUNT))
  }

  // ---- Reading it ----

  /** The digits, and at most one dot, at the start of a text; nothing if there is a second dot. */
  function NumberPart(s: string, hasDot: bool): (r: Option<string>)
    ensures r.Some? ==> r.value <= s && IsNumeral(r.value)
  {
    if s == "" || (s[0] != '.' && !IsDigit(s[0])) then Some("")
    else if s[0] == '.' && hasDot then None
    else
      match NumberPart(s[1..], hasDot || s[0] == '.')
      case None => None
      case Some(rest) => Some([s[0]] + rest)
  }

  type Message = (nat, Ratio)

  /** The parameter and the ratio that a line sets, if it sets one. */
  function LineMessage(line: string): (r: Option<Message>)
    ensures r.Some? ==> r.value.0 < PARAM_ID_COUNT
  {
    match UntilValue(line)
    case None => None
    case Some((name, rest)) =>
      var s := SkipBlank(rest);
      match NumberPart(s, false)
      case None => None
      case Some(text) =>
        if text == "" || SkipBlank(s[|text|..]) != "" then None
        else
          match Lookup(name, PARAM_ID_COUNT)
          case None => None
          case Some(id) => Some((id, ClampRatio(Number(text))))
  }

  /** The messages of the lines within our sections. */
  function Messages(lines: seq<string>, inside: bool): (r: seq<Message>)
    ensures forall m :: m in r ==> m.0 < PARAM_ID_COUNT
  {
    if lines == [] then []
    else if IsHeader(lines[0]) then Messages(lines[1..], StartsSection(lines[0]))
    else
      (if inside && LineMessage(lines[0]).Some? then [LineMessage(lines[0]).value] else [])
      + Messages(lines[1..], inside)
  }

  function Applied(ps: ParamTable, messages: seq<Message>): ParamTable
    requires forall m :: m in messages ==> m.0 < PARAM_ID_COUNT
    decreases |messages|
  {
    if messages == [] then ps
    else
      var n := |messages| - 1;
      assert messages[n] in messages && forall m :: m in messages[..n] ==> m in messages;
      SetRatio(Applied(ps, messages[..n]), messages[n].0, messages[n].1)
  }

  function Imported(ps: ParamTable, text: string): ParamTable {
    Applied(Cleared(ps, PARAM_ID_COUNT), Messages(SplitLines(text), false))
  }

  // ---- The round trip ----

  lemma {:induction false} DigitsAreRead(digits: string, hasDot: bool)
    requires forall c :: c in digits ==> IsDigit(c)
    ensures NumberPart(digits, hasDot) == Some(digits)
  {
    if digits != "" {
      assert digits[0] in digits && digits == [digits[0]] + digits[1..];
      DigitsAreRead(digits[1..], hasDot);
    }
  }

  lemma NumeralShape(k: nat)
    requires k <= ONE
    ensures var s := Trimmed(Numeral(k));
      |s| >= 3 && IsDigit(s[0]) && s[1] == '.' && forall c :: c in s[2..] ==> IsDigit(c)
    ensures IsNumeral(Trimmed(Numeral(k))) && Number(Trimmed(Numeral(k))) == k as real / ONE as real
  {
    hide Padded, Number;
    NumeralDenotes(k);
    TrimmingKeepsNumber(Numeral(k));
    var s, t := Numeral(k), Trimmed(Numeral(k));
    var whole, rest := Padded(k / ONE, 1), Padded(k % ONE, PLACES);
    assert |s| == 17 && s[1] == '.' && s[0] == whole[0] && s[0] in whole;
    assert ZeroRun(s) <= 15;
    assert t == s[..|t|] && |t| >= 3;
    forall i | 2 <= i < |t|
      ensures IsDigit(t[i])
    {
      assert t[i] == s[i] == rest[i - 2] && rest[i - 2] in rest;
    }
  }

  lemma NumeralIsRead(ratio: Ratio)
    ensures NumberPart(NumeralOf(ratio), false) == Some(NumeralOf(ratio))
    ensures ClampRatio(Number(NumeralOf(ratio))) == Quantized(ratio)
  {
    hide Numeral, Trimmed, Number, Fifteen;
    NumeralShape(Fifteen(ratio));
    var s := NumeralOf(ratio);
    DigitsAreRead(s[2..], true);
    assert s[1..] == ['.'] + s[2..] && s[1..][1..] == s[2..] && s == [s[0]] + s[1..];
    assert NumberPart(s[1..], false) == Some(s[1..]);
  }

  lemma SettingLineIsRead(id: nat, ratio: Ratio)
    requires id < PARAM_ID_COUNT
    ensures LineMessage(SettingLine(id, ratio)) == Some((id, Quantized(ratio))) && !IsHeader(SettingLine(id, ratio))
  {
    hide NameOf, Lookup, NumeralOf, Number, NumberPart, UntilValue, SkipBlank, SectionName, Quantized, IsPlain;
    NameIsPlain(id);
    LineUntilValue(NameOf(id), NumeralOf(ratio));
    NumeralStarts(ratio);
    NumeralIsRead(ratio);
    LookupFinds(id, PARAM_ID_COUNT);
    SkipNothing();
    assert NumeralOf(ratio)[|NumeralOf(ratio)|..] == "";
  }

  lemma NumeralStarts(ratio: Ratio)
    ensures NumeralOf(ratio) != "" && SkipBlank(" " + NumeralOf(ratio)) == NumeralOf(ratio)
  {
    hide Numeral, Trimmed, Fifteen, SkipBlank;
    NumeralShape(Fifteen(ratio));
    var s := NumeralOf(ratio);
    assert " " + s == [' '] + s;
    Behind(' ', s);
    SkipBlankSteps(" " + s);
    SkipBlankSteps(s);
  }

  /** What importing written settings sets. */
  function Written(ps: ParamTable, n: nat): (r: seq<Message>)
    requires n <= PARAM_ID_COUNT
    ensures forall m :: m in r ==> m.0 < n
  {
    if n == 0 then []
    else if Deviates(ps, n - 1) then Written(ps, n - 1) + [(n - 1, Quantized(ps[n - 1].ratio))]
    else Written(ps, n - 1)
  }

  lemma {:induction false} MessagesConcat(a: seq<string>, b: seq<string>)
    requires forall line :: line in a ==> !IsHeader(line)
    ensures Messages(a + b, true) == Messages(a, true) + Messages(b, true)
  {
    hide LineMessage, SectionName, Messages, IsHeader;
    NoMessages();
    if a == [] {
      assert a + b == b;
    } else {
      assert a[0] in a && (a + b)[0] == a[0] && (a + b)[1..] == a[1..] + b;
      MessagesConcat(a[1..], b);
      MessagesStep(a);
      MessagesStep(a + b);
    }
  }

  lemma NoMessages()
    ensures Messages([], true) == []
  {
  }

  lemma MessagesStep(lines: seq<string>)
    requires lines != [] && !IsHeader(lines[0])
    ensures Messages(lines, true)
      == if LineMessage(lines[0]).Some? then [LineMessage(lines[0]).value] + Messages(lines[1..], true)
         else Messages(lines[1..], true)
  {
    hide LineMessage, SectionName, IsHeader;
    assert [] + Messages(lines[1..], true) == Messages(lines[1..], true);
  }

  lemma {:induction false} SettingLinesAreRead(ps: ParamTable, n: nat)
    requires n <= PARAM_ID_COUNT
    ensures Messages(SettingLines(ps, n), true) == Written(ps, n)
    ensures forall line :: line in SettingLines(ps, n) ==> !IsHeader(line) && ProperLine(line)
  {
    hide LineMessage, SectionName, SettingLine, WithinSpecs, Quantized, ProperLine, Deviates;
    if n > 0 {
      SettingLinesAreRead(ps, n - 1);
      if Deviates(ps, n - 1) {
        var line := SettingLine(n - 1, ps[n - 1].ratio);
        SettingLineIsRead(n - 1, ps[n - 1].ratio);
        SettingLineIsProper(n - 1, ps[n - 1].ratio);
        MessagesConcat(SettingLines(ps, n - 1), [line]);
        assert [line][1..] == [];
      }
    }
  }

  lemma SettingLineIsProper(id: nat, ratio: Ratio)
    requires id < PARAM_ID_COUNT
    ensures ProperLine(SettingLine(id, ratio)) && |SettingLine(id, ratio)| <= 26
  {
    hide NameOf, Numeral, Trimmed, Number, Fifteen, LineMessage;
    NameIsPlain(id);
    NumeralShape(Fifteen(ratio));
    NumeralIsShort(ratio);
    var name, s, line := NameOf(id), NumeralOf(ratio), SettingLine(id, ratio);
    assert forall c :: c in line ==> c in name || c in " = " || c in s;
  }

  lemma NumeralIsShort(ratio: Ratio)
    ensures |NumeralOf(ratio)| <= 17
  {
  }

  lemma SettingsTextLines(ps: ParamTable)
    ensures SplitLines(SettingsText(ps)) == [HEAD] + SettingLines(ps, PARAM_ID_COUNT)
    ensures Messages(SplitLines(SettingsText(ps)), false) == Written(ps, PARAM_ID_COUNT)
  {
    hide SplitLines, SettingLines, Written, SectionName, WithinSpecs, ProperLine;
    var lines := SettingLines(ps, PARAM_ID_COUNT);
    SettingLinesAreRead(ps, PARAM_ID_COUNT);
    NameLineIsProper("");
    SplitOne(HEAD, Join(lines));
    SplitJoin(lines, "");
    NoLines();
    assert Join(lines) + "" == Join(lines) && lines + [] == lines;
    HeadStartsSection();
    HeadIsHeader();
    assert ([HEAD] + lines)[1..] == lines;
  }

  lemma {:induction false} AppliedWritten(target: ParamTable, ps: ParamTable, n: nat)
    requires n <= PARAM_ID_COUNT
    ensures var r := Applied(target, Written(ps, n));
      forall id :: 0 <= id < PARAM_ID_COUNT ==>
        r[id] == if id < n && Deviates(ps, id) then WithRatio(SpecOf(id), Quantized(ps[id].ratio)) else target[id]
  {
    hide WithinSpecs, Quantized, Deviates, WithRatio, SpecOf;
    if n > 0 {
      AppliedWritten(target, ps, n - 1);
      if Deviates(ps, n - 1) {
        var start := Written(ps, n - 1);
        assert (start + [(n - 1, Quantized(ps[n - 1].ratio))])[..|start|] == start;
      }
    }
  }

  /** Importing written settings into any proxy: what was written comes back, and all the rest is at its default. */
  lemma SettingsRoundTrip(ps: ParamTable, target: ParamTable, id: nat)
    requires id < PARAM_ID_COUNT
    ensures var r := Imported(target, SettingsText(ps))[id];
      && r == (if Deviates(ps, id) then WithRatio(SpecOf(id), Quantized(ps[id].ratio)) else DefaultParam(id))
      && -0.0000010001 < r.ratio - ps[id].ratio < 0.0000010001
  {
    hide SettingsText, Written, WithinSpecs, SpecOf, Quantized, Applied, Cleared;
    SettingsTextLines(ps);
    ClearedIsDefault(target, PARAM_ID_COUNT);
    AppliedWritten(Cleared(target, PARAM_ID_COUNT), ps, PARAM_ID_COUNT);
    QuantizedIsNear(ps[id].ratio);
    SpecRange(id);
    RatioOfDefault(SpecOf(id));
  }

  lemma SpecRange(id: nat)
    ensures SpecOf(id).maxValue <= 20000
  {
  }

  /**
   Ratios of at most fifteen places that are written come back exactly, and none is off by more than the
   threshold.
   */
  lemma DecimalSettingsRoundTrip(ps: ParamTable, target: ParamTable, id: nat, k: nat)
    requires id < PARAM_ID_COUNT && k <= ONE && ps[id].ratio == k as real / ONE as real
    ensures var r := Imported(target, SettingsText(ps))[id];
      && (Deviates(ps, id) ==> r.ratio == ps[id].ratio)
      && -0.000001 <= r.ratio - ps[id].ratio <= 0.000001
  {
    hide SettingsText, Imported, WithinSpecs, SpecOf, Quantized;
    SettingsRoundTrip(ps, target, id);
    DecimalsAreKept(k);
    RatioOfDefault(SpecOf(id));
  }

  /** A parameter that was set by value keeps its value exactly, whatever its ratio looks like in decimals. */
  lemma ValuesRoundTrip(ps: ParamTable, target: ParamTable, id: nat, value: nat)
    requires id < PARAM_ID_COUNT && ps[id] == WithValue(SpecOf(id), value)
    ensures Imported(target, SettingsText(ps))[id].value == ps[id].value
  {
    hide SettingsText, Imported, WithinSpecs, SpecOf, Quantized;
    hide DefaultRatio, WithValue, WithRatio, ValueToRatio;
    SettingsRoundTrip(ps, target, id);
    SpecRange(id);
    var spec, ratio := SpecOf(id), ps[id].ratio;
    SetByValue(spec, value);
    QuantizedIsNear(ratio);
    if Deviates(ps, id) {
      NearRatio(spec, ps[id].value, Quantized(ratio));
    } else {
      NearDefault(spec, id);
      NearRatio(spec, ps[id].value, DefaultRatio(id));
    }
  }

  lemma SetByValue(spec: ParamSpec, value: nat)
    requires spec.minValue < spec.maxValue
    ensures WithValue(spec, value).ratio == ValueToRatio(spec, WithValue(spec, value).value)
  {
  }

  lemma NearDefault(spec: ParamSpec, id: nat)
    requires spec == SpecOf(id)
    ensures DefaultParam(id) == WithRatio(spec, DefaultRatio(id))
  {
    RatioOfDefault(spec);
  }

  /** Ratios close to that of a value give the value. */
  lemma NearRatio(spec: ParamSpec, value: nat, ratio: Ratio)
    requires spec.minValue <= value <= spec.maxValue <= 20000 && spec.minValue < spec.maxValue
    requires -0.000001 <= ratio - ValueToRatio(spec, value) <= 0.000001
    ensures WithRatio(spec, ratio).value == value
  {
    hide ValueToRatio, WithRatio;
    var off := ratio - ValueToRatio(spec, value);
    SmallProduct(spec.maxValue - spec.minValue, off);
    RatioOfValue(spec, value, off);
  }

  lemma SmallProduct(range: nat, off: real)
    requires range <= 20000 && -0.000001 <= off <= 0.000001
    ensures -0.25 <= range as real * off <= 0.25
  {
    var r := range as real;
    Distortion.Product(r, 0.000001 - off);
    Distortion.Product(r, 0.000001 + off);
    assert r * (0.000001 - off) == r * 0.000001 - r * off && r * (0.000001 + off) == r * 0.000001 + r * off;
  }
}
