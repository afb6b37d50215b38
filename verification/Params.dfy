/** The parameters of src/proxy.cpp and the rules that are read off them. */
module Params {
  import opened Midi
  import opened Distortion

  const PARAM_ID_COUNT := 99
  const RULES := 9

  // Controller identifiers beyond the plain MIDI controllers 0..119.
  const SUSTAIN_PEDAL := 64
  const MAX_MIDI_CC := 119
  const PITCH_WHEEL := 120
  const PRESSURE := 121
  const MIDI_LEARN := 122
  const NONE := 123

  const ENH_IGNORE := 0
  const ENH_STEAL_LOWEST := 1
  const ENH_STEAL_HIGHEST := 2
  const ENH_STEAL_OLDEST := 3
  const ENH_STEAL_NEWEST := 4

  const TRG_GLOBAL := 0
  const TRG_ALL_BELOW_ANCHOR := 1
  const TRG_ALL_ABOVE_ANCHOR := 2
  const TRG_LOWEST := 3
  const TRG_HIGHEST := 4
  const TRG_OLDEST := 5
  const TRG_NEWEST := 6
  const TRG_LOWEST_BELOW_ANCHOR := 7
  const TRG_HIGHEST_BELOW_ANCHOR := 8
  const TRG_OLDEST_BELOW_ANCHOR := 9
  const TRG_NEWEST_BELOW_ANCHOR := 10
  const TRG_LOWEST_ABOVE_ANCHOR := 11
  const TRG_HIGHEST_ABOVE_ANCHOR := 12
  const TRG_OLDEST_ABOVE_ANCHOR := 13
  const TRG_NEWEST_ABOVE_ANCHOR := 14

  const RST_OFF := 0
  const RST_LAST := 1
  const RST_INIT := 2

  // Positions in the parameter table.
  const MCM := 0
  const Z1TYP := 1
  const Z1CHN := 2
  const Z1ENH := 3
  const Z1ANC := 4
  const Z1ORV := 5
  const Z1R1IN := 6
  const Z1TRB := 87
  const Z1TRA := 88
  const Z1SUS := 89
  const Z1R1FB := 90

  datatype ParamSpec = ParamSpec(minValue: nat, maxValue: nat, defaultValue: nat)

  /** Positions of a rule's own parameters after its first one. */
  const RULE_PARAMS := 9
  const IN_CC := 0
  const OUT_CC := 1
  const INIT_VALUE := 2
  const TARGET := 3
  const DISTORTION_TYPE := 4
  const DISTORTION_LEVEL := 5
  const MIDPOINT := 6
  const RESET := 7
  const INVERT := 8

  function RuleParam(rule: nat, field: nat): (id: nat)
    requires rule < RULES && field < RULE_PARAMS
    ensures Z1R1IN <= id < Z1TRB
  {
    Z1R1IN + RULE_PARAMS * rule + field
  }

  function DefaultController(rule: nat): nat {
    if rule == 0 then PITCH_WHEEL else if rule == 1 then PRESSURE else if rule == 2 then 74 else NONE
  }

  function RuleSpec(rule: nat, field: nat): ParamSpec {
    if field == IN_CC || field == OUT_CC then ParamSpec(0, NONE, DefaultController(rule))
    else if field == INIT_VALUE then ParamSpec(0, 16383, if rule == 0 || rule == 2 then 8192 else 0)
    else if field == TARGET then ParamSpec(TRG_GLOBAL, TRG_NEWEST_ABOVE_ANCHOR, TRG_NEWEST)
    else if field == DISTORTION_TYPE then ParamSpec(0, 3, 0)
    else if field == DISTORTION_LEVEL then ParamSpec(0, 16383, 0)
    else if field == MIDPOINT then ParamSpec(0, 20000, 10000)
    else if field == RESET then ParamSpec(RST_OFF, RST_INIT, RST_INIT)
    else ParamSpec(0, 1, 0)
  }

  function SpecOf(id: nat): (s: ParamSpec)
    ensures s.minValue <= s.defaultValue <= s.maxValue && s.minValue < s.maxValue
  {
    if id == Z1CHN then ParamSpec(1, 15, 15)
    else if id == Z1ENH then ParamSpec(ENH_IGNORE, ENH_STEAL_NEWEST, ENH_STEAL_OLDEST)
    else if id == Z1ANC then ParamSpec(0, 127, 60)
    else if Z1R1IN <= id < Z1TRB then RuleSpec((id - Z1R1IN) / RULE_PARAMS, (id - Z1R1IN) % RULE_PARAMS)
    else if id == Z1TRB || id == Z1TRA then ParamSpec(0, 96, 48)
    else ParamSpec(0, 1, 0)
  }

  datatype Param = Param(ratio: Ratio, value: nat)

  function ClampRatio(r: real): Ratio {
    if r <= 0.0 then 0.0 else if r >= 1.0 then 1.0 else r
  }

  function ValueToRatio(spec: ParamSpec, value: nat): Ratio
    requires spec.minValue < spec.maxValue
  {
    ClampRatio((value - spec.minValue) as real / (spec.maxValue - spec.minValue) as real)
  }

  function WithValue(spec: ParamSpec, value: nat): (p: Param)
    requires spec.minValue < spec.maxValue
    ensures spec.minValue <= p.value <= spec.maxValue
  {
    var v := Clamp(value, spec.minValue, spec.maxValue);
    Param(ValueToRatio(spec, v), v)
  }

  function WithRatio(spec: ParamSpec, ratio: real): (p: Param)
    requires spec.minValue < spec.maxValue
    ensures spec.minValue <= p.value <= spec.maxValue
  {
    var r := ClampRatio(ratio);
    Param(r, Clamp(spec.minValue + Round((spec.maxValue - spec.minValue) as real * r), spec.minValue, spec.maxValue))
  }

  ghost predicate WithinSpecs(ps: seq<Param>) {
    forall id :: 0 <= id < |ps| ==> SpecOf(id).minValue <= ps[id].value <= SpecOf(id).maxValue
  }

  function DefaultParam(id: nat): Param {
    WithValue(SpecOf(id), SpecOf(id).defaultValue)
  }

  const DEFAULT_PARAMS: seq<Param> := seq(PARAM_ID_COUNT, id requires 0 <= id => DefaultParam(id))

  /** All parameters, by identifier. */
  type ParamTable = ps: seq<Param> | |ps| == PARAM_ID_COUNT && WithinSpecs(ps) ghost witness DEFAULT_PARAMS

  function SetRatio(ps: ParamTable, id: nat, ratio: real): ParamTable
    requires id < PARAM_ID_COUNT
  {
    ps[id := WithRatio(SpecOf(id), ratio)]
  }

  function SetValue(ps: ParamTable, id: nat, value: nat): ParamTable
    requires id < PARAM_ID_COUNT
  {
    ps[id := WithValue(SpecOf(id), value)]
  }

  function DefaultRatio(id: nat): Ratio {
    ValueToRatio(SpecOf(id), SpecOf(id).defaultValue)
  }

  /** Every parameter set to its default ratio. */
  function Cleared(ps: ParamTable, n: nat): ParamTable
    requires n <= PARAM_ID_COUNT
  {
    if n == 0 then ps else SetRatio(Cleared(ps, n - 1), n - 1, DefaultRatio(n - 1))
  }

  lemma RatioOfDefault(spec: ParamSpec)
    requires spec.minValue <= spec.defaultValue <= spec.maxValue && spec.minValue < spec.maxValue
    ensures WithRatio(spec, ValueToRatio(spec, spec.defaultValue)) == WithValue(spec, spec.defaultValue)
  {
    RatioOfValue(spec, spec.defaultValue, 0.0);
  }

  /** A ratio that came from a value gives the value back, even when it is slightly off. */
  lemma RatioOfValue(spec: ParamSpec, value: nat, off: real)
    requires spec.minValue <= value <= spec.maxValue && spec.minValue < spec.maxValue
    requires 0.0 <= ValueToRatio(spec, value) + off <= 1.0
    requires -0.25 <= (spec.maxValue - spec.minValue) as real * off <= 0.25
    ensures WithRatio(spec, ValueToRatio(spec, value) + off).value == value
    ensures WithRatio(spec, ValueToRatio(spec, value) + off).ratio == ValueToRatio(spec, value) + off
  {
    var range, steps := (spec.maxValue - spec.minValue) as real, (value - spec.minValue) as real;
    assert 0.0 <= steps / range <= 1.0;
    assert ValueToRatio(spec, value) == steps / range;
    assert range * (steps / range + off) == steps + range * off;
  }

  lemma {:induction false} ClearedIsDefault(ps: ParamTable, n: nat)
    requires n <= PARAM_ID_COUNT
    ensures forall id :: 0 <= id < PARAM_ID_COUNT ==> Cleared(ps, n)[id] == if id < n then DefaultParam(id) else ps[id]
  {
    hide WithinSpecs, WithRatio, WithValue, SpecOf;
    if n > 0 {
      ClearedIsDefault(ps, n - 1);
      RatioOfDefault(SpecOf(n - 1));
    }
  }

  datatype Rule = Rule(inCc: nat, outCc: nat, initRatio: Ratio, target: nat, curve: nat,
                       level: Ratio, midpoint: Ratio, reset: nat, invert: bool, fallback: bool)
  {
    /** src/proxy.cpp:170-182 */
    function Distort(value: Ratio, curves: Curves): Ratio
      requires curve < 4
    {
      Distortion.Distort(level, Bent(value), curves[curve])
    }

    /** The input after the midpoint has been moved and the direction chosen. */
    function Bent(value: Ratio): Ratio {
      BentInRange(this, value);
      var shifted := Shifted(value);
      if invert then 1.0 - shifted else shifted
    }

    function Shifted(value: real): real {
      if value < 0.5 then 2.0 * value * midpoint
      else midpoint + (2.0 * value - 1.0) * (1.0 - midpoint)
    }

    /** src/proxy.cpp:185-199 */
    predicate NeedsResetForNoteEvent(isAboveAnchor: bool) {
      reset != RST_OFF
      && target != TRG_GLOBAL
      && (target != TRG_ALL_BELOW_ANCHOR || !isAboveAnchor)
      && (target != TRG_ALL_ABOVE_ANCHOR || isAboveAnchor)
    }

    /** src/proxy.cpp:202-215 */
    function ResetValue(lastInput: Ratio, curves: Curves): Ratio
      requires curve < 4
    {
      Distort(if reset == RST_LAST || target == TRG_ALL_ABOVE_ANCHOR || target == TRG_ALL_BELOW_ANCHOR
              then lastInput else initRatio, curves)
    }
  }

  lemma RuleParamSpec(rule: nat, field: nat)
    requires rule < RULES && field < RULE_PARAMS
    ensures SpecOf(RuleParam(rule, field)) == RuleSpec(rule, field)
  {
    assert (RULE_PARAMS * rule + field) / RULE_PARAMS == rule;
  }

  function RuleAt(ps: ParamTable, i: nat): (r: Rule)
    requires i < RULES
    ensures r.curve < 4 && r.target <= TRG_NEWEST_ABOVE_ANCHOR && r.outCc <= NONE
  {
    RuleParamSpec(i, OUT_CC);
    RuleParamSpec(i, TARGET);
    RuleParamSpec(i, DISTORTION_TYPE);
    Rule(ps[RuleParam(i, IN_CC)].value, ps[RuleParam(i, OUT_CC)].value, ps[RuleParam(i, INIT_VALUE)].ratio,
         ps[RuleParam(i, TARGET)].value, ps[RuleParam(i, DISTORTION_TYPE)].value,
         ps[RuleParam(i, DISTORTION_LEVEL)].ratio, ps[RuleParam(i, MIDPOINT)].ratio,
         ps[RuleParam(i, RESET)].value, ps[RuleParam(i, INVERT)].value == 1, ps[Z1R1FB + i].value == 1)
  }

  lemma BentInRange(rule: Rule, value: Ratio)
    ensures 0.0 <= rule.Shifted(value) <= 1.0
    ensures value < 0.5 ==> rule.Shifted(value) <= rule.midpoint
    ensures value >= 0.5 ==> rule.Shifted(value) >= rule.midpoint
  {
    var m := rule.midpoint;
    if value < 0.5 {
      Product(2.0 * value, m);
      Product(1.0 - 2.0 * value, m);
    } else {
      Product(2.0 * value - 1.0, 1.0 - m);
      Product(2.0 - 2.0 * value, 1.0 - m);
      var p := (2.0 * value - 1.0) * (1.0 - m);
      assert (2.0 - 2.0 * value) * (1.0 - m) == (1.0 - m) - p;
      assert 0.0 <= p && rule.Shifted(value) == m + p;
    }
  }

  /**
   The lower half of the input goes to the range below the midpoint and the upper half to that above, each on a
   straight line; inversion then mirrors the result.
   */
  lemma BentMeans(rule: Rule, w: Ratio)
    ensures var low, high := w * rule.midpoint, rule.midpoint + w * (1.0 - rule.midpoint);
      && rule.Bent(0.5 * w) == (if rule.invert then 1.0 - low else low)
      && rule.Bent(0.5 + 0.5 * w) == (if rule.invert then 1.0 - high else high)
  {
    hide Rule.Shifted;
    ShiftedMeans(rule, w);
  }

  lemma ShiftedMeans(rule: Rule, w: Ratio)
    ensures rule.Shifted(0.5 * w) == w * rule.midpoint
    ensures rule.Shifted(0.5 + 0.5 * w) == rule.midpoint + w * (1.0 - rule.midpoint)
  {
    var m, low, high := rule.midpoint, 0.5 * w, 0.5 + 0.5 * w;
    SameProduct(2.0 * low, w, m);
    SameProduct(2.0 * high - 1.0, w, 1.0 - m);
    if w == 1.0 {
      SameProduct(2.0 * low - 1.0, 0.0, 1.0 - m);
      assert rule.Shifted(low) == m;
    } else {
      assert rule.Shifted(low) == 2.0 * low * m;
    }
    assert rule.Shifted(high) == m + (2.0 * high - 1.0) * (1.0 - m);
  }

  lemma SameProduct(a: real, b: real, c: real)
    requires a == b
    ensures a * c == b * c
  {
  }

  /** The bent input is what a rule distorts: not at all below level 0.0001, and from there on in proportion. */
  lemma RuleBlends(rule: Rule, value: Ratio, curves: Curves)
    requires rule.curve < 4
    ensures var x := rule.Bent(value);
      rule.Distort(value, curves) - x
        == if rule.level >= 0.0001 then rule.level * (Distortion.Distort(1.0, x, curves[rule.curve]) - x) else 0.0
  {
    LevelBlends(rule.level, rule.Bent(value), curves[rule.curve]);
  }

  /** A rule over a monotone curve is monotone, or antitone when inverted. */
  lemma RuleDistortMonotone(rule: Rule, x: Ratio, y: Ratio, curves: Curves)
    requires rule.curve < 4 && Sorted(curves[rule.curve]) && x <= y
    ensures !rule.invert ==> rule.Distort(x, curves) <= rule.Distort(y, curves)
    ensures rule.invert ==> rule.Distort(y, curves) <= rule.Distort(x, curves)
  {
    var m := rule.midpoint;
    BentInRange(rule, x);
    BentInRange(rule, y);
    Product(y - x, m);
    Product(y - x, 1.0 - m);
    assert rule.Shifted(x) <= rule.Shifted(y);
    if rule.invert {
      DistortMonotone(rule.level, rule.Bent(y), rule.Bent(x), curves[rule.curve]);
    } else {
      DistortMonotone(rule.level, rule.Bent(x), rule.Bent(y), curves[rule.curve]);
    }
  }

  ghost predicate DefaultShaped(rule: Rule) {
    rule.curve < 4 && rule.level < 0.0001 && rule.midpoint == 0.5 && !rule.invert
  }

  lemma DefaultRulesAreDefaultShaped(ps: ParamTable, i: nat)
    requires i < RULES && forall id :: 0 <= id < PARAM_ID_COUNT ==> ps[id] == DefaultParam(id)
    ensures DefaultShaped(RuleAt(ps, i))
  {
    RuleParamSpec(i, DISTORTION_LEVEL);
    RuleParamSpec(i, MIDPOINT);
    RuleParamSpec(i, INVERT);
    assert ps[RuleParam(i, DISTORTION_LEVEL)].ratio == 0.0;
    assert ps[RuleParam(i, MIDPOINT)].ratio == 0.5;
    assert ps[RuleParam(i, INVERT)].value == 0;
  }

  /** A rule of the default shape forwards every controller value unchanged. */
  lemma DefaultShapeForwards(rule: Rule, byte: Byte, word: nat, curves: Curves)
    requires DefaultShaped(rule) && byte <= 127 && word < 16384
    ensures FloatToByte(rule.Distort(ByteToFloat(byte), curves)) == byte
    ensures FloatToWord(rule.Distort(WordToFloat(word), curves)) == word
  {
    ByteSurvivesFloat(byte);
    WordSurvivesFloat(word);
  }
}
