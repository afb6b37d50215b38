/** Where controller events go: the targets of a rule in plain words, and that no silent member channel hears any. */
module ProxyRouting {
  import opened Midi
  import opened Sequences
  import opened NoteStacks
  import opened Distortion
  import opened Params
  import opened ProxyModel
  import opened ProxyInvariant
  import opened Retargeting
  import opened ProxyRuns

  // ---- The targets of a rule ----

  /** Whether a target looks at notes on the side of `n`. */
  predicate Concerns(target: nat, n: Byte, anchor: Byte) {
    if target == TRG_ALL_BELOW_ANCHOR || TRG_LOWEST_BELOW_ANCHOR <= target <= TRG_NEWEST_BELOW_ANCHOR then n < anchor
    else if target == TRG_ALL_ABOVE_ANCHOR || TRG_LOWEST_ABOVE_ANCHOR <= target then n >= anchor
    else true
  }

  ghost predicate IsLatest(target: nat, notes: seq<Byte>, anchor: Byte, n: Byte) {
    exists i :: 0 <= i < |notes| && notes[i] == n && forall j :: 0 <= j < i ==> !Concerns(target, notes[j], anchor)
  }

  ghost predicate IsEarliest(target: nat, notes: seq<Byte>, anchor: Byte, n: Byte) {
    exists i :: 0 <= i < |notes| && notes[i] == n && forall j :: i < j < |notes| ==> !Concerns(target, notes[j], anchor)
  }

  /** `n` is a target among the active notes, of which the newest comes first. */
  ghost predicate IsTarget(target: nat, notes: seq<Byte>, anchor: Byte, n: Byte) {
    n in notes && Concerns(target, n, anchor)
    && (target in {TRG_LOWEST, TRG_LOWEST_BELOW_ANCHOR, TRG_LOWEST_ABOVE_ANCHOR} ==>
          forall m :: m in notes && Concerns(target, m, anchor) ==> n <= m)
    && (target in {TRG_HIGHEST, TRG_HIGHEST_BELOW_ANCHOR, TRG_HIGHEST_ABOVE_ANCHOR} ==>
          forall m :: m in notes && Concerns(target, m, anchor) ==> m <= n)
    && (target in {TRG_OLDEST, TRG_OLDEST_BELOW_ANCHOR, TRG_OLDEST_ABOVE_ANCHOR} ==>
          IsEarliest(target, notes, anchor, n))
    && (target in {TRG_NEWEST, TRG_NEWEST_BELOW_ANCHOR, TRG_NEWEST_ABOVE_ANCHOR} ==> IsLatest(target, notes, anchor, n))
  }

  lemma {:induction false} SideFirst(s: seq<Byte>, anchor: Byte, above: bool) returns (k: nat)
    requires Side(s, anchor, above) != []
    ensures k < |s| && s[k] == Side(s, anchor, above)[0]
    ensures forall j :: 0 <= j < k ==> !(s[j] >= anchor <==> above)
  {
    if s[0] >= anchor <==> above {
      k := 0;
    } else {
      k := SideFirst(s[1..], anchor, above);
      k := k + 1;
    }
  }

  lemma {:induction false} SideLast(s: seq<Byte>, anchor: Byte, above: bool) returns (k: nat)
    requires Side(s, anchor, above) != []
    ensures k < |s| && s[k] == Side(s, anchor, above)[|Side(s, anchor, above)| - 1]
    ensures forall j :: k < j < |s| ==> !(s[j] >= anchor <==> above)
  {
    var rest := Side(s[1..], anchor, above);
    if rest == [] {
      k := 0;
      forall j | 0 < j < |s|
        ensures !(s[j] >= anchor <==> above)
      {
        assert s[j] == s[1..][j - 1];
        assert s[j] !in rest;
      }
    } else {
      k := SideLast(s[1..], anchor, above);
      k := k + 1;
      assert forall j :: k < j < |s| ==> s[j] == s[1..][j - 1];
    }
  }

  /** The notes a target looks at, in the order of the stack. */
  function Group(target: nat, notes: seq<Byte>, anchor: Byte): seq<Byte> {
    if TRG_LOWEST <= target <= TRG_NEWEST then notes else Side(notes, anchor, TRG_LOWEST_ABOVE_ANCHOR <= target)
  }

  lemma GroupEnds(target: nat, notes: seq<Byte>, anchor: Byte) returns (first: nat, last: nat)
    requires TRG_LOWEST <= target <= TRG_NEWEST_ABOVE_ANCHOR && Group(target, notes, anchor) != []
    ensures var g := Group(target, notes, anchor); first < |notes| && notes[first] == g[0]
    ensures var g := Group(target, notes, anchor); last < |notes| && notes[last] == g[|g| - 1]
    ensures forall j :: 0 <= j < first ==> !Concerns(target, notes[j], anchor)
    ensures forall j :: last < j < |notes| ==> !Concerns(target, notes[j], anchor)
  {
    if target <= TRG_NEWEST {
      first, last := 0, |notes| - 1;
    } else {
      first := SideFirst(notes, anchor, TRG_LOWEST_ABOVE_ANCHOR <= target);
      last := SideLast(notes, anchor, TRG_LOWEST_ABOVE_ANCHOR <= target);
    }
  }

  lemma GroupMembers(target: nat, notes: seq<Byte>, anchor: Byte)
    requires TRG_LOWEST <= target <= TRG_NEWEST_ABOVE_ANCHOR
    ensures forall n :: n in Group(target, notes, anchor) <==> n in notes && Concerns(target, n, anchor)
  {
  }

  lemma LatestAndEarliest(target: nat, notes: seq<Byte>, anchor: Byte, n: Byte)
    requires TRG_LOWEST <= target <= TRG_NEWEST_ABOVE_ANCHOR && Group(target, notes, anchor) != []
    requires n in notes && Concerns(target, n, anchor)
    ensures IsLatest(target, notes, anchor, n) <==> n == Group(target, notes, anchor)[0]
    ensures IsEarliest(target, notes, anchor, n)
      <==> n == Group(target, notes, anchor)[|Group(target, notes, anchor)| - 1]
  {
    hide Side;
    GroupMembers(target, notes, anchor);
    var g := Group(target, notes, anchor);
    var first, last := GroupEnds(target, notes, anchor);
    assert g[0] in g && g[|g| - 1] in g;
    hide Concerns, Group;
  }

  /** The extreme targets: the one note that the model names is the one note that answers the description. */
  lemma TargetNoteIsTarget(target: nat, notes: seq<Byte>, anchor: Byte, n: Byte)
    requires TRG_LOWEST <= target <= TRG_NEWEST_ABOVE_ANCHOR
    ensures TargetNote(target, notes, anchor) == Some(n) <==> IsTarget(target, notes, anchor, n)
  {
    hide Side, Lowest, Highest, IsLatest, IsEarliest;
    GroupMembers(target, notes, anchor);
    var g := Group(target, notes, anchor);
    assert TargetNote(target, notes, anchor) == Extreme((target - TRG_LOWEST) % 4, g);
    assert g == [] ==> n !in g;
    if n in g {
      LatestAndEarliest(target, notes, anchor, n);
    }
    hide Concerns, Group, TargetNote;
    assert g != [] ==> g[0] in g && g[|g| - 1] in g;
  }

  ghost predicate ToManager(s: State, rule: Rule) {
    rule.target == TRG_GLOBAL || (s.voices.notes == [] && rule.fallback)
  }

  ghost predicate OfTarget(s: State, rule: Rule, channel: Byte) {
    exists n :: IsTarget(rule.target, s.voices.notes, s.zone.anchor, n) && ChannelOf(s.voices.channelOf, n) == channel
  }

  /** A rule's events go to the manager channel, or once to the channel of each target note. */
  lemma TargetsAreTargets(s: State, rule: Rule)
    requires Sane(s) && rule.target <= TRG_NEWEST_ABOVE_ANCHOR
    ensures ToManager(s, rule) ==> TargetChannels(s, rule) == [s.zone.manager]
    ensures !ToManager(s, rule) ==> forall c :: c in TargetChannels(s, rule) <==> OfTarget(s, rule, c)
    ensures Distinct(TargetChannels(s, rule))
  {
    hide WithinSpecs, Conserved, TargetNote, IsLatest, IsEarliest;
    var v, anchor := s.voices, s.zone.anchor;
    if ToManager(s, rule) {
    } else if rule.target == TRG_ALL_BELOW_ANCHOR || rule.target == TRG_ALL_ABOVE_ANCHOR {
      var above := rule.target == TRG_ALL_ABOVE_ANCHOR;
      GroupChannels(s, above);
      forall n: Byte
        ensures IsTarget(rule.target, v.notes, anchor, n) <==> n in Side(v.notes, anchor, above)
      {
      }
    } else {
      forall n: Byte
        ensures TargetNote(rule.target, v.notes, anchor) == Some(n) <==> IsTarget(rule.target, v.notes, anchor, n)
      {
        TargetNoteIsTarget(rule.target, v.notes, anchor, n);
      }
      hide IsTarget;
    }
  }

  lemma GroupChannels(s: State, above: bool)
    requires Sane(s)
    ensures var side := Side(s.voices.notes, s.zone.anchor, above); var cs := ChannelsOf(side, s.voices.channelOf);
      Distinct(cs) && forall c :: c in cs <==> exists n :: n in side && ChannelOf(s.voices.channelOf, n) == c
  {
    hide Conserved, WithinSpecs, Side;
    var side := Side(s.voices.notes, s.zone.anchor, above);
    SideDistinct(s.voices.notes, s.zone.anchor, above);
    ConservedInjective(s.voices, s.zone);
    var cs := ChannelsOf(side, s.voices.channelOf);
    assert forall n :: n in side ==> n in s.voices.notes;
    forall i, j | 0 <= i < j < |cs|
      ensures cs[i] != cs[j]
    {
      assert side[i] in side && side[j] in side;
    }
    forall n | n in side
      ensures ChannelOf(s.voices.channelOf, n) in cs
    {
      var i :| 0 <= i < |side| && side[i] == n;
      assert cs[i] in cs;
    }
  }

  predicate Sends(cc: nat) {
    cc <= PRESSURE
  }

  /** The one event that carries a controller value to a channel. */
  function ControlEvent(t: real, channel: Byte, cc: nat, value: real): Event
    requires Sends(cc)
  {
    if cc == PITCH_WHEEL then
      Event(t, PITCH_BEND_CHANGE, channel, FloatToWord(value) % 128, FloatToWord(value) / 128, value, false)
    else if cc == PRESSURE then Event(t, CHANNEL_PRESSURE, channel, FloatToByte(value), 0, value, false)
    else Event(t, CONTROL_CHANGE, channel, cc, FloatToByte(value), value, false)
  }

  /** `sent` is one event per channel, in order, or nothing at all when the identifier stands for no controller. */
  ghost predicate SentOnce(sent: seq<Event>, t: real, channels: seq<Byte>, cc: nat, value: real) {
    if Sends(cc) then
      |sent| == |channels| && forall i :: 0 <= i < |sent| ==> sent[i] == ControlEvent(t, channels[i], cc, value)
    else sent == []
  }

  lemma {:induction false} FanOutOncePerChannel(t: real, channels: seq<Byte>, cc: nat, value: real)
    requires forall c :: c in channels ==> c <= CHANNEL_MAX
    ensures SentOnce(FanOut(t, channels, cc, value), t, channels, cc, value)
    decreases |channels|
  {
    hide ControlEvents, SentOnce;
    if channels == [] {
      NothingSent(t, cc, value);
    } else {
      var most, last := channels[..|channels| - 1], channels[|channels| - 1];
      assert last in channels && forall c :: c in most ==> c in channels;
      FanOutOncePerChannel(t, most, cc, value);
      OneMoreSent(FanOut(t, most, cc, value), t, most, last, cc, value);
      assert most + [last] == channels;
    }
  }

  lemma NothingSent(t: real, cc: nat, value: real)
    ensures SentOnce([], t, [], cc, value)
  {
    hide ControlEvent;
  }

  lemma OneMoreSent(sent: seq<Event>, t: real, channels: seq<Byte>, last: Byte, cc: nat, value: real)
    requires SentOnce(sent, t, channels, cc, value) && last <= CHANNEL_MAX
    ensures SentOnce(sent + ControlEvents(t, last, cc, value, false), t, channels + [last], cc, value)
  {
    hide ControlEvents, ControlEvent;
    OneControlEvent(t, last, cc, value);
  }

  lemma OneControlEvent(t: real, channel: Byte, cc: nat, value: real)
    requires channel <= CHANNEL_MAX
    ensures ControlEvents(t, channel, cc, value, false)
         == if Sends(cc) then [ControlEvent(t, channel, cc, value)] else []
  {
    hide FloatToWord, FloatToByte;
  }

  lemma TargetsAreReal(s: State, rule: Rule)
    requires Sane(s) && rule.target <= TRG_NEWEST_ABOVE_ANCHOR
    ensures forall c :: c in TargetChannels(s, rule) ==> c <= CHANNEL_MAX
    ensures forall c :: c in TargetChannels(s, rule) ==> c in Open(s)
  {
    hide WithinSpecs, Conserved, TargetChannels, IsLatest, IsEarliest;
    TargetsAreTargets(s, rule);
    ConservedInjective(s.voices, s.zone);
  }

  /** A matched rule sends exactly one event to each of its target channels, in the order of the targets. */
  lemma RuleSendsOncePerTarget(s: State, t: real, cc: nat, value: Ratio, i: nat)
    requires Sane(s) && i < RULES && Listens(RuleAt(s.params, i), cc)
    ensures var rule := RuleAt(s.params, i);
      var sent, targets, out := RuleEvents(s, t, cc, value, i), TargetChannels(s, rule), rule.Distort(value, s.curves);
      if Sends(rule.outCc) then
        |sent| == |targets| && forall k :: 0 <= k < |sent| ==> sent[k] == ControlEvent(t, targets[k], rule.outCc, out)
      else sent == []
  {
    hide WithinSpecs, Sane, TargetChannels, FanOut, RuleAt, Rule.Distort, ControlEvent;
    var rule := RuleAt(s.params, i);
    TargetsAreReal(s, rule);
    FanOutOncePerChannel(t, TargetChannels(s, rule), rule.outCc, rule.Distort(value, s.curves));
  }

  /** An event that no rule listens to goes to the manager channel once, unchanged. */
  lemma UnmatchedGoesToManager(s: State, t: real, cc: nat, value: Ratio)
    requires Sane(s) && HasNotes(s) && Sends(cc) && forall i :: 0 <= i < RULES ==> !Listens(RuleAt(s.params, i), cc)
    ensures var sent := Control(s, t, cc, value).events;
      && sent != [] && sent[0] == ControlEvent(t, s.zone.manager, cc, value)
      && (!(s.HandlesPedal() && cc == SUSTAIN_PEDAL && value < 0.5) ==> sent[1..] == [])
  {
    hide WithinSpecs, Conserved, RoutedEvents, Learned, NotedInputs, RuleAt, FloatToWord, FloatToByte;
  }

  /**
   The comparison behind the resets: exactly one event goes to the note that is the target among `ours` but
   not among `theirs`, and none when there is no such note.
   */
  lemma RetargetSendsOnce(rule: Rule, t: real, ours: seq<Byte>, theirs: seq<Byte>, table: NoteTable, anchor: Byte,
                          value: real, n: Byte)
    requires TRG_LOWEST <= rule.target <= TRG_NEWEST_ABOVE_ANCHOR && Sends(rule.outCc)
    requires ChannelOf(table, n) <= CHANNEL_MAX
    ensures var sent := RetargetEvents(rule, t, ours, theirs, table, anchor, value);
      && (IsTarget(rule.target, ours, anchor, n) && !IsTarget(rule.target, theirs, anchor, n) ==>
            sent == [ControlEvent(t, ChannelOf(table, n), rule.outCc, value)])
      && (IsTarget(rule.target, ours, anchor, n) && IsTarget(rule.target, theirs, anchor, n) ==> sent == [])
      && ((forall m: Byte :: !IsTarget(rule.target, ours, anchor, m)) ==> sent == [])
  {
    hide IsTarget, TargetNote, ControlEvents, ControlEvent, ChannelOf;
    TargetNoteIsTarget(rule.target, ours, anchor, n);
    TargetNoteIsTarget(rule.target, theirs, anchor, n);
    OneControlEvent(t, ChannelOf(table, n), rule.outCc, value);
    var mine := TargetNote(rule.target, ours, anchor);
    if mine.Some? {
      TargetNoteIsTarget(rule.target, ours, anchor, mine.value);
    }
  }

  /** A rule that is waiting to learn takes the controller over; nothing else about any rule changes. */
  lemma {:induction false} LearnedMeans(ps: ParamTable, cc: nat, n: nat, i: nat)
    requires i < RULES && n <= RULES && cc <= NONE
    ensures RuleAt(Learned(ps, cc, n), i)
      == if i < n && RuleAt(ps, i).inCc == MIDI_LEARN then RuleAt(ps, i).(inCc := cc) else RuleAt(ps, i)
  {
    hide RuleAt, WithinSpecs, SetValue;
    if n > 0 {
      LearnedMeans(ps, cc, n - 1, i);
      if RuleAt(ps, n - 1).inCc == MIDI_LEARN {
        LearnedByRule(Learned(ps, cc, n - 1), cc, n - 1, i);
      }
    }
  }

  lemma LearnedByRule(ps: ParamTable, cc: nat, j: nat, i: nat)
    requires j < RULES && i < RULES && cc <= NONE
    ensures RuleAt(SetValue(ps, RuleParam(j, IN_CC), cc), i)
         == if i == j then RuleAt(ps, i).(inCc := cc) else RuleAt(ps, i)
  {
    hide WithinSpecs;
    RuleParamSpec(j, IN_CC);
    assert i < j ==> RuleParam(i, INVERT) < RuleParam(j, IN_CC);
    assert j < i ==> RuleParam(j, IN_CC) < RuleParam(i, IN_CC);
  }

  /** Exactly the rules that listen remember the value, and afterwards all of them listen to this controller. */
  lemma NotedMeans(s: State, cc: nat, value: Ratio, i: nat)
    requires i < RULES && cc <= NONE
    ensures var noted := Noted(s, cc, value, RULES);
      && noted.lastInput[i] == (if Listens(RuleAt(s.params, i), cc) then value else s.lastInput[i])
      && (Listens(RuleAt(s.params, i), cc) && cc != MIDI_LEARN ==> RuleAt(noted.params, i).inCc == cc)
  {
    hide RuleAt, WithinSpecs, Learned, NotedInputs;
    LearnedMeans(s.params, cc, RULES, i);
    InputsMean(s, cc, value, RULES, i);
  }

  lemma {:induction false} InputsMean(s: State, cc: nat, value: Ratio, n: nat, i: nat)
    requires i < RULES && n <= RULES
    ensures NotedInputs(s, cc, value, n)[i]
         == if i < n && Listens(RuleAt(s.params, i), cc) then value else s.lastInput[i]
  {
    hide RuleAt, WithinSpecs, Listens;
    if n > 0 {
      InputsMean(s, cc, value, n - 1, i);
    }
  }

  // ---- Which channels hear controller events ----

  predicate IsNote(e: Event) {
    e.command == NOTE_ON || e.command == NOTE_OFF
  }

  /** The channel of the first note-on of `events`. */
  function NextStart(events: seq<Event>): Option<Byte> {
    if events == [] then None
    else if events[0].command == NOTE_ON then Some(events[0].channel)
    else NextStart(events[1..])
  }

  /**
   Every controller event goes to the manager channel, to a channel that sounds when it is sent, or, marked as
   set-up, to the channel that the next note-on of the same call starts.
   */
  predicate Heard(held: Held, events: seq<Event>, manager: Byte)
    decreases |events|
  {
    events == []
    || ((IsNote(events[0]) || events[0].channel == manager || events[0].channel in held
         || (events[0].preNoteOnSetup && NextStart(events[1..]) == Some(events[0].channel)))
        && Heard(After(held, events[0]), events[1..], manager))
  }

  /** No note events, and nothing to a channel outside `channels` except set-up for `next`. */
  ghost predicate Within(events: seq<Event>, channels: set<Byte>, next: Option<Byte>) {
    forall e :: e in events ==> !IsNote(e) && (e.channel in channels || (e.preNoteOnSetup && next == Some(e.channel)))
  }

  ghost predicate Covers(held: Held, manager: Byte, channels: set<Byte>) {
    forall c :: c in channels ==> c == manager || c in held
  }

  lemma {:induction false} NextStartAfter(a: seq<Event>, b: seq<Event>)
    requires forall e :: e in a ==> !IsNote(e)
    ensures NextStart(a + b) == NextStart(b)
  {
    if a == [] {
      assert a + b == b;
    } else {
      assert (a + b)[1..] == a[1..] + b && a[0] in a;
      NextStartAfter(a[1..], b);
    }
  }

  lemma {:induction false} HeardWithin(held: Held, a: seq<Event>, b: seq<Event>, manager: Byte, channels: set<Byte>)
    requires Within(a, channels, NextStart(b)) && Covers(held, manager, channels) && Heard(held, b, manager)
    ensures Heard(held, a + b, manager)
    decreases |a|
  {
    if a == [] {
      assert a + b == b;
    } else {
      assert (a + b)[1..] == a[1..] + b && a[0] in a;
      NextStartAfter(a[1..], b);
      HeardWithin(held, a[1..], b, manager, channels);
    }
  }

  lemma {:induction false} NextStartKept(a: seq<Event>, b: seq<Event>)
    ensures NextStart(a).Some? ==> NextStart(a + b) == NextStart(a)
  {
    if a != [] {
      assert (a + b)[1..] == a[1..] + b;
      NextStartKept(a[1..], b);
    }
  }

  lemma {:induction false} HeardConcat(held: Held, a: seq<Event>, b: seq<Event>, manager: Byte)
    requires Heard(held, a, manager) && Heard(AfterAll(held, a), b, manager)
    ensures Heard(held, a + b, manager)
    decreases |a|
  {
    if a == [] {
      assert a + b == b;
    } else {
      assert (a + b)[1..] == a[1..] + b;
      HeardConcat(After(held, a[0]), a[1..], b, manager);
      NextStartKept(a[1..], b);
    }
  }

  lemma ControlEventsWithin(t: real, channel: Byte, cc: nat, value: real, setup: bool, channels: set<Byte>,
                            next: Option<Byte>)
    requires channel in channels || (setup && next == Some(channel))
    ensures Within(ControlEvents(t, channel, cc, value, setup), channels, next)
  {
    hide FloatToWord, FloatToByte;
  }

  /** The channels that may hear anything: the manager's and those of active notes. */
  function Open(s: State): set<Byte> {
    {s.zone.manager} + set n | n in s.voices.notes :: ChannelOf(s.voices.channelOf, n)
  }

  lemma TracksCovers(held: Held, s: State)
    requires Tracks(held, s.voices, s.zone)
    ensures Covers(held, s.zone.manager, Open(s))
  {
    hide Zone.Transpose, WithinSpecs;
  }

  lemma RetargetWithin(rule: Rule, t: real, ours: seq<Byte>, theirs: seq<Byte>, table: NoteTable, anchor: Byte,
                       value: real,
                       channels: set<Byte>, next: Option<Byte>)
    requires forall n :: n in ours ==> ChannelOf(table, n) in channels
    ensures Within(RetargetEvents(rule, t, ours, theirs, table, anchor, value), channels, next)
  {
    hide ControlEvents, Extreme, Side;
    var mine := TargetNote(rule.target, ours, anchor);
    if mine.Some? {
      ControlEventsWithin(t, ChannelOf(table, mine.value), rule.outCc, value, false, channels, next);
    }
  }

  lemma NewNoteResetWithin(s: State, t: real, i: nat, setup: bool, channels: set<Byte>, next: Option<Byte>)
    requires s.voices.notes != [] && i < RULES && s.zone.manager in channels
    requires forall n :: n in s.voices.notes[1..] ==> ChannelOf(s.voices.channelOf, n) in channels
    requires var c := ChannelOf(s.voices.channelOf, s.voices.notes[0]); c in channels || (setup && next == Some(c))
    ensures Within(NewNoteReset(s, t, i, setup), channels, next)
  {
    hide RuleAt, ControlEvents, Rule.Distort, WithinSpecs, RetargetEvents;
    var rule, note := RuleAt(s.params, i), s.voices.notes[0];
    var v := rule.ResetValue(s.lastInput[i], s.curves);
    RetargetWithin(rule, t, s.voices.notes[1..], s.voices.notes, s.voices.channelOf, s.zone.anchor, v, channels, next);
    ControlEventsWithin(t, s.zone.manager, rule.outCc, v, setup, channels, next);
    ControlEventsWithin(t, ChannelOf(s.voices.channelOf, note), rule.outCc, v, setup, channels, next);
  }

  lemma {:induction false} NewNoteResetsWithin(s: State, t: real, n: nat, setup: bool, channels: set<Byte>,
                                               next: Option<Byte>)
    requires s.voices.notes != [] && n <= RULES && s.zone.manager in channels
    requires forall n :: n in s.voices.notes[1..] ==> ChannelOf(s.voices.channelOf, n) in channels
    requires var c := ChannelOf(s.voices.channelOf, s.voices.notes[0]); c in channels || (setup && next == Some(c))
    ensures Within(NewNoteResets(s, t, n, setup), channels, next)
  {
    hide NewNoteReset;
    if n > 0 {
      NewNoteResetsWithin(s, t, n - 1, setup, channels, next);
      NewNoteResetWithin(s, t, n - 1, setup, channels, next);
    }
  }

  lemma {:induction false} NoteOffResetsWithin(s: State, before: seq<Byte>, t: real, wasAbove: bool, n: nat)
    requires n <= RULES
    ensures Within(NoteOffResets(s, before, t, wasAbove, n), Open(s), None)
  {
    hide RuleAt, RetargetEvents, Rule.Distort, WithinSpecs;
    if n > 0 {
      NoteOffResetsWithin(s, before, t, wasAbove, n - 1);
      var rule := RuleAt(s.params, n - 1);
      RetargetWithin(rule, t, s.voices.notes, before, s.voices.channelOf, s.zone.anchor,
                     rule.ResetValue(s.lastInput[n - 1], s.curves), Open(s), None);
    }
  }

  lemma {:induction false} FanOutWithin(t: real, targets: seq<Byte>, cc: nat, value: real, channels: set<Byte>)
    requires forall c :: c in targets ==> c in channels
    ensures Within(FanOut(t, targets, cc, value), channels, None)
    decreases |targets|
  {
    hide ControlEvents;
    if targets != [] {
      assert targets[|targets| - 1] in targets && forall c :: c in targets[..|targets| - 1] ==> c in targets;
      FanOutWithin(t, targets[..|targets| - 1], cc, value, channels);
      ControlEventsWithin(t, targets[|targets| - 1], cc, value, false, channels, None);
    }
  }

  lemma {:induction false} RoutedEventsWithin(s: State, t: real, cc: nat, value: Ratio, n: nat)
    requires Sane(s) && n <= RULES
    ensures Within(RoutedEvents(s, t, cc, value, n), Open(s), None)
  {
    hide RuleAt, TargetChannels, Rule.Distort, WithinSpecs, FanOut, Sane;
    if n > 0 {
      RoutedEventsWithin(s, t, cc, value, n - 1);
      var rule := RuleAt(s.params, n - 1);
      TargetsAreReal(s, rule);
      FanOutWithin(t, TargetChannels(s, rule), rule.outCc, rule.Distort(value, s.curves), Open(s));
    }
  }

  lemma StartNoteHeard(s: State, t: real, channel: Byte, note: Byte, velocity: Byte, held: Held)
    requires note <= NOTE_MAX && channel <= CHANNEL_MAX && note !in s.voices.notes && Tracks(held, s.voices, s.zone)
    ensures Heard(held, StartNote(s, t, channel, note, velocity).events, s.zone.manager)
  {
    hide NewNoteResets, Zone.Transpose, WithinSpecs, Tracks, Heard, Within;
    TracksCovers(held, s);
    var started := s.(voices := s.voices.Started(channel, note, velocity));
    assert started.voices.notes[1..] == s.voices.notes;
    var before, after := NewNoteResets(started, t, RULES, true), NewNoteResets(started, t, RULES, false);
    var on := NoteEvent(t, NOTE_ON, channel, s.zone.Transpose(note), velocity);
    NewNoteResetsWithin(started, t, RULES, true, Open(s), Some(channel));
    NewNoteResetsWithin(started, t, RULES, false, Open(s) + {channel}, None);
    QuietlyHeard(After(held, on), after, s.zone.manager, Open(s) + {channel});
    NoteHeard(held, on, after, s.zone.manager);
    HeardWithin(held, before, [on] + after, s.zone.manager, Open(s));
    assert before + [on] + after == before + ([on] + after);
  }

  /** Events without notes. */
  lemma QuietlyHeard(held: Held, events: seq<Event>, manager: Byte, channels: set<Byte>)
    requires Within(events, channels, None) && Covers(held, manager, channels)
    ensures Heard(held, events, manager)
  {
    HeardWithin(held, events, [], manager, channels);
    assert events + [] == events;
  }

  lemma NoteHeard(held: Held, e: Event, rest: seq<Event>, manager: Byte)
    requires IsNote(e) && Heard(After(held, e), rest, manager)
    ensures Heard(held, [e] + rest, manager) && (e.command == NOTE_ON ==> NextStart([e] + rest) == Some(e.channel))
  {
    assert ([e] + rest)[1..] == rest;
  }

  lemma StopNoteHeard(s: State, t: real, note: Byte, velocity: Byte, held: Held)
    requires Playing(s.voices) && note in s.voices.notes && note <= NOTE_MAX && Tracks(held, s.voices, s.zone)
    ensures Heard(held, StopNote(s, t, note, velocity).events, s.zone.manager)
  {
    hide NoteOffResets, Zone.Transpose, WithinSpecs, Tracks, Heard, Within, Covers, Open;
    var stopped := s.(voices := s.voices.Stopped(note));
    var resets := NoteOffResets(stopped, s.voices.notes, t, note >= s.zone.anchor, RULES);
    var v := if s.OverridesRelease() then s.voices.velocityOf[note] else velocity;
    var off := NoteEvent(t, NOTE_OFF, s.voices.channelOf[note], s.zone.Transpose(note), v);
    TracksStopped(held, s.voices, s.zone, note);
    TracksCovers(held - {s.voices.channelOf[note]}, stopped);
    NoteOffResetsWithin(stopped, s.voices.notes, t, note >= s.zone.anchor, RULES);
    QuietlyHeard(After(held, off), resets, s.zone.manager, Open(stopped));
    NoteHeard(held, off, resets, s.zone.manager);
  }

  lemma ReplaceHeard(s: State, t: real, victim: Byte, note: Byte, velocity: Byte, held: Held)
    requires Sane(s) && victim in s.voices.notes && victim <= NOTE_MAX && note <= NOTE_MAX
    requires (note == victim || note !in s.voices.notes) && Tracks(held, s.voices, s.zone)
    ensures Heard(held, Replace(s, t, victim, note, velocity).events, s.zone.manager)
  {
    hide StartNote, StopNote, Tracks, Paired, AfterAll, InHand, NotesValid, Conserved, Playing, WithinSpecs, Heard;
    SaneMeans(s);
    SanePlaying(s);
    StopFacts(s, t, victim, 64);
    StopNotePaired(s, t, victim, 64, held);
    StopNoteHeard(s, t, victim, 64, held);
    var stop := StopNote(s, t, victim, 64);
    var channel := s.voices.channelOf[victim];
    SoundingElsewhere(stop.state.voices, s.zone, channel);
    StartNoteHeard(stop.state, t, channel, note, velocity, AfterAll(held, stop.events));
    HeardConcat(held, stop.events, StartNote(stop.state, t, channel, note, velocity).events, s.zone.manager);
  }

  lemma NoteOnHeard(s: State, t: real, note: Byte, velocity: Byte, held: Held)
    requires Inv(s) && HasNotes(s) && note <= NOTE_MAX && Tracks(held, s.voices, s.zone)
    ensures Heard(held, NoteOn(s, t, note, velocity).events, s.zone.manager)
  {
    hide StartNote, Replace, Tracks, Sane, WithinSpecs, Extreme;
    InvMeans(s);
    if s.suspended {
    } else if note in s.voices.notes {
      ReplaceHeard(s, t, note, note, velocity, held);
    } else if s.voices.free == [] {
      if Victim(s).Some? {
        ReplaceHeard(s, t, Victim(s).value, note, velocity, held);
      }
    } else {
      TakenHeard(s, t, note, velocity, held);
    }
  }

  lemma TakenHeard(s: State, t: real, note: Byte, velocity: Byte, held: Held)
    requires Sane(s) && s.voices.free != [] && note <= NOTE_MAX && note !in s.voices.notes
    requires Tracks(held, s.voices, s.zone)
    ensures var taken := s.(voices := s.voices.(free := s.voices.free[1..]));
      Heard(held, StartNote(taken, t, s.voices.free[0], note, velocity).events, s.zone.manager)
  {
    hide StartNote, InHand, WithinSpecs;
    TakeFreeFacts(s);
    var taken := s.(voices := s.voices.(free := s.voices.free[1..]));
    SoundingElsewhere(taken.voices, s.zone, s.voices.free[0]);
    StartNoteHeard(taken, t, s.voices.free[0], note, velocity, held);
  }

  lemma NoteOffHeard(s: State, t: real, note: Byte, velocity: Byte, held: Held)
    requires Inv(s) && note <= NOTE_MAX && Tracks(held, s.voices, s.zone)
    ensures Heard(held, NoteOff(s, t, note, velocity).events, s.zone.manager)
  {
    hide StopNote, Sane, WithinSpecs, Playing, Tracks;
    InvMeans(s);
    SanePlaying(s);
    if !s.suspended && note in s.voices.notes {
      StopNoteHeard(s, t, note, velocity, held);
    }
  }

  lemma {:induction false} ReleaseDeferredHeard(s: State, t: real, held: Held)
    requires Sane(s) && HasNotes(s) && Tracks(held, s.voices, s.zone)
    ensures Heard(held, ReleaseDeferred(s, t).events, s.zone.manager)
    decreases |s.voices.deferred|
  {
    hide StopNote, Tracks, WithinSpecs, Conserved, Paired, AfterAll, NotesValid;
    if s.voices.deferred != [] {
      var note := s.voices.deferred[0];
      SaneMeans(s);
      assert note in s.voices.deferred;
      var velocity := s.voices.releaseVelocityOf[note];
      PoppedRelease(s, t, velocity);
      var popped := PopDeferred(s);
      var step := ReleaseNote(popped, t, note, velocity);
      TracksElsewhere(held, s.voices, popped.voices, s.zone);
      SanePlaying(popped);
      StopNoteHeard(popped, t, note, velocity, held);
      ReleaseFollows(popped, t, note, velocity, held);
      ReleaseKeepsRest(popped, t, note, velocity);
      SaneHasNotes(step.state);
      ReleaseDeferredHeard(step.state, t, AfterAll(held, step.events));
      HeardConcat(held, step.events, ReleaseDeferred(step.state, t).events, s.zone.manager);
    }
  }

  lemma ControllerHeard(s: State, t: real, cc: nat, raw: int, value: Ratio, held: Held)
    requires Inv(s) && HasNotes(s) && Tracks(held, s.voices, s.zone)
    ensures Heard(held, ControlMessage(s, t, cc, raw, value).events, s.zone.manager)
  {
    hide Tracks, WithinSpecs, Sane, ReleaseDeferred, RoutedEvents, ControlEvents, Listens, RuleAt, Learned;
    hide NotedInputs, Heard, Within;
    InvMeans(s);
    QuietlyHeard(held, [], s.zone.manager, {});
    var seen := s.(seen := s.seen[cc := (t, raw)]);
    TracksCovers(held, s);
    SaneElsewhere(s, seen);
    RoutedEventsWithin(seen, t, cc, value, RULES);
    ControlEventsWithin(t, s.zone.manager, cc, value, false, Open(s), None);
    var events := if exists i :: 0 <= i < RULES && Listens(RuleAt(seen.params, i), cc)
      then RoutedEvents(seen, t, cc, value, RULES) else ControlEvents(t, seen.zone.manager, cc, value, false);
    QuietlyHeard(held, events, s.zone.manager, Open(s));
    WithinNoNotes(events, Open(s), None);
    NoNotesPaired(held, events, false);
    var noted := Noted(seen, cc, value, RULES).(pedalDown := value >= 0.5);
    SaneElsewhere(s, noted);
    ReleaseDeferredHeard(noted, t, held);
    HeardConcat(held, events, ReleaseDeferred(noted, t).events, s.zone.manager);
  }

  lemma WithinNoNotes(events: seq<Event>, channels: set<Byte>, next: Option<Byte>)
    requires Within(events, channels, next)
    ensures NoNotes(events)
  {
  }

  lemma {:induction false} StopEachHeard(s: State, held: Held)
    requires Playing(s.voices) && HasNotes(s) && Tracks(held, s.voices, s.zone)
    ensures Heard(held, StopEach(s).events, s.zone.manager)
    decreases |s.voices.notes|
  {
    hide Tracks, WithinSpecs, StopNote, ControlEvents, Paired, AfterAll, Injective, Heard, Within;
    if s.voices.notes == [] {
      QuietlyHeard(held, [], s.zone.manager, {});
    } else {
      var note := s.voices.notes[0];
      StopEachStep(s);
      PlayingStopped(s.voices, note);
      var stop := StopNote(s, 0.0, note, 64);
      var pedal := ControlEvents(0.0, s.voices.channelOf[note], SUSTAIN_PEDAL, 0.0, false);
      TracksCovers(held, s);
      ControlEventsWithin(0.0, ChannelOf(s.voices.channelOf, note), SUSTAIN_PEDAL, 0.0, false, Open(s), None);
      QuietlyHeard(held, pedal, s.zone.manager, Open(s));
      WithinNoNotes(pedal, Open(s), None);
      NoNotesPaired(held, pedal, false);
      StopNotePaired(s, 0.0, note, 64, held);
      StopNoteHeard(s, 0.0, note, 64, held);
      HeardConcat(held, pedal, stop.events, s.zone.manager);
      PairedConcat(held, pedal, stop.events, false);
      StopEachHeard(stop.state, AfterAll(held, stop.events));
      HeardConcat(held, pedal + stop.events, StopEach(stop.state).events, s.zone.manager);
    }
  }

  /** Nor does stopping all notes. */
  lemma StopAllIsHeard(s: State, held: Held)
    requires Inv(s) && HasNotes(s) && Tracks(held, s.voices, s.zone)
    ensures Heard(held, StopAll(s).events, s.zone.manager)
  {
    hide Tracks, WithinSpecs, Sane, Playing, StopEach, ControlEvents, Heard;
    InvMeans(s);
    SanePlaying(s);
    StopEachHeard(s, held);
    var pedal := if s.voices.notes == [] then [] else ControlEvents(0.0, s.zone.manager, SUSTAIN_PEDAL, 0.0, false);
    ControlEventsWithin(0.0, s.zone.manager, SUSTAIN_PEDAL, 0.0, false, {s.zone.manager}, None);
    WithinNoNotes(pedal, {s.zone.manager}, None);
    NoNotesPaired(held, pedal, false);
    QuietlyHeard(held, pedal, s.zone.manager, {s.zone.manager});
    HeardConcat(held, pedal, StopEach(s).events, s.zone.manager);
  }

  /** What a call sends in the zone it finds; a restart stops all notes there. */
  ghost function InOldZone(s: State, call: Call): seq<Event>
    requires HasNotes(s) && call.Valid()
  {
    if Restarts(s, call) then StopAll(s.(suspended := false)).events else Apply(s, call).events
  }

  /** What a restart then sends in the zone it enters: configuration messages and the resets of global rules. */
  ghost function InNewZone(s: State, call: Call): seq<Event>
    requires HasNotes(s) && call.Valid()
  {
    if Restarts(s, call)
    then Mcms(s.params, ConfiguredZone(s.params))
         + GlobalResets(s.params, ConfiguredZone(s.params).manager, s.curves, RULES)
    else []
  }

  lemma OldThenNewZone(s: State, call: Call)
    requires Inv(s) && call.Valid() && HasNotes(s)
    ensures Apply(s, call).events == InOldZone(s, call) + InNewZone(s, call)
  {
    hide WithinSpecs, ConfiguredZone, StopAll, NoteOn, NoteOff, ControlMessage, Mcms, GlobalResets, Inv, SetRatio;
    if !Restarts(s, call) {
      assert Apply(s, call).events + [] == Apply(s, call).events;
    } else if call.Block? {
      assert s.(suspended := false) == s;
    }
  }

  /**
   No controller event goes to a silent member channel, except as set-up for a note that the call starts. In the
   zone that a restart enters, nothing sounds yet.
   */
  ghost predicate Spares(held: Held, s: State, call: Call)
    requires HasNotes(s) && call.Valid()
  {
    Heard(held, InOldZone(s, call), s.zone.manager)
    && forall e :: e in InNewZone(s, call) ==> e.channel !in ConfiguredZone(s.params).Members()
  }

  /** The other zone's manager channel, which configuration messages go to as well, is no member channel. */
  ghost predicate AnnouncesSafely(s: State, call: Call) {
    Restarts(s, call) ==> s.params[MCM].value != 1 || ConfiguredZone(s.params).count < 15
  }

  lemma {:induction false} GlobalResetsToManager(ps: ParamTable, manager: Byte, curves: Curves, n: nat)
    requires n <= RULES
    ensures forall e :: e in GlobalResets(ps, manager, curves, n) ==> e.channel == manager
  {
    hide RuleAt, ControlEvents, Rule.Distort, WithinSpecs;
    if n > 0 {
      GlobalResetsToManager(ps, manager, curves, n - 1);
      forall cc, value
        ensures forall e :: e in ControlEvents(0.0, manager, cc, value, false) ==> e.channel == manager
      {
        ControlEventsWithin(0.0, manager, cc, value, false, {manager}, None);
      }
    }
  }

  lemma McmsToManagers(ps: ParamTable, zone: Zone)
    requires zone.Valid()
    ensures forall e :: e in Mcms(ps, zone) ==> e.channel == zone.manager || e.channel == 15 - zone.manager
    ensures ps[MCM].value == 1 ==> exists e :: e in Mcms(ps, zone) && e.channel == 15 - zone.manager
  {
    hide WithinSpecs;
    if ps[MCM].value == 1 {
      var other := Event(0.0, CONTROL_CHANGE, 15 - zone.manager, RPN_MSB, 0, 0.0, false);
      assert other in Mcm(15 - zone.manager, 0);
    }
  }

  lemma ManagersAndMembers(zone: Zone)
    requires zone.Valid()
    ensures zone.manager !in zone.Members() && (15 - zone.manager in zone.Members() <==> zone.count == 15)
  {
    assert zone.count == 15 ==> zone.Members()[14] == 15 - zone.manager;
  }

  lemma NewZoneIsSpared(s: State, call: Call)
    requires HasNotes(s) && call.Valid()
    ensures (forall e :: e in InNewZone(s, call) ==> e.channel !in ConfiguredZone(s.params).Members())
      <==> AnnouncesSafely(s, call)
  {
    hide WithinSpecs, ConfiguredZone, Zone.Members, Mcms, GlobalResets;
    ConfiguredZoneValid(s.params);
    var zone := ConfiguredZone(s.params);
    McmsToManagers(s.params, zone);
    GlobalResetsToManager(s.params, zone.manager, s.curves, RULES);
    ManagersAndMembers(zone);
    assert Mcms(s.params, zone) == [] || s.params[MCM].value == 1 by {
      NoMcms(s.params, zone);
    }
  }

  lemma NoMcms(ps: ParamTable, zone: Zone)
    requires zone.Valid()
    ensures Mcms(ps, zone) == [] || ps[MCM].value == 1
  {
  }

  /**
   Every call spares the silent member channels, with one exception: a restart that sends configuration messages
   while all fifteen channels are members.
   */
  lemma CallsAreHeard(s: State, call: Call, held: Held)
    requires Inv(s) && HasNotes(s) && call.Valid() && Tracks(held, s.voices, s.zone)
    ensures Spares(held, s, call) <==> AnnouncesSafely(s, call)
  {
    hide Sane, WithinSpecs, NoteOn, NoteOff, ControlMessage, ConfiguredZone, SetRatio, Restart, Tracks, StopAll, Heard;
    hide InNewZone, AnnouncesSafely;
    NewZoneIsSpared(s, call);
    QuietlyHeard(held, [], s.zone.manager, {});
    SaneElsewhere(s, s.(suspended := false));
    match call {
      case PlayNote(t, note, velocity) => NoteOnHeard(s, t, note, velocity, held);
      case ReleaseKey(t, note, velocity) => NoteOffHeard(s, t, note, velocity, held);
      case Controller(t, cc, raw, value) => ControllerHeard(s, t, cc, raw, value, held);
      case Resume => StopAllIsHeard(s.(suspended := false), held);
      case Block =>
        if Restarts(s, Block) {
          StopAllIsHeard(s.(suspended := false), held);
        }
      case _ =>
    }
  }

  ghost predicate AllSpare(held: Held, s: State, calls: seq<Call>)
    requires Inv(s) && AllValid(calls)
    decreases |calls|
  {
    calls != [] ==>
      assert calls[0] in calls;
      ApplyKeeps(s, calls[0]);
      var step := Apply(s, calls[0]);
      Spares(held, s, calls[0]) && AllSpare(AfterAll(held, step.events), step.state, calls[1..])
  }

  ghost predicate AllAnnounceSafely(s: State, calls: seq<Call>)
    requires Inv(s) && AllValid(calls)
    decreases |calls|
  {
    calls != [] ==>
      assert calls[0] in calls;
      ApplyKeeps(s, calls[0]);
      AnnouncesSafely(s, calls[0]) && AllAnnounceSafely(Apply(s, calls[0]).state, calls[1..])
  }

  lemma {:induction false} RunsAreHeard(s: State, calls: seq<Call>, held: Held)
    requires Inv(s) && AllValid(calls) && Tracks(held, s.voices, s.zone)
    ensures AllSpare(held, s, calls) <==> AllAnnounceSafely(s, calls)
    decreases |calls|
  {
    hide Apply, Tracks, Inv, WithinSpecs, Paired, AfterAll, Spares, AnnouncesSafely;
    if calls != [] {
      assert calls[0] in calls;
      ApplyKeeps(s, calls[0]);
      ApplyFollows(s, calls[0], held);
      CallsAreHeard(s, calls[0], held);
      var first := Apply(s, calls[0]);
      RunsAreHeard(first.state, calls[1..], AfterAll(held, first.events));
    }
  }

  /** From power-on, a run spares the silent member channels exactly if all its restarts announce safely. */
  lemma EveryRunIsHeard(curves: Curves, calls: seq<Call>)
    requires AllValid(calls)
    ensures AllSpare(map[], PowerOn(curves), calls) <==> AllAnnounceSafely(PowerOn(curves), calls)
  {
    hide Inv, WithinSpecs, PowerOn, AllSpare, AllAnnounceSafely, Tracks;
    PowerOnTracks(curves);
    RunsAreHeard(PowerOn(curves), calls, map[]);
  }

  lemma ResumingReachesAMember(s: State)
    requires Inv(s) && HasNotes(s) && s.params[MCM].value == 1 && ConfiguredZone(s.params).count == 15
    ensures !AnnouncesSafely(s, Resume) && Apply(s, Resume).state.zone == ConfiguredZone(s.params)
    ensures exists e :: e in Apply(s, Resume).events && e.channel in ConfiguredZone(s.params).Members()
  {
    hide WithinSpecs, ConfiguredZone, Zone.Members, Mcms, GlobalResets, StopAll, Inv, InitialInputs;
    var zone := ConfiguredZone(s.params);
    ConfiguredZoneValid(s.params);
    McmsToManagers(s.params, zone);
    ManagersAndMembers(zone);
    OldThenNewZone(s, Resume);
    var e :| e in Mcms(s.params, zone) && e.channel == 15 - zone.manager;
    assert e in InNewZone(s, Resume);
  }

  lemma AnnouncingSwitchedOn(curves: Curves)
    ensures SetParam(MCM, 1.0).Valid() && HasNotes(PowerOn(curves))
    ensures var on := Apply(PowerOn(curves), SetParam(MCM, 1.0)).state;
      on.params[MCM].value == 1 && ConfiguredZone(on.params).count == 15
  {
    hide WithinSpecs, Inv, Zone.Members;
    InitialKeeps(curves);
  }

  /** The exception occurs: configuration messages switched on in the default zone, then a restart. */
  lemma AnnouncingReachesAMember(curves: Curves)
    ensures var calls := [SetParam(MCM, 1.0), Resume];
      && AllValid(calls) && !AllSpare(map[], PowerOn(curves), calls)
      && exists e :: e in Run(PowerOn(curves), calls).events
                     && e.channel in Run(PowerOn(curves), calls).state.zone.Members()
  {
    hide WithinSpecs, Inv, PowerOn, Apply, Zone.Members, AnnouncesSafely, AllSpare, ConfiguredZone;
    var start, switch := PowerOn(curves), SetParam(MCM, 1.0);
    var calls := [switch, Resume];
    AnnouncingSwitchedOn(curves);
    ApplyKeeps(start, switch);
    var on := Apply(start, switch).state;
    InvHasNotes(on);
    ResumingReachesAMember(on);
    RunOne(on, Resume);
    assert calls[1..] == [Resume];
    EveryRunIsHeard(curves, calls);
  }
}
