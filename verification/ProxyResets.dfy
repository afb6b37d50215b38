/** What resets, zones, suspension and repeated messages do, said from outside the model. */
module ProxyResets {
  import opened Midi
  import opened NoteStacks
  import opened Distortion
  import opened Params
  import opened ProxyModel
  import opened ProxyInvariant
  import opened Retargeting
  import opened ProxyRuns
  import opened ProxyRouting
  import opened ProxyCalls
  import opened ProxyControllers

  // ---- The zone ----

  /** The zone is the one that the settings describe: type, size, anchor and transpositions. */
  ghost predicate Describes(ps: ParamTable, zone: Zone) {
    (ps[Z1TYP].value == 0 || ps[Z1TYP].value == 1)
    && zone.manager == (if ps[Z1TYP].value == 0 then 0 else 15)
    && zone.increment == (if ps[Z1TYP].value == 0 then 1 else 255)
    && zone.count == ps[Z1CHN].value && zone.anchor == ps[Z1ANC].value
    && zone.offsetBelow == ps[Z1TRB].value - 48 && zone.offsetAbove == ps[Z1TRA].value - 48
  }

  /** All channels next to the manager, up from 1 in the lower zone and down from 14 in the upper one. */
  ghost predicate InRow(channels: seq<Byte>, ps: ParamTable) {
    |channels| == ps[Z1CHN].value
    && forall k :: 0 <= k < |channels| ==> channels[k] == if ps[Z1TYP].value == 0 then 1 + k else 14 - k
  }

  lemma ConfiguredIsDescribed(ps: ParamTable)
    ensures Describes(ps, ConfiguredZone(ps)) && InRow(ConfiguredZone(ps).Members(), ps)
    ensures forall zone :: Describes(ps, zone) ==> zone == ConfiguredZone(ps)
  {
    assert SpecOf(Z1TYP) == ParamSpec(0, 1, 0) && SpecOf(Z1CHN) == ParamSpec(1, 15, 15);
  }

  lemma InputsAreInitial(ps: ParamTable)
    ensures forall i :: 0 <= i < RULES ==> InitialInputs(ps)[i] == RuleAt(ps, i).initRatio
  {
    hide RuleAt, WithinSpecs;
  }

  /** Resuming enters the zone that the settings describe, with all its channels free in a row. */
  lemma ResumeEnters(s: State)
    requires Inv(s) && HasNotes(s)
    ensures var r := Apply(s, Resume).state;
      && Describes(s.params, r.zone) && InRow(r.voices.free, s.params) && r.params == s.params
      && r.voices.notes == [] && r.voices.deferred == [] && !r.pedalDown && !r.suspended
      && forall i :: 0 <= i < RULES ==> r.lastInput[i] == RuleAt(s.params, i).initRatio
  {
    hide ConfiguredZone, Describes, InRow, WithinSpecs, Sane, StopEach, Mcms, GlobalResets, InitialInputs, Zone.Members;
    hide RuleAt;
    ConfiguredIsDescribed(s.params);
    InputsAreInitial(s.params);
    var awake := s.(suspended := false);
    SaneElsewhere(s, awake);
    InvMeans(s);
    StopAllEmpties(awake);
  }

  /** A block enters it exactly when it is another one, and otherwise does nothing. */
  lemma BlockEnters(s: State)
    requires Inv(s) && HasNotes(s)
    ensures s.suspended || Describes(s.params, s.zone) ==> Apply(s, Block) == Step(s, [])
    ensures !s.suspended && !Describes(s.params, s.zone) ==>
      var r := Apply(s, Block).state;
      && Describes(s.params, r.zone) && InRow(r.voices.free, s.params) && r.params == s.params
      && r.voices.notes == [] && r.voices.deferred == [] && !r.pedalDown
      && forall i :: 0 <= i < RULES ==> r.lastInput[i] == RuleAt(s.params, i).initRatio
  {
    hide ConfiguredZone, Describes, InRow, WithinSpecs, Sane, StopEach, Mcms, GlobalResets, InitialInputs, Zone.Members;
    hide RuleAt;
    ConfiguredIsDescribed(s.params);
    InputsAreInitial(s.params);
    InvMeans(s);
    StopAllEmpties(s);
  }

  /** A new proxy is in the full lower zone, split at middle C and not transposed. */
  lemma PowerOnZone(curves: Curves)
    ensures var s := PowerOn(curves);
      && Describes(s.params, s.zone) && InRow(s.voices.free, s.params)
      && s.zone == Zone(60, 0, 0, 15, 0, 1)
      && forall i :: 0 <= i < RULES ==> s.lastInput[i] == RuleAt(s.params, i).initRatio
  {
    hide Inv, WithinSpecs, Zone.Members, ConfiguredZone, Describes, InRow;
    var ps := PowerOn(curves).params;
    InputsAreInitial(ps);
    ConfiguredIsDescribed(ps);
    DefaultZoneSettings(curves);
  }

  lemma DefaultZoneSettings(curves: Curves)
    ensures var s := PowerOn(curves);
      && s.zone == ConfiguredZone(s.params) && s.lastInput == InitialInputs(s.params)
      && s.voices.free == s.zone.Members()
      && s.params[Z1TYP].value == 0 && s.params[Z1CHN].value == 15 && s.params[Z1ANC].value == 60
      && s.params[Z1TRB].value == 48 && s.params[Z1TRA].value == 48
      && s.zone == Zone(60, 0, 0, 15, 0, 1)
  {
    hide Inv, WithinSpecs, Zone.Members;
  }

  /** The pitch that is sent, from the settings alone. */
  lemma PitchFollowsSettings(s: State, note: Byte)
    requires Describes(s.params, s.zone)
    ensures PitchIn(s.zone, note)
         == Clamp(note + (if note >= s.params[Z1ANC].value then s.params[Z1TRA].value - 48
                          else s.params[Z1TRB].value - 48), 0, 127)
  {
    hide WithinSpecs;
  }

  // ---- Restarting ----

  /** One note is stopped for good: the pedal is lifted on its channel first. */
  ghost predicate Silences(part: seq<Event>, s: State, notes: seq<Byte>) {
    notes != [] && notes[0] <= NOTE_MAX
    && exists off :: Stops(off, s, 0.0, notes, notes[0], 64)
                     && part == Message(0.0, s.voices.channelOf[notes[0]], SUSTAIN_PEDAL, 0.0, false) + off
  }

  lemma SilencesElsewhere(part: seq<Event>, s: State, r: State, notes: seq<Byte>)
    requires Silences(part, s, notes)
    requires r.params == s.params && r.zone == s.zone && r.lastInput == s.lastInput && r.curves == s.curves
    requires r.voices.channelOf == s.voices.channelOf && r.voices.velocityOf == s.voices.velocityOf
    ensures Silences(part, r, notes)
  {
    hide Stops, Message, WithinSpecs;
    var off :| Stops(off, s, 0.0, notes, notes[0], 64)
               && part == Message(0.0, s.voices.channelOf[notes[0]], SUSTAIN_PEDAL, 0.0, false) + off;
    StopsElsewhere(off, s, r, 0.0, notes, notes[0], 64);
  }

  lemma {:induction false} StopEachParts(s: State) returns (parts: seq<seq<Event>>)
    requires Playing(s.voices) && OnChannels(s.voices.notes, s.voices.channelOf) && HasNotes(s)
    ensures Flatten(parts) == StopEach(s).events && |parts| == |s.voices.notes|
    ensures forall k :: 0 <= k < |parts| ==> Silences(parts[k], s, s.voices.notes[k..])
    decreases |s.voices.notes|
  {
    hide StopNote, Silences, Stops, Message, ControlEvents, WithinSpecs, Injective, OnChannels, Flatten;
    FlattenNone();
    parts := [];
    if s.voices.notes != [] {
      var notes, note := s.voices.notes, s.voices.notes[0];
      StopEachStep(s);
      PlayingStopped(s.voices, note);
      StoppedOnChannels(s.voices, note);
      var stop := StopNote(s, 0.0, note, 64);
      var part := Message(0.0, s.voices.channelOf[note], SUSTAIN_PEDAL, 0.0, false) + stop.events;
      SilencesFirst(s, part);
      var rest := StopEachParts(stop.state);
      FlattenFirst(part, rest);
      parts := [part] + rest;
      forall k | 0 <= k < |parts|
        ensures Silences(parts[k], s, notes[k..])
      {
        if k > 0 {
          assert notes[k..] == notes[1..][k - 1..] && parts[k] == rest[k - 1];
          SilencesElsewhere(rest[k - 1], stop.state, s, notes[k..]);
        } else {
          assert notes[0..] == notes;
        }
      }
    }
  }

  lemma SilencesFirst(s: State, part: seq<Event>)
    requires s.voices.notes != [] && OnChannels(s.voices.notes, s.voices.channelOf)
    requires s.voices.notes[0] <= NOTE_MAX
    requires part == Message(0.0, s.voices.channelOf[s.voices.notes[0]], SUSTAIN_PEDAL, 0.0, false)
                     + StopNote(s, 0.0, s.voices.notes[0], 64).events
    ensures Silences(part, s, s.voices.notes)
    ensures ControlEvents(0.0, s.voices.channelOf[s.voices.notes[0]], SUSTAIN_PEDAL, 0.0, false)
         == Message(0.0, s.voices.channelOf[s.voices.notes[0]], SUSTAIN_PEDAL, 0.0, false)
  {
    hide StopNote, Stops, Message, ControlEvents, WithinSpecs;
    var note := s.voices.notes[0];
    assert note in s.voices.notes && ChannelOf(s.voices.channelOf, note) == s.voices.channelOf[note];
    StopNoteMeans(s, 0.0, note, 64);
    MessageIs(0.0, s.voices.channelOf[note], SUSTAIN_PEDAL, 0.0, false);
  }

  /** The MPE Configuration Message: registered parameter 6 of the manager channel is set to the channel count. */
  function Configuration(manager: Byte, count: Byte): seq<Event> {
    [Event(0.0, CONTROL_CHANGE, manager, 101, 0, 0.0, false), Event(0.0, CONTROL_CHANGE, manager, 100, 6, 0.0, false),
     Event(0.0, CONTROL_CHANGE, manager, 6, count, 0.0, false)]
  }

  function ManagerOf(ps: ParamTable): Byte {
    if ps[Z1TYP].value == 0 then 0 else 15
  }

  /** The configuration of the zone that the settings describe, and of the other zone, which gets no channels. */
  function Configurations(ps: ParamTable): seq<Event> {
    if ps[MCM].value == 1 then
      assert SpecOf(Z1CHN) == ParamSpec(1, 15, 15);
      Configuration(ManagerOf(ps), ps[Z1CHN].value) + Configuration(15 - ManagerOf(ps), 0)
    else []
  }

  /** A global rule with resets on sends its initial value to the manager channel. */
  ghost predicate ResetsGlobally(block: seq<Event>, s: State, i: nat, manager: Byte)
    requires i < RULES
  {
    var rule := RuleAt(s.params, i);
    block == if rule.reset != RST_OFF && rule.target == TRG_GLOBAL
             then Message(0.0, manager, rule.outCc, rule.Distort(rule.initRatio, s.curves), false) else []
  }

  lemma {:induction false} GlobalBlocks(s: State, manager: Byte, n: nat) returns (blocks: seq<seq<Event>>)
    requires n <= RULES && manager <= CHANNEL_MAX
    ensures |blocks| == n && Flatten(blocks) == GlobalResets(s.params, manager, s.curves, n)
    ensures forall i :: 0 <= i < n ==> ResetsGlobally(blocks[i], s, i, manager)
  {
    hide RuleAt, Rule.Distort, ControlEvents, Message, WithinSpecs;
    blocks := [];
    if n > 0 {
      var most := GlobalBlocks(s, manager, n - 1);
      var rule := RuleAt(s.params, n - 1);
      MessageIs(0.0, manager, rule.outCc, rule.Distort(rule.initRatio, s.curves), false);
      FlattenNext(most, GlobalReset(s.params, manager, s.curves, n - 1));
      blocks := most + [GlobalReset(s.params, manager, s.curves, n - 1)];
    }
  }

  ghost predicate RestartsWith(events: seq<Event>, s: State, parts: seq<seq<Event>>, blocks: seq<seq<Event>>) {
    |parts| == |s.voices.notes| && (forall k :: 0 <= k < |parts| ==> Silences(parts[k], s, s.voices.notes[k..]))
    && |blocks| == RULES && (forall i :: 0 <= i < RULES ==> ResetsGlobally(blocks[i], s, i, ManagerOf(s.params)))
    && events == (if s.voices.notes == [] then [] else Message(0.0, s.zone.manager, SUSTAIN_PEDAL, 0.0, false))
                 + Flatten(parts)
                 + (Configurations(s.params) + Flatten(blocks))
  }

  /**
   All that a restart sends: the pedal lifted on the manager channel, every note stopped with the newest first, the
   configuration of both zones if that is switched on, and the initial values of the global rules.
   */
  ghost predicate AnswersRestart(events: seq<Event>, s: State) {
    exists parts, blocks :: RestartsWith(events, s, parts, blocks)
  }

  lemma RestartSends(s: State, call: Call)
    requires Inv(s) && HasNotes(s) && call.Valid() && Restarts(s, call)
    ensures AnswersRestart(Apply(s, call).events, s)
  {
    hide WithinSpecs, Sane, StopEach, GlobalResets, Silences, ResetsGlobally, Message, Configurations, ConfiguredZone;
    hide Inv, OnChannels, Playing, ControlEvents, Mcms, Describes, Flatten;
    InvMeans(s);
    SanePlaying(s);
    SaneOnChannels(s);
    var awake := s.(suspended := false);
    SaneElsewhere(s, awake);
    ConfiguredIsDescribed(s.params);
    var zone := ConfiguredZone(s.params);
    DescribedConfigurations(s.params, zone);
    var parts := StopEachParts(awake);
    forall k | 0 <= k < |parts|
      ensures Silences(parts[k], s, s.voices.notes[k..])
    {
      SilencesElsewhere(parts[k], awake, s, s.voices.notes[k..]);
    }
    var blocks := GlobalBlocks(s, zone.manager, RULES);
    MessageIs(0.0, s.zone.manager, SUSTAIN_PEDAL, 0.0, false);
    OldThenNewZone(s, call);
    assert RestartsWith(Apply(s, call).events, s, parts, blocks);
  }

  lemma DescribedConfigurations(ps: ParamTable, zone: Zone)
    requires Describes(ps, zone) && zone.Valid()
    ensures zone.manager == ManagerOf(ps) && Mcms(ps, zone) == Configurations(ps)
  {
    hide WithinSpecs;
  }

  // ---- Suspension and repeated messages ----

  /** Nothing is heard or changed while the proxy is suspended, apart from its settings. */
  lemma {:induction false} SuspendedIsDeaf(s: State, calls: seq<Call>)
    requires Inv(s) && AllValid(calls) && s.suspended && forall c :: c in calls ==> !c.Resume?
    ensures var run := Run(s, calls);
      run.events == [] && run.state == s.(params := run.state.params)
    decreases |calls|
  {
    hide Inv, WithinSpecs, SetRatio, Restart, Control, Replace, StartNote, ReleaseNote;
    if calls != [] {
      assert calls[0] in calls;
      ApplyKeeps(s, calls[0]);
      SuspendedIsDeaf(Apply(s, calls[0]).state, calls[1..]);
    }
  }

  /** The next message of a controller is ignored exactly if it has the time and the value of the one before. */
  lemma RepeatsAreIgnored(s: State, t: real, cc: nat, raw: int, value: Ratio, u: real, next: int, nextValue: Ratio)
    requires Inv(s) && HasNotes(s) && !s.suspended
    ensures var r := ControlMessage(s, t, cc, raw, value).state;
      && HasNotes(r) && !r.suspended
      && (u == t && next == raw ==> ControlMessage(r, u, cc, next, nextValue) == Step(r, []))
      && (u != t || next != raw ==>
            exists seen :: ControlMessage(r, u, cc, next, nextValue) == Control(r.(seen := seen), u, cc, nextValue))
  {
    hide WithinSpecs, Control, Inv;
    ApplyKeeps(s, Controller(t, cc, raw, value));
    InvHasNotes(ControlMessage(s, t, cc, raw, value).state);
    var seen := s.(seen := s.seen[cc := (t, raw)]);
    ControlKeepsRest(seen, t, cc, value);
  }

  lemma ControlKeepsRest(s: State, t: real, cc: nat, value: Ratio)
    requires forall n :: n in s.voices.deferred ==> n <= NOTE_MAX
    ensures var r := Control(s, t, cc, value).state;
      r.seen == s.seen && r.suspended == s.suspended && r.zone == s.zone && r.curves == s.curves
  {
    hide RoutedEvents, ControlEvents, Listens, RuleAt, Learned, NotedInputs, ReleaseDeferred, WithinSpecs;
    ReleaseDeferredKeepsRest(Noted(s, cc, value, RULES).(pedalDown := false), t);
  }
}
