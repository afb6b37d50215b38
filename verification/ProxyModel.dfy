/**
 The meaning of the calls of src/proxy.cpp over plain values: a state, and the events each call emits.
 Active notes are one newest-first sequence; every rule target is computed from that sequence.
 */
module ProxyModel {
  import opened Midi
  import opened Sequences
  import opened NoteStacks
  import opened Distortion
  import opened Params

  type Inputs = t: seq<Ratio> | |t| == RULES witness seq<Ratio>(RULES, _ => 0.0)

  /** The zone configuration in force, which trails the parameters until the next block. */
  datatype Zone = Zone(anchor: Byte, offsetBelow: int, offsetAbove: int, count: nat, manager: Byte, increment: Byte) {

    ghost predicate Valid() {
      1 <= count <= 15 && anchor <= NOTE_MAX
      && ((manager == 0 && increment == 1) || (manager == CHANNEL_MAX && increment == 255))
    }

    /** Member channels count up from the lower manager and down from the upper one. */
    function Members(): seq<Byte>
      requires 1 <= count <= 15
    {
      seq(count, i requires 0 <= i < count => if manager == 0 then 1 + i else 14 - i)
    }

    function Transpose(note: Byte): Byte {
      Clamp(note + if note >= anchor then offsetAbove else offsetBelow, 0, 127)
    }
  }

  function ConfiguredZone(ps: ParamTable): (z: Zone)
    ensures z.Valid()
  {
    var upper := ps[Z1TYP].value == 1;
    Zone(ps[Z1ANC].value, ps[Z1TRB].value - 48, ps[Z1TRA].value - 48, ps[Z1CHN].value,
         if upper then CHANNEL_MAX else 0, if upper then 255 else 1)
  }

  /** Who is sounding where. */
  datatype Voices = Voices(
    notes: seq<Byte>,             // active notes, newest first
    deferred: seq<Byte>,          // of those, the ones released while the pedal is held; latest first
    free: seq<Byte>,              // channels in the order they will be handed out
    channelOf: NoteTable,
    velocityOf: NoteTable,
    releaseVelocityOf: NoteTable,
    links: ListLinks)             // the linked list that stands for `deferred`; it can come to differ
  {
    function Channels(): seq<Byte> {
      ChannelsOf(notes, channelOf)
    }

    function Started(channel: Byte, note: Byte, velocity: Byte): Voices
      requires note <= NOTE_MAX
    {
      this.(notes := [note] + notes, channelOf := channelOf[note := channel],
            velocityOf := velocityOf[note := velocity])
    }

    function Stopped(note: Byte): Voices {
      Voices(Without(notes, note), Without(deferred, note), free, channelOf, velocityOf, releaseVelocityOf,
             if note <= NOTE_MAX then links.Unlinked(note) else links)
    }

    /** The linked list is that of the deferred notes. */
    ghost predicate Intact() {
      links.Holds(deferred)
    }

    /**
     Whether the linked list of deferred notes survives taking `note` out. It does unless the note is not in it
     and has left a link to a note behind the head.
     */
    predicate Harmless(note: Byte) {
      note in deferred || deferred == [] || note > NOTE_MAX || links.next[note] !in deferred[1..]
    }

    /** The newest deferred note is popped off. */
    function Popped(): Voices
      requires deferred != []
    {
      Voices(notes, deferred[1..], free, channelOf, velocityOf, releaseVelocityOf,
             if links.head == INVALID_NOTE then links else links.Popped())
    }

    function Forgotten(): Voices {
      this.(deferred := [], links := NoLinks())
    }

    function Freed(channel: Byte): Voices {
      this.(free := free + [channel])
    }

    function Deferred(note: Byte, velocity: Byte): Voices
      requires note <= NOTE_MAX
    {
      this.(deferred := [note] + Without(deferred, note), releaseVelocityOf := releaseVelocityOf[note := velocity],
            links := links.Pushed(note))
    }
  }

  datatype State = State(
    voices: Voices,
    zone: Zone,
    params: ParamTable,
    lastInput: Inputs,
    pedalDown: bool,
    suspended: bool,
    seen: map<nat, (real, int)>,  // last time and value per controller
    curves: Curves)
  {
    predicate HandlesPedal() {
      params[Z1SUS].value == 1
    }

    predicate OverridesRelease() {
      params[Z1ORV].value == 1
    }

    function ExcessHandling(): nat {
      params[Z1ENH].value
    }
  }

  /** src/proxy.cpp:239-325: the state a new proxy starts in. */
  function InitialState(curves: Curves): State {
    var ps := DEFAULT_PARAMS;
    assert WithinSpecs(ps);
    var zone := ConfiguredZone(ps);
    State(Voices([], [], zone.Members(), seq<Byte>(NOTES, _ => INVALID_CHANNEL), seq<Byte>(NOTES, _ => 0),
                 seq<Byte>(NOTES, _ => 64), NoLinks()),
          zone, ps, InitialInputs(ps), false, false, map[], curves)
  }

  datatype Step = Step(state: State, events: seq<Event>) {
    function Then(next: Step): Step {
      Step(next.state, events + next.events)
    }
  }

  // ---- Events ----

  /** src/proxy.cpp:547-554: events on impossible channels are dropped. */
  function Emitted(e: Event): seq<Event> {
    if e.channel > CHANNEL_MAX then [] else [e]
  }

  /** src/proxy.cpp:730-802: the message for a controller identifier, if it has one. */
  function ControlEvents(t: real, channel: Byte, cc: nat, value: real, setup: bool): seq<Event> {
    if cc == PITCH_WHEEL then
      var w := FloatToWord(value);
      Emitted(Event(t, PITCH_BEND_CHANGE, channel, w % 128, w / 128, value, setup))
    else if cc == PRESSURE then
      Emitted(Event(t, CHANNEL_PRESSURE, channel, FloatToByte(value), 0, value, setup))
    else if cc <= MAX_MIDI_CC then
      Emitted(Event(t, CONTROL_CHANGE, channel, cc, FloatToByte(value), value, setup))
    else []
  }

  function NoteEvent(t: real, command: Byte, channel: Byte, pitch: Byte, velocity: Byte): Event {
    Event(t, command, channel, pitch, velocity, ByteToFloat(velocity), false)
  }

  // ---- Targets ----

  /** The note a rule target names among the active ones; the group targets name none. */
  function TargetNote(target: nat, notes: seq<Byte>, anchor: Byte): Option<Byte> {
    if target < TRG_LOWEST then None
    else
      var kind, group := (target - TRG_LOWEST) % 4, (target - TRG_LOWEST) / 4;
      Extreme(kind, if group == 0 then notes else Side(notes, anchor, group == 2))
  }

  /** The channels a controller event is sent to under a rule. */
  function TargetChannels(s: State, rule: Rule): seq<Byte> {
    if (s.voices.notes == [] && rule.fallback) || rule.target == TRG_GLOBAL then [s.zone.manager]
    else if rule.target == TRG_ALL_BELOW_ANCHOR then
      ChannelsOf(Side(s.voices.notes, s.zone.anchor, false), s.voices.channelOf)
    else if rule.target == TRG_ALL_ABOVE_ANCHOR then
      ChannelsOf(Side(s.voices.notes, s.zone.anchor, true), s.voices.channelOf)
    else match TargetNote(rule.target, s.voices.notes, s.zone.anchor)
      case None => []
      case Some(n) => [ChannelOf(s.voices.channelOf, n)]
  }

  /** One event to the note that is the target among `ours` but not among `theirs`. */
  function RetargetEvents(rule: Rule, t: real, ours: seq<Byte>, theirs: seq<Byte>,
                          table: NoteTable, anchor: Byte, value: real): seq<Event>
  {
    var mine := TargetNote(rule.target, ours, anchor);
    if mine.None? || mine == TargetNote(rule.target, theirs, anchor) then []
    else ControlEvents(t, ChannelOf(table, mine.value), rule.outCc, value, false)
  }

  // ---- Starting and stopping one note ----

  /** What rule `i` sends around the note-on of `s.voices.notes[0]`; the rest of `s.voices.notes` was active before. */
  function NewNoteReset(s: State, t: real, i: nat, setup: bool): seq<Event>
    requires s.voices.notes != [] && i < RULES
  {
    var rule, note, before := RuleAt(s.params, i), s.voices.notes[0], s.voices.notes[1..];
    if !rule.NeedsResetForNoteEvent(note >= s.zone.anchor) then []
    else
      var v := rule.ResetValue(s.lastInput[i], s.curves);
      (if setup then RetargetEvents(rule, t, before, s.voices.notes, s.voices.channelOf, s.zone.anchor, v) else [])
      + (if before == [] && rule.fallback then ControlEvents(t, s.zone.manager, rule.outCc, v, setup) else [])
      + ControlEvents(t, ChannelOf(s.voices.channelOf, note), rule.outCc, v, setup)
  }

  function NewNoteResets(s: State, t: real, n: nat, setup: bool): seq<Event>
    requires s.voices.notes != [] && n <= RULES
  {
    if n == 0 then [] else NewNoteResets(s, t, n - 1, setup) + NewNoteReset(s, t, n - 1, setup)
  }

  /** What rule `i` sends after a note has left `before`: one event to a note that became the target. */
  function NoteOffReset(s: State, before: seq<Byte>, t: real, wasAbove: bool, i: nat): seq<Event>
    requires i < RULES
  {
    var rule := RuleAt(s.params, i);
    if !rule.NeedsResetForNoteEvent(wasAbove) then []
    else RetargetEvents(rule, t, s.voices.notes, before, s.voices.channelOf, s.zone.anchor,
                        rule.ResetValue(s.lastInput[i], s.curves))
  }

  function NoteOffResets(s: State, before: seq<Byte>, t: real, wasAbove: bool, n: nat): seq<Event>
    requires n <= RULES
  {
    if n == 0 then [] else NoteOffResets(s, before, t, wasAbove, n - 1) + NoteOffReset(s, before, t, wasAbove, n - 1)
  }

  function StartNote(s: State, t: real, channel: Byte, note: Byte, velocity: Byte): Step
    requires note <= NOTE_MAX
  {
    var started := s.(voices := s.voices.Started(channel, note, velocity));
    Step(started,
         NewNoteResets(started, t, RULES, true)
         + Emitted(NoteEvent(t, NOTE_ON, channel, s.zone.Transpose(note), velocity))
         + NewNoteResets(started, t, RULES, false))
  }

  function StopNote(s: State, t: real, note: Byte, velocity: Byte): Step
    requires note <= NOTE_MAX
  {
    var stopped := s.(voices := s.voices.Stopped(note));
    var v := if s.OverridesRelease() then s.voices.velocityOf[note] else velocity;
    Step(stopped,
         Emitted(NoteEvent(t, NOTE_OFF, s.voices.channelOf[note], s.zone.Transpose(note), v))
         + NoteOffResets(stopped, s.voices.notes, t, note >= s.zone.anchor, RULES))
  }

  /** Stopping a note because its key went up also returns its channel. */
  function ReleaseNote(s: State, t: real, note: Byte, velocity: Byte): Step
    requires note <= NOTE_MAX
  {
    var step := StopNote(s, t, note, velocity);
    Step(s.(voices := s.voices.Stopped(note).Freed(s.voices.channelOf[note])), step.events)
  }

  // ---- Calls ----

  /** The note that gives way when no channel is free, unless new notes are to be ignored. */
  function Victim(s: State): (r: Option<Byte>)
    ensures r.Some? ==> r.value in s.voices.notes
  {
    if s.ExcessHandling() == ENH_IGNORE then None else Extreme(s.ExcessHandling() - ENH_STEAL_LOWEST, s.voices.notes)
  }

  /** The note that a note-on stops. */
  function StoppedByNoteOn(s: State, note: Byte): Option<Byte> {
    if s.suspended || s.ExcessHandling() == ENH_IGNORE then None
    else if note in s.voices.notes then Some(note)
    else if s.voices.free == [] then Victim(s)
    else None
  }

  /** The note that a note-off stops at once. */
  function StoppedByNoteOff(s: State, note: Byte): Option<Byte> {
    if s.suspended || note !in s.voices.notes || (s.HandlesPedal() && s.pedalDown) then None else Some(note)
  }

  predicate Clean(v: Voices, stopped: Option<Byte>) {
    stopped.Some? ==> v.Harmless(stopped.value)
  }

  function Replace(s: State, t: real, victim: Byte, note: Byte, velocity: Byte): Step
    requires victim <= NOTE_MAX && note <= NOTE_MAX
  {
    var stop := StopNote(s, t, victim, 64);
    stop.Then(StartNote(stop.state, t, s.voices.channelOf[victim], note, velocity))
  }

  /** src/proxy.cpp:402-465 */
  function NoteOn(s: State, t: real, note: Byte, velocity: Byte): Step
    requires note <= NOTE_MAX && forall n :: n in s.voices.notes ==> n <= NOTE_MAX
  {
    if s.suspended then Step(s, [])
    else if note in s.voices.notes then
      if s.ExcessHandling() == ENH_IGNORE then Step(s, []) else Replace(s, t, note, note, velocity)
    else if s.voices.free == [] then
      match Victim(s)
      case None => Step(s, [])
      case Some(victim) => Replace(s, t, victim, note, velocity)
    else StartNote(s.(voices := s.voices.(free := s.voices.free[1..])), t, s.voices.free[0], note, velocity)
  }

  /** src/proxy.cpp:1123-1146 */
  function NoteOff(s: State, t: real, note: Byte, velocity: Byte): Step
    requires note <= NOTE_MAX
  {
    if s.suspended || note !in s.voices.notes then Step(s, [])
    else if s.HandlesPedal() && s.pedalDown then
      Step(s.(voices := s.voices.Deferred(note, velocity)), [])
    else ReleaseNote(s, t, note, velocity)
  }

  function PopDeferred(s: State): State
    requires s.voices.deferred != []
  {
    s.(voices := s.voices.Popped())
  }

  /** src/proxy.cpp:1090-1097 */
  function ReleaseDeferred(s: State, t: real): Step
    requires forall n :: n in s.voices.deferred ==> n <= NOTE_MAX
    decreases |s.voices.deferred|
  {
    if s.voices.deferred == [] then Step(s, [])
    else
      var note := s.voices.deferred[0];
      assert note in s.voices.deferred;
      FirstAndRest(s.voices.deferred);
      WithoutMembers(s.voices.deferred[1..], note);
      var step := ReleaseNote(PopDeferred(s), t, note, s.voices.releaseVelocityOf[note]);
      step.Then(ReleaseDeferred(step.state, t))
  }

  predicate Listens(rule: Rule, cc: nat) {
    rule.inCc == cc || rule.inCc == MIDI_LEARN
  }

  function FanOut(t: real, channels: seq<Byte>, cc: nat, value: real): seq<Event> {
    if channels == [] then []
    else FanOut(t, channels[..|channels| - 1], cc, value)
         + ControlEvents(t, channels[|channels| - 1], cc, value, false)
  }

  /** What rule `i` sends for a controller event: once to each target channel. */
  function RuleEvents(s: State, t: real, cc: nat, value: Ratio, i: nat): seq<Event>
    requires i < RULES
  {
    var rule := RuleAt(s.params, i);
    if Listens(rule, cc) then FanOut(t, TargetChannels(s, rule), rule.outCc, rule.Distort(value, s.curves)) else []
  }

  function RoutedEvents(s: State, t: real, cc: nat, value: Ratio, n: nat): seq<Event>
    requires n <= RULES
  {
    if n == 0 then [] else RoutedEvents(s, t, cc, value, n - 1) + RuleEvents(s, t, cc, value, n - 1)
  }

  /** The parameters after the first `n` rules have had the chance to learn `cc`. */
  function Learned(ps: ParamTable, cc: nat, n: nat): ParamTable
    requires n <= RULES
  {
    if n == 0 then ps
    else
      var q := Learned(ps, cc, n - 1);
      if RuleAt(ps, n - 1).inCc == MIDI_LEARN then SetValue(q, RuleParam(n - 1, IN_CC), cc) else q
  }

  /** The last inputs after the first `n` rules have seen `cc`. */
  function NotedInputs(s: State, cc: nat, value: Ratio, n: nat): Inputs
    requires n <= RULES
  {
    if n == 0 then s.lastInput
    else
      var noted := NotedInputs(s, cc, value, n - 1);
      if Listens(RuleAt(s.params, n - 1), cc) then noted[n - 1 := value] else noted
  }

  /** The state after the first `n` rules have seen a controller event. */
  function Noted(s: State, cc: nat, value: Ratio, n: nat): State
    requires n <= RULES
  {
    s.(params := Learned(s.params, cc, n), lastInput := NotedInputs(s, cc, value, n))
  }

  /** src/proxy.cpp:921-1087 */
  function Control(s: State, t: real, cc: nat, value: Ratio): Step
    requires forall n :: n in s.voices.deferred ==> n <= NOTE_MAX
  {
    var routed := RoutedEvents(s, t, cc, value, RULES);
    var events := if exists i :: 0 <= i < RULES && Listens(RuleAt(s.params, i), cc) then routed
                  else ControlEvents(t, s.zone.manager, cc, value, false);
    var noted := Noted(s, cc, value, RULES);
    if s.HandlesPedal() && cc == SUSTAIN_PEDAL then
      var pedalled := noted.(pedalDown := value >= 0.5);
      if pedalled.pedalDown then Step(pedalled, events)
      else Step(pedalled, events).Then(ReleaseDeferred(pedalled, t))
    else Step(noted, events)
  }

  /** Whether a controller event releases the pedal, and with it the deferred notes. */
  predicate ReleasesPedal(s: State, cc: nat, value: Ratio) {
    s.HandlesPedal() && cc == SUSTAIN_PEDAL && value < 0.5
  }

  predicate IsRepeated(s: State, t: real, cc: nat, raw: int) {
    cc in s.seen && s.seen[cc] == (t, raw)
  }

  /** A message makes the proxy walk through its list of deferred notes only when it releases the pedal. */
  predicate WalksList(s: State, t: real, cc: nat, raw: int, value: Ratio) {
    !s.suspended && !IsRepeated(s, t, cc, raw) && ReleasesPedal(s, cc, value)
  }

  /** A controller message with the same time and value as the one before it is ignored. */
  function ControlMessage(s: State, t: real, cc: nat, raw: int, value: Ratio): Step
    requires forall n :: n in s.voices.deferred ==> n <= NOTE_MAX
  {
    if s.suspended || IsRepeated(s, t, cc, raw) then Step(s, [])
    else Control(s.(seen := s.seen[cc := (t, raw)]), t, cc, value)
  }

  // ---- Resets ----

  /** Stop every active note, newest first, releasing the synthesizer's pedal on its channel. */
  function StopEach(s: State): Step
    requires forall n :: n in s.voices.notes ==> n <= NOTE_MAX
    decreases |s.voices.notes|
  {
    if s.voices.notes == [] then Step(s, [])
    else
      var note := s.voices.notes[0];
      assert note in s.voices.notes;
      WithoutMembers(s.voices.notes, note);
      var stop := StopNote(s, 0.0, note, 64);
      Step(s, ControlEvents(0.0, s.voices.channelOf[note], SUSTAIN_PEDAL, 0.0, false))
        .Then(stop).Then(StopEach(stop.state))
  }

  /** src/proxy.cpp:1462-1486 */
  function StopAll(s: State): Step
    requires forall n :: n in s.voices.notes ==> n <= NOTE_MAX
  {
    var each := StopEach(s);
    Step(each.state.(voices := each.state.voices.Forgotten(), pedalDown := false),
         (if s.voices.notes == [] then [] else ControlEvents(0.0, s.zone.manager, SUSTAIN_PEDAL, 0.0, false))
         + each.events)
  }

  function Mcm(channel: Byte, count: Byte): seq<Event> {
    Emitted(Event(0.0, CONTROL_CHANGE, channel, RPN_MSB, 0, 0.0, false))
    + Emitted(Event(0.0, CONTROL_CHANGE, channel, RPN_LSB, 6, 0.0, false))
    + Emitted(Event(0.0, CONTROL_CHANGE, channel, DATA_ENTRY_MSB, count, 0.0, false))
  }

  /** The configuration messages of both zones, when they are switched on. */
  function Mcms(ps: ParamTable, zone: Zone): seq<Event>
    requires zone.Valid()
  {
    if ps[MCM].value == 1 then Mcm(zone.manager, zone.count) + Mcm(15 - zone.manager, 0) else []
  }

  function GlobalReset(ps: ParamTable, manager: Byte, curves: Curves, i: nat): seq<Event>
    requires i < RULES
  {
    var rule := RuleAt(ps, i);
    if rule.reset != RST_OFF && rule.target == TRG_GLOBAL
    then ControlEvents(0.0, manager, rule.outCc, rule.Distort(rule.initRatio, curves), false)
    else []
  }

  function GlobalResets(ps: ParamTable, manager: Byte, curves: Curves, n: nat): seq<Event>
    requires n <= RULES
  {
    if n == 0 then [] else GlobalResets(ps, manager, curves, n - 1) + GlobalReset(ps, manager, curves, n - 1)
  }

  function InitialInputs(ps: ParamTable): Inputs {
    seq<Ratio>(RULES, i requires 0 <= i < RULES => RuleAt(ps, i).initRatio)
  }

  /** Stop everything and start afresh in `zone`. */
  function Restart(s: State, zone: Zone): Step
    requires zone.Valid() && forall n :: n in s.voices.notes ==> n <= NOTE_MAX
  {
    var stop := StopAll(s);
    var afresh := stop.state.(voices := stop.state.voices.(free := zone.Members()), zone := zone,
                              lastInput := InitialInputs(s.params));
    Step(afresh, stop.events + (Mcms(s.params, zone) + GlobalResets(s.params, zone.manager, s.curves, RULES)))
  }

  /** src/proxy.cpp:1412-1459 */
  function UpdateZone(s: State): Step
    requires forall n :: n in s.voices.notes ==> n <= NOTE_MAX
  {
    if ConfiguredZone(s.params) == s.zone then Step(s, []) else Restart(s, ConfiguredZone(s.params))
  }

  /** src/proxy.cpp:1399-1409 */
  function Reset(s: State): Step
    requires forall n :: n in s.voices.notes ==> n <= NOTE_MAX
  {
    Restart(s, ConfiguredZone(s.params))
  }

  function BeginBlock(s: State): Step
    requires forall n :: n in s.voices.notes ==> n <= NOTE_MAX
  {
    if s.suspended then Step(s, []) else UpdateZone(s)
  }

  /** What the other thread may ask for through the lock-free ring; the flag and the copies it reads are left out. */
  datatype Request =
    | SetParamRequest(id: nat, ratio: real)
    | RefreshParamRequest
    | ClearRequest
    | ClearDirtyFlagRequest
  {
    predicate Valid() {
      SetParamRequest? ==> id < PARAM_ID_COUNT
    }
  }

  /** src/proxy.cpp:1331-1353 */
  function Answered(ps: ParamTable, request: Request): ParamTable
    requires request.Valid()
  {
    match request
    case SetParamRequest(id, ratio) => SetRatio(ps, id, ratio)
    case ClearRequest => Cleared(ps, PARAM_ID_COUNT)
    case _ => ps
  }

  /** The first request is answered first. */
  function AllAnswered(ps: ParamTable, requests: seq<Request>): ParamTable
    requires forall r :: r in requests ==> r.Valid()
    decreases |requests|
  {
    if requests == [] then ps
    else
      assert requests[|requests| - 1] in requests;
      Answered(AllAnswered(ps, requests[..|requests| - 1]), requests[|requests| - 1])
  }
}
