/** What the host sees over whole runs: the events of every call, read as a stream of notes per channel. */
module ProxyRuns {
  import opened Midi
  import opened Sequences
  import opened Distortion
  import opened Params
  import opened ProxyModel
  import opened ProxyInvariant
  import opened Retargeting

  // ---- Reading a stream of events ----

  /** The pitch and velocity sounding on each channel. */
  type Held = map<Byte, (Byte, Byte)>

  function After(held: Held, e: Event): Held {
    if e.command == NOTE_ON then held[e.channel := (e.data1, e.data2)]
    else if e.command == NOTE_OFF then held - {e.channel}
    else held
  }

  function AfterAll(held: Held, events: seq<Event>): Held
    decreases |events|
  {
    if events == [] then held else AfterAll(After(held, events[0]), events[1..])
  }

  /**
   A note-on only comes on a silent channel, a note-off only on a sounding one and with the pitch that
   sounds there; with `overridden` it also carries the velocity of the note-on.
   */
  predicate Fits(held: Held, e: Event, overridden: bool) {
    (e.command == NOTE_ON ==> e.channel !in held)
    && (e.command == NOTE_OFF ==>
          e.channel in held && held[e.channel].0 == e.data1 && (overridden ==> held[e.channel].1 == e.data2))
  }

  predicate Paired(held: Held, events: seq<Event>, overridden: bool)
    decreases |events|
  {
    events == [] || (Fits(held, events[0], overridden) && Paired(After(held, events[0]), events[1..], overridden))
  }

  ghost predicate NoNotes(events: seq<Event>) {
    forall e :: e in events ==> e.command != NOTE_ON && e.command != NOTE_OFF
  }

  lemma {:induction false} PairedConcat(held: Held, a: seq<Event>, b: seq<Event>, overridden: bool)
    ensures AfterAll(held, a + b) == AfterAll(AfterAll(held, a), b)
    ensures Paired(held, a + b, overridden)
      <==> Paired(held, a, overridden) && Paired(AfterAll(held, a), b, overridden)
    decreases |a|
  {
    if a == [] {
      assert a + b == b;
    } else {
      assert (a + b)[0] == a[0] && (a + b)[1..] == a[1..] + b;
      PairedConcat(After(held, a[0]), a[1..], b, overridden);
    }
  }

  lemma {:induction false} NoNotesPaired(held: Held, events: seq<Event>, overridden: bool)
    requires NoNotes(events)
    ensures Paired(held, events, overridden) && AfterAll(held, events) == held
  {
    if events != [] {
      assert events[0] in events;
      NoNotesPaired(held, events[1..], overridden);
    }
  }

  lemma {:induction false} OverriddenIsStronger(held: Held, events: seq<Event>)
    requires Paired(held, events, true)
    ensures Paired(held, events, false)
    decreases |events|
  {
    if events != [] {
      OverriddenIsStronger(After(held, events[0]), events[1..]);
    }
  }

  // ---- Which emitters send no notes ----

  lemma ControlEventsNoNotes(t: real, channel: Byte, cc: nat, value: real, setup: bool)
    ensures NoNotes(ControlEvents(t, channel, cc, value, setup))
  {
    hide FloatToWord, FloatToByte;
  }

  lemma NewNoteResetNoNotes(s: State, t: real, i: nat, setup: bool)
    requires s.voices.notes != [] && i < RULES
    ensures NoNotes(NewNoteReset(s, t, i, setup))
  {
    hide RuleAt, ControlEvents, Rule.Distort, WithinSpecs, TargetNote;
    forall channel, cc, value, flag
      ensures NoNotes(ControlEvents(t, channel, cc, value, flag))
    {
      ControlEventsNoNotes(t, channel, cc, value, flag);
    }
  }

  lemma {:induction false} NewNoteResetsNoNotes(s: State, t: real, n: nat, setup: bool)
    requires s.voices.notes != [] && n <= RULES
    ensures NoNotes(NewNoteResets(s, t, n, setup))
  {
    hide NewNoteReset;
    if n > 0 {
      NewNoteResetsNoNotes(s, t, n - 1, setup);
      NewNoteResetNoNotes(s, t, n - 1, setup);
    }
  }

  lemma {:induction false} NoteOffResetsNoNotes(s: State, before: seq<Byte>, t: real, wasAbove: bool, n: nat)
    requires n <= RULES
    ensures NoNotes(NoteOffResets(s, before, t, wasAbove, n))
  {
    hide RuleAt, ControlEvents, Rule.Distort, WithinSpecs, TargetNote;
    if n > 0 {
      NoteOffResetsNoNotes(s, before, t, wasAbove, n - 1);
      forall channel, cc, value, flag
        ensures NoNotes(ControlEvents(t, channel, cc, value, flag))
      {
        ControlEventsNoNotes(t, channel, cc, value, flag);
      }
    }
  }

  lemma {:induction false} FanOutNoNotes(t: real, channels: seq<Byte>, cc: nat, value: real)
    ensures NoNotes(FanOut(t, channels, cc, value))
    decreases |channels|
  {
    hide ControlEvents;
    if channels != [] {
      FanOutNoNotes(t, channels[..|channels| - 1], cc, value);
      ControlEventsNoNotes(t, channels[|channels| - 1], cc, value, false);
    }
  }

  lemma {:induction false} RoutedEventsNoNotes(s: State, t: real, cc: nat, value: Ratio, n: nat)
    requires n <= RULES
    ensures NoNotes(RoutedEvents(s, t, cc, value, n))
  {
    hide RuleAt, TargetChannels, Rule.Distort, WithinSpecs, FanOut;
    if n > 0 {
      RoutedEventsNoNotes(s, t, cc, value, n - 1);
      var rule := RuleAt(s.params, n - 1);
      FanOutNoNotes(t, TargetChannels(s, rule), rule.outCc, rule.Distort(value, s.curves));
    }
  }

  lemma {:induction false} GlobalResetsNoNotes(ps: ParamTable, manager: Byte, curves: Curves, n: nat)
    requires n <= RULES
    ensures NoNotes(GlobalResets(ps, manager, curves, n))
  {
    hide RuleAt, ControlEvents, Rule.Distort, WithinSpecs;
    if n > 0 {
      GlobalResetsNoNotes(ps, manager, curves, n - 1);
      forall cc, value
        ensures NoNotes(ControlEvents(0.0, manager, cc, value, false))
      {
        ControlEventsNoNotes(0.0, manager, cc, value, false);
      }
    }
  }

  lemma McmsNoNotes(ps: ParamTable, zone: Zone)
    requires zone.Valid()
    ensures NoNotes(Mcms(ps, zone))
  {
    hide WithinSpecs;
  }

  // ---- The stream agrees with the state ----

  /** The stream has exactly the active notes sounding, each on its channel at its transposed pitch. */
  ghost predicate Tracks(held: Held, v: Voices, zone: Zone) {
    (forall n :: n in v.notes ==>
       n <= NOTE_MAX && v.channelOf[n] in held && held[v.channelOf[n]] == (zone.Transpose(n), v.velocityOf[n]))
    && (forall c :: c in held ==> exists n :: n in v.notes && n <= NOTE_MAX && v.channelOf[n] == c)
  }

  lemma TracksStopped(held: Held, v: Voices, zone: Zone, note: Byte)
    requires Playing(v) && note in v.notes && note <= NOTE_MAX && Tracks(held, v, zone)
    ensures Tracks(held - {v.channelOf[note]}, v.Stopped(note), zone)
  {
    hide Zone.Transpose, Without;
    PlayingStopped(v, note);
    WithoutMembers(v.notes, note);
  }

  lemma TracksStarted(held: Held, v: Voices, zone: Zone, channel: Byte, note: Byte, velocity: Byte)
    requires NotesValid(v) && note <= NOTE_MAX && note !in v.notes && Tracks(held, v, zone)
    requires forall n :: n in v.notes ==> n <= NOTE_MAX && v.channelOf[n] != channel
    ensures channel !in held
    ensures Tracks(held[channel := (zone.Transpose(note), velocity)], v.Started(channel, note, velocity), zone)
  {
    hide Zone.Transpose;
    var w := v.Started(channel, note, velocity);
    assert w.notes[0] == note && forall n :: n in w.notes <==> n == note || n in v.notes;
  }

  /** One note event among events that are no note events. */
  lemma OneNotePaired(held: Held, before: seq<Event>, e: Event, after: seq<Event>, overridden: bool)
    requires NoNotes(before) && NoNotes(after) && Fits(held, e, overridden)
    ensures Paired(held, before + [e] + after, overridden)
    ensures AfterAll(held, before + [e] + after) == After(held, e)
  {
    PairedConcat(held, before + [e], after, overridden);
    PairedConcat(held, before, [e], overridden);
    NoNotesPaired(held, before, overridden);
    NoNotesPaired(After(held, e), after, overridden);
    assert [e][1..] == [];
    assert AfterAll(held, [e]) == After(held, e) && Paired(held, [e], overridden);
  }

  lemma StopNotePaired(s: State, t: real, note: Byte, velocity: Byte, held: Held)
    requires Playing(s.voices) && note in s.voices.notes && note <= NOTE_MAX && Tracks(held, s.voices, s.zone)
    ensures var step := StopNote(s, t, note, velocity);
      && Paired(held, step.events, s.OverridesRelease())
      && Tracks(AfterAll(held, step.events), step.state.voices, s.zone)
  {
    hide NoteOffResets, Zone.Transpose, Paired, AfterAll, Without, NotesValid, WithinSpecs;
    var stopped := s.(voices := s.voices.Stopped(note));
    var resets := NoteOffResets(stopped, s.voices.notes, t, note >= s.zone.anchor, RULES);
    var v := if s.OverridesRelease() then s.voices.velocityOf[note] else velocity;
    var off := NoteEvent(t, NOTE_OFF, s.voices.channelOf[note], s.zone.Transpose(note), v);
    NoteOffResetsNoNotes(stopped, s.voices.notes, t, note >= s.zone.anchor, RULES);
    assert [] + [off] + resets == [off] + resets;
    OneNotePaired(held, [], off, resets, s.OverridesRelease());
    TracksStopped(held, s.voices, s.zone, note);
  }

  lemma StartNotePaired(s: State, t: real, channel: Byte, note: Byte, velocity: Byte, held: Held)
    requires NotesValid(s.voices) && note <= NOTE_MAX && note !in s.voices.notes && Tracks(held, s.voices, s.zone)
    requires channel <= CHANNEL_MAX
    requires forall n :: n in s.voices.notes ==> n <= NOTE_MAX && s.voices.channelOf[n] != channel
    ensures var step := StartNote(s, t, channel, note, velocity);
      && Paired(held, step.events, s.OverridesRelease())
      && Tracks(AfterAll(held, step.events), step.state.voices, s.zone)
  {
    hide NewNoteResets, Zone.Transpose, Paired, AfterAll, NotesValid, WithinSpecs, Tracks;
    var started := s.(voices := s.voices.Started(channel, note, velocity));
    var on := NoteEvent(t, NOTE_ON, channel, s.zone.Transpose(note), velocity);
    NewNoteResetsNoNotes(started, t, RULES, true);
    NewNoteResetsNoNotes(started, t, RULES, false);
    TracksStarted(held, s.voices, s.zone, channel, note, velocity);
    OneNotePaired(held, NewNoteResets(started, t, RULES, true), on, NewNoteResets(started, t, RULES, false),
                  s.OverridesRelease());
  }

  // ---- Calls ----

  /** What every call keeps between the stream of events and the state. */
  ghost predicate Follows(held: Held, s: State, step: Step) {
    Paired(held, step.events, s.OverridesRelease())
    && Tracks(AfterAll(held, step.events), step.state.voices, step.state.zone)
  }

  lemma FollowsThen(held: Held, s: State, a: Step, b: Step)
    requires Follows(held, s, a) && Follows(AfterAll(held, a.events), s, b)
    ensures Follows(held, s, a.Then(b))
  {
    PairedConcat(held, a.events, b.events, s.OverridesRelease());
  }

  /** Controller events change nothing in the stream of notes. */
  lemma FollowsQuietly(held: Held, s: State, step: Step)
    requires NoNotes(step.events) && Tracks(held, step.state.voices, step.state.zone)
    ensures Follows(held, s, step)
  {
    NoNotesPaired(held, step.events, s.OverridesRelease());
  }

  lemma SoundingElsewhere(v: Voices, zone: Zone, channel: Byte)
    requires zone.Valid() && NotesValid(v) && InHand(v, zone, channel)
    ensures channel <= CHANNEL_MAX && forall n :: n in v.notes ==> n <= NOTE_MAX && v.channelOf[n] != channel
  {
    hide NotesValid, Zone.Members;
    FreedKeeps(v, zone, channel);
    ConservedMeans(v.Freed(channel), zone);
    forall n | n in v.notes
      ensures n <= NOTE_MAX && v.channelOf[n] != channel
    {
      ChannelsInjective(v.Freed(channel), zone, n, n);
      assert channel in v.Freed(channel).free;
    }
    assert channel in v.Freed(channel).free;
  }

  lemma ReplaceFollows(s: State, t: real, victim: Byte, note: Byte, velocity: Byte, held: Held)
    requires Sane(s) && victim in s.voices.notes && victim <= NOTE_MAX && note <= NOTE_MAX
    requires (note == victim || note !in s.voices.notes) && Tracks(held, s.voices, s.zone)
    ensures Follows(held, s, Replace(s, t, victim, note, velocity))
  {
    hide StartNote, StopNote, Tracks, Paired, AfterAll, InHand, NotesValid, Conserved, Playing, WithinSpecs;
    SaneMeans(s);
    SanePlaying(s);
    StopFacts(s, t, victim, 64);
    StopNotePaired(s, t, victim, 64, held);
    var stop := StopNote(s, t, victim, 64);
    var channel := s.voices.channelOf[victim];
    SoundingElsewhere(stop.state.voices, s.zone, channel);
    StartNotePaired(stop.state, t, channel, note, velocity, AfterAll(held, stop.events));
    StartNoteFacts(stop.state, t, channel, note, velocity);
    FollowsThen(held, s, stop, StartNote(stop.state, t, channel, note, velocity));
  }

  lemma StartNoteFacts(s: State, t: real, channel: Byte, note: Byte, velocity: Byte)
    requires note <= NOTE_MAX
    ensures StartNote(s, t, channel, note, velocity).state == s.(voices := s.voices.Started(channel, note, velocity))
  {
  }

  lemma NoteOnFollows(s: State, t: real, note: Byte, velocity: Byte, held: Held)
    requires Inv(s) && note <= NOTE_MAX && Tracks(held, s.voices, s.zone)
    ensures forall n :: n in s.voices.notes ==> n <= NOTE_MAX
    ensures Follows(held, s, NoteOn(s, t, note, velocity))
  {
    hide StartNote, Replace, Tracks, Sane, WithinSpecs, Conserved, Extreme;
    InvMeans(s);
    FollowsQuietly(held, s, Step(s, []));
    if s.suspended {
    } else if note in s.voices.notes {
      ReplaceFollows(s, t, note, note, velocity, held);
    } else if s.voices.free == [] {
      if Victim(s).Some? {
        ReplaceFollows(s, t, Victim(s).value, note, velocity, held);
      }
    } else {
      PlayFollows(s, t, note, velocity, held);
    }
  }

  lemma PlayFollows(s: State, t: real, note: Byte, velocity: Byte, held: Held)
    requires Sane(s) && note <= NOTE_MAX && note !in s.voices.notes && s.voices.free != []
    requires Tracks(held, s.voices, s.zone)
    ensures var taken := s.(voices := s.voices.(free := s.voices.free[1..]));
      Follows(held, s, StartNote(taken, t, s.voices.free[0], note, velocity))
  {
    hide StartNote, InHand, WithinSpecs;
    TakeFreeFacts(s);
    var taken := s.(voices := s.voices.(free := s.voices.free[1..]));
    SoundingElsewhere(taken.voices, s.zone, s.voices.free[0]);
    StartNotePaired(taken, t, s.voices.free[0], note, velocity, held);
    StartNoteFacts(taken, t, s.voices.free[0], note, velocity);
  }

  lemma ReleaseFollows(s: State, t: real, note: Byte, velocity: Byte, held: Held)
    requires Sane(s) && note in s.voices.notes && note <= NOTE_MAX && Tracks(held, s.voices, s.zone)
    ensures Follows(held, s, ReleaseNote(s, t, note, velocity))
  {
    hide StopNote, WithinSpecs, Paired, AfterAll, Playing;
    SanePlaying(s);
    StopFacts(s, t, note, velocity);
    StopNotePaired(s, t, note, velocity, held);
  }

  lemma NoteOffFollows(s: State, t: real, note: Byte, velocity: Byte, held: Held)
    requires Inv(s) && note <= NOTE_MAX && Tracks(held, s.voices, s.zone)
    ensures Follows(held, s, NoteOff(s, t, note, velocity))
  {
    hide ReleaseNote, Sane, WithinSpecs;
    if s.suspended || note !in s.voices.notes || (s.HandlesPedal() && s.pedalDown) {
      FollowsQuietly(held, s, NoteOff(s, t, note, velocity));
    } else {
      ReleaseFollows(s, t, note, velocity, held);
    }
  }

  lemma TracksElsewhere(held: Held, v: Voices, w: Voices, zone: Zone)
    requires Tracks(held, v, zone) && w.notes == v.notes && w.channelOf == v.channelOf && w.velocityOf == v.velocityOf
    ensures Tracks(held, w, zone)
  {
    hide Zone.Transpose;
  }

  lemma {:induction false} ReleaseDeferredFollows(s: State, t: real, held: Held)
    requires Sane(s) && Tracks(held, s.voices, s.zone)
    ensures forall n :: n in s.voices.deferred ==> n <= NOTE_MAX
    ensures Follows(held, s, ReleaseDeferred(s, t))
    decreases |s.voices.deferred|
  {
    hide ReleaseNote, Tracks, WithinSpecs, Conserved, Paired, AfterAll;
    if s.voices.deferred == [] {
      FollowsQuietly(held, s, Step(s, []));
    } else {
      var note := s.voices.deferred[0];
      SaneMeans(s);
      assert note in s.voices.deferred && note in s.voices.notes;
      var velocity := s.voices.releaseVelocityOf[note];
      PoppedRelease(s, t, velocity);
      var step := ReleaseNote(PopDeferred(s), t, note, velocity);
      TracksElsewhere(held, s.voices, PopDeferred(s).voices, s.zone);
      ReleaseFollows(PopDeferred(s), t, note, velocity, held);
      ReleaseKeepsRest(PopDeferred(s), t, note, velocity);
      ReleaseDeferredFollows(step.state, t, AfterAll(held, step.events));
      FollowsThen(held, s, step, ReleaseDeferred(step.state, t));
    }
  }

  lemma ReleaseKeepsRest(s: State, t: real, note: Byte, velocity: Byte)
    requires note <= NOTE_MAX
    ensures var r := ReleaseNote(s, t, note, velocity).state; r == s.(voices := r.voices)
  {
    hide StopNote;
  }

  lemma ControlFollows(s: State, t: real, cc: nat, value: Ratio, held: Held)
    requires Inv(s) && Tracks(held, s.voices, s.zone)
    ensures forall n :: n in s.voices.deferred ==> n <= NOTE_MAX
    ensures Follows(held, s, Control(s, t, cc, value))
  {
    hide Tracks, WithinSpecs, Sane, ReleaseDeferred, RoutedEvents, ControlEvents, Listens, RuleAt, Conserved;
    InvMeans(s);
    RoutedEventsNoNotes(s, t, cc, value, RULES);
    ControlEventsNoNotes(t, s.zone.manager, cc, value, false);
    LearnedSettings(s.params, cc, RULES);
    var noted := Noted(s, cc, value, RULES);
    var events := if exists i :: 0 <= i < RULES && Listens(RuleAt(s.params, i), cc)
      then RoutedEvents(s, t, cc, value, RULES) else ControlEvents(t, s.zone.manager, cc, value, false);
    var pedalled := noted.(pedalDown := value >= 0.5);
    FollowsQuietly(held, s, Step(noted, events));
    FollowsQuietly(held, s, Step(pedalled, events));
    NoNotesPaired(held, events, false);
    if s.HandlesPedal() && cc == SUSTAIN_PEDAL && value < 0.5 {
      SaneElsewhere(s, pedalled);
      ReleaseDeferredFollows(pedalled, t, held);
      FollowsThen(held, s, Step(pedalled, events), ReleaseDeferred(pedalled, t));
    }
  }

  lemma SaneElsewhere(s: State, r: State)
    requires Sane(s) && r.voices == s.voices && r.zone == s.zone
    ensures Sane(r)
  {
  }

  lemma {:induction false} StopEachFollows(s: State, held: Held)
    requires Playing(s.voices) && Tracks(held, s.voices, s.zone)
    ensures forall n :: n in s.voices.notes ==> n <= NOTE_MAX
    ensures Follows(held, s, StopEach(s))
    decreases |s.voices.notes|
  {
    hide Tracks, WithinSpecs, StopNote, ControlEvents, Paired, AfterAll, Injective;
    if s.voices.notes == [] {
      FollowsQuietly(held, s, Step(s, []));
    } else {
      var note := s.voices.notes[0];
      StopEachStep(s);
      PlayingStopped(s.voices, note);
      var stop := StopNote(s, 0.0, note, 64);
      var pedal := Step(s, ControlEvents(0.0, s.voices.channelOf[note], SUSTAIN_PEDAL, 0.0, false));
      ControlEventsNoNotes(0.0, s.voices.channelOf[note], SUSTAIN_PEDAL, 0.0, false);
      FollowsQuietly(held, s, pedal);
      NoNotesPaired(held, pedal.events, false);
      StopNotePaired(s, 0.0, note, 64, held);
      FollowsThen(held, s, pedal, stop);
      PairedConcat(held, pedal.events, stop.events, false);
      StopEachFollows(stop.state, AfterAll(held, stop.events));
      FollowsThen(held, s, pedal.Then(stop), StopEach(stop.state));
    }
  }

  /** After a restart the stream is silent: every note-on has had its note-off. */
  lemma RestartFollows(s: State, zone: Zone, held: Held)
    requires Inv(s) && zone.Valid() && Tracks(held, s.voices, s.zone)
    ensures forall n :: n in s.voices.notes ==> n <= NOTE_MAX
    ensures Follows(held, s, Restart(s, zone))
    ensures AfterAll(held, Restart(s, zone).events) == map[]
  {
    hide WithinSpecs, StopEach, ControlEvents, GlobalResets, Mcms, InitialInputs, Playing, Conserved, Paired, AfterAll;
    InvMeans(s);
    SanePlaying(s);
    StopAllEmpties(s);
    StopEachFollows(s, held);
    var o := s.OverridesRelease();
    var pedal := if s.voices.notes == [] then [] else ControlEvents(0.0, s.zone.manager, SUSTAIN_PEDAL, 0.0, false);
    var each := StopEach(s).events;
    var news := Mcms(s.params, zone) + GlobalResets(s.params, zone.manager, s.curves, RULES);
    ControlEventsNoNotes(0.0, s.zone.manager, SUSTAIN_PEDAL, 0.0, false);
    McmsNoNotes(s.params, zone);
    GlobalResetsNoNotes(s.params, zone.manager, s.curves, RULES);
    NoNotesPaired(held, pedal, o);
    PairedConcat(held, pedal, each, o);
    PairedConcat(held, pedal + each, news, o);
    NoNotesPaired(AfterAll(held, each), news, o);
    assert Restart(s, zone).events == (pedal + each) + news;
  }

  // ---- Runs ----

  datatype Call =
    | PlayNote(t: real, note: Byte, velocity: Byte)
    | ReleaseKey(t: real, note: Byte, velocity: Byte)
    | Controller(t: real, cc: nat, raw: int, value: Ratio)
    | SetParam(id: nat, ratio: real)
    | Suspend
    | Resume
    | Block
  {
    predicate Valid() {
      match this
      case PlayNote(_, note, _) => note <= NOTE_MAX
      case ReleaseKey(_, note, _) => note <= NOTE_MAX
      case SetParam(id, _) => id < PARAM_ID_COUNT
      case _ => true
    }
  }

  /** The notes of the state are notes; all that the functions of the model ask of a state. */
  ghost predicate HasNotes(s: State) {
    (forall n :: n in s.voices.notes ==> n <= NOTE_MAX) && (forall n :: n in s.voices.deferred ==> n <= NOTE_MAX)
  }

  ghost function Apply(s: State, call: Call): Step
    requires HasNotes(s) && call.Valid()
  {
    match call
    case PlayNote(t, note, velocity) => NoteOn(s, t, note, velocity)
    case ReleaseKey(t, note, velocity) => NoteOff(s, t, note, velocity)
    case Controller(t, cc, raw, value) => ControlMessage(s, t, cc, raw, value)
    case SetParam(id, ratio) => Step(s.(params := SetRatio(s.params, id, ratio)), [])
    case Suspend => Step(s.(suspended := true), [])
    case Resume => Reset(s.(suspended := false))
    case Block => BeginBlock(s)
  }

  /** The calls that stop everything. */
  ghost predicate Restarts(s: State, call: Call) {
    call.Resume? || (call.Block? && !s.suspended && ConfiguredZone(s.params) != s.zone)
  }

  lemma InvHasNotes(s: State)
    requires Inv(s)
    ensures HasNotes(s)
  {
    InvMeans(s);
  }

  lemma SaneHasNotes(s: State)
    requires Sane(s)
    ensures HasNotes(s)
  {
    SaneMeans(s);
  }

  lemma ApplyKeeps(s: State, call: Call)
    requires Inv(s) && call.Valid()
    ensures HasNotes(s) && Inv(Apply(s, call).state)
  {
    hide Sane, WithinSpecs, NoteOn, NoteOff, Control, Restart, ConfiguredZone, SetRatio;
    InvHasNotes(s);
    match call {
      case PlayNote(t, note, velocity) => NoteOnKeeps(s, t, note, velocity);
      case ReleaseKey(t, note, velocity) => NoteOffKeeps(s, t, note, velocity);
      case Controller(t, cc, raw, value) =>
        var seen := s.(seen := s.seen[cc := (t, raw)]);
        SaneElsewhere(s, seen);
        ControlKeeps(seen, t, cc, value);
      case SetParam(id, ratio) => SaneElsewhere(s, s.(params := SetRatio(s.params, id, ratio)));
      case Suspend => SaneElsewhere(s, s.(suspended := true));
      case Resume =>
        SaneElsewhere(s, s.(suspended := false));
        ConfiguredZoneValid(s.params);
        RestartKeeps(s.(suspended := false), ConfiguredZone(s.params));
      case Block =>
        ConfiguredZoneValid(s.params);
        RestartKeeps(s, ConfiguredZone(s.params));
    }
  }

  lemma ConfiguredZoneValid(ps: ParamTable)
    ensures ConfiguredZone(ps).Valid()
  {
  }

  /** Every call keeps the stream of events paired, and in step with the state. */
  lemma ApplyFollows(s: State, call: Call, held: Held)
    requires Inv(s) && call.Valid() && Tracks(held, s.voices, s.zone)
    ensures HasNotes(s) && Follows(held, s, Apply(s, call))
  {
    hide Sane, WithinSpecs, NoteOn, NoteOff, Control, Restart, ConfiguredZone, SetRatio, Tracks, Paired, AfterAll;
    InvHasNotes(s);
    FollowsQuietly(held, s, Step(s, []));
    match call {
      case PlayNote(t, note, velocity) => NoteOnFollows(s, t, note, velocity, held);
      case ReleaseKey(t, note, velocity) => NoteOffFollows(s, t, note, velocity, held);
      case Controller(t, cc, raw, value) =>
        var seen := s.(seen := s.seen[cc := (t, raw)]);
        SaneElsewhere(s, seen);
        ControlFollows(seen, t, cc, value, held);
      case SetParam(id, ratio) => FollowsQuietly(held, s, Step(s.(params := SetRatio(s.params, id, ratio)), []));
      case Suspend => FollowsQuietly(held, s, Step(s.(suspended := true), []));
      case Resume =>
        SaneElsewhere(s, s.(suspended := false));
        ConfiguredZoneValid(s.params);
        RestartFollows(s.(suspended := false), ConfiguredZone(s.params), held);
      case Block =>
        ConfiguredZoneValid(s.params);
        RestartFollows(s, ConfiguredZone(s.params), held);
    }
  }

  ghost predicate AllValid(calls: seq<Call>) {
    forall c :: c in calls ==> c.Valid()
  }

  /** The state after some calls, and all the events on the way. */
  ghost function Run(s: State, calls: seq<Call>): Step
    requires Inv(s) && AllValid(calls)
    ensures Inv(Run(s, calls).state)
    decreases |calls|
  {
    if calls == [] then Step(s, [])
    else
      assert calls[0] in calls;
      ApplyKeeps(s, calls[0]);
      var first := Apply(s, calls[0]);
      first.Then(Run(first.state, calls[1..]))
  }

  /** Each of the calls starts with release velocities being overridden. */
  ghost predicate OverridesThroughout(s: State, calls: seq<Call>)
    requires Inv(s) && AllValid(calls)
    decreases |calls|
  {
    calls != [] ==>
      assert calls[0] in calls;
      ApplyKeeps(s, calls[0]);
      s.OverridesRelease() && OverridesThroughout(Apply(s, calls[0]).state, calls[1..])
  }

  /** The events of every call are paired, in velocity too when that call starts with velocities being overridden. */
  ghost predicate PairedCallByCall(held: Held, s: State, calls: seq<Call>)
    requires Inv(s) && AllValid(calls)
    decreases |calls|
  {
    calls != [] ==>
      assert calls[0] in calls;
      ApplyKeeps(s, calls[0]);
      var step := Apply(s, calls[0]);
      Paired(held, step.events, s.OverridesRelease())
      && PairedCallByCall(AfterAll(held, step.events), step.state, calls[1..])
  }

  /** Pairing over whole runs, from any state that the stream agrees with. */
  lemma {:induction false} RunFollows(s: State, calls: seq<Call>, held: Held)
    requires Inv(s) && AllValid(calls) && Tracks(held, s.voices, s.zone)
    ensures var run := Run(s, calls);
      && Paired(held, run.events, false) && PairedCallByCall(held, s, calls)
      && Tracks(AfterAll(held, run.events), run.state.voices, run.state.zone)
      && (OverridesThroughout(s, calls) ==> Paired(held, run.events, true))
    decreases |calls|
  {
    hide Apply, Tracks, Inv, WithinSpecs, Paired, AfterAll;
    if calls == [] {
      NoNotesPaired(held, [], false);
      NoNotesPaired(held, [], true);
    } else {
      assert calls[0] in calls;
      ApplyKeeps(s, calls[0]);
      ApplyFollows(s, calls[0], held);
      var first := Apply(s, calls[0]);
      var rest := Run(first.state, calls[1..]);
      RunFollows(first.state, calls[1..], AfterAll(held, first.events));
      PairedConcat(held, first.events, rest.events, false);
      PairedConcat(held, first.events, rest.events, true);
      if s.OverridesRelease() {
        OverriddenIsStronger(held, first.events);
      }
    }
  }

  lemma {:induction false} RunConcat(s: State, a: seq<Call>, b: seq<Call>)
    requires Inv(s) && AllValid(a) && AllValid(b)
    ensures AllValid(a + b) && Run(s, a + b) == Run(s, a).Then(Run(Run(s, a).state, b))
    decreases |a|
  {
    hide Apply, Inv, Call.Valid, WithinSpecs;
    if a == [] {
      assert a + b == b;
    } else {
      assert a[0] in a && (a + b)[0] == a[0] && (a + b)[1..] == a[1..] + b;
      ApplyKeeps(s, a[0]);
      var first := Apply(s, a[0]);
      RunConcat(first.state, a[1..], b);
      var mid := Run(first.state, a[1..]);
      Joined(first.events, mid.events, Run(mid.state, b).events);
    }
  }

  lemma RunStep(s: State, call: Call, rest: seq<Call>)
    requires Inv(s) && call.Valid() && AllValid(rest)
    ensures AllValid([call] + rest) && HasNotes(s) && Inv(Apply(s, call).state)
    ensures Run(s, [call] + rest) == Apply(s, call).Then(Run(Apply(s, call).state, rest))
  {
    hide Apply, Inv, WithinSpecs, Call.Valid;
    assert ([call] + rest)[0] == call && ([call] + rest)[1..] == rest;
    ApplyKeeps(s, call);
  }

  /** A call that may switch the overriding of release velocities on or off. */
  predicate SetsOverride(call: Call) {
    call.SetParam? && call.id == Z1ORV
  }

  lemma OverrideStays(s: State, call: Call)
    requires Inv(s) && call.Valid() && HasNotes(s) && !SetsOverride(call)
    ensures Apply(s, call).state.OverridesRelease() == s.OverridesRelease()
  {
    hide WithinSpecs, Conserved, NewNoteResets, NoteOffResets, RoutedEvents, ControlEvents, Listens, Learned, WithRatio;
    hide NotedInputs, StopEach, GlobalResets, Mcms, InitialInputs, ConfiguredZone, ReleaseDeferred, Extreme, Sane;
    InvMeans(s);
    StopAllEmpties(s);
    SaneElsewhere(s, s.(suspended := false));
    StopAllEmpties(s.(suspended := false));
    if call.Controller? {
      LearnedSettings(s.params, call.cc, RULES);
      var seen := s.(seen := s.seen[call.cc := (call.t, call.raw)]);
      ReleaseDeferredKeepsRest(Noted(seen, call.cc, call.value, RULES).(pedalDown := false), call.t);
    }
  }

  lemma {:induction false} ReleaseDeferredKeepsRest(s: State, t: real)
    requires forall n :: n in s.voices.deferred ==> n <= NOTE_MAX
    ensures var r := ReleaseDeferred(s, t).state; r == s.(voices := r.voices)
    decreases |s.voices.deferred|
  {
    hide ReleaseNote, WithinSpecs;
    if s.voices.deferred != [] {
      var note := s.voices.deferred[0];
      assert note in s.voices.deferred;
      var velocity := s.voices.releaseVelocityOf[note];
      ReleaseKeepsRest(PopDeferred(s), t, note, velocity);
      PoppedShorter(s, t, note, velocity);
      ReleaseDeferredKeepsRest(ReleaseNote(PopDeferred(s), t, note, velocity).state, t);
    }
  }

  lemma PoppedShorter(s: State, t: real, note: Byte, velocity: Byte)
    requires s.voices.deferred != [] && note == s.voices.deferred[0] && note <= NOTE_MAX
    ensures var rest := ReleaseNote(PopDeferred(s), t, note, velocity).state.voices.deferred;
      && |rest| < |s.voices.deferred| && forall n :: n in rest ==> n in s.voices.deferred
  {
    hide NoteOffResets, WithinSpecs;
    FirstAndRest(s.voices.deferred);
    WithoutMembers(s.voices.deferred[1..], note);
  }

  lemma {:induction false} OverrideStaysThroughout(s: State, calls: seq<Call>)
    requires Inv(s) && AllValid(calls) && s.OverridesRelease() && forall c :: c in calls ==> !SetsOverride(c)
    ensures OverridesThroughout(s, calls)
    decreases |calls|
  {
    hide Apply, Inv, WithinSpecs, SetsOverride, Call.Valid;
    if calls != [] {
      assert calls[0] in calls;
      ApplyKeeps(s, calls[0]);
      OverrideStays(s, calls[0]);
      OverrideStaysThroughout(Apply(s, calls[0]).state, calls[1..]);
    }
  }

  ghost function PowerOn(curves: Curves): (s: State)
    ensures Inv(s) && s.voices.notes == [] && s.voices.deferred == []
  {
    InitialKeeps(curves);
    InitialState(curves)
  }

  lemma PowerOnTracks(curves: Curves)
    ensures Tracks(map[], PowerOn(curves).voices, PowerOn(curves).zone)
  {
    hide Inv, WithinSpecs, PowerOn;
  }

  /**
   The stream of the model, whatever is played from power-on: on each channel note-ons and note-offs alternate
   and agree in pitch, the events of a call that starts with velocities being overridden agree in velocity too,
   and at the end exactly the active notes sound. The class obeys this in safe runs, see ProxyHost.
   */
  lemma EveryRunIsPaired(curves: Curves, calls: seq<Call>)
    requires AllValid(calls)
    ensures var run := Run(PowerOn(curves), calls);
      && Paired(map[], run.events, false) && PairedCallByCall(map[], PowerOn(curves), calls)
      && Tracks(AfterAll(map[], run.events), run.state.voices, run.state.zone)
  {
    hide Run, Inv, WithinSpecs, PowerOn, PairedCallByCall, Tracks;
    PowerOnTracks(curves);
    RunFollows(PowerOn(curves), calls, map[]);
  }

  /** While every call starts with velocities being overridden, every note-off carries the velocity of its note-on. */
  lemma VelocitiesMatchWhileOverridden(curves: Curves, a: seq<Call>, b: seq<Call>)
    requires AllValid(a) && AllValid(b)
    ensures AllValid(a + b)
    ensures var first, run := Run(PowerOn(curves), a), Run(PowerOn(curves), a + b);
      OverridesThroughout(first.state, b) ==>
        first.events <= run.events && Paired(AfterAll(map[], first.events), run.events[|first.events|..], true)
  {
    hide Run, Inv, WithinSpecs, PowerOn, Paired, AfterAll, Tracks, OverridesThroughout, PairedCallByCall, Call.Valid;
    var start := PowerOn(curves);
    var first := Run(start, a);
    PowerOnTracks(curves);
    RunFollows(start, a, map[]);
    RunConcat(start, a, b);
    RunFollows(first.state, b, AfterAll(map[], first.events));
    var rest := Run(first.state, b).events;
    assert (first.events + rest)[|first.events|..] == rest;
  }

  /**
   Once the overriding of velocities has been switched on, this is so until the setting is touched again, also for
   notes that started before.
   */
  lemma VelocitiesMatchOnceOverridden(curves: Curves, a: seq<Call>, ratio: real, b: seq<Call>)
    requires AllValid(a) && AllValid(b) && ratio >= 0.5 && forall c :: c in b ==> !SetsOverride(c)
    ensures AllValid(a + [SetParam(Z1ORV, ratio)] + b)
    ensures var first := Run(PowerOn(curves), a);
      var run := Run(PowerOn(curves), a + [SetParam(Z1ORV, ratio)] + b);
      && first.events <= run.events
      && Paired(AfterAll(map[], first.events), run.events[|first.events|..], true)
  {
    hide Run, Inv, WithinSpecs, PowerOn, Paired, AfterAll, Apply, SetsOverride, OverridesThroughout, Call.Valid;
    var start, switch := PowerOn(curves), SetParam(Z1ORV, ratio);
    var first := Run(start, a);
    SwitchingOverrides(first.state, ratio);
    ApplyKeeps(first.state, switch);
    RunOne(first.state, switch);
    RunConcat(start, a, [switch]);
    assert Run(start, a + [switch]).events == first.events;
    OverrideStaysThroughout(Run(start, a + [switch]).state, b);
    VelocitiesMatchWhileOverridden(curves, a + [switch], b);
  }

  lemma RunOne(s: State, call: Call)
    requires Inv(s) && call.Valid()
    ensures AllValid([call]) && HasNotes(s) && Run(s, [call]) == Apply(s, call)
  {
    hide Apply, Inv, WithinSpecs, Call.Valid;
    assert [call] + [] == [call];
    RunStep(s, call, []);
    assert Apply(s, call).events + [] == Apply(s, call).events;
  }

  lemma SwitchingOverrides(s: State, ratio: real)
    requires Inv(s) && ratio >= 0.5
    ensures SetParam(Z1ORV, ratio).Valid() && HasNotes(s)
    ensures var step := Apply(s, SetParam(Z1ORV, ratio));
      step.state.OverridesRelease() && step.events == [] && step.state.voices == s.voices && step.state.zone == s.zone
  {
    hide WithinSpecs, Sane;
    InvHasNotes(s);
  }

  /**
   The state of the model after any run: each member channel is either free or sounds one note, never both and
   never twice. The ring and the lists of the class are in that state after safe runs, see ProxyHost.
   */
  lemma EveryRunConservesChannels(curves: Curves, calls: seq<Call>)
    requires AllValid(calls)
    ensures var s := Run(PowerOn(curves), calls).state;
      && s.zone.Valid() && Distinct(s.voices.free + s.voices.Channels())
      && (forall c :: c in s.zone.Members() <==> c in s.voices.free || c in s.voices.Channels())
      && |s.voices.notes| + |s.voices.free| == s.zone.count
  {
    hide Run, WithinSpecs, Conserved, PowerOn;
    var s := Run(PowerOn(curves), calls).state;
    ConservedMeans(s.voices, s.zone);
  }
}
