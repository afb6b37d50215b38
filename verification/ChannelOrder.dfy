/** The order in which channels are handed out: first freed, first reused, read off the emitted notes. */
module ChannelOrder {
  import opened Midi
  import opened Sequences
  import opened NoteStacks
  import opened Params
  import opened ProxyModel
  import opened ProxyInvariant
  import opened ProxyRuns
  import opened ProxyProperties

  function ChannelsIn(events: seq<Event>): (r: seq<Byte>)
    ensures |r| == |events| && forall i :: 0 <= i < |r| ==> r[i] == events[i].channel
  {
    seq(|events|, i requires 0 <= i < |events| => events[i].channel)
  }

  /**
   The channel a call has taken from the free ones: that of a note-on that no note-off of the same call made
   room for.
   */
  function Taken(events: seq<Event>): seq<Byte> {
    var notes := NotesOnly(events);
    if |notes| == 1 && notes[0].command == NOTE_ON then [notes[0].channel] else []
  }

  /** The channels a call has given back: those of its note-offs, unless a note-on of the same call follows. */
  function Returned(events: seq<Event>): seq<Byte> {
    var notes := NotesOnly(events);
    if notes != [] && notes[|notes| - 1].command == NOTE_OFF then ChannelsIn(notes) else []
  }

  /** Channels leave the free ones at the front and come back at the end. */
  ghost predicate MovesChannels(before: seq<Byte>, events: seq<Event>, after: seq<Byte>) {
    before + Returned(events) == Taken(events) + after
  }

  lemma ReplaceMoves(s: State, t: real, victim: Byte, note: Byte, velocity: Byte)
    requires Sane(s) && victim in s.voices.notes && victim <= NOTE_MAX && note <= NOTE_MAX
    ensures var step := Replace(s, t, victim, note, velocity);
      step.state.voices.free == s.voices.free && MovesChannels(s.voices.free, step.events, s.voices.free)
  {
    hide StartNote, StopNote, NotesOnly, WithinSpecs, NotesValid, Conserved, InHand, Zone.Transpose;
    SaneMeans(s);
    StopFacts(s, t, victim, 64);
    ChannelsInjective(s.voices, s.zone, victim, victim);
    var stop, channel := StopNote(s, t, victim, 64), s.voices.channelOf[victim];
    StopNoteSends(s, t, victim, 64);
    StartNoteSends(stop.state, t, channel, note, velocity);
    StartNoteFacts(stop.state, t, channel, note, velocity);
    NotesOnlyConcat(stop.events, StartNote(stop.state, t, channel, note, velocity).events);
  }

  lemma StartMoves(s: State, t: real, note: Byte, velocity: Byte)
    requires Sane(s) && note <= NOTE_MAX && s.voices.free != []
    ensures var taken := s.(voices := s.voices.(free := s.voices.free[1..]));
      var step := StartNote(taken, t, s.voices.free[0], note, velocity);
      step.state.voices.free == s.voices.free[1..] && MovesChannels(s.voices.free, step.events, s.voices.free[1..])
  {
    hide StartNote, NotesOnly, WithinSpecs, NotesValid, Zone.Transpose;
    ConservedMeans(s.voices, s.zone);
    var taken := s.(voices := s.voices.(free := s.voices.free[1..]));
    assert s.voices.free[0] in s.voices.free;
    StartNoteSends(taken, t, s.voices.free[0], note, velocity);
    StartNoteFacts(taken, t, s.voices.free[0], note, velocity);
  }

  lemma QuietMoves(events: seq<Event>, free: seq<Byte>)
    requires NoNotes(events)
    ensures MovesChannels(free, events, free)
  {
    NotesOnlyQuiet(events);
  }

  lemma NoteOnMoves(s: State, t: real, note: Byte, velocity: Byte)
    requires Inv(s) && HasNotes(s) && note <= NOTE_MAX
    ensures var step := NoteOn(s, t, note, velocity); MovesChannels(s.voices.free, step.events, step.state.voices.free)
  {
    hide StartNote, Replace, Extreme, Sane, WithinSpecs, MovesChannels;
    InvMeans(s);
    QuietMoves([], s.voices.free);
    if s.suspended {
    } else if note in s.voices.notes {
      ReplaceMoves(s, t, note, note, velocity);
    } else if s.voices.free == [] {
      if Victim(s).Some? {
        ReplaceMoves(s, t, Victim(s).value, note, velocity);
      }
    } else {
      StartMoves(s, t, note, velocity);
    }
  }

  lemma NoteOffMoves(s: State, t: real, note: Byte, velocity: Byte)
    requires Inv(s) && note <= NOTE_MAX
    ensures var step := NoteOff(s, t, note, velocity); MovesChannels(s.voices.free, step.events, step.state.voices.free)
  {
    hide StopNote, NotesOnly, WithinSpecs, NotesValid, Conserved, Zone.Transpose;
    QuietMoves([], s.voices.free);
    if !s.suspended && note in s.voices.notes {
      SaneMeans(s);
      ActiveStopSends(s, t, note, velocity);
    }
  }

  lemma ActiveStopSends(s: State, t: real, note: Byte, velocity: Byte)
    requires Sane(s) && note in s.voices.notes && note <= NOTE_MAX
    ensures NotesOnly(StopNote(s, t, note, velocity).events) == [OffEvent(s, t, note, velocity)]
  {
    SaneMeans(s);
    ChannelsInjective(s.voices, s.zone, note, note);
    StopNoteSends(s, t, note, velocity);
  }

  lemma {:induction false} DeferredOffsAre(s: State, t: real, deferred: seq<Byte>)
    requires forall n :: n in deferred ==> n <= NOTE_MAX
    ensures var offs := DeferredOffs(s, t, deferred);
      && ChannelsIn(offs) == ChannelsOf(deferred, s.voices.channelOf)
      && (forall e :: e in offs ==> e.command == NOTE_OFF)
  {
    hide OffEvent, WithinSpecs, ChannelsOf, ChannelsIn;
    NoChannels(s.voices.channelOf);
    NoneIn();
    if deferred != [] {
      assert deferred[0] in deferred && forall n :: n in deferred[1..] ==> n in deferred;
      DeferredOffsAre(s, t, deferred[1..]);
      OffEventIs(s, t, deferred[0], s.voices.releaseVelocityOf[deferred[0]]);
      FirstIn(OffEvent(s, t, deferred[0], s.voices.releaseVelocityOf[deferred[0]]), DeferredOffs(s, t, deferred[1..]));
      FirstChannel(deferred, s.voices.channelOf);
    }
  }

  lemma OffEventIs(s: State, t: real, note: Byte, velocity: Byte)
    requires note <= NOTE_MAX
    ensures var e := OffEvent(s, t, note, velocity);
      e.command == NOTE_OFF && e.channel == ChannelOf(s.voices.channelOf, note)
  {
    hide WithinSpecs, Zone.Transpose;
  }

  lemma NoneIn()
    ensures ChannelsIn([]) == []
  {
  }

  lemma FirstIn(e: Event, rest: seq<Event>)
    ensures ChannelsIn([e] + rest) == [e.channel] + ChannelsIn(rest)
  {
  }

  lemma ControllerMoves(s: State, t: real, cc: nat, raw: int, value: Ratio)
    requires Inv(s) && HasNotes(s)
    ensures var step := ControlMessage(s, t, cc, raw, value);
      MovesChannels(s.voices.free, step.events, step.state.voices.free)
  {
    hide Sane, WithinSpecs, RoutedEvents, ControlEvents, Listens, RuleAt, Learned, NotedInputs, ReleaseDeferred;
    hide NotesOnly;
    hide MovesChannels;
    InvMeans(s);
    QuietMoves([], s.voices.free);
    var seen := s.(seen := s.seen[cc := (t, raw)]);
    RoutedEventsNoNotes(seen, t, cc, value, RULES);
    ControlEventsNoNotes(t, seen.zone.manager, cc, value, false);
    var noted := Noted(seen, cc, value, RULES).(pedalDown := value >= 0.5);
    var events := if exists i :: 0 <= i < RULES && Listens(RuleAt(seen.params, i), cc)
      then RoutedEvents(seen, t, cc, value, RULES) else ControlEvents(t, seen.zone.manager, cc, value, false);
    QuietMoves(events, s.voices.free);
    SaneElsewhere(s, noted);
    ReleaseMoves(noted, t, events);
  }

  lemma ReleaseMoves(s: State, t: real, events: seq<Event>)
    requires Sane(s) && HasNotes(s) && NoNotes(events)
    ensures var step := ReleaseDeferred(s, t);
      MovesChannels(s.voices.free, events + step.events, step.state.voices.free)
  {
    hide ReleaseDeferred, DeferredOffs, NotesOnly, WithinSpecs, Conserved, ChannelsOf, ChannelsIn, MovesChannels;
    hide Distinct;
    NotesOnlyConcat(events, ReleaseDeferred(s, t).events);
    NotesOnlyQuiet(events);
    ReleaseDeferredSends(s, t);
    ReleaseDeferredVoices(s, t);
    var offs := DeferredOffs(s, t, s.voices.deferred);
    DeferredOffsAre(s, t, s.voices.deferred);
    assert [] + offs == offs;
    OffsMove(events + ReleaseDeferred(s, t).events, s.voices.free);
  }

  lemma OffsMove(events: seq<Event>, free: seq<Byte>)
    requires forall e :: e in NotesOnly(events) ==> e.command == NOTE_OFF
    ensures MovesChannels(free, events, free + ChannelsIn(NotesOnly(events)))
  {
    hide NotesOnly;
    var offs := NotesOnly(events);
    assert offs != [] ==> offs[|offs| - 1] in offs && offs[0] in offs;
    assert offs == [] ==> ChannelsIn(offs) == [];
  }

  lemma CallMoves(s: State, call: Call)
    requires Inv(s) && HasNotes(s) && call.Valid() && !Restarts(s, call)
    ensures MovesChannels(s.voices.free, Apply(s, call).events, Apply(s, call).state.voices.free)
  {
    hide Sane, WithinSpecs, NoteOn, NoteOff, ControlMessage, ConfiguredZone, SetRatio, Restart, MovesChannels;
    QuietMoves([], s.voices.free);
    match call {
      case PlayNote(t, note, velocity) => NoteOnMoves(s, t, note, velocity);
      case ReleaseKey(t, note, velocity) => NoteOffMoves(s, t, note, velocity);
      case Controller(t, cc, raw, value) => ControllerMoves(s, t, cc, raw, value);
      case _ =>
    }
  }

  ghost predicate NeverRestarts(s: State, calls: seq<Call>)
    requires Inv(s) && AllValid(calls)
    decreases |calls|
  {
    calls == [] ||
    (assert calls[0] in calls;
     ApplyKeeps(s, calls[0]);
     !Restarts(s, calls[0]) && NeverRestarts(Apply(s, calls[0]).state, calls[1..]))
  }

  /** The channels taken from the free ones during a run, in order. */
  ghost function AllTaken(s: State, calls: seq<Call>): seq<Byte>
    requires Inv(s) && AllValid(calls)
    decreases |calls|
  {
    if calls == [] then []
    else
      assert calls[0] in calls;
      ApplyKeeps(s, calls[0]);
      Taken(Apply(s, calls[0]).events) + AllTaken(Apply(s, calls[0]).state, calls[1..])
  }

  /** The channels given back during a run, in order. */
  ghost function AllReturned(s: State, calls: seq<Call>): seq<Byte>
    requires Inv(s) && AllValid(calls)
    decreases |calls|
  {
    if calls == [] then []
    else
      assert calls[0] in calls;
      ApplyKeeps(s, calls[0]);
      Returned(Apply(s, calls[0]).events) + AllReturned(Apply(s, calls[0]).state, calls[1..])
  }

  lemma {:induction false} RunMoves(s: State, calls: seq<Call>)
    requires Inv(s) && AllValid(calls) && NeverRestarts(s, calls)
    ensures s.voices.free + AllReturned(s, calls) == AllTaken(s, calls) + Run(s, calls).state.voices.free
    decreases |calls|
  {
    hide Inv, WithinSpecs, Apply, Taken, Returned, Restarts;
    if calls != [] {
      assert calls[0] in calls;
      ApplyKeeps(s, calls[0]);
      CallMoves(s, calls[0]);
      var first := Apply(s, calls[0]);
      RunMoves(first.state, calls[1..]);
      Joined(s.voices.free, Returned(first.events), AllReturned(first.state, calls[1..]));
      Joined(Taken(first.events), first.state.voices.free, AllReturned(first.state, calls[1..]));
      Joined(Taken(first.events), AllTaken(first.state, calls[1..]), Run(s, calls).state.voices.free);
    }
  }

  /**
   From any moment on and until the next restart, the channels are taken in one fixed order: first those that
   are free now, then those given back later, in the order in which they came back.
   */
  lemma ReuseIsFair(s: State, calls: seq<Call>, k: nat)
    requires Inv(s) && AllValid(calls) && NeverRestarts(s, calls) && k < |AllTaken(s, calls)|
    ensures k < |s.voices.free| ==> AllTaken(s, calls)[k] == s.voices.free[k]
    ensures k >= |s.voices.free| ==>
      k - |s.voices.free| < |AllReturned(s, calls)|
      && AllTaken(s, calls)[k] == AllReturned(s, calls)[k - |s.voices.free|]
  {
    hide AllTaken, AllReturned, Run, NeverRestarts, Inv, WithinSpecs;
    RunMoves(s, calls);
    var free, rest := s.voices.free, Run(s, calls).state.voices.free;
    var returned, taken := AllReturned(s, calls), AllTaken(s, calls);
    assert (free + returned)[k] == (taken + rest)[k];
  }
}
