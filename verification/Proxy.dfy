/** src/proxy.cpp: the voice allocator and controller router over its linked lists, ring and cached statistics. */
module ProxyClass {
  import opened Midi
  import opened Sequences
  import opened NoteStacks
  import opened Keyboards
  import opened Queues
  import opened Distortion
  import opened Params
  import opened ProxyModel
  import opened ProxyInvariant
  import opened Retargeting

  /** The events waiting for the host, and for the specification every event ever emitted. */
  class EventLog {
    var pending: seq<Event>
    ghost var trace: seq<Event>

    constructor ()
      ensures pending == [] && trace == []
    {
      pending, trace := [], [];
    }

    twostate predicate Grew(new events: seq<Event>)
      reads this
    {
      trace == old(trace) + events && pending == old(pending) + events
    }

    /** The host has lost what was pending; the trace has not. */
    twostate predicate Restarted(new events: seq<Event>)
      reads this
    {
      trace == old(trace) + events && pending == events
    }
  }

  class Proxy {
    const keyboard: Keyboard
    const deferredNoteOffs: NoteStack
    const availableChannels: Queue<Byte>
    const log: EventLog
    const curves: Curves

    var channelsByNotes: NoteTable
    var velocitiesByNotes: NoteTable
    var deferredNoteOffVelocities: NoteTable
    var stats: SplitStats
    var zone: Zone
    var params: ParamTable
    var lastInput: Inputs
    var isSustainPedalOn: bool
    var isSuspended: bool
    var hadReset: bool
    var previousMessage: map<nat, (real, int)>

    ghost var state: State

    /** The parts share nothing; this depends on no field that can change. */
    ghost predicate Separate() {
      keyboard.Repr !! deferredNoteOffs.Repr !! availableChannels.Repr
      && this !in keyboard.Repr && this !in deferredNoteOffs.Repr && this !in availableChannels.Repr
      && log !in keyboard.Repr && log !in deferredNoteOffs.Repr && log !in availableChannels.Repr
      && deferredNoteOffs.skipsExtremes
    }

    ghost predicate FieldsMatch()
      reads this
    {
      var v := state.voices;
      state == State(Voices(v.notes, v.deferred, v.free, channelsByNotes, velocitiesByNotes, deferredNoteOffVelocities,
                            v.links),
                     zone, params, lastInput, isSustainPedalOn, isSuspended, previousMessage, curves)
    }

    ghost predicate StatsMatch()
      reads this
    {
      stats == SplitStatsOf(state.voices.notes, state.voices.channelOf, state.zone.anchor)
    }

    ghost predicate Active(notes: seq<Byte>, anchor: Byte)
      reads keyboard.Repr
    {
      keyboard.Valid() && keyboard.notes == notes && keyboard.anchor == anchor
    }

    /** The links of the deferred notes, whether or not they make up the list of these notes. */
    ghost predicate DeferredHolds(links: ListLinks)
      reads deferredNoteOffs.Repr
    {
      deferredNoteOffs.Linked() && deferredNoteOffs.LinkValues() == links
    }

    ghost predicate FreeHolds(free: seq<Byte>)
      reads availableChannels.Repr
    {
      availableChannels.Valid() && availableChannels.capacity == 15 && availableChannels.contents == free
    }

    /** The object is in the state `state`. */
    ghost predicate Matches()
      reads this, keyboard.Repr, deferredNoteOffs.Repr, availableChannels.Repr
    {
      match state.voices
      case Voices(notes, _, free, _, _, _, links) =>
        Separate() && FieldsMatch() && StatsMatch() && Active(notes, state.zone.anchor)
        && DeferredHolds(links) && FreeHolds(free)
    }

    /** As Matches, except that `note` may just have been popped off the first stack of the keyboard. */
    ghost predicate Ready(note: Byte)
      reads this, keyboard.Repr, deferredNoteOffs.Repr, availableChannels.Repr
    {
      match state.voices
      case Voices(notes, _, free, _, _, _, links) =>
        Separate() && FieldsMatch() && StatsMatch()
        && (Active(notes, state.zone.anchor) || PoppedOff(note, notes, state.zone.anchor))
        && DeferredHolds(links) && FreeHolds(free)
    }

    ghost predicate PoppedOff(note: Byte, notes: seq<Byte>, anchor: Byte)
      reads keyboard.Repr
    {
      keyboard.Popped(note) && keyboard.notes == notes && keyboard.anchor == anchor
    }

    ghost predicate Valid()
      reads this, keyboard.Repr, deferredNoteOffs.Repr, availableChannels.Repr
    {
      Matches() && Inv(state)
    }

    constructor (curves: Curves)
      ensures Valid() && state == InitialState(curves)
      ensures log.pending == [] && log.trace == []
      ensures fresh(keyboard.Repr) && fresh(deferredNoteOffs.Repr) && fresh(availableChannels.Repr) && fresh(log)
    {
      hide NoteStack.Valid, NoteStack.KnowsOldest, NoteStack.Detached, Queue.Valid, Keyboard.Valid, Matches;
      hide Inv, Zone.Members, InitialState, SplitStatsOf, Active, DeferredHolds, FreeHolds, Links.WellFormed, NoLinks;
      hide WithinSpecs;
      InitialKeeps(curves);
      InvMeans(InitialState(curves));
      this.curves := curves;
      var initial := InitialState(curves);
      var stacks, deferred, ring, events := Proxy.NewParts(initial.zone.anchor);
      keyboard, deferredNoteOffs, availableChannels, log := stacks, deferred, ring, events;
      channelsByNotes := initial.voices.channelOf;
      velocitiesByNotes := initial.voices.velocityOf;
      deferredNoteOffVelocities := initial.voices.releaseVelocityOf;
      stats := SplitStatsOf([], initial.voices.channelOf, initial.zone.anchor);
      zone := initial.zone;
      params := initial.params;
      lastInput := initial.lastInput;
      isSustainPedalOn, isSuspended, hadReset := false, false, false;
      previousMessage := map[];
      state := initial;
      new;
      ResetAvailableChannels();
      PartsHold();
      PutTogether();
    }

    static method NewParts(anchor: Byte)
      returns (stacks: Keyboard, deferred: NoteStack, ring: Queue<Byte>, events: EventLog)
      ensures fresh(stacks.Repr) && fresh(deferred.Repr) && fresh(ring.Repr) && fresh(events)
      ensures stacks.Repr !! deferred.Repr !! ring.Repr
      ensures events !in stacks.Repr && events !in deferred.Repr && events !in ring.Repr
      ensures stacks.Valid() && stacks.notes == [] && stacks.anchor == anchor
      ensures deferred.Linked() && deferred.LinkValues() == NoLinks() && deferred.skipsExtremes
      ensures ring.Valid() && ring.capacity == 15 && events.pending == [] && events.trace == []
    {
      hide NoteStack.Valid, NoteStack.KnowsOldest, NoteStack.Detached, Queue.Valid, Keyboard.Valid, NoteStack.Linked;
      hide NoteStack.LinkValues, NoLinks;
      stacks := new Keyboard(anchor);
      deferred := new NoteStack(true);
      ring := new Queue<Byte>(15);
      events := new EventLog();
    }

    lemma PartsHold()
      ensures keyboard.Valid() ==> Active(keyboard.notes, keyboard.anchor)
      ensures deferredNoteOffs.Linked() ==> DeferredHolds(deferredNoteOffs.LinkValues())
      ensures availableChannels.Valid() && availableChannels.capacity == 15 ==> FreeHolds(availableChannels.contents)
    {
      hide Keyboard.Valid, Queue.Valid, Links.WellFormed;
    }

    /** src/proxy.cpp:328-338: the channel counter is an unsigned byte and wraps around in the upper zone. */
    method ResetAvailableChannels()
      requires zone.Valid() && availableChannels.Valid() && availableChannels.capacity == 15
      modifies availableChannels.Repr
      ensures availableChannels.Valid() && availableChannels.contents == zone.Members()
    {
      hide Queue.Valid, Zone.Members;
      var channel: Byte := (zone.manager + zone.increment) % 256;
      availableChannels.Clear();
      NextMember(zone, 0);
      var i := 0;
      while i != zone.count
        invariant 0 <= i <= zone.count && availableChannels.Valid()
        invariant i < zone.count ==> channel == zone.Members()[i]
        invariant availableChannels.contents == zone.Members()[..i]
      {
        NextMember(zone, i);
        var ok := availableChannels.Push(channel);
        channel := (channel + zone.increment) % 256;
        i := i + 1;
      }
    }

    /** Member channels follow each other by the increment, as bytes. */
    static lemma NextMember(zone: Zone, i: nat)
      requires zone.Valid() && i < zone.count
      ensures zone.Members()[0] == (zone.manager + zone.increment) % 256
      ensures zone.Members()[..i + 1] == zone.Members()[..i] + [zone.Members()[i]] && |zone.Members()| == zone.count
      ensures i + 1 < zone.count ==> zone.Members()[i + 1] == (zone.Members()[i] + zone.increment) % 256
      ensures zone.Members()[..0] == [] && zone.Members()[..zone.count] == zone.Members()
    {
    }

    // ---- Emitting events ----

    method PushOutEvent(event: Event)
      modifies log
      ensures log.Grew(Emitted(event))
    {
      if event.channel > CHANNEL_MAX {
        return;
      }
      log.pending := log.pending + [event];
      log.trace := log.trace + [event];
    }

    method PushControllerEvent(t: real, channel: Byte, cc: nat, value: real, setup: bool)
      modifies log
      ensures log.Grew(ControlEvents(t, channel, cc, value, setup))
    {
      if cc == PITCH_WHEEL {
        var word := FloatToWord(value);
        var lsb := word % 128;
        var msb := word / 128;
        PushOutEvent(Event(t, PITCH_BEND_CHANGE, channel, lsb, msb, value, setup));
      } else if cc == PRESSURE {
        PushOutEvent(Event(t, CHANNEL_PRESSURE, channel, FloatToByte(value), 0, value, setup));
      } else if cc <= MAX_MIDI_CC {
        PushOutEvent(Event(t, CONTROL_CHANGE, channel, cc, FloatToByte(value), value, setup));
      }
    }

    /**
     src/proxy.cpp:614-727. The code compares cached channels; by injectivity this is the same as
     comparing target notes, and a displaced target is never on the new note's channel.
     */
    method ResetOutdatedTargetsIfChanged(rule: Rule, t: real, newNoteChannel: Byte, a: SplitStats, b: SplitStats,
                                         value: real, ghost ours: seq<Byte>, ghost theirs: seq<Byte>,
                                         ghost all: seq<Byte>, ghost table: NoteTable, ghost anchor: Byte)
      requires rule.target <= TRG_NEWEST_ABOVE_ANCHOR
      requires a == SplitStatsOf(ours, table, anchor) && b == SplitStatsOf(theirs, table, anchor)
      requires Injective(all, table) && (forall n :: n in ours ==> n in all) && (forall n :: n in theirs ==> n in all)
      requires forall n :: n in ours ==> ChannelOf(table, n) != newNoteChannel
      modifies log
      ensures log.Grew(RetargetEvents(rule, t, ours, theirs, table, anchor, value))
    {
      hide ControlEvents, TargetNote, SplitStatsOf;
      CachedChannelIsTarget(rule.target, ours, table, anchor);
      ChannelsTellNotes(rule.target, ours, theirs, all, table, anchor);
      var channel := INVALID_CHANNEL;
      if CachedChannel(rule.target, a) != CachedChannel(rule.target, b) {
        channel := CachedChannel(rule.target, a);
      }
      if channel != INVALID_CHANNEL && channel != newNoteChannel {
        PushControllerEvent(t, channel, rule.outCc, value, false);
      }
    }

    /** `state` is the state just after its newest note has been added, and the arguments describe that note. */
    ghost predicate AroundNewNote(newNoteChannel: Byte, isFirstNote: bool, isAboveAnchor: bool, oldStats: SplitStats)
      requires state.voices.notes != []
      reads this
    {
      FieldsMatch() && StatsMatch()
      && Injective(state.voices.notes, channelsByNotes) && Distinct(state.voices.notes)
      && newNoteChannel == ChannelOf(channelsByNotes, state.voices.notes[0])
      && (isFirstNote <==> state.voices.notes[1..] == [])
      && (isAboveAnchor <==> state.voices.notes[0] >= zone.anchor)
      && oldStats == SplitStatsOf(state.voices.notes[1..], channelsByNotes, zone.anchor)
    }

    method PushResetsForNewNote(t: real, newNoteChannel: Byte, isFirstNote: bool, isAboveAnchor: bool,
                                oldStats: SplitStats, setup: bool)
      requires state.voices.notes != [] && AroundNewNote(newNoteChannel, isFirstNote, isAboveAnchor, oldStats)
      modifies log
      ensures log.Grew(NewNoteResets(state, t, RULES, setup))
    {
      hide AroundNewNote, NewNoteReset;
      var i := 0;
      while i != RULES
        invariant 0 <= i <= RULES
        invariant log.Grew(NewNoteResets(state, t, i, setup))
      {
        PushResetForNewNote(t, i, newNoteChannel, isFirstNote, isAboveAnchor, oldStats, setup);
        i := i + 1;
      }
    }

    /** The body of the loop over rules. */
    method PushResetForNewNote(t: real, i: nat, newNoteChannel: Byte, isFirstNote: bool, isAboveAnchor: bool,
                               oldStats: SplitStats, setup: bool)
      requires i < RULES
      requires state.voices.notes != [] && AroundNewNote(newNoteChannel, isFirstNote, isAboveAnchor, oldStats)
      modifies log
      ensures log.Grew(NewNoteReset(state, t, i, setup))
    {
      hide RuleAt, OwnReset, Displaced, Rule.Distort, NewNoteReset, AroundNewNote, WithinSpecs;
      var rule := RuleAt(params, i);
      NewNoteResetUnfolds(t, i, newNoteChannel, isFirstNote, isAboveAnchor, oldStats, setup);
      if !rule.NeedsResetForNoteEvent(isAboveAnchor) {
        return;
      }
      var resetValue := rule.ResetValue(lastInput[i], curves);
      ghost var displaced := Displaced(rule, t, resetValue, setup);
      ghost var own := OwnReset(rule, t, newNoteChannel, isFirstNote, resetValue, setup);
      Joined(log.trace, displaced, own);
      Joined(log.pending, displaced, own);
      ResetDisplacedTarget(rule, t, newNoteChannel, isFirstNote, isAboveAnchor, oldStats, resetValue, setup);
      PushOwnReset(rule, t, newNoteChannel, isFirstNote, resetValue, setup);
    }

    method PushOwnReset(rule: Rule, t: real, newNoteChannel: Byte, isFirstNote: bool, value: real, setup: bool)
      modifies log
      ensures log.Grew(OwnReset(rule, t, newNoteChannel, isFirstNote, value, setup))
    {
      hide ControlEvents;
      ghost var fallback := if isFirstNote && rule.fallback
        then ControlEvents(t, zone.manager, rule.outCc, value, setup) else [];
      ghost var own := ControlEvents(t, newNoteChannel, rule.outCc, value, setup);
      Joined(log.trace, fallback, own);
      Joined(log.pending, fallback, own);
      if isFirstNote && rule.fallback {
        PushControllerEvent(t, zone.manager, rule.outCc, value, setup);
      }
      PushControllerEvent(t, newNoteChannel, rule.outCc, value, setup);
    }

    /** What a rule sends to the new note, and before to the manager channel if that stood in for notes. */
    ghost function OwnReset(rule: Rule, t: real, newNoteChannel: Byte, isFirstNote: bool, value: real,
                            setup: bool): seq<Event>
      reads this
    {
      (if isFirstNote && rule.fallback then ControlEvents(t, zone.manager, rule.outCc, value, setup) else [])
      + ControlEvents(t, newNoteChannel, rule.outCc, value, setup)
    }

    /** What a rule sends during set-up to the note that is no longer its target. */
    ghost function Displaced(rule: Rule, t: real, value: real, setup: bool): seq<Event>
      requires state.voices.notes != []
      reads this
    {
      if setup
      then RetargetEvents(rule, t, state.voices.notes[1..], state.voices.notes, channelsByNotes, zone.anchor, value)
      else []
    }

    lemma NewNoteResetUnfolds(t: real, i: nat, newNoteChannel: Byte, isFirstNote: bool, isAboveAnchor: bool,
                              oldStats: SplitStats, setup: bool)
      requires i < RULES
      requires state.voices.notes != [] && AroundNewNote(newNoteChannel, isFirstNote, isAboveAnchor, oldStats)
      ensures var rule := RuleAt(params, i); var v := rule.ResetValue(lastInput[i], curves);
        NewNoteReset(state, t, i, setup)
          == if rule.NeedsResetForNoteEvent(isAboveAnchor)
             then Displaced(rule, t, v, setup) + OwnReset(rule, t, newNoteChannel, isFirstNote, v, setup)
             else []
    {
      hide SplitStatsOf, RuleAt, ControlEvents, RetargetEvents, Rule.Distort, WithinSpecs, Distinct, Injective;
    }

    method ResetDisplacedTarget(rule: Rule, t: real, newNoteChannel: Byte, ghost isFirstNote: bool,
                                ghost isAboveAnchor: bool, oldStats: SplitStats, value: real, setup: bool)
      requires rule.target <= TRG_NEWEST_ABOVE_ANCHOR
      requires state.voices.notes != [] && AroundNewNote(newNoteChannel, isFirstNote, isAboveAnchor, oldStats)
      modifies log
      ensures log.Grew(Displaced(rule, t, value, setup))
    {
      hide SplitStatsOf, RetargetEvents, WithinSpecs;
      if setup {
        ghost var notes := state.voices.notes;
        assert notes == [notes[0]] + notes[1..];
        ResetOutdatedTargetsIfChanged(rule, t, newNoteChannel, oldStats, stats, value,
                                      notes[1..], notes, notes, channelsByNotes, zone.anchor);
      }
    }

    // ---- Notes ----

    /** The first half of src/proxy.cpp:468-494: the note joins the stacks, the tables and the statistics. */
    method AddNote(channel: Byte, note: Byte, velocity: Byte, isAboveAnchor: bool)
      requires Matches() && note <= NOTE_MAX && note !in state.voices.notes
      requires isAboveAnchor <==> note >= zone.anchor
      modifies this, keyboard.Repr
      ensures Matches() && state == old(state.(voices := state.voices.Started(channel, note, velocity)))
      ensures hadReset == old(hadReset)
    {
      hide Matches, Ready, Separate, SplitStatsOf, WithinSpecs, Active, DeferredHolds, FreeHolds;
      TakeApart();
      var table: NoteTable := channelsByNotes[note := channel];
      var newStats := Stack(note, isAboveAnchor, table);
      Record(table, velocitiesByNotes[note := velocity], newStats,
             state.(voices := state.voices.Started(channel, note, velocity)));
    }

    /** The note joins the three stacks; nothing else changes. */
    method Stack(note: Byte, isAboveAnchor: bool, table: NoteTable) returns (newStats: SplitStats)
      requires Matches() && note <= NOTE_MAX && note !in state.voices.notes
      requires (isAboveAnchor <==> note >= zone.anchor) && table == channelsByNotes[note := table[note]]
      modifies keyboard.Repr
      ensures Separate() && FieldsMatch() && Active([note] + state.voices.notes, state.zone.anchor)
      ensures DeferredHolds(state.voices.links)
      ensures FreeHolds(state.voices.free) && unchanged(this)
      ensures newStats == SplitStatsOf([note] + state.voices.notes, table, state.zone.anchor)
    {
      hide Matches, Keyboard.Valid, DeferredHolds, FreeHolds, SplitStatsOf, WithinSpecs, Side;
      TakeApart();
      newStats := keyboard.Add(note, isAboveAnchor, table, stats, channelsByNotes);
    }

    /** The tables and the statistics follow the stacks. */
    method Record(channels: NoteTable, velocities: NoteTable, newStats: SplitStats, ghost next: State)
      requires Separate() && FieldsMatch() && Active(next.voices.notes, next.zone.anchor) && FreeHolds(next.voices.free)
      requires DeferredHolds(next.voices.links)
      requires next.voices.channelOf == channels && next.voices.velocityOf == velocities
      requires next.voices.releaseVelocityOf == state.voices.releaseVelocityOf && next == state.(voices := next.voices)
      requires newStats == SplitStatsOf(next.voices.notes, channels, next.zone.anchor)
      modifies this`channelsByNotes, this`velocitiesByNotes, this`stats, this`state
      ensures Matches() && state == next
    {
      hide Matches, Keyboard.Valid, Active, DeferredHolds, FreeHolds, SplitStatsOf, WithinSpecs;
      channelsByNotes, velocitiesByNotes, stats, state := channels, velocities, newStats, next;
      PutTogether();
    }

    /** src/proxy.cpp:468-534 */
    method PushNoteOn(t: real, channel: Byte, note: Byte, velocity: Byte)
      requires Matches() && note <= NOTE_MAX && note !in state.voices.notes
      requires state.zone.Valid() && NotesValid(state.voices) && InHand(state.voices, state.zone, channel)
      modifies this, keyboard.Repr, log
      ensures Matches() && state == old(StartNote(state, t, channel, note, velocity).state)
      ensures log.Grew(old(StartNote(state, t, channel, note, velocity).events))
      ensures hadReset == old(hadReset)
    {
      hide NewNoteResets, NotesValid, InHand, Matches, Emitted, NoteEvent, AroundNewNote, WithinSpecs, Zone.Transpose;
      var oldStats, isFirstNote, isAboveAnchor := AddAndDescribe(channel, note, velocity);
      EmitNoteOn(t, channel, note, velocity, isFirstNote, isAboveAnchor, oldStats);
    }

    /** The note joins, and what the events depend on is written down. */
    method AddAndDescribe(channel: Byte, note: Byte, velocity: Byte)
      returns (oldStats: SplitStats, isFirstNote: bool, isAboveAnchor: bool)
      requires Matches() && note <= NOTE_MAX && note !in state.voices.notes
      requires state.zone.Valid() && NotesValid(state.voices) && InHand(state.voices, state.zone, channel)
      modifies this, keyboard.Repr
      ensures Matches() && Separate() && hadReset == old(hadReset)
      ensures state == old(state.(voices := state.voices.Started(channel, note, velocity)))
      ensures AroundNewNote(channel, isFirstNote, isAboveAnchor, oldStats)
    {
      hide SplitStatsOf, Conserved, NotesValid, InHand, Matches, FieldsMatch, AroundNewNote, WithinSpecs;
      TakeApart();
      ZoneMatches();
      oldStats, isFirstNote, isAboveAnchor := stats, IsSilent(), note >= zone.anchor;
      StartedKeeps(state.voices, state.zone, channel, note, velocity);
      AddNote(channel, note, velocity, isAboveAnchor);
      TakeApart();
      ZoneMatches();
      NewNoteDescribed(old(state), channel, note, velocity, oldStats);
    }

    lemma ZoneMatches()
      requires FieldsMatch()
      ensures zone == state.zone && channelsByNotes == state.voices.channelOf
    {
    }

    lemma TakeApart()
      requires Matches()
      ensures Separate() && FieldsMatch() && StatsMatch() && Active(state.voices.notes, state.zone.anchor)
      ensures DeferredHolds(state.voices.links) && FreeHolds(state.voices.free)
    {
      hide Separate, FieldsMatch, StatsMatch, Active, DeferredHolds, FreeHolds;
    }

    lemma TakeReadyApart(note: Byte)
      requires Ready(note)
      ensures Separate() && FieldsMatch() && StatsMatch()
      ensures Active(state.voices.notes, state.zone.anchor) || PoppedOff(note, state.voices.notes, state.zone.anchor)
      ensures DeferredHolds(state.voices.links) && FreeHolds(state.voices.free)
    {
      hide Separate, FieldsMatch, StatsMatch, Active, PoppedOff, DeferredHolds, FreeHolds;
    }

    lemma PutTogether()
      requires Separate() && FieldsMatch() && StatsMatch() && Active(state.voices.notes, state.zone.anchor)
      requires DeferredHolds(state.voices.links) && FreeHolds(state.voices.free)
      ensures Matches()
    {
      hide Separate, FieldsMatch, StatsMatch, Active, DeferredHolds, FreeHolds;
    }

    predicate IsSilent()
      requires Matches()
      reads this, keyboard.Repr, deferredNoteOffs.Repr, availableChannels.Repr
      ensures IsSilent() <==> state.voices.notes == []
    {
      keyboard.IsEmpty()
    }

    lemma NewNoteDescribed(before: State, channel: Byte, note: Byte, velocity: Byte, oldStats: SplitStats)
      requires FieldsMatch() && StatsMatch() && note <= NOTE_MAX && note !in before.voices.notes
      requires state == before.(voices := before.voices.Started(channel, note, velocity))
      requires state.zone.Valid() && NotesValid(state.voices) && Conserved(state.voices, state.zone)
      requires oldStats == SplitStatsOf(before.voices.notes, before.voices.channelOf, before.zone.anchor)
      ensures AroundNewNote(channel, before.voices.notes == [], note >= zone.anchor, oldStats)
    {
      hide Conserved, StatsOf;
      ConservedInjective(state.voices, state.zone);
      assert state.voices.notes[1..] == before.voices.notes;
      var s, table, anchor := before.voices.notes, before.voices.channelOf, zone.anchor;
      StatsElsewhere(s, table, note, channel);
      StatsElsewhere(Side(s, anchor, true), table, note, channel);
      StatsElsewhere(Side(s, anchor, false), table, note, channel);
    }

    /** The events of src/proxy.cpp:496-533: set-up, note-on, set-up again. */
    method EmitNoteOn(t: real, channel: Byte, note: Byte, velocity: Byte, isFirstNote: bool, isAboveAnchor: bool,
                      oldStats: SplitStats)
      requires state.voices.notes != [] && AroundNewNote(channel, isFirstNote, isAboveAnchor, oldStats)
      requires note == state.voices.notes[0]
      modifies log
      ensures log.Grew(NewNoteResets(state, t, RULES, true)
                       + Emitted(NoteEvent(t, NOTE_ON, channel, state.zone.Transpose(note), velocity))
                       + NewNoteResets(state, t, RULES, false))
    {
      assert zone == state.zone;
      hide AroundNewNote, NewNoteResets, Emitted, NoteEvent, Zone.Transpose;
      ghost var before, noteOn, after := NewNoteResets(state, t, RULES, true),
        Emitted(NoteEvent(t, NOTE_ON, channel, state.zone.Transpose(note), velocity)),
        NewNoteResets(state, t, RULES, false);
      Appended(log.trace, before, noteOn, after);
      Appended(log.pending, before, noteOn, after);
      PushResetsForNewNote(t, channel, isFirstNote, isAboveAnchor, oldStats, true);
      PushOutEvent(NoteEvent(t, NOTE_ON, channel, zone.Transpose(note), velocity));
      PushResetsForNewNote(t, channel, isFirstNote, isAboveAnchor, oldStats, false);
    }

    /** `after` is the state once a note of `before` has left. */
    ghost predicate AroundNoteOff(after: State, before: seq<Byte>, oldStats: SplitStats)
      reads this
    {
      match after
      case State(voices, z, ps, inputs, _, _, _, cs) =>
        z == zone && ps == params && inputs == lastInput && cs == curves && voices.channelOf == channelsByNotes
        && stats == SplitStatsOf(voices.notes, channelsByNotes, zone.anchor)
        && oldStats == SplitStatsOf(before, channelsByNotes, zone.anchor)
        && Injective(before, channelsByNotes) && forall n :: n in voices.notes ==> n in before
    }

    method PushResetsForNoteOff(t: real, wasAboveAnchor: bool, oldStats: SplitStats,
                                ghost after: State, ghost before: seq<Byte>)
      requires AroundNoteOff(after, before, oldStats) && Separate() && Matches()
      modifies log
      ensures log.Grew(NoteOffResets(after, before, t, wasAboveAnchor, RULES)) && Matches()
    {
      hide AroundNoteOff, NoteOffReset, Matches;
      var i := 0;
      while i != RULES
        invariant 0 <= i <= RULES
        invariant log.Grew(NoteOffResets(after, before, t, wasAboveAnchor, i))
      {
        PushResetForNoteOff(t, i, wasAboveAnchor, oldStats, after, before);
        i := i + 1;
      }
    }

    /** The body of the loop over rules. */
    method PushResetForNoteOff(t: real, i: nat, wasAboveAnchor: bool, oldStats: SplitStats,
                               ghost after: State, ghost before: seq<Byte>)
      requires i < RULES && AroundNoteOff(after, before, oldStats)
      modifies log
      ensures log.Grew(NoteOffReset(after, before, t, wasAboveAnchor, i))
    {
      hide SplitStatsOf, RuleAt, ControlEvents, RetargetEvents, Rule.Distort;
      var rule := RuleAt(params, i);
      if !rule.NeedsResetForNoteEvent(wasAboveAnchor) {
        return;
      }
      var resetValue := rule.ResetValue(lastInput[i], curves);
      ResetOutdatedTargetsIfChanged(rule, t, INVALID_CHANNEL, stats, oldStats, resetValue,
                                    after.voices.notes, before, before, channelsByNotes, zone.anchor);
    }

    /** src/proxy.cpp:805-850 */
    method PushNoteOff(t: real, channel: Byte, note: Byte, velocity: Byte)
      requires Ready(note) && note <= NOTE_MAX && note in state.voices.notes
      requires channel == state.voices.channelOf[note] && Injective(state.voices.notes, channelsByNotes)
      modifies this, keyboard.Repr, deferredNoteOffs.Repr, log
      ensures Matches()
      ensures state == old(StopNote(state, t, note, velocity).state)
      ensures log.Grew(old(StopNote(state, t, note, velocity).events))
      ensures hadReset == old(hadReset)
    {
      hide NoteOffResets, SplitStatsOf, Emitted, NoteEvent, Zone.Transpose, Injective, Ready, Matches, FieldsMatch;
      hide StopNote, AroundNoteOff, WithinSpecs, Voices.Stopped;
      StopNoteUnfolds(t, channel, note, velocity);
      ghost var before, after := state.voices.notes, state.(voices := state.voices.Stopped(note));
      var noteOffVelocity := if params[Z1ORV].value == 1 then velocitiesByNotes[note] else velocity;
      var wasAboveAnchor := note >= zone.anchor;
      var oldStats := stats;
      var event := NoteEvent(t, NOTE_OFF, channel, zone.Transpose(note), noteOffVelocity);
      ghost var resets := NoteOffResets(after, before, t, wasAboveAnchor, RULES);
      Joined(log.trace, Emitted(event), resets);
      Joined(log.pending, Emitted(event), resets);
      PushOutEvent(event);
      TakeNote(note);
      NoteOffDescribed(old(state), note, oldStats);
      PushResetsForNoteOff(t, wasAboveAnchor, oldStats, after, before);
    }

    lemma StopNoteUnfolds(t: real, channel: Byte, note: Byte, velocity: Byte)
      requires Ready(note) && note <= NOTE_MAX && channel == state.voices.channelOf[note]
      ensures Separate() && StatsMatch() && channelsByNotes == state.voices.channelOf && zone == state.zone
      ensures var v := if params[Z1ORV].value == 1 then velocitiesByNotes[note] else velocity;
        var after := state.(voices := state.voices.Stopped(note));
        StopNote(state, t, note, velocity)
          == Step(after, Emitted(NoteEvent(t, NOTE_OFF, channel, zone.Transpose(note), v))
                         + NoteOffResets(after, state.voices.notes, t, note >= zone.anchor, RULES))
    {
      hide NoteOffResets, SplitStatsOf, DeferredHolds, FreeHolds, Emitted, NoteEvent, Zone.Transpose, Voices.Stopped;
    }

    /** The note leaves the stacks, the statistics and the deferred notes. */
    method TakeNote(note: Byte)
      requires Ready(note) && note <= NOTE_MAX && note in state.voices.notes
      modifies this, keyboard.Repr, deferredNoteOffs.Repr
      ensures Matches()
      ensures state == old(state.(voices := state.voices.Stopped(note)))
      ensures hadReset == old(hadReset)
    {
      hide Matches, Ready, Separate, SplitStatsOf, WithinSpecs, Active, PoppedOff, DeferredHolds, FreeHolds;
      hide Voices.Stopped;
      TakeReadyApart(note);
      StoppedTables(state.voices, note);
      var newStats := Unstack(note);
      DropDeferred(note);
      Record(channelsByNotes, velocitiesByNotes, newStats, state.(voices := state.voices.Stopped(note)));
    }

    lemma StoppedTables(v: Voices, note: Byte)
      ensures var w := v.Stopped(note);
        && w.notes == Without(v.notes, note) && w.free == v.free && w.channelOf == v.channelOf
        && w.velocityOf == v.velocityOf && w.releaseVelocityOf == v.releaseVelocityOf
    {
    }

    /** The note leaves the three stacks; nothing else changes. */
    method Unstack(note: Byte) returns (newStats: SplitStats)
      requires Ready(note) && note <= NOTE_MAX && note in state.voices.notes
      modifies keyboard.Repr
      ensures Separate() && FieldsMatch() && Active(Without(state.voices.notes, note), state.zone.anchor)
      ensures DeferredHolds(state.voices.links)
      ensures FreeHolds(state.voices.free) && unchanged(this)
      ensures newStats == SplitStatsOf(Without(state.voices.notes, note), channelsByNotes, state.zone.anchor)
    {
      hide Ready, SplitStatsOf, DeferredHolds, FreeHolds, Keyboard.Valid, Keyboard.Popped, WithinSpecs, Side;
      TakeReadyApart(note);
      newStats := keyboard.Take(note, channelsByNotes);
    }

    method DropDeferred(note: Byte)
      requires Separate() && note <= NOTE_MAX
      requires DeferredHolds(state.voices.links)
      modifies deferredNoteOffs.Repr
      ensures DeferredHolds(state.voices.Stopped(note).links)
      ensures unchanged(this) && unchanged(keyboard.Repr) && unchanged(availableChannels.Repr)
    {
      hide DeferredHolds, Voices.Stopped;
      RemoveDeferred(note, state.voices);
    }

    lemma NoteOffDescribed(before: State, note: Byte, oldStats: SplitStats)
      requires Matches() && state == before.(voices := before.voices.Stopped(note))
      requires oldStats == SplitStatsOf(before.voices.notes, before.voices.channelOf, before.zone.anchor)
      requires Injective(before.voices.notes, before.voices.channelOf)
      ensures AroundNoteOff(state, before.voices.notes, oldStats)
    {
      hide SplitStatsOf, DeferredHolds, FreeHolds, Active, WithinSpecs, Injective, Separate;
      WithoutMembers(before.voices.notes, note);
    }

    method RemoveDeferred(note: Byte, ghost v: Voices)
      requires DeferredHolds(v.links) && note <= NOTE_MAX && deferredNoteOffs.skipsExtremes
      modifies deferredNoteOffs.Repr
      ensures DeferredHolds(v.Stopped(note).links)
    {
      hide NoteStack.Valid, Links.WellFormed, Links.Unlinked;
      deferredNoteOffs.Remove(note);
    }

    /** src/proxy.cpp:1149-1159; the ring of free channels is never full here. */
    method HandleNoteOff(t: real, note: Byte, velocity: Byte)
      requires Separate() && Matches() && note <= NOTE_MAX && note in state.voices.notes
      requires Sane(state)
      modifies this, keyboard.Repr, deferredNoteOffs.Repr, availableChannels.Repr, log
      ensures Matches() && state == old(ReleaseNote(state, t, note, velocity).state)
      ensures log.Grew(old(ReleaseNote(state, t, note, velocity).events))
      ensures hadReset == old(hadReset)
    {
      hide Sane, Injective, StopNote, Matches, Ready, WithinSpecs, Separate, FieldsMatch, StatsMatch;
      hide Voices.Stopped;
      ReleaseFacts(t, note, velocity);
      var assignedChannel := channelsByNotes[note];
      PushNoteOff(t, assignedChannel, note, velocity);
      FreeChannel(assignedChannel);
    }

    lemma ReleaseFacts(t: real, note: Byte, velocity: Byte)
      requires Separate() && Matches() && note in state.voices.notes && note <= NOTE_MAX
      requires Sane(state)
      ensures Ready(note) && channelsByNotes == state.voices.channelOf
      ensures Injective(state.voices.notes, channelsByNotes)
      ensures |state.voices.free| < 15 && log !in availableChannels.Repr
      ensures StopNote(state, t, note, velocity).state == state.(voices := state.voices.Stopped(note))
      ensures state.voices.Stopped(note).free == state.voices.free
    {
      hide Keyboard.Valid, DeferredHolds, FreeHolds, WithinSpecs, SplitStatsOf, NoteOffResets;
      ConservedInjective(state.voices, state.zone);
      ConservedMeans(state.voices, state.zone);
    }

    method FreeChannel(channel: Byte)
      requires Separate() && Matches() && |state.voices.free| < 15
      modifies this`state, availableChannels.Repr
      ensures Matches() && state == old(state.(voices := state.voices.Freed(channel)))
    {
      hide Matches, Active, DeferredHolds, WithinSpecs, SplitStatsOf, Queue.Valid;
      TakeApart();
      var ok := availableChannels.Push(channel);
      state := state.(voices := state.voices.Freed(channel));
      PutTogether();
    }

    /** src/proxy.cpp:1090-1097 */
    method ProcessDeferredNoteOffs(t: real)
      requires Separate() && Matches() && Sane(state) && Pops(state.voices.links) == state.voices.deferred
      modifies this, keyboard.Repr, deferredNoteOffs.Repr, availableChannels.Repr, log
      ensures Matches() && Sane(state)
      ensures forall n :: n in old(state).voices.deferred ==> n <= NOTE_MAX
      ensures state == ReleaseDeferred(old(state), t).state && log.Grew(ReleaseDeferred(old(state), t).events)
      ensures hadReset == old(hadReset)
    {
      hide Matches, Separate, ReleaseNote, Links.WellFormed, Sane;
      SaneDeferred(state);
      ghost var goal := ReleaseDeferred(state, t);
      var isEmpty := NothingDeferred();
      while !isEmpty
        invariant Matches() && Sane(state) && hadReset == old(hadReset)
        invariant Pops(state.voices.links) == state.voices.deferred && (isEmpty <==> state.voices.deferred == [])
        invariant forall n :: n in state.voices.deferred ==> n <= NOTE_MAX
        invariant ReleaseDeferred(state, t).state == goal.state
        invariant log.trace + ReleaseDeferred(state, t).events == old(log.trace) + goal.events
        invariant log.pending + ReleaseDeferred(state, t).events == old(log.pending) + goal.events
        decreases |state.voices.deferred|
      {
        ghost var trace, pending := log.trace, log.pending;
        ghost var step := ReleaseOneDeferred(t);
        SaneDeferred(state);
        Joined(trace, step.events, ReleaseDeferred(state, t).events);
        Joined(pending, step.events, ReleaseDeferred(state, t).events);
        isEmpty := NothingDeferred();
      }
    }

    method NothingDeferred() returns (isEmpty: bool)
      requires Matches()
      ensures isEmpty <==> Pops(state.voices.links) == []
    {
      hide Keyboard.Valid, FreeHolds, FieldsMatch, StatsMatch, Separate, Links.WellFormed;
      isEmpty := deferredNoteOffs.IsEmpty();
    }

    /** One iteration of the loop: the latest deferred note is popped and handled. */
    method ReleaseOneDeferred(t: real) returns (ghost step: Step)
      requires Separate() && Matches() && Sane(state) && state.voices.deferred != []
      requires Pops(state.voices.links) == state.voices.deferred
      modifies this, keyboard.Repr, deferredNoteOffs.Repr, availableChannels.Repr, log
      ensures Matches() && Sane(state) && hadReset == old(hadReset)
      ensures old(state).voices.deferred[0] <= NOTE_MAX
      ensures step == ReleaseNote(PopDeferred(old(state)), t, old(state).voices.deferred[0],
                                  old(state).voices.releaseVelocityOf[old(state).voices.deferred[0]])
      ensures state == step.state && log.Grew(step.events)
      ensures state.voices.deferred == old(state).voices.deferred[1..]
      ensures Pops(state.voices.links) == state.voices.deferred
    {
      hide Matches, Separate, ReleaseNote, NotesValid, Conserved, Links.WellFormed, Links.Released;
      var note := PopNewestDeferred();
      var velocity := deferredNoteOffVelocities[note];
      PoppedRelease(old(state), t, velocity);
      step := ReleaseNote(PopDeferred(old(state)), t, note, velocity);
      HandleNoteOff(t, note, velocity);
    }

    method PopNewestDeferred() returns (note: Byte)
      requires Separate() && Matches() && Sane(state) && state.voices.deferred != []
      requires state.voices.links.head == state.voices.deferred[0]
      modifies this`state, deferredNoteOffs.Repr
      ensures note == old(state).voices.deferred[0] <= NOTE_MAX && Matches()
      ensures state == PopDeferred(old(state)) && deferredNoteOffVelocities == state.voices.releaseVelocityOf
    {
      hide Matches, Keyboard.Valid, Active, FreeHolds, SplitStatsOf, WithinSpecs, Conserved, Links.WellFormed;
      TakeApart();
      assert state.voices.deferred[0] in state.voices.deferred;
      note := PopLinks(state.voices.links);
      state := PopDeferred(state);
      PutTogether();
    }

    method PopLinks(ghost links: ListLinks) returns (note: Byte)
      requires DeferredHolds(links) && links.head != INVALID_NOTE && deferredNoteOffs.skipsExtremes
      modifies deferredNoteOffs.Repr
      ensures note == links.head && DeferredHolds(links.Popped())
    {
      hide NoteStack.Valid, Links.WellFormed, Links.Popped;
      note := deferredNoteOffs.Pop();
    }

    // ---- Note messages ----

    /** Stop `victim` and play `note` on its channel. */
    method ReplaceNote(t: real, victim: Byte, note: Byte, velocity: Byte)
      requires Separate() && Matches() && Sane(state) && victim in state.voices.notes && note <= NOTE_MAX
      requires (note == victim || note !in state.voices.notes)
      modifies this, keyboard.Repr, deferredNoteOffs.Repr, log
      ensures Matches() && hadReset == old(hadReset) && victim <= NOTE_MAX
      ensures state == Replace(old(state), t, victim, note, velocity).state
      ensures log.Grew(Replace(old(state), t, victim, note, velocity).events)
    {
      hide Matches, Ready, Separate, Sane, NotesValid, InHand, StartNote, StopNote, Injective;
      hide Zone.Valid;
      StopFacts(state, t, victim, 64);
      SaneMeans(state);
      ReleaseFacts(t, victim, 64);
      ghost var stop := StopNote(state, t, victim, 64);
      ghost var start := StartNote(stop.state, t, state.voices.channelOf[victim], note, velocity);
      Joined(log.trace, stop.events, start.events);
      Joined(log.pending, stop.events, start.events);
      var stealChannel := channelsByNotes[victim];
      PushNoteOff(t, stealChannel, victim, 64);
      PushNoteOn(t, stealChannel, note, velocity);
    }

    /** src/proxy.cpp:402-465 */
    method NoteOn(t: real, note: Byte, velocity: Byte)
      requires Valid() && note <= NOTE_MAX
      modifies this, keyboard.Repr, deferredNoteOffs.Repr, availableChannels.Repr, log
      ensures Valid() && hadReset == old(hadReset)
      ensures forall n :: n in old(state).voices.notes ==> n <= NOTE_MAX
      ensures state == ProxyModel.NoteOn(old(state), t, note, velocity).state
      ensures log.Grew(ProxyModel.NoteOn(old(state), t, note, velocity).events)
    {
      hide Matches, Separate, Inv, Sane, Replace, WithinSpecs;
      NoteOnKeeps(state, t, note, velocity);
      InvMeans(state);
      MatchesFields();
      if isSuspended {
        return;
      }
      var alreadyOn := Find(note);
      if alreadyOn {
        if params[Z1ENH].value == ENH_IGNORE {
          return;
        }
        ReplaceNote(t, note, note, velocity);
        return;
      }
      var none := NoFreeChannel();
      if none {
        SomeNoteSounds(state);
        if IsSilent() {
          assert false;
        }
        if params[Z1ENH].value == ENH_IGNORE {
          return;
        }
        var stealNote := StealNote();
        ReplaceNote(t, stealNote, note, velocity);
      } else {
        PlayOnFreeChannel(t, note, velocity);
      }
    }

    lemma MatchesFields()
      requires Matches()
      ensures Separate() && FieldsMatch()
    {
    }

    method Find(note: Byte) returns (found: bool)
      requires Matches()
      ensures found <==> note in state.voices.notes
    {
      hide Keyboard.Valid;
      found := keyboard.Find(note);
    }

    method NoFreeChannel() returns (none: bool)
      requires Matches()
      ensures none <==> state.voices.free == []
    {
      hide Queue.Valid;
      none := availableChannels.IsEmpty();
    }

    /** The switch of src/proxy.cpp:434-455. */
    method StealNote() returns (note: Byte)
      requires Matches() && state.voices.notes != [] && params[Z1ENH].value != ENH_IGNORE
      ensures Victim(state) == Some(note)
    {
      hide Keyboard.Valid, Lowest, Highest;
      var victim := keyboard.ExtremeOfAll(params[Z1ENH].value - ENH_STEAL_LOWEST);
      note := victim.value;
    }

    method PlayOnFreeChannel(t: real, note: Byte, velocity: Byte)
      requires Separate() && Matches() && Sane(state) && note <= NOTE_MAX && note !in state.voices.notes
      requires state.voices.free != []
      modifies this, keyboard.Repr, availableChannels.Repr, log
      ensures Matches() && hadReset == old(hadReset)
      ensures var s, v := old(state), old(state).voices;
        var step := StartNote(s.(voices := v.(free := v.free[1..])), t, v.free[0], note, velocity);
        state == step.state && log.Grew(step.events)
    {
      hide Matches, Sane, Separate, NotesValid, InHand, StartNote, Zone.Valid;
      TakeFreeFacts(state);
      var allocatedChannel := TakeFreeChannel();
      PushNoteOn(t, allocatedChannel, note, velocity);
    }

    method TakeFreeChannel() returns (channel: Byte)
      requires Separate() && Matches() && state.voices.free != []
      modifies this`state, availableChannels.Repr
      ensures Matches() && channel == old(state).voices.free[0]
      ensures var v := old(state).voices; state == old(state).(voices := v.(free := v.free[1..]))
    {
      hide Matches, Active, DeferredHolds, WithinSpecs, SplitStatsOf, Queue.Valid;
      TakeApart();
      channel := availableChannels.Pop();
      state := state.(voices := state.voices.(free := state.voices.free[1..]));
      PutTogether();
    }

    /** src/proxy.cpp:1123-1146 */
    method NoteOff(t: real, note: Byte, velocity: Byte)
      requires Valid() && note <= NOTE_MAX
      modifies this, keyboard.Repr, deferredNoteOffs.Repr, availableChannels.Repr, log
      ensures Valid() && hadReset == old(hadReset)
      ensures state == ProxyModel.NoteOff(old(state), t, note, velocity).state
      ensures log.Grew(ProxyModel.NoteOff(old(state), t, note, velocity).events)
    {
      hide Matches, Separate, Inv, Sane, ReleaseNote, WithinSpecs;
      NoteOffKeeps(state, t, note, velocity);
      InvMeans(state);
      MatchesFields();
      if isSuspended {
        return;
      }
      var found := Find(note);
      if !found {
        return;
      }
      if params[Z1SUS].value == 1 && isSustainPedalOn {
        DeferNoteOff(note, velocity);
      } else {
        HandleNoteOff(t, note, velocity);
      }
    }

    method DeferNoteOff(note: Byte, velocity: Byte)
      requires Separate() && Matches() && note <= NOTE_MAX
      modifies this, deferredNoteOffs.Repr
      ensures Matches() && state == old(state).(voices := old(state).voices.Deferred(note, velocity))
      ensures hadReset == old(hadReset)
    {
      hide Matches, Active, DeferredHolds, FreeHolds, SplitStatsOf, WithinSpecs, Links.WellFormed, Links.Pushed;
      TakeApart();
      PushDeferred(note, state.voices);
      deferredNoteOffVelocities := deferredNoteOffVelocities[note := velocity];
      state := state.(voices := state.voices.Deferred(note, velocity));
      PutTogether();
    }

    method PushDeferred(note: Byte, ghost v: Voices)
      requires DeferredHolds(v.links) && note <= NOTE_MAX && deferredNoteOffs.skipsExtremes
      modifies deferredNoteOffs.Repr
      ensures DeferredHolds(v.links.Pushed(note))
    {
      hide NoteStack.Valid, Links.WellFormed, Links.Pushed;
      deferredNoteOffs.Push(note);
    }

    // ---- Controllers ----

    /** src/proxy.cpp:921-1087 */
    method ProcessControllerEvent(t: real, cc: nat, value: Ratio)
      requires Separate() && Matches() && Inv(state)
      requires ReleasesPedal(state, cc, value) ==> Pops(state.voices.links) == state.voices.deferred
      modifies this, keyboard.Repr, deferredNoteOffs.Repr, availableChannels.Repr, log
      ensures Matches() && Inv(state) && hadReset == old(hadReset)
      ensures forall n :: n in old(state).voices.deferred ==> n <= NOTE_MAX
      ensures state == Control(old(state), t, cc, value).state && log.Grew(Control(old(state), t, cc, value).events)
    {
      hide Matches, Separate, Inv, Sane, WithinSpecs, ReleaseDeferred, Noted, Forwarded, Pops, Control;
      ControlKeeps(state, t, cc, value);
      InvMeans(state);
      NotedFacts(state, cc, value);
      ControlUnfolds(state, t, cc, value);
      ghost var routed := Forwarded(state, t, cc, value);
      RouteControllerEvent(t, cc, value);
      MatchesFields();
      if params[Z1SUS].value == 1 && cc == SUSTAIN_PEDAL {
        ghost var release := MovePedal(t, value >= 0.5);
        Joined(old(log.trace), routed, release);
        Joined(old(log.pending), routed, release);
      }
    }

    /** src/proxy.cpp:1077-1087: lifting the pedal releases the deferred notes. */
    method MovePedal(t: real, down: bool) returns (ghost events: seq<Event>)
      requires Separate() && Matches() && Sane(state.(pedalDown := down))
      requires !down ==> Pops(state.voices.links) == state.voices.deferred
      modifies this, keyboard.Repr, deferredNoteOffs.Repr, availableChannels.Repr, log
      ensures Matches() && hadReset == old(hadReset) && log.Grew(events)
      ensures forall n :: n in old(state).voices.deferred ==> n <= NOTE_MAX
      ensures var pedalled := old(state).(pedalDown := down);
        if down then state == pedalled && events == []
        else state == ReleaseDeferred(pedalled, t).state && events == ReleaseDeferred(pedalled, t).events
    {
      hide Matches, Separate, Sane, WithinSpecs, ReleaseDeferred, Pops, Links.WellFormed;
      SaneDeferred(state.(pedalDown := down));
      SetPedal(down);
      events := [];
      if !down {
        events := ReleaseDeferred(state, t).events;
        ProcessDeferredNoteOffs(t);
      }
    }

    /** What a controller event becomes, apart from the notes that lifting the pedal releases. */
    static ghost function Forwarded(s: State, t: real, cc: nat, value: Ratio): seq<Event> {
      if exists i :: 0 <= i < RULES && Listens(RuleAt(s.params, i), cc)
      then RoutedEvents(s, t, cc, value, RULES)
      else ControlEvents(t, s.zone.manager, cc, value, false)
    }

    static lemma ControlUnfolds(s: State, t: real, cc: nat, value: Ratio)
      requires forall n :: n in s.voices.deferred ==> n <= NOTE_MAX
      ensures var noted, events := Noted(s, cc, value, RULES), Forwarded(s, t, cc, value);
        var pedalled := noted.(pedalDown := value >= 0.5);
        Control(s, t, cc, value)
          == if !(s.HandlesPedal() && cc == SUSTAIN_PEDAL) then Step(noted, events)
             else if value >= 0.5 then Step(pedalled, events)
             else Step(ReleaseDeferred(pedalled, t).state, events + ReleaseDeferred(pedalled, t).events)
    {
      hide RuleAt, RoutedEvents, ControlEvents, Listens, Learned, NotedInputs, ReleaseDeferred, WithinSpecs;
    }

    method SetPedal(down: bool)
      requires Separate() && Matches()
      modifies this`isSustainPedalOn, this`state
      ensures Matches() && state == old(state).(pedalDown := down) && isSustainPedalOn == down
    {
      hide Matches, Active, DeferredHolds, FreeHolds, SplitStatsOf, WithinSpecs;
      TakeApart();
      isSustainPedalOn := down;
      state := state.(pedalDown := down);
      PutTogether();
    }

    lemma NotedFacts(s: State, cc: nat, value: Ratio)
      requires Sane(s)
      ensures var n := Noted(s, cc, value, RULES);
        && n.voices == s.voices && n.params[Z1SUS] == s.params[Z1SUS]
        && Sane(n) && Sane(n.(pedalDown := value >= 0.5))
    {
      hide Conserved, NotesValid, RuleAt;
      LearnedSettings(s.params, cc, RULES);
    }

    /** The loop over rules, and the manager channel if no rule listens. */
    method RouteControllerEvent(t: real, cc: nat, value: Ratio)
      requires Separate() && Matches() && Sane(state)
      modifies this`params, this`lastInput, this`state, log
      ensures Matches() && state == Noted(old(state), cc, value, RULES)
      ensures log.Grew(Forwarded(old(state), t, cc, value))
    {
      hide Matches, Separate, Sane, WithinSpecs, RuleAt, RuleEvents, ControlEvents, Noted, Listens;
      NotedNone(state, cc, value);
      var matched := false;
      var i := 0;
      while i != RULES
        invariant 0 <= i <= RULES && Matches() && state == Noted(old(state), cc, value, i)
        invariant matched <==> exists j :: 0 <= j < i && Listens(RuleAt(old(state).params, j), cc)
        invariant log.Grew(RoutedEvents(old(state), t, cc, value, i))
      {
        ghost var s := old(state);
        var listens := RouteToRule(t, cc, value, i, s);
        Joined(old(log.trace), RoutedEvents(s, t, cc, value, i), RuleEvents(s, t, cc, value, i));
        Joined(old(log.pending), RoutedEvents(s, t, cc, value, i), RuleEvents(s, t, cc, value, i));
        matched := matched || listens;
        i := i + 1;
      }
      if !matched {
        NobodyListens(old(state), t, cc, value, RULES);
        var manager := ManagerChannel();
        PushControllerEvent(t, manager, cc, value, false);
      }
    }

    method ManagerChannel() returns (channel: Byte)
      requires Matches()
      ensures channel == state.zone.manager
    {
      channel := zone.manager;
    }

    lemma NotedKeepsVoices(s: State, cc: nat, value: Ratio, n: nat)
      requires n <= RULES
      ensures Noted(s, cc, value, n).voices == s.voices && Noted(s, cc, value, n).zone == s.zone
    {
    }

    lemma NotedNone(s: State, cc: nat, value: Ratio)
      ensures Noted(s, cc, value, 0) == s
    {
    }

    lemma {:induction false} NobodyListens(s: State, t: real, cc: nat, value: Ratio, n: nat)
      requires n <= RULES && !exists j :: 0 <= j < n && Listens(RuleAt(s.params, j), cc)
      ensures RoutedEvents(s, t, cc, value, n) == [] && Noted(s, cc, value, n).zone == s.zone
    {
      hide RuleAt, WithinSpecs, Listens;
      if n > 0 {
        NobodyListens(s, t, cc, value, n - 1);
      }
    }

    /** One rule: it may learn the controller, and sends its value to each of its targets. */
    method RouteToRule(t: real, cc: nat, value: Ratio, i: nat, ghost s: State) returns (listens: bool)
      requires Separate() && Matches() && i < RULES && Sane(s) && state == Noted(s, cc, value, i)
      modifies this`params, this`lastInput, this`state, log
      ensures Matches() && state == Noted(s, cc, value, i + 1)
      ensures listens <==> Listens(RuleAt(s.params, i), cc)
      ensures log.Grew(RuleEvents(s, t, cc, value, i))
    {
      hide Matches, Separate, Sane, WithinSpecs, RuleAt, TargetChannels, ControlEvents, Rule.Distort, Noted, FanOut;
      NotedKeepsVoices(s, cc, value, i + 1);
      var rule := ReadRule(i, cc, value, s);
      listens := rule.inCc == MIDI_LEARN || rule.inCc == cc;
      NoteInput(rule, i, cc, value, listens, s);
      if !listens {
        return;
      }
      var channels := CollectTargets(rule, s);
      SendToAll(t, channels, rule.outCc, rule.Distort(value, curves));
    }

    method SendToAll(t: real, channels: seq<Byte>, cc: nat, value: real)
      modifies log
      ensures log.Grew(FanOut(t, channels, cc, value))
    {
      hide ControlEvents;
      assert channels[..|channels|] == channels;
      var c := 0;
      while c != |channels|
        invariant 0 <= c <= |channels|
        invariant log.Grew(FanOut(t, channels[..c], cc, value))
      {
        assert channels[..c + 1][..c] == channels[..c];
        Joined(old(log.trace), FanOut(t, channels[..c], cc, value), ControlEvents(t, channels[c], cc, value, false));
        Joined(old(log.pending), FanOut(t, channels[..c], cc, value), ControlEvents(t, channels[c], cc, value, false));
        PushControllerEvent(t, channels[c], cc, value, false);
        c := c + 1;
      }
    }

    method ReadRule(i: nat, cc: nat, value: Ratio, ghost s: State) returns (rule: Rule)
      requires Matches() && i < RULES && state == Noted(s, cc, value, i)
      ensures rule == RuleAt(s.params, i) && curves == s.curves
    {
      hide RuleAt, WithinSpecs, Learned, NotedInputs;
      LearnedElsewhere(s.params, cc, i, i);
      rule := RuleAt(params, i);
    }

    /** src/proxy.cpp:937-949: learn the controller, and remember the value. */
    method NoteInput(rule: Rule, i: nat, cc: nat, value: Ratio, listens: bool, ghost s: State)
      requires Separate() && Matches() && i < RULES && state == Noted(s, cc, value, i)
      requires rule == RuleAt(s.params, i) && (listens <==> Listens(rule, cc))
      modifies this`params, this`lastInput, this`state
      ensures Matches() && state == Noted(s, cc, value, i + 1)
    {
      hide RuleAt, WithinSpecs, SetValue, Keyboard.Valid, DeferredHolds, FreeHolds, SplitStatsOf;
      if rule.inCc == MIDI_LEARN {
        params := SetValue(params, RuleParam(i, IN_CC), cc);
      }
      if listens {
        lastInput := lastInput[i := value];
      }
      state := Noted(s, cc, value, i + 1);
    }

    /** The switch over targets of src/proxy.cpp:955-1058. */
    method CollectTargets(rule: Rule, ghost s: State) returns (channels: seq<Byte>)
      requires Matches() && Sane(s) && state.voices == s.voices && state.zone == s.zone
      requires rule.target <= TRG_NEWEST_ABOVE_ANCHOR
      ensures channels == TargetChannels(s, rule)
    {
      hide Matches, WithinSpecs, Sane, TargetNote, ChannelsOf, Side;
      TakeApart();
      ZoneMatches();
      var isSilent := IsSilent();
      if (isSilent && rule.fallback) || rule.target == TRG_GLOBAL {
        return [zone.manager];
      } else if rule.target == TRG_ALL_BELOW_ANCHOR {
        channels := CollectSide(false, s);
      } else if rule.target == TRG_ALL_ABOVE_ANCHOR {
        channels := CollectSide(true, s);
      } else {
        var note := ExtremeTarget(rule.target);
        channels := if note.Some? then [ChannelOf(channelsByNotes, note.value)] else [];
      }
    }

    method CollectSide(isAbove: bool, ghost s: State) returns (channels: seq<Byte>)
      requires Matches() && Sane(s) && state.voices == s.voices && state.zone == s.zone
      ensures channels == ChannelsOf(Side(s.voices.notes, s.zone.anchor, isAbove), s.voices.channelOf)
    {
      hide WithinSpecs, SplitStatsOf, DeferredHolds, FreeHolds, Sane, ChannelsOf, Keyboard.Valid, Side;
      FewNotes(s);
      channels := keyboard.CollectSide(isAbove, channelsByNotes);
    }

    /** The twelve cases of the switch that name one note. */
    method ExtremeTarget(target: nat) returns (note: Option<Byte>)
      requires Matches() && TRG_LOWEST <= target <= TRG_NEWEST_ABOVE_ANCHOR
      ensures note == TargetNote(target, state.voices.notes, state.zone.anchor)
    {
      hide WithinSpecs, SplitStatsOf, DeferredHolds, FreeHolds, FieldsMatch, Extreme, Keyboard.Valid, Side;
      match target {
        case 3 => note := keyboard.ExtremeOfAll(0);
        case 4 => note := keyboard.ExtremeOfAll(1);
        case 5 => note := keyboard.ExtremeOfAll(2);
        case 6 => note := keyboard.ExtremeOfAll(3);
        case 7 => note := keyboard.ExtremeOfSide(false, 0);
        case 8 => note := keyboard.ExtremeOfSide(false, 1);
        case 9 => note := keyboard.ExtremeOfSide(false, 2);
        case 10 => note := keyboard.ExtremeOfSide(false, 3);
        case 11 => note := keyboard.ExtremeOfSide(true, 0);
        case 12 => note := keyboard.ExtremeOfSide(true, 1);
        case 13 => note := keyboard.ExtremeOfSide(true, 2);
        case _ => note := keyboard.ExtremeOfSide(true, 3);
      }
    }

    lemma FewNotes(s: State)
      requires Sane(s)
      ensures |Side(s.voices.notes, s.zone.anchor, true)| < CHANNELS
      ensures |Side(s.voices.notes, s.zone.anchor, false)| < CHANNELS
    {
      ConservedMeans(s.voices, s.zone);
      SideLength(s.voices.notes, s.zone.anchor, true);
      SideLength(s.voices.notes, s.zone.anchor, false);
    }

    // ---- Controller messages ----

    /** src/proxy.cpp:1162-1213: the three kinds of controller messages, each ignored when repeated. */
    method ControlChange(t: real, controller: Byte, newValue: Byte)
      requires Valid()
      requires WalksList(state, t, controller, newValue, ByteToFloat(newValue)) ==>
        Pops(state.voices.links) == state.voices.deferred
      modifies this, keyboard.Repr, deferredNoteOffs.Repr, availableChannels.Repr, log
      ensures Valid() && hadReset == old(hadReset)
      ensures forall n :: n in old(state).voices.deferred ==> n <= NOTE_MAX
      ensures controller > MAX_MIDI_CC ==> state == old(state) && log.Grew([])
      ensures controller <= MAX_MIDI_CC ==>
        var step := ControlMessage(old(state), t, controller, newValue, ByteToFloat(newValue));
        state == step.state && log.Grew(step.events)
    {
      hide Matches, Inv;
      InvMeans(state);
      if controller > MAX_MIDI_CC {
        return;
      }
      Controller(t, controller, newValue, ByteToFloat(newValue));
    }

    method ChannelPressure(t: real, pressure: Byte)
      requires Valid()
      modifies this, keyboard.Repr, deferredNoteOffs.Repr, availableChannels.Repr, log
      ensures Valid() && hadReset == old(hadReset)
      ensures forall n :: n in old(state).voices.deferred ==> n <= NOTE_MAX
      ensures var step := ControlMessage(old(state), t, PRESSURE, pressure, ByteToFloat(pressure));
        state == step.state && log.Grew(step.events)
    {
      hide Matches, Inv;
      Controller(t, PRESSURE, pressure, ByteToFloat(pressure));
    }

    method PitchWheelChange(t: real, newValue: nat)
      requires Valid()
      modifies this, keyboard.Repr, deferredNoteOffs.Repr, availableChannels.Repr, log
      ensures Valid() && hadReset == old(hadReset)
      ensures forall n :: n in old(state).voices.deferred ==> n <= NOTE_MAX
      ensures var step := ControlMessage(old(state), t, PITCH_WHEEL, newValue, WordToFloat(newValue));
        state == step.state && log.Grew(step.events)
    {
      hide Matches, Inv;
      Controller(t, PITCH_WHEEL, newValue, WordToFloat(newValue));
    }

    method Controller(t: real, cc: nat, raw: int, value: Ratio)
      requires Valid() && (WalksList(state, t, cc, raw, value) ==> Pops(state.voices.links) == state.voices.deferred)
      modifies this, keyboard.Repr, deferredNoteOffs.Repr, availableChannels.Repr, log
      ensures Valid() && hadReset == old(hadReset)
      ensures forall n :: n in old(state).voices.deferred ==> n <= NOTE_MAX
      ensures var step := ControlMessage(old(state), t, cc, raw, value);
        state == step.state && log.Grew(step.events)
    {
      hide Matches, Inv, Separate, Control, Sane;
      InvMeans(state);
      MatchesFields();
      if isSuspended {
        return;
      }
      var repeated := IsRepeatedMessage(t, cc, raw);
      if repeated {
        return;
      }
      ProcessControllerEvent(t, cc, value);
    }

    /** src/proxy.cpp:1100-1120 */
    method IsRepeatedMessage(t: real, cc: nat, raw: int) returns (repeated: bool)
      requires Separate() && Matches() && Inv(state)
      modifies this`previousMessage, this`state
      ensures Matches() && Inv(state)
      ensures repeated <==> IsRepeated(old(state), t, cc, raw)
      ensures state == if repeated then old(state) else old(state).(seen := old(state).seen[cc := (t, raw)])
    {
      hide Keyboard.Valid, DeferredHolds, FreeHolds, SplitStatsOf, WithinSpecs, Conserved, NotesValid;
      if cc in previousMessage && previousMessage[cc] == (t, raw) {
        return true;
      }
      previousMessage := previousMessage[cc := (t, raw)];
      state := state.(seen := previousMessage);
      repeated := false;
    }

    // ---- Resets ----

    /** src/proxy.cpp:1462-1486 */
    method StopAllNotes()
      requires Separate() && Matches() && Inv(state)
      modifies this, keyboard.Repr, deferredNoteOffs.Repr, log
      ensures Matches() && hadReset == old(hadReset) && keyboard.Valid() && keyboard.Blank()
      ensures forall n :: n in old(state).voices.notes ==> n <= NOTE_MAX
      ensures state == StopAll(old(state)).state && log.Grew(StopAll(old(state)).events)
    {
      hide Matches, Separate, Inv, Sane, Playing, NotesValid, StopEach, ControlEvents, Injective, Keyboard.Valid;
      hide Keyboard.Blank;
      InvMeans(state);
      SanePlaying(state);
      StopAllUnfolds(state);
      ghost var pedal := PedalUp(state);
      LiftPedal();
      StopEachNote();
      Joined(old(log.trace), pedal, StopEach(old(state)).events);
      Joined(old(log.pending), pedal, StopEach(old(state)).events);
      ClearStacks();
    }

    /** The release of the synthesizer's own pedal, for all channels at once. */
    ghost function PedalUp(s: State): seq<Event> {
      if s.voices.notes == [] then [] else ControlEvents(0.0, s.zone.manager, SUSTAIN_PEDAL, 0.0, false)
    }

    lemma StopAllUnfolds(s: State)
      requires forall n :: n in s.voices.notes ==> n <= NOTE_MAX
      ensures var each := StopEach(s);
        && StopAll(s).events == PedalUp(s) + each.events
        && StopAll(s).state == each.state.(voices := each.state.voices.Forgotten(), pedalDown := false)
    {
    }

    method LiftPedal()
      requires Separate() && Matches()
      modifies log
      ensures Matches() && log.Grew(PedalUp(state))
    {
      hide Keyboard.Valid, DeferredHolds, FreeHolds, SplitStatsOf, WithinSpecs, ControlEvents;
      if !keyboard.IsEmpty() {
        PushControllerEvent(0.0, zone.manager, SUSTAIN_PEDAL, 0.0, false);
      }
    }

    /** The loop of src/proxy.cpp:1469-1478: its bound of 127 iterations never cuts it short. */
    method StopEachNote()
      requires Separate() && Matches() && Playing(state.voices)
      modifies this, keyboard.Repr, deferredNoteOffs.Repr, log
      ensures forall n :: n in old(state).voices.notes ==> n <= NOTE_MAX
      ensures state == StopEach(old(state)).state && log.Grew(StopEach(old(state)).events)
      ensures state.voices.notes == [] && Matches() && hadReset == old(hadReset)
    {
      hide Matches, Separate, StopNote, StopEach, ControlEvents, Injective;
      ghost var goal := StopEach(state);
      ghost var emitted := [];
      var i := 0;
      var isSilent := Silent();
      while !isSilent && i != NOTE_MAX
        invariant Matches() && Playing(state.voices) && hadReset == old(hadReset)
        invariant isSilent <==> state.voices.notes == []
        invariant 0 <= i && i + |state.voices.notes| == |old(state).voices.notes|
        invariant forall n :: n in state.voices.notes ==> n <= NOTE_MAX
        invariant log.Grew(emitted) && goal == Step(state, emitted).Then(StopEach(state))
        decreases |state.voices.notes|
      {
        ghost var step := StopNewest();
        Joined(emitted, step.events, StopEach(state).events);
        Joined(old(log.trace), emitted, step.events);
        Joined(old(log.pending), emitted, step.events);
        emitted := emitted + step.events;
        i := i + 1;
        isSilent := Silent();
      }
      StopNothing(state);
    }

    lemma StopNothing(s: State)
      requires forall n :: n in s.voices.notes ==> n <= NOTE_MAX
      ensures s.voices.notes == [] ==> StopEach(s) == Step(s, [])
    {
    }

    method Silent() returns (isSilent: bool)
      requires Matches()
      ensures isSilent <==> state.voices.notes == []
    {
      isSilent := keyboard.IsEmpty();
    }

    method StopNewest() returns (ghost step: Step)
      requires Separate() && Matches() && Playing(state.voices) && state.voices.notes != []
      modifies this, keyboard.Repr, deferredNoteOffs.Repr, log
      ensures Matches() && Playing(state.voices) && hadReset == old(hadReset)
      ensures |state.voices.notes| == |old(state).voices.notes| - 1
      ensures forall n :: n in state.voices.notes ==> n <= NOTE_MAX
      ensures forall n :: n in old(state).voices.notes ==> n <= NOTE_MAX
      ensures state == step.state && log.Grew(step.events)
      ensures StopEach(old(state)) == step.Then(StopEach(state))
    {
      hide Matches, Separate, StopNote, StopEach, ControlEvents, Injective, Ready, FieldsMatch, Voices.Stopped;
      StopEachStep(state);
      PlayingStopped(state.voices, state.voices.notes[0]);
      ghost var s := state;
      var note, channel := PopNewest();
      PushControllerEvent(0.0, channel, SUSTAIN_PEDAL, 0.0, false);
      PushNoteOff(0.0, channel, note, 64);
      ghost var pedal := Step(s, ControlEvents(0.0, channel, SUSTAIN_PEDAL, 0.0, false));
      step := pedal.Then(StopNote(s, 0.0, note, 64));
      Joined(old(log.trace), pedal.events, StopNote(s, 0.0, note, 64).events);
      Joined(old(log.pending), pedal.events, StopNote(s, 0.0, note, 64).events);
    }

    method PopNewest() returns (note: Byte, channel: Byte)
      requires Separate() && Matches() && Playing(state.voices) && state.voices.notes != []
      modifies keyboard.Repr
      ensures note == state.voices.notes[0] && note <= NOTE_MAX
      ensures channel == state.voices.channelOf[note] && channelsByNotes == state.voices.channelOf
      ensures Ready(note) && Injective(state.voices.notes, channelsByNotes)
    {
      hide Keyboard.Valid, Keyboard.Popped, FreeHolds, DeferredHolds, SplitStatsOf, WithinSpecs;
      assert state.voices.notes[0] in state.voices.notes;
      note := keyboard.PopNewest();
      channel := channelsByNotes[note];
    }

    /** src/proxy.cpp:1479-1485 */
    method ClearStacks()
      requires Separate() && Matches() && state.voices.notes == []
      modifies this, keyboard.Repr, deferredNoteOffs.Repr
      ensures Matches() && keyboard.Valid() && keyboard.Blank() && hadReset == old(hadReset)
      ensures state == old(state).(voices := old(state).voices.Forgotten(), pedalDown := false)
    {
      hide Matches, Separate, Keyboard.Valid, Keyboard.Blank, Active, DeferredHolds, FreeHolds, SplitStatsOf;
      hide WithinSpecs;
      TakeApart();
      EmptyStacks();
      Forget();
    }

    method EmptyStacks()
      requires Separate() && Matches() && state.voices.notes == []
      modifies keyboard.Repr, deferredNoteOffs.Repr
      ensures Separate() && FieldsMatch() && StatsMatch() && keyboard.Valid() && keyboard.Blank()
      ensures Active([], state.zone.anchor) && DeferredHolds(NoLinks()) && FreeHolds(state.voices.free)
      ensures unchanged(this)
    {
      hide Matches, Keyboard.Valid, Keyboard.Blank, FreeHolds, SplitStatsOf, WithinSpecs, NoteStack.Valid;
      TakeApart();
      deferredNoteOffs.Clear();
      keyboard.Clear();
    }

    method Forget()
      requires Separate() && FieldsMatch() && StatsMatch() && keyboard.Valid() && keyboard.Blank()
      requires state.voices.notes == [] && Active([], state.zone.anchor)
      requires DeferredHolds(NoLinks()) && FreeHolds(state.voices.free)
      modifies this`isSustainPedalOn, this`state
      ensures Matches() && keyboard.Valid() && keyboard.Blank()
      ensures state == old(state).(voices := old(state).voices.Forgotten(), pedalDown := false)
    {
      hide Matches, Keyboard.Valid, Keyboard.Blank, Active, DeferredHolds, FreeHolds, SplitStatsOf, WithinSpecs;
      isSustainPedalOn, state := false, state.(voices := state.voices.Forgotten(), pedalDown := false);
      PutTogether();
    }

    /** src/proxy.cpp:1489-1512 */
    method PushMcms()
      requires zone.Valid()
      modifies log
      ensures log.Grew(Mcms(params, zone))
    {
      hide Mcm;
      if params[MCM].value == 1 {
        var other := 15 - zone.manager;
        Joined(log.trace, Mcm(zone.manager, zone.count), Mcm(other, 0));
        Joined(log.pending, Mcm(zone.manager, zone.count), Mcm(other, 0));
        PushMcm(zone.manager, zone.count);
        PushMcm(other, 0);
      }
    }

    method PushMcm(channel: Byte, count: Byte)
      modifies log
      ensures log.Grew(Mcm(channel, count))
    {
      PushOutEvent(Event(0.0, CONTROL_CHANGE, channel, RPN_MSB, 0, 0.0, false));
      PushOutEvent(Event(0.0, CONTROL_CHANGE, channel, RPN_LSB, 6, 0.0, false));
      PushOutEvent(Event(0.0, CONTROL_CHANGE, channel, DATA_ENTRY_MSB, count, 0.0, false));
    }

    /** src/proxy.cpp:1516-1536 */
    method ResetRulesAndGlobalControllers()
      modifies this`lastInput, log
      ensures lastInput == InitialInputs(params)
      ensures log.Grew(GlobalResets(params, zone.manager, curves, RULES))
    {
      hide GlobalReset, RuleAt;
      var i := 0;
      while i != RULES
        invariant 0 <= i <= RULES
        invariant forall j :: 0 <= j < i ==> lastInput[j] == RuleAt(params, j).initRatio
        invariant log.Grew(GlobalResets(params, zone.manager, curves, i))
      {
        ghost var sent := GlobalResets(params, zone.manager, curves, i);
        ghost var next := GlobalReset(params, zone.manager, curves, i);
        Joined(old(log.trace), sent, next);
        Joined(old(log.pending), sent, next);
        lastInput := lastInput[i := RuleAt(params, i).initRatio];
        PushGlobalReset(i);
        i := i + 1;
      }
      assert lastInput == InitialInputs(params);
    }

    method PushGlobalReset(i: nat)
      requires i < RULES
      modifies log
      ensures log.Grew(GlobalReset(params, zone.manager, curves, i))
    {
      hide RuleAt, ControlEvents, Rule.Distort;
      var rule := RuleAt(params, i);
      if rule.reset != RST_OFF && rule.target == TRG_GLOBAL {
        PushControllerEvent(0.0, zone.manager, rule.outCc, rule.Distort(rule.initRatio, curves), false);
      }
    }

    /** The common part of src/proxy.cpp:1399-1459: stop everything and start afresh in a zone. */
    method RestartIn(newZone: Zone)
      requires Valid() && newZone.Valid()
      modifies this, keyboard.Repr, deferredNoteOffs.Repr, availableChannels.Repr, log
      ensures Valid() && hadReset
      ensures forall n :: n in old(state).voices.notes ==> n <= NOTE_MAX
      ensures state == Restart(old(state), newZone).state && log.Restarted(Restart(old(state), newZone).events)
    {
      hide Matches, Separate, Inv, Sane, StopAll, Mcms, GlobalResets, InitialInputs, Keyboard.Valid, Keyboard.Blank;
      hide Zone.Members;
      InvMeans(state);
      StopAllEmpties(state);
      RestartKeeps(state, newZone);
      MatchesFields();
      ghost var stop := StopAll(state);
      ghost var news := Mcms(state.params, newZone) + GlobalResets(state.params, newZone.manager, state.curves, RULES);
      Joined(log.trace, stop.events, news);
      Joined([], stop.events, news);
      log.pending := [];
      StopAllNotes();
      EnterZone(newZone);
      Announce();
      MarkReset(true);
    }

    method MarkReset(reset: bool)
      requires Matches()
      modifies this`hadReset
      ensures Matches() && hadReset == reset
    {
      hide Keyboard.Valid, DeferredHolds, FreeHolds, SplitStatsOf, WithinSpecs;
      hadReset := reset;
    }

    method EnterZone(newZone: Zone)
      requires Separate() && Matches() && keyboard.Valid() && keyboard.Blank() && state.voices.notes == []
      requires newZone.Valid()
      modifies this`zone, this`state, keyboard.Repr, availableChannels.Repr
      ensures Matches() && state.zone.Valid()
      ensures state == old(state).(voices := old(state).voices.(free := newZone.Members()), zone := newZone)
    {
      hide Matches, DeferredHolds, WithinSpecs, Keyboard.Valid, Keyboard.Blank, Zone.Members;
      TakeApart();
      zone := newZone;
      ResetAvailableChannels();
      keyboard.MoveAnchor(newZone.anchor);
      state := state.(voices := state.voices.(free := newZone.Members()), zone := newZone);
      PutTogether();
    }

    /** Configuration messages and the resets of global rules. */
    method Announce()
      requires Separate() && Matches() && state.zone.Valid()
      modifies this`lastInput, this`state, log
      ensures Matches() && state == old(state).(lastInput := InitialInputs(old(state).params))
      ensures var s := old(state);
        log.Grew(Mcms(s.params, s.zone) + GlobalResets(s.params, s.zone.manager, s.curves, RULES))
    {
      hide Matches, Active, DeferredHolds, FreeHolds, WithinSpecs, SplitStatsOf, GlobalResets, InitialInputs, Mcms;
      TakeApart();
      PushNews();
      state := state.(lastInput := InitialInputs(params));
      PutTogether();
    }

    method PushNews()
      requires zone.Valid()
      modifies this`lastInput, log
      ensures lastInput == InitialInputs(params)
      ensures log.Grew(Mcms(params, zone) + GlobalResets(params, zone.manager, curves, RULES))
    {
      hide WithinSpecs, GlobalResets, InitialInputs, Mcms;
      ghost var mcms, resets := Mcms(params, zone), GlobalResets(params, zone.manager, curves, RULES);
      Joined(log.trace, mcms, resets);
      Joined(log.pending, mcms, resets);
      PushMcms();
      ResetRulesAndGlobalControllers();
    }

    /** src/proxy.cpp:1412-1459 */
    method UpdateZoneConfig() returns (changed: bool)
      requires Valid()
      modifies this, keyboard.Repr, deferredNoteOffs.Repr, availableChannels.Repr, log
      ensures Valid() && (hadReset <==> old(hadReset) || changed)
      ensures forall n :: n in old(state).voices.notes ==> n <= NOTE_MAX
      ensures changed <==> ConfiguredZone(old(state).params) != old(state).zone
      ensures state == UpdateZone(old(state)).state
      ensures if changed then log.Restarted(UpdateZone(old(state)).events) else log.Grew([]) && state == old(state)
    {
      hide Matches, Separate, Inv, Sane, Restart;
      InvMeans(state);
      var newZone := ConfiguredZone(params);
      MatchesFields();
      if newZone.count == zone.count && newZone.manager == zone.manager && newZone.offsetBelow == zone.offsetBelow
         && newZone.offsetAbove == zone.offsetAbove && newZone.anchor == zone.anchor
      {
        return false;
      }
      RestartIn(newZone);
      changed := true;
    }

    /** src/proxy.cpp:1399-1409 */
    method Reset()
      requires Valid()
      modifies this, keyboard.Repr, deferredNoteOffs.Repr, availableChannels.Repr, log
      ensures Valid() && hadReset
      ensures forall n :: n in old(state).voices.notes ==> n <= NOTE_MAX
      ensures state == ProxyModel.Reset(old(state)).state && log.Restarted(ProxyModel.Reset(old(state)).events)
    {
      hide Matches, Separate, Inv, Sane, Restart, ConfiguredZone;
      InvMeans(state);
      var changed := UpdateZoneConfig();
      if !changed {
        MatchesFields();
        RestartIn(zone);
      }
    }

    /** src/proxy.cpp:377-388 */
    method Suspend()
      requires Valid()
      modifies this`isSuspended, this`state
      ensures Valid() && state == old(state).(suspended := true)
    {
      hide Keyboard.Valid, DeferredHolds, FreeHolds, SplitStatsOf, WithinSpecs, Conserved, NotesValid;
      isSuspended := true;
      state := state.(suspended := true);
    }

    method Resume()
      requires Valid()
      modifies this, keyboard.Repr, deferredNoteOffs.Repr, availableChannels.Repr, log
      ensures Valid() && hadReset
      ensures forall n :: n in old(state).voices.notes ==> n <= NOTE_MAX
      ensures var step := ProxyModel.Reset(old(state).(suspended := false));
        state == step.state && log.Restarted(step.events)
    {
      hide Matches, Inv, Restart, ConfiguredZone;
      WakeUp();
      Reset();
    }

    method WakeUp()
      requires Valid()
      modifies this`isSuspended, this`state
      ensures Valid() && state == old(state).(suspended := false)
    {
      hide Keyboard.Valid, DeferredHolds, FreeHolds, SplitStatsOf, WithinSpecs, Conserved, NotesValid;
      isSuspended := false;
      state := state.(suspended := false);
    }

    /** src/proxy.cpp:1356-1367 */
    method HandleSetParam(id: nat, ratio: real)
      requires Valid() && id < PARAM_ID_COUNT
      modifies this`params, this`state
      ensures Valid() && state == old(state).(params := SetRatio(old(state).params, id, ratio))
    {
      hide Keyboard.Valid, DeferredHolds, FreeHolds, SplitStatsOf, WithinSpecs, SetRatio, Conserved, NotesValid;
      params := SetRatio(params, id, ratio);
      state := state.(params := params);
    }

    /** src/proxy.cpp:1376-1390 */
    method HandleClear()
      requires Valid()
      modifies this`params, this`state
      ensures Valid() && state == old(state).(params := Cleared(old(state).params, PARAM_ID_COUNT))
    {
      hide Matches, Inv, Separate, SetRatio, DefaultRatio;
      var i := 0;
      while i != PARAM_ID_COUNT
        invariant 0 <= i <= PARAM_ID_COUNT && Valid()
        invariant state == old(state).(params := Cleared(old(state).params, i))
      {
        HandleSetParam(i, DefaultRatio(i));
        i := i + 1;
      }
    }

    /** src/proxy.cpp:1331-1353 */
    method ProcessMessage(request: Request)
      requires Valid() && request.Valid()
      modifies this`params, this`state
      ensures Valid() && state == old(state).(params := Answered(old(state).params, request))
    {
      hide Matches, Inv, SetRatio, Cleared;
      match request {
        case SetParamRequest(id, ratio) => HandleSetParam(id, ratio);
        case ClearRequest => HandleClear();
        case _ =>
      }
    }

    /** src/proxy.cpp:1306-1317: all messages that were waiting, in order. */
    method ProcessMessages(requests: seq<Request>)
      requires Valid() && forall r :: r in requests ==> r.Valid()
      modifies this`params, this`state
      ensures Valid() && state == old(state).(params := AllAnswered(old(state).params, requests))
    {
      hide Matches, Inv, Answered;
      var i := 0;
      while i != |requests|
        invariant 0 <= i <= |requests| && Valid() && forall r :: r in requests[..i] ==> r.Valid()
        invariant state == old(state).(params := AllAnswered(old(state).params, requests[..i]))
      {
        assert requests[i] in requests && requests[..i + 1][..i] == requests[..i];
        ProcessMessage(requests[i]);
        i := i + 1;
      }
      assert requests[..i] == requests;
    }

    /** src/proxy.cpp:1539-1554: messages first, also while suspended; then the zone and the pending events. */
    method BeginProcessing(requests: seq<Request>) returns (changed: bool)
      requires Valid() && forall r :: r in requests ==> r.Valid()
      modifies this, keyboard.Repr, deferredNoteOffs.Repr, availableChannels.Repr, log
      ensures Valid()
      ensures forall n :: n in old(state).voices.notes ==> n <= NOTE_MAX
      ensures var s := old(state); var step := ProxyModel.BeginBlock(s.(params := AllAnswered(s.params, requests)));
        && state == step.state && log.trace == old(log.trace) + step.events
        && (s.suspended ==> log.pending == old(log.pending) && hadReset == old(hadReset))
        && (!s.suspended ==>
              !hadReset
              && log.pending == if changed then step.events else if old(hadReset) then old(log.pending) else [])
    {
      hide Matches, Inv, AllAnswered, UpdateZone;
      ProcessMessages(requests);
      changed := BeginBlock();
    }

    /** What follows the processing of messages at the start of a block. */
    method BeginBlock() returns (changed: bool)
      requires Valid()
      modifies this, keyboard.Repr, deferredNoteOffs.Repr, availableChannels.Repr, log
      ensures Valid()
      ensures forall n :: n in old(state).voices.notes ==> n <= NOTE_MAX
      ensures state == ProxyModel.BeginBlock(old(state)).state
      ensures log.trace == old(log.trace) + ProxyModel.BeginBlock(old(state)).events
      ensures old(state).suspended ==> log.pending == old(log.pending) && hadReset == old(hadReset)
      ensures !old(state).suspended ==> !hadReset
      ensures !old(state).suspended ==>
        log.pending == (if changed then ProxyModel.BeginBlock(old(state)).events
                        else if old(hadReset) then old(log.pending) else [])
    {
      hide Matches, Inv, Restart, ConfiguredZone;
      changed := false;
      InvMeans(state);
      MatchesFields();
      if isSuspended {
        return;
      }
      changed := UpdateZoneConfig();
      if hadReset {
        MarkReset(false);
      } else {
        log.pending := [];
      }
    }
  }
}
