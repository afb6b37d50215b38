/** What the note calls send, said from outside the model: which rule, which channel, which value. */
module ProxyCalls {
  import opened Midi
  import opened Sequences
  import opened NoteStacks
  import opened Params
  import opened ProxyModel
  import opened ProxyInvariant
  import opened Retargeting
  import opened ProxyRuns
  import opened ProxyRouting
  import opened ProxyProperties

  // ---- Messages and values ----

  /** One block of events per rule, or per note, in order. */
  function Flatten(blocks: seq<seq<Event>>): seq<Event> {
    if blocks == [] then [] else Flatten(blocks[..|blocks| - 1]) + blocks[|blocks| - 1]
  }

  lemma FlattenNext(blocks: seq<seq<Event>>, block: seq<Event>)
    ensures Flatten(blocks + [block]) == Flatten(blocks) + block
  {
    assert (blocks + [block])[..|blocks|] == blocks;
  }

  /** One message for a controller, or none when the identifier stands for no controller. */
  function Message(t: real, channel: Byte, cc: nat, value: real, setup: bool): seq<Event> {
    if Sends(cc) then [ControlEvent(t, channel, cc, value).(preNoteOnSetup := setup)] else []
  }

  lemma MessageIs(t: real, channel: Byte, cc: nat, value: real, setup: bool)
    requires channel <= CHANNEL_MAX
    ensures ControlEvents(t, channel, cc, value, setup) == Message(t, channel, cc, value, setup)
  {
    hide FloatToWord, FloatToByte;
  }

  /** src/proxy.cpp:185-199: the rule has resets on and its target can be a note on the side of `note`. */
  predicate Resets(rule: Rule, note: Byte, anchor: Byte) {
    rule.reset != RST_OFF && rule.target != TRG_GLOBAL
    && (rule.target == TRG_ALL_BELOW_ANCHOR ==> note < anchor)
    && (rule.target == TRG_ALL_ABOVE_ANCHOR ==> note >= anchor)
  }

  /** The group targets, and rules that ask for it, are reset to the last input; the others to the initial value. */
  function ResetOutput(s: State, i: nat): Ratio
    requires i < RULES
  {
    var rule := RuleAt(s.params, i);
    rule.Distort(if rule.reset == RST_LAST || rule.target in {TRG_ALL_BELOW_ANCHOR, TRG_ALL_ABOVE_ANCHOR}
                 then s.lastInput[i] else rule.initRatio, s.curves)
  }

  lemma ResetsAre(s: State, i: nat, note: Byte)
    requires i < RULES
    ensures var rule := RuleAt(s.params, i);
      && (rule.NeedsResetForNoteEvent(note >= s.zone.anchor) <==> Resets(rule, note, s.zone.anchor))
      && rule.ResetValue(s.lastInput[i], s.curves) == ResetOutput(s, i)
  {
    hide RuleAt, Rule.Distort, WithinSpecs;
  }

  /** To the note that a rule's target has moved to: it is the target among `ours` but not among `theirs`. */
  ghost function Moved(rule: Rule, t: real, ours: seq<Byte>, theirs: seq<Byte>, table: NoteTable, anchor: Byte,
                       value: real): seq<Event>
  {
    if rule.target >= TRG_LOWEST
       && exists n: Byte :: IsTarget(rule.target, ours, anchor, n) && !IsTarget(rule.target, theirs, anchor, n)
    then
      var n: Byte :| IsTarget(rule.target, ours, anchor, n) && !IsTarget(rule.target, theirs, anchor, n);
      Message(t, ChannelOf(table, n), rule.outCc, value, false)
    else []
  }

  lemma MovedIs(rule: Rule, t: real, ours: seq<Byte>, theirs: seq<Byte>, table: NoteTable, anchor: Byte, value: real)
    requires rule.target <= TRG_NEWEST_ABOVE_ANCHOR && forall n :: n in ours ==> ChannelOf(table, n) <= CHANNEL_MAX
    ensures RetargetEvents(rule, t, ours, theirs, table, anchor, value)
         == Moved(rule, t, ours, theirs, table, anchor, value)
  {
    hide TargetNote, IsTarget, ControlEvents, Message, ChannelOf;
    if rule.target < TRG_LOWEST {
      NoTargetNote(rule.target, ours, anchor);
    } else {
      var mine := TargetNote(rule.target, ours, anchor);
      forall n: Byte
        ensures mine == Some(n) <==> IsTarget(rule.target, ours, anchor, n)
        ensures TargetNote(rule.target, theirs, anchor) == Some(n) <==> IsTarget(rule.target, theirs, anchor, n)
      {
        TargetNoteIsTarget(rule.target, ours, anchor, n);
        TargetNoteIsTarget(rule.target, theirs, anchor, n);
      }
      if mine.Some? {
        TargetIsActive(rule.target, ours, anchor, mine.value);
        MessageIs(t, ChannelOf(table, mine.value), rule.outCc, value, false);
      }
    }
  }

  lemma NoTargetNote(target: nat, notes: seq<Byte>, anchor: Byte)
    requires target < TRG_LOWEST
    ensures TargetNote(target, notes, anchor) == None
  {
  }

  lemma TargetIsActive(target: nat, notes: seq<Byte>, anchor: Byte, n: Byte)
    requires IsTarget(target, notes, anchor, n)
    ensures n in notes
  {
  }

  // ---- Starting and stopping a note ----

  /** src/proxy.cpp:537-543 */
  function PitchIn(zone: Zone, note: Byte): Byte {
    Clamp(note + (if note >= zone.anchor then zone.offsetAbove else zone.offsetBelow), 0, 127)
  }

  /** `note` starts on `channel` among `others`: what rule `i` sends before (`setup`) or after the note-on. */
  ghost function SetUpBlock(s: State, i: nat, t: real, others: seq<Byte>, channel: Byte, note: Byte,
                            setup: bool): seq<Event>
    requires i < RULES
  {
    var rule, v := RuleAt(s.params, i), ResetOutput(s, i);
    if !Resets(rule, note, s.zone.anchor) then []
    else
      (if setup then Moved(rule, t, others, [note] + others, s.voices.channelOf, s.zone.anchor, v) else [])
      + (if others == [] && rule.fallback then Message(t, s.zone.manager, rule.outCc, v, setup) else [])
      + Message(t, channel, rule.outCc, v, setup)
  }

  ghost predicate StartsWith(events: seq<Event>, s: State, t: real, others: seq<Byte>, channel: Byte, note: Byte,
                             velocity: Byte, before: seq<seq<Event>>, after: seq<seq<Event>>)
  {
    |before| == |after| == RULES
    && events == Flatten(before)
                 + [Event(t, NOTE_ON, channel, PitchIn(s.zone, note), velocity, ByteToFloat(velocity), false)]
                 + Flatten(after)
    && (forall i :: 0 <= i < RULES ==> before[i] == SetUpBlock(s, i, t, others, channel, note, true))
    && (forall i :: 0 <= i < RULES ==> after[i] == SetUpBlock(s, i, t, others, channel, note, false))
  }

  /** The events of a note that starts: set-up rule by rule, the note-on, and the set-up again. */
  ghost predicate Starts(events: seq<Event>, s: State, t: real, others: seq<Byte>, channel: Byte, note: Byte,
                         velocity: Byte)
  {
    exists before, after :: StartsWith(events, s, t, others, channel, note, velocity, before, after)
  }

  ghost predicate StopsWith(events: seq<Event>, s: State, t: real, notes: seq<Byte>, note: Byte, velocity: Byte,
                            resets: seq<seq<Event>>)
    requires note <= NOTE_MAX
  {
    var v := if s.params[Z1ORV].value == 1 then s.voices.velocityOf[note] else velocity;
    && |resets| == RULES
    && events == [Event(t, NOTE_OFF, s.voices.channelOf[note], PitchIn(s.zone, note), v, ByteToFloat(v), false)]
                 + Flatten(resets)
    && forall i :: 0 <= i < RULES ==> var rule := RuleAt(s.params, i);
         resets[i] == if Resets(rule, note, s.zone.anchor)
                      then Moved(rule, t, Without(notes, note), notes, s.voices.channelOf, s.zone.anchor,
                                 ResetOutput(s, i))
                      else []
  }

  /** The events of a note of `notes` that stops: the note-off, then one event for each target that has moved. */
  ghost predicate Stops(events: seq<Event>, s: State, t: real, notes: seq<Byte>, note: Byte, velocity: Byte)
    requires note <= NOTE_MAX
  {
    exists resets :: StopsWith(events, s, t, notes, note, velocity, resets)
  }

  // ---- The model sends just that ----

  /** The channels of active notes are channels. */
  ghost predicate OnChannels(notes: seq<Byte>, table: NoteTable) {
    forall n :: n in notes ==> n <= NOTE_MAX && ChannelOf(table, n) <= CHANNEL_MAX
  }

  lemma SaneOnChannels(s: State)
    requires Sane(s)
    ensures OnChannels(s.voices.notes, s.voices.channelOf) && s.zone.manager <= CHANNEL_MAX
  {
    hide WithinSpecs, Conserved;
    ConservedInjective(s.voices, s.zone);
    forall n | n in s.voices.notes
      ensures ChannelOf(s.voices.channelOf, n) <= CHANNEL_MAX
    {
      ChannelsInjective(s.voices, s.zone, n, n);
    }
  }

  lemma SetUpBlockIs(s: State, i: nat, t: real, channel: Byte, note: Byte, velocity: Byte, setup: bool)
    requires i < RULES && note <= NOTE_MAX && channel <= CHANNEL_MAX && s.zone.manager <= CHANNEL_MAX
    requires OnChannels(s.voices.notes, s.voices.channelOf) && note !in s.voices.notes
    ensures NewNoteReset(s.(voices := s.voices.Started(channel, note, velocity)), t, i, setup)
         == SetUpBlock(s, i, t, s.voices.notes, channel, note, setup)
  {
    hide RuleAt, ResetOutput, Resets, Rule.ResetValue, Rule.NeedsResetForNoteEvent, RetargetEvents, Moved, Message;
    hide ControlEvents, WithinSpecs;
    var others, table := s.voices.notes, s.voices.channelOf[note := channel];
    assert ([note] + others)[1..] == others;
    var rule, v := RuleAt(s.params, i), ResetOutput(s, i);
    ResetsAre(s, i, note);
    MovedIs(rule, t, others, [note] + others, table, s.zone.anchor, v);
    MovedElsewhere(rule, t, others, [note] + others, s.voices.channelOf, note, channel, s.zone.anchor, v);
    MessageIs(t, s.zone.manager, rule.outCc, v, setup);
    MessageIs(t, channel, rule.outCc, v, setup);
  }

  lemma MovedElsewhere(rule: Rule, t: real, ours: seq<Byte>, theirs: seq<Byte>, table: NoteTable, note: Byte,
                       channel: Byte, anchor: Byte, value: real)
    requires note <= NOTE_MAX && note !in ours
    ensures Moved(rule, t, ours, theirs, table[note := channel], anchor, value)
         == Moved(rule, t, ours, theirs, table, anchor, value)
  {
    hide Message, IsLatest, IsEarliest, Concerns;
  }

  lemma {:induction false} NewNoteBlocks(s: State, t: real, n: nat, channel: Byte, note: Byte, velocity: Byte,
                                         setup: bool) returns (blocks: seq<seq<Event>>)
    requires n <= RULES && note <= NOTE_MAX && channel <= CHANNEL_MAX && s.zone.manager <= CHANNEL_MAX
    requires OnChannels(s.voices.notes, s.voices.channelOf) && note !in s.voices.notes
    ensures |blocks| == n
    ensures Flatten(blocks) == NewNoteResets(s.(voices := s.voices.Started(channel, note, velocity)), t, n, setup)
    ensures forall i :: 0 <= i < n ==> blocks[i] == SetUpBlock(s, i, t, s.voices.notes, channel, note, setup)
  {
    hide NewNoteReset, SetUpBlock, WithinSpecs, OnChannels;
    blocks := [];
    if n > 0 {
      var most := NewNoteBlocks(s, t, n - 1, channel, note, velocity, setup);
      var last := SetUpBlock(s, n - 1, t, s.voices.notes, channel, note, setup);
      SetUpBlockIs(s, n - 1, t, channel, note, velocity, setup);
      FlattenNext(most, last);
      blocks := most + [last];
    }
  }

  lemma StartNoteMeans(s: State, t: real, channel: Byte, note: Byte, velocity: Byte)
    requires note <= NOTE_MAX && channel <= CHANNEL_MAX && s.zone.manager <= CHANNEL_MAX
    requires OnChannels(s.voices.notes, s.voices.channelOf) && note !in s.voices.notes
    ensures Starts(StartNote(s, t, channel, note, velocity).events, s, t, s.voices.notes, channel, note, velocity)
  {
    hide NewNoteResets, SetUpBlock, WithinSpecs, Flatten, OnChannels, PitchIn;
    PitchIs(s.zone, note);
    var before := NewNoteBlocks(s, t, RULES, channel, note, velocity, true);
    var after := NewNoteBlocks(s, t, RULES, channel, note, velocity, false);
    assert StartsWith(StartNote(s, t, channel, note, velocity).events, s, t, s.voices.notes, channel, note, velocity,
                      before, after);
  }

  lemma PitchIs(zone: Zone, note: Byte)
    ensures zone.Transpose(note) == PitchIn(zone, note)
  {
  }

  lemma NoteOffResetIs(s: State, i: nat, t: real, note: Byte)
    requires i < RULES && OnChannels(s.voices.notes, s.voices.channelOf)
    ensures var rule := RuleAt(s.params, i);
      NoteOffReset(s.(voices := s.voices.Stopped(note)), s.voices.notes, t, note >= s.zone.anchor, i)
        == if Resets(rule, note, s.zone.anchor)
           then Moved(rule, t, Without(s.voices.notes, note), s.voices.notes, s.voices.channelOf, s.zone.anchor,
                      ResetOutput(s, i))
           else []
  {
    hide RuleAt, ResetOutput, Resets, Rule.ResetValue, Rule.NeedsResetForNoteEvent, RetargetEvents, Moved, WithinSpecs;
    ResetsAre(s, i, note);
    WithoutMembers(s.voices.notes, note);
    MovedIs(RuleAt(s.params, i), t, Without(s.voices.notes, note), s.voices.notes, s.voices.channelOf, s.zone.anchor,
            ResetOutput(s, i));
  }

  lemma {:induction false} NoteOffBlocks(s: State, t: real, n: nat, note: Byte) returns (blocks: seq<seq<Event>>)
    requires n <= RULES && OnChannels(s.voices.notes, s.voices.channelOf)
    ensures |blocks| == n
    ensures Flatten(blocks)
         == NoteOffResets(s.(voices := s.voices.Stopped(note)), s.voices.notes, t, note >= s.zone.anchor, n)
    ensures forall i :: 0 <= i < n ==> var rule := RuleAt(s.params, i);
      blocks[i] == if Resets(rule, note, s.zone.anchor)
                   then Moved(rule, t, Without(s.voices.notes, note), s.voices.notes, s.voices.channelOf,
                              s.zone.anchor, ResetOutput(s, i))
                   else []
  {
    hide NoteOffReset, Moved, Resets, RuleAt, ResetOutput, WithinSpecs, OnChannels, Voices.Stopped;
    blocks := [];
    if n > 0 {
      var most := NoteOffBlocks(s, t, n - 1, note);
      var last := NoteOffReset(s.(voices := s.voices.Stopped(note)), s.voices.notes, t, note >= s.zone.anchor, n - 1);
      NoteOffResetIs(s, n - 1, t, note);
      FlattenNext(most, last);
      blocks := most + [last];
    }
  }

  lemma StopNoteMeans(s: State, t: real, note: Byte, velocity: Byte)
    requires note in s.voices.notes && note <= NOTE_MAX && OnChannels(s.voices.notes, s.voices.channelOf)
    ensures Stops(StopNote(s, t, note, velocity).events, s, t, s.voices.notes, note, velocity)
  {
    hide NoteOffResets, Moved, Resets, RuleAt, ResetOutput, WithinSpecs, Flatten, PitchIn, Voices.Stopped;
    PitchIs(s.zone, note);
    var resets := NoteOffBlocks(s, t, RULES, note);
    assert StopsWith(StopNote(s, t, note, velocity).events, s, t, s.voices.notes, note, velocity, resets);
  }

  // ---- The note calls ----

  ghost predicate ReplacesWith(events: seq<Event>, s: State, t: real, victim: Byte, note: Byte, velocity: Byte,
                               off: seq<Event>, on: seq<Event>)
  {
    victim <= NOTE_MAX && events == off + on && Stops(off, s, t, s.voices.notes, victim, 64)
    && Starts(on, s, t, Without(s.voices.notes, victim), s.voices.channelOf[victim], note, velocity)
  }

  /** `victim` stops with velocity 64, and `note` starts on its channel. */
  ghost predicate Replaces(events: seq<Event>, s: State, t: real, victim: Byte, note: Byte, velocity: Byte) {
    exists off, on :: ReplacesWith(events, s, t, victim, note, velocity, off, on)
  }

  /** Which note a note-on stops, which channel it takes, and all that it sends. */
  ghost predicate AnswersNoteOn(events: seq<Event>, s: State, t: real, note: Byte, velocity: Byte) {
    var v := s.voices;
    if s.suspended || (s.params[Z1ENH].value == ENH_IGNORE && (note in v.notes || v.free == [])) then events == []
    else if note in v.notes then Replaces(events, s, t, note, note, velocity)
    else if v.free == [] then
      exists victim :: IsVictim(s, victim) && Replaces(events, s, t, victim, note, velocity)
    else Starts(events, s, t, v.notes, v.free[0], note, velocity)
  }

  lemma NoteOnSends(s: State, t: real, note: Byte, velocity: Byte)
    requires Inv(s) && HasNotes(s) && note <= NOTE_MAX
    ensures AnswersNoteOn(NoteOn(s, t, note, velocity).events, s, t, note, velocity)
  {
    hide StartNote, Replace, Starts, Stops, Replaces, WithinSpecs, Sane, Conserved;
    InvMeans(s);
    if s.suspended || (s.params[Z1ENH].value == ENH_IGNORE && (note in s.voices.notes || s.voices.free == [])) {
    } else if note in s.voices.notes {
      ReplaceMeans(s, t, note, note, velocity);
    } else if s.voices.free == [] {
      StealingReplacesVictim(s, t, note, velocity);
      ReplaceMeans(s, t, Victim(s).value, note, velocity);
    } else {
      TakenMeans(s, t, note, velocity);
    }
  }

  lemma TakenMeans(s: State, t: real, note: Byte, velocity: Byte)
    requires Sane(s) && s.voices.free != [] && note <= NOTE_MAX && note !in s.voices.notes
    ensures var taken := s.(voices := s.voices.(free := s.voices.free[1..]));
      Starts(StartNote(taken, t, s.voices.free[0], note, velocity).events, s, t, s.voices.notes, s.voices.free[0],
             note, velocity)
  {
    hide StartNote, Starts, WithinSpecs, Conserved, InHand, OnChannels;
    SaneOnChannels(s);
    TakeFreeFacts(s);
    var taken := s.(voices := s.voices.(free := s.voices.free[1..]));
    SoundingElsewhere(taken.voices, s.zone, s.voices.free[0]);
    StartNoteMeans(taken, t, s.voices.free[0], note, velocity);
    StartsElsewhere(StartNote(taken, t, s.voices.free[0], note, velocity).events, taken, s, t, s.voices.notes,
                    s.voices.free[0], note, velocity);
  }

  lemma ReplaceMeans(s: State, t: real, victim: Byte, note: Byte, velocity: Byte)
    requires Sane(s) && victim in s.voices.notes && victim <= NOTE_MAX && note <= NOTE_MAX
    requires note == victim || note !in s.voices.notes
    ensures Replaces(Replace(s, t, victim, note, velocity).events, s, t, victim, note, velocity)
  {
    hide StartNote, StopNote, Starts, Stops, WithinSpecs, Sane, InHand, Conserved, Playing, OnChannels, NotesValid;
    SaneMeans(s);
    SanePlaying(s);
    SaneOnChannels(s);
    StopFacts(s, t, victim, 64);
    StopNoteMeans(s, t, victim, 64);
    var stop, channel := StopNote(s, t, victim, 64), s.voices.channelOf[victim];
    StoppedOnChannels(s.voices, victim);
    SoundingElsewhere(stop.state.voices, s.zone, channel);
    StartNoteMeans(stop.state, t, channel, note, velocity);
    var on := StartNote(stop.state, t, channel, note, velocity).events;
    StartsElsewhere(on, stop.state, s, t, Without(s.voices.notes, victim), channel, note, velocity);
    assert ReplacesWith(Replace(s, t, victim, note, velocity).events, s, t, victim, note, velocity, stop.events, on);
  }

  lemma StoppedOnChannels(v: Voices, note: Byte)
    requires OnChannels(v.notes, v.channelOf)
    ensures OnChannels(v.Stopped(note).notes, v.Stopped(note).channelOf)
    ensures v.Stopped(note).notes == Without(v.notes, note)
    ensures v.Stopped(note).channelOf == v.channelOf
  {
    WithoutMembers(v.notes, note);
  }

  lemma StartsElsewhere(events: seq<Event>, s: State, r: State, t: real, others: seq<Byte>, channel: Byte, note: Byte,
                        velocity: Byte)
    requires r.params == s.params && r.zone == s.zone && r.lastInput == s.lastInput && r.curves == s.curves
    requires r.voices.channelOf == s.voices.channelOf && Starts(events, s, t, others, channel, note, velocity)
    ensures Starts(events, r, t, others, channel, note, velocity)
  {
    hide Flatten, Moved, Message, Resets, RuleAt, WithinSpecs, PitchIn;
    var before, after :| StartsWith(events, s, t, others, channel, note, velocity, before, after);
    assert StartsWith(events, r, t, others, channel, note, velocity, before, after);
  }

  /** Whether a note-off is kept back until the pedal is lifted. */
  predicate KeptBack(s: State) {
    s.params[Z1SUS].value == 1 && s.pedalDown
  }

  /**
   A note-off ends an active note at once, with its own velocity or that of the note-on, unless the pedal keeps it
   back; then it changes nothing but the deferred notes. Otherwise it does nothing.
   */
  lemma NoteOffSends(s: State, t: real, note: Byte, velocity: Byte)
    requires Inv(s) && HasNotes(s) && note <= NOTE_MAX
    ensures var step, v := NoteOff(s, t, note, velocity), s.voices;
      if s.suspended || note !in v.notes then step == Step(s, [])
      else if KeptBack(s) then
        && step.events == [] && step.state == s.(voices := step.state.voices)
        && step.state.voices.deferred == [note] + Without(v.deferred, note) && step.state.voices.notes == v.notes
        && step.state.voices.free == v.free && step.state.voices.channelOf == v.channelOf
        && step.state.voices.releaseVelocityOf == v.releaseVelocityOf[note := velocity]
      else
        && Stops(step.events, s, t, v.notes, note, velocity)
        && step.state.voices.notes == Without(v.notes, note) && step.state.voices.free == v.free + [v.channelOf[note]]
  {
    hide StopNote, Stops, WithinSpecs, Sane;
    InvMeans(s);
    SaneOnChannels(s);
    if note in s.voices.notes {
      StopNoteMeans(s, t, note, velocity);
    }
  }

  /** The note-off of an ordinary note, on its own. */
  lemma ReleaseVelocityIsSent(s: State, t: real, note: Byte, velocity: Byte)
    requires Inv(s) && HasNotes(s) && note in s.voices.notes && note <= NOTE_MAX && !s.suspended && !KeptBack(s)
    ensures var v := if s.params[Z1ORV].value == 1 then s.voices.velocityOf[note] else velocity;
      NotesOnly(NoteOff(s, t, note, velocity).events)
        == [Event(t, NOTE_OFF, s.voices.channelOf[note], PitchIn(s.zone, note), v, ByteToFloat(v), false)]
  {
    hide StopNote, WithinSpecs, Sane, NotesOnly;
    InvMeans(s);
    SaneOnChannels(s);
    StopNoteSends(s, t, note, velocity);
    PitchIs(s.zone, note);
  }

  // ---- The set-up of the new channel ----

  function ToChannel(events: seq<Event>, channel: Byte): seq<Event> {
    if events == [] then []
    else if events[0].channel == channel then [events[0]] + ToChannel(events[1..], channel)
    else ToChannel(events[1..], channel)
  }

  lemma {:induction false} ToChannelConcat(a: seq<Event>, b: seq<Event>, channel: Byte)
    ensures ToChannel(a + b, channel) == ToChannel(a, channel) + ToChannel(b, channel)
  {
    if a == [] {
      assert a + b == b;
    } else {
      assert (a + b)[1..] == a[1..] + b;
      ToChannelConcat(a[1..], b, channel);
    }
  }

  lemma ToChannelOfMessage(t: real, to: Byte, cc: nat, value: real, setup: bool, channel: Byte)
    ensures var sent := Message(t, to, cc, value, setup);
      ToChannel(sent, channel) == if to == channel then sent else []
  {
    hide FloatToWord, FloatToByte;
    var sent := Message(t, to, cc, value, setup);
    assert sent != [] ==> sent[1..] == [];
  }

  predicate SetsUp(s: State, i: nat, note: Byte)
    requires i < RULES
  {
    Resets(RuleAt(s.params, i), note, s.zone.anchor) && Sends(RuleAt(s.params, i).outCc)
  }

  /** The rules below `n`, in order, that set a new note up. */
  function SettingUp(s: State, note: Byte, n: nat): seq<nat>
    requires n <= RULES
  {
    if n == 0 then []
    else if SetsUp(s, n - 1, note) then SettingUp(s, note, n - 1) + [n - 1]
    else SettingUp(s, note, n - 1)
  }

  lemma {:induction false} SettingUpMeans(s: State, note: Byte, n: nat)
    requires n <= RULES
    ensures var rules := SettingUp(s, note, n);
      && (forall j, k :: 0 <= j < k < |rules| ==> rules[j] < rules[k])
      && forall i: nat :: i in rules <==> i < n && SetsUp(s, i, note)
  {
    hide SetsUp, WithinSpecs;
    if n > 0 {
      SettingUpMeans(s, note, n - 1);
      var rules := SettingUp(s, note, n - 1);
      assert forall k :: 0 <= k < |rules| ==> rules[k] in rules;
    }
  }

  /** `sent` is one event for each of these rules. */
  ghost predicate OnePerRule(sent: seq<Event>, rules: seq<nat>, s: State, t: real, channel: Byte, setup: bool) {
    |sent| == |rules| && forall k :: 0 <= k < |rules| ==>
      && rules[k] < RULES && Sends(RuleAt(s.params, rules[k]).outCc)
      && sent[k] == ControlEvent(t, channel, RuleAt(s.params, rules[k]).outCc, ResetOutput(s, rules[k]))
                    .(preNoteOnSetup := setup)
  }

  lemma OwnBlock(s: State, i: nat, t: real, others: seq<Byte>, channel: Byte, note: Byte, setup: bool)
    requires i < RULES && channel != s.zone.manager
    requires forall n :: n in others ==> ChannelOf(s.voices.channelOf, n) != channel
    ensures var rule := RuleAt(s.params, i);
      ToChannel(SetUpBlock(s, i, t, others, channel, note, setup), channel)
        == if Resets(rule, note, s.zone.anchor) then Message(t, channel, rule.outCc, ResetOutput(s, i), setup) else []
  {
    hide RuleAt, ResetOutput, Resets, Message, WithinSpecs, IsLatest, IsEarliest, Concerns, ToChannel;
    var rule, v := RuleAt(s.params, i), ResetOutput(s, i);
    NoneToChannel(channel);
    if Resets(rule, note, s.zone.anchor) {
      var moved := if setup
        then Moved(rule, t, others, [note] + others, s.voices.channelOf, s.zone.anchor, v) else [];
      var fallback := if others == [] && rule.fallback then Message(t, s.zone.manager, rule.outCc, v, setup) else [];
      ToChannelConcat(moved + fallback, Message(t, channel, rule.outCc, v, setup), channel);
      ToChannelConcat(moved, fallback, channel);
      ToChannelOfMessage(t, s.zone.manager, rule.outCc, v, setup, channel);
      ToChannelOfMessage(t, channel, rule.outCc, v, setup, channel);
      if setup {
        MovedNotTo(rule, t, others, [note] + others, s.voices.channelOf, s.zone.anchor, v, channel);
      }
    }
  }

  lemma NoneToChannel(channel: Byte)
    ensures ToChannel([], channel) == []
  {
  }

  lemma MovedNotTo(rule: Rule, t: real, ours: seq<Byte>, theirs: seq<Byte>, table: NoteTable, anchor: Byte, value: real,
                   channel: Byte)
    requires forall n :: n in ours ==> ChannelOf(table, n) != channel
    ensures ToChannel(Moved(rule, t, ours, theirs, table, anchor, value), channel) == []
  {
    hide Message, ToChannel, Concerns, IsLatest, IsEarliest, ChannelOf;
    NoneToChannel(channel);
    forall n
      ensures ToChannel(Message(t, ChannelOf(table, n), rule.outCc, value, false), channel)
           == if ChannelOf(table, n) == channel then Message(t, ChannelOf(table, n), rule.outCc, value, false) else []
    {
      ToChannelOfMessage(t, ChannelOf(table, n), rule.outCc, value, false, channel);
    }
  }

  lemma {:induction false} OwnBlocks(s: State, blocks: seq<seq<Event>>, t: real, others: seq<Byte>, channel: Byte,
                                     note: Byte, setup: bool)
    requires |blocks| <= RULES && channel != s.zone.manager
    requires forall n :: n in others ==> ChannelOf(s.voices.channelOf, n) != channel
    requires forall i :: 0 <= i < |blocks| ==> blocks[i] == SetUpBlock(s, i, t, others, channel, note, setup)
    ensures OnePerRule(ToChannel(Flatten(blocks), channel), SettingUp(s, note, |blocks|), s, t, channel, setup)
    decreases |blocks|
  {
    hide RuleAt, ResetOutput, Resets, SetUpBlock, WithinSpecs, ToChannel, ControlEvent;
    NoneToChannel(channel);
    if blocks != [] {
      var n := |blocks| - 1;
      OwnBlocks(s, blocks[..n], t, others, channel, note, setup);
      ToChannelConcat(Flatten(blocks[..n]), blocks[n], channel);
      OwnBlock(s, n, t, others, channel, note, setup);
    }
  }

  /**
   A fresh note with a free channel: every rule that resets for it and has an output sets the new channel up exactly
   once before the note-on, marked as set-up, and once after it, in the order of the rules.
   */
  lemma NewChannelIsSetUp(s: State, t: real, note: Byte, velocity: Byte)
    returns (before: seq<Event>, after: seq<Event>, rules: seq<nat>)
    requires Inv(s) && HasNotes(s) && note <= NOTE_MAX && !s.suspended && note !in s.voices.notes && s.voices.free != []
    ensures forall j, k :: 0 <= j < k < |rules| ==> rules[j] < rules[k]
    ensures forall i: nat :: i in rules <==> i < RULES && SetsUp(s, i, note)
    ensures var channel := s.voices.free[0];
      && NoteOn(s, t, note, velocity).events
         == before + [Event(t, NOTE_ON, channel, PitchIn(s.zone, note), velocity, ByteToFloat(velocity), false)] + after
      && OnePerRule(ToChannel(before, channel), rules, s, t, channel, true)
      && OnePerRule(ToChannel(after, channel), rules, s, t, channel, false)
  {
    hide NoteOn, WithinSpecs, Sane, SetUpBlock, OnePerRule, Flatten, PitchIn, InHand, Replaces, SetsUp;
    var channel := s.voices.free[0];
    NoteOnSends(s, t, note, velocity);
    var first, second :| StartsWith(NoteOn(s, t, note, velocity).events, s, t, s.voices.notes, channel, note, velocity,
                                    first, second);
    before, after, rules := Flatten(first), Flatten(second), SettingUp(s, note, RULES);
    SettingUpMeans(s, note, RULES);
    FreshChannel(s);
    OwnBlocks(s, first, t, s.voices.notes, channel, note, true);
    OwnBlocks(s, second, t, s.voices.notes, channel, note, false);
  }

  lemma FreshChannel(s: State)
    requires Inv(s) && s.voices.free != []
    ensures s.voices.free[0] != s.zone.manager
    ensures forall n :: n in s.voices.notes ==> ChannelOf(s.voices.channelOf, n) != s.voices.free[0]
  {
    hide WithinSpecs, Sane, Conserved, NotesValid;
    InvMeans(s);
    SaneMeans(s);
    ConservedMeans(s.voices, s.zone);
    assert s.voices.free[0] in s.voices.free;
    forall n | n in s.voices.notes
      ensures ChannelOf(s.voices.channelOf, n) != s.voices.free[0]
    {
      ChannelsInjective(s.voices, s.zone, n, n);
    }
  }
}
