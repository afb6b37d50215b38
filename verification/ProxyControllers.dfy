/** What controller events, the pedal, resets and zones do, said from outside the model. */
module ProxyControllers {
  import opened Midi
  import opened Sequences
  import opened NoteStacks
  import opened Params
  import opened ProxyModel
  import opened ProxyInvariant
  import opened ProxyRuns
  import opened ProxyRouting
  import opened ProxyProperties
  import opened ProxyCalls

  // ---- Routing ----

  ghost predicate Before(notes: seq<Byte>, a: Byte, b: Byte) {
    exists p, q :: 0 <= p < q < |notes| && notes[p] == a && notes[q] == b
  }

  ghost predicate InOrder(picked: seq<Byte>, notes: seq<Byte>) {
    forall i, j :: 0 <= i < j < |picked| ==> Before(notes, picked[i], picked[j])
  }

  /** The targets of a rule among the active notes, newest first. */
  ghost predicate PicksTargets(picked: seq<Byte>, s: State, rule: Rule) {
    (forall n :: n in picked <==> IsTarget(rule.target, s.voices.notes, s.zone.anchor, n))
    && InOrder(picked, s.voices.notes)
  }

  /** The manager channel for a global target or as a fallback, otherwise the channels of the targets. */
  ghost predicate Reaches(channels: seq<Byte>, s: State, rule: Rule) {
    if rule.target == TRG_GLOBAL || (rule.fallback && s.voices.notes == []) then channels == [s.zone.manager]
    else exists picked :: PicksTargets(picked, s, rule) && channels == ChannelsOf(picked, s.voices.channelOf)
  }

  predicate Takes(rule: Rule, cc: nat) {
    rule.inCc == cc || rule.inCc == MIDI_LEARN
  }

  /** What a rule makes of a controller event: its output, once to each channel it reaches. */
  ghost predicate Routes(block: seq<Event>, s: State, t: real, cc: nat, value: Ratio, i: nat)
    requires i < RULES
  {
    var rule := RuleAt(s.params, i);
    if !Takes(rule, cc) then block == []
    else exists channels ::
      Reaches(channels, s, rule) && SentOnce(block, t, channels, rule.outCc, rule.Distort(value, s.curves))
  }

  lemma {:induction false} SideInOrder(s: seq<Byte>, anchor: Byte, above: bool)
    ensures InOrder(Side(s, anchor, above), s)
  {
    if s != [] {
      var side, rest, tail := Side(s, anchor, above), Side(s[1..], anchor, above), s[1..];
      SideInOrder(tail, anchor, above);
      var shift := |side| - |rest|;
      forall i, j | 0 <= i < j < |side|
        ensures Before(s, side[i], side[j])
      {
        if i >= shift {
          assert side[i] == rest[i - shift] && side[j] == rest[j - shift];
          assert Before(tail, rest[i - shift], rest[j - shift]);
          BeforeInTail(s, side[i], side[j]);
        } else {
          assert side[j] == rest[j - shift] && rest[j - shift] in tail;
          var q :| 0 <= q < |tail| && tail[q] == side[j];
          assert s[0] == side[i] && s[q + 1] == side[j];
        }
      }
    }
  }

  lemma BeforeInTail(s: seq<Byte>, a: Byte, b: Byte)
    requires s != [] && Before(s[1..], a, b)
    ensures Before(s, a, b)
  {
    var p, q :| 0 <= p < q < |s| - 1 && s[1..][p] == a && s[1..][q] == b;
    assert s[p + 1] == a && s[q + 1] == b;
  }

  lemma TargetsAreReached(s: State, rule: Rule)
    requires Sane(s) && rule.target <= TRG_NEWEST_ABOVE_ANCHOR
    ensures Reaches(TargetChannels(s, rule), s, rule)
  {
    hide WithinSpecs, Sane, TargetNote, IsTarget, ChannelsOf, Before;
    var notes, anchor := s.voices.notes, s.zone.anchor;
    if rule.target == TRG_GLOBAL || (rule.fallback && notes == []) {
    } else if rule.target == TRG_ALL_BELOW_ANCHOR || rule.target == TRG_ALL_ABOVE_ANCHOR {
      var above := rule.target == TRG_ALL_ABOVE_ANCHOR;
      var side := Side(notes, anchor, above);
      SideInOrder(notes, anchor, above);
      SideIsTargets(s, rule, above);
      assert PicksTargets(side, s, rule);
    } else {
      var note := TargetNote(rule.target, notes, anchor);
      forall n: Byte
        ensures note == Some(n) <==> IsTarget(rule.target, notes, anchor, n)
      {
        TargetNoteIsTarget(rule.target, notes, anchor, n);
      }
      var picked := if note.Some? then [note.value] else [];
      assert PicksTargets(picked, s, rule);
      if note.Some? {
        OneChannel(note.value, s.voices.channelOf);
      } else {
        NoChannels(s.voices.channelOf);
      }
    }
  }

  lemma OneChannel(n: Byte, table: NoteTable)
    ensures ChannelsOf([n], table) == [ChannelOf(table, n)]
  {
  }

  lemma SideIsTargets(s: State, rule: Rule, above: bool)
    requires rule.target == if above then TRG_ALL_ABOVE_ANCHOR else TRG_ALL_BELOW_ANCHOR
    ensures forall n :: n in Side(s.voices.notes, s.zone.anchor, above) <==>
                        IsTarget(rule.target, s.voices.notes, s.zone.anchor, n)
  {
    hide IsLatest, IsEarliest, WithinSpecs;
  }

  lemma RuleRoutes(s: State, t: real, cc: nat, value: Ratio, i: nat)
    requires Sane(s) && i < RULES
    ensures Routes(RuleEvents(s, t, cc, value, i), s, t, cc, value, i)
  {
    hide WithinSpecs, Sane, TargetChannels, FanOut, RuleAt, Rule.Distort, SentOnce, Reaches;
    var rule := RuleAt(s.params, i);
    if Takes(rule, cc) {
      TargetsAreReached(s, rule);
      TargetsAreReal(s, rule);
      FanOutOncePerChannel(t, TargetChannels(s, rule), rule.outCc, rule.Distort(value, s.curves));
    }
  }

  lemma {:induction false} RoutedBlocks(s: State, t: real, cc: nat, value: Ratio, n: nat)
    returns (blocks: seq<seq<Event>>)
    requires Sane(s) && n <= RULES
    ensures |blocks| == n && Flatten(blocks) == RoutedEvents(s, t, cc, value, n)
    ensures forall i :: 0 <= i < n ==> Routes(blocks[i], s, t, cc, value, i)
  {
    hide RuleEvents, Routes, Sane, WithinSpecs;
    blocks := [];
    if n > 0 {
      var most := RoutedBlocks(s, t, cc, value, n - 1);
      RuleRoutes(s, t, cc, value, n - 1);
      FlattenNext(most, RuleEvents(s, t, cc, value, n - 1));
      blocks := most + [RuleEvents(s, t, cc, value, n - 1)];
    }
  }

  // ---- The pedal ----

  /** `notes` after the notes of `gone` have left in turn. */
  function AfterAllLeft(notes: seq<Byte>, gone: seq<Byte>): seq<Byte>
    decreases |gone|
  {
    if gone == [] then notes else AfterAllLeft(Without(notes, gone[0]), gone[1..])
  }

  /** The deferred notes stop in turn, latest first, each with the velocity recorded for it. */
  ghost predicate ReleasesInTurn(parts: seq<seq<Event>>, s: State, t: real, notes: seq<Byte>, deferred: seq<Byte>) {
    |parts| == |deferred|
    && forall k :: 0 <= k < |deferred| ==>
         && deferred[k] <= NOTE_MAX
         && Stops(parts[k], s, t, AfterAllLeft(notes, deferred[..k]), deferred[k],
                  s.voices.releaseVelocityOf[deferred[k]])
  }

  lemma StopsElsewhere(events: seq<Event>, s: State, r: State, t: real, notes: seq<Byte>, note: Byte, velocity: Byte)
    requires note <= NOTE_MAX && Stops(events, s, t, notes, note, velocity)
    requires r.params == s.params && r.zone == s.zone && r.lastInput == s.lastInput && r.curves == s.curves
    requires r.voices.channelOf == s.voices.channelOf && r.voices.velocityOf == s.voices.velocityOf
    ensures Stops(events, r, t, notes, note, velocity)
  {
    hide Flatten, Moved, Resets, RuleAt, WithinSpecs, PitchIn, Rule.Distort;
    var resets :| StopsWith(events, s, t, notes, note, velocity, resets);
    assert StopsWith(events, r, t, notes, note, velocity, resets);
  }

  lemma {:induction false} ReleaseParts(s: State, t: real) returns (parts: seq<seq<Event>>)
    requires Sane(s) && HasNotes(s)
    ensures Flatten(parts) == ReleaseDeferred(s, t).events
    ensures ReleasesInTurn(parts, s, t, s.voices.notes, s.voices.deferred)
    decreases |s.voices.deferred|
  {
    hide ReleaseNote, PopDeferred, Sane, WithinSpecs, Stops;
    parts := [];
    if s.voices.deferred != [] {
      var v, note := s.voices, s.voices.deferred[0];
      assert note in v.deferred;
      var velocity := v.releaseVelocityOf[note];
      var step := ReleaseNote(PopDeferred(s), t, note, velocity);
      ReleaseOneStops(s, t, note, velocity);
      var rest := ReleaseParts(step.state, t);
      forall k | 0 < k < |v.deferred|
        ensures v.deferred[k] <= NOTE_MAX
        ensures Stops(rest[k - 1], s, t, AfterAllLeft(v.notes, v.deferred[..k]), v.deferred[k],
                      v.releaseVelocityOf[v.deferred[k]])
      {
        assert v.deferred[k] == v.deferred[1..][k - 1] && v.deferred[..k][1..] == v.deferred[1..][..k - 1];
        StopsElsewhere(rest[k - 1], step.state, s, t, AfterAllLeft(v.notes, v.deferred[..k]), v.deferred[k],
                       v.releaseVelocityOf[v.deferred[k]]);
      }
      FlattenFirst(step.events, rest);
      assert v.deferred[..0] == [];
      parts := [step.events] + rest;
    }
  }

  lemma FlattenNone()
    ensures Flatten([]) == []
  {
  }

  lemma {:induction false} FlattenFirst(block: seq<Event>, blocks: seq<seq<Event>>)
    ensures Flatten([block] + blocks) == block + Flatten(blocks)
    decreases |blocks|
  {
    hide Flatten;
    FlattenNone();
    if blocks == [] {
      assert [block] + blocks == [] + [block];
      FlattenNext([], block);
      assert block + [] == block && [] + block == block;
    } else {
      var most, last := blocks[..|blocks| - 1], blocks[|blocks| - 1];
      assert blocks == most + [last] && [block] + blocks == ([block] + most) + [last];
      FlattenFirst(block, most);
      FlattenNext(most, last);
      FlattenNext([block] + most, last);
      Joined(block, Flatten(most), last);
    }
  }

  lemma ReleaseOneStops(s: State, t: real, note: Byte, velocity: Byte)
    requires Sane(s) && s.voices.deferred != [] && note == s.voices.deferred[0] && note <= NOTE_MAX
    ensures var step := ReleaseNote(PopDeferred(s), t, note, velocity);
      && Stops(step.events, s, t, s.voices.notes, note, velocity) && Sane(step.state) && HasNotes(step.state)
      && step.state.voices.notes == Without(s.voices.notes, note)
      && step.state.voices.deferred == s.voices.deferred[1..]
      && step.state == s.(voices := step.state.voices)
      && step.state.voices.channelOf == s.voices.channelOf && step.state.voices.velocityOf == s.voices.velocityOf
      && step.state.voices.releaseVelocityOf == s.voices.releaseVelocityOf
  {
    hide StopNote, WithinSpecs, Conserved, NotesValid, Stops, OnChannels;
    PoppedRelease(s, t, velocity);
    var popped := PopDeferred(s);
    SaneOnChannels(popped);
    StopFacts(popped, t, note, velocity);
    SaneHasNotes(ReleaseNote(popped, t, note, velocity).state);
    StopNoteMeans(popped, t, note, velocity);
    StopsElsewhere(StopNote(popped, t, note, velocity).events, popped, s, t, s.voices.notes, note, velocity);
  }

  // ---- Controller events ----

  predicate MovesPedal(s: State, cc: nat) {
    s.params[Z1SUS].value == 1 && cc == SUSTAIN_PEDAL
  }

  ghost predicate RoutesWith(events: seq<Event>, s: State, t: real, cc: nat, value: Ratio, blocks: seq<seq<Event>>,
                             released: seq<seq<Event>>)
  {
    |blocks| == RULES && (forall i :: 0 <= i < RULES ==> Routes(blocks[i], s, t, cc, value, i))
    && events == (if exists i :: 0 <= i < RULES && Takes(RuleAt(s.params, i), cc) then Flatten(blocks)
                  else Message(t, s.zone.manager, cc, value, false))
                 + Flatten(released)
    && ReleasesInTurn(released, Noted(s, cc, value, RULES), t, s.voices.notes,
                      if MovesPedal(s, cc) && value < 0.5 then s.voices.deferred else [])
  }

  /**
   A controller event that rules take is routed by each of them in turn and goes nowhere else; one that no rule takes
   goes to the manager channel, unchanged. If the pedal is lifted, the notes it has kept back follow.
   */
  ghost predicate AnswersController(events: seq<Event>, s: State, t: real, cc: nat, value: Ratio) {
    exists blocks, released :: RoutesWith(events, s, t, cc, value, blocks, released)
  }

  lemma ControlSends(s: State, t: real, cc: nat, value: Ratio)
    requires Inv(s) && HasNotes(s)
    ensures AnswersController(Control(s, t, cc, value).events, s, t, cc, value)
    ensures var r := Control(s, t, cc, value).state;
      && r.pedalDown == (if MovesPedal(s, cc) then value >= 0.5 else s.pedalDown)
      && (!(MovesPedal(s, cc) && value < 0.5) ==> r.voices == s.voices)
  {
    hide WithinSpecs, Sane, RoutedEvents, ControlEvents, Noted, RuleAt, ReleaseDeferred, Message, Routes, Stops;
    InvMeans(s);
    SaneOnChannels(s);
    var blocks := RoutedBlocks(s, t, cc, value, RULES);
    MessageIs(t, s.zone.manager, cc, value, false);
    TakesIsListens(s, cc);
    var released := [];
    NotedKeeps(s, cc, value);
    if MovesPedal(s, cc) && value < 0.5 {
      var pedalled := Noted(s, cc, value, RULES).(pedalDown := false);
      SaneElsewhere(s, pedalled);
      ReleaseDeferredKeepsRest(pedalled, t);
      released := ReleaseParts(pedalled, t);
      forall k | 0 <= k < |released|
        ensures s.voices.deferred[k] <= NOTE_MAX
        ensures Stops(released[k], Noted(s, cc, value, RULES), t, AfterAllLeft(s.voices.notes, s.voices.deferred[..k]),
                      s.voices.deferred[k], s.voices.releaseVelocityOf[s.voices.deferred[k]])
      {
        StopsElsewhere(released[k], pedalled, Noted(s, cc, value, RULES), t,
                       AfterAllLeft(s.voices.notes, s.voices.deferred[..k]), s.voices.deferred[k],
                       s.voices.releaseVelocityOf[s.voices.deferred[k]]);
      }
    }
    assert RoutesWith(Control(s, t, cc, value).events, s, t, cc, value, blocks, released);
  }

  lemma TakesIsListens(s: State, cc: nat)
    ensures (exists i :: 0 <= i < RULES && Listens(RuleAt(s.params, i), cc))
       <==> exists i :: 0 <= i < RULES && Takes(RuleAt(s.params, i), cc)
  {
    hide RuleAt, WithinSpecs;
    forall i | 0 <= i < RULES
      ensures Listens(RuleAt(s.params, i), cc) <==> Takes(RuleAt(s.params, i), cc)
    {
    }
  }

  lemma NotedKeeps(s: State, cc: nat, value: Ratio)
    ensures var n := Noted(s, cc, value, RULES);
      && n.voices == s.voices && n.zone == s.zone && n.pedalDown == s.pedalDown && n.curves == s.curves
      && n.params[Z1SUS] == s.params[Z1SUS]
  {
    hide NotedInputs, WithinSpecs;
    LearnedSettings(s.params, cc, RULES);
  }
}
