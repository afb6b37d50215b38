/** What the host hears of every call, and so of every run: one answer per call, each of them described in full. */
module ProxyAnswers {
  import opened Midi
  import opened Params
  import opened ProxyModel
  import opened ProxyInvariant
  import opened ProxyRuns
  import opened ProxyCalls
  import opened ProxyControllers
  import opened ProxyResets

  ghost predicate AnswersNoteOff(events: seq<Event>, s: State, t: real, note: Byte, velocity: Byte)
    requires note <= NOTE_MAX
  {
    if s.suspended || note !in s.voices.notes || KeptBack(s) then events == []
    else Stops(events, s, t, s.voices.notes, note, velocity)
  }

  /** The answer to a call; settings and suspending have none, and neither has a block that enters no other zone. */
  ghost predicate Answers(events: seq<Event>, s: State, call: Call)
    requires call.Valid()
  {
    match call
    case PlayNote(t, note, velocity) => AnswersNoteOn(events, s, t, note, velocity)
    case ReleaseKey(t, note, velocity) => AnswersNoteOff(events, s, t, note, velocity)
    case Controller(t, cc, raw, value) =>
      if s.suspended || (cc in s.seen && s.seen[cc] == (t, raw)) then events == []
      else AnswersController(events, s.(seen := s.seen[cc := (t, raw)]), t, cc, value)
    case Resume => AnswersRestart(events, s)
    case Block => if s.suspended || Describes(s.params, s.zone) then events == [] else AnswersRestart(events, s)
    case _ => events == []
  }

  /** Every call is answered so. */
  lemma ApplyAnswers(s: State, call: Call)
    requires Inv(s) && call.Valid() && HasNotes(s)
    ensures Answers(Apply(s, call).events, s, call)
  {
    hide AnswersNoteOn, AnswersController, AnswersRestart, Stops, Describes, NoteOn, NoteOff, Control, ConfiguredZone;
    hide Inv, WithinSpecs, SetRatio, Restart, Routes, ReleasesInTurn;
    match call {
      case PlayNote(t, note, velocity) => NoteOnSends(s, t, note, velocity);
      case ReleaseKey(t, note, velocity) => NoteOffSends(s, t, note, velocity);
      case Controller(t, cc, raw, value) => ControllerAnswers(s, t, cc, raw, value);
      case Resume => RestartSends(s, Resume);
      case Block =>
        BlockEnters(s);
        ConfiguredIsDescribed(s.params);
        if Restarts(s, Block) {
          RestartSends(s, Block);
        }
      case _ =>
    }
  }

  lemma ControllerAnswers(s: State, t: real, cc: nat, raw: int, value: Ratio)
    requires Inv(s) && HasNotes(s)
    ensures var events := ControlMessage(s, t, cc, raw, value).events;
      if s.suspended || (cc in s.seen && s.seen[cc] == (t, raw)) then events == []
      else AnswersController(events, s.(seen := s.seen[cc := (t, raw)]), t, cc, value)
  {
    hide AnswersController, Control, Sane, WithinSpecs;
    var seen := s.(seen := s.seen[cc := (t, raw)]);
    SaneElsewhere(s, seen);
    ControlSends(seen, t, cc, value);
  }

  // ---- Runs ----

  /** One answer per call, each to the state that the earlier calls have led to. */
  ghost predicate AnswersInTurn(parts: seq<seq<Event>>, s: State, calls: seq<Call>)
    requires Inv(s) && AllValid(calls)
    decreases |calls|
  {
    |parts| == |calls|
    && (calls != [] ==>
          assert calls[0] in calls;
          ApplyKeeps(s, calls[0]);
          Answers(parts[0], s, calls[0]) && AnswersInTurn(parts[1..], Apply(s, calls[0]).state, calls[1..]))
  }

  /** Everything sent during a run is the answers to its calls. */
  lemma {:induction false} RunAnswers(s: State, calls: seq<Call>) returns (parts: seq<seq<Event>>)
    requires Inv(s) && AllValid(calls)
    ensures AnswersInTurn(parts, s, calls) && Flatten(parts) == Run(s, calls).events
    decreases |calls|
  {
    hide Answers, Apply, Inv, Call.Valid, WithinSpecs, Flatten;
    FlattenNone();
    parts := [];
    if calls != [] {
      assert calls[0] in calls;
      ApplyKeeps(s, calls[0]);
      ApplyAnswers(s, calls[0]);
      var first := Apply(s, calls[0]);
      var rest := RunAnswers(first.state, calls[1..]);
      FlattenFirst(first.events, rest);
      parts := [first.events] + rest;
      assert parts[1..] == rest;
    }
  }
}
