/** Further properties of the allocator: stealing, stability, order of reuse, the pedal, and resets. */
module ProxyProperties {
  import opened Midi
  import opened Sequences
  import opened NoteStacks
  import opened Distortion
  import opened Params
  import opened ProxyModel
  import opened ProxyInvariant
  import opened ProxyRuns

  // ---- Runs in which the list of deferred notes stays intact ----

  /** If the call walks through the linked list, it finds the deferred notes there. Only a release of the pedal does. */
  ghost predicate SafeCall(s: State, call: Call) {
    call.Controller? && WalksList(s, call.t, call.cc, call.raw, call.value) ==>
      Pops(s.voices.links) == s.voices.deferred
  }

  ghost predicate AllSafe(s: State, calls: seq<Call>)
    requires Inv(s) && AllValid(calls)
    decreases |calls|
  {
    calls != [] ==>
      assert calls[0] in calls;
      ApplyKeeps(s, calls[0]);
      SafeCall(s, calls[0]) && AllSafe(Apply(s, calls[0]).state, calls[1..])
  }

  /** The call stops no note whose left-over link would damage the list. */
  ghost predicate CleanCall(s: State, call: Call) {
    (call.PlayNote? ==> Clean(s.voices, StoppedByNoteOn(s, call.note)))
    && (call.ReleaseKey? ==> Clean(s.voices, StoppedByNoteOff(s, call.note)))
  }

  /** An intact list stays so exactly if the call is clean or a restart, which repairs any list. */
  lemma ListStaysIntact(s: State, call: Call)
    requires Inv(s) && call.Valid() && HasNotes(s)
    ensures Restarts(s, call) ==> Apply(s, call).state.voices.Intact()
    ensures !Restarts(s, call) && s.voices.Intact() ==> (Apply(s, call).state.voices.Intact() <==> CleanCall(s, call))
  {
    hide WithinSpecs, Conserved, NewNoteResets, NoteOffResets, RoutedEvents, ControlEvents, Listens, Learned;
    hide NotedInputs, StopEach, GlobalResets, Mcms, InitialInputs, ConfiguredZone, SetRatio, ReleaseDeferred, Extreme;
    hide Voices.Harmless, Links.WellFormed, Links.Holds, Links.Unlinked, Links.Pushed, NoLinks;
    SaneMeans(s);
    StopAllEmpties(s);
    StopAllEmpties(s.(suspended := false));
    if s.voices.Intact() && call.Controller? {
      var seen := s.(seen := s.seen[call.cc := (call.t, call.raw)]);
      ReleasingKeepsIntact(Noted(seen, call.cc, call.value, RULES).(pedalDown := false), call.t);
    } else if s.voices.Intact() && call.ReleaseKey? {
      StoppingKeepsIntact(s.voices, call.note);
      PushFacts(s.voices.links, s.voices.deferred, call.note);
    } else if s.voices.Intact() && call.PlayNote? && StoppedByNoteOn(s, call.note).Some? {
      StoppingKeepsIntact(s.voices, StoppedByNoteOn(s, call.note).value);
    }
  }

  lemma StoppingKeepsIntact(v: Voices, note: Byte)
    requires v.Intact() && note <= NOTE_MAX
    ensures v.Stopped(note).Intact() <==> v.Harmless(note)
  {
    hide Links.Holds, Links.Unlinked;
    UnlinkedMeans(v.links, v.deferred, note);
  }

  lemma {:induction false} ReleasingKeepsIntact(s: State, t: real)
    requires s.voices.Intact() && forall n :: n in s.voices.deferred ==> n <= NOTE_MAX
    ensures ReleaseDeferred(s, t).state.voices.Intact()
    decreases |s.voices.deferred|
  {
    hide NoteOffResets, WithinSpecs, Links.WellFormed, Links.Holds, Links.Released, Links.Unlinked, Links.Popped;
    if s.voices.deferred != [] {
      var note := s.voices.deferred[0];
      assert note in s.voices.deferred;
      var velocity := s.voices.releaseVelocityOf[note];
      HoldsFacts(s.voices.links, s.voices.deferred);
      PopDeferredStops(s);
      ReleasedHolds(s.voices.links, s.voices.deferred);
      PoppedShorter(s, t, note, velocity);
      ReleasingKeepsIntact(ReleaseNote(PopDeferred(s), t, note, velocity).state, t);
    }
  }

  ghost predicate AllClean(s: State, calls: seq<Call>)
    requires Inv(s) && AllValid(calls)
    decreases |calls|
  {
    calls != [] ==>
      assert calls[0] in calls;
      ApplyKeeps(s, calls[0]);
      CleanCall(s, calls[0]) && AllClean(Apply(s, calls[0]).state, calls[1..])
  }

  /** Runs of clean calls are safe. */
  lemma {:induction false} CleanRunsAreSafe(s: State, calls: seq<Call>)
    requires Inv(s) && AllValid(calls) && AllClean(s, calls) && s.voices.Intact()
    ensures AllSafe(s, calls) && Run(s, calls).state.voices.Intact()
    decreases |calls|
  {
    hide Apply, Inv, WithinSpecs, CleanCall, Restarts, WalksList, Call.Valid, Links.Holds, Links.WellFormed, Pops;
    PopsHeld(s.voices.links, s.voices.deferred);
    if calls != [] {
      assert calls[0] in calls;
      ApplyKeeps(s, calls[0]);
      ListStaysIntact(s, calls[0]);
      CleanRunsAreSafe(Apply(s, calls[0]).state, calls[1..]);
    }
  }

  predicate LiftsPedal(call: Call) {
    call.Controller? && call.cc == SUSTAIN_PEDAL && call.value < 0.5
  }

  /** So are runs that never lift the pedal. */
  lemma {:induction false} HeldRunsAreSafe(s: State, calls: seq<Call>)
    requires Inv(s) && AllValid(calls) && forall c :: c in calls ==> !LiftsPedal(c)
    ensures AllSafe(s, calls)
    decreases |calls|
  {
    hide Apply, Inv, WithinSpecs, Call.Valid, Pops, Links.WellFormed;
    if calls != [] {
      assert calls[0] in calls;
      ApplyKeeps(s, calls[0]);
      HeldRunsAreSafe(Apply(s, calls[0]).state, calls[1..]);
    }
  }

  /** What the voices are like while the pedal is down and excess notes are not ignored. */
  ghost predicate Deferring(s: State, notes: seq<Byte>, deferred: seq<Byte>, links: ListLinks) {
    Inv(s) && !s.suspended && s.HandlesPedal() && s.pedalDown && s.ExcessHandling() != ENH_IGNORE
    && s.voices.notes == notes && s.voices.deferred == deferred && s.voices.links == links
    && |s.voices.free| + |notes| == 15
  }

  lemma PlayDeferring(s: State, note: Byte, notes: seq<Byte>, deferred: seq<Byte>, links: ListLinks)
    requires Deferring(s, notes, deferred, links) && note <= NOTE_MAX && (note in notes || |notes| < 15)
    ensures HasNotes(s) && PlayNote(0.0, note, 100).Valid()
    ensures var r := Apply(s, PlayNote(0.0, note, 100)).state;
      if note in notes then Deferring(r, [note] + Without(notes, note), Without(deferred, note), links.Unlinked(note))
      else Deferring(r, [note] + notes, deferred, links)
  {
    hide WithinSpecs, Sane, NewNoteResets, NoteOffResets, Links.WellFormed, Links.Unlinked, Without;
    ApplyKeeps(s, PlayNote(0.0, note, 100));
  }

  lemma ReleaseDeferring(s: State, note: Byte, notes: seq<Byte>, deferred: seq<Byte>, links: ListLinks)
    requires Deferring(s, notes, deferred, links) && note <= NOTE_MAX && note in notes
    ensures HasNotes(s) && ReleaseKey(0.0, note, 0).Valid()
    ensures var r := Apply(s, ReleaseKey(0.0, note, 0)).state;
      Deferring(r, notes, [note] + Without(deferred, note), links.Pushed(note))
  {
    hide WithinSpecs, Sane, Links.WellFormed, Links.Pushed, Without;
    ApplyKeeps(s, ReleaseKey(0.0, note, 0));
  }

  lemma RunPlay(s: State, note: Byte, notes: seq<Byte>, deferred: seq<Byte>, links: ListLinks, rest: seq<Call>)
    returns (r: State)
    requires Deferring(s, notes, deferred, links) && note <= NOTE_MAX && (note in notes || |notes| < 15)
    requires AllValid(rest)
    ensures Inv(r)
    ensures if note in notes
            then Deferring(r, [note] + Without(notes, note), Without(deferred, note), links.Unlinked(note))
            else Deferring(r, [note] + notes, deferred, links)
    ensures var calls := [PlayNote(0.0, note, 100)] + rest;
      AllValid(calls) && Run(s, calls).state == Run(r, rest).state
  {
    hide Deferring, Apply, Run, Without, Links.Unlinked, WithinSpecs;
    PlayDeferring(s, note, notes, deferred, links);
    DeferringInv(s, notes, deferred, links);
    r := Apply(s, PlayNote(0.0, note, 100)).state;
    RunStep(s, PlayNote(0.0, note, 100), rest);
  }

  lemma RunRelease(s: State, note: Byte, notes: seq<Byte>, deferred: seq<Byte>, links: ListLinks, rest: seq<Call>)
    returns (r: State)
    requires Deferring(s, notes, deferred, links) && note <= NOTE_MAX && note in notes && AllValid(rest)
    ensures Inv(r) && Deferring(r, notes, [note] + Without(deferred, note), links.Pushed(note))
    ensures var calls := [ReleaseKey(0.0, note, 0)] + rest;
      AllValid(calls) && Run(s, calls).state == Run(r, rest).state
  {
    hide Deferring, Apply, Run, Without, Links.Pushed, WithinSpecs;
    ReleaseDeferring(s, note, notes, deferred, links);
    DeferringInv(s, notes, deferred, links);
    r := Apply(s, ReleaseKey(0.0, note, 0)).state;
    RunStep(s, ReleaseKey(0.0, note, 0), rest);
  }

  lemma DeferringInv(s: State, notes: seq<Byte>, deferred: seq<Byte>, links: ListLinks)
    requires Deferring(s, notes, deferred, links)
    ensures Inv(s)
  {
  }

  /** Pedal handling is switched on, and the pedal goes down. */
  const PEDAL_DOWN := [SetParam(Z1SUS, 1.0), Controller(0.0, SUSTAIN_PEDAL, 127, 1.0)]

  lemma HandlingSwitchedOn(s: State)
    requires Inv(s)
    ensures var r := SetRatio(s.params, Z1SUS, 1.0);
      r[Z1SUS].value == 1 && r[Z1ENH] == s.params[Z1ENH]
  {
    hide Inv, WithinSpecs;
  }

  lemma PedalPressed(s: State, call: Call)
    requires Inv(s) && s.HandlesPedal() && !s.suspended && s.seen == map[] && call == PEDAL_DOWN[1]
    ensures HasNotes(s) && call.Valid()
    ensures var r := Apply(s, call).state;
      r.voices == s.voices && r.pedalDown && r.HandlesPedal() && !r.suspended
      && r.ExcessHandling() == s.ExcessHandling()
  {
    hide WithinSpecs, Sane, RoutedEvents, ControlEvents, Listens, RuleAt, Learned, NotedInputs;
    InvHasNotes(s);
    LearnedSettings(s.params, SUSTAIN_PEDAL, RULES);
  }

  lemma PowerOnIsReady(curves: Curves)
    ensures var s := PowerOn(curves);
      && s.voices.notes == [] && s.voices.deferred == [] && s.voices.links == NoLinks() && |s.voices.free| == 15
      && !s.suspended && s.seen == map[] && s.ExcessHandling() == ENH_STEAL_OLDEST
  {
    hide WithinSpecs, Inv, NoLinks;
    InitialKeeps(curves);
  }

  lemma PedalGoesDown(curves: Curves)
    ensures AllValid(PEDAL_DOWN) && Deferring(Run(PowerOn(curves), PEDAL_DOWN).state, [], [], NoLinks())
  {
    hide WithinSpecs, Inv, PowerOn, Run, ControlMessage, NoLinks, SetRatio;
    var start := PowerOn(curves);
    PowerOnIsReady(curves);
    HandlingSwitchedOn(start);
    ApplyKeeps(start, PEDAL_DOWN[0]);
    var on := Apply(start, PEDAL_DOWN[0]).state;
    PedalPressed(on, PEDAL_DOWN[1]);
    ApplyKeeps(on, PEDAL_DOWN[1]);
    RunOne(on, PEDAL_DOWN[1]);
    RunStep(start, PEDAL_DOWN[0], [PEDAL_DOWN[1]]);
    assert PEDAL_DOWN == [PEDAL_DOWN[0]] + [PEDAL_DOWN[1]];
  }

  function TwoDeferred(a: Byte, b: Byte): seq<Call> {
    [PlayNote(0.0, b, 100), PlayNote(0.0, a, 100), ReleaseKey(0.0, b, 0), ReleaseKey(0.0, a, 0)]
  }

  /** `a` is played while it is the newest deferred note, and again after `c` has been deferred. */
  function PlayedTwiceMore(a: Byte, b: Byte, c: Byte): seq<Call> {
    [PlayNote(0.0, a, 100), PlayNote(0.0, c, 100), ReleaseKey(0.0, c, 0), PlayNote(0.0, a, 100), ReleaseKey(0.0, b, 0)]
  }

  lemma RunTwoDeferred(s: State, a: Byte, b: Byte, calls: seq<Call>)
    requires a <= NOTE_MAX && b <= NOTE_MAX && a != b
    requires Deferring(s, [], [], NoLinks()) && calls == TwoDeferred(a, b)
    ensures Inv(s) && AllValid(calls)
    ensures Deferring(Run(s, calls).state, [a, b], [a, b], NoLinks().Pushed(b).Pushed(a))
  {
    hide Inv, Run, Apply, Deferring, WithinSpecs, NoLinks, Call.Valid, Links.Pushed, Links.Unlinked, Links.WellFormed;
    DeferringInv(s, [], [], NoLinks());
    EachValid(calls);
    assert calls == [calls[0]] + calls[1..] && calls[1..] == [calls[1]] + calls[2..];
    assert calls[2..] == [calls[2]] + calls[3..] && calls[3..] == [calls[3]] + [];
    assert [b] + [] == [b] && [a] + [b] == [a, b];
    var s1 := RunPlay(s, b, [], [], NoLinks(), calls[1..]);
    var s2 := RunPlay(s1, a, [b], [], NoLinks(), calls[2..]);
    var s3 := RunRelease(s2, b, [a, b], [], NoLinks(), calls[3..]);
    var s4 := RunRelease(s3, a, [a, b], [b], NoLinks().Pushed(b), []);
    RunNothing(s4);
  }

  lemma RunPlayedTwiceMore(s: State, a: Byte, b: Byte, c: Byte, l: ListLinks, calls: seq<Call>)
    requires a <= NOTE_MAX && b <= NOTE_MAX && c <= NOTE_MAX && a != b && b != c && a != c
    requires Deferring(s, [a, b], [a, b], l) && calls == PlayedTwiceMore(a, b, c)
    ensures Inv(s) && AllValid(calls)
    ensures Deferring(Run(s, calls).state, [a, c, b], [b, c], l.Unlinked(a).Pushed(c).Unlinked(a).Pushed(b))
  {
    hide Inv, Run, Apply, Deferring, WithinSpecs, Call.Valid, Links.Pushed, Links.Unlinked, Links.WellFormed, Without;
    DeferringInv(s, [a, b], [a, b], l);
    var k := l.Unlinked(a);
    EachValid(calls);
    assert calls == [calls[0]] + calls[1..] && calls[1..] == [calls[1]] + calls[2..];
    assert calls[2..] == [calls[2]] + calls[3..] && calls[3..] == [calls[3]] + calls[4..];
    assert calls[4..] == [calls[4]] + [];
    TakenFromThree(a, b, c);
    var s1 := RunPlay(s, a, [a, b], [a, b], l, calls[1..]);
    var s2 := RunPlay(s1, c, [a, b], [b], k, calls[2..]);
    var s3 := RunRelease(s2, c, [c, a, b], [b], k, calls[3..]);
    var s4 := RunPlay(s3, a, [c, a, b], [c, b], k.Pushed(c), calls[4..]);
    var s5 := RunRelease(s4, b, [a, c, b], [c, b], k.Pushed(c).Unlinked(a), []);
    RunNothing(s5);
  }

  /**
   These calls, which are safe, damage the list of a new proxy: of the notes b and c, whose keys are up, the next
   release of the pedal would release b twice.
   */
  lemma ReleasedTwice(curves: Curves, a: Byte, b: Byte, c: Byte)
    requires a <= NOTE_MAX && b <= NOTE_MAX && c <= NOTE_MAX && a != b && b != c && a != c
    ensures AllValid(PEDAL_DOWN + TwoDeferred(a, b) + PlayedTwiceMore(a, b, c))
    ensures var v := Run(PowerOn(curves), PEDAL_DOWN + TwoDeferred(a, b) + PlayedTwiceMore(a, b, c)).state.voices;
      v.notes == [a, c, b] && v.deferred == [b, c] && Pops(v.links) == [b, c, b]
    ensures AllSafe(PowerOn(curves), PEDAL_DOWN + TwoDeferred(a, b) + PlayedTwiceMore(a, b, c))
  {
    hide Inv, Run, PowerOn, Pops, Links.WellFormed, WithinSpecs, NoLinks, AllSafe;
    hide Links.Pushed, Links.Unlinked, Links.Holds, Call.Valid;
    PedalGoesDown(curves);
    RunTwoDeferred(Run(PowerOn(curves), PEDAL_DOWN).state, a, b, TwoDeferred(a, b));
    RunConcat(PowerOn(curves), PEDAL_DOWN, TwoDeferred(a, b));
    var s := Run(PowerOn(curves), PEDAL_DOWN + TwoDeferred(a, b)).state;
    RunPlayedTwiceMore(s, a, b, c, NoLinks().Pushed(b).Pushed(a), PlayedTwiceMore(a, b, c));
    RunConcat(PowerOn(curves), PEDAL_DOWN + TwoDeferred(a, b), PlayedTwiceMore(a, b, c));
    var l := StaleLinkDamages(a, b, c);
    HeldRunsAreSafe(PowerOn(curves), PEDAL_DOWN + TwoDeferred(a, b) + PlayedTwiceMore(a, b, c));
  }

  lemma TakenFromThree(a: Byte, b: Byte, c: Byte)
    requires a != b && b != c && a != c
    ensures Without([a, b], a) == [b] && Without([b], c) == [b] && Without([c, a, b], a) == [c, b]
    ensures Without([c, b], a) == [c, b] && Without([c, b], b) == [c] && [b] + [c] == [b, c] && [c] + [b] == [c, b]
    ensures [a] + [b] == [a, b] && [c] + [a, b] == [c, a, b] && [a] + [c, b] == [a, c, b]
  {
  }

  lemma RunNothing(s: State)
    requires Inv(s)
    ensures Run(s, []) == Step(s, [])
  {
    hide Inv, WithinSpecs;
  }

  lemma EachValid(calls: seq<Call>)
    requires forall i :: 0 <= i < |calls| ==> (calls[i].PlayNote? || calls[i].ReleaseKey?) && calls[i].note <= NOTE_MAX
    ensures forall i :: 0 <= i <= |calls| ==> AllValid(calls[i..])
  {
  }

  /** Settings under which nothing is stopped while it is deferred. */
  ghost predicate Tame(s: State) {
    (!s.HandlesPedal() && s.voices.deferred == []) || (s.HandlesPedal() && s.ExcessHandling() == ENH_IGNORE)
  }

  /** Under such settings every call is clean. */
  lemma TameIsClean(s: State, call: Call)
    requires Inv(s) && Tame(s)
    ensures CleanCall(s, call)
  {
  }

  /** Pedal handling has not been switched, and while it is on neither has the treatment of excess notes. */
  ghost predicate SameSettings(s: State, r: State) {
    r.HandlesPedal() == s.HandlesPedal() && (s.HandlesPedal() ==> r.ExcessHandling() == s.ExcessHandling())
  }

  lemma TameStays(s: State, call: Call)
    requires Inv(s) && call.Valid() && Tame(s) && HasNotes(s)
    requires SameSettings(s, Apply(s, call).state)
    ensures Tame(Apply(s, call).state)
  {
    hide WithinSpecs, Conserved, NewNoteResets, NoteOffResets, RoutedEvents, ControlEvents, Listens, Learned;
    hide NotedInputs;
    hide StopEach, GlobalResets, Mcms, InitialInputs, ConfiguredZone, SetRatio;
    if !s.HandlesPedal() {
      SaneMeans(s);
      StopAllEmpties(s);
      StopAllEmpties(s.(suspended := false));
      LearnedSettings(s.params, if call.Controller? then call.cc else 0, RULES);
      assert forall n: Byte :: Without([], n) == [];
    }
  }

  ghost predicate KeepsSettings(s: State, calls: seq<Call>)
    requires Inv(s) && AllValid(calls)
    decreases |calls|
  {
    calls != [] ==>
      assert calls[0] in calls;
      ApplyKeeps(s, calls[0]);
      SameSettings(s, Apply(s, calls[0]).state) && KeepsSettings(Apply(s, calls[0]).state, calls[1..])
  }

  /** Whole runs under such settings are clean. */
  lemma {:induction false} TameRunsAreClean(s: State, calls: seq<Call>)
    requires Inv(s) && AllValid(calls) && Tame(s) && KeepsSettings(s, calls)
    ensures AllClean(s, calls) && Tame(Run(s, calls).state)
    decreases |calls|
  {
    hide Apply, Inv, Tame, SameSettings, WithinSpecs, CleanCall;
    if calls != [] {
      assert calls[0] in calls;
      ApplyKeeps(s, calls[0]);
      TameIsClean(s, calls[0]);
      TameStays(s, calls[0]);
      TameRunsAreClean(Apply(s, calls[0]).state, calls[1..]);
    }
  }

  // ---- Stealing ----

  ghost predicate IsVictim(s: State, victim: Byte) {
    var notes := s.voices.notes;
    victim in notes
    && (s.ExcessHandling() == ENH_STEAL_LOWEST ==> forall n :: n in notes ==> victim <= n)
    && (s.ExcessHandling() == ENH_STEAL_HIGHEST ==> forall n :: n in notes ==> n <= victim)
    && (s.ExcessHandling() == ENH_STEAL_OLDEST ==> victim == notes[|notes| - 1])
    && (s.ExcessHandling() == ENH_STEAL_NEWEST ==> victim == notes[0])
  }

  /** With no channel free, a new note takes the channel of the chosen victim, and nothing else changes. */
  lemma StealingReplacesVictim(s: State, t: real, note: Byte, velocity: Byte)
    requires Inv(s) && !s.suspended && note <= NOTE_MAX && note !in s.voices.notes && s.voices.free == []
    requires s.ExcessHandling() != ENH_IGNORE && HasNotes(s)
    ensures Victim(s).Some? && Victim(s).value <= NOTE_MAX
    ensures var victim, v, w := Victim(s).value, s.voices, NoteOn(s, t, note, velocity).state.voices;
      && IsVictim(s, victim)
      && (forall n :: n in w.notes <==> n == note || (n in v.notes && n != victim))
      && w.notes == [note] + Without(v.notes, victim)
      && w.channelOf == v.channelOf[note := v.channelOf[victim]] && w.free == []
  {
    hide WithinSpecs, Conserved, NewNoteResets, NoteOffResets;
    SomeNoteSounds(s);
    WithoutDistinct(s.voices.notes, Victim(s).value);
    EnhWithinSpecs(s.params);
  }

  lemma EnhWithinSpecs(ps: ParamTable)
    ensures ENH_IGNORE <= ps[Z1ENH].value <= ENH_STEAL_NEWEST
  {
    assert SpecOf(Z1ENH) == ParamSpec(ENH_IGNORE, ENH_STEAL_NEWEST, ENH_STEAL_OLDEST);
  }

  /** When new notes are to be ignored, excess and repeated notes change nothing and send nothing. */
  lemma IgnoringChangesNothing(s: State, t: real, note: Byte, velocity: Byte)
    requires Inv(s) && note <= NOTE_MAX && HasNotes(s) && s.ExcessHandling() == ENH_IGNORE
    requires note in s.voices.notes || s.voices.free == []
    ensures NoteOn(s, t, note, velocity) == Step(s, [])
  {
  }

  /** No call moves a sounding note to another channel. */
  lemma ChannelsAreStable(s: State, call: Call, n: Byte)
    requires Inv(s) && call.Valid() && HasNotes(s)
    requires n in s.voices.notes && n in Apply(s, call).state.voices.notes
    ensures Apply(s, call).state.voices.channelOf[n] == s.voices.channelOf[n]
  {
    hide WithinSpecs, Sane, NoteOn, NoteOff, ControlMessage, StopAll, GlobalResets, Mcms, InitialInputs, ConfiguredZone;
    hide SetRatio;
    InvMeans(s);
    match call {
      case PlayNote(t, note, velocity) => NoteOnKeepsChannels(s, t, note, velocity, n);
      case ReleaseKey(t, note, velocity) => NoteOffKeepsChannels(s, t, note, velocity);
      case Controller(t, cc, raw, value) => ControllerKeepsChannels(s, t, cc, raw, value);
      case Resume =>
        SaneElsewhere(s, s.(suspended := false));
        StopAllEmpties(s.(suspended := false));
      case Block => StopAllEmpties(s);
      case _ =>
    }
  }

  lemma NoteOnKeepsChannels(s: State, t: real, note: Byte, velocity: Byte, n: Byte)
    requires HasNotes(s) && note <= NOTE_MAX && n in s.voices.notes
    ensures NoteOn(s, t, note, velocity).state.voices.channelOf[n] == s.voices.channelOf[n]
  {
    hide WithinSpecs, NewNoteResets, NoteOffResets, Extreme;
  }

  lemma NoteOffKeepsChannels(s: State, t: real, note: Byte, velocity: Byte)
    requires note <= NOTE_MAX
    ensures NoteOff(s, t, note, velocity).state.voices.channelOf == s.voices.channelOf
  {
    hide WithinSpecs, NoteOffResets;
  }

  lemma ControllerKeepsChannels(s: State, t: real, cc: nat, raw: int, value: Ratio)
    requires Inv(s) && HasNotes(s)
    ensures ControlMessage(s, t, cc, raw, value).state.voices.channelOf == s.voices.channelOf
  {
    hide WithinSpecs, Conserved, RoutedEvents, ControlEvents, Listens, Learned, NotedInputs, ReleaseDeferred;
    SaneMeans(s);
    var seen := s.(seen := s.seen[cc := (t, raw)]);
    ReleaseDeferredVoices(Noted(seen, cc, value, RULES).(pedalDown := false), t);
  }

  /** What releasing all deferred notes does to the voices. */
  function Drained(v: Voices): Voices
    requires forall n :: n in v.deferred ==> n <= NOTE_MAX
    decreases |v.deferred|
  {
    if v.deferred == [] then v
    else
      DrainedStep(v);
      Drained(DrainedOnce(v))
  }

  /** The newest deferred note is popped off, taken out everywhere, and its channel freed. */
  function DrainedOnce(v: Voices): Voices
    requires v.deferred != [] && v.deferred[0] <= NOTE_MAX
  {
    v.Popped().Stopped(v.deferred[0]).Freed(v.channelOf[v.deferred[0]])
  }

  lemma DrainedStep(v: Voices)
    requires v.deferred != [] && forall n :: n in v.deferred ==> n <= NOTE_MAX
    ensures v.deferred[0] <= NOTE_MAX
    ensures var note, next := v.deferred[0], DrainedOnce(v);
      && next.notes == Without(v.notes, note) && next.free == v.free + [v.channelOf[note]]
      && next.deferred == Without(v.deferred[1..], note) && |next.deferred| < |v.deferred|
      && next.channelOf == v.channelOf && next.velocityOf == v.velocityOf
      && next.releaseVelocityOf == v.releaseVelocityOf
      && (forall n :: n in next.deferred ==> n <= NOTE_MAX)
  {
    assert v.deferred[0] in v.deferred;
    FirstAndRest(v.deferred);
    WithoutMembers(v.deferred[1..], v.deferred[0]);
  }

  lemma {:induction false} ReleaseDeferredDrains(s: State, t: real)
    requires forall n :: n in s.voices.deferred ==> n <= NOTE_MAX
    ensures ReleaseDeferred(s, t).state.voices == Drained(s.voices)
    decreases |s.voices.deferred|
  {
    hide NoteOffResets, WithinSpecs, Voices.Stopped, Voices.Popped;
    if s.voices.deferred != [] {
      var note := s.voices.deferred[0];
      DrainedStep(s.voices);
      PopDeferredMeans(s);
      ReleaseDeferredDrains(ReleaseNote(PopDeferred(s), t, note, s.voices.releaseVelocityOf[note]).state, t);
    }
  }

  lemma PopDeferredMeans(s: State)
    requires s.voices.deferred != []
    ensures var v, w := s.voices, PopDeferred(s).voices;
      PopDeferred(s) == s.(voices := w) && w.notes == v.notes && w.channelOf == v.channelOf && w.free == v.free
  {
  }

  lemma {:induction false} DrainedTables(v: Voices)
    requires Distinct(v.deferred) && forall n :: n in v.deferred ==> n <= NOTE_MAX
    ensures var w := Drained(v);
      && w.deferred == [] && w.free == v.free + ChannelsOf(v.deferred, v.channelOf)
      && w.channelOf == v.channelOf && w.velocityOf == v.velocityOf && w.releaseVelocityOf == v.releaseVelocityOf
    decreases |v.deferred|
  {
    hide Without, DrainedOnce, ChannelsOf;
    if v.deferred != [] {
      DrainedStep(v);
      var rest := v.deferred[1..];
      assert v.deferred[0] !in rest;
      FirstChannel(v.deferred, v.channelOf);
      Joined(v.free, [v.channelOf[v.deferred[0]]], ChannelsOf(rest, v.channelOf));
      DrainedTables(DrainedOnce(v));
    } else {
      NoChannels(v.channelOf);
    }
  }

  lemma NoChannels(table: NoteTable)
    ensures ChannelsOf([], table) == []
  {
  }

  lemma {:induction false} DrainedNotes(v: Voices)
    requires Distinct(v.notes) && Distinct(v.deferred) && forall n :: n in v.deferred ==> n <= NOTE_MAX
    ensures forall n :: n in Drained(v).notes <==> n in v.notes && n !in v.deferred
    decreases |v.deferred|
  {
    hide ChannelsOf, ChannelOf, Without, DrainedOnce;
    if v.deferred != [] {
      DrainedStep(v);
      var note, rest := v.deferred[0], v.deferred[1..];
      assert note !in rest;
      FirstAndRest(v.deferred);
      WithoutDistinct(v.notes, note);
      DrainedNotes(DrainedOnce(v));
    }
  }

  /** Releasing the deferred notes takes exactly them out, latest first, and queues their channels in that order. */
  lemma ReleaseDeferredVoices(s: State, t: real)
    requires NotesValid(s.voices) && forall n :: n in s.voices.deferred ==> n <= NOTE_MAX
    ensures var v, w := s.voices, ReleaseDeferred(s, t).state.voices;
      && (forall n :: n in w.notes <==> n in v.notes && n !in v.deferred)
      && w.deferred == [] && w.free == v.free + ChannelsOf(v.deferred, v.channelOf)
      && w.channelOf == v.channelOf && w.velocityOf == v.velocityOf && w.releaseVelocityOf == v.releaseVelocityOf
  {
    hide ReleaseDeferred, Drained, ChannelsOf, Distinct;
    ReleaseDeferredDrains(s, t);
    DrainedTables(s.voices);
    DrainedNotes(s.voices);
  }

  // ---- The notes among the events ----

  function NotesOnly(events: seq<Event>): seq<Event> {
    if events == [] then []
    else if events[0].command == NOTE_ON || events[0].command == NOTE_OFF then [events[0]] + NotesOnly(events[1..])
    else NotesOnly(events[1..])
  }

  lemma {:induction false} NotesOnlyConcat(a: seq<Event>, b: seq<Event>)
    ensures NotesOnly(a + b) == NotesOnly(a) + NotesOnly(b)
  {
    if a == [] {
      assert a + b == b;
    } else {
      assert (a + b)[1..] == a[1..] + b;
      NotesOnlyConcat(a[1..], b);
    }
  }

  lemma {:induction false} NotesOnlyQuiet(events: seq<Event>)
    requires NoNotes(events)
    ensures NotesOnly(events) == []
  {
    if events != [] {
      assert events[0] in events;
      NotesOnlyQuiet(events[1..]);
    }
  }

  lemma OneNoteOnly(before: seq<Event>, e: Event, after: seq<Event>)
    requires NoNotes(before) && NoNotes(after) && (e.command == NOTE_ON || e.command == NOTE_OFF)
    ensures NotesOnly(before + [e] + after) == [e]
  {
    NotesOnlyConcat(before + [e], after);
    NotesOnlyConcat(before, [e]);
    NotesOnlyQuiet(before);
    NotesOnlyQuiet(after);
    assert [e][1..] == [];
  }

  /** The note-off that stopping `note` sends. */
  function OffEvent(s: State, t: real, note: Byte, velocity: Byte): Event
    requires note <= NOTE_MAX
  {
    NoteEvent(t, NOTE_OFF, s.voices.channelOf[note], s.zone.Transpose(note),
              if s.OverridesRelease() then s.voices.velocityOf[note] else velocity)
  }

  lemma StopNoteSends(s: State, t: real, note: Byte, velocity: Byte)
    requires note <= NOTE_MAX && s.voices.channelOf[note] <= CHANNEL_MAX
    ensures NotesOnly(StopNote(s, t, note, velocity).events) == [OffEvent(s, t, note, velocity)]
  {
    hide NoteOffResets, Zone.Transpose, NotesOnly, WithinSpecs;
    var stopped := s.(voices := s.voices.Stopped(note));
    var resets := NoteOffResets(stopped, s.voices.notes, t, note >= s.zone.anchor, RULES);
    NoteOffResetsNoNotes(stopped, s.voices.notes, t, note >= s.zone.anchor, RULES);
    OneNoteOnly([], OffEvent(s, t, note, velocity), resets);
    assert [] + [OffEvent(s, t, note, velocity)] == [OffEvent(s, t, note, velocity)];
  }

  lemma StartNoteSends(s: State, t: real, channel: Byte, note: Byte, velocity: Byte)
    requires note <= NOTE_MAX && channel <= CHANNEL_MAX
    ensures NotesOnly(StartNote(s, t, channel, note, velocity).events)
         == [NoteEvent(t, NOTE_ON, channel, s.zone.Transpose(note), velocity)]
  {
    hide NewNoteResets, Zone.Transpose, NotesOnly, WithinSpecs;
    var started := s.(voices := s.voices.Started(channel, note, velocity));
    NewNoteResetsNoNotes(started, t, RULES, true);
    NewNoteResetsNoNotes(started, t, RULES, false);
    OneNoteOnly(NewNoteResets(started, t, RULES, true),
                NoteEvent(t, NOTE_ON, channel, s.zone.Transpose(note), velocity),
                NewNoteResets(started, t, RULES, false));
  }

  // ---- The pedal ----

  /** The note-offs that were held back, latest first, with the velocities recorded for them. */
  function DeferredOffs(s: State, t: real, deferred: seq<Byte>): seq<Event>
    requires forall n :: n in deferred ==> n <= NOTE_MAX
  {
    if deferred == [] then []
    else
      assert deferred[0] in deferred && forall n :: n in deferred[1..] ==> n in deferred;
      [OffEvent(s, t, deferred[0], s.voices.releaseVelocityOf[deferred[0]])] + DeferredOffs(s, t, deferred[1..])
  }

  lemma {:induction false} DeferredOffsSame(s: State, r: State, t: real, deferred: seq<Byte>)
    requires forall n :: n in deferred ==> n <= NOTE_MAX
    requires r.zone == s.zone && r.params == s.params && r.voices.channelOf == s.voices.channelOf
    requires r.voices.velocityOf == s.voices.velocityOf && r.voices.releaseVelocityOf == s.voices.releaseVelocityOf
    ensures DeferredOffs(r, t, deferred) == DeferredOffs(s, t, deferred)
  {
    if deferred != [] {
      assert forall n :: n in deferred[1..] ==> n in deferred;
      DeferredOffsSame(s, r, t, deferred[1..]);
    }
  }

  lemma OffEventSame(s: State, r: State, t: real, note: Byte, velocity: Byte)
    requires note <= NOTE_MAX && r.zone == s.zone && r.params == s.params
    requires r.voices.channelOf == s.voices.channelOf && r.voices.velocityOf == s.voices.velocityOf
    ensures OffEvent(r, t, note, velocity) == OffEvent(s, t, note, velocity)
  {
  }

  /** Releasing the pedal sends one note-off per deferred note, in this order and with these velocities. */
  lemma {:induction false} ReleaseDeferredSends(s: State, t: real)
    requires Sane(s) && HasNotes(s)
    ensures NotesOnly(ReleaseDeferred(s, t).events) == DeferredOffs(s, t, s.voices.deferred)
    decreases |s.voices.deferred|
  {
    hide ReleaseNote, PopDeferred, WithinSpecs, NotesOnly, Sane, OffEvent;
    NotesOnlyQuiet([]);
    if s.voices.deferred != [] {
      var note := s.voices.deferred[0];
      assert note in s.voices.deferred && forall n :: n in s.voices.deferred[1..] ==> n in s.voices.deferred;
      var velocity := s.voices.releaseVelocityOf[note];
      var step := ReleaseNote(PopDeferred(s), t, note, velocity);
      ReleaseOneSends(s, t, note, velocity);
      DeferredOffsSame(s, step.state, t, s.voices.deferred[1..]);
      ReleaseDeferredSends(step.state, t);
      NotesOnlyConcat(step.events, ReleaseDeferred(step.state, t).events);
    }
  }

  lemma ReleaseOneSends(s: State, t: real, note: Byte, velocity: Byte)
    requires Sane(s) && s.voices.deferred != [] && note == s.voices.deferred[0] && note <= NOTE_MAX
    ensures var step := ReleaseNote(PopDeferred(s), t, note, velocity);
      && NotesOnly(step.events) == [OffEvent(s, t, note, velocity)] && Sane(step.state) && HasNotes(step.state)
      && step.state.voices.deferred == s.voices.deferred[1..]
      && step.state.zone == s.zone && step.state.params == s.params
      && step.state.voices.channelOf == s.voices.channelOf && step.state.voices.velocityOf == s.voices.velocityOf
      && step.state.voices.releaseVelocityOf == s.voices.releaseVelocityOf
  {
    hide StopNote, WithinSpecs, NotesOnly, Conserved, OffEvent, NotesValid;
    SaneMeans(s);
    PoppedRelease(s, t, velocity);
    var popped := PopDeferred(s);
    StopFacts(popped, t, note, velocity);
    SaneHasNotes(ReleaseNote(popped, t, note, velocity).state);
    ChannelsInjective(s.voices, s.zone, note, note);
    StopNoteSends(popped, t, note, velocity);
    OffEventSame(s, popped, t, note, velocity);
  }

  /** The notes released since they last started, with the velocity of the last release. */
  type Releases = map<Byte, Byte>

  ghost function Noticed(h: Releases, s: State, call: Call): Releases
    requires HasNotes(s) && call.Valid()
  {
    match call
    case PlayNote(_, note, _) =>
      if note !in s.voices.notes && note in Apply(s, call).state.voices.notes then h - {note} else h
    case ReleaseKey(_, note, velocity) =>
      if note in s.voices.notes && !s.suspended then h[note := velocity] else h
    case _ => h
  }

  /** The deferred notes are exactly the active ones that have been released, with their last velocity. */
  ghost predicate DefersReleased(h: Releases, v: Voices) {
    forall n :: n in v.notes && n <= NOTE_MAX ==>
      (n in v.deferred <==> n in h) && (n in v.deferred ==> v.releaseVelocityOf[n] == h[n])
  }

  ghost predicate HandlesAndIgnores(s: State) {
    s.HandlesPedal() && s.ExcessHandling() == ENH_IGNORE
  }

  lemma PlayRefines(s: State, t: real, note: Byte, velocity: Byte, h: Releases)
    requires Inv(s) && note <= NOTE_MAX && HasNotes(s) && HandlesAndIgnores(s) && DefersReleased(h, s.voices)
    ensures DefersReleased(Noticed(h, s, PlayNote(t, note, velocity)), NoteOn(s, t, note, velocity).state.voices)
  {
    hide WithinSpecs, Conserved, NewNoteResets, Distinct;
    SaneMeans(s);
  }

  lemma ReleaseRefines(s: State, t: real, note: Byte, velocity: Byte, h: Releases)
    requires Inv(s) && note <= NOTE_MAX && HasNotes(s) && HandlesAndIgnores(s) && DefersReleased(h, s.voices)
    ensures DefersReleased(Noticed(h, s, ReleaseKey(t, note, velocity)), NoteOff(s, t, note, velocity).state.voices)
  {
    hide WithinSpecs, Conserved, NoteOffResets, Distinct;
    SaneMeans(s);
    WithoutDistinct(s.voices.notes, note);
    WithoutDistinct(s.voices.deferred, note);
  }

  lemma ControllerRefines(s: State, t: real, cc: nat, raw: int, value: Ratio, h: Releases)
    requires Inv(s) && HasNotes(s) && HandlesAndIgnores(s) && DefersReleased(h, s.voices)
    ensures DefersReleased(h, ControlMessage(s, t, cc, raw, value).state.voices)
  {
    hide WithinSpecs, Conserved, RoutedEvents, ControlEvents, Listens, Learned, NotedInputs, ReleaseDeferred, Distinct;
    SaneMeans(s);
    var seen := s.(seen := s.seen[cc := (t, raw)]);
    ReleaseDeferredVoices(Noted(seen, cc, value, RULES).(pedalDown := false), t);
  }

  /** The pedal refines its specification at every call, while pedal handling is on and excess notes are ignored. */
  lemma PedalRefines(s: State, call: Call, h: Releases)
    requires Inv(s) && call.Valid() && HasNotes(s) && HandlesAndIgnores(s) && DefersReleased(h, s.voices)
    ensures DefersReleased(Noticed(h, s, call), Apply(s, call).state.voices)
    ensures s.voices.deferred != [] ==> s.pedalDown
  {
    hide WithinSpecs, Sane, NoteOn, NoteOff, ControlMessage, StopEach, GlobalResets, Mcms, InitialInputs;
    hide ConfiguredZone, SetRatio;
    InvMeans(s);
    match call {
      case PlayNote(t, note, velocity) => PlayRefines(s, t, note, velocity, h);
      case ReleaseKey(t, note, velocity) => ReleaseRefines(s, t, note, velocity, h);
      case Controller(t, cc, raw, value) => ControllerRefines(s, t, cc, raw, value, h);
      case Resume =>
        SaneElsewhere(s, s.(suspended := false));
        StopAllEmpties(s.(suspended := false));
      case Block => StopAllEmpties(s);
      case _ =>
    }
  }

  ghost function NoticedAll(h: Releases, s: State, calls: seq<Call>): Releases
    requires Inv(s) && AllValid(calls)
    decreases |calls|
  {
    if calls == [] then h
    else
      assert calls[0] in calls;
      ApplyKeeps(s, calls[0]);
      NoticedAll(Noticed(h, s, calls[0]), Apply(s, calls[0]).state, calls[1..])
  }

  /** The pedal over whole runs: the deferred notes are the released ones, and there are none while the pedal is up. */
  lemma {:induction false} PedalRefinesRuns(s: State, calls: seq<Call>, h: Releases)
    requires Inv(s) && AllValid(calls) && HandlesAndIgnores(s) && KeepsSettings(s, calls) && DefersReleased(h, s.voices)
    ensures var r := Run(s, calls).state;
      && DefersReleased(NoticedAll(h, s, calls), r.voices) && (r.voices.deferred != [] ==> r.pedalDown)
    decreases |calls|
  {
    hide Apply, Inv, WithinSpecs, DefersReleased, Noticed;
    InvMeans(s);
    if calls != [] {
      assert calls[0] in calls;
      ApplyKeeps(s, calls[0]);
      PedalRefines(s, calls[0], h);
      PedalRefinesRuns(Apply(s, calls[0]).state, calls[1..], Noticed(h, s, calls[0]));
    }
  }

  // ---- Resets ----

  /** Resuming silences everything: the stream has nothing sounding and every member channel is free, in order. */
  lemma ResumeSilences(s: State, held: Held)
    requires Inv(s) && HasNotes(s) && Tracks(held, s.voices, s.zone)
    ensures var step := Apply(s, Resume);
      && AfterAll(held, step.events) == map[] && step.state.voices.notes == [] && step.state.voices.deferred == []
      && step.state.zone == ConfiguredZone(s.params) && step.state.voices.free == step.state.zone.Members()
      && !step.state.pedalDown && !step.state.suspended
  {
    hide ConfiguredZone, WithinSpecs, Sane, Tracks, Paired, AfterAll, Mcms, GlobalResets, InitialInputs, StopEach;
    var awake := s.(suspended := false);
    SaneElsewhere(s, awake);
    ConfiguredZoneValid(s.params);
    RestartFollows(awake, ConfiguredZone(s.params), held);
    RestartKeeps(awake, ConfiguredZone(s.params));
    StopAllEmpties(awake);
  }

  /** So does the first block after the zone settings have changed, and no other block does anything. */
  lemma BlockEntersZone(s: State, held: Held)
    requires Inv(s) && HasNotes(s) && Tracks(held, s.voices, s.zone)
    ensures var step := Apply(s, Block);
      if s.suspended || ConfiguredZone(s.params) == s.zone then step == Step(s, [])
      else AfterAll(held, step.events) == map[] && step.state.voices.notes == []
           && step.state.zone == ConfiguredZone(s.params) && step.state.voices.free == step.state.zone.Members()
  {
    hide ConfiguredZone, WithinSpecs, Sane, Tracks, Paired, AfterAll, Restart;
    ConfiguredZoneValid(s.params);
    RestartFollows(s, ConfiguredZone(s.params), held);
    RestartKeeps(s, ConfiguredZone(s.params));
  }
}
