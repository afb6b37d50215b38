/** A host that makes any sequence of calls: the linked lists of the proxy produce just the stream of the model. */
module ProxyHost {
  import opened Midi
  import opened Sequences
  import opened NoteStacks
  import opened Distortion
  import opened Params
  import opened ProxyModel
  import opened ProxyInvariant
  import opened ProxyRuns
  import opened ProxyProperties
  import opened ProxyCalls
  import opened ProxyResets
  import opened ProxyAnswers
  import opened ProxyClass

  /** Any call at all, except a release of the pedal that would walk through a damaged list, is answered in full. */
  method Perform(proxy: Proxy, call: Call)
    requires proxy.Valid() && call.Valid() && SafeCall(proxy.state, call)
    modifies proxy, proxy.keyboard.Repr, proxy.deferredNoteOffs.Repr, proxy.availableChannels.Repr, proxy.log
    ensures proxy.Valid() && HasNotes(old(proxy.state))
    ensures var step := Apply(old(proxy.state), call);
      proxy.state == step.state && proxy.log.trace == old(proxy.log.trace) + step.events
    ensures Answers(proxy.log.trace[|old(proxy.log.trace)|..], old(proxy.state), call)
    ensures call.Resume? || (call.Block? && !old(proxy.state).suspended) ==> Describes(proxy.params, proxy.zone)
  {
    hide Answers, Describes, ConfiguredZone, Proxy.Matches, Inv, NoteOn, NoteOff, ControlMessage, Reset, BeginBlock;
    hide SetRatio, WalksList;
    InvHasNotes(proxy.state);
    ApplyAnswers(proxy.state, call);
    Suffix(proxy.log.trace, Apply(proxy.state, call).events);
    ZoneIsDescribed(proxy.state, call);
    match call {
      case PlayNote(t, note, velocity) => proxy.NoteOn(t, note, velocity);
      case ReleaseKey(t, note, velocity) => proxy.NoteOff(t, note, velocity);
      case Controller(t, cc, raw, value) => proxy.Controller(t, cc, raw, value);
      case SetParam(id, ratio) => proxy.HandleSetParam(id, ratio);
      case Suspend => proxy.Suspend();
      case Resume => proxy.Resume();
      case Block => var changed := proxy.BeginBlock();
    }
    proxy.MatchesFields();
  }

  /** From the first block on, or from resuming, the zone is the one that the settings described then. */
  lemma ZoneIsDescribed(s: State, call: Call)
    requires Inv(s) && HasNotes(s) && call.Valid()
    ensures call.Resume? || (call.Block? && !s.suspended) ==>
      var r := Apply(s, call).state; Describes(r.params, r.zone)
  {
    hide Describes, Apply, InRow, Inv, WithinSpecs;
    if call.Resume? {
      ResumeEnters(s);
    } else if call.Block? {
      BlockEnters(s);
    }
  }

  lemma Suffix(trace: seq<Event>, events: seq<Event>)
    ensures (trace + events)[|trace|..] == events
  {
  }

  /** The channels in the ring and those of the notes in the first stack together are the member channels, once each. */
  ghost predicate ConservesChannels(proxy: Proxy)
    reads proxy, proxy.keyboard, proxy.availableChannels
  {
    var free, sounding := proxy.availableChannels.contents, ChannelsOf(proxy.keyboard.notes, proxy.channelsByNotes);
    && proxy.zone.Valid() && Distinct(free + sounding)
    && forall c :: c in proxy.zone.Members() <==> c in free || c in sounding
  }

  /** In what is emitted from the call with index `i` on, note-offs carry the velocities of their note-ons. */
  ghost predicate VelocitiesMatchFrom(start: State, calls: seq<Call>, trace: seq<Event>, i: nat)
    requires Inv(start) && i <= |calls|
  {
    AllValid(calls[..i]) && AllValid(calls[i..])
    && var before := Run(start, calls[..i]);
      OverridesThroughout(before.state, calls[i..]) ==>
        before.events <= trace && Paired(AfterAll(map[], before.events), trace[|before.events|..], true)
  }

  /** From power-on, through any safe run, the proxy does what the model says. */
  method PerformEach(curves: Curves, calls: seq<Call>) returns (proxy: Proxy)
    requires AllValid(calls) && AllSafe(PowerOn(curves), calls)
    ensures proxy.Valid()
    ensures proxy.state == Run(PowerOn(curves), calls).state && proxy.log.trace == Run(PowerOn(curves), calls).events
  {
    hide Proxy.Matches, Inv, Apply, SafeCall, AllSafe, PowerOn, Call.Valid, Answers, Describes;
    PowerOnIsInitial(curves);
    proxy := new Proxy(curves);
    ghost var start := PowerOn(curves);
    var i := 0;
    assert calls[0..] == calls;
    JoinedStep(Run(start, calls));
    while i != |calls|
      invariant 0 <= i <= |calls| && proxy.Valid() && fresh(proxy) && fresh(proxy.log) && fresh(proxy.keyboard.Repr)
      invariant fresh(proxy.deferredNoteOffs.Repr) && fresh(proxy.availableChannels.Repr)
      invariant AllValid(calls[i..]) && AllSafe(proxy.state, calls[i..])
      invariant Run(start, calls) == Step(proxy.state, proxy.log.trace).Then(Run(proxy.state, calls[i..]))
    {
      ghost var rest, s, trace := calls[i + 1..], proxy.state, proxy.log.trace;
      assert calls[i..] == [calls[i]] + rest;
      RunUnfolds(s, calls[i], rest);
      Perform(proxy, calls[i]);
      Joined(trace, Apply(s, calls[i]).events, Run(proxy.state, rest).events);
      i := i + 1;
    }
    assert calls[i..] == [];
  }

  lemma PowerOnIsInitial(curves: Curves)
    ensures PowerOn(curves) == InitialState(curves)
  {
    hide InitialState, Inv;
  }

  /** So the events that it has emitted are paired and match what it plays, and its channels are conserved. */
  method PerformAll(curves: Curves, calls: seq<Call>) returns (proxy: Proxy)
    requires AllValid(calls) && AllSafe(PowerOn(curves), calls)
    ensures proxy.Valid() && Inv(proxy.state)
    ensures proxy.state == Run(PowerOn(curves), calls).state && proxy.log.trace == Run(PowerOn(curves), calls).events
    ensures exists parts :: AnswersInTurn(parts, PowerOn(curves), calls) && Flatten(parts) == proxy.log.trace
    ensures Paired(map[], proxy.log.trace, false)
    ensures forall i :: 0 <= i <= |calls| ==> VelocitiesMatchFrom(PowerOn(curves), calls, proxy.log.trace, i)
    ensures Tracks(AfterAll(map[], proxy.log.trace), proxy.state.voices, proxy.state.zone)
    ensures ConservesChannels(proxy)
  {
    hide Proxy.Matches, Inv, Run, Paired, Tracks, AfterAll, ConservesChannels, VelocitiesMatchFrom, PairedCallByCall;
    hide AllSafe, PowerOn, Call.Valid, AnswersInTurn, Flatten;
    EveryRunIsPaired(curves, calls);
    ghost var parts := RunAnswers(PowerOn(curves), calls);
    forall i | 0 <= i <= |calls|
      ensures VelocitiesMatchFrom(PowerOn(curves), calls, Run(PowerOn(curves), calls).events, i)
    {
      VelocitiesMatchAt(curves, calls, i);
    }
    proxy := PerformEach(curves, calls);
    ValidConserves(proxy);
  }

  lemma JoinedStep(run: Step)
    ensures [] + run.events == run.events
  {
  }

  lemma VelocitiesMatchAt(curves: Curves, calls: seq<Call>, i: nat)
    requires AllValid(calls) && i <= |calls|
    ensures VelocitiesMatchFrom(PowerOn(curves), calls, Run(PowerOn(curves), calls).events, i)
  {
    hide Inv, Run, Paired, AfterAll, OverridesThroughout, PowerOn, Call.Valid;
    assert calls[..i] + calls[i..] == calls;
    assert forall c :: c in calls[..i] || c in calls[i..] ==> c in calls;
    VelocitiesMatchWhileOverridden(curves, calls[..i], calls[i..]);
  }

  lemma ValidConserves(proxy: Proxy)
    requires proxy.Valid()
    ensures ConservesChannels(proxy)
  {
    hide Conserved, NotesValid, Distinct, Zone.Members;
    InvMeans(proxy.state);
    SaneMeans(proxy.state);
    ConservedMeans(proxy.state.voices, proxy.state.zone);
  }

  lemma RunUnfolds(s: State, call: Call, rest: seq<Call>)
    requires Inv(s) && AllValid([call] + rest) && AllSafe(s, [call] + rest)
    ensures call.Valid() && HasNotes(s) && AllValid(rest) && SafeCall(s, call)
    ensures var step := Apply(s, call);
      Inv(step.state) && AllSafe(step.state, rest) && Run(s, [call] + rest) == step.Then(Run(step.state, rest))
  {
    hide Inv, Apply, SafeCall;
    assert ([call] + rest)[0] == call && ([call] + rest)[1..] == rest && call in [call] + rest;
    assert forall c :: c in rest ==> c in [call] + rest;
    ApplyKeeps(s, call);
  }
}
