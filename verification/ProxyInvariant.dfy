/** What every call of the proxy keeps, above all that each member channel is in exactly one place. */
module ProxyInvariant {
  import opened Midi
  import opened Sequences
  import opened NoteStacks
  import opened Distortion
  import opened Params
  import opened ProxyModel

  ghost predicate NotesValid(v: Voices) {
    Distinct(v.notes) && (forall n :: n in v.notes ==> n <= NOTE_MAX)
    && Distinct(v.deferred) && (forall n :: n in v.deferred ==> n in v.notes)
  }

  /** The free channels and the channels of the active notes are, together, each member channel once. */
  ghost predicate Conserved(v: Voices, zone: Zone)
    requires zone.Valid()
  {
    multiset(v.free) + multiset(v.Channels()) == multiset(zone.Members())
  }

  /** As Conserved, with one channel in hand: neither free nor sounding. */
  ghost predicate InHand(v: Voices, zone: Zone, channel: Byte)
    requires zone.Valid()
  {
    multiset(v.free) + multiset(v.Channels()) + multiset{channel} == multiset(zone.Members())
  }

  ghost predicate Sane(s: State) {
    s.zone.Valid() && NotesValid(s.voices) && Conserved(s.voices, s.zone)
  }

  ghost predicate Inv(s: State) {
    Sane(s) && (s.voices.deferred != [] ==> s.pedalDown)
  }

  lemma SaneMeans(s: State)
    requires Sane(s)
    ensures s.zone.Valid() && NotesValid(s.voices) && Conserved(s.voices, s.zone)
    ensures forall n :: n in s.voices.notes ==> n <= NOTE_MAX
  {
  }

  lemma SaneDeferred(s: State)
    requires Sane(s)
    ensures forall n :: n in s.voices.deferred ==> n <= NOTE_MAX
  {
  }

  lemma InvMeans(s: State)
    requires Inv(s)
    ensures Sane(s) && s.zone.Valid() && (s.voices.deferred != [] ==> s.pedalDown)
    ensures forall n :: n in s.voices.notes ==> n <= NOTE_MAX
    ensures forall n :: n in s.voices.deferred ==> n <= NOTE_MAX
  {
  }

  // ---- Counting ----

  lemma {:induction false} DistinctCounts<T>(s: seq<T>, x: T)
    requires Distinct(s)
    ensures multiset(s)[x] <= 1
  {
    if s != [] {
      DistinctCounts(s[1..], x);
      assert s == [s[0]] + s[1..];
      if x == s[0] {
        assert x !in s[1..];
      }
    }
  }

  lemma CountsDistinct<T>(s: seq<T>)
    requires forall x :: multiset(s)[x] <= 1
    ensures Distinct(s)
  {
    forall i, j | 0 <= i < j < |s|
      ensures s[i] != s[j]
    {
      assert s == s[..j] + [s[j]] + s[j + 1..];
      assert s[..j][i] == s[i];
      assert multiset(s)[s[j]] >= multiset(s[..j])[s[j]] + 1;
    }
  }

  lemma MembersValid(z: Zone)
    requires z.Valid()
    ensures Distinct(z.Members()) && |z.Members()| == z.count
    ensures forall c :: c in z.Members() ==> c <= CHANNEL_MAX && c != z.manager
  {
  }

  /** Conservation, spelled out. */
  lemma ConservedMeans(v: Voices, zone: Zone)
    requires zone.Valid() && Conserved(v, zone)
    ensures Distinct(v.free + v.Channels()) && |v.free| + |v.notes| == zone.count
    ensures forall c :: c in zone.Members() <==> c in v.free || c in v.Channels()
    ensures forall c :: c in v.free || c in v.Channels() ==> c <= CHANNEL_MAX && c != zone.manager
  {
    var all, members := v.free + v.Channels(), zone.Members();
    MembersValid(zone);
    assert multiset(all) == multiset(members);
    forall x
      ensures multiset(all)[x] <= 1
    {
      DistinctCounts(members, x);
    }
    CountsDistinct(all);
    assert |multiset(all)| == |all| && |multiset(members)| == |members|;
    assert forall c :: c in members <==> c in multiset(members);
    assert forall c :: c in all <==> c in multiset(all);
  }

  /** Different active notes sound on different channels, none of them free. */
  lemma ChannelsInjective(v: Voices, zone: Zone, a: Byte, b: Byte)
    requires zone.Valid() && Conserved(v, zone) && NotesValid(v) && a in v.notes && b in v.notes
    ensures v.channelOf[a] == v.channelOf[b] ==> a == b
    ensures v.channelOf[a] !in v.free && v.channelOf[a] in zone.Members()
    ensures v.channelOf[a] <= CHANNEL_MAX && v.channelOf[a] != zone.manager
  {
    hide Conserved, Zone.Members, WithinSpecs, Links.WellFormed;
    ConservedMeans(v, zone);
    var i :| 0 <= i < |v.notes| && v.notes[i] == a;
    var j :| 0 <= j < |v.notes| && v.notes[j] == b;
    var all, f := v.free + v.Channels(), |v.free|;
    assert all[f + i] == v.Channels()[i] == v.channelOf[a];
    assert all[f + j] == v.channelOf[b];
    assert v.Channels()[i] in v.Channels();
    assert forall k :: 0 <= k < f ==> all[k] == v.free[k] && all[k] != all[f + i];
  }

  lemma {:induction false} ChannelsWithout(notes: seq<Byte>, table: NoteTable, n: Byte)
    requires n in notes
    ensures multiset(ChannelsOf(notes, table)) ==
            multiset(ChannelsOf(Without(notes, n), table)) + multiset{ChannelOf(table, n)}
  {
    var c := ChannelOf(table, notes[0]);
    assert ChannelsOf(notes, table) == [c] + ChannelsOf(notes[1..], table);
    if notes[0] != n {
      ChannelsWithout(notes[1..], table, n);
      assert Without(notes, n)[1..] == Without(notes[1..], n);
      assert ChannelsOf(Without(notes, n), table) == [c] + ChannelsOf(Without(notes[1..], n), table);
    }
  }

  lemma {:induction false} ChannelsElsewhere(notes: seq<Byte>, table: NoteTable, n: Byte, c: Byte)
    requires n <= NOTE_MAX && n !in notes
    ensures ChannelsOf(notes, table[n := c]) == ChannelsOf(notes, table)
  {
    if notes != [] {
      ChannelsElsewhere(notes[1..], table, n, c);
    }
  }

  lemma InitialKeeps(curves: Curves)
    ensures var s := InitialState(curves);
      && Inv(s) && s.voices.notes == [] && s.voices.deferred == [] && s.voices.free == s.zone.Members()
      && !s.pedalDown && !s.suspended && s.seen == map[] && s.curves == curves
      && s.voices.links == NoLinks()
  {
    hide InitialInputs;
  }

  // ---- Changes of voices ----

  lemma StoppedKeeps(v: Voices, zone: Zone, note: Byte)
    requires zone.Valid() && NotesValid(v) && Conserved(v, zone) && note in v.notes
    ensures NotesValid(v.Stopped(note)) && InHand(v.Stopped(note), zone, v.channelOf[note])
    ensures note !in v.Stopped(note).notes
  {
    hide Conserved, InHand, ChannelsOf;
    WithoutDistinct(v.notes, note);
    WithoutDistinct(v.deferred, note);
    StoppedInHand(v, zone, note);
  }

  lemma StoppedInHand(v: Voices, zone: Zone, note: Byte)
    requires zone.Valid() && Conserved(v, zone) && note in v.notes && note <= NOTE_MAX
    ensures InHand(v.Stopped(note), zone, v.channelOf[note])
  {
    hide Without, ChannelsOf, Zone.Members;
    ChannelsWithout(v.notes, v.channelOf, note);
  }

  lemma StartedKeeps(v: Voices, zone: Zone, channel: Byte, note: Byte, velocity: Byte)
    requires zone.Valid() && NotesValid(v) && InHand(v, zone, channel) && note <= NOTE_MAX && note !in v.notes
    ensures NotesValid(v.Started(channel, note, velocity)) && Conserved(v.Started(channel, note, velocity), zone)
  {
    hide Conserved, InHand;
    StartedConserved(v, zone, channel, note, velocity);
  }

  lemma StartedConserved(v: Voices, zone: Zone, channel: Byte, note: Byte, velocity: Byte)
    requires zone.Valid() && InHand(v, zone, channel) && note <= NOTE_MAX && note !in v.notes
    ensures Conserved(v.Started(channel, note, velocity), zone)
  {
    hide Zone.Members, ChannelsOf;
    ChannelsElsewhere(v.notes, v.channelOf, note, channel);
    var table, channels := v.channelOf[note := channel], v.Channels();
    assert ([note] + v.notes)[1..] == v.notes;
    FirstChannel([note] + v.notes, table);
    assert ChannelsOf([note] + v.notes, table) == [channel] + channels;
    assert multiset([channel] + channels) == multiset{channel} + multiset(channels);
  }

  lemma FreedKeeps(v: Voices, zone: Zone, channel: Byte)
    requires zone.Valid() && NotesValid(v) && InHand(v, zone, channel)
    ensures NotesValid(v.Freed(channel)) && Conserved(v.Freed(channel), zone)
  {
  }

  lemma TakeFreeKeeps(v: Voices, zone: Zone)
    requires zone.Valid() && NotesValid(v) && Conserved(v, zone) && v.free != []
    ensures var w := v.(free := v.free[1..]); NotesValid(w) && InHand(w, zone, v.free[0])
  {
    assert v.free == [v.free[0]] + v.free[1..];
  }

  // ---- Calls ----

  lemma StopFacts(s: State, t: real, note: Byte, velocity: Byte)
    requires Sane(s) && note in s.voices.notes
    ensures var v := s.voices.Stopped(note);
      && note <= NOTE_MAX && StopNote(s, t, note, velocity).state == s.(voices := v)
      && NotesValid(v) && InHand(v, s.zone, s.voices.channelOf[note]) && note !in v.notes
      && (forall n :: n in v.notes ==> n in s.voices.notes)
  {
    hide NoteOffResets, Conserved, InHand;
    StoppedKeeps(s.voices, s.zone, note);
    WithoutMembers(s.voices.notes, note);
  }

  lemma TakeFreeFacts(s: State)
    requires Sane(s) && s.voices.free != []
    ensures var v := s.voices.(free := s.voices.free[1..]);
      s.zone.Valid() && NotesValid(v) && InHand(v, s.zone, s.voices.free[0])
  {
    TakeFreeKeeps(s.voices, s.zone);
  }

  /** The branch the original asserts is never reached. */
  lemma SomeNoteSounds(s: State)
    requires Inv(s) && s.voices.free == []
    ensures s.voices.notes != []
  {
    ConservedMeans(s.voices, s.zone);
  }

  lemma ReplaceKeeps(s: State, t: real, victim: Byte, note: Byte, velocity: Byte)
    requires Inv(s) && victim in s.voices.notes && note <= NOTE_MAX && (note == victim || note !in s.voices.notes)
    ensures Inv(Replace(s, t, victim, note, velocity).state)
  {
    hide NewNoteResets, NoteOffResets;
    StoppedKeeps(s.voices, s.zone, victim);
    WithoutMembers(s.voices.notes, victim);
    WithoutMembers(s.voices.deferred, victim);
    StartedKeeps(s.voices.Stopped(victim), s.zone, s.voices.channelOf[victim], note, velocity);
  }

  lemma NoteOnKeeps(s: State, t: real, note: Byte, velocity: Byte)
    requires Inv(s) && note <= NOTE_MAX
    ensures Inv(NoteOn(s, t, note, velocity).state)
  {
    hide NewNoteResets, NoteOffResets, Replace;
    if s.suspended {
    } else if note in s.voices.notes {
      ReplaceKeeps(s, t, note, note, velocity);
    } else if s.voices.free == [] {
      if Victim(s).Some? {
        ReplaceKeeps(s, t, Victim(s).value, note, velocity);
      }
    } else {
      TakeFreeKeeps(s.voices, s.zone);
      StartedKeeps(s.voices.(free := s.voices.free[1..]), s.zone, s.voices.free[0], note, velocity);
    }
  }

  lemma ReleaseNoteKeeps(s: State, t: real, note: Byte, velocity: Byte)
    requires Inv(s) && note in s.voices.notes
    ensures Inv(ReleaseNote(s, t, note, velocity).state)
  {
    hide NoteOffResets;
    StoppedKeeps(s.voices, s.zone, note);
    WithoutMembers(s.voices.deferred, note);
    FreedKeeps(s.voices.Stopped(note), s.zone, s.voices.channelOf[note]);
  }

  lemma NoteOffKeeps(s: State, t: real, note: Byte, velocity: Byte)
    requires Inv(s) && note <= NOTE_MAX
    ensures Inv(NoteOff(s, t, note, velocity).state)
  {
    hide NoteOffResets, ReleaseNote;
    if !s.suspended && note in s.voices.notes {
      if s.HandlesPedal() && s.pedalDown {
        WithoutDistinct(s.voices.deferred, note);
      } else {
        ReleaseNoteKeeps(s, t, note, velocity);
      }
    }
  }

  lemma {:induction false} ReleaseDeferredKeeps(s: State, t: real)
    requires s.zone.Valid() && NotesValid(s.voices) && Conserved(s.voices, s.zone)
    ensures var r := ReleaseDeferred(s, t).state; Inv(r) && r.voices.deferred == []
    decreases |s.voices.deferred|
  {
    hide NoteOffResets;
    if s.voices.deferred != [] {
      var note := s.voices.deferred[0];
      assert note in s.voices.deferred;
      PoppedRelease(s, t, s.voices.releaseVelocityOf[note]);
      ReleaseDeferredKeeps(ReleaseNote(PopDeferred(s), t, note, s.voices.releaseVelocityOf[note]).state, t);
    }
  }

  /** Releasing the latest deferred note after popping it off leaves the other deferred ones. */
  lemma PoppedRelease(s: State, t: real, velocity: Byte)
    requires Sane(s) && s.voices.deferred != []
    ensures var note, popped := s.voices.deferred[0], PopDeferred(s);
      && note in s.voices.notes && note <= NOTE_MAX && Sane(popped)
      && popped.voices.notes == s.voices.notes && popped.voices.channelOf == s.voices.channelOf
      && Sane(ReleaseNote(popped, t, note, velocity).state)
      && ReleaseNote(popped, t, note, velocity).state.voices.deferred == s.voices.deferred[1..]
      && (s.voices.links.head == note ==>
            ReleaseNote(popped, t, note, velocity).state.voices.links == s.voices.links.Released())
  {
    hide StopNote, NotesValid, Conserved, PopDeferred, Links.WellFormed;
    var note := s.voices.deferred[0];
    PopDeferredKeeps(s);
    PopDeferredStops(s);
    StopFacts(PopDeferred(s), t, note, velocity);
    FreedKeeps(PopDeferred(s).voices.Stopped(note), s.zone, s.voices.channelOf[note]);
  }

  lemma PopDeferredKeeps(s: State)
    requires Sane(s) && s.voices.deferred != []
    ensures var note := s.voices.deferred[0];
      && note in s.voices.notes && note <= NOTE_MAX && Distinct(s.voices.deferred)
      && (forall n :: n in s.voices.deferred ==> n <= NOTE_MAX)
      && Sane(PopDeferred(s)) && PopDeferred(s) == s.(voices := s.voices.Popped())
  {
    hide ChannelsOf, Zone.Members;
    assert s.voices.deferred[0] in s.voices.deferred;
  }

  lemma PopDeferredStops(s: State)
    requires s.voices.deferred != [] && Distinct(s.voices.deferred)
    requires forall n :: n in s.voices.deferred ==> n <= NOTE_MAX
    ensures var note, popped := s.voices.deferred[0], s.voices.Popped();
      && note <= NOTE_MAX && popped.Stopped(note).deferred == s.voices.deferred[1..]
      && (s.voices.links.head == note ==> popped.Stopped(note).links == s.voices.links.Released())
      && popped.notes == s.voices.notes && popped.channelOf == s.voices.channelOf
  {
    var note, rest := s.voices.deferred[0], s.voices.deferred[1..];
    assert note in s.voices.deferred && note !in rest;
  }

  lemma ControlKeeps(s: State, t: real, cc: nat, value: Ratio)
    requires Inv(s)
    ensures Inv(Control(s, t, cc, value).state)
  {
    hide RoutedEvents, Learned, NotedInputs, ControlEvents, RuleAt, ReleaseDeferred;
    if s.HandlesPedal() && cc == SUSTAIN_PEDAL && value < 0.5 {
      var noted := Noted(s, cc, value, RULES);
      ReleaseDeferredKeeps(noted.(pedalDown := false), t);
    }
  }

  lemma {:induction false} StopEachEmpties(s: State)
    requires NotesValid(s.voices)
    ensures var r := StopEach(s).state;
      var v := r.voices;
      r == s.(voices := s.voices.(notes := [], deferred := v.deferred, links := v.links))
    decreases |s.voices.notes|
  {
    hide NoteOffResets;
    if s.voices.notes != [] {
      var note := s.voices.notes[0];
      assert note in s.voices.notes;
      WithoutDistinct(s.voices.notes, note);
      WithoutDistinct(s.voices.deferred, note);
      StopEachEmpties(StopNote(s, 0.0, note, 64).state);
    }
  }

  lemma StopAllEmpties(s: State)
    requires Sane(s)
    ensures forall n :: n in s.voices.notes ==> n <= NOTE_MAX
    ensures StopAll(s).state == s.(voices := s.voices.(notes := []).Forgotten(), pedalDown := false)
  {
    hide StopEach, Conserved;
    StopEachEmpties(s);
  }

  lemma RestartKeeps(s: State, zone: Zone)
    requires Inv(s) && zone.Valid()
    ensures var r := Restart(s, zone).state;
      Inv(r) && r.voices.notes == [] && r.voices.deferred == [] && !r.pedalDown
      && r.voices.free == zone.Members() && r.zone == zone
  {
    hide GlobalResets, Mcms, InitialInputs, StopEach;
    StopEachEmpties(s);
  }

  lemma InputElsewhere(ps: ParamTable, cc: nat, j: nat, i: nat)
    requires j < i < RULES
    ensures RuleAt(SetValue(ps, RuleParam(j, IN_CC), cc), i) == RuleAt(ps, i)
  {
    hide WithinSpecs, WithValue, SpecOf;
    assert RuleParam(j, IN_CC) < RuleParam(i, IN_CC) <= Z1R1FB;
  }

  /** A rule is not touched by what the rules before it have learned. */
  lemma {:induction false} LearnedElsewhere(ps: ParamTable, cc: nat, n: nat, i: nat)
    requires n <= i < RULES
    ensures RuleAt(Learned(ps, cc, n), i) == RuleAt(ps, i)
  {
    hide RuleAt, SetValue, WithinSpecs;
    if n > 0 {
      LearnedElsewhere(ps, cc, n - 1, i);
      InputElsewhere(Learned(ps, cc, n - 1), cc, n - 1, i);
    }
  }

  /** Learning touches the inputs of rules only. */
  lemma {:induction false} LearnedSettings(ps: ParamTable, cc: nat, n: nat)
    requires n <= RULES
    ensures forall id :: 0 <= id < Z1R1IN || Z1TRB <= id < PARAM_ID_COUNT ==> Learned(ps, cc, n)[id] == ps[id]
  {
    hide RuleAt, WithinSpecs, WithValue, SpecOf;
    if n > 0 {
      LearnedSettings(ps, cc, n - 1);
    }
  }
}
