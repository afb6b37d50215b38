/** Comparing cached channels, as src/proxy.cpp:614-727 does, against comparing target notes. */
module Retargeting {
  import opened Midi
  import opened Sequences
  import opened NoteStacks
  import opened Keyboards
  import opened Params
  import opened ProxyModel
  import opened ProxyInvariant

  /** The cached channel that a rule target looks at. */
  function CachedChannel(target: nat, stats: SplitStats): Byte {
    match target
    case 3 => stats.all.lowest
    case 4 => stats.all.highest
    case 5 => stats.all.oldest
    case 6 => stats.all.newest
    case 7 => stats.below.lowest
    case 8 => stats.below.highest
    case 9 => stats.below.oldest
    case 10 => stats.below.newest
    case 11 => stats.above.lowest
    case 12 => stats.above.highest
    case 13 => stats.above.oldest
    case 14 => stats.above.newest
    case _ => INVALID_CHANNEL
  }

  function ChannelOfTarget(note: Option<Byte>, table: NoteTable): Byte {
    if note.Some? then ChannelOf(table, note.value) else INVALID_CHANNEL
  }

  lemma StatsTellExtremes(s: seq<Byte>, table: NoteTable)
    ensures var st := StatsOf(s, table);
      && st.lowest == ChannelOfTarget(Extreme(0, s), table)
      && st.highest == ChannelOfTarget(Extreme(1, s), table)
      && st.oldest == ChannelOfTarget(Extreme(2, s), table)
      && st.newest == ChannelOfTarget(Extreme(3, s), table)
  {
  }

  lemma CachedChannelIsTarget(target: nat, notes: seq<Byte>, table: NoteTable, anchor: Byte)
    requires target <= TRG_NEWEST_ABOVE_ANCHOR
    ensures var n := TargetNote(target, notes, anchor);
      && CachedChannel(target, SplitStatsOf(notes, table, anchor)) == ChannelOfTarget(n, table)
      && (n.Some? ==> n.value in notes)
  {
    hide StatsOf, ChannelOf, Extreme, ChannelOfTarget, Side;
    var group := (target - TRG_LOWEST) / 4;
    assert 3 <= target < 7 ==> group == 0;
    assert 7 <= target < 11 ==> group == 1;
    assert 11 <= target ==> group == 2;
    StatsTellExtremes(notes, table);
    StatsTellExtremes(Side(notes, anchor, false), table);
    StatsTellExtremes(Side(notes, anchor, true), table);
    assert target < 3 ==> ChannelOfTarget(None, table) == INVALID_CHANNEL by {
      NoTarget(table);
    }
  }

  lemma NoTarget(table: NoteTable)
    ensures ChannelOfTarget(None, table) == INVALID_CHANNEL
  {
  }

  /** Distinct active notes sound on distinct real channels. */
  ghost predicate Injective(notes: seq<Byte>, table: NoteTable) {
    (forall a :: a in notes ==> ChannelOf(table, a) <= CHANNEL_MAX)
    && forall a, b :: a in notes && b in notes && ChannelOf(table, a) == ChannelOf(table, b) ==> a == b
  }

  /** A changed channel means a changed target note, whatever the target. */
  lemma ChannelsTellNotes(target: nat, ours: seq<Byte>, theirs: seq<Byte>, all: seq<Byte>, table: NoteTable,
                          anchor: Byte)
    requires target <= TRG_NEWEST_ABOVE_ANCHOR && Injective(all, table)
    requires (forall n :: n in ours ==> n in all) && (forall n :: n in theirs ==> n in all)
    ensures CachedChannel(target, SplitStatsOf(ours, table, anchor))
            == CachedChannel(target, SplitStatsOf(theirs, table, anchor))
      <==> TargetNote(target, ours, anchor) == TargetNote(target, theirs, anchor)
  {
    CachedChannelIsTarget(target, ours, table, anchor);
    CachedChannelIsTarget(target, theirs, table, anchor);
  }

  lemma ConservedInjective(v: Voices, zone: Zone)
    requires zone.Valid() && Conserved(v, zone) && NotesValid(v)
    ensures Injective(v.notes, v.channelOf)
  {
    forall a, b | a in v.notes && b in v.notes
      ensures ChannelOf(v.channelOf, a) <= CHANNEL_MAX
      ensures ChannelOf(v.channelOf, a) == ChannelOf(v.channelOf, b) ==> a == b
    {
      ChannelsInjective(v, zone, a, b);
    }
  }

  /** What stopping notes one by one needs; unlike conservation, it survives until the channels are dealt anew. */
  ghost predicate Playing(v: Voices) {
    NotesValid(v) && Injective(v.notes, v.channelOf) && |v.notes| <= 15
  }

  lemma SanePlaying(s: State)
    requires Sane(s)
    ensures Playing(s.voices)
  {
    ConservedInjective(s.voices, s.zone);
    ConservedMeans(s.voices, s.zone);
  }

  lemma PlayingStopped(v: Voices, note: Byte)
    requires Playing(v) && note in v.notes
    ensures Playing(v.Stopped(note)) && |v.Stopped(note).notes| == |v.notes| - 1 && note !in v.Stopped(note).notes
    ensures note <= NOTE_MAX
    ensures forall n :: n in v.notes && n != note ==> n in v.Stopped(note).notes
  {
    WithoutDistinct(v.notes, note);
    WithoutDistinct(v.deferred, note);
  }

  /** One iteration of `stop_all_notes` unfolds the model's recursion. */
  lemma StopEachStep(s: State)
    requires Playing(s.voices) && s.voices.notes != []
    ensures s.voices.notes[0] <= NOTE_MAX && forall n :: n in s.voices.notes ==> n <= NOTE_MAX
    ensures forall n :: n in Without(s.voices.notes, s.voices.notes[0]) ==> n <= NOTE_MAX
    ensures var note := s.voices.notes[0]; var stop := StopNote(s, 0.0, note, 64);
      && note in s.voices.notes && stop.state == s.(voices := s.voices.Stopped(note))
      && StopEach(s) == Step(s, ControlEvents(0.0, s.voices.channelOf[note], SUSTAIN_PEDAL, 0.0, false))
                        .Then(stop).Then(StopEach(stop.state))
  {
    hide NoteOffResets, ControlEvents, Injective;
    assert s.voices.notes[0] in s.voices.notes;
    WithoutMembers(s.voices.notes, s.voices.notes[0]);
  }
}
