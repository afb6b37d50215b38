/** The three note stacks of src/proxy.cpp: all active notes, and the same notes split at the anchor. */
module Keyboards {
  import opened Midi
  import opened Sequences
  import opened NoteStacks

  /** The cached statistics of the whole keyboard and of the two sides of the anchor. */
  datatype SplitStats = SplitStats(all: ChannelStats, below: ChannelStats, above: ChannelStats)

  function SplitStatsOf(notes: seq<Byte>, table: NoteTable, anchor: Byte): SplitStats {
    SplitStats(StatsOf(notes, table), StatsOf(Side(notes, anchor, false), table),
               StatsOf(Side(notes, anchor, true), table))
  }

  class Keyboard {
    const all: NoteStack
    const below: NoteStack
    const above: NoteStack
    ghost var notes: seq<Byte>   // active notes, newest first
    ghost var anchor: Byte

    ghost const Repr: set<object> := {this} + all.Repr + below.Repr + above.Repr

    /** The stacks share nothing; this depends on no field that can change. */
    ghost predicate Separate() {
      all.Repr !! below.Repr !! above.Repr && this !in all.Repr && this !in below.Repr && this !in above.Repr
      && !all.skipsExtremes && !below.skipsExtremes && !above.skipsExtremes
    }

    static ghost predicate Holds(stack: NoteStack, s: seq<Byte>)
      reads stack.Repr
    {
      stack.Valid() && stack.KnowsOldest() && stack.contents == s
    }

    /** A side stack holds its side of the notes, and no trace of a note of the other side. */
    static ghost predicate SideHolds(stack: NoteStack, s: seq<Byte>, split: Byte, isAbove: bool)
      reads stack.Repr
    {
      Holds(stack, Side(s, split, isAbove))
      && forall n: Byte :: (n >= split <==> !isAbove) ==> stack.Detached(n)
    }

    ghost predicate Sides(s: seq<Byte>)
      reads Repr
    {
      SideHolds(below, s, anchor, false) && SideHolds(above, s, anchor, true)
    }

    ghost predicate Valid()
      reads Repr
    {
      Separate() && Holds(all, notes) && Sides(notes)
    }

    /** As Valid, except that `note` has just been popped off `all`. */
    ghost predicate Popped(note: Byte)
      reads Repr
    {
      Separate() && Sides(notes) && PoppedOff(all, notes, note)
    }

    constructor (anchor: Byte)
      ensures Valid() && notes == [] && this.anchor == anchor
      ensures fresh(Repr)
    {
      hide Holds, SideHolds, Blanked;
      var every := Keyboard.NewStack();
      var lower := Keyboard.NewStack();
      var upper := Keyboard.NewStack();
      all, below, above := every, lower, upper;
      notes := [];
      this.anchor := anchor;
      new;
      BlankedHolds(all, anchor);
      BlankedHolds(below, anchor);
      BlankedHolds(above, anchor);
    }

    static method NewStack() returns (stack: NoteStack)
      ensures fresh(stack.Repr) && !stack.skipsExtremes && Blanked(stack)
    {
      hide NoteStack.Valid, NoteStack.KnowsOldest, NoteStack.Detached;
      stack := new NoteStack(false);
    }

    /** A new note joins the stacks; the statistics are refreshed on its side of the anchor only. */
    method Add(note: Byte, isAbove: bool, table: NoteTable, stats: SplitStats, ghost tableBefore: NoteTable)
      returns (newStats: SplitStats)
      requires Valid() && note <= NOTE_MAX && note !in notes && (isAbove <==> note >= anchor)
      requires stats == SplitStatsOf(notes, tableBefore, anchor) && table == tableBefore[note := table[note]]
      modifies Repr
      ensures Valid() && notes == [note] + old(notes) && anchor == old(anchor)
      ensures newStats == SplitStatsOf(notes, table, anchor)
    {
      hide Holds, SideHolds, StatsOf;
      OtherSideUnchanged(notes, tableBefore, anchor, note, table[note]);
      Push(note, isAbove);
      var newAll := StatsOfAll(table);
      var newSide := StatsOfSide(isAbove, table);
      newStats := if isAbove then SplitStats(newAll, stats.below, newSide)
                  else SplitStats(newAll, newSide, stats.above);
    }

    /** A note leaves the stacks; all statistics are refreshed. */
    method Take(note: Byte, table: NoteTable) returns (newStats: SplitStats)
      requires note <= NOTE_MAX && ((Valid() && note in notes) || Popped(note))
      modifies Repr
      ensures Valid() && notes == Without(old(notes), note) && anchor == old(anchor)
      ensures newStats == SplitStatsOf(notes, table, anchor)
    {
      hide Holds, SideHolds, StatsOf;
      Remove(note);
      var newAll := StatsOfAll(table);
      var newAbove := StatsOfSide(true, table);
      var newBelow := StatsOfSide(false, table);
      newStats := SplitStats(newAll, newBelow, newAbove);
    }

    predicate IsEmpty()
      requires Valid()
      reads Repr
      ensures IsEmpty() <==> notes == []
    {
      HoldsFacts(all.LinkValues(), all.contents);
      all.IsEmpty()
    }

    predicate Find(note: Byte)
      requires Valid()
      reads Repr
      ensures Find(note) <==> note in notes
    {
      all.Find(note)
    }

    /** The extreme note of all active ones; `kind` as in the four steal modes and rule targets. */
    method ExtremeOfAll(kind: nat) returns (note: Option<Byte>)
      requires Valid()
      ensures note == Extreme(kind, notes)
    {
      hide Holds, SideHolds, Extreme;
      note := ExtremeOf(all, kind, notes);
    }

    method ExtremeOfSide(isAbove: bool, kind: nat) returns (note: Option<Byte>)
      requires Valid()
      ensures note == Extreme(kind, Side(notes, anchor, isAbove))
    {
      hide Extreme;
      note := ExtremeOf(if isAbove then above else below, kind, Side(notes, anchor, isAbove));
    }

    static method ExtremeOf(stack: NoteStack, kind: nat, ghost s: seq<Byte>) returns (note: Option<Byte>)
      requires Holds(stack, s) && !stack.skipsExtremes
      ensures note == Extreme(kind, s)
    {
      hide Links.Holds, Lowest, Highest, Distinct;
      HoldsFacts(stack.LinkValues(), stack.contents);
      if stack.IsEmpty() {
        return None;
      }
      note := Some(if kind == 0 then stack.lowest else if kind == 1 then stack.highest
                   else if kind == 2 then stack.oldest else stack.head);
    }

    /** The channels of one side, of which the original collects at most sixteen. */
    method CollectSide(isAbove: bool, table: NoteTable) returns (channels: seq<Byte>)
      requires Valid() && |Side(notes, anchor, isAbove)| < CHANNELS
      ensures channels == ChannelsOf(Side(notes, anchor, isAbove), table)
    {
      hide Links.Holds, Lowest, Highest, Distinct, Side;
      var stack := if isAbove then above else below;
      channels := stack.CollectActiveChannels(table);
    }

    method StatsOfAll(table: NoteTable) returns (stats: ChannelStats)
      requires Valid()
      ensures stats == StatsOf(notes, table)
    {
      stats := all.MakeStats(table);
    }

    method StatsOfSide(isAbove: bool, table: NoteTable) returns (stats: ChannelStats)
      requires Valid()
      ensures stats == StatsOf(Side(notes, anchor, isAbove), table)
    {
      if isAbove {
        stats := above.MakeStats(table);
      } else {
        stats := below.MakeStats(table);
      }
    }

    method Push(note: Byte, isAbove: bool)
      requires Valid() && note <= NOTE_MAX && note !in notes && (isAbove <==> note >= anchor)
      modifies Repr
      ensures Valid() && notes == [note] + old(notes) && anchor == old(anchor)
    {
      hide Holds, SideHolds;
      SidePush(notes, note, anchor);
      PushOn(all, notes, note);
      if isAbove {
        PushOnSide(above, notes, anchor, isAbove, note);
        OtherSide(below, notes, anchor, !isAbove, note);
      } else {
        PushOnSide(below, notes, anchor, isAbove, note);
        OtherSide(above, notes, anchor, !isAbove, note);
      }
      notes := [note] + notes;
    }

    static method PushOn(stack: NoteStack, ghost s: seq<Byte>, note: Byte)
      requires Holds(stack, s) && note <= NOTE_MAX && note !in s
      modifies stack.Repr
      ensures Holds(stack, [note] + s)
    {
      stack.Push(note);
    }

    static method PushOnSide(stack: NoteStack, ghost s: seq<Byte>, ghost split: Byte, ghost isAbove: bool, note: Byte)
      requires SideHolds(stack, s, split, isAbove) && note <= NOTE_MAX && note !in s && (note >= split <==> isAbove)
      modifies stack.Repr
      ensures SideHolds(stack, [note] + s, split, isAbove)
    {
      SidePush(s, note, split);
      stack.Push(note);
    }

    /** A side stack does not notice notes of the other side. */
    static lemma OtherSide(stack: NoteStack, s: seq<Byte>, split: Byte, isAbove: bool, note: Byte)
      requires SideHolds(stack, s, split, isAbove) && (note >= split <==> !isAbove)
      ensures SideHolds(stack, [note] + s, split, isAbove)
    {
      SidePush(s, note, split);
    }

    /** `remove` on all three stacks, as src/proxy.cpp:833-835; the note may already be off the first one. */
    method Remove(note: Byte)
      requires note <= NOTE_MAX && ((Valid() && note in notes) || Popped(note))
      modifies Repr
      ensures Valid() && notes == Without(old(notes), note) && anchor == old(anchor)
    {
      hide Holds, SideHolds, PoppedOff;
      assert note in notes by {
        PoppedIsActive(note);
      }
      RemoveFrom(all, notes, note);
      RemoveFromSide(above, notes, anchor, true, note);
      RemoveFromSide(below, notes, anchor, false, note);
      notes := Without(notes, note);
    }

    static ghost predicate PoppedOff(stack: NoteStack, s: seq<Byte>, note: Byte)
      reads stack.Repr
    {
      stack.Valid() && [note] + stack.contents == s && stack.Detached(note) && stack.oldest == s[|s| - 1]
      && note !in stack.contents
    }

    lemma PoppedIsActive(note: Byte)
      ensures Popped(note) ==> note in notes
    {
    }

    /** A removal of a present note, or of one that has just been popped. */
    static method RemoveFrom(stack: NoteStack, ghost s: seq<Byte>, note: Byte)
      requires note <= NOTE_MAX && ((Holds(stack, s) && note in s) || PoppedOff(stack, s, note))
      modifies stack.Repr
      ensures Holds(stack, Without(s, note))
    {
      if PoppedOff(stack, s, note) {
        assert s[1..] == stack.contents;
        stack.DetachedIsRemovable(note);
      }
      stack.Remove(note);
    }

    static method RemoveFromSide(stack: NoteStack, ghost s: seq<Byte>, ghost split: Byte, ghost isAbove: bool,
                                 note: Byte)
      requires SideHolds(stack, s, split, isAbove) && note <= NOTE_MAX && note in s
      modifies stack.Repr
      ensures SideHolds(stack, Without(s, note), split, isAbove)
    {
      if stack.Detached(note) {
        stack.DetachedIsRemovable(note);
      }
      SideWithout(s, split, isAbove, note);
      stack.Remove(note);
    }

    method PopNewest() returns (note: Byte)
      requires Valid() && notes != []
      modifies all.Repr
      ensures note == notes[0] && Popped(note) && notes == old(notes) && anchor == old(anchor)
    {
      hide NoteStack.Valid, NoteStack.KnowsOldest, NoteStack.Detached;
      note := PopFrom(all, notes);
    }

    static method PopFrom(stack: NoteStack, ghost s: seq<Byte>) returns (note: Byte)
      requires Holds(stack, s) && s != []
      modifies stack.Repr
      ensures note == s[0] && PoppedOff(stack, s, note)
    {
      note := stack.Pop();
    }

    /** No stack of a side keeps any link. */
    ghost predicate Blank()
      reads Repr
    {
      Blanked(below) && Blanked(above)
    }

    static ghost predicate Blanked(stack: NoteStack)
      reads stack.Repr
    {
      Holds(stack, []) && forall n: Byte :: stack.Detached(n)
    }

    /** src/proxy.cpp:1481-1483 */
    method Clear()
      requires Valid()
      modifies Repr
      ensures Valid() && Blank() && notes == [] && anchor == old(anchor)
    {
      hide Holds, SideHolds, Blanked;
      ValidStacks();
      ClearStack(all);
      ClearStack(below);
      ClearStack(above);
      notes := [];
      BlankedHolds(all, anchor);
      BlankedHolds(below, anchor);
      BlankedHolds(above, anchor);
    }

    lemma ValidStacks()
      requires Valid()
      ensures all.Valid() && below.Valid() && above.Valid()
    {
    }

    static method ClearStack(stack: NoteStack)
      requires stack.Valid()
      modifies stack.Repr
      ensures Blanked(stack)
    {
      hide NoteStack.Valid, NoteStack.KnowsOldest, NoteStack.Detached, NoteStack.Linked;
      stack.ValidIsLinked();
      stack.Clear();
    }

    static lemma BlankedHolds(stack: NoteStack, split: Byte)
      requires Blanked(stack)
      ensures Holds(stack, []) && SideHolds(stack, [], split, false) && SideHolds(stack, [], split, true)
    {
      hide NoteStack.Valid, NoteStack.KnowsOldest, NoteStack.Detached;
    }

    /** The anchor may move while nothing sounds. */
    ghost method MoveAnchor(newAnchor: Byte)
      requires Valid() && Blank() && notes == []
      modifies this`anchor
      ensures Valid() && notes == [] && anchor == newAnchor
    {
      hide Holds, SideHolds, Blanked;
      anchor := newAnchor;
      BlankedHolds(below, anchor);
      BlankedHolds(above, anchor);
    }
  }

  lemma SidePush(s: seq<Byte>, note: Byte, anchor: Byte)
    ensures var isAbove := note >= anchor; var t := [note] + s;
      && Side(t, anchor, isAbove) == [note] + Side(s, anchor, isAbove)
      && Side(t, anchor, !isAbove) == Side(s, anchor, !isAbove)
  {
    assert ([note] + s)[1..] == s;
  }

  /** Giving a channel to a note changes the statistics of no stack without that note. */
  lemma StatsElsewhere(s: seq<Byte>, table: NoteTable, note: Byte, channel: Byte)
    requires note <= NOTE_MAX && note !in s
    ensures StatsOf(s, table[note := channel]) == StatsOf(s, table)
  {
  }

  /** `push_note_on` refreshes the statistics of one side only; the other side has not changed. */
  lemma OtherSideUnchanged(s: seq<Byte>, table: NoteTable, anchor: Byte, note: Byte, channel: Byte)
    requires note <= NOTE_MAX && note !in s
    ensures var isAbove := note >= anchor;
      StatsOf(Side([note] + s, anchor, !isAbove), table[note := channel]) == StatsOf(Side(s, anchor, !isAbove), table)
  {
    SidePush(s, note, anchor);
    StatsElsewhere(Side(s, anchor, note < anchor), table, note, channel);
  }
}
