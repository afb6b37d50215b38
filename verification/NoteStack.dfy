/** src/note_stack.cpp: a stack of unique notes kept as a doubly linked list inside two arrays. */
module NoteStacks {
  import opened Midi
  import opened Sequences

  /** The links of a stack as values: `next`, `previous` and `head`. */
  datatype Links = Links(next: seq<Byte>, previous: seq<Byte>, head: Byte) {

    predicate WellFormed() {
      |next| == NOTES && |previous| == NOTES && (head < NOTES || head == INVALID_NOTE)
      && (forall n :: 0 <= n < NOTES ==> next[n] < NOTES || next[n] == INVALID_NOTE)
      && (forall n :: 0 <= n < NOTES ==> previous[n] < NOTES || previous[n] == INVALID_NOTE)
    }

    /** The list holds exactly `s`, newest first. Absent notes may keep a stale `next`, never a `previous`. */
    ghost predicate Holds(s: seq<Byte>) {
      WellFormed()
      && Distinct(s)
      && (forall i :: 0 <= i < |s| ==> s[i] < NOTES)
      && head == (if s == [] then INVALID_NOTE else s[0])
      && (forall i {:trigger next[s[i]]} :: 0 <= i < |s| ==>
            next[s[i]] == (if i + 1 < |s| then s[i + 1] else INVALID_NOTE))
      && (forall i {:trigger previous[s[i]]} :: 0 <= i < |s| ==>
            previous[s[i]] == (if i > 0 then s[i - 1] else INVALID_NOTE))
      && (forall n {:trigger previous[n]} :: 0 <= n < NOTES && n !in s ==> previous[n] == INVALID_NOTE)
    }

    /** No link of `n` is left over. */
    predicate Detached(n: Byte)
      requires WellFormed()
    {
      n < NOTES ==> next[n] == INVALID_NOTE && previous[n] == INVALID_NOTE
    }

    function Linked(n: Byte): (r: Links)
      requires WellFormed() && n < NOTES
      ensures r.WellFormed()
    {
      Links(next[n := head], if head != INVALID_NOTE then previous[head := n] else previous, n)
    }

    function Popped(): (r: Links)
      requires WellFormed() && head != INVALID_NOTE
      ensures r.WellFormed()
    {
      var rest := next[head];
      Links(next[head := INVALID_NOTE],
            if rest != INVALID_NOTE then previous[rest := INVALID_NOTE] else previous,
            rest)
    }

    /** `n` is taken out if it is in the list. */
    function TakenOut(n: Byte): (r: Links)
      requires WellFormed() && n < NOTES
      ensures r.WellFormed()
    {
      if head == n || previous[n] != INVALID_NOTE then Unlinked(n) else this
    }

    /** `n` goes to the front, from wherever it was. */
    function Pushed(n: Byte): (r: Links)
      requires WellFormed() && n < NOTES
      ensures r.WellFormed()
    {
      TakenOut(n).Linked(n)
    }

    function Unlinked(n: Byte): (r: Links)
      requires WellFormed() && n < NOTES
      ensures r.WellFormed()
    {
      var after, before := next[n], previous[n];
      var p := if after != INVALID_NOTE then previous[after := before] else previous;
      if n == head then Links(next, p, after)
      else
        var x := if before != INVALID_NOTE then next[before := after] else next;
        Links(x[n := INVALID_NOTE], p[n := INVALID_NOTE], head)
    }

    /** What the release of a deferred note does: the note is popped off, and then taken out once more. */
    function Released(): (r: Links)
      requires WellFormed() && head != INVALID_NOTE
      ensures r.WellFormed()
    {
      Popped().Unlinked(head)
    }

    /** The notes with a link to a next one. */
    ghost function Sources(): set<Byte>
      requires WellFormed()
    {
      set n: Byte | n < NOTES && next[n] != INVALID_NOTE
    }
  }

  function NoLinks(): (r: Links)
    ensures r.WellFormed() && r.Holds([])
  {
    Links(seq<Byte>(NOTES, _ => INVALID_NOTE), seq<Byte>(NOTES, _ => INVALID_NOTE), INVALID_NOTE)
  }

  /** Links that lead from notes to notes, whether or not they make up a list. */
  type ListLinks = l: Links | l.WellFormed() witness NoLinks()

  lemma LinkedHolds(l: Links, s: seq<Byte>, n: Byte)
    requires l.Holds(s) && n < NOTES && n !in s
    ensures l.Linked(n).Holds([n] + s)
  {
    var t, k := [n] + s, l.Linked(n);
    assert forall i :: 0 < i < |t| ==> t[i] == s[i - 1];
    assert forall m :: m in t <==> m == n || m in s;
    forall i | 0 <= i < |t|
      ensures k.next[t[i]] == (if i + 1 < |t| then t[i + 1] else INVALID_NOTE)
      ensures k.previous[t[i]] == (if i > 0 then t[i - 1] else INVALID_NOTE)
    {
      if i > 0 {
        assert s[i - 1] in s;
      }
    }
  }

  lemma PoppedHolds(l: Links, s: seq<Byte>)
    requires l.Holds(s) && s != []
    ensures l.Popped().Holds(s[1..])
  {
    var t, k := s[1..], l.Popped();
    assert s == [s[0]] + t;
    assert forall i :: 0 <= i < |t| ==> t[i] == s[i + 1];
    forall n | 0 <= n < NOTES && n !in t
      ensures k.previous[n] == INVALID_NOTE
    {
      if n != s[0] {
        assert n !in s;
      }
    }
  }

  lemma UnlinkedHoldsAt(l: Links, s: seq<Byte>, j: nat)
    requires l.Holds(s) && j < |s|
    ensures l.Unlinked(s[j]).Holds(Without(s, s[j]))
  {
    hide Links.Holds, Links.Unlinked, Links.WellFormed, Distinct, Without;
    HoldsFacts(l, s);
    WithoutAt(s, j);
    WithoutDistinct(s, s[j]);
    WithoutMembers(s, s[j]);
    var t, k := s[..j] + s[j + 1..], l.Unlinked(s[j]);
    forall i | 0 <= i < |t|
      ensures t[i] in s && Joins(k, t, i)
    {
      UnlinkedLinks(l, s, j, i);
      assert t[i] in t;
    }
    forall m: Byte | m < NOTES && m !in t
      ensures NothingBefore(k, m)
    {
      UnlinkedRest(l, s, j, m);
    }
    UnlinkedHead(l, s, j);
    JoinsHold(k, t);
  }

  /** The links of one note of a list. */
  ghost predicate Joins(l: Links, s: seq<Byte>, i: nat)
    requires i < |s|
  {
    l.WellFormed() && s[i] < NOTES && l.next[s[i]] == (if i + 1 < |s| then s[i + 1] else INVALID_NOTE)
    && l.previous[s[i]] == (if i > 0 then s[i - 1] else INVALID_NOTE)
  }

  ghost predicate NothingBefore(l: Links, n: Byte) {
    l.WellFormed() && n < NOTES && l.previous[n] == INVALID_NOTE
  }

  lemma JoinsHold(l: Links, s: seq<Byte>)
    requires l.WellFormed() && Distinct(s) && l.head == if s == [] then INVALID_NOTE else s[0]
    requires forall i :: 0 <= i < |s| ==> Joins(l, s, i)
    requires forall n: Byte :: n < NOTES && n !in s ==> NothingBefore(l, n)
    ensures l.Holds(s)
  {
    hide Distinct;
    forall i {:trigger s[i]} | 0 <= i < |s|
      ensures s[i] < NOTES && l.next[s[i]] == (if i + 1 < |s| then s[i + 1] else INVALID_NOTE)
      ensures l.previous[s[i]] == (if i > 0 then s[i - 1] else INVALID_NOTE)
    {
      assert Joins(l, s, i);
    }
    forall n {:trigger l.previous[n]} | 0 <= n < NOTES && n !in s
      ensures l.previous[n] == INVALID_NOTE
    {
      assert NothingBefore(l, n);
    }
  }

  lemma UnlinkedHead(l: Links, s: seq<Byte>, j: nat)
    requires l.Holds(s) && j < |s|
    ensures var t := s[..j] + s[j + 1..]; l.Unlinked(s[j]).head == if t == [] then INVALID_NOTE else t[0]
  {
    assert l.next[s[j]] == (if j + 1 < |s| then s[j + 1] else INVALID_NOTE);
  }

  lemma UnlinkedRest(l: Links, s: seq<Byte>, j: nat, m: Byte)
    requires l.Holds(s) && j < |s| && m < NOTES && m !in s[..j] + s[j + 1..]
    ensures NothingBefore(l.Unlinked(s[j]), m)
  {
    if m != s[j] {
      WithoutAt(s, j);
      assert m !in s;
      assert l.next[s[j]] == (if j + 1 < |s| then s[j + 1] else INVALID_NOTE);
      assert j + 1 < |s| ==> s[j + 1] in s;
    } else if j == 0 {
      assert l.next[s[j]] == (if j + 1 < |s| then s[j + 1] else INVALID_NOTE);
    }
  }

  lemma UnlinkedLinks(l: Links, s: seq<Byte>, j: nat, i: nat)
    requires l.Holds(s) && j < |s| && i + 1 < |s|
    ensures Joins(l.Unlinked(s[j]), s[..j] + s[j + 1..], i)
  {
    hide Links.Holds, Links.Unlinked, Links.WellFormed;
    HeldLinks(l, s, j);
    var t, k := s[..j] + s[j + 1..], l.Unlinked(s[j]);
    UnlinkedAt(l, s, j, if i < j then i else i + 1);
    assert i + 1 < |t| ==> t[i + 1] == if i + 1 < j then s[i + 1] else s[i + 2];
    assert i > 0 ==> t[i - 1] == if i <= j then s[i - 1] else s[i];
  }

  /** The links of one note of a list. */
  lemma HeldLinks(l: Links, s: seq<Byte>, m: nat)
    requires l.Holds(s) && m < |s|
    ensures Distinct(s) && Joins(l, s, m)
  {
  }

  /** The neighbours of the note taken out are joined, and other links stay. */
  lemma UnlinkedAt(l: Links, s: seq<Byte>, j: nat, m: nat)
    requires l.Holds(s) && j < |s| && m < |s| && m != j
    ensures s[m] < NOTES && l.Unlinked(s[j]).WellFormed()
    ensures l.Unlinked(s[j]).next[s[m]]
         == if m + 1 == j then (if j + 1 < |s| then s[j + 1] else INVALID_NOTE)
            else if m + 1 < |s| then s[m + 1] else INVALID_NOTE
    ensures l.Unlinked(s[j]).previous[s[m]]
         == if m == j + 1 then (if j > 0 then s[j - 1] else INVALID_NOTE)
            else if m > 0 then s[m - 1] else INVALID_NOTE
  {
    HeldLinks(l, s, j);
    HeldLinks(l, s, m);
    hide Links.Holds, Links.WellFormed;
    assert j > 0 ==> s[j - 1] != s[j];
    assert s[m] != s[j] && (m != j - 1 && j > 0 ==> s[m] != s[j - 1]);
    assert m != j + 1 && j + 1 < |s| ==> s[m] != s[j + 1];
  }

  /** What taking out an absent note does: harmless exactly when its stale `next` does not point behind the head. */
  lemma UnlinkedAbsent(l: Links, s: seq<Byte>, n: Byte)
    requires l.Holds(s) && n < NOTES && n !in s
    ensures l.Unlinked(n).Holds(s) <==> (s == [] || l.next[n] !in s[1..])
  {
    hide Links.Unlinked;
    if s != [] && l.next[n] in s[1..] {
      var i :| 0 <= i < |s[1..]| && s[1..][i] == l.next[n];
      StaleLinkBreaks(l, s, n, i + 1);
    } else {
      hide Links.Holds;
      HarmlessLink(l, s, n);
    }
  }

  lemma StaleLinkBreaks(l: Links, s: seq<Byte>, n: Byte, i: nat)
    requires l.Holds(s) && n < NOTES && n !in s && 0 < i < |s| && l.next[n] == s[i]
    ensures !l.Unlinked(n).Holds(s)
  {
    assert l.previous[n] == INVALID_NOTE;
    assert l.Unlinked(n).previous[s[i]] == INVALID_NOTE;
    assert s[i - 1] in s;
  }

  lemma HarmlessLink(l: Links, s: seq<Byte>, n: Byte)
    requires l.Holds(s) && n < NOTES && n !in s && (s == [] || l.next[n] !in s[1..])
    ensures l.Unlinked(n).Holds(s)
  {
    var k := l.Unlinked(n);
    assert n != l.head && l.previous[n] == INVALID_NOTE;
    assert forall i :: 0 <= i < |s| ==> s[i] in s && s[i] != n;
    forall i | 0 <= i < |s|
      ensures k.previous[s[i]] == (if i > 0 then s[i - 1] else INVALID_NOTE)
    {
      if i > 0 {
        assert s[i] == s[1..][i - 1];
      }
    }
  }

  lemma ReleasedShrinks(l: ListLinks)
    requires l.head != INVALID_NOTE
    ensures l.Released().Sources() < l.Sources()
         || (l.Released().Sources() == l.Sources() && l.Released().head == INVALID_NOTE)
  {
    var k := l.Released();
    assert k.Sources() <= l.Sources();
    if l.next[l.head] != INVALID_NOTE {
      assert l.head in l.Sources() && l.head !in k.Sources();
    }
  }

  /** The notes that are released one by one until the list, damaged or not, is empty. This always ends. */
  function Pops(l: ListLinks): seq<Byte>
    decreases l.Sources(), l.head != INVALID_NOTE
  {
    if l.head == INVALID_NOTE then []
    else
      ReleasedShrinks(l);
      [l.head] + Pops(l.Released())
  }

  lemma ReleasedHolds(l: ListLinks, s: seq<Byte>)
    requires l.Holds(s) && s != []
    ensures l.head == s[0] && l.Released().Holds(s[1..])
  {
    hide Links.Holds, Links.Popped, Links.Unlinked, Links.WellFormed;
    HoldsFacts(l, s);
    PoppedHolds(l, s);
    PoppedDetached(l, s);
    HoldsFacts(l.Popped(), s[1..]);
    var rest := s[1..];
    assert s[0] !in rest;
    assert rest != [] ==> forall n :: n in rest[1..] ==> n in rest;
    UnlinkedAbsent(l.Popped(), rest, s[0]);
  }

  /** From an intact list the notes come off in order, once each. */
  lemma {:induction false} PopsHeld(l: ListLinks, s: seq<Byte>)
    requires l.Holds(s)
    ensures Pops(l) == s
    decreases |s|
  {
    hide Links.Holds, Links.Released, Links.WellFormed;
    HoldsFacts(l, s);
    if s != [] {
      ReleasedHolds(l, s);
      PopsHeld(l.Released(), s[1..]);
    }
  }

  /** After push b, push a, remove a, push c the list is c, b; but `a` still points to `b`. */
  lemma StaleLink(a: Byte, b: Byte, c: Byte) returns (l: Links)
    requires a < NOTES && b < NOTES && c < NOTES && a != b && b != c && a != c
    ensures l == NoLinks().Pushed(b).Pushed(a).Unlinked(a).Pushed(c) && l.Holds([c, b]) && l.next[a] == b
  {
    hide Links.Holds, Links.Linked, Links.Unlinked, Links.Pushed, NoLinks, Links.WellFormed;
    PushFacts(NoLinks(), [], b);
    assert [b] + Without([], b) == [b];
    var one := NoLinks().Pushed(b);
    PushFacts(one, [b], a);
    assert [a] + Without([b], a) == [a, b];
    var two := one.Pushed(a);
    RemovalFacts(two, [a, b], a);
    OwnLinks(two, [a, b], a);
    assert Without([a, b], a) == [b];
    var three := two.Unlinked(a);
    PushFacts(three, [b], c);
    assert [c] + Without([b], c) == [c, b];
    l := three.Pushed(c);
    PushedElsewhere(three, [b], c, a);
  }

  lemma PushedElsewhere(l: Links, s: seq<Byte>, n: Byte, m: Byte)
    requires l.Holds(s) && n < NOTES && m < NOTES && n !in s && m !in s && n != m
    ensures l.Pushed(n).next[m] == l.next[m]
  {
    MembershipByLinks(l, s, n);
  }

  /**
   Removing `a` once more makes the list forget that `b` is in it. Pushing `b` again then closes a cycle, and
   releasing all notes releases `b` twice.
   */
  lemma StaleLinkDamages(a: Byte, b: Byte, c: Byte) returns (l: Links)
    requires a < NOTES && b < NOTES && c < NOTES && a != b && b != c && a != c
    ensures l.Holds([c, b]) && l.WellFormed() && !l.Unlinked(a).Holds([c, b]) && Pops(l.Unlinked(a)) == [c, b]
    ensures l == NoLinks().Pushed(b).Pushed(a).Unlinked(a).Pushed(c)
    ensures var k := l.Unlinked(a).Pushed(b);
      k.next[b] == c && k.next[c] == b && Pops(k) == [b, c, b]
  {
    l := StaleLink(a, b, c);
    assert [c, b][1..] == [b];
    UnlinkedAbsent(l, [c, b], a);
    assert l.next[[c, b][0]] == b && l.next[[c, b][1]] == INVALID_NOTE;
    assert l.previous[[c, b][0]] == INVALID_NOTE && l.previous[[c, b][1]] == c;
    DamagedPops(l.Unlinked(a), c, b);
    CyclePops(l.Unlinked(a).Pushed(b), b, c);
  }

  lemma DamagedPops(l: ListLinks, c: Byte, b: Byte)
    requires c != b && l.head == c < NOTES && l.next[c] == b < NOTES && l.next[b] == INVALID_NOTE
    requires l.previous[c] == INVALID_NOTE
    ensures Pops(l) == [c, b]
  {
    assert Pops(l.Released()) == [b] + Pops(l.Released().Released());
  }

  lemma CyclePops(l: ListLinks, b: Byte, c: Byte)
    requires c != b && l.head == b < NOTES && l.next[b] == c < NOTES && l.next[c] == b
    requires l.previous[b] == INVALID_NOTE
    ensures Pops(l) == [b, c, b]
  {
    DamagedPops(l.Released(), c, b);
  }

  /** The channels of the extreme notes of a stack. */
  datatype ChannelStats = ChannelStats(lowest: Byte, highest: Byte, oldest: Byte, newest: Byte)

  type NoteTable = t: seq<Byte> | |t| == NOTES witness seq<Byte>(NOTES, _ => 0)

  function ChannelOf(table: NoteTable, note: Byte): Byte {
    if note < NOTES then table[note] else INVALID_CHANNEL
  }

  function ChannelsOf(notes: seq<Byte>, table: NoteTable): (r: seq<Byte>)
    ensures |r| == |notes| && forall i :: 0 <= i < |notes| ==> r[i] == ChannelOf(table, notes[i])
  {
    if notes == [] then [] else [ChannelOf(table, notes[0])] + ChannelsOf(notes[1..], table)
  }

  lemma FirstChannel(notes: seq<Byte>, table: NoteTable)
    requires notes != []
    ensures ChannelsOf(notes, table) == [ChannelOf(table, notes[0])] + ChannelsOf(notes[1..], table)
  {
  }

  /** The statistics a stack holding `s`, newest first, must report. */
  function StatsOf(s: seq<Byte>, table: NoteTable): ChannelStats {
    if s == [] then ChannelStats(INVALID_CHANNEL, INVALID_CHANNEL, INVALID_CHANNEL, INVALID_CHANNEL)
    else ChannelStats(ChannelOf(table, Lowest(s)), ChannelOf(table, Highest(s)),
                      ChannelOf(table, s[|s| - 1]), ChannelOf(table, s[0]))
  }

  class NoteStack {
    // The template argument of the original; BasicNoteStack skips the extremes.
    const skipsExtremes: bool
    const next: array<Byte>
    const previous: array<Byte>
    var head: Byte
    var oldest: Byte
    var lowest: Byte
    var highest: Byte
    ghost var contents: seq<Byte>  // newest first

    ghost const Repr: set<object> := {this, next, previous}

    ghost function LinkValues(): Links
      reads this`head, next, previous
    {
      Links(next[..], previous[..], head)
    }

    ghost predicate Valid()
      reads Repr
    {
      next != previous
      && LinkValues().Holds(contents)
      && (!skipsExtremes ==> lowest == Lowest(contents) && highest == Highest(contents))
    }

    /** `oldest` names the bottom of the stack; two operations can lose it, so it is not part of Valid. */
    ghost predicate KnowsOldest()
      reads this`oldest, this`contents
    {
      oldest == (if contents == [] then INVALID_NOTE else contents[|contents| - 1])
    }

    /** The arrays and the head hold links, whether or not these make up a list. */
    ghost predicate Linked()
      reads this`head, next, previous
    {
      next != previous && LinkValues().WellFormed()
    }

    lemma ValidIsLinked()
      requires Valid()
      ensures Linked()
    {
    }

    /** No link of `note` is left over. */
    ghost predicate Detached(note: Byte)
      requires LinkValues().WellFormed()
      reads this`head, next, previous
    {
      LinkValues().Detached(note)
    }

    constructor (skipsExtremes: bool)
      ensures Valid() && KnowsOldest() && contents == []
      ensures Linked() && forall n :: Detached(n)
      ensures LinkValues() == NoLinks()
      ensures this.skipsExtremes == skipsExtremes && fresh(Repr)
    {
      this.skipsExtremes := skipsExtremes;
      next := new Byte[NOTES](_ => INVALID_NOTE);
      previous := new Byte[NOTES](_ => INVALID_NOTE);
      head, oldest, lowest, highest := INVALID_NOTE, INVALID_NOTE, INVALID_NOTE, INVALID_NOTE;
      contents := [];
    }

    method Clear()
      requires Linked()
      modifies Repr
      ensures Valid() && KnowsOldest() && contents == []
      ensures Linked() && forall n :: Detached(n)
      ensures LinkValues() == NoLinks()
    {
      forall i | 0 <= i < next.Length {
        next[i] := INVALID_NOTE;
      }
      forall i | 0 <= i < previous.Length {
        previous[i] := INVALID_NOTE;
      }
      head, oldest, lowest, highest := INVALID_NOTE, INVALID_NOTE, INVALID_NOTE, INVALID_NOTE;
      contents := [];
    }

    predicate IsEmpty()
      reads this
    {
      head == INVALID_NOTE
    }

    predicate IsAlreadyPushed(note: Byte)
      requires note < previous.Length
      reads this, previous
    {
      head == note || previous[note] != INVALID_NOTE
    }

    predicate Find(note: Byte)
      requires Valid()
      reads Repr
      ensures Find(note) <==> note in contents
    {
      MembershipByLinks(LinkValues(), contents, note);
      note < NOTES && IsAlreadyPushed(note)
    }

    method Push(note: Byte)
      requires Linked() && (Valid() || skipsExtremes)
      modifies Repr
      ensures Linked() && (note < NOTES ==> LinkValues() == old(LinkValues()).Pushed(note))
      ensures note >= NOTES ==> unchanged(Repr)
      ensures old(Valid()) ==> Valid() && PushedCleanly(note)
      ensures old(Valid()) ==> contents == if note < NOTES then [note] + Without(old(contents), note) else old(contents)
    {
      hide Links.Holds, Lowest, Highest, Without, Distinct, PushedCleanly;
      if note >= NOTES {
        NothingPushed(note);
        return;
      }
      if Valid() {
        HoldsFacts(LinkValues(), contents);
        ExtremesAfterPush(contents, note);
      }
      PushLinks(note);
      if old(LinkValues().Holds(contents)) {
        PushIsClean(note);
      }
      if !skipsExtremes {
        if lowest == INVALID_NOTE || note < lowest {
          lowest := note;
        }
        if highest == INVALID_NOTE || note > highest {
          highest := note;
        }
      }
    }

    /** What a push leaves as it was; the oldest note is lost exactly when the sole element is pushed again. */
    twostate predicate PushedCleanly(note: Byte)
      requires old(LinkValues().WellFormed()) && LinkValues().WellFormed()
      reads this`head, this`oldest, this`contents, next, previous
    {
      (old(KnowsOldest()) ==> (KnowsOldest() <==> !(old(contents) == [note] && note < NOTES)))
      && (forall n :: n != note && n !in old(contents) && old(Detached(n)) ==> Detached(n))
    }

    twostate lemma NothingPushed(note: Byte)
      requires note >= NOTES && old(Linked()) && unchanged(Repr)
      ensures old(LinkValues().Holds(contents)) ==> PushedCleanly(note)
    {
    }

    twostate lemma PushIsClean(note: Byte)
      requires note < NOTES && old(Linked() && LinkValues().Holds(contents))
      requires Linked() && LinkValues() == old(LinkValues()).Pushed(note)
      requires contents == [note] + Without(old(contents), note)
      requires oldest == old(OldestWith(note))
      ensures LinkValues().Holds(contents) && PushedCleanly(note)
    {
      hide Links.Holds, Links.Pushed, Lowest, Highest, Without;
      PushFacts(old(LinkValues()), old(contents), note);
      HoldsFacts(old(LinkValues()), old(contents));
      OldestAfterPush(old(contents), note);
      assert old(contents) != [] ==> old(contents)[|old(contents)| - 1] in old(contents);
    }

    /** What `push` makes of the oldest note. */
    ghost function OldestWith(note: Byte): Byte
      requires Linked() && note < NOTES
      reads this`head, this`oldest, next, previous
    {
      var filled := if oldest == INVALID_NOTE then note else oldest;
      if filled == note && (head == note || previous[note] != INVALID_NOTE) then previous[note] else filled
    }

    method PushLinks(note: Byte)
      requires Linked() && note < NOTES
      modifies this`head, this`oldest, this`contents, next, previous
      ensures Linked() && LinkValues() == old(LinkValues()).Pushed(note)
      ensures contents == [note] + Without(old(contents), note) && oldest == old(OldestWith(note))
    {
      hide Without;
      ghost var after := [note] + Without(contents, note);
      if oldest == INVALID_NOTE {
        oldest := note;
      }
      if IsAlreadyPushed(note) {
        RemoveLinks(note);
      }
      LinkFront(note);
      contents := after;
    }

    method LinkFront(note: Byte)
      requires Linked() && note < NOTES
      modifies this`head, next, previous
      ensures Linked() && LinkValues() == old(LinkValues()).Linked(note)
    {
      if head != INVALID_NOTE {
        previous[head] := note;
      }
      next[note] := head;
      head := note;
    }

    method Pop() returns (note: Byte)
      requires Linked() && (Valid() || skipsExtremes)
      modifies Repr
      ensures Linked() && note == old(head)
      ensures LinkValues() == if note == INVALID_NOTE then old(LinkValues()) else old(LinkValues()).Popped()
      ensures old(Valid()) ==> Valid() && PoppedCleanly(note)
    {
      hide Links.Holds, Links.Popped, Links.Detached, Lowest, Highest, Distinct, PoppedCleanly;
      PresentNotes(LinkValues(), contents, head);
      if IsEmpty() {
        NothingPopped();
        return INVALID_NOTE;
      }
      if contents != [] {
        FirstAndRest(contents);
      }
      note := head;
      LinkOutFront();
      contents := if contents == [] then [] else contents[1..];
      if old(LinkValues().Holds(contents)) {
        PopIsClean(note);
      }
      UpdateExtremesAfterRemove(note, old(contents));
    }

    /** What a pop takes and leaves; the cached oldest note goes stale exactly when the last note is popped. */
    twostate predicate PoppedCleanly(note: Byte)
      requires old(LinkValues().WellFormed()) && LinkValues().WellFormed()
      reads this`head, this`oldest, this`contents, next, previous
    {
      (old(contents) == [] ==> note == INVALID_NOTE && contents == [])
      && (old(contents) != [] ==> note == old(contents)[0] && contents == old(contents)[1..] && Detached(note))
      && oldest == old(oldest)
      && (old(KnowsOldest()) ==> (KnowsOldest() <==> |old(contents)| != 1))
      && (forall n :: n !in old(contents) && old(Detached(n)) ==> Detached(n))
    }

    twostate lemma NothingPopped()
      requires old(Linked()) && old(head) == INVALID_NOTE && unchanged(Repr)
      ensures old(LinkValues().Holds(contents)) ==> PoppedCleanly(INVALID_NOTE)
    {
    }

    twostate lemma PopIsClean(note: Byte)
      requires note == old(head) != INVALID_NOTE && old(Linked() && LinkValues().Holds(contents))
      requires Linked() && LinkValues() == old(LinkValues()).Popped() && oldest == old(oldest)
      requires contents == if old(contents) == [] then [] else old(contents)[1..]
      ensures LinkValues().Holds(contents) && PoppedCleanly(note)
    {
      hide Links.Holds, Links.Popped, Links.Detached;
      HoldsFacts(old(LinkValues()), old(contents));
      PoppedHolds(old(LinkValues()), old(contents));
      PoppedDetached(old(LinkValues()), old(contents));
      FirstAndRest(old(contents));
      assert old(contents) != [] ==> old(contents)[|old(contents)| - 1] in old(contents);
    }

    method LinkOutFront()
      requires next != previous && LinkValues().WellFormed() && head != INVALID_NOTE
      modifies this`head, next, previous
      ensures LinkValues() == old(LinkValues()).Popped()
    {
      var note := head;
      head := next[note];
      if head != INVALID_NOTE {
        previous[head] := INVALID_NOTE;
      }
      next[note] := INVALID_NOTE;
    }

    method UpdateExtremesAfterRemove(changed: Byte, ghost was: seq<Byte>)
      requires Linked()
      requires !skipsExtremes ==> lowest == Lowest(was) && highest == Highest(was)
      requires !skipsExtremes ==>
        LinkValues().Holds(contents) || (head != INVALID_NOTE && changed != lowest && changed != highest)
      requires !skipsExtremes ==> forall n :: n in contents ==> n in was
      requires !skipsExtremes ==> forall n :: n in was ==> n in contents || n == changed
      modifies this`lowest, this`highest
      ensures !skipsExtremes && LinkValues().Holds(contents) ==>
        lowest == Lowest(contents) && highest == Highest(contents)
    {
      hide Links.Holds;
      if skipsExtremes {
        return;
      }
      if LinkValues().Holds(contents) {
        HoldsFacts(LinkValues(), contents);
      }
      if IsEmpty() {
        lowest, highest := INVALID_NOTE, INVALID_NOTE;
        return;
      }
      var canSkip := true;
      if changed == lowest {
        lowest := INVALID_NOTE;
        canSkip := false;
      }
      if changed == highest {
        highest := INVALID_NOTE;
        canSkip := false;
      }
      assert contents != [] ==> contents[0] in contents;
      if canSkip {
        return;
      }
      RescanExtremes();
    }

    method RescanExtremes()
      requires LinkValues().Holds(contents) && contents != []
      requires lowest == INVALID_NOTE || lowest == Lowest(contents)
      requires highest == INVALID_NOTE || highest == Highest(contents)
      modifies this`lowest, this`highest
      ensures lowest == Lowest(contents) && highest == Highest(contents)
    {
      hide Links.Holds, Spanned, Lowest, Highest;
      HoldsFacts(LinkValues(), contents);
      NothingSpanned(contents, lowest, highest);
      var note := head;
      var i := 0;
      while note != INVALID_NOTE && i != NOTES
        invariant 0 <= i <= |contents|
        invariant note == (if i < |contents| then contents[i] else INVALID_NOTE)
        invariant note != INVALID_NOTE <==> i < |contents|
        invariant Spanned(contents, i, lowest, highest)
        decreases NOTES - i
      {
        SpannedStep(contents, i, lowest, highest);
        if lowest == INVALID_NOTE || note < lowest {
          lowest := note;
        }
        if highest == INVALID_NOTE || note > highest {
          highest := note;
        }
        NextInList(LinkValues(), contents, i);
        note := next[note];
        i := i + 1;
      }
      AllSpanned(contents, lowest, highest);
    }

    /** Taking out `note` is safe: it is there, or its left-over `next` does not point behind the head. */
    ghost predicate Removable(note: Byte)
      requires next.Length == NOTES
      reads this, next
    {
      note < NOTES ==> note in contents || contents == [] || next[note] !in contents[1..]
    }

    lemma DetachedIsRemovable(note: Byte)
      requires Valid() && Detached(note)
      ensures Removable(note)
    {
      HoldsFacts(LinkValues(), contents);
      if contents != [] {
        assert forall n :: n in contents[1..] ==> n in contents;
      }
    }

    /** Taking out a note; the stack survives if and only if the note was removable. */
    method Remove(note: Byte)
      requires Linked() && (Valid() || skipsExtremes)
      modifies Repr
      ensures Linked() && (note < NOTES ==> LinkValues() == old(LinkValues()).Unlinked(note))
      ensures old(Valid()) ==> contents == Without(old(contents), note) && (Valid() <==> old(Removable(note)))
      ensures note < NOTES && old(Valid()) ==> RemovedCleanly(note)
      ensures note >= NOTES ==> unchanged(Repr)
    {
      hide Links.Holds, RemovedCleanly, Lowest, Highest, Distinct;
      PresentNotes(LinkValues(), contents, note);
      if note >= NOTES {
        return;
      }
      WithoutMembers(contents, note);
      RemoveLinks(note);
      if old(LinkValues().Holds(contents)) {
        RemovalIsClean(note);
      }
      UpdateExtremesAfterRemove(note, old(contents));
    }

    twostate predicate RemovedCleanly(note: Byte)
      requires note < NOTES && old(LinkValues().WellFormed()) && LinkValues().WellFormed()
      reads this`head, this`oldest, this`contents, next, previous
    {
      (forall n :: n !in old(contents) && old(Detached(n)) ==> Detached(n))
      && (Detached(note) <==> !(|old(contents)| > 1 && old(contents)[0] == note))
      && (old(KnowsOldest()) ==> KnowsOldest())
      && (old(contents == [] && oldest == note && Detached(note)) ==> KnowsOldest())
    }

    twostate lemma RemovalIsClean(note: Byte)
      requires note < NOTES && old(Linked() && LinkValues().Holds(contents))
      requires Linked() && LinkValues() == old(LinkValues()).Unlinked(note) && contents == Without(old(contents), note)
      requires oldest == if note == old(oldest) then old(previous[note]) else old(oldest)
      ensures LinkValues().Holds(contents) <==> old(Removable(note))
      ensures RemovedCleanly(note)
    {
      hide Links.Holds, Links.Unlinked, Without;
      RemovalFacts(old(LinkValues()), old(contents), note);
      OldestAfterRemoval(old(LinkValues()), old(contents), note);
    }

    method RemoveLinks(note: Byte)
      requires Linked() && note < NOTES
      modifies this`head, this`oldest, this`contents, next, previous
      ensures Linked() && LinkValues() == old(LinkValues()).Unlinked(note)
      ensures contents == Without(old(contents), note)
      ensures oldest == if note == old(oldest) then old(previous[note]) else old(oldest)
      ensures note != old(head) ==> head == old(head)
    {
      if note == oldest {
        oldest := previous[note];
      }
      SpliceOut(note);
      contents := Without(contents, note);
    }

    method SpliceOut(note: Byte)
      requires next != previous && LinkValues().WellFormed() && note < NOTES
      modifies this`head, next, previous
      ensures LinkValues() == old(LinkValues()).Unlinked(note)
    {
      var nextNote := next[note];
      var previousNote := previous[note];
      if nextNote != INVALID_NOTE {
        previous[nextNote] := previousNote;
      }
      if note == head {
        head := nextNote;
      } else {
        if previousNote != INVALID_NOTE {
          next[previousNote] := nextNote;
        }
        next[note] := INVALID_NOTE;
        previous[note] := INVALID_NOTE;
      }
    }

    method CollectActiveChannels(channelsByNotes: NoteTable) returns (channels: seq<Byte>)
      requires Valid()
      ensures |channels| == if |contents| < CHANNELS then |contents| else CHANNELS
      ensures forall i :: 0 <= i < |channels| ==> channels[i] == ChannelOf(channelsByNotes, contents[i])
    {
      channels := [];
      var note := head;
      var i := 0;
      while note != INVALID_NOTE && i != NOTES && |channels| != CHANNELS
        invariant 0 <= i <= |contents| && |channels| == i <= CHANNELS
        invariant note == (if i < |contents| then contents[i] else INVALID_NOTE)
        invariant forall j :: 0 <= j < i ==> channels[j] == ChannelOf(channelsByNotes, contents[j])
        decreases NOTES - i
      {
        NextInList(LinkValues(), contents, i);
        channels := channels + [channelsByNotes[note]];
        note := next[note];
        i := i + 1;
      }
    }

    method MakeStats(channelsByNotes: NoteTable) returns (stats: ChannelStats)
      requires Valid() && KnowsOldest() && !skipsExtremes
      ensures stats == StatsOf(contents, channelsByNotes)
    {
      if IsEmpty() {
        stats := ChannelStats(INVALID_CHANNEL, INVALID_CHANNEL, INVALID_CHANNEL, INVALID_CHANNEL);
      } else {
        assert contents[|contents| - 1] in contents;
        stats := ChannelStats(channelsByNotes[lowest], channelsByNotes[highest],
                              channelsByNotes[oldest], channelsByNotes[head]);
      }
    }
  }

  /** `low` and `high` are elements that the first `i` lie between, or no elements yet. */
  ghost predicate Spanned(s: seq<Byte>, i: nat, low: Byte, high: Byte) {
    i <= |s| && (low in s || (low == INVALID_NOTE && i == 0)) && (high in s || (high == INVALID_NOTE && i == 0))
    && forall j :: 0 <= j < i ==> low <= s[j] <= high
  }

  lemma NothingSpanned(s: seq<Byte>, low: Byte, high: Byte)
    requires s != [] && (low == INVALID_NOTE || low == Lowest(s)) && (high == INVALID_NOTE || high == Highest(s))
    ensures Spanned(s, 0, low, high)
  {
  }

  lemma SpannedStep(s: seq<Byte>, i: nat, low: Byte, high: Byte)
    requires Spanned(s, i, low, high) && i < |s| && INVALID_NOTE !in s
    ensures Spanned(s, i + 1, if low == INVALID_NOTE || s[i] < low then s[i] else low,
                    if high == INVALID_NOTE || s[i] > high then s[i] else high)
  {
  }

  lemma AllSpanned(s: seq<Byte>, low: Byte, high: Byte)
    requires s != [] && Spanned(s, |s|, low, high)
    ensures low == Lowest(s) && high == Highest(s)
  {
    ExtremesAre(s, low, high);
  }

  lemma OldestAfterPush(s: seq<Byte>, n: Byte)
    ensures var rest := Without(s, n); var t := [n] + rest;
      && (rest == [] <==> s == [] || s == [n])
      && t[|t| - 1] == if rest == [] then n else rest[|rest| - 1]
  {
  }

  lemma ExtremesAfterPush(s: seq<Byte>, n: Byte)
    requires n < NOTES && forall m :: m in s ==> m < NOTES
    ensures var t := [n] + Without(s, n);
      && Lowest(t) == (if s == [] || n < Lowest(s) then n else Lowest(s))
      && Highest(t) == (if s == [] || n > Highest(s) then n else Highest(s))
  {
    var t := [n] + Without(s, n);
    WithoutMembers(s, n);
    var low := if s == [] || n < Lowest(s) then n else Lowest(s);
    var high := if s == [] || n > Highest(s) then n else Highest(s);
    forall j | 0 <= j < |t|
      ensures low <= t[j] <= high
    {
      assert t[j] == n || t[j] in s;
    }
    assert low in t && high in t;
    ExtremesAre(t, low, high);
  }

  /** What follows from Holds, for the methods that do not look at its definition. */
  lemma HoldsFacts(l: Links, s: seq<Byte>)
    requires l.Holds(s)
    ensures l.WellFormed() && Distinct(s) && |s| <= NOTES
    ensures forall n :: n in s ==> n < NOTES
    ensures s == [] <==> l.head == INVALID_NOTE
    ensures s != [] ==> l.head == s[0]
  {
    DistinctBounded(s, NOTES);
  }

  lemma PresentNotes(l: Links, s: seq<Byte>, n: Byte)
    ensures l.Holds(s) && n in s ==> n < NOTES
    ensures l.Holds(s) && s != [] ==> l.head == s[0] && l.head != INVALID_NOTE && Lowest(s) in s && Highest(s) in s
    ensures n !in s ==> Without(s, n) == s
  {
  }

  lemma NextInList(l: Links, s: seq<Byte>, i: nat)
    requires l.Holds(s) && i < |s|
    ensures s[i] < NOTES && (i + 1 < |s| ==> s[i + 1] < NOTES)
    ensures l.next[s[i]] == (if i + 1 < |s| then s[i + 1] else INVALID_NOTE)
  {
  }

  /** What a removal leaves behind: exactly the newest of several notes keeps its link to the one below. */
  ghost predicate CleanRemoval(l: Links, k: Links, s: seq<Byte>, n: Byte)
    requires l.WellFormed() && k.WellFormed() && n < NOTES
  {
    (forall m :: m !in s && l.Detached(m) ==> k.Detached(m)) && (k.Detached(n) <==> !(|s| > 1 && s[0] == n))
  }

  /** What taking a note out does to the list, to the links of absent notes and to its own. */
  lemma RemovalFacts(l: Links, s: seq<Byte>, n: Byte)
    requires l.Holds(s) && n < NOTES
    ensures l.WellFormed() && CleanRemoval(l, l.Unlinked(n), s, n)
    ensures l.Unlinked(n).Holds(Without(s, n)) <==> n in s || s == [] || l.next[n] !in s[1..]
  {
    hide Links.Holds, Links.Unlinked, Links.WellFormed;
    HoldsFacts(l, s);
    assert |s| > 1 ==> s[1] in s;
    UnlinkedMeans(l, s, n);
    UnlinkedDetached(l, s, n);
    OwnLinks(l, s, n);
  }

  /** The note above the last one becomes the last one when that is taken out. */
  lemma OldestAfterRemoval(l: Links, s: seq<Byte>, n: Byte)
    requires l.Holds(s) && n < NOTES
    ensures var t := Without(s, n);
      if s == [] then t == [] && l.previous[n] == INVALID_NOTE
      else if n == s[|s| - 1] then l.previous[n] == (if t == [] then INVALID_NOTE else t[|t| - 1])
      else t != [] && t[|t| - 1] == s[|s| - 1]
    ensures s != [] ==> s[|s| - 1] < NOTES
  {
    if s != [] {
      LastWithout(l, s, n);
    }
  }

  lemma UnlinkedMeans(l: Links, s: seq<Byte>, n: Byte)
    requires l.Holds(s) && l.WellFormed() && n < NOTES
    ensures l.Unlinked(n).Holds(Without(s, n)) <==> n in s || s == [] || l.next[n] !in s[1..]
  {
    hide Links.Holds;
    if n in s {
      var j :| 0 <= j < |s| && s[j] == n;
      UnlinkedHoldsAt(l, s, j);
    } else {
      UnlinkedAbsent(l, s, n);
    }
  }

  lemma OwnLinks(l: Links, s: seq<Byte>, n: Byte)
    requires l.Holds(s) && l.WellFormed() && n < NOTES
    ensures l.Unlinked(n).next[n] == if |s| > 1 && s[0] == n then s[1] else INVALID_NOTE
    ensures l.Unlinked(n).previous[n] == INVALID_NOTE
  {
    if n in s {
      var i :| 0 <= i < |s| && s[i] == n;
      assert l.next[s[i]] == (if i + 1 < |s| then s[i + 1] else INVALID_NOTE);
      assert l.previous[s[i]] == (if i > 0 then s[i - 1] else INVALID_NOTE);
      assert i > 0 ==> s[i - 1] in s && s[0] != n;
    }
  }

  lemma UnlinkedDetached(l: Links, s: seq<Byte>, n: Byte)
    requires l.Holds(s) && n < NOTES
    ensures l.Unlinked(n).WellFormed()
    ensures forall m: Byte :: m !in s && l.Detached(m) ==> l.Unlinked(n).Detached(m)
  {
    if n in s {
      var i :| 0 <= i < |s| && s[i] == n;
      assert l.next[s[i]] == (if i + 1 < |s| then s[i + 1] else INVALID_NOTE);
      assert l.previous[s[i]] == (if i > 0 then s[i - 1] else INVALID_NOTE);
      assert i > 0 ==> s[i - 1] in s;
    }
  }

  /** What a push does to the list and to the links of absent notes. */
  lemma PushFacts(l: Links, s: seq<Byte>, n: Byte)
    requires l.Holds(s) && n < NOTES
    ensures l.WellFormed() && l.Pushed(n).Holds([n] + Without(s, n))
    ensures l.Pushed(n).WellFormed()
    ensures forall m: Byte :: m !in s && m != n && l.Detached(m) ==> l.Pushed(n).Detached(m)
    ensures l.head == n || l.previous[n] != INVALID_NOTE <==> n in s
    ensures s != [] && n == s[|s| - 1] ==>
      l.previous[n] == if Without(s, n) == [] then INVALID_NOTE else Without(s, n)[|Without(s, n)| - 1]
    ensures s != [] && n != s[|s| - 1] ==> Without(s, n) != [] && Without(s, n)[|Without(s, n)| - 1] == s[|s| - 1]
  {
    hide Links.Holds, Links.Unlinked, Links.Linked, Links.Detached, Without;
    HoldsFacts(l, s);
    MembershipByLinks(l, s, n);
    RemovalFacts(l, s, n);
    OldestAfterRemoval(l, s, n);
    WithoutDistinct(s, n);
    LinkedHolds(l.TakenOut(n), Without(s, n), n);
    LinkedDetached(l.TakenOut(n), Without(s, n), n);
    HoldsFacts(l.Pushed(n), [n] + Without(s, n));
  }

  lemma LinkedDetached(l: Links, s: seq<Byte>, n: Byte)
    requires l.Holds(s) && n < NOTES
    ensures l.Linked(n).WellFormed()
    ensures forall m: Byte :: m != n && m !in s && l.Detached(m) ==> l.Linked(n).Detached(m)
  {
    assert s != [] ==> s[0] in s;
  }

  lemma PoppedDetached(l: Links, s: seq<Byte>)
    requires l.Holds(s) && s != []
    ensures l.Popped().WellFormed() && l.Popped().Detached(s[0])
    ensures forall m: Byte :: m !in s && l.Detached(m) ==> l.Popped().Detached(m)
  {
    assert s[0] in s;
    assert l.next[s[0]] == (if 1 < |s| then s[1] else INVALID_NOTE);
  }

  lemma LastWithout(l: Links, s: seq<Byte>, n: Byte)
    requires l.Holds(s) && s != []
    ensures var t := Without(s, n);
      if n == s[|s| - 1] then l.previous[n] == (if t == [] then INVALID_NOTE else t[|t| - 1])
      else t != [] && t[|t| - 1] == s[|s| - 1]
  {
    var last := |s| - 1;
    assert l.previous[s[last]] == (if last > 0 then s[last - 1] else INVALID_NOTE);
    if n in s {
      var j :| 0 <= j < |s| && s[j] == n;
      WithoutAt(s, j);
    }
  }

  lemma MembershipByLinks(l: Links, s: seq<Byte>, n: Byte)
    requires l.Holds(s)
    ensures n in s <==> n < NOTES && (l.head == n || l.previous[n] != INVALID_NOTE)
  {
    if n in s {
      var i :| 0 <= i < |s| && s[i] == n;
      assert l.previous[s[i]] == (if i > 0 then s[i - 1] else INVALID_NOTE);
    }
  }
}
