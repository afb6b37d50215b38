/** src/queue.cpp: a fixed-size FIFO ring that keeps one slot unused. */
module Queues {

  const SIZE_T_RANGE := 0x1_0000_0000_0000_0000

  class Queue<Item(0)> {
    const capacity: nat
    const items: array<Item>
    var nextPush: nat
    var nextPop: nat
    ghost var contents: seq<Item>  // oldest first

    ghost const Repr: set<object> := {this, items}

    /** Where the `k`-th waiting item is stored. */
    function Slot(k: nat): nat
      reads this
    {
      if nextPop + k >= items.Length then nextPop + k - items.Length else nextPop + k
    }

    ghost predicate Valid()
      reads Repr
    {
      items.Length == capacity + 1
      && nextPush < items.Length && nextPop < items.Length
      && |contents| <= capacity
      && nextPush == Slot(|contents|)
      && forall k :: 0 <= k < |contents| ==> contents[k] == items[Slot(k)]
    }

    constructor (capacity: nat)
      requires capacity + 1 < SIZE_T_RANGE
      ensures Valid() && contents == [] && this.capacity == capacity && nextPush == nextPop == 0
      ensures fresh(Repr)
    {
      this.capacity := capacity;
      items := new Item[capacity + 1];
      nextPush, nextPop, contents := 0, 0, [];
    }

    predicate IsEmpty()
      requires Valid()
      reads Repr
      ensures IsEmpty() <==> contents == []
    {
      nextPush == nextPop
    }

    function Advance(index: nat): nat {
      if index + 1 >= items.Length then index + 1 - items.Length else index + 1
    }

    method Push(item: Item) returns (ok: bool)
      requires Valid()
      modifies Repr
      ensures Valid()
      ensures ok <==> |old(contents)| < capacity
      ensures contents == if ok then old(contents) + [item] else old(contents)
      ensures nextPop == old(nextPop) && nextPush == if ok then Advance(old(nextPush)) else old(nextPush)
    {
      var newNextPush := Advance(nextPush);
      if nextPop == newNextPush {
        return false;
      }
      items[nextPush] := item;
      nextPush := newNextPush;
      contents := contents + [item];
      ok := true;
    }

    /** The original pops garbage from an empty queue; its callers check first. */
    method Pop() returns (item: Item)
      requires Valid() && contents != []
      modifies this
      ensures Valid() && [item] + contents == old(contents)
      ensures nextPush == old(nextPush) && nextPop == Advance(old(nextPop))
    {
      item := items[nextPop];
      nextPop := Advance(nextPop);
      contents := contents[1..];
    }

    /** `next_push - next_pop` in unsigned arithmetic: right exactly until the ring has wrapped. */
    method Length() returns (length: nat)
      requires Valid() && items.Length < SIZE_T_RANGE
      ensures length == |contents| <==> nextPop <= nextPush
      ensures nextPop > nextPush ==> length == |contents| + (SIZE_T_RANGE - items.Length)
    {
      length := if nextPush >= nextPop then nextPush - nextPop else SIZE_T_RANGE + nextPush - nextPop;
    }

    method Clear()
      requires Valid()
      modifies this
      ensures Valid() && contents == []
    {
      nextPush, nextPop, contents := 0, 0, [];
    }
  }

  /** In a ring for one item, push, pop and push leave one item and wrap around. */
  method WrappedLength(item: int) returns (length: nat)
    ensures length == SIZE_T_RANGE - 1
  {
    var ring := new Queue<int>(1);
    var ok := ring.Push(item);
    var popped := ring.Pop();
    ok := ring.Push(item);
    length := ring.Length();
  }
}
