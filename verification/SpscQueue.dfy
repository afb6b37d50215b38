/**
 src/spscqueue.cpp: a lock-free ring between one producer and one consumer, as interleaved atomic steps.
 The ring has one slot more than its capacity, so that full and empty differ.
 */
module SpscQueues {

  /** Where the producer is in `push` or `length`, with its local variables. */
  datatype Producer<T> =
    | ProducerIdle
    | PushLoaded(item: T, oldPush: nat)                  // next_push has been read
    | PushReady(item: T, oldPush: nat, newPush: nat)     // next_pop has been read, and there is room
    | PushWritten(item: T, newPush: nat)                 // the slot has been filled
    | ProducerMeasuring(pop: nat)                        // in length: next_pop has been read

  /** Where the consumer is in `pop`, or in the `length` call at the start of `process_messages`. */
  datatype Consumer<T> =
    | ConsumerIdle
    | PopLoaded(pop: nat)             // next_pop has been read
    | PopReady(pop: nat)              // next_push has been read, and there is an item
    | PopRead(pop: nat, item: T)      // the item has been moved out
    | PopCleared(pop: nat, item: T)   // a fresh item has been put into its slot
    | ConsumerMeasuring(pop: nat)     // in length: next_pop has been read

  /** The slot after `index`, going round. */
  function Advance(index: nat, slots: nat): nat
    requires index < slots
  {
    var newIndex := index + 1;
    if newIndex >= slots then newIndex - slots else newIndex
  }

  function Distance(push: nat, pop: nat, slots: nat): nat
    requires push < slots && pop < slots
  {
    if push < pop then slots + push - pop else push - pop
  }

  datatype Ring<T> = Ring(
    capacity: nat,
    blank: T,
    items: seq<T>,
    nextPush: nat,
    nextPop: nat,
    producer: Producer<T>,
    consumer: Consumer<T>,
    measured: nat,      // the last length the producer has seen
    left: nat,          // pops that `process_messages` has still to do
    pushed: seq<T>,     // the item of every push that returned true, in order
    popped: seq<T>)     // every item that a pop has delivered, in order
  {
    function Slots(): nat {
      capacity + 1
    }

    /** Every index is a slot. */
    predicate Shaped() {
      |items| == Slots() && nextPush < Slots() && nextPop < Slots()
      && (match producer
          case ProducerIdle => true
          case PushLoaded(_, oldPush) => oldPush < Slots()
          case PushReady(_, oldPush, newPush) => oldPush < Slots() && newPush < Slots()
          case PushWritten(_, newPush) => newPush < Slots()
          case ProducerMeasuring(pop) => pop < Slots())
      && (match consumer
          case ConsumerIdle => true
          case PopLoaded(pop) => pop < Slots()
          case PopReady(pop) => pop < Slots()
          case PopRead(pop, _) => pop < Slots()
          case PopCleared(pop, _) => pop < Slots()
          case ConsumerMeasuring(pop) => pop < Slots())
    }
  }

  datatype Action<T> =
    | BeginPush(item: T)
    | BeginLength
    | ProducerStep
    | BeginPop
    | BeginProcessMessages
    | ConsumerStep

  predicate Enabled<T>(r: Ring<T>, a: Action<T>) {
    match a
    case BeginPush(_) => r.producer.ProducerIdle?
    case BeginLength => r.producer.ProducerIdle?
    case ProducerStep => !r.producer.ProducerIdle?
    case BeginPop => r.consumer.ConsumerIdle?
    case BeginProcessMessages => r.consumer.ConsumerIdle? && r.left == 0
    case ConsumerStep => !r.consumer.ConsumerIdle?
  }

  function StepProducer<T>(r: Ring<T>): Ring<T>
    requires r.Shaped()
  {
    match r.producer
    case ProducerIdle => r
    case PushLoaded(item, oldPush) =>
      var newPush := Advance(oldPush, r.Slots());
      r.(producer := if r.nextPop == newPush then ProducerIdle else PushReady(item, oldPush, newPush))
    case PushReady(item, oldPush, newPush) =>
      r.(items := r.items[oldPush := item], producer := PushWritten(item, newPush))
    case PushWritten(item, newPush) =>
      r.(nextPush := newPush, producer := ProducerIdle, pushed := r.pushed + [item])
    case ProducerMeasuring(pop) =>
      r.(producer := ProducerIdle, measured := Distance(r.nextPush, pop, r.Slots()))
  }

  function StepConsumer<T>(r: Ring<T>): Ring<T>
    requires r.Shaped()
  {
    match r.consumer
    case ConsumerIdle => r
    case PopLoaded(pop) => r.(consumer := if r.nextPush == pop then ConsumerIdle else PopReady(pop))
    case PopReady(pop) => r.(consumer := PopRead(pop, r.items[pop]))
    case PopRead(pop, item) => r.(items := r.items[pop := r.blank], consumer := PopCleared(pop, item))
    case PopCleared(pop, item) =>
      r.(nextPop := Advance(pop, r.Slots()), consumer := ConsumerIdle, popped := r.popped + [item],
         left := if r.left > 0 then r.left - 1 else 0)
    case ConsumerMeasuring(pop) => r.(consumer := ConsumerIdle, left := Distance(r.nextPush, pop, r.Slots()))
  }

  /** One atomic step of one of the two threads. */
  function Next<T>(r: Ring<T>, a: Action<T>): Ring<T>
    requires r.Shaped() && Enabled(r, a)
  {
    match a
    case BeginPush(item) => r.(producer := PushLoaded(item, r.nextPush))
    case BeginLength => r.(producer := ProducerMeasuring(r.nextPop))
    case ProducerStep => StepProducer(r)
    case BeginPop => r.(consumer := PopLoaded(r.nextPop))
    case BeginProcessMessages => r.(consumer := ConsumerMeasuring(r.nextPop))
    case ConsumerStep => StepConsumer(r)
  }

  function Fresh<T>(capacity: nat, blank: T): Ring<T> {
    Ring(capacity, blank, seq(capacity + 1, _ => blank), 0, 0, ProducerIdle, ConsumerIdle, 0, 0, [], [])
  }

  // ---- The invariant ----

  /** How many items the ring holds. */
  ghost function Held<T>(r: Ring<T>): int {
    |r.pushed| - |r.popped|
  }

  /** The indices are the lengths of the histories, wrapped around. */
  ghost predicate IndicesWrap<T>(r: Ring<T>) {
    r.Shaped() && 0 <= Held(r) <= r.capacity
    && r.nextPush == |r.pushed| % r.Slots() && r.nextPop == |r.popped| % r.Slots()
  }

  /** The slots hold what has been pushed and not popped; the consumer may just have emptied the first one. */
  ghost predicate SlotsHold<T>(r: Ring<T>)
    requires r.Shaped()
  {
    forall j {:trigger r.pushed[j]} :: |r.popped| <= j < |r.pushed| ==>
      r.items[j % r.Slots()] == r.pushed[j] || (j == |r.popped| && r.consumer.PopCleared?)
  }

  ghost predicate ProducerInv<T>(r: Ring<T>)
    requires r.Shaped()
  {
    match r.producer
    case ProducerIdle => true
    case PushLoaded(_, oldPush) => oldPush == r.nextPush
    case PushReady(_, oldPush, newPush) =>
      oldPush == r.nextPush && newPush == Advance(r.nextPush, r.Slots()) && Held(r) < r.capacity
    case PushWritten(item, newPush) =>
      r.items[r.nextPush] == item && newPush == Advance(r.nextPush, r.Slots()) && Held(r) < r.capacity
    case ProducerMeasuring(pop) =>
      exists k: nat :: k <= |r.popped| && |r.pushed| - k <= r.capacity && pop == k % r.Slots()
  }

  ghost predicate ConsumerInv<T>(r: Ring<T>) {
    match r.consumer
    case ConsumerIdle => true
    case PopLoaded(pop) => pop == r.nextPop
    case PopReady(pop) => pop == r.nextPop && Held(r) > 0
    case PopRead(pop, item) => pop == r.nextPop && Held(r) > 0 && item == r.pushed[|r.popped|]
    case PopCleared(pop, item) => pop == r.nextPop && Held(r) > 0 && item == r.pushed[|r.popped|]
    case ConsumerMeasuring(pop) => pop == r.nextPop && r.left == 0
  }

  ghost predicate Inv<T>(r: Ring<T>) {
    IndicesWrap(r) && SlotsHold(r) && ProducerInv(r) && ConsumerInv(r)
    && r.popped <= r.pushed && r.left <= Held(r)
  }

  // ---- Wrapping around ----

  lemma WrapNext(r: Ring, k: nat)
    ensures k % r.Slots() < r.Slots() && Advance(k % r.Slots(), r.Slots()) == (k + 1) % r.Slots()
  {
    var n, q, m := r.Slots(), k / r.Slots(), k % r.Slots();
    assert k == q * n + m;
    if m + 1 == n {
      assert k + 1 == (q + 1) * n;
      assert ((q + 1) * n) % n == 0 by {
        Multiple(q + 1, n, 0);
      }
    } else {
      Multiple(q, n, m + 1);
    }
  }

  lemma Multiple(q: int, n: nat, m: nat)
    requires m < n
    ensures (q * n + m) % n == m && (q * n + m) / n == q
  {
    var k := q * n + m;
    assert k == (k / n) * n + k % n;
    NoMultipleBetween(k / n - q, n);
  }

  lemma NoMultipleBetween(d: int, n: nat)
    ensures 0 - n < d * n < n ==> d == 0
  {
    if d > 0 {
      Product(d - 1, n);
    } else if d < 0 {
      Product(-d - 1, n);
    }
  }

  lemma Product(a: nat, b: nat)
    ensures a * b >= 0
  {
  }

  /** Positions less than a round apart have slots that tell how far apart they are. */
  lemma WrapDistance(r: Ring, k: nat, j: nat)
    requires k <= j < k + r.Slots()
    ensures Distance(j % r.Slots(), k % r.Slots(), r.Slots()) == j - k
    ensures j % r.Slots() == k % r.Slots() <==> j == k
  {
    var n := r.Slots();
    var q, a := k / n, k % n;
    assert k == q * n + a;
    if a + (j - k) < n {
      Multiple(q, n, a + (j - k));
      assert j == q * n + (a + (j - k));
    } else {
      Multiple(q + 1, n, a + (j - k) - n);
      assert j == (q + 1) * n + (a + (j - k) - n);
    }
  }

  // ---- Steps ----

  lemma FreshKeeps<T>(capacity: nat, blank: T)
    ensures Inv(Fresh(capacity, blank))
  {
  }

  /** The slot that the next push fills and the first occupied one differ, unless the ring is empty. */
  lemma FirstIsNotNext(r: Ring)
    requires IndicesWrap(r) && 0 < Held(r)
    ensures r.nextPop != r.nextPush && r.nextPush == |r.pushed| % r.Slots()
    ensures forall j :: |r.popped| <= j < |r.pushed| ==> j % r.Slots() != r.nextPush
    ensures forall j :: |r.popped| < j < |r.pushed| ==> j % r.Slots() != r.nextPop
  {
    WrapDistance(r, |r.popped|, |r.pushed|);
    forall j | |r.popped| <= j < |r.pushed|
      ensures j % r.Slots() != r.nextPush
      ensures j > |r.popped| ==> j % r.Slots() != r.nextPop
    {
      WrapDistance(r, j, |r.pushed|);
      WrapDistance(r, |r.popped|, j);
    }
  }

  /** A push refuses its item exactly when it finds the ring full. */
  lemma PushLoadedKeeps(r: Ring)
    requires Inv(r) && r.producer.PushLoaded?
    ensures Inv(Next(r, ProducerStep))
    ensures Next(r, ProducerStep).producer.ProducerIdle? <==> Held(r) == r.capacity
  {
    hide SlotsHold;
    WrapNext(r, |r.pushed|);
    WrapDistance(r, |r.popped|, |r.pushed|);
    if Held(r) == r.capacity {
      WrapDistance(r, |r.popped| + r.Slots(), |r.pushed| + 1);
      WrapRound(r, |r.popped|);
    } else {
      WrapDistance(r, |r.popped|, |r.pushed| + 1);
    }
    SlotsHoldSame(r, Next(r, ProducerStep));
  }

  lemma WrapRound(r: Ring, k: nat)
    ensures (k + r.Slots()) % r.Slots() == k % r.Slots()
  {
    var n, q, m := r.Slots(), k / r.Slots(), k % r.Slots();
    assert k == q * n + m && k + n == (q + 1) * n + m;
    Multiple(q + 1, n, m);
  }

  lemma SlotsHoldSame<T>(r: Ring<T>, next: Ring<T>)
    requires r.Shaped() && next.Shaped() && SlotsHold(r) && next.items == r.items && next.capacity == r.capacity
    requires next.pushed == r.pushed && next.popped == r.popped
    requires r.consumer.PopCleared? ==> next.consumer.PopCleared?
    ensures SlotsHold(next)
  {
  }

  lemma PushReadyKeeps(r: Ring)
    requires Inv(r) && r.producer.PushReady?
    ensures Inv(Next(r, ProducerStep))
  {
    if Held(r) > 0 {
      FirstIsNotNext(r);
    }
  }

  lemma PushWrittenKeeps(r: Ring)
    requires Inv(r) && r.producer.PushWritten?
    ensures Inv(Next(r, ProducerStep))
  {
    WrapNext(r, |r.pushed|);
    var next := Next(r, ProducerStep);
    assert forall j :: |r.popped| <= j < |next.pushed| ==>
      next.pushed[j] == if j < |r.pushed| then r.pushed[j] else r.producer.item;
  }

  lemma ProducerMeasuringKeeps(r: Ring)
    requires Inv(r) && r.producer.ProducerMeasuring?
    ensures Inv(Next(r, ProducerStep)) && Next(r, ProducerStep).measured >= Held(r)
  {
    var k: nat :| k <= |r.popped| && |r.pushed| - k <= r.capacity && r.producer.pop == k % r.Slots();
    WrapDistance(r, k, |r.pushed|);
  }

  lemma BeginLengthKeeps(r: Ring)
    requires Inv(r) && r.producer.ProducerIdle?
    ensures Inv(Next(r, BeginLength))
  {
    var next := Next(r, BeginLength);
    assert |r.popped| <= |next.popped| && |next.pushed| - |r.popped| <= next.capacity;
  }

  /** A pop comes back empty-handed exactly when it finds the ring empty, and never within `process_messages`. */
  lemma PopLoadedKeeps(r: Ring)
    requires Inv(r) && r.consumer.PopLoaded?
    ensures Inv(Next(r, ConsumerStep))
    ensures Next(r, ConsumerStep).consumer.ConsumerIdle? <==> Held(r) == 0
    ensures r.left > 0 ==> Next(r, ConsumerStep).consumer.PopReady?
  {
    WrapDistance(r, |r.popped|, |r.pushed|);
  }

  lemma PopReadyKeeps(r: Ring)
    requires Inv(r) && r.consumer.PopReady?
    ensures Inv(Next(r, ConsumerStep))
  {
    assert r.items[|r.popped| % r.Slots()] == r.pushed[|r.popped|];
  }

  lemma PopReadKeeps(r: Ring)
    requires Inv(r) && r.consumer.PopRead?
    ensures Inv(Next(r, ConsumerStep))
  {
    FirstIsNotNext(r);
  }

  lemma PopClearedKeeps(r: Ring)
    requires Inv(r) && r.consumer.PopCleared?
    ensures Inv(Next(r, ConsumerStep))
  {
    WrapNext(r, |r.popped|);
    var next := Next(r, ConsumerStep);
    assert r.popped + [r.pushed[|r.popped|]] <= r.pushed;
  }

  lemma ConsumerMeasuringKeeps(r: Ring)
    requires Inv(r) && r.consumer.ConsumerMeasuring?
    ensures Inv(Next(r, ConsumerStep)) && Next(r, ConsumerStep).left == Held(r)
  {
    WrapDistance(r, |r.popped|, |r.pushed|);
  }

  lemma StepKeeps<T>(r: Ring<T>, a: Action<T>)
    requires Inv(r) && Enabled(r, a)
    ensures Inv(Next(r, a))
  {
    match a {
      case BeginPush(item) =>
      case BeginLength => BeginLengthKeeps(r);
      case BeginPop =>
      case BeginProcessMessages =>
      case ProducerStep =>
        match r.producer {
          case PushLoaded(_, _) => PushLoadedKeeps(r);
          case PushReady(_, _, _) => PushReadyKeeps(r);
          case PushWritten(_, _) => PushWrittenKeeps(r);
          case ProducerMeasuring(_) => ProducerMeasuringKeeps(r);
        }
      case ConsumerStep =>
        match r.consumer {
          case PopLoaded(_) => PopLoadedKeeps(r);
          case PopReady(_) => PopReadyKeeps(r);
          case PopRead(_, _) => PopReadKeeps(r);
          case PopCleared(_, _) => PopClearedKeeps(r);
          case ConsumerMeasuring(_) => ConsumerMeasuringKeeps(r);
        }
    }
  }

  /** The two threads never touch the same slot at the same time. */
  lemma NoSlotIsShared(r: Ring)
    requires Inv(r) && r.producer.PushReady? && (r.consumer.PopReady? || r.consumer.PopRead?)
    ensures r.producer.oldPush != r.consumer.pop
  {
    FirstIsNotNext(r);
  }

  // ---- The ring is a queue ----

  ghost function Contents<T>(r: Ring<T>): seq<T>
    requires Inv(r)
  {
    r.pushed[|r.popped|..]
  }

  /**
   Every step leaves the queue alone, or appends the item of a push that is about to return true, or hands its
   first item to the consumer; so pushes and pops take effect one at a time, at their last step.
   */
  lemma StepRefinesQueue<T>(r: Ring<T>, a: Action<T>)
    requires Inv(r) && Enabled(r, a)
    ensures Inv(Next(r, a))
    ensures var next := Next(r, a);
      if a.ProducerStep? && r.producer.PushWritten? then
        Contents(next) == Contents(r) + [r.producer.item] && |Contents(r)| < r.capacity && next.popped == r.popped
      else if a.ConsumerStep? && r.consumer.PopCleared? then
        Contents(r) == [r.consumer.item] + Contents(next) && next.popped == r.popped + [r.consumer.item]
      else Contents(next) == Contents(r) && next.popped == r.popped && next.pushed == r.pushed
  {
    StepKeeps(r, a);
    hide SlotsHold, ProducerInv;
  }

  // ---- Runs ----

  ghost predicate CanRun<T>(r: Ring<T>, actions: seq<Action<T>>)
    requires Inv(r)
    decreases |actions|
  {
    actions == []
    || (Enabled(r, actions[0]) && (StepKeeps(r, actions[0]); CanRun(Next(r, actions[0]), actions[1..])))
  }

  ghost function Run<T>(r: Ring<T>, actions: seq<Action<T>>): (next: Ring<T>)
    requires Inv(r) && CanRun(r, actions)
    ensures Inv(next)
    decreases |actions|
  {
    if actions == [] then r
    else
      StepKeeps(r, actions[0]);
      Run(Next(r, actions[0]), actions[1..])
  }

  lemma {:induction false} CapacityStays<T>(r: Ring<T>, actions: seq<Action<T>>)
    requires Inv(r) && CanRun(r, actions)
    ensures Run(r, actions).capacity == r.capacity
    decreases |actions|
  {
    if actions != [] {
      StepKeeps(r, actions[0]);
      CapacityStays(Next(r, actions[0]), actions[1..]);
    }
  }

  /**
   However the steps interleave: what has been popped is a prefix of what has been pushed, and the ring never
   overflows.
   */
  lemma EveryRunIsFifo<T>(capacity: nat, blank: T, actions: seq<Action<T>>)
    ensures Inv(Fresh(capacity, blank))
    ensures CanRun(Fresh(capacity, blank), actions) ==>
      var r := Run(Fresh(capacity, blank), actions);
      && r.popped <= r.pushed && |r.pushed| - |r.popped| <= capacity
      && (r.producer.PushReady? && (r.consumer.PopReady? || r.consumer.PopRead?) ==>
            r.producer.oldPush != r.consumer.pop)
      && (r.consumer.PopLoaded? && r.left > 0 ==> Next(r, ConsumerStep).consumer.PopReady?)
  {
    FreshKeeps(capacity, blank);
    if CanRun(Fresh(capacity, blank), actions) {
      var r := Run(Fresh(capacity, blank), actions);
      CapacityStays(Fresh(capacity, blank), actions);
      if r.producer.PushReady? && (r.consumer.PopReady? || r.consumer.PopRead?) {
        NoSlotIsShared(r);
      }
      if r.consumer.PopLoaded? {
        PopLoadedKeeps(r);
      }
    }
  }

  ghost predicate StaysInProcessMessages<T>(actions: seq<Action<T>>) {
    forall a :: a in actions ==> !a.BeginProcessMessages?
  }

  /** Until it measures again, the consumer's count of pops to do falls by one with each item it has got. */
  lemma {:induction false} CountsDown<T>(r: Ring<T>, actions: seq<Action<T>>)
    requires Inv(r) && CanRun(r, actions) && StaysInProcessMessages(actions) && !r.consumer.ConsumerMeasuring?
    ensures var s := Run(r, actions);
      && r.popped <= s.popped && r.pushed <= s.pushed
      && s.left == if |s.popped| - |r.popped| <= r.left then r.left - (|s.popped| - |r.popped|) else 0
    decreases |actions|
  {
    hide SlotsHold, ProducerInv, ConsumerInv;
    if actions != [] {
      assert actions[0] in actions && forall a :: a in actions[1..] ==> a in actions;
      StepKeeps(r, actions[0]);
      CountsDown(Next(r, actions[0]), actions[1..]);
    }
  }

  /** Once `process_messages` is through, it has handled all the messages that were there when it measured, in order. */
  lemma ProcessMessagesDrains<T>(r: Ring<T>, actions: seq<Action<T>>)
    requires Inv(r) && CanRun(r, actions) && StaysInProcessMessages(actions)
    requires r.consumer.ConsumerIdle? && r.left == Held(r) && Run(r, actions).left == 0
    ensures r.popped + Contents(r) <= Run(r, actions).popped
  {
    hide CanRun, Run;
    CountsDown(r, actions);
    var s := Run(r, actions);
    assert r.popped + Contents(r) == r.pushed;
    assert |s.popped| >= |r.pushed| && s.popped <= s.pushed && r.pushed <= s.pushed;
  }

  // ---- The shared object ----

  /** The ring as both threads see it: an array and two atomic indices. Each method is one atomic step. */
  class SpscQueue<T> {
    const capacity: nat
    const blank: T
    const items: array<T>
    var nextPush: nat
    var nextPop: nat
    var producer: Producer<T>
    var consumer: Consumer<T>
    var measured: nat
    var left: nat
    ghost var pushed: seq<T>
    ghost var popped: seq<T>

    ghost function View(): Ring<T>
      reads this, items
    {
      Ring(capacity, blank, items[..], nextPush, nextPop, producer, consumer, measured, left, pushed, popped)
    }

    ghost predicate Valid()
      reads this, items
    {
      Inv(View())
    }

    constructor (capacity: nat, blank: T)
      ensures Valid() && View() == Fresh(capacity, blank) && fresh(items)
    {
      this.capacity, this.blank := capacity, blank;
      items := new T[capacity + 1](_ => blank);
      nextPush, nextPop := 0, 0;
      producer, consumer := ProducerIdle, ConsumerIdle;
      measured, left := 0, 0;
      pushed, popped := [], [];
      new;
      assert items[..] == Fresh(capacity, blank).items;
      FreshKeeps(capacity, blank);
    }

    method LoadPush(item: T)
      requires Valid() && producer.ProducerIdle?
      modifies this`producer
      ensures Valid() && View() == Next(old(View()), BeginPush(item))
    {
      StepKeeps(View(), BeginPush(item));
      producer := PushLoaded(item, nextPush);
    }

    method LoadPopForLength()
      requires Valid() && producer.ProducerIdle?
      modifies this`producer
      ensures Valid() && View() == Next(old(View()), BeginLength)
    {
      StepKeeps(View(), BeginLength);
      producer := ProducerMeasuring(nextPop);
    }

    /** The rest of `push`, or of the producer's `length`, one step at a time. */
    method RunProducer()
      requires Valid() && !producer.ProducerIdle?
      modifies this`producer, this`nextPush, this`pushed, this`measured, items
      ensures Valid() && View() == Next(old(View()), ProducerStep)
    {
      ghost var next := Next(View(), ProducerStep);
      StepKeeps(View(), ProducerStep);
      hide Inv;
      match producer {
        case PushLoaded(item, oldPush) =>
          var newPush := Advance(oldPush, capacity + 1);
          producer := if nextPop == newPush then ProducerIdle else PushReady(item, oldPush, newPush);
        case PushReady(item, oldPush, newPush) =>
          items[oldPush] := item;
          producer := PushWritten(item, newPush);
        case PushWritten(item, newPush) =>
          nextPush := newPush;
          producer := ProducerIdle;
          pushed := pushed + [item];
        case ProducerMeasuring(pop) =>
          measured := Distance(nextPush, pop, capacity + 1);
          producer := ProducerIdle;
      }
    }

    method LoadPop()
      requires Valid() && consumer.ConsumerIdle?
      modifies this`consumer
      ensures Valid() && View() == Next(old(View()), BeginPop)
    {
      StepKeeps(View(), BeginPop);
      consumer := PopLoaded(nextPop);
    }

    method StartProcessing()
      requires Valid() && consumer.ConsumerIdle? && left == 0
      modifies this`consumer
      ensures Valid() && View() == Next(old(View()), BeginProcessMessages)
    {
      StepKeeps(View(), BeginProcessMessages);
      consumer := ConsumerMeasuring(nextPop);
    }

    /** The rest of `pop`, or of the consumer's `length`, one step at a time. */
    method RunConsumer()
      requires Valid() && !consumer.ConsumerIdle?
      modifies this`consumer, this`nextPop, this`popped, this`left, items
      ensures Valid() && View() == Next(old(View()), ConsumerStep)
    {
      StepKeeps(View(), ConsumerStep);
      hide Inv;
      match consumer {
        case PopLoaded(pop) =>
          consumer := if nextPush == pop then ConsumerIdle else PopReady(pop);
        case PopReady(pop) =>
          consumer := PopRead(pop, items[pop]);
        case PopRead(pop, item) =>
          items[pop] := blank;
          consumer := PopCleared(pop, item);
        case PopCleared(pop, item) =>
          nextPop := Advance(pop, capacity + 1);
          popped := popped + [item];
          left := if left > 0 then left - 1 else 0;
          consumer := ConsumerIdle;
        case ConsumerMeasuring(pop) =>
          left := Distance(nextPush, pop, capacity + 1);
          consumer := ConsumerIdle;
      }
    }
  }
}
