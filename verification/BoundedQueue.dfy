/** The bounded queue (core/bounded_queue.py): a deque that drops its oldest entry on
    overflow and hands out entries by priority, through a stable sort and a removal. */
module BoundedQueue {
  import opened Wrappers
  import opened Sorting

  /** `serial` numbers the puts; the deque stores and compares the other three fields. */
  datatype Entry<T> = Entry(item: T, priority: int, at: real, serial: nat)

  /** Tuple equality, as `deque.remove` uses it. */
  predicate Same<T(==)>(a: Entry<T>, b: Entry<T>) {
    a.item == b.item && a.priority == b.priority && a.at == b.at
  }

  /** The order of the sort key (-priority, time). */
  predicate ByPriorityThenAge<T>(a: Entry<T>, b: Entry<T>) {
    a.priority > b.priority || (a.priority == b.priority && a.at <= b.at)
  }

  /** The order of the abstract priority queue: time plays no part, position does. */
  predicate ByPriority<T>(a: Entry<T>, b: Entry<T>) {
    a.priority >= b.priority
  }

  datatype State<T> = State(
    capacity: nat, queue: seq<Entry<T>>, event: bool,
    enqueued: nat, dequeued: nat, dropped: nat, overflowCount: nat, currentSize: nat,
    puts: seq<Entry<T>>, got: seq<Entry<T>>, lost: seq<Entry<T>>)

  function Init<T>(capacity: nat): State<T> {
    State(capacity, [], false, 0, 0, 0, 0, 0, [], [], [])
  }

  /** `sync` operations leave the event alone. */
  datatype Op<T> = Put(item: T, priority: int, now: real, sync: bool) | Get(sync: bool)

  function DropOldest<T>(s: State<T>): State<T>
    requires s.queue != []
  {
    s.(queue := s.queue[1..], dropped := s.dropped + 1, overflowCount := s.overflowCount + 1,
       currentSize := |s.queue| - 1, lost := s.lost + [s.queue[0]])
  }

  function Append<T>(s: State<T>, op: Op<T>): State<T>
    requires op.Put?
  {
    var e := Entry(op.item, op.priority, op.now, s.enqueued);
    s.(queue := s.queue + [e], enqueued := s.enqueued + 1, currentSize := |s.queue| + 1,
       event := s.event || !op.sync, puts := s.puts + [e])
  }

  function TakeAt<T>(s: State<T>, i: nat, sync: bool): State<T>
    requires i < |s.queue|
  {
    var rest := s.queue[..i] + s.queue[i + 1..];
    s.(queue := rest, dequeued := s.dequeued + 1, currentSize := |rest|,
       event := s.event && (sync || rest != []), got := s.got + [s.queue[i]])
  }

  /** Which entry a get takes, when the queue is not empty. */
  function Pick<T>(queue: seq<Entry<T>>): (i: nat)
    requires queue != []
    ensures i < |queue|
  {
    FirstLeast(queue, ByPriorityThenAge)
  }

  /** A put on a queue of capacity 0 raises on popping the empty deque and changes nothing. */
  function Step<T>(s: State<T>, op: Op<T>): State<T> {
    match op
    case Put(_, _, _, _) =>
      if |s.queue| < s.capacity then Append(s, op)
      else if s.queue == [] then s
      else Append(DropOldest(s), op)
    case Get(sync) =>
      if s.queue == [] then s else TakeAt(s, Pick(s.queue), sync)
  }

  lemma OrdersAreTotal<T(!new)>()
    ensures TotalPreorder(ByPriorityThenAge<T>) && TotalPreorder(ByPriority<T>)
  {
  }

  class BoundedQueue<T(==, !new)> {
    const capacity: nat
    var queue: seq<Entry<T>>
    var event: bool
    var enqueued: nat
    var dequeued: nat
    var dropped: nat
    var overflowCount: nat
    var currentSize: nat
    ghost var puts: seq<Entry<T>>
    ghost var got: seq<Entry<T>>
    ghost var lost: seq<Entry<T>>

    ghost function Abs(): State<T>
      reads this
    {
      State(capacity, queue, event, enqueued, dequeued, dropped, overflowCount, currentSize, puts, got, lost)
    }

    constructor (capacity: nat)
      ensures Abs() == Init(capacity)
    {
      this.capacity := capacity;
      queue, event, puts, got, lost := [], false, [], [], [];
      enqueued, dequeued, dropped, overflowCount, currentSize := 0, 0, 0, 0, 0;
    }

    /** `put`; false when popping the empty deque raised. */
    method Put(item: T, priority: int, now: real) returns (ok: bool)
      modifies this
      ensures Abs() == Step(old(Abs()), Op.Put(item, priority, now, false))
      ensures ok <==> capacity > 0 || old(queue) != []
    {
      ok := PutSync(item, priority, now);
      if ok {
        event := true;
      }
    }

    method PutSync(item: T, priority: int, now: real) returns (ok: bool)
      modifies this
      ensures Abs() == Step(old(Abs()), Op.Put(item, priority, now, true))
      ensures ok <==> capacity > 0 || old(queue) != []
    {
      if |queue| >= capacity {
        if queue == [] {
          return false;
        }
        lost := lost + [queue[0]];
        queue := queue[1..];
        dropped := dropped + 1;
        overflowCount := overflowCount + 1;
      }
      var e := Entry(item, priority, now, enqueued);
      queue := queue + [e];
      puts := puts + [e];
      enqueued := enqueued + 1;
      currentSize := |queue|;
      return true;
    }

    /** Sort a copy, take its first element, remove the first equal entry of the deque. */
    method TakeBest() returns (best: Entry<T>)
      requires queue != []
      modifies this`queue, this`got
      ensures var i := Pick(old(queue));
              best == old(queue)[i] && queue == old(queue)[..i] + old(queue)[i + 1..] && got == old(got) + [best]
    {
      var items := StableSort(queue, ByPriorityThenAge);
      OrdersAreTotal<T>();
      StableSortIsStable(queue, ByPriorityThenAge);
      HeadOfStableSort(queue, items, ByPriorityThenAge);
      best := items[0];
      FirstLeastIs(queue, ByPriorityThenAge);
      var k := 0;
      while !Same(queue[k], best)
        modifies {}
        invariant 0 <= k <= Pick(queue)
        decreases Pick(queue) - k
      {
        k := k + 1;
      }
      queue := queue[..k] + queue[k + 1..];
      got := got + [best];
    }

    method GetSync() returns (item: Option<T>)
      modifies this
      ensures Abs() == Step(old(Abs()), Get(true))
      ensures item == if old(queue) == [] then None else Some(old(queue)[Pick(old(queue))].item)
    {
      if queue == [] {
        return None;
      }
      var best := TakeBest();
      dequeued := dequeued + 1;
      currentSize := |queue|;
      return Some(best.item);
    }

    /** `get_nowait`; also what `get` does once the queue has an entry. */
    method GetNowait() returns (item: Option<T>)
      modifies this
      ensures Abs() == Step(old(Abs()), Get(false))
      ensures item == if old(queue) == [] then None else Some(old(queue)[Pick(old(queue))].item)
    {
      if queue == [] {
        return None;
      }
      var best := TakeBest();
      dequeued := dequeued + 1;
      currentSize := |queue|;
      if queue == [] {
        event := false;
      }
      return Some(best.item);
    }
  }

  // ---------------------------------------------------------------------------
  // Accounting, whatever the clock does
  // ---------------------------------------------------------------------------

  /** The queue holds put entries in put order. */
  ghost predicate SerialsIncrease<T>(s: State<T>) {
    && (forall i :: 0 <= i < |s.queue| ==> s.queue[i].serial < s.enqueued)
    && (forall i, j :: 0 <= i < j < |s.queue| ==> s.queue[i].serial < s.queue[j].serial)
  }

  /** Every put entry is waiting, was handed out, or was dropped: once each. */
  ghost predicate Conserves<T>(s: State<T>) {
    && multiset(s.puts) == multiset(s.queue) + multiset(s.got) + multiset(s.lost)
    && s.enqueued == |s.puts| && s.dequeued == |s.got| && s.dropped == |s.lost|
    && s.overflowCount == s.dropped && s.currentSize == |s.queue|
  }

  /** `n` puts came after each dropped entry. */
  ghost predicate DropsAreOld<T>(s: State<T>, n: nat) {
    forall i :: 0 <= i < |s.lost| ==> s.lost[i].serial + n < s.enqueued
  }

  /** A serial is the position of its put. */
  ghost predicate SerialsArePositions<T>(s: State<T>) {
    && s.enqueued == |s.puts|
    && (forall i :: 0 <= i < |s.puts| ==> s.puts[i].serial == i)
  }

  ghost predicate Accounted<T>(s: State<T>) {
    && |s.queue| <= s.capacity
    && SerialsIncrease(s) && SerialsArePositions(s) && Conserves(s) && DropsAreOld(s, s.capacity)
  }

  /** What an append needs, and dropping the oldest entry of a full queue gives. */
  ghost predicate RoomToAppend<T>(s: State<T>) {
    && |s.queue| < s.capacity
    && SerialsIncrease(s) && SerialsArePositions(s) && Conserves(s) && DropsAreOld(s, s.capacity - 1)
  }

  lemma DropConserves<T>(s: State<T>)
    requires Conserves(s) && s.queue != []
    ensures Conserves(DropOldest(s))
  {
    assert s.queue == [s.queue[0]] + s.queue[1..];
  }

  lemma DropMakesRoom<T>(s: State<T>)
    requires Accounted(s) && s.queue != [] && |s.queue| == s.capacity
    ensures RoomToAppend(DropOldest(s))
  {
    SerialsSpread(s.queue, s.enqueued);
    DropConserves(s);
  }

  /** Increasing serials below a bound leave room. */
  lemma {:induction false} SerialsSpread<T>(q: seq<Entry<T>>, bound: nat)
    requires q != []
    requires forall i :: 0 <= i < |q| ==> q[i].serial < bound
    requires forall i, j :: 0 <= i < j < |q| ==> q[i].serial < q[j].serial
    ensures q[0].serial + |q| <= bound
  {
    if |q| > 1 {
      SerialsSpread(q[..|q| - 1], q[|q| - 1].serial);
    }
  }

  lemma AppendConserves<T>(s: State<T>, op: Op<T>)
    requires op.Put? && Conserves(s)
    ensures Conserves(Append(s, op))
  {
  }

  lemma AppendKeepsAccounts<T>(s: State<T>, op: Op<T>)
    requires op.Put? && RoomToAppend(s)
    ensures Accounted(Append(s, op))
  {
    AppendConserves(s, op);
  }

  /** The rest of a queue, index by index. */
  lemma RestOf<T>(q: seq<Entry<T>>, i: nat)
    requires i < |q|
    ensures var rest := q[..i] + q[i + 1..];
            |rest| == |q| - 1 && forall j :: 0 <= j < |rest| ==> rest[j] == if j < i then q[j] else q[j + 1]
  {
  }

  lemma TakeConserves<T>(s: State<T>, i: nat, sync: bool)
    requires Conserves(s) && i < |s.queue|
    ensures Conserves(TakeAt(s, i, sync))
  {
    assert s.queue == s.queue[..i] + [s.queue[i]] + s.queue[i + 1..];
  }

  lemma TakeKeepsAccounts<T>(s: State<T>, i: nat, sync: bool)
    requires Accounted(s) && i < |s.queue|
    ensures Accounted(TakeAt(s, i, sync))
  {
    RestOf(s.queue, i);
    TakeConserves(s, i, sync);
  }

  lemma StepKeepsAccounts<T(!new)>(s: State<T>, op: Op<T>)
    requires Accounted(s)
    ensures Accounted(Step(s, op))
  {
    if op.Get? {
      if s.queue != [] { TakeKeepsAccounts(s, Pick(s.queue), op.sync); }
    } else if |s.queue| < s.capacity {
      AppendKeepsAccounts(s, op);
    } else if s.queue != [] {
      DropMakesRoom(s);
      AppendKeepsAccounts(DropOldest(s), op);
    }
  }

  // ---------------------------------------------------------------------------
  // Order, under a clock that does not go back between puts of one priority
  // ---------------------------------------------------------------------------

  ghost predicate InTimeOrder<T>(queue: seq<Entry<T>>) {
    forall i, j :: 0 <= i < j < |queue| && queue[i].priority == queue[j].priority ==> queue[i].at <= queue[j].at
  }

  /** Within a priority, entries were handed out in put order, before those still waiting. */
  ghost predicate FirstInFirstOut<T>(s: State<T>) {
    && (forall i, j :: 0 <= i < j < |s.got| && s.got[i].priority == s.got[j].priority ==>
          s.got[i].serial < s.got[j].serial)
    && (forall i, j :: 0 <= i < |s.got| && 0 <= j < |s.queue| && s.got[i].priority == s.queue[j].priority ==>
          s.got[i].serial < s.queue[j].serial)
  }

  ghost predicate Ordered<T>(s: State<T>) {
    InTimeOrder(s.queue) && FirstInFirstOut(s)
  }

  /** A put is no earlier than the entries of its priority that are waiting. */
  ghost predicate Timely<T>(s: State<T>, op: Op<T>) {
    op.Put? ==> forall i :: 0 <= i < |s.queue| && s.queue[i].priority == op.priority ==> s.queue[i].at <= op.now
  }

  /** What a get takes is the earliest put entry of the highest priority, as the abstract
      priority queue has it, exactly when no other entry of that priority has an earlier
      time. */
  lemma PickIsOldestExactly<T(!new)>(queue: seq<Entry<T>>)
    requires queue != []
    ensures var k := FirstLeast(queue, ByPriority);
            Pick(queue) == k <==>
            forall j :: 0 <= j < |queue| && queue[j].priority == queue[k].priority ==> queue[k].at <= queue[j].at
  {
    OrdersAreTotal<T>();
    FirstLeastIs(queue, ByPriorityThenAge);
    FirstLeastIs(queue, ByPriority);
    var i, k := Pick(queue), FirstLeast(queue, ByPriority);
    assert ByPriority(queue[k], queue[i]) && ByPriorityThenAge(queue[i], queue[k]);
  }

  /** With the entries of each priority in time order the queue refines the abstract priority queue. */
  lemma PickIsOldestOfHighest<T(!new)>(queue: seq<Entry<T>>)
    requires queue != [] && InTimeOrder(queue)
    ensures Pick(queue) == FirstLeast(queue, ByPriority)
  {
    OrdersAreTotal<T>();
    FirstLeastIs(queue, ByPriority);
    var k := FirstLeast(queue, ByPriority);
    assert forall j :: 0 <= j < k ==> !ByPriority(queue[j], queue[k]);
    PickIsOldestExactly(queue);
  }

  /** When the clock steps back, the later put is handed out first. */
  lemma ClockStepBackBreaksFifo<T(!new)>(a: T, b: T)
    ensures var s := Step(Step(Init(2), Op.Put(a, 0, 2.0, false)), Op.Put(b, 0, 1.0, false));
            Step(s, Get(false)).got == [Entry(b, 0, 1.0, 1)]
  {
    var q := [Entry(a, 0, 2.0, 0), Entry(b, 0, 1.0, 1)];
    assert Step(Step(Init(2), Op.Put(a, 0, 2.0, false)), Op.Put(b, 0, 1.0, false)).queue == q;
    OrdersAreTotal<T>();
    FirstLeastIs(q, ByPriorityThenAge);
    assert ByPriorityThenAge(q[Pick(q)], q[1]);
  }

  lemma DropKeepsOrder<T>(s: State<T>)
    requires Ordered(s) && s.queue != []
    ensures Ordered(DropOldest(s))
  {
    var q := DropOldest(s).queue;
    assert forall j :: 0 <= j < |q| ==> q[j] == s.queue[j + 1];
  }

  lemma AppendKeepsOrder<T>(s: State<T>, op: Op<T>)
    requires op.Put? && Timely(s, op) && Ordered(s) && Conserves(s) && SerialsArePositions(s)
    ensures Ordered(Append(s, op))
  {
    forall i | 0 <= i < |s.got| ensures s.got[i].serial < s.enqueued {
      assert s.got[i] in multiset(s.puts);
      assert s.got[i] in s.puts;
    }
  }

  lemma TakeKeepsOrder<T>(s: State<T>, i: nat, sync: bool)
    requires Ordered(s) && SerialsIncrease(s) && i < |s.queue|
    requires forall j :: 0 <= j < i ==> s.queue[j].priority != s.queue[i].priority
    ensures Ordered(TakeAt(s, i, sync))
  {
    RestOf(s.queue, i);
  }

  lemma StepKeepsOrder<T(!new)>(s: State<T>, op: Op<T>)
    requires Accounted(s) && Ordered(s) && Timely(s, op)
    ensures Ordered(Step(s, op))
  {
    if op.Get? {
      if s.queue != [] { GetKeepsOrder(s, op.sync); }
    } else if |s.queue| < s.capacity {
      AppendKeepsOrder(s, op);
    } else if s.queue != [] {
      DropKeepsOrder(s);
      DropMakesRoom(s);
      AppendKeepsOrder(DropOldest(s), op);
    }
  }

  lemma GetKeepsOrder<T(!new)>(s: State<T>, sync: bool)
    requires Accounted(s) && Ordered(s) && s.queue != []
    ensures Ordered(TakeAt(s, Pick(s.queue), sync))
  {
    var i := Pick(s.queue);
    PickIsOldestOfHighest(s.queue);
    OrdersAreTotal<T>();
    FirstLeastIs(s.queue, ByPriority);
    forall j | 0 <= j < i ensures s.queue[j].priority != s.queue[i].priority {
      assert !ByPriority(s.queue[j], s.queue[i]);
    }
    TakeKeepsOrder(s, i, sync);
  }

  // ---------------------------------------------------------------------------
  // Theorems
  // ---------------------------------------------------------------------------

  function Run<T>(s: State<T>, ops: seq<Op<T>>): State<T>
    decreases |ops|
  {
    if ops == [] then s else Step(Run(s, ops[..|ops| - 1]), ops[|ops| - 1])
  }

  lemma {:induction false} RunKeepsAccounts<T(!new)>(capacity: nat, ops: seq<Op<T>>)
    ensures Accounted(Run(Init(capacity), ops)) && Run(Init(capacity), ops).capacity == capacity
    decreases |ops|
  {
    if ops == [] {
    } else {
      RunKeepsAccounts(capacity, ops[..|ops| - 1]);
      StepKeepsAccounts(Run(Init(capacity), ops[..|ops| - 1]), ops[|ops| - 1]);
    }
  }

  /** Put times of one priority do not decrease. */
  ghost predicate Monotone<T>(ops: seq<Op<T>>) {
    forall i, j :: 0 <= i < j < |ops| && ops[i].Put? && ops[j].Put? && ops[i].priority == ops[j].priority ==>
      ops[i].now <= ops[j].now
  }

  lemma {:induction false} WaitingEntriesAreNotNewer<T>(capacity: nat, ops: seq<Op<T>>, priority: int, t: real)
    requires forall k :: 0 <= k < |ops| && ops[k].Put? && ops[k].priority == priority ==> ops[k].now <= t
    ensures forall e :: e in Run(Init(capacity), ops).queue && e.priority == priority ==> e.at <= t
    decreases |ops|
  {
    if ops == [] {
    } else {
      WaitingEntriesAreNotNewer(capacity, ops[..|ops| - 1], priority, t);
    }
  }

  lemma {:induction false} RunKeepsOrder<T(!new)>(capacity: nat, ops: seq<Op<T>>)
    requires Monotone(ops)
    ensures Ordered(Run(Init(capacity), ops))
    decreases |ops|
  {
    if ops == [] {
    } else {
      var before, op := ops[..|ops| - 1], ops[|ops| - 1];
      RunKeepsOrder(capacity, before);
      RunKeepsAccounts(capacity, before);
      if op.Put? {
        WaitingEntriesAreNotNewer(capacity, before, op.priority, op.now);
      }
      StepKeepsOrder(Run(Init(capacity), before), op);
    }
  }

  /** Every run, whatever its clock, keeps the size within the capacity and accounts for
      every put. */
  lemma NothingIsLostSilently<T(!new)>(capacity: nat, ops: seq<Op<T>>)
    ensures var s := Run(Init(capacity), ops);
            && |s.queue| <= capacity
            && s.enqueued == s.dequeued + s.dropped + |s.queue|
            && s.dropped == s.overflowCount
            && multiset(s.puts) == multiset(s.queue) + multiset(s.got) + multiset(s.lost)
  {
    RunKeepsAccounts(capacity, ops);
    var s := Run(Init(capacity), ops);
    assert |multiset(s.puts)| == |s.puts|;
  }

  /** The entries that the puts of a run call for: each with its item, priority and time. */
  function PutsOf<T>(ops: seq<Op<T>>): seq<Entry<T>> {
    if ops == [] then []
    else
      var before, op := PutsOf(ops[..|ops| - 1]), ops[|ops| - 1];
      if op.Put? then before + [Entry(op.item, op.priority, op.now, |before|)] else before
  }

  /** Every put of a run is accounted for, and none else: a queue of positive capacity takes
      all of them, and one of capacity 0 none. */
  lemma {:induction false} PutsAreTheOperations<T(!new)>(capacity: nat, ops: seq<Op<T>>)
    ensures Run(Init(capacity), ops).puts == if capacity > 0 then PutsOf(ops) else []
    decreases |ops|
  {
    if ops == [] {
    } else {
      var before := ops[..|ops| - 1];
      PutsAreTheOperations(capacity, before);
      RunKeepsAccounts(capacity, before);
    }
  }

  /** A put appends its entry at the end, in front of which stand the entries that were
      waiting, without the first one when the queue was full. */
  lemma PutAppends<T(!new)>(capacity: nat, ops: seq<Op<T>>, op: Op<T>)
    requires op.Put? && capacity > 0
    ensures var s, s' := Run(Init(capacity), ops), Run(Init(capacity), ops + [op]);
            && s'.queue != [] && s'.queue[|s'.queue| - 1] == Entry(op.item, op.priority, op.now, |PutsOf(ops)|)
            && s'.queue[..|s'.queue| - 1] == if |s.queue| == capacity then s.queue[1..] else s.queue
  {
    assert (ops + [op])[..|ops|] == ops;
    PutsAreTheOperations(capacity, ops);
    RunKeepsAccounts(capacity, ops);
  }

  /** How many gets of a run found an entry. */
  function Served<T(!new)>(capacity: nat, ops: seq<Op<T>>): nat
    decreases |ops|
  {
    if ops == [] then 0
    else
      var before := ops[..|ops| - 1];
      Served(capacity, before) + if ops[|ops| - 1].Get? && Run(Init(capacity), before).queue != [] then 1 else 0
  }

  /** How many puts of a run found the queue full. */
  function Overflows<T(!new)>(capacity: nat, ops: seq<Op<T>>): nat
    decreases |ops|
  {
    if ops == [] then 0
    else
      var before := ops[..|ops| - 1];
      Overflows(capacity, before)
        + if ops[|ops| - 1].Put? && |Run(Init(capacity), before).queue| == capacity then 1 else 0
  }

  /** The counters of a queue of positive capacity count its puts, the gets that found an
      entry, and the puts that found it full. */
  lemma {:induction false} CountersCountOperations<T(!new)>(capacity: nat, ops: seq<Op<T>>)
    requires capacity > 0
    ensures var s := Run(Init(capacity), ops);
            && s.enqueued == |PutsOf(ops)| && s.dequeued == Served(capacity, ops)
            && s.dropped == Overflows(capacity, ops)
    decreases |ops|
  {
    if ops == [] {
    } else {
      var before := ops[..|ops| - 1];
      CountersCountOperations(capacity, before);
      RunKeepsAccounts(capacity, before);
      StepCounts(Run(Init(capacity), before), ops[|ops| - 1]);
    }
  }

  lemma StepCounts<T(!new)>(s: State<T>, op: Op<T>)
    requires 0 < s.capacity && |s.queue| <= s.capacity
    ensures var s' := Step(s, op);
            && s'.enqueued == s.enqueued + (if op.Put? then 1 else 0)
            && s'.dequeued == s.dequeued + (if op.Get? && s.queue != [] then 1 else 0)
            && s'.dropped == s.dropped + (if op.Put? && |s.queue| == s.capacity then 1 else 0)
  {
  }

  /** A get takes the earliest put entry of the highest priority among those waiting, and so
      each priority is handed out in put order over the whole run. */
  lemma GetsArePriorityThenFifo<T(!new)>(capacity: nat, ops: seq<Op<T>>, i: nat, j: nat)
    requires Monotone(ops)
    ensures var s := Run(Init(capacity), ops);
            s.queue != [] ==> IsFirstLeast(s.queue, Pick(s.queue), ByPriority)
    ensures var s := Run(Init(capacity), ops);
            i < j < |s.got| && s.got[i].priority == s.got[j].priority ==> s.got[i].serial < s.got[j].serial
  {
    RunKeepsOrder(capacity, ops);
    var s := Run(Init(capacity), ops);
    if s.queue != [] {
      PickIsOldestOfHighest(s.queue);
      OrdersAreTotal<T>();
      FirstLeastIs(s.queue, ByPriority);
    }
  }

  /** A dropped entry is followed by at least `capacity` later puts. */
  lemma DroppedEntriesAreOld<T(!new)>(capacity: nat, ops: seq<Op<T>>, i: nat)
    requires i < |Run(Init(capacity), ops).lost|
    ensures var s := Run(Init(capacity), ops);
            var k := s.lost[i].serial;
            && k < |s.puts| && s.puts[k] == s.lost[i]
            && |s.puts| - 1 - k >= capacity
  {
    RunKeepsAccounts(capacity, ops);
    var s := Run(Init(capacity), ops);
    assert s.lost[i] in multiset(s.puts);
    assert s.lost[i] in s.puts;
  }

  /** A sync operation that will fill an empty queue or empty the queue: a put finding no
      entry, a get finding one. */
  predicate Strays<T>(s: State<T>, op: Op<T>) {
    op.sync && if op.Put? then s.queue == [] && s.capacity > 0 else |s.queue| == 1
  }

  /** The event says whether the queue has entries, and an operation keeps that exactly when
      it does not stray. */
  lemma EventFollowsQueue<T(!new)>(s: State<T>, op: Op<T>)
    requires s.event <==> s.queue != []
    ensures (Step(s, op).event <==> Step(s, op).queue != []) <==> !Strays(s, op)
  {
  }

  /** A sync put on a new queue leaves an entry without an event, and a sync get after an
      async put leaves an event without an entry. */
  lemma SyncOperationsStray<T(!new)>(capacity: nat, item: T)
    requires capacity > 0
    ensures var s := Step(Init(capacity), Op.Put(item, 0, 0.0, true)); s.queue != [] && !s.event
    ensures var s := Step(Step(Init(capacity), Op.Put(item, 0, 0.0, false)), Get(true)); s.queue == [] && s.event
  {
    var s := Step(Init(capacity), Op.Put(item, 0, 0.0, false));
    assert s.queue == [Entry(item, 0, 0.0, 0)] && s.event;
    RestOf(s.queue, Pick(s.queue));
  }

  /** Over the async operations alone the event is set exactly when the queue has entries. */
  lemma {:induction false} EventFollowsQueueInAsyncRuns<T(!new)>(capacity: nat, ops: seq<Op<T>>)
    requires forall i :: 0 <= i < |ops| ==> !ops[i].sync
    ensures var s := Run(Init(capacity), ops); s.event <==> s.queue != []
    decreases |ops|
  {
    if ops == [] {
    } else {
      EventFollowsQueueInAsyncRuns(capacity, ops[..|ops| - 1]);
      EventFollowsQueue(Run(Init(capacity), ops[..|ops| - 1]), ops[|ops| - 1]);
    }
  }
}
