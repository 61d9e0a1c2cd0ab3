/** Acknowledgement tracking (core/ack.py): trackers, incoming ACKs, and the monitor tick
    that can be interrupted while its timeout callback is awaited.

    Tracker objects are numbered in creation order and never leave `trackers`, so that the
    snapshot a tick works on and the dictionary can refer to the same object or to different
    ones for the same message. `calls` and `ticks` are history: the retry numbers given to
    the timeout callback, and the completed ticks whose snapshot held the tracker when it
    was past its timeout. */
module AckTracker {
  import opened Wrappers

  type MsgId = string

  const DEFAULT_TIMEOUT := 60
  const FAILED_KEPT := 300.0

  datatype Status = Pending | Acknowledged | Failed

  datatype Tracker = Tracker(id: MsgId, priority: int, status: Status, sentAt: real, retries: nat,
                             calls: seq<nat>, ticks: nat)

  datatype Tick = Tick(now: real, snapshot: seq<nat>, next: nat, timedOut: seq<MsgId>)

  datatype State = State(maxRetries: nat, tracked: map<MsgId, nat>, trackers: seq<Tracker>, tick: Option<Tick>)

  function Init(maxRetries: nat): State {
    State(maxRetries, map[], [], None)
  }

  function Timeout(priority: int): int {
    match priority
    case 10 => 5
    case 9 => 10
    case 8 => 15
    case 7 => 20
    case 6 => 30
    case 5 => 45
    case 4 => 60
    case 3 => 90
    case 2 => 120
    case 1 => 300
    case _ => DEFAULT_TIMEOUT
  }

  predicate Late(t: Tracker, now: real) {
    now - t.sentAt > Timeout(t.priority) as real
  }

  datatype Event =
    | Track(id: MsgId, priority: int, now: real)
    | Ack(id: MsgId)
    | TickBegins(now: real, order: seq<nat>)
    | TickVisits
    | TickEnds
    | TickAborts

  /** A snapshot lists the trackers of the dictionary, each once. */
  ghost predicate SnapshotOf(order: seq<nat>, tracked: map<MsgId, nat>) {
    && (forall i, j :: 0 <= i < j < |order| ==> order[i] != order[j])
    && (forall n :: n in order <==> n in tracked.Values)
  }

  ghost predicate Enabled(s: State, e: Event) {
    match e
    case TickBegins(_, order) => s.tick.None? && SnapshotOf(order, s.tracked)
    case TickVisits => s.tick.Some? && s.tick.value.next < |s.tick.value.snapshot|
                       && s.tick.value.snapshot[s.tick.value.next] < |s.trackers|
    case TickEnds => s.tick.Some? && s.tick.value.next == |s.tick.value.snapshot|
    case TickAborts => s.tick.Some?
    case _ => true
  }

  /** One entry of the snapshot: a late pending tracker is retried or gives up. */
  function Visited(t: Tracker, now: real, maxRetries: nat): Tracker {
    if !(Late(t, now) && t.status.Pending?) then t
    else if t.retries + 1 >= maxRetries then t.(retries := t.retries + 1, status := Failed)
    else t.(retries := t.retries + 1, calls := t.calls + [t.retries + 1])
  }

  function GaveUp(before: Tracker, after: Tracker): bool {
    before.status.Pending? && after.status.Failed?
  }

  /** Entries dropped when a tick completes: failed in this tick and old enough. */
  predicate Expired(s: State, k: Tick, id: MsgId) {
    && id in k.timedOut && id in s.tracked && s.tracked[id] < |s.trackers|
    && var t := s.trackers[s.tracked[id]];
       t.status.Failed? && t.sentAt != 0.0 && k.now - t.sentAt > FAILED_KEPT
  }

  function AfterTick(s: State, k: Tick): State {
    s.(tick := None,
       tracked := map id | id in s.tracked && !Expired(s, k, id) :: s.tracked[id],
       trackers := seq(|s.trackers|, (n: nat) requires n < |s.trackers| =>
         if n in k.snapshot && Late(s.trackers[n], k.now)
         then s.trackers[n].(ticks := s.trackers[n].ticks + 1) else s.trackers[n]))
  }

  ghost function Step(s: State, e: Event): State
    requires Enabled(s, e)
  {
    match e
    case Track(id, priority, now) =>
      s.(trackers := s.trackers + [Tracker(id, priority, Pending, now, 0, [], 0)],
         tracked := s.tracked[id := |s.trackers|])
    case Ack(id) =>
      if id == "" || id !in s.tracked || s.tracked[id] >= |s.trackers| then s
      else s.(trackers := s.trackers[s.tracked[id] := s.trackers[s.tracked[id]].(status := Acknowledged)],
              tracked := s.tracked - {id})
    case TickBegins(now, order) => s.(tick := Some(Tick(now, order, 0, [])))
    case TickVisits =>
      var k := s.tick.value;
      var n := k.snapshot[k.next];
      var t := Visited(s.trackers[n], k.now, s.maxRetries);
      s.(trackers := s.trackers[n := t],
         tick := Some(k.(next := k.next + 1,
                         timedOut := if GaveUp(s.trackers[n], t) then k.timedOut + [t.id] else k.timedOut)))
    case TickEnds => AfterTick(s, s.tick.value)
    case TickAborts => s.(tick := None)
  }

  // ---------------------------------------------------------------------------
  // Invariants
  // ---------------------------------------------------------------------------

  /** The numbers 1 .. n. */
  function OneTo(n: nat): seq<nat> {
    seq(n, (i: nat) => i + 1)
  }

  /** What holds of every tracker object, mapped or not. */
  ghost predicate TrackerOk(t: Tracker, maxRetries: nat) {
    && maxRetries >= 1
    && (t.status.Pending? ==> t.retries < maxRetries)
    && (t.status.Failed? ==> t.retries == maxRetries)
    && t.retries <= maxRetries
    && t.calls == OneTo(if t.retries < maxRetries then t.retries else maxRetries - 1)
  }

  /** The current tick has dealt with tracker `n`, which was late. */
  predicate DealtWith(s: State, n: nat) {
    s.tick.Some? && s.tick.value.next <= |s.tick.value.snapshot| && n < |s.trackers|
    && n in s.tick.value.snapshot[..s.tick.value.next] && Late(s.trackers[n], s.tick.value.now)
  }

  /** A pending tracker was retried in every completed tick that found it late. */
  ghost predicate TicksOk(s: State, n: nat) {
    n < |s.trackers| && s.trackers[n].status.Pending? ==>
      s.trackers[n].ticks + (if DealtWith(s, n) then 1 else 0) <= s.trackers[n].retries
  }

  ghost predicate TrackersOk(s: State) {
    forall n :: 0 <= n < |s.trackers| ==> TrackerOk(s.trackers[n], s.maxRetries)
  }

  /** The dictionary maps a message to a tracker of that message that is not acknowledged. */
  ghost predicate TrackedOk(s: State) {
    forall id :: id in s.tracked ==>
      && s.tracked[id] < |s.trackers| && s.trackers[s.tracked[id]].id == id
      && !s.trackers[s.tracked[id]].status.Acknowledged?
  }

  ghost predicate TickOk(s: State) {
    s.tick.Some? ==>
      var k := s.tick.value;
      && k.next <= |k.snapshot|
      && (forall i :: 0 <= i < |k.snapshot| ==> k.snapshot[i] < |s.trackers|)
      && (forall i, j :: 0 <= i < j < |k.snapshot| ==> k.snapshot[i] != k.snapshot[j])
  }

  ghost predicate Inv(s: State) {
    && s.maxRetries >= 1
    && TrackersOk(s) && TrackedOk(s) && TickOk(s)
    && (forall n :: TicksOk(s, n))
  }

  lemma StepKeepsTicks(s: State, e: Event, n: nat)
    requires Enabled(s, e) && TicksOk(s, n) && TickOk(s)
    ensures TicksOk(Step(s, e), n)
  {
    match e
    case TickVisits =>
      var k := s.tick.value;
      assert k.snapshot[..k.next + 1] == k.snapshot[..k.next] + [k.snapshot[k.next]];
    case TickEnds => assert s.tick.value.snapshot[..s.tick.value.next] == s.tick.value.snapshot;
    case Track(_, _, _) =>
    case Ack(_) =>
    case TickBegins(_, _) =>
    case TickAborts =>
  }

  lemma VisitKeepsTrackerOk(t: Tracker, now: real, maxRetries: nat)
    requires maxRetries >= 1 && TrackerOk(t, maxRetries)
    ensures TrackerOk(Visited(t, now, maxRetries), maxRetries)
  {
  }

  lemma StepKeepsTrackers(s: State, e: Event)
    requires Enabled(s, e) && TrackersOk(s) && s.maxRetries >= 1
    ensures TrackersOk(Step(s, e))
  {
    if e.TickVisits? {
      VisitKeepsTrackerOk(s.trackers[s.tick.value.snapshot[s.tick.value.next]], s.tick.value.now, s.maxRetries);
    }
  }

  lemma StepKeepsTracked(s: State, e: Event)
    requires Enabled(s, e) && TrackedOk(s)
    ensures TrackedOk(Step(s, e))
  {
  }

  lemma StepKeepsTick(s: State, e: Event)
    requires Enabled(s, e) && TickOk(s) && TrackedOk(s)
    ensures TickOk(Step(s, e))
  {
    if e.TickBegins? {
      forall i | 0 <= i < |e.order| ensures e.order[i] < |s.trackers| {
        assert e.order[i] in s.tracked.Values;
      }
    }
  }

  lemma StepKeepsInv(s: State, e: Event)
    requires Enabled(s, e) && Inv(s)
    ensures Inv(Step(s, e))
  {
    StepKeepsTrackers(s, e);
    StepKeepsTracked(s, e);
    StepKeepsTick(s, e);
    forall n ensures TicksOk(Step(s, e), n) {
      assert TicksOk(s, n);
      StepKeepsTicks(s, e, n);
    }
  }

  // ---------------------------------------------------------------------------
  // The manager as the source writes it
  // ---------------------------------------------------------------------------

  class AckManager {
    const maxRetries: nat
    var tracked: map<MsgId, nat>
    var trackers: seq<Tracker>
    var tick: Option<Tick>

    function Abs(): State
      reads this
    {
      State(maxRetries, tracked, trackers, tick)
    }

    constructor (maxRetries: nat)
      ensures Abs() == Init(maxRetries)
    {
      this.maxRetries := maxRetries;
      tracked, trackers, tick := map[], [], None;
    }

    method Track(id: MsgId, priority: int, now: real)
      modifies this
      ensures Abs() == Step(old(Abs()), Event.Track(id, priority, now))
    {
      var n := |trackers|;
      trackers := trackers + [Tracker(id, priority, Pending, now, 0, [], 0)];
      tracked := tracked[id := n];
    }

    /** Returns the tracker that was acknowledged, if the message was known. */
    method ProcessAck(id: MsgId) returns (n: Option<nat>)
      requires Inv(Abs())
      modifies this
      ensures Abs() == Step(old(Abs()), Ack(id))
      ensures n == if id == "" then None else Lookup(old(tracked), id)
    {
      if id == "" || id !in tracked {
        return None;
      }
      n := Some(tracked[id]);
      trackers := trackers[n.value := trackers[n.value].(status := Acknowledged)];
      tracked := tracked - {id};
    }

    /** The monitor wakes up and copies the dictionary's items. */
    method MonitorWakes(now: real, order: seq<nat>)
      requires Enabled(Abs(), TickBegins(now, order))
      modifies this
      ensures Abs() == Step(old(Abs()), TickBegins(now, order))
    {
      tick := Some(Tick(now, order, 0, []));
    }

    /** One turn of the loop over the snapshot, up to the await of the callback; `retry` is
        the number the callback is given. */
    method MonitorVisits() returns (retry: Option<nat>)
      requires Enabled(Abs(), TickVisits)
      modifies this
      ensures Abs() == Step(old(Abs()), TickVisits)
      ensures var k := old(tick).value;
              var before, after := old(trackers)[k.snapshot[k.next]], trackers[k.snapshot[k.next]];
              after.calls == if retry.Some? then before.calls + [retry.value] else before.calls
    {
      var k := tick.value;
      var n := k.snapshot[k.next];
      var t := trackers[n];
      var timedOut := k.timedOut;
      retry := None;
      if k.now - t.sentAt > Timeout(t.priority) as real && t.status.Pending? {
        t := t.(retries := t.retries + 1);
        if t.retries >= maxRetries {
          t := t.(status := Failed);
          timedOut := timedOut + [t.id];
        } else {
          retry := Some(t.retries);
          t := t.(calls := t.calls + [t.retries]);
        }
      }
      trackers := trackers[n := t];
      tick := Some(k.(next := k.next + 1, timedOut := timedOut));
    }

    /** The clean-up at the end of a tick. */
    method MonitorCleansUp()
      requires Enabled(Abs(), TickEnds)
      modifies this
      ensures Abs() == Step(old(Abs()), TickEnds)
    {
      var k := tick.value;
      ghost var s := Abs();
      for i := 0 to |k.timedOut|
        modifies this`tracked
        invariant tracked == map id | id in s.tracked && !(id in k.timedOut[..i] && Expired(s, k, id)) :: s.tracked[id]
      {
        var id := k.timedOut[i];
        assert k.timedOut[..i + 1] == k.timedOut[..i] + [id];
        if id in tracked && tracked[id] < |trackers| {
          var t := trackers[tracked[id]];
          if t.status.Failed? && t.sentAt != 0.0 && k.now - t.sentAt > FAILED_KEPT {
            tracked := tracked - {id};
          }
        }
      }
      assert k.timedOut[..|k.timedOut|] == k.timedOut;
      trackers := AfterTick(Abs(), k).trackers;
      tick := None;
    }

    /** `get_stats`: one pass over the trackers for each status. */
    method GetStats() returns (pending: nat, acknowledged: nat, failed: nat, total: nat)
      requires Inv(Abs())
      ensures pending == |WithStatus(Abs(), Pending)| && failed == |WithStatus(Abs(), Failed)|
      ensures acknowledged == 0 && pending + failed == total == |tracked|
    {
      pending := CountStatus(Pending);
      acknowledged := CountStatus(Acknowledged);
      failed := CountStatus(Failed);
      total := |tracked|;
      StatsAddUp(Abs());
    }

    method CountStatus(status: Status) returns (count: nat)
      requires Indexed(Abs())
      ensures count == |WithStatus(Abs(), status)|
    {
      var rest := tracked.Keys;
      count := 0;
      ghost var s, seen: set<MsgId> := Abs(), {};
      while rest != {}
        invariant rest !! seen && rest + seen == tracked.Keys
        invariant count == |StatusAmong(s, seen, status)|
        decreases rest
      {
        var id :| id in rest;
        StatusAmongOneMore(s, seen, id, status);
        if trackers[tracked[id]].status == status {
          count := count + 1;
        }
        rest, seen := rest - {id}, seen + {id};
      }
      assert seen == tracked.Keys;
    }

    /** The callback raised: the rest of the tick is skipped. */
    method MonitorAborts()
      requires Enabled(Abs(), TickAborts)
      modifies this
      ensures Abs() == Step(old(Abs()), TickAborts)
    {
      tick := None;
    }
  }

  // ---------------------------------------------------------------------------
  // Theorems
  // ---------------------------------------------------------------------------

  ghost predicate Indexed(s: State) {
    forall id :: id in s.tracked ==> s.tracked[id] < |s.trackers|
  }

  /** The messages among `ids` whose tracker has the given status. */
  ghost function StatusAmong(s: State, ids: set<MsgId>, status: Status): set<MsgId>
    requires Indexed(s)
  {
    set id | id in ids && id in s.tracked && s.trackers[s.tracked[id]].status == status
  }

  lemma StatusAmongOneMore(s: State, ids: set<MsgId>, id: MsgId, status: Status)
    requires Indexed(s) && id in s.tracked && id !in ids
    ensures |StatusAmong(s, ids + {id}, status)|
         == |StatusAmong(s, ids, status)| + if s.trackers[s.tracked[id]].status == status then 1 else 0
  {
    assert StatusAmong(s, ids + {id}, status)
        == StatusAmong(s, ids, status) + if s.trackers[s.tracked[id]].status == status then {id} else {};
  }

  ghost function WithStatus(s: State, status: Status): set<MsgId>
    requires Indexed(s)
  {
    StatusAmong(s, s.tracked.Keys, status)
  }

  /** Every tracked message is pending or failed. */
  lemma StatsAddUp(s: State)
    requires Inv(s)
    ensures WithStatus(s, Acknowledged) == {}
    ensures |WithStatus(s, Pending)| + |WithStatus(s, Failed)| == |s.tracked|
  {
    var p, f := WithStatus(s, Pending), WithStatus(s, Failed);
    forall id | id in s.tracked ensures id in p + f {
      assert !s.trackers[s.tracked[id]].status.Acknowledged?;
    }
    assert p + f == s.tracked.Keys && p !! f;
  }

  /** The state after a sequence of events; None when some event was not possible. */
  ghost function Run(maxRetries: nat, es: seq<Event>): Option<State> {
    if es == [] then Some(Init(maxRetries))
    else
      match Run(maxRetries, es[..|es| - 1])
      case None => None
      case Some(s) =>
        var e := es[|es| - 1];
        if Enabled(s, e) then Some(Step(s, e)) else None
  }

  lemma {:induction false} RunKeepsInv(maxRetries: nat, es: seq<Event>)
    requires maxRetries >= 1 && Run(maxRetries, es).Some?
    ensures Inv(Run(maxRetries, es).value) && Run(maxRetries, es).value.maxRetries == maxRetries
  {
    if es == [] {
    } else {
      RunKeepsInv(maxRetries, es[..|es| - 1]);
      StepKeepsInv(Run(maxRetries, es[..|es| - 1]).value, es[|es| - 1]);
    }
  }

  /** Under any interleaving, a tracked message is pending with retries to go or failed with
      none left, and the statistics add up. */
  lemma TrackedMessagesArePendingOrFailed(maxRetries: nat, es: seq<Event>, id: MsgId)
    requires maxRetries >= 1 && Run(maxRetries, es).Some?
    requires id in Run(maxRetries, es).value.tracked
    ensures var s := Run(maxRetries, es).value;
            && s.tracked[id] < |s.trackers|
            && var t := s.trackers[s.tracked[id]];
               && t.id == id
               && ((t.status.Pending? && t.retries < maxRetries) || (t.status.Failed? && t.retries == maxRetries))
  {
    RunKeepsInv(maxRetries, es);
  }

  /** The callbacks of a tracker carry the numbers 1, 2, ... in order, below the maximum. */
  lemma CallbacksCountUp(maxRetries: nat, es: seq<Event>, n: nat)
    requires maxRetries >= 1 && Run(maxRetries, es).Some?
    requires n < |Run(maxRetries, es).value.trackers|
    ensures var calls := Run(maxRetries, es).value.trackers[n].calls;
            |calls| < maxRetries && forall i :: 0 <= i < |calls| ==> calls[i] == i + 1
  {
    RunKeepsInv(maxRetries, es);
    assert TrackerOk(Run(maxRetries, es).value.trackers[n], maxRetries);
  }

  /** The timeouts fall with the priority, from five minutes at 1 to five seconds at 10; other
      priorities wait a minute. */
  lemma UrgentMessagesTimeOutSooner(p: int, q: int)
    ensures 1 <= p < q <= 10 ==> Timeout(p) > Timeout(q)
    ensures [Timeout(1), Timeout(2), Timeout(3), Timeout(4), Timeout(5)] == [300, 120, 90, 60, 45]
    ensures [Timeout(6), Timeout(7), Timeout(8), Timeout(9), Timeout(10)] == [30, 20, 15, 10, 5]
    ensures !(1 <= p <= 10) ==> Timeout(p) == 60
  {
  }

  function Tracks(es: seq<Event>): seq<Event> {
    if es == [] then []
    else Tracks(es[..|es| - 1]) + if es[|es| - 1].Track? then [es[|es| - 1]] else []
  }

  /** In every run the trackers are the tracked messages, in order, with their priorities and
      times; and a message is mapped to the last of its trackers. */
  lemma {:induction false} TrackersAreTracks(maxRetries: nat, es: seq<Event>)
    requires Run(maxRetries, es).Some?
    ensures var s := Run(maxRetries, es).value;
            && |s.trackers| == |Tracks(es)|
            && (forall n :: 0 <= n < |s.trackers| ==>
                  && Tracks(es)[n].Track? && s.trackers[n].id == Tracks(es)[n].id
                  && s.trackers[n].priority == Tracks(es)[n].priority && s.trackers[n].sentAt == Tracks(es)[n].now)
            && (forall id, n :: id in s.tracked && s.tracked[id] < n < |s.trackers| ==> s.trackers[n].id != id)
  {
    if es == [] {
    } else {
      TrackersAreTracks(maxRetries, es[..|es| - 1]);
    }
  }

  /** The next entry of the running tick is tracker `n`, pending and past its timeout. */
  ghost predicate VisitsLate(s: State, n: nat) {
    && s.tick.Some? && s.tick.value.next < |s.tick.value.snapshot|
    && s.tick.value.snapshot[s.tick.value.next] == n && n < |s.trackers|
    && s.trackers[n].status.Pending?
    && s.tick.value.now - s.trackers[n].sentAt > Timeout(s.trackers[n].priority) as real
  }

  /** How often a tick of the run came to tracker `n` and found it pending and late. */
  ghost function LateVisits(maxRetries: nat, es: seq<Event>, n: nat): nat
    requires Run(maxRetries, es).Some?
  {
    if es == [] then 0
    else
      var before := es[..|es| - 1];
      LateVisits(maxRetries, before, n)
        + if es[|es| - 1].TickVisits? && VisitsLate(Run(maxRetries, before).value, n) then 1 else 0
  }

  /** A tracker's retries are exactly those visits. */
  lemma {:induction false} RetriesCountLateVisits(maxRetries: nat, es: seq<Event>, n: nat)
    requires Run(maxRetries, es).Some?
    ensures var s := Run(maxRetries, es).value;
            LateVisits(maxRetries, es, n) == if n < |s.trackers| then s.trackers[n].retries else 0
  {
    if es == [] {
    } else {
      RetriesCountLateVisits(maxRetries, es[..|es| - 1], n);
    }
  }

  /** The running tick has tracker `n` in its snapshot, past its timeout. */
  ghost predicate EndsLate(s: State, n: nat) {
    && s.tick.Some? && n in s.tick.value.snapshot && n < |s.trackers|
    && s.tick.value.now - s.trackers[n].sentAt > Timeout(s.trackers[n].priority) as real
  }

  /** How many completed ticks of the run had tracker `n` past its timeout. */
  ghost function LateTicks(maxRetries: nat, es: seq<Event>, n: nat): nat
    requires Run(maxRetries, es).Some?
  {
    if es == [] then 0
    else
      var before := es[..|es| - 1];
      LateTicks(maxRetries, before, n)
        + if es[|es| - 1].TickEnds? && EndsLate(Run(maxRetries, before).value, n) then 1 else 0
  }

  lemma {:induction false} TicksCountLateTicks(maxRetries: nat, es: seq<Event>, n: nat)
    requires Run(maxRetries, es).Some?
    ensures var s := Run(maxRetries, es).value;
            LateTicks(maxRetries, es, n) == if n < |s.trackers| then s.trackers[n].ticks else 0
  {
    if es == [] {
    } else {
      TicksCountLateTicks(maxRetries, es[..|es| - 1], n);
    }
  }

  /** A tracker that was late in as many completed ticks as there are retries is settled. */
  lemma LateTrackersSettle(maxRetries: nat, es: seq<Event>, n: nat)
    requires maxRetries >= 1 && Run(maxRetries, es).Some?
    requires n < |Run(maxRetries, es).value.trackers|
    ensures LateTicks(maxRetries, es, n) >= maxRetries ==> !Run(maxRetries, es).value.trackers[n].status.Pending?
  {
    RunKeepsInv(maxRetries, es);
    TicksCountLateTicks(maxRetries, es, n);
    assert TicksOk(Run(maxRetries, es).value, n);
    assert TrackerOk(Run(maxRetries, es).value.trackers[n], maxRetries);
  }

  // ---------------------------------------------------------------------------
  // An ACK ends the retries
  // ---------------------------------------------------------------------------

  lemma StepKeepsAcknowledged(s: State, e: Event, n: nat)
    requires Enabled(s, e) && n < |s.trackers| && s.trackers[n].status.Acknowledged?
    ensures var s' := Step(s, e);
            && n < |s'.trackers| && s'.trackers[n].status.Acknowledged?
            && s'.trackers[n].calls == s.trackers[n].calls && s'.trackers[n].retries == s.trackers[n].retries
  {
  }

  lemma {:induction false} AcknowledgedStays(s: State, es: seq<Event>, n: nat)
    requires RunFrom(s, es).Some? && n < |s.trackers| && s.trackers[n].status.Acknowledged?
    ensures var s' := RunFrom(s, es).value;
            && n < |s'.trackers| && s'.trackers[n].status.Acknowledged?
            && s'.trackers[n].calls == s.trackers[n].calls && s'.trackers[n].retries == s.trackers[n].retries
    decreases |es|
  {
    if es == [] {
    } else {
      StepKeepsAcknowledged(s, es[0], n);
      AcknowledgedStays(Step(s, es[0]), es[1..], n);
    }
  }

  /** After an ACK the tracker of the message is never retried or given up again, not even by
      a tick that has it in its snapshot; and the message is no longer tracked. */
  lemma AckStopsRetries(s: State, id: MsgId, es: seq<Event>)
    requires id != "" && id in s.tracked && s.tracked[id] < |s.trackers|
    requires RunFrom(Step(s, Ack(id)), es).Some?
    ensures var n := s.tracked[id];
            var s' := RunFrom(Step(s, Ack(id)), es).value;
            && n < |s'.trackers| && s'.trackers[n].status.Acknowledged?
            && s'.trackers[n].calls == s.trackers[n].calls && s'.trackers[n].retries == s.trackers[n].retries
    ensures Step(s, Ack(id)).tracked == s.tracked - {id}
  {
    AcknowledgedStays(Step(s, Ack(id)), es, s.tracked[id]);
  }

  // ---------------------------------------------------------------------------
  // Failed entries are not cleaned up later
  // ---------------------------------------------------------------------------

  /** The message failed in an earlier tick than the current one. */
  ghost predicate FailedBefore(s: State, id: MsgId) {
    && Inv(s) && id in s.tracked && s.trackers[s.tracked[id]].status.Failed?
    && (s.tick.Some? ==>
          && id !in s.tick.value.timedOut
          && forall n :: n in s.tick.value.snapshot && s.trackers[n].id == id ==> n == s.tracked[id])
  }

  /** An event about the message itself. */
  predicate Concerns(e: Event, id: MsgId) {
    (e.Track? || e.Ack?) && e.id == id
  }

  lemma StepKeepsFailed(s: State, e: Event, id: MsgId)
    requires FailedBefore(s, id) && Enabled(s, e) && !Concerns(e, id)
    ensures FailedBefore(Step(s, e), id)
  {
    StepKeepsInv(s, e);
    match e
    case TickBegins(_, order) =>
      forall n | n in order && s.trackers[n].id == id ensures n == s.tracked[id] {
        assert n in s.tracked.Values;
      }
    case TickVisits =>
      var n := s.tick.value.snapshot[s.tick.value.next];
      assert n in s.tick.value.snapshot;
    case TickEnds =>
    case _ =>
  }

  ghost function RunFrom(s: State, es: seq<Event>): Option<State>
    decreases |es|
  {
    if es == [] then Some(s)
    else if Enabled(s, es[0]) then RunFrom(Step(s, es[0]), es[1..])
    else None
  }

  /** An entry that failed and outlived that tick stays in the dictionary, however many ticks
      follow and however old it gets, until the same message is acknowledged or tracked
      again. */
  lemma {:induction false} FailedEntriesStay(s: State, es: seq<Event>, id: MsgId)
    requires FailedBefore(s, id) && RunFrom(s, es).Some?
    requires forall i :: 0 <= i < |es| ==> !Concerns(es[i], id)
    ensures FailedBefore(RunFrom(s, es).value, id)
    decreases |es|
  {
    if es == [] {
    } else {
      StepKeepsFailed(s, es[0], id);
      FailedEntriesStay(Step(s, es[0]), es[1..], id);
    }
  }

  /** A message that is not tracked stays so until it is tracked again. */
  lemma {:induction false} UntrackedStays(s: State, es: seq<Event>, id: MsgId)
    requires id !in s.tracked && RunFrom(s, es).Some?
    requires forall i :: 0 <= i < |es| ==> !Concerns(es[i], id)
    ensures id !in RunFrom(s, es).value.tracked
    decreases |es|
  {
    if es == [] {
    } else {
      UntrackedStays(Step(s, es[0]), es[1..], id);
    }
  }

  /** The end of a tick removes a failed entry: one that failed in this very tick, at an age
      of more than five minutes, when the callbacks of the tick let it come to its end. */
  predicate Removes(s: State, e: Event, id: MsgId)
    requires id in s.tracked && s.tracked[id] < |s.trackers|
  {
    && e.TickEnds? && s.tick.Some? && id in s.tick.value.timedOut
    && var sentAt := s.trackers[s.tracked[id]].sentAt;
       sentAt != 0.0 && s.tick.value.now - sentAt > 300.0
  }

  lemma TickSettlesFailures(s: State, e: Event, id: MsgId)
    requires Inv(s) && (e.TickEnds? || e.TickAborts?) && Enabled(s, e)
    requires id in s.tracked && s.trackers[s.tracked[id]].status.Failed?
    ensures id in Step(s, e).tracked <==> !Removes(s, e, id)
    ensures !Removes(s, e, id) ==> FailedBefore(Step(s, e), id)
  {
    StepKeepsInv(s, e);
  }

  /** Whatever happens after the tick in which a message failed, it is still tracked if and
      only if that tick did not remove it: no later tick does. */
  lemma FailedEntriesAreRemovedExactly(s: State, e: Event, es: seq<Event>, id: MsgId)
    requires Inv(s) && (e.TickEnds? || e.TickAborts?) && Enabled(s, e)
    requires id in s.tracked && s.trackers[s.tracked[id]].status.Failed?
    requires RunFrom(Step(s, e), es).Some?
    requires forall i :: 0 <= i < |es| ==> !Concerns(es[i], id)
    ensures id in RunFrom(Step(s, e), es).value.tracked <==> !Removes(s, e, id)
  {
    TickSettlesFailures(s, e, id);
    if Removes(s, e, id) {
      UntrackedStays(Step(s, e), es, id);
    } else {
      FailedEntriesStay(Step(s, e), es, id);
    }
  }

  lemma RunOfAppend(maxRetries: nat, es: seq<Event>, s: State, e: Event, s': State)
    requires Run(maxRetries, es) == Some(s) && Enabled(s, e) && Step(s, e) == s'
    ensures Run(maxRetries, es + [e]) == Some(s')
  {
    assert (es + [e])[..|es|] == es;
  }

  /** A message of priority 10, sent at 1 and failed at 11. */
  function FailedAtTen(id: MsgId, ticks: nat): State {
    State(1, map[id := 0], [Tracker(id, 10, Failed, 1.0, 1, [], ticks)], None)
  }

  lemma FailsAtTen(id: MsgId) returns (es: seq<Event>)
    ensures |es| == 4 && Run(1, es) == Some(FailedAtTen(id, 1))
  {
    var t := Tracker(id, 10, Pending, 1.0, 0, [], 0);
    var s1 := State(1, map[id := 0], [t], None);
    var s2 := s1.(tick := Some(Tick(11.0, [0], 0, [])));
    var s3 := FailedAtTen(id, 0).(tick := Some(Tick(11.0, [0], 1, [id])));
    RunOfAppend(1, [], Init(1), Track(id, 10, 1.0), s1);
    es := [] + [Track(id, 10, 1.0)];
    assert s1.tracked[id] in s1.tracked.Values;
    RunOfAppend(1, es, s1, TickBegins(11.0, [0]), s2);
    es := es + [TickBegins(11.0, [0])];
    assert Visited(t, 11.0, 1) == FailedAtTen(id, 0).trackers[0];
    assert Step(s2, TickVisits).trackers == s3.trackers;
    assert Step(s2, TickVisits).tick.value.timedOut == [] + [id] == [id];
    RunOfAppend(1, es, s2, TickVisits, s3);
    es := es + [TickVisits];
    RunOfAppend(1, es, s3, TickEnds, FailedAtTen(id, 1));
    es := es + [TickEnds];
  }

  /** It is still tracked after a tick that finds it more than a quarter of an hour old. */
  lemma FailedEntryOutlivesFiveMinutes(id: MsgId) returns (es: seq<Event>)
    ensures |es| == 7 && es[4..] == [TickBegins(1000.0, [0]), TickVisits, TickEnds]
    ensures Run(1, es) == Some(FailedAtTen(id, 2))
  {
    es := FailsAtTen(id);
    var s := FailedAtTen(id, 1);
    var s1 := s.(tick := Some(Tick(1000.0, [0], 0, [])));
    var s2 := s.(tick := Some(Tick(1000.0, [0], 1, [])));
    assert s.tracked[id] in s.tracked.Values;
    RunOfAppend(1, es, s, TickBegins(1000.0, [0]), s1);
    es := es + [TickBegins(1000.0, [0])];
    RunOfAppend(1, es, s1, TickVisits, s2);
    es := es + [TickVisits];
    RunOfAppend(1, es, s2, TickEnds, FailedAtTen(id, 2));
    es := es + [TickEnds];
  }
}
