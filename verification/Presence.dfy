/** Peer presence (node.py): grace tasks, the two debounce tables and the set of peers
    that were announced offline.

    The asyncio event loop is part of the state: a grace task is created, starts its
    sleep, expires, sends, finishes, or gets its cancellation delivered, each as one
    atomic step. Steps of different tasks and of the two connection callbacks interleave
    freely, under a clock that never goes back. */
module Presence {
  import opened Wrappers

  const GRACE_SECONDS := 30.0
  const OFFLINE_DEBOUNCE := 60.0
  const ONLINE_DEBOUNCE := 30.0

  type Peer = string

  datatype Phase = Created | Sleeping(since: real) | Sending

  /** `armed` is the position in the journal of the disconnect that created the grace task. */
  datatype Task = Task(peer: Peer, phase: Phase, cancelled: bool, armed: nat) {
    predicate Live() { !cancelled }
    predicate Waiting() { !cancelled && !phase.Sending? }
  }

  /** What happened to a peer, in order. `Suppressed` marks the branch that forgets an
      offline peer without announcing it online. */
  datatype Mark =
    | Connected(peer: Peer, at: real)
    | Disconnected(peer: Peer, at: real)
    | OfflineSent(peer: Peer, at: real)
    | OnlineSent(peer: Peer, at: real)
    | Suppressed(peer: Peer, at: real)
    | DebounceDropped(peer: Peer, at: real)

  datatype State = State(
    graceTasks: map<Peer, nat>,
    offlineDebounce: map<Peer, real>,
    onlineDebounce: map<Peer, real>,
    offlineBroadcasted: set<Peer>,
    tasks: map<nat, Task>,
    nextTask: nat,
    clock: real,
    journal: seq<Mark>)

  const Init := State(map[], map[], map[], {}, map[], 0, 0.0, [])

  datatype Event =
    | Connect(peer: Peer, now: real)
    | Disconnect(peer: Peer, now: real)
    | Start(task: nat, now: real)
    | Expire(task: nat, now: real, linkActive: bool)
    | Finish(task: nat, now: real)
    | Deliver(task: nat, now: real)

  /** What the event loop can do next: time does not go back, a sleep lasts at least the
      grace period, and a task whose cancellation was requested only receives it. */
  predicate Enabled(s: State, e: Event) {
    && s.clock <= e.now
    && match e
       case Connect(_, _) => true
       case Disconnect(_, _) => true
       case Start(t, _) => t in s.tasks && s.tasks[t].Live() && s.tasks[t].phase.Created?
       case Expire(t, now, _) => t in s.tasks && s.tasks[t].Live() && s.tasks[t].phase.Sleeping?
                                 && now >= s.tasks[t].phase.since + GRACE_SECONDS
       case Finish(t, _) => t in s.tasks && s.tasks[t].Live() && s.tasks[t].phase.Sending?
       case Deliver(t, _) => t in s.tasks && s.tasks[t].cancelled
  }

  /** `task.cancel()` on the entry of a peer, if there is one and it is not done. */
  function CancelEntry(s: State, p: Peer): map<nat, Task> {
    if p in s.graceTasks && s.graceTasks[p] in s.tasks
    then s.tasks[s.graceTasks[p] := s.tasks[s.graceTasks[p]].(cancelled := true)]
    else s.tasks
  }

  function Step(s: State, e: Event): State
    requires Enabled(s, e)
  {
    match e
    case Connect(p, now) => ConnectStep(s, p, now)
    case Disconnect(p, now) =>
      s.(tasks := CancelEntry(s, p)[s.nextTask := Task(p, Created, false, |s.journal|)],
         graceTasks := s.graceTasks[p := s.nextTask],
         nextTask := s.nextTask + 1,
         clock := now,
         journal := s.journal + [Disconnected(p, now)])
    case Start(t, now) =>
      s.(tasks := s.tasks[t := s.tasks[t].(phase := Sleeping(now))], clock := now)
    case Expire(t, now, linkActive) => ExpireStep(s, t, now, linkActive)
    case Finish(t, now) =>
      s.(tasks := s.tasks - {t}, graceTasks := s.graceTasks - {s.tasks[t].peer}, clock := now)
    case Deliver(t, now) =>
      var p := s.tasks[t].peer;
      if s.tasks[t].phase.Sleeping? then
        s.(tasks := s.tasks - {t}, offlineDebounce := s.offlineDebounce - {p}, clock := now,
           journal := s.journal + [DebounceDropped(p, now)])
      else
        s.(tasks := s.tasks - {t}, clock := now)
  }

  function ConnectStep(s: State, p: Peer, now: real): State {
    var s1 := s.(tasks := CancelEntry(s, p), graceTasks := s.graceTasks - {p}, clock := now,
                 journal := s.journal + [Connected(p, now)]);
    if p !in s.offlineBroadcasted then s1
    else if now - Lookup(s.onlineDebounce, p).GetOr(0.0) >= ONLINE_DEBOUNCE then
      s1.(onlineDebounce := s.onlineDebounce[p := now],
          offlineBroadcasted := s.offlineBroadcasted - {p},
          journal := s1.journal + [OnlineSent(p, now)])
    else
      s1.(offlineBroadcasted := s.offlineBroadcasted - {p},
          journal := s1.journal + [Suppressed(p, now)])
  }

  function ExpireStep(s: State, t: nat, now: real, linkActive: bool): State
    requires t in s.tasks
  {
    var p := s.tasks[t].peer;
    if linkActive || now - Lookup(s.offlineDebounce, p).GetOr(0.0) < OFFLINE_DEBOUNCE then
      s.(tasks := s.tasks - {t}, graceTasks := s.graceTasks - {p}, clock := now)
    else
      s.(tasks := s.tasks[t := s.tasks[t].(phase := Sending)],
         offlineDebounce := s.offlineDebounce[p := now],
         offlineBroadcasted := s.offlineBroadcasted + {p},
         clock := now,
         journal := s.journal + [OfflineSent(p, now)])
  }

  // ---------------------------------------------------------------------------
  // The callbacks as the source writes them
  // ---------------------------------------------------------------------------

  class PresenceNode {
    var graceTasks: map<Peer, nat>
    var offlineDebounce: map<Peer, real>
    var onlineDebounce: map<Peer, real>
    var offlineBroadcasted: set<Peer>
    var tasks: map<nat, Task>
    var nextTask: nat
    var clock: real
    var journal: seq<Mark>

    ghost function Abs(): State
      reads this
    {
      State(graceTasks, offlineDebounce, onlineDebounce, offlineBroadcasted, tasks, nextTask, clock, journal)
    }

    constructor ()
      ensures Abs() == Init
    {
      graceTasks, offlineDebounce, onlineDebounce, offlineBroadcasted := map[], map[], map[], {};
      tasks, nextTask, clock, journal := map[], 0, 0.0, [];
    }

    /** `task.cancel()` when the task is not done: the request is recorded and delivered
        later, when the loop resumes the task. */
    method CancelTask(t: nat)
      modifies this`tasks
      ensures tasks == if t in old(tasks) then old(tasks)[t := old(tasks)[t].(cancelled := true)] else old(tasks)
    {
      if t in tasks {
        tasks := tasks[t := tasks[t].(cancelled := true)];
      }
    }

    method OnPeerConnected(p: Peer, now: real)
      requires clock <= now
      modifies this
      ensures Abs() == Step(old(Abs()), Connect(p, now))
    {
      clock := now;
      journal := journal + [Connected(p, now)];
      if p in graceTasks {
        var pending := graceTasks[p];
        graceTasks := graceTasks - {p};
        CancelTask(pending);
      } else {
        graceTasks := graceTasks - {p};
      }
      if p in offlineBroadcasted {
        var lastOnline := Lookup(onlineDebounce, p).GetOr(0.0);
        if now - lastOnline >= ONLINE_DEBOUNCE {
          onlineDebounce := onlineDebounce[p := now];
          offlineBroadcasted := offlineBroadcasted - {p};
          journal := journal + [OnlineSent(p, now)];
        } else {
          offlineBroadcasted := offlineBroadcasted - {p};
          journal := journal + [Suppressed(p, now)];
        }
      }
    }

    method OnPeerDisconnected(p: Peer, now: real)
      requires clock <= now
      modifies this
      ensures Abs() == Step(old(Abs()), Disconnect(p, now))
    {
      if p in graceTasks {
        CancelTask(graceTasks[p]);
      }
      tasks := tasks[nextTask := Task(p, Created, false, |journal|)];
      graceTasks := graceTasks[p := nextTask];
      nextTask := nextTask + 1;
      clock := now;
      journal := journal + [Disconnected(p, now)];
    }

    /** First resumption of a grace task: it goes to sleep. */
    method GraceStarts(t: nat, now: real)
      requires Enabled(Abs(), Start(t, now))
      modifies this
      ensures Abs() == Step(old(Abs()), Start(t, now))
    {
      tasks := tasks[t := tasks[t].(phase := Sleeping(now))];
      clock := now;
    }

    /** The sleep is over: re-check the link and the debounce table, then announce. */
    method GraceExpires(t: nat, now: real, linkActive: bool)
      requires Enabled(Abs(), Expire(t, now, linkActive))
      modifies this
      ensures Abs() == Step(old(Abs()), Expire(t, now, linkActive))
    {
      var p := tasks[t].peer;
      clock := now;
      if linkActive {
        graceTasks := graceTasks - {p};
        tasks := tasks - {t};
        return;
      }
      var lastBroadcast := Lookup(offlineDebounce, p).GetOr(0.0);
      if now - lastBroadcast < OFFLINE_DEBOUNCE {
        graceTasks := graceTasks - {p};
        tasks := tasks - {t};
        return;
      }
      offlineDebounce := offlineDebounce[p := now];
      offlineBroadcasted := offlineBroadcasted + {p};
      tasks := tasks[t := tasks[t].(phase := Sending)];
      journal := journal + [OfflineSent(p, now)];
    }

    /** The awaited send returned: the grace task drops the map entry of its peer and ends. */
    method SendReturns(t: nat, now: real)
      requires Enabled(Abs(), Finish(t, now))
      modifies this
      ensures Abs() == Step(old(Abs()), Finish(t, now))
    {
      graceTasks := graceTasks - {tasks[t].peer};
      tasks := tasks - {t};
      clock := now;
    }

    /** A requested cancellation reaches the task. Only a task that is in its sleep runs
        the handler, which forgets the time of the last offline broadcast. */
    method CancellationArrives(t: nat, now: real)
      requires Enabled(Abs(), Deliver(t, now))
      modifies this
      ensures Abs() == Step(old(Abs()), Deliver(t, now))
    {
      if tasks[t].phase.Sleeping? {
        offlineDebounce := offlineDebounce - {tasks[t].peer};
        journal := journal + [DebounceDropped(tasks[t].peer, now)];
      }
      tasks := tasks - {t};
      clock := now;
    }
  }

  // ---------------------------------------------------------------------------
  // Invariants of every run
  // ---------------------------------------------------------------------------

  /** The map entry of a peer is a live task of that peer. */
  ghost predicate EntryOk(s: State, p: Peer) {
    p in s.graceTasks ==>
      && s.graceTasks[p] in s.tasks
      && s.tasks[s.graceTasks[p]].peer == p
      && s.tasks[s.graceTasks[p]].Live()
  }

  /** A live task is the map entry of its peer; a sleep began in the past and, for a live
      task, no earlier than the last time its peer was announced online. */
  ghost predicate TaskOk(s: State, t: nat) {
    t in s.tasks ==>
      && t < s.nextTask
      && (s.tasks[t].Live() ==> s.tasks[t].peer in s.graceTasks && s.graceTasks[s.tasks[t].peer] == t)
      && (s.tasks[t].phase.Sleeping? ==> s.tasks[t].phase.since <= s.clock)
      && (s.tasks[t].Live() && s.tasks[t].phase.Sleeping? ==> LastOnline(s, s.tasks[t].peer) <= s.tasks[t].phase.since)
  }

  /** The debounce tables hold past times, and a peer announced offline is always past the
      online debounce. */
  ghost predicate PeerOk(s: State, p: Peer) {
    && 0.0 <= LastOnline(s, p) <= s.clock
    && 0.0 <= Lookup(s.offlineDebounce, p).GetOr(0.0) <= s.clock
    && (p in s.offlineBroadcasted ==> s.clock - LastOnline(s, p) >= ONLINE_DEBOUNCE)
  }

  function LastOnline(s: State, p: Peer): real {
    Lookup(s.onlineDebounce, p).GetOr(0.0)
  }

  ghost predicate StateInv(s: State) {
    && (forall p :: EntryOk(s, p))
    && (forall t :: TaskOk(s, t))
    && (forall p :: PeerOk(s, p))
  }

  lemma StepKeepsEntries(s: State, e: Event, p: Peer)
    requires Enabled(s, e) && StateInv(s)
    ensures EntryOk(Step(s, e), p)
  {
    assert EntryOk(s, p);
    match e
    case Connect(q, _) => assert EntryOk(s, q);
    case Disconnect(q, _) => assert EntryOk(s, q) && TaskOk(s, s.nextTask);
    case Start(t, _) => assert TaskOk(s, t);
    case Expire(t, _, _) => assert TaskOk(s, t);
    case Finish(t, _) => assert TaskOk(s, t);
    case Deliver(t, _) => assert TaskOk(s, t);
  }

  lemma StepKeepsTasks(s: State, e: Event, x: nat)
    requires Enabled(s, e) && StateInv(s)
    ensures TaskOk(Step(s, e), x)
  {
    assert TaskOk(s, x);
    match e
    case Connect(q, _) => assert EntryOk(s, q) && PeerOk(s, q);
    case Disconnect(q, _) => assert EntryOk(s, q);
    case Start(t, _) => assert PeerOk(s, s.tasks[t].peer);
    case Expire(t, _, _) => assert TaskOk(s, t);
    case Finish(t, _) => assert TaskOk(s, t);
    case Deliver(t, _) => assert TaskOk(s, t);
  }

  lemma StepKeepsPeers(s: State, e: Event, p: Peer)
    requires Enabled(s, e) && StateInv(s)
    ensures PeerOk(Step(s, e), p)
  {
    assert PeerOk(s, p);
    match e
    case Expire(t, _, _) => assert TaskOk(s, t);
    case _ =>
  }

  lemma StepKeepsStateInv(s: State, e: Event)
    requires Enabled(s, e) && StateInv(s)
    ensures StateInv(Step(s, e))
  {
    forall p ensures EntryOk(Step(s, e), p) { StepKeepsEntries(s, e, p); }
    forall t ensures TaskOk(Step(s, e), t) { StepKeepsTasks(s, e, t); }
    forall p ensures PeerOk(Step(s, e), p) { StepKeepsPeers(s, e, p); }
  }

  // ---------------------------------------------------------------------------
  // What the journal of a run looks like
  // ---------------------------------------------------------------------------

  predicate IsNote(m: Mark, p: Peer) {
    m.peer == p && (m.OfflineSent? || m.OnlineSent?)
  }

  /** What the mesh was last told about a peer. */
  function LatestNote(j: seq<Mark>, p: Peer): Option<Mark> {
    if j == [] then None
    else if IsNote(j[|j| - 1], p) then Some(j[|j| - 1])
    else LatestNote(j[..|j| - 1], p)
  }

  predicate ToldOffline(j: seq<Mark>, p: Peer) {
    LatestNote(j, p).Some? && LatestNote(j, p).value.OfflineSent?
  }

  /** The time of the latest offline broadcast about a peer, if no grace task of the peer was
      cancelled in its sleep since. */
  function LastKept(j: seq<Mark>, p: Peer): Option<real> {
    if j == [] then None
    else
      match j[|j| - 1]
      case OfflineSent(q, t) => if q == p then Some(t) else LastKept(j[..|j| - 1], p)
      case DebounceDropped(q, _) => if q == p then None else LastKept(j[..|j| - 1], p)
      case _ => LastKept(j[..|j| - 1], p)
  }

  /** The time of the latest online broadcast about a peer. */
  function LastOnlineSent(j: seq<Mark>, p: Peer): Option<real> {
    if j == [] then None
    else if j[|j| - 1].OnlineSent? && j[|j| - 1].peer == p then Some(j[|j| - 1].at)
    else LastOnlineSent(j[..|j| - 1], p)
  }

  datatype Kind = Connection | OfflineNotice | Drop

  predicate OfKind(m: Mark, kind: Kind) {
    match kind
    case Connection => m.Connected?
    case OfflineNotice => m.OfflineSent?
    case Drop => m.DebounceDropped?
  }

  /** No mark of kind `kind` about `p` in `j` from position `from` on. */
  ghost predicate NoneSince(j: seq<Mark>, p: Peer, from: nat, kind: Kind) {
    forall k :: from <= k < |j| ==> !(j[k].peer == p && OfKind(j[k], kind))
  }

  /** A disconnect at least a grace period before `t`, and neither a connect nor an offline
      broadcast since. */
  ghost predicate Backed(j: seq<Mark>, p: Peer, t: real) {
    exists a: nat :: a < |j| && j[a].Disconnected? && j[a].peer == p && j[a].at + GRACE_SECONDS <= t
                     && NoneSince(j, p, a, Connection) && NoneSince(j, p, a, OfflineNotice)
  }

  /** `t` is a grace period after every offline broadcast in `j`, and a full debounce
      period after those since which no grace task of the peer was cancelled. */
  ghost predicate Spaced(j: seq<Mark>, p: Peer, t: real) {
    forall i :: 0 <= i < |j| && j[i].OfflineSent? && j[i].peer == p ==>
      && j[i].at + GRACE_SECONDS <= t
      && (NoneSince(j, p, i, Drop) ==> j[i].at + OFFLINE_DEBOUNCE <= t)
  }

  /** What holds of a mark, given everything that happened before it. */
  ghost predicate Justified(before: seq<Mark>, m: Mark) {
    match m
    case OfflineSent(p, t) =>
      Backed(before, p, t) && Spaced(before, p, t) && t - LastKept(before, p).GetOr(0.0) >= OFFLINE_DEBOUNCE
    case OnlineSent(p, t) => ToldOffline(before, p) && t - LastOnlineSent(before, p).GetOr(0.0) >= ONLINE_DEBOUNCE
    case Suppressed(_, _) => false
    case _ => true
  }

  ghost predicate JournalOk(j: seq<Mark>) {
    forall i :: 0 <= i < |j| ==> Justified(j[..i], j[i])
  }

  ghost predicate Chronological(j: seq<Mark>, clock: real) {
    && (forall i :: 0 <= i < |j| ==> j[i].at <= clock)
    && (forall i, k :: 0 <= i < k < |j| ==> j[i].at <= j[k].at)
  }

  /** A waiting task was created by a disconnect since which its peer neither connected nor
      was announced offline. */
  ghost predicate ArmedOk(s: State, t: nat) {
    t in s.tasks && s.tasks[t].Waiting() ==>
      var x := s.tasks[t];
      && x.armed < |s.journal|
      && s.journal[x.armed].Disconnected? && s.journal[x.armed].peer == x.peer
      && (x.phase.Sleeping? ==> s.journal[x.armed].at <= x.phase.since)
      && NoneSince(s.journal, x.peer, x.armed, Connection)
      && NoneSince(s.journal, x.peer, x.armed, OfflineNotice)
  }

  /** The debounce table holds the last offline broadcast that was not dropped. */
  ghost predicate KeptOk(s: State, p: Peer) {
    Lookup(s.offlineDebounce, p) == LastKept(s.journal, p)
  }

  /** The other debounce table holds the last online broadcast. */
  ghost predicate OnlineOk(s: State, p: Peer) {
    Lookup(s.onlineDebounce, p) == LastOnlineSent(s.journal, p)
  }

  ghost predicate AgreementOk(s: State, p: Peer) {
    p in s.offlineBroadcasted <==> ToldOffline(s.journal, p)
  }

  ghost predicate Inv(s: State) {
    && StateInv(s)
    && Chronological(s.journal, s.clock)
    && JournalOk(s.journal)
    && (forall t :: ArmedOk(s, t))
    && (forall p :: KeptOk(s, p))
    && (forall p :: OnlineOk(s, p))
    && (forall p :: AgreementOk(s, p))
  }

  lemma LatestNoteOfAppend(j: seq<Mark>, m: Mark, p: Peer)
    ensures LatestNote(j + [m], p) == if IsNote(m, p) then Some(m) else LatestNote(j, p)
  {
    assert (j + [m])[..|j|] == j;
  }

  lemma JournalOkOfAppend(j: seq<Mark>, m: Mark)
    requires JournalOk(j) && Justified(j, m)
    ensures JournalOk(j + [m])
  {
    forall i | 0 <= i < |j + [m]| ensures Justified((j + [m])[..i], (j + [m])[i]) {
      assert (j + [m])[..i] == j[..i];
      assert i == |j| ==> j[..i] == j;
    }
  }

  lemma NoneSinceOfAppend(j: seq<Mark>, ms: seq<Mark>, p: Peer, from: nat, kind: Kind)
    requires from <= |j|
    ensures NoneSince(j + ms, p, from, kind) <==> NoneSince(j, p, from, kind) && NoneSince(ms, p, 0, kind)
  {
    if NoneSince(j + ms, p, from, kind) {
      forall k | from <= k < |j| ensures !(j[k].peer == p && OfKind(j[k], kind)) {
        assert (j + ms)[k] == j[k];
      }
      forall k | 0 <= k < |ms| ensures !(ms[k].peer == p && OfKind(ms[k], kind)) {
        assert (j + ms)[|j| + k] == ms[k];
      }
    }
  }

  /** The marks a step appends. */
  function Marks(s: State, e: Event): (ms: seq<Mark>)
    requires Enabled(s, e)
    ensures Step(s, e).journal == s.journal + ms
  {
    match e
    case Connect(p, now) =>
      if p !in s.offlineBroadcasted then [Connected(p, now)]
      else if now - LastOnline(s, p) >= ONLINE_DEBOUNCE then [Connected(p, now), OnlineSent(p, now)]
      else [Connected(p, now), Suppressed(p, now)]
    case Disconnect(p, now) => [Disconnected(p, now)]
    case Expire(t, now, linkActive) =>
      var p := s.tasks[t].peer;
      if linkActive || now - Lookup(s.offlineDebounce, p).GetOr(0.0) < OFFLINE_DEBOUNCE then []
      else [OfflineSent(p, now)]
    case Deliver(t, now) =>
      if s.tasks[t].phase.Sleeping? then [DebounceDropped(s.tasks[t].peer, now)] else []
    case _ => []
  }

  lemma StepKeepsAgreement(s: State, e: Event, p: Peer)
    requires Enabled(s, e) && AgreementOk(s, p)
    requires e.Connect? ==> PeerOk(s, e.peer)
    ensures AgreementOk(Step(s, e), p)
  {
    var ms := Marks(s, e);
    if |ms| == 0 {
      assert s.journal + ms == s.journal;
    } else {
      LatestNoteOfAppend(s.journal, ms[0], p);
      if |ms| == 2 {
        LatestNoteOfAppend(s.journal + [ms[0]], ms[1], p);
        assert s.journal + ms == s.journal + [ms[0]] + [ms[1]];
      }
    }
  }

  lemma StepKeepsArmed(s: State, e: Event, t: nat)
    requires Enabled(s, e) && TaskOk(s, t) && ArmedOk(s, t)
    requires e.Expire? ==> TaskOk(s, e.task)
    requires forall i :: 0 <= i < |s.journal| ==> s.journal[i].at <= s.clock
    ensures ArmedOk(Step(s, e), t)
  {
    var s' := Step(s, e);
    if t in s'.tasks && s'.tasks[t].Waiting() && t in s.tasks && s.tasks[t].Waiting() {
      var x := s.tasks[t];
      NoneSinceOfAppend(s.journal, Marks(s, e), x.peer, x.armed, Connection);
      NoneSinceOfAppend(s.journal, Marks(s, e), x.peer, x.armed, OfflineNotice);
    }
  }

  lemma LastKeptOfAppend(j: seq<Mark>, m: Mark, p: Peer)
    ensures LastKept(j + [m], p) ==
              if m.peer != p then LastKept(j, p)
              else if m.OfflineSent? then Some(m.at)
              else if m.DebounceDropped? then None
              else LastKept(j, p)
  {
    assert (j + [m])[..|j|] == j;
  }

  /** What a few marks do to the last broadcast that was not dropped. */
  function KeptAfter(kept: Option<real>, ms: seq<Mark>, p: Peer): Option<real> {
    if ms == [] then kept
    else
      var before := KeptAfter(kept, ms[..|ms| - 1], p);
      var m := ms[|ms| - 1];
      if m.peer != p then before
      else if m.OfflineSent? then Some(m.at)
      else if m.DebounceDropped? then None
      else before
  }

  lemma {:induction false} LastKeptOfConcat(j: seq<Mark>, ms: seq<Mark>, p: Peer)
    ensures LastKept(j + ms, p) == KeptAfter(LastKept(j, p), ms, p)
  {
    if ms == [] {
      assert j + ms == j;
    } else {
      var n := |ms| - 1;
      LastKeptOfConcat(j, ms[..n], p);
      LastKeptOfAppend(j + ms[..n], ms[n], p);
      assert j + ms == j + ms[..n] + [ms[n]];
    }
  }

  lemma DebounceAfterStep(s: State, e: Event, p: Peer)
    requires Enabled(s, e)
    ensures Lookup(Step(s, e).offlineDebounce, p) == KeptAfter(Lookup(s.offlineDebounce, p), Marks(s, e), p)
  {
    var ms := Marks(s, e);
    if |ms| == 2 {
      assert ms[..1][..0] == [];
      assert KeptAfter(Lookup(s.offlineDebounce, p), ms[..1], p) == Lookup(s.offlineDebounce, p);
    }
  }

  lemma StepKeepsKept(s: State, e: Event, p: Peer)
    requires Enabled(s, e) && KeptOk(s, p)
    ensures KeptOk(Step(s, e), p)
  {
    DebounceAfterStep(s, e, p);
    LastKeptOfConcat(s.journal, Marks(s, e), p);
  }

  lemma LastOnlineSentOfAppend(j: seq<Mark>, m: Mark, p: Peer)
    ensures LastOnlineSent(j + [m], p) == if m.OnlineSent? && m.peer == p then Some(m.at) else LastOnlineSent(j, p)
  {
    assert (j + [m])[..|j|] == j;
  }

  lemma {:induction false} LastOnlineSentOfOthers(j: seq<Mark>, ms: seq<Mark>, p: Peer)
    requires forall m :: m in ms ==> !m.OnlineSent?
    ensures LastOnlineSent(j + ms, p) == LastOnlineSent(j, p)
  {
    if ms == [] {
      assert j + ms == j;
    } else {
      var n := |ms| - 1;
      LastOnlineSentOfOthers(j, ms[..n], p);
      LastOnlineSentOfAppend(j + ms[..n], ms[n], p);
      assert j + ms == j + ms[..n] + [ms[n]];
    }
  }

  lemma StepKeepsOnline(s: State, e: Event, p: Peer)
    requires Enabled(s, e) && OnlineOk(s, p)
    ensures OnlineOk(Step(s, e), p)
  {
    var ms := Marks(s, e);
    if e.Connect? && |ms| == 2 {
      LastOnlineSentOfAppend(s.journal, ms[0], p);
      LastOnlineSentOfAppend(s.journal + [ms[0]], ms[1], p);
      assert s.journal + ms == s.journal + [ms[0]] + [ms[1]];
    } else {
      LastOnlineSentOfOthers(s.journal, ms, p);
    }
  }

  /** An offline broadcast since which nothing was dropped is kept, or a later one is. */
  lemma {:induction false} BroadcastIsKept(j: seq<Mark>, clock: real, p: Peer, i: nat)
    requires Chronological(j, clock)
    requires i < |j| && j[i].OfflineSent? && j[i].peer == p && NoneSince(j, p, i, Drop)
    ensures LastKept(j, p).Some? && LastKept(j, p).value >= j[i].at
  {
    var n := |j| - 1;
    assert !(j[n].peer == p && OfKind(j[n], Drop));
    if i < n && !(j[n].OfflineSent? && j[n].peer == p) {
      BroadcastIsKept(j[..n], clock, p, i);
    }
  }

  /** The task that expires may announce its peer offline. */
  lemma ExpiryIsJustified(s: State, t: nat, now: real)
    requires Enabled(s, Expire(t, now, false)) && Inv(s)
    requires now - Lookup(s.offlineDebounce, s.tasks[t].peer).GetOr(0.0) >= OFFLINE_DEBOUNCE
    ensures Justified(s.journal, OfflineSent(s.tasks[t].peer, now))
  {
    var x := s.tasks[t];
    assert ArmedOk(s, t) && KeptOk(s, x.peer);
    forall i | 0 <= i < |s.journal| && s.journal[i].OfflineSent? && s.journal[i].peer == x.peer
      ensures s.journal[i].at + GRACE_SECONDS <= now
      ensures NoneSince(s.journal, x.peer, i, Drop) ==> s.journal[i].at + OFFLINE_DEBOUNCE <= now
    {
      assert i < x.armed;
      if NoneSince(s.journal, x.peer, i, Drop) {
        BroadcastIsKept(s.journal, s.clock, x.peer, i);
      }
    }
  }

  lemma StepKeepsChronology(s: State, e: Event)
    requires Enabled(s, e) && Chronological(s.journal, s.clock)
    ensures Chronological(Step(s, e).journal, e.now)
  {
    assert forall m :: m in Marks(s, e) ==> m.at == e.now;
  }

  lemma ConnectKeepsJournal(s: State, p: Peer, now: real)
    requires JournalOk(s.journal) && AgreementOk(s, p) && PeerOk(s, p) && OnlineOk(s, p) && s.clock <= now
    ensures JournalOk(ConnectStep(s, p, now).journal)
  {
    JournalOkOfAppend(s.journal, Connected(p, now));
    if p in s.offlineBroadcasted {
      LatestNoteOfAppend(s.journal, Connected(p, now), p);
      LastOnlineSentOfAppend(s.journal, Connected(p, now), p);
      JournalOkOfAppend(s.journal + [Connected(p, now)], OnlineSent(p, now));
    }
  }

  lemma StepKeepsJournal(s: State, e: Event)
    requires Enabled(s, e) && Inv(s)
    ensures JournalOk(Step(s, e).journal)
  {
    match e
    case Connect(p, now) =>
      assert AgreementOk(s, p) && PeerOk(s, p) && OnlineOk(s, p);
      ConnectKeepsJournal(s, p, now);
    case Disconnect(p, now) => JournalOkOfAppend(s.journal, Disconnected(p, now));
    case Expire(t, now, linkActive) =>
      if Marks(s, e) != [] {
        ExpiryIsJustified(s, t, now);
        JournalOkOfAppend(s.journal, OfflineSent(s.tasks[t].peer, now));
      }
    case Deliver(t, now) => JournalOkOfAppend(s.journal, DebounceDropped(s.tasks[t].peer, now));
    case Start(_, _) =>
    case Finish(_, _) =>
  }

  lemma StepKeepsInv(s: State, e: Event)
    requires Enabled(s, e) && Inv(s)
    ensures Inv(Step(s, e))
  {
    StepKeepsStateInv(s, e);
    StepKeepsJournal(s, e);
    StepKeepsChronology(s, e);
    forall t ensures ArmedOk(Step(s, e), t) {
      assert TaskOk(s, t) && ArmedOk(s, t) && (e.Expire? ==> TaskOk(s, e.task));
      StepKeepsArmed(s, e, t);
    }
    forall p ensures KeptOk(Step(s, e), p) { StepKeepsKept(s, e, p); }
    forall p ensures OnlineOk(Step(s, e), p) { StepKeepsOnline(s, e, p); }
    forall p ensures AgreementOk(Step(s, e), p) { StepKeepsAgreement(s, e, p); }
  }

  // ---------------------------------------------------------------------------
  // Theorems about every run
  // ---------------------------------------------------------------------------

  /** The state after a sequence of events; None when some event was not possible. */
  function Run(es: seq<Event>): Option<State> {
    if es == [] then Some(Init)
    else
      match Run(es[..|es| - 1])
      case None => None
      case Some(s) =>
        var e := es[|es| - 1];
        if Enabled(s, e) then Some(Step(s, e)) else None
  }

  lemma {:induction false} RunKeepsInv(es: seq<Event>)
    requires Run(es).Some?
    ensures Inv(Run(es).value)
  {
    if es == [] {
    } else {
      RunKeepsInv(es[..|es| - 1]);
      StepKeepsInv(Run(es[..|es| - 1]).value, es[|es| - 1]);
    }
  }

  /** The branch that drops an offline peer without announcing it online is dead: at every
      connect, an announced-offline peer is past the online debounce. */
  lemma SuppressionIsDead(es: seq<Event>, p: Peer, now: real)
    requires Run(es).Some? && Enabled(Run(es).value, Connect(p, now))
    requires p in Run(es).value.offlineBroadcasted
    ensures now - LastOnline(Run(es).value, p) >= ONLINE_DEBOUNCE
  {
    RunKeepsInv(es);
    assert PeerOk(Run(es).value, p);
  }

  /** And no run ever took it. */
  lemma NothingIsSuppressed(es: seq<Event>)
    requires Run(es).Some?
    ensures forall i :: 0 <= i < |Run(es).value.journal| ==> !Run(es).value.journal[i].Suppressed?
  {
    RunKeepsInv(es);
    var s := Run(es).value;
    forall i | 0 <= i < |s.journal| ensures !s.journal[i].Suppressed? {
      assert Justified(s.journal[..i], s.journal[i]);
    }
  }

  /** The local set agrees with what the mesh was told, and after a connect the mesh does
      not believe the peer offline. */
  lemma LocalStateAgreesWithMesh(es: seq<Event>, p: Peer, now: real)
    requires Run(es).Some?
    ensures p in Run(es).value.offlineBroadcasted <==> ToldOffline(Run(es).value.journal, p)
    ensures Enabled(Run(es).value, Connect(p, now)) ==>
              !ToldOffline(Step(Run(es).value, Connect(p, now)).journal, p)
  {
    RunKeepsInv(es);
    var s := Run(es).value;
    assert AgreementOk(s, p);
    if Enabled(s, Connect(p, now)) {
      StepKeepsInv(s, Connect(p, now));
      assert AgreementOk(Step(s, Connect(p, now)), p);
    }
  }

  lemma {:induction false} LatestNoteIsThere(j: seq<Mark>, p: Peer) returns (k: nat)
    requires LatestNote(j, p).Some?
    ensures k < |j| && j[k] == LatestNote(j, p).value && IsNote(j[k], p)
    ensures forall i :: k < i < |j| ==> !IsNote(j[i], p)
  {
    k := |j| - 1;
    if !IsNote(j[k], p) {
      k := LatestNoteIsThere(j[..k], p);
    }
  }

  /** Between two online announcements of a peer there is an offline one. */
  lemma OnlineNoticesAreSeparated(es: seq<Event>, i: nat, k: nat)
    requires Run(es).Some?
    requires i < k < |Run(es).value.journal|
    requires Run(es).value.journal[i].OnlineSent? && Run(es).value.journal[k].OnlineSent?
    requires Run(es).value.journal[i].peer == Run(es).value.journal[k].peer
    ensures exists m :: i < m < k && Run(es).value.journal[m].OfflineSent?
                        && Run(es).value.journal[m].peer == Run(es).value.journal[i].peer
  {
    RunKeepsInv(es);
    var j := Run(es).value.journal;
    assert Justified(j[..k], j[k]);
    var m := LatestNoteIsThere(j[..k], j[k].peer);
    assert IsNote(j[..k][i], j[k].peer);
    assert j[..k][m] == j[m];
  }

  /** Every online broadcast is remembered, so that no later one is lost to an earlier. */
  lemma {:induction false} OnlineIsRemembered(j: seq<Mark>, clock: real, p: Peer, i: nat)
    requires Chronological(j, clock)
    requires i < |j| && j[i].OnlineSent? && j[i].peer == p
    ensures LastOnlineSent(j, p).Some? && LastOnlineSent(j, p).value >= j[i].at
  {
    var n := |j| - 1;
    if !(j[n].OnlineSent? && j[n].peer == p) {
      OnlineIsRemembered(j[..n], clock, p, i);
    }
  }

  /** Two online broadcasts about a peer are an online debounce period apart. */
  lemma OnlineNoticesAreSpaced(es: seq<Event>, i: nat, k: nat)
    requires Run(es).Some?
    requires i < k < |Run(es).value.journal|
    requires Run(es).value.journal[i].OnlineSent? && Run(es).value.journal[k].OnlineSent?
    requires Run(es).value.journal[i].peer == Run(es).value.journal[k].peer
    ensures Run(es).value.journal[k].at - Run(es).value.journal[i].at >= ONLINE_DEBOUNCE
  {
    RunKeepsInv(es);
    var s := Run(es).value;
    assert Justified(s.journal[..k], s.journal[k]);
    assert s.journal[..k][i] == s.journal[i];
    OnlineIsRemembered(s.journal[..k], s.clock, s.journal[k].peer, i);
  }

  /** A connect announces its peer exactly when the mesh was last told that it is offline. */
  lemma ConnectAnnouncesExactly(es: seq<Event>, p: Peer, now: real)
    requires Run(es).Some? && Enabled(Run(es).value, Connect(p, now))
    ensures var s := Run(es).value;
            Step(s, Connect(p, now)).journal
              == s.journal + [Connected(p, now)] + if ToldOffline(s.journal, p) then [OnlineSent(p, now)] else []
  {
    RunKeepsInv(es);
    assert PeerOk(Run(es).value, p) && AgreementOk(Run(es).value, p);
  }

  /** Between two offline broadcasts about a peer it disconnected: each disconnect gives at
      most one. */
  lemma OfflineNoticesNeedDisconnects(es: seq<Event>, i: nat, k: nat)
    requires Run(es).Some?
    requires i < k < |Run(es).value.journal|
    requires Run(es).value.journal[i].OfflineSent? && Run(es).value.journal[k].OfflineSent?
    requires Run(es).value.journal[i].peer == Run(es).value.journal[k].peer
    ensures exists m :: i < m < k && Run(es).value.journal[m].Disconnected?
                        && Run(es).value.journal[m].peer == Run(es).value.journal[i].peer
  {
    RunKeepsInv(es);
    var j := Run(es).value.journal;
    assert Justified(j[..k], j[k]);
    var before, p := j[..k], j[k].peer;
    var a: nat :| a < |before| && before[a].Disconnected? && before[a].peer == p
                  && NoneSince(before, p, a, OfflineNotice);
    assert before[i] == j[i] && before[a] == j[a];
  }

  /** A task that has expired: gone, or busy with its one announcement. */
  ghost predicate Spent(s: State, t: nat) {
    t < s.nextTask && (t in s.tasks ==> s.tasks[t].phase.Sending?)
  }

  lemma SpentStays(s: State, e: Event, t: nat)
    requires Enabled(s, e) && Spent(s, t)
    ensures Spent(Step(s, e), t)
  {
  }

  lemma {:induction false} ExpiredIsSpent(es: seq<Event>, i: nat)
    requires Run(es).Some? && i < |es| && es[i].Expire?
    ensures Spent(Run(es).value, es[i].task)
  {
    var before, e := es[..|es| - 1], es[|es| - 1];
    if i == |es| - 1 {
      RunKeepsInv(before);
      assert TaskOk(Run(before).value, e.task);
    } else {
      ExpiredIsSpent(before, i);
      SpentStays(Run(before).value, e, es[i].task);
    }
  }

  lemma {:induction false} RunOfPrefix(es: seq<Event>, k: nat)
    requires Run(es).Some? && k < |es|
    ensures Run(es[..k]).Some? && Enabled(Run(es[..k]).value, es[k])
  {
    if k == |es| - 1 {
    } else {
      RunOfPrefix(es[..|es| - 1], k);
      assert es[..|es| - 1][..k] == es[..k];
    }
  }

  /** No grace task looks at the link twice: one that found it active never announces. */
  lemma NoTaskExpiresTwice(es: seq<Event>, i: nat, k: nat)
    requires Run(es).Some? && i < k < |es| && es[i].Expire? && es[k].Expire?
    ensures es[i].task != es[k].task
  {
    RunOfPrefix(es, k);
    assert es[..k][i] == es[i];
    ExpiredIsSpent(es[..k], i);
  }

  /** From every reachable state a disconnect leads to an announcement when nothing else
      happens for a grace period and the debounce allows it. */
  lemma DisconnectLeadsToNotice(es: seq<Event>, p: Peer, now: real)
    requires Run(es).Some? && Run(es).value.clock <= now
    ensures var s := Run(es).value;
            var t := s.nextTask;
            var es' := es + [Disconnect(p, now)] + [Start(t, now)] + [Expire(t, now + GRACE_SECONDS, false)];
            var announces := now + GRACE_SECONDS - LastKept(s.journal, p).GetOr(0.0) >= OFFLINE_DEBOUNCE;
            && Run(es').Some?
            && Run(es').value.journal == s.journal + [Disconnected(p, now)]
                 + if announces then [OfflineSent(p, now + GRACE_SECONDS)] else []
  {
    RunKeepsInv(es);
    var s := Run(es).value;
    assert KeptOk(s, p);
    DisconnectThenWait(s, p, now);
    RunOfThree(es, s, Disconnect(p, now), Start(s.nextTask, now), Expire(s.nextTask, now + GRACE_SECONDS, false));
  }

  lemma RunOfThree(es: seq<Event>, s: State, e1: Event, e2: Event, e3: Event)
    requires Run(es) == Some(s) && Enabled(s, e1) && Enabled(Step(s, e1), e2) && Enabled(Step(Step(s, e1), e2), e3)
    ensures Run(es + [e1] + [e2] + [e3]) == Some(Step(Step(Step(s, e1), e2), e3))
  {
    RunOfAppend(es, s, e1, Step(s, e1));
    RunOfAppend(es + [e1], Step(s, e1), e2, Step(Step(s, e1), e2));
    RunOfAppend(es + [e1] + [e2], Step(Step(s, e1), e2), e3, Step(Step(Step(s, e1), e2), e3));
  }

  lemma DisconnectThenWait(s: State, p: Peer, now: real)
    requires s.clock <= now
    ensures Enabled(s, Disconnect(p, now))
    ensures var t, s1 := s.nextTask, Step(s, Disconnect(p, now));
            && Enabled(s1, Start(t, now))
            && var s2, e := Step(s1, Start(t, now)), Expire(t, now + GRACE_SECONDS, false);
               && Enabled(s2, e)
               && Step(s2, e).journal == s.journal + [Disconnected(p, now)]
                    + if now + GRACE_SECONDS - Lookup(s.offlineDebounce, p).GetOr(0.0) >= OFFLINE_DEBOUNCE
                      then [OfflineSent(p, now + GRACE_SECONDS)] else []
  {
  }

  /** A peer has at most one grace task that is not cancelled: its map entry. In particular
      a task that ends removes its own entry and no other. */
  lemma OneLiveTaskPerPeer(es: seq<Event>, t: nat, u: nat)
    requires Run(es).Some?
    requires t in Run(es).value.tasks && Run(es).value.tasks[t].Live()
    ensures Lookup(Run(es).value.graceTasks, Run(es).value.tasks[t].peer) == Some(t)
    ensures (u in Run(es).value.tasks && Run(es).value.tasks[u].Live()
             && Run(es).value.tasks[u].peer == Run(es).value.tasks[t].peer) ==> u == t
  {
    RunKeepsInv(es);
    assert TaskOk(Run(es).value, t) && TaskOk(Run(es).value, u);
  }

  /** Every offline announcement is backed by a disconnect a grace period earlier with no
      connect since, comes a grace period after the previous ones, and a debounce period
      after the last one that was not forgotten. */
  lemma OfflineNoticesAreJustified(es: seq<Event>, k: nat)
    requires Run(es).Some?
    requires k < |Run(es).value.journal| && Run(es).value.journal[k].OfflineSent?
    ensures var j := Run(es).value.journal;
            && Backed(j[..k], j[k].peer, j[k].at) && Spaced(j[..k], j[k].peer, j[k].at)
            && j[k].at - LastKept(j[..k], j[k].peer).GetOr(0.0) >= OFFLINE_DEBOUNCE
  {
    RunKeepsInv(es);
    assert Justified(Run(es).value.journal[..k], Run(es).value.journal[k]);
  }

  /** Exactly when an expiring grace task announces its peer offline: the link is not active,
      and the last broadcast that no cancelled sleep made the node forget is a debounce
      period ago. */
  lemma ExpiryAnnouncesExactly(es: seq<Event>, t: nat, now: real, linkActive: bool)
    requires Run(es).Some? && Enabled(Run(es).value, Expire(t, now, linkActive))
    ensures var s := Run(es).value;
            var p := s.tasks[t].peer;
            var announces := !linkActive && now - LastKept(s.journal, p).GetOr(0.0) >= OFFLINE_DEBOUNCE;
            Step(s, Expire(t, now, linkActive)).journal
              == s.journal + if announces then [OfflineSent(p, now)] else []
  {
    RunKeepsInv(es);
    assert KeptOk(Run(es).value, Run(es).value.tasks[t].peer);
  }

  lemma RunOfAppend(es: seq<Event>, s: State, e: Event, s': State)
    requires Run(es) == Some(s) && Enabled(s, e) && Step(s, e) == s'
    ensures Run(es + [e]) == Some(s')
  {
    assert (es + [e])[..|es|] == es;
  }

  /** After a first announcement of `p` at time 60. */
  function AfterFirstNotice(p: Peer): State {
    State(map[], map[p := 60.0], map[], {p}, map[], 1, 60.0, [Disconnected(p, 30.0), OfflineSent(p, 60.0)])
  }

  lemma FirstNotice(p: Peer) returns (es: seq<Event>)
    ensures Run(es) == Some(AfterFirstNotice(p))
  {
    var s1 := State(map[p := 0], map[], map[], {}, map[0 := Task(p, Created, false, 0)], 1, 30.0,
                    [Disconnected(p, 30.0)]);
    var s2 := s1.(tasks := map[0 := Task(p, Sleeping(30.0), false, 0)]);
    var s3 := AfterFirstNotice(p).(graceTasks := map[p := 0], tasks := map[0 := Task(p, Sending, false, 0)]);
    RunOfAppend([], Init, Disconnect(p, 30.0), s1);
    RunOfAppend([] + [Disconnect(p, 30.0)], s1, Start(0, 30.0), s2);
    es := [] + [Disconnect(p, 30.0)] + [Start(0, 30.0)];
    RunOfAppend(es, s2, Expire(0, 60.0, false), s3);
    es := es + [Expire(0, 60.0, false)];
    assert Step(s3, Finish(0, 60.0)).tasks == map[];
    RunOfAppend(es, s3, Finish(0, 60.0), AfterFirstNotice(p));
    es := es + [Finish(0, 60.0)];
  }

  /** Then two disconnects in a row: the second cancels the task of the first in its sleep. */
  function AfterTwoDisconnects(p: Peer): State {
    AfterFirstNotice(p).(
      graceTasks := map[p := 2], nextTask := 3,
      tasks := map[1 := Task(p, Sleeping(60.0), true, 2), 2 := Task(p, Created, false, 3)],
      journal := AfterFirstNotice(p).journal + [Disconnected(p, 60.0), Disconnected(p, 60.0)])
  }

  lemma TwoDisconnects(p: Peer) returns (es: seq<Event>)
    ensures Run(es) == Some(AfterTwoDisconnects(p))
  {
    es := FirstNotice(p);
    var s := AfterFirstNotice(p);
    var s1 := s.(graceTasks := map[p := 1], tasks := map[1 := Task(p, Created, false, 2)], nextTask := 2,
                 journal := s.journal + [Disconnected(p, 60.0)]);
    RunOfAppend(es, s, Disconnect(p, 60.0), s1);
    es := es + [Disconnect(p, 60.0)];
    var s2 := s1.(tasks := map[1 := Task(p, Sleeping(60.0), false, 2)]);
    RunOfAppend(es, s1, Start(1, 60.0), s2);
    es := es + [Start(1, 60.0)];
    assert s1.journal + [Disconnected(p, 60.0)] == AfterTwoDisconnects(p).journal;
    RunOfAppend(es, s2, Disconnect(p, 60.0), AfterTwoDisconnects(p));
    es := es + [Disconnect(p, 60.0)];
  }

  /** The debounce period is not kept unconditionally: a grace task cancelled in its sleep
      drops the table entry, and two announcements come only a grace period apart. */
  lemma DebounceCanBeCutShort(p: Peer) returns (es: seq<Event>)
    ensures Run(es).Some? && |Run(es).value.journal| == 6
    ensures Run(es).value.journal[1] == OfflineSent(p, 60.0) && Run(es).value.journal[5] == OfflineSent(p, 90.0)
  {
    es := TwoDisconnects(p);
    var s3 := AfterTwoDisconnects(p);
    var s4 := s3.(tasks := map[1 := Task(p, Sleeping(60.0), true, 2), 2 := Task(p, Sleeping(60.0), false, 3)]);
    RunOfAppend(es, s3, Start(2, 60.0), s4);
    es := es + [Start(2, 60.0)];
    var s5 := s4.(tasks := map[2 := Task(p, Sleeping(60.0), false, 3)], offlineDebounce := map[],
                  journal := s4.journal + [DebounceDropped(p, 60.0)]);
    RunOfAppend(es, s4, Deliver(1, 60.0), s5);
    es := es + [Deliver(1, 60.0)];
    RunOfAppend(es, s5, Expire(2, 90.0, false), Step(s5, Expire(2, 90.0, false)));
    es := es + [Expire(2, 90.0, false)];
  }
}
