/** The update-check driver (node.py): poll ticks and MQTT triggers run the same coroutine,
    which is suspended at its three awaits and shares one state word with its siblings. */
module UpdateDriver {
  import opened Wrappers

  datatype Word = Idle | Checking | Updating | Updated | Failed | UpdateAvailable | Error {
    /** The guard at the head of a check. */
    predicate Busy() { Checking? || Updating? }
  }

  datatype Trigger = Poll | Mqtt

  /** How a body ended on its way to `finally`, or the close in it. */
  datatype Outcome = Returned | Raised | Cancelled

  datatype Await = InCheck | InApply | InClose(outcome: Outcome)

  datatype Check = Check(trigger: Trigger, point: Await) {
    /** In flight: its body has not finished, or was left by an exception and the session
        is still being closed. A check whose body returned and whose session is still being
        closed is not: the word is already free for the next one. */
    predicate InFlight() {
      match point
      case InCheck => true
      case InApply => true
      case InClose(outcome) => !outcome.Returned?
    }
  }

  datatype State = State(word: Word, checks: map<nat, Check>, next: nat)

  const Init := State(Idle, map[], 0)

  datatype Event =
    | Begin(trigger: Trigger)
    | CheckReturns(id: nat, newTag: bool, applyAutomatically: bool)
    | ApplyReturns(id: nat, success: bool)
    | BodyRaises(id: nat, cancelled: bool)
    | CloseEnds(id: nat, how: Outcome)

  /** The poll loop awaits its check before the next tick; MQTT triggers come any time. */
  predicate Enabled(s: State, e: Event) {
    match e
    case Begin(trigger) => trigger.Poll? ==> forall i :: i in s.checks ==> !s.checks[i].trigger.Poll?
    case CheckReturns(i, _, _) => i in s.checks && s.checks[i].point.InCheck?
    case ApplyReturns(i, _) => i in s.checks && s.checks[i].point.InApply?
    case BodyRaises(i, _) => i in s.checks && !s.checks[i].point.InClose?
    case CloseEnds(i, _) => i in s.checks && s.checks[i].point.InClose?
  }

  function Suspend(s: State, i: nat, at: Await, word: Word): State
    requires i in s.checks
  {
    s.(checks := s.checks[i := s.checks[i].(point := at)], word := word)
  }

  function Step(s: State, e: Event): State
    requires Enabled(s, e)
  {
    match e
    case Begin(trigger) =>
      if s.word.Busy() then s
      else State(Checking, s.checks[s.next := Check(trigger, InCheck)], s.next + 1)
    case CheckReturns(i, newTag, applyAutomatically) =>
      if !newTag then Suspend(s, i, InClose(Returned), Idle)
      else if applyAutomatically then Suspend(s, i, InApply, Updating)
      else Suspend(s, i, InClose(Returned), UpdateAvailable)
    case ApplyReturns(i, success) =>
      Suspend(s, i, InClose(Returned), if success then Updated else Failed)
    case BodyRaises(i, cancelled) =>
      Suspend(s, i, InClose(if cancelled then Cancelled else Raised), s.word)
    case CloseEnds(i, how) =>
      s.(checks := s.checks - {i}, word := if Fails(s.checks[i], how) then Error else s.word)
  }

  /** Only the poll loop turns an exception of the check into the word "error". A cancellation
      leaves that loop with the word as it is; what the close raises hides how the body
      ended. */
  predicate Fails(c: Check, how: Outcome)
    requires c.point.InClose?
  {
    c.trigger.Poll? && (how.Raised? || (how.Returned? && c.point.outcome.Raised?))
  }

  /** The shared state word and the suspended coroutines. */
  class Driver {
    var word: Word
    var checks: map<nat, Check>
    var next: nat

    function Abs(): State
      reads this
    {
      State(word, checks, next)
    }

    constructor ()
      ensures Abs() == Init
    {
      word, checks, next := Idle, map[], 0;
    }

    /** From the call to the first await; false when another check holds the word. */
    method RunUpdateCheck(trigger: Trigger) returns (started: bool)
      requires Enabled(Abs(), Begin(trigger))
      modifies this
      ensures Abs() == Step(old(Abs()), Begin(trigger))
      ensures started <==> !old(word).Busy()
    {
      if word.Updating? || word.Checking? {
        return false;
      }
      word := Checking;
      checks := checks[next := Check(trigger, InCheck)];
      next := next + 1;
      return true;
    }

    method CheckForUpdateReturned(i: nat, newTag: bool, applyAutomatically: bool)
      requires Enabled(Abs(), CheckReturns(i, newTag, applyAutomatically))
      modifies this
      ensures Abs() == Step(old(Abs()), CheckReturns(i, newTag, applyAutomatically))
    {
      var at := InClose(Returned);
      if newTag {
        if applyAutomatically {
          word := Updating;
          at := InApply;
        } else {
          word := UpdateAvailable;
        }
      } else {
        word := Idle;
      }
      checks := checks[i := checks[i].(point := at)];
    }

    method ApplyUpdateReturned(i: nat, success: bool)
      requires Enabled(Abs(), ApplyReturns(i, success))
      modifies this
      ensures Abs() == Step(old(Abs()), ApplyReturns(i, success))
    {
      word := if success then Updated else Failed;
      checks := checks[i := checks[i].(point := InClose(Returned))];
    }

    method BodyRaised(i: nat, cancelled: bool)
      requires Enabled(Abs(), BodyRaises(i, cancelled))
      modifies this
      ensures Abs() == Step(old(Abs()), BodyRaises(i, cancelled))
    {
      checks := checks[i := checks[i].(point := InClose(if cancelled then Cancelled else Raised))];
    }

    /** The close in `finally` is over; the poll loop catches what comes out of the check. */
    method CloseEnded(i: nat, how: Outcome)
      requires Enabled(Abs(), CloseEnds(i, how))
      modifies this
      ensures Abs() == Step(old(Abs()), CloseEnds(i, how))
    {
      var c := checks[i];
      checks := checks - {i};
      var result := if how.Returned? then c.point.outcome else how;
      if c.trigger.Poll? && result.Raised? {
        word := Error;
      }
    }
  }

  // ---------------------------------------------------------------------------
  // Mutual exclusion
  // ---------------------------------------------------------------------------

  /** At most one check is in flight, and while one is the word says so. */
  ghost predicate Exclusive(s: State) {
    && FreshIds(s)
    && (forall i, j :: i in s.checks && j in s.checks && s.checks[i].InFlight() && s.checks[j].InFlight() ==> i == j)
    && (forall i :: i in s.checks && s.checks[i].InFlight() ==>
          match s.checks[i].point
          case InCheck => s.word.Checking?
          case InApply => s.word.Updating?
          case InClose(_) => s.word.Busy())
  }

  /** A poll check whose close raises while another check is in flight. */
  ghost predicate Overwrites(s: State, e: Event)
    requires Enabled(s, e)
  {
    e.CloseEnds? && e.how.Raised? && s.checks[e.id].trigger.Poll?
    && exists j :: j in s.checks && j != e.id && s.checks[j].InFlight()
  }

  /** Exclusion is kept by every step but that one, and broken by it. */
  lemma StepKeepsExclusive(s: State, e: Event)
    requires Enabled(s, e) && Exclusive(s)
    ensures Exclusive(Step(s, e)) <==> !Overwrites(s, e)
  {
    var s' := Step(s, e);
    if e.Begin? {
      assert s' == s || forall i :: i in s.checks ==> !s.checks[i].InFlight();
    }
    if Overwrites(s, e) {
      var j :| j in s.checks && j != e.id && s.checks[j].InFlight();
      assert s'.checks[j] == s.checks[j] && s'.word.Error?;
    } else if e.CloseEnds? {
      assert forall j :: j in s'.checks ==> s'.checks[j] == s.checks[j] && j != e.id;
    }
  }

  /** The state after a sequence of events; None when some event was not possible. */
  function Run(es: seq<Event>): Option<State> {
    if es == [] then Some(Init)
    else
      match Run(es[..|es| - 1])
      case None => None
      case Some(s) =>
        var e := es[|es| - 1];
        if Enabled(s, e) then Some(Step(s, e)) else None
  }

  ghost predicate NeverOverwrites(es: seq<Event>)
    requires Run(es).Some?
  {
    es != [] ==>
      && NeverOverwrites(es[..|es| - 1])
      && !Overwrites(Run(es[..|es| - 1]).value, es[|es| - 1])
  }

  /** In every run of poll ticks, MQTT triggers and failing checks in which no poll check
      fails to close its session while another check runs, at most one check is in flight,
      and while one is the word is "checking" or "updating". */
  lemma {:induction false} AtMostOneCheckInFlight(es: seq<Event>)
    requires Run(es).Some? && NeverOverwrites(es)
    ensures Exclusive(Run(es).value)
  {
    if es == [] {
    } else {
      AtMostOneCheckInFlight(es[..|es| - 1]);
      StepKeepsExclusive(Run(es[..|es| - 1]).value, es[|es| - 1]);
    }
  }

  /** The word excludes a second check in every part of a run if and only if there is no such
      close in it. */
  lemma {:induction false} RunIsExclusiveExactly(es: seq<Event>)
    requires Run(es).Some?
    ensures NeverOverwrites(es) <==> forall k :: 0 <= k <= |es| ==> ExclusiveAfter(es[..k])
  {
    if es == [] {
      assert es[..0] == es;
    } else {
      var before := es[..|es| - 1];
      RunIsExclusiveExactly(before);
      assert es[..|es|] == es && before[..|before|] == before;
      assert forall k :: 0 <= k <= |before| ==> es[..k] == before[..k];
      if ExclusiveAfter(before) {
        StepKeepsExclusive(Run(before).value, es[|es| - 1]);
      }
    }
  }

  ghost predicate ExclusiveAfter(es: seq<Event>) {
    Run(es).Some? && Exclusive(Run(es).value)
  }

  /** What an event reports, when it reports anything: `started` tells whether a begun check
      got the word. */
  function Report(e: Event, started: bool, fails: bool): Option<Word> {
    match e
    case Begin(_) => if started then Some(Checking) else None
    case CheckReturns(_, newTag, applyAutomatically) =>
      Some(if !newTag then Idle else if applyAutomatically then Updating else UpdateAvailable)
    case ApplyReturns(_, success) => Some(if success then Updated else Failed)
    case BodyRaises(_, _) => None
    case CloseEnds(_, _) => if fails then Some(Error) else None
  }

  /** The latest report of a run. */
  function LatestReport(es: seq<Event>): Word
    requires Run(es).Some?
  {
    if es == [] then Idle
    else
      var before, e := es[..|es| - 1], es[|es| - 1];
      var s := Run(before).value;
      var started := !LatestReport(before).Busy();
      var fails := e.CloseEnds? && s.checks[e.id].trigger.Poll?
                   && (e.how.Raised? || (e.how.Returned? && s.checks[e.id].point.outcome.Raised?));
      Report(e, started, fails).GetOr(LatestReport(before))
  }

  /** In every run the word is the latest report: in particular "updated" after an apply that
      succeeded and "failed" after one that did not. */
  lemma {:induction false} WordIsLatestReport(es: seq<Event>)
    requires Run(es).Some?
    ensures Run(es).value.word == LatestReport(es)
  {
    if es == [] {
    } else {
      WordIsLatestReport(es[..|es| - 1]);
    }
  }

  lemma RunOfAppend(es: seq<Event>, s: State, e: Event, s': State)
    requires Run(es) == Some(s) && Enabled(s, e) && Step(s, e) == s'
    ensures Run(es + [e]) == Some(s')
  {
    assert (es + [e])[..|es|] == es;
  }

  /** Without that proviso two checks can run at once: a finished poll check fails to close
      its session, writes "error" over the word of a second check, and a third one starts. */
  lemma FailingCloseBreaksExclusion() returns (es: seq<Event>)
    ensures Run(es).Some?
    ensures Run(es).value.checks == map[1 := Check(Mqtt, InCheck), 2 := Check(Mqtt, InCheck)]
  {
    var s1 := State(Checking, map[0 := Check(Poll, InCheck)], 1);
    var s2 := State(Idle, map[0 := Check(Poll, InClose(Returned))], 1);
    var s3 := State(Checking, map[0 := Check(Poll, InClose(Returned)), 1 := Check(Mqtt, InCheck)], 2);
    var s4 := State(Error, map[1 := Check(Mqtt, InCheck)], 2);
    RunOfAppend([], Init, Begin(Poll), s1);
    es := [] + [Begin(Poll)];
    RunOfAppend(es, s1, CheckReturns(0, false, false), s2);
    es := es + [CheckReturns(0, false, false)];
    RunOfAppend(es, s2, Begin(Mqtt), s3);
    es := es + [Begin(Mqtt)];
    assert s3.checks - {0} == s4.checks;
    RunOfAppend(es, s3, CloseEnds(0, Raised), s4);
    es := es + [CloseEnds(0, Raised)];
    RunOfAppend(es, s4, Begin(Mqtt), Step(s4, Begin(Mqtt)));
    es := es + [Begin(Mqtt)];
  }

  // ---------------------------------------------------------------------------
  // When no check will ever run again
  // ---------------------------------------------------------------------------

  /** The word is busy, but all that is left are MQTT checks closing their sessions, which do
      not touch it. */
  ghost predicate Stuck(s: State) {
    s.word.Busy() && forall i :: i in s.checks ==> s.checks[i].trigger.Mqtt? && s.checks[i].point.InClose?
  }

  function RunFrom(s: State, es: seq<Event>): Option<State>
    decreases |es|
  {
    if es == [] then Some(s)
    else if Enabled(s, es[0]) then RunFrom(Step(s, es[0]), es[1..])
    else None
  }

  /** From such a state no sequence of events ever starts a check or changes the word: the
      guard skips them all. */
  lemma {:induction false} StuckIsForever(s: State, es: seq<Event>)
    requires Stuck(s) && RunFrom(s, es).Some?
    ensures Stuck(RunFrom(s, es).value) && RunFrom(s, es).value.word == s.word
    ensures RunFrom(s, es).value.next == s.next
    decreases |es|
  {
    if es == [] {
    } else {
      StuckIsForever(Step(s, es[0]), es[1..]);
    }
  }

  /** From every other busy state some event frees the word, or leads to one that does. */
  lemma OthersGetFree(s: State) returns (es: seq<Event>)
    requires s.word.Busy() && !Stuck(s)
    ensures RunFrom(s, es).Some? && !RunFrom(s, es).value.word.Busy()
  {
    var i :| i in s.checks && !(s.checks[i].trigger.Mqtt? && s.checks[i].point.InClose?);
    match s.checks[i].point
    case InCheck => es := [CheckReturns(i, false, false)];
    case InApply => es := [ApplyReturns(i, true)];
    case InClose(_) => es := [CloseEnds(i, Raised)];
  }

  /** A busy word stays busy in every continuation exactly in the stuck states. */
  lemma BusyForeverExactly(s: State)
    requires s.word.Busy()
    ensures Stuck(s) <==> forall es :: RunFrom(s, es).Some? ==> RunFrom(s, es).value.word.Busy()
  {
    if Stuck(s) {
      forall es | RunFrom(s, es).Some? ensures RunFrom(s, es).value.word.Busy() {
        StuckIsForever(s, es);
      }
    } else {
      var es := OthersGetFree(s);
    }
  }

  /** All other checks are MQTT checks closing their sessions. */
  ghost predicate OthersAreClosing(s: State, i: nat) {
    forall j :: j in s.checks && j != i ==> s.checks[j].trigger.Mqtt? && s.checks[j].point.InClose?
  }

  /** The ways into a stuck state, while the word is busy and all other checks are MQTT checks
      that are closing: the body of an MQTT check raises or is cancelled, or a poll check
      leaves its close without an error. */
  ghost predicate GetsStuck(s: State, e: Event)
    requires Enabled(s, e)
  {
    match e
    case BodyRaises(i, _) => s.word.Busy() && s.checks[i].trigger.Mqtt? && OthersAreClosing(s, i)
    case CloseEnds(i, how) =>
      s.word.Busy() && s.checks[i].trigger.Poll? && !Fails(s.checks[i], how) && OthersAreClosing(s, i)
    case _ => false
  }

  /** New checks get new ids. */
  ghost predicate FreshIds(s: State) {
    forall i :: i in s.checks ==> i < s.next
  }

  /** Exactly those steps lead into a stuck state, however many checks are in flight. */
  lemma StepGetsStuckExactly(s: State, e: Event)
    requires Enabled(s, e) && FreshIds(s) && !Stuck(s)
    ensures Stuck(Step(s, e)) <==> GetsStuck(s, e)
  {
    var s' := Step(s, e);
    match e
    case Begin(trigger) =>
      assert s' == s || (s.next in s'.checks && s'.checks[s.next].point.InCheck?);
    case CheckReturns(i, _, _) => assert i in s'.checks;
    case ApplyReturns(i, _) => assert i in s'.checks;
    case BodyRaises(i, cancelled) =>
      assert forall j :: j in s'.checks <==> j in s.checks;
      assert forall j :: j in s.checks && j != i ==> s'.checks[j] == s.checks[j];
    case CloseEnds(i, how) =>
      assert forall j :: j in s'.checks <==> j in s.checks && j != i;
      assert forall j :: j in s'.checks ==> s'.checks[j] == s.checks[j];
  }

  /** In every run, with any overlaps, a step gets stuck exactly in those ways. */
  lemma RunGetsStuckExactly(es: seq<Event>, e: Event)
    requires Run(es).Some? && Enabled(Run(es).value, e) && !Stuck(Run(es).value)
    ensures Stuck(Step(Run(es).value, e)) <==> GetsStuck(Run(es).value, e)
  {
    RunKeepsFreshIds(es);
    StepGetsStuckExactly(Run(es).value, e);
  }

  lemma {:induction false} RunKeepsFreshIds(es: seq<Event>)
    requires Run(es).Some?
    ensures FreshIds(Run(es).value)
  {
    if es == [] {
    } else {
      RunKeepsFreshIds(es[..|es| - 1]);
    }
  }

  /** An MQTT check that raises is enough; so is a poll check that is cancelled. */
  lemma TwoWaysToGetStuck()
    ensures var es := [Begin(Mqtt), BodyRaises(0, false)];
            RunFrom(Init, es).Some? && Stuck(RunFrom(Init, es).value)
    ensures var es := [Begin(Poll), BodyRaises(0, true), CloseEnds(0, Returned)];
            RunFrom(Init, es).Some? && Stuck(RunFrom(Init, es).value)
  {
    var b, c := BodyRaises(0, false), CloseEnds(0, Returned);
    var b' := BodyRaises(0, true);
    assert [Begin(Mqtt), b][1..] == [b] && [b][1..] == [];
    assert [Begin(Poll), b', c][1..] == [b', c] && [b', c][1..] == [c] && [c][1..] == [];
  }
}
