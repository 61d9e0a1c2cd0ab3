/** The login rate limiter (core/auth.py): at most five attempts a minute per username.

    `admitted` is history: all admitted attempts of a username, where the source keeps only
    a pruned list and stores nothing when it rejects. */
module LoginLimiter {
  import opened Wrappers

  const WINDOW := 60.0
  const MAX_ATTEMPTS := 5

  datatype State = State(rateLimits: map<string, seq<real>>, admitted: map<string, seq<real>>, clock: real)

  const Init := State(map[], map[], 0.0)

  datatype Attempt = Attempt(username: string, now: real)

  function Recent(attempts: seq<real>, now: real): seq<real> {
    if attempts == [] then []
    else
      var r := Recent(attempts[..|attempts| - 1], now);
      if now - attempts[|attempts| - 1] < WINDOW then r + [attempts[|attempts| - 1]] else r
  }

  function RecentOf(s: State, key: string, now: real): seq<real> {
    Recent(Lookup(s.rateLimits, key).GetOr([]), now)
  }

  predicate Admits(s: State, key: string, now: real) {
    |RecentOf(s, key, now)| < MAX_ATTEMPTS
  }

  function Step(s: State, key: string, now: real): State {
    if Admits(s, key, now) then
      State(s.rateLimits[key := RecentOf(s, key, now) + [now]],
            s.admitted[key := Log(s, key) + [now]], now)
    else s.(clock := now)
  }

  function Log(s: State, key: string): seq<real> {
    Lookup(s.admitted, key).GetOr([])
  }

  class LoginLimiter {
    const lower: string -> string
    var rateLimits: map<string, seq<real>>
    ghost var admitted: map<string, seq<real>>
    ghost var clock: real

    ghost function Abs(): State
      reads this
    {
      State(rateLimits, admitted, clock)
    }

    constructor (lower: string -> string)
      ensures this.lower == lower && Abs() == Init
    {
      this.lower := lower;
      rateLimits, admitted, clock := map[], map[], 0.0;
    }

    /** The head of `login`; false when it raises. */
    method Admit(username: string, now: real) returns (ok: bool)
      modifies this
      ensures Abs() == Step(old(Abs()), lower(username), now)
      ensures ok <==> Admits(old(Abs()), lower(username), now)
    {
      var key := lower(username);
      var stored := Lookup(rateLimits, key).GetOr([]);
      var attempts := [];
      for i := 0 to |stored|
        modifies {}
        invariant attempts == Recent(stored[..i], now)
      {
        assert stored[..i + 1][..i] == stored[..i];
        if now - stored[i] < WINDOW {
          attempts := attempts + [stored[i]];
        }
      }
      assert stored[..|stored|] == stored;
      clock := now;
      if |attempts| >= MAX_ATTEMPTS {
        return false;
      }
      admitted := admitted[key := Log(Abs(), key) + [now]];
      rateLimits := rateLimits[key := attempts + [now]];
      return true;
    }
  }

  // ---------------------------------------------------------------------------
  // The list is an exact sliding window
  // ---------------------------------------------------------------------------

  ghost predicate InOrder(times: seq<real>, clock: real) {
    && (forall i, j :: 0 <= i < j < |times| ==> times[i] <= times[j])
    && (forall i :: 0 <= i < |times| ==> times[i] <= clock)
  }

  /** The stored list is the end of the log; what was pruned is out of the window of every
      later attempt. */
  ghost predicate WindowOk(stored: seq<real>, log: seq<real>, clock: real) {
    && InOrder(log, clock)
    && |stored| <= |log| && stored == log[|log| - |stored|..]
    && (forall i :: 0 <= i < |log| - |stored| ==> clock - log[i] >= WINDOW)
    && SixSpan(log)
  }

  ghost predicate SixSpan(log: seq<real>) {
    forall i, j :: 0 <= i && j == i + MAX_ATTEMPTS && j < |log| ==> log[j] - log[i] >= WINDOW
  }

  ghost predicate KeyOk(s: State, key: string) {
    WindowOk(Lookup(s.rateLimits, key).GetOr([]), Log(s, key), s.clock)
  }

  /** The recent times are the last ones. */
  ghost predicate IsRecentSuffix(times: seq<real>, now: real, r: seq<real>) {
    && |r| <= |times|
    && forall i :: 0 <= i < |times| ==>
         if i < |times| - |r| then now - times[i] >= WINDOW
         else now - times[i] < WINDOW && times[i] == r[i - (|times| - |r|)]
  }

  lemma RecentOneMore(before: seq<real>, last: real, now: real, r: seq<real>)
    requires forall i :: 0 <= i < |before| ==> before[i] <= last
    requires IsRecentSuffix(before, now, r)
    ensures IsRecentSuffix(before + [last], now, if now - last < WINDOW then r + [last] else r)
  {
    assert r != [] ==> now - before[|before| - 1] < WINDOW;
  }

  lemma OldTimesBefore(older: seq<real>, times: seq<real>, now: real, r: seq<real>)
    requires forall i :: 0 <= i < |older| ==> now - older[i] >= WINDOW
    requires IsRecentSuffix(times, now, r)
    ensures IsRecentSuffix(older + times, now, r)
  {
  }

  lemma SuffixOf(times: seq<real>, now: real, r: seq<real>)
    requires IsRecentSuffix(times, now, r)
    ensures r == times[|times| - |r|..]
  {
    var k := |times| - |r|;
    assert forall i :: 0 <= i < |r| ==> times[k + i] == r[i];
  }

  /** Of times in order, the recent ones are the last ones. */
  lemma {:induction false} RecentIsSuffix(times: seq<real>, now: real)
    requires InOrder(times, now)
    ensures IsRecentSuffix(times, now, Recent(times, now))
  {
    if times == [] {
    } else {
      var n := |times| - 1;
      RecentIsSuffix(times[..n], now);
      RecentOneMore(times[..n], times[n], now, Recent(times[..n], now));
      assert times[..n] + [times[n]] == times;
    }
  }

  lemma RecentOfWindow(stored: seq<real>, log: seq<real>, clock: real, now: real, r: seq<real>)
    requires WindowOk(stored, log, clock) && clock <= now && IsRecentSuffix(stored, now, r)
    ensures IsRecentSuffix(log, now, r)
  {
    var d := |log| - |stored|;
    OldTimesBefore(log[..d], stored, now, r);
    assert log[..d] + stored == log;
  }

  /** Pruning the stored list finds the recent attempts of the whole log. */
  lemma RecentOfStored(stored: seq<real>, log: seq<real>, clock: real, now: real)
    requires WindowOk(stored, log, clock) && clock <= now
    ensures IsRecentSuffix(log, now, Recent(stored, now))
  {
    RecentIsSuffix(stored, now);
    RecentOfWindow(stored, log, clock, now, Recent(stored, now));
  }

  /** An attempt is rejected exactly when the fifth-last admitted one is less than a window
      ago. */
  lemma RejectsExactly(stored: seq<real>, log: seq<real>, clock: real, now: real)
    requires WindowOk(stored, log, clock) && clock <= now
    ensures |Recent(stored, now)| < MAX_ATTEMPTS <==>
            (|log| >= MAX_ATTEMPTS ==> now - log[|log| - MAX_ATTEMPTS] >= WINDOW)
  {
    RecentOfStored(stored, log, clock, now);
  }

  lemma AppendKeepsWindow(r: seq<real>, log: seq<real>, clock: real, now: real)
    requires InOrder(log, clock) && SixSpan(log) && clock <= now
    requires IsRecentSuffix(log, now, r) && |r| < MAX_ATTEMPTS
    ensures WindowOk(r + [now], log + [now], now)
  {
    SuffixOf(log, now, r);
    assert (log + [now])[|log| - |r|..] == log[|log| - |r|..] + [now];
    forall i, j | 0 <= i && j == i + MAX_ATTEMPTS && j < |log + [now]|
      ensures (log + [now])[j] - (log + [now])[i] >= WINDOW
    {
      assert (log + [now])[i] == log[i];
    }
  }

  lemma AdmissionKeepsWindow(stored: seq<real>, log: seq<real>, clock: real, now: real)
    requires WindowOk(stored, log, clock) && clock <= now && |Recent(stored, now)| < MAX_ATTEMPTS
    ensures WindowOk(Recent(stored, now) + [now], log + [now], now)
  {
    RecentOfStored(stored, log, clock, now);
    AppendKeepsWindow(Recent(stored, now), log, clock, now);
  }

  lemma WaitingKeepsWindow(stored: seq<real>, log: seq<real>, clock: real, now: real)
    requires WindowOk(stored, log, clock) && clock <= now
    ensures WindowOk(stored, log, now)
  {
  }

  lemma StepKeepsKey(s: State, key: string, other: string, now: real)
    requires KeyOk(s, key) && KeyOk(s, other) && s.clock <= now
    ensures KeyOk(Step(s, key, now), other)
  {
    var stored, log := Lookup(s.rateLimits, other).GetOr([]), Log(s, other);
    if key == other && Admits(s, key, now) {
      AdmissionKeepsWindow(stored, log, s.clock, now);
    } else {
      WaitingKeepsWindow(stored, log, s.clock, now);
    }
  }

  function Run(lower: string -> string, attempts: seq<Attempt>): State {
    if attempts == [] then Init
    else
      var last := attempts[|attempts| - 1];
      Step(Run(lower, attempts[..|attempts| - 1]), lower(last.username), last.now)
  }

  ghost predicate Monotone(attempts: seq<Attempt>) {
    && (forall i :: 0 <= i < |attempts| ==> 0.0 <= attempts[i].now)
    && (forall i, j :: 0 <= i < j < |attempts| ==> attempts[i].now <= attempts[j].now)
  }

  lemma {:induction false} RunKeepsKey(lower: string -> string, attempts: seq<Attempt>, key: string)
    requires Monotone(attempts)
    ensures KeyOk(Run(lower, attempts), key)
    ensures Run(lower, attempts).clock == if attempts == [] then 0.0 else attempts[|attempts| - 1].now
  {
    if attempts == [] {
    } else {
      var last := attempts[|attempts| - 1];
      RunKeepsKey(lower, attempts[..|attempts| - 1], key);
      RunKeepsKey(lower, attempts[..|attempts| - 1], lower(last.username));
      StepKeepsKey(Run(lower, attempts[..|attempts| - 1]), lower(last.username), key, last.now);
    }
  }

  /** The times of the admitted attempts on a username, by the verdicts of the run. */
  function Admitted(lower: string -> string, attempts: seq<Attempt>, key: string): seq<real> {
    if attempts == [] then []
    else
      var before, a := attempts[..|attempts| - 1], attempts[|attempts| - 1];
      Admitted(lower, before, key)
        + if lower(a.username) == key && Admits(Run(lower, before), key, a.now) then [a.now] else []
  }

  /** The history of a run holds exactly those. */
  lemma {:induction false} LogIsAdmitted(lower: string -> string, attempts: seq<Attempt>, key: string)
    ensures Log(Run(lower, attempts), key) == Admitted(lower, attempts, key)
  {
    if attempts == [] {
    } else {
      LogIsAdmitted(lower, attempts[..|attempts| - 1], key);
    }
  }

  /** In every run, any six consecutive admitted attempts of a username span a window. */
  lemma SixAttemptsSpanAMinute(lower: string -> string, attempts: seq<Attempt>, key: string, i: nat)
    requires Monotone(attempts)
    requires i + 5 < |Admitted(lower, attempts, key)|
    ensures Admitted(lower, attempts, key)[i + 5] - Admitted(lower, attempts, key)[i] >= 60.0
  {
    RunKeepsKey(lower, attempts, key);
    LogIsAdmitted(lower, attempts, key);
  }

  lemma MonotonePrefix(attempts: seq<Attempt>, next: Attempt)
    requires Monotone(attempts + [next])
    ensures Monotone(attempts) && next.now >= if attempts == [] then 0.0 else attempts[|attempts| - 1].now
  {
    var all := attempts + [next];
    assert forall i :: 0 <= i < |attempts| ==> all[i] == attempts[i];
    assert all[|attempts|] == next;
  }

  lemma AdmitsExactly(s: State, key: string, now: real)
    requires KeyOk(s, key) && s.clock <= now
    ensures Admits(s, key, now) <==>
            (|Log(s, key)| >= MAX_ATTEMPTS ==> now - Log(s, key)[|Log(s, key)| - MAX_ATTEMPTS] >= WINDOW)
  {
    RejectsExactly(Lookup(s.rateLimits, key).GetOr([]), Log(s, key), s.clock, now);
  }

  /** And the limiter is no stricter than that: it turns an attempt away only when admitting
      it would put six within a window. */
  lemma LimiterIsExact(lower: string -> string, attempts: seq<Attempt>, next: Attempt)
    requires Monotone(attempts + [next])
    ensures var log := Admitted(lower, attempts, lower(next.username));
            Admits(Run(lower, attempts), lower(next.username), next.now) <==>
            (|log| >= 5 ==> next.now - log[|log| - 5] >= 60.0)
  {
    LogIsAdmitted(lower, attempts, lower(next.username));
    MonotonePrefix(attempts, next);
    var s, key := Run(lower, attempts), lower(next.username);
    RunKeepsKey(lower, attempts, key);
    AdmitsExactly(s, key, next.now);
  }
}
