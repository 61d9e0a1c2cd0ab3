/** Alert rules (core/alert_manager.py): two sweeps over the same rules, a synchronous one
    and the one of the background loop.

    The clock is read twice per rule: `checked` for the cooldown test, `stamped` for the time
    of the fire. */
module Alerts {
  import opened Wrappers

  datatype Operator = Lt | Gt | Le | Ge | Eq | Ne | Unknown

  datatype AlertState = OK | FIRING | RESOLVED

  datatype Rule = Rule(id: string, metric: string, operator: Operator, threshold: real, cooldown: real, enabled: bool,
                       state: AlertState, lastFired: real, fireCount: nat)
  {
    predicate Evaluate(value: real) {
      match operator
      case Lt => value < threshold
      case Gt => value > threshold
      case Le => value <= threshold
      case Ge => value >= threshold
      case Eq => value == threshold
      case Ne => value != threshold
      case Unknown => false
    }

    predicate CanFire(now: real) {
      state.FIRING? ==> now - lastFired >= cooldown
    }
  }

  datatype Reading = Reading(checked: real, stamped: real)

  /** The rule fires now. */
  predicate Fires(r: Rule, value: Option<real>, at: Reading) {
    r.enabled && value.Some? && r.Evaluate(value.value) && r.CanFire(at.checked)
  }

  /** The rule after a sweep that saw `value`. */
  function Swept(r: Rule, value: Option<real>, at: Reading): Rule {
    if Fires(r, value, at) then r.(state := FIRING, lastFired := at.stamped, fireCount := r.fireCount + 1)
    else if r.enabled && value.Some? && !r.Evaluate(value.value) && r.state.FIRING? then r.(state := RESOLVED)
    else r
  }

  function SweptAll(rules: seq<Rule>, metrics: map<string, real>, clock: seq<Reading>): seq<Rule>
    requires |rules| == |clock|
  {
    seq(|rules|, i requires 0 <= i < |rules| => Swept(rules[i], Lookup(metrics, rules[i].metric), clock[i]))
  }

  /** The ids of the rules that fire in a sweep, in order. */
  function FiredBy(rules: seq<Rule>, metrics: map<string, real>, clock: seq<Reading>): seq<string>
    requires |rules| == |clock|
  {
    if rules == [] then []
    else
      var n := |rules| - 1;
      var fired := FiredBy(rules[..n], metrics, clock[..n]);
      if Fires(rules[n], Lookup(metrics, rules[n].metric), clock[n]) then fired + [rules[n].id] else fired
  }

  /** One more rule swept. */
  lemma FiredByNext(rules: seq<Rule>, metrics: map<string, real>, clock: seq<Reading>, i: nat)
    requires |rules| == |clock| && i < |rules|
    ensures FiredBy(rules[..i + 1], metrics, clock[..i + 1]) ==
            FiredBy(rules[..i], metrics, clock[..i]) +
            if Fires(rules[i], Lookup(metrics, rules[i].metric), clock[i]) then [rules[i].id] else []
  {
    assert rules[..i + 1][..i] == rules[..i] && clock[..i + 1][..i] == clock[..i];
  }

  class AlertManager {
    var rules: seq<Rule>
    var metrics: map<string, real>

    ghost function Abs(): State
      reads this
    {
      State(rules, metrics)
    }

    constructor (rules: seq<Rule>)
      ensures this.rules == rules && metrics == map[]
    {
      this.rules, metrics := rules, map[];
    }

    /** The synchronous sweep; it first merges the given metrics. */
    method Evaluate(update: map<string, real>, clock: seq<Reading>) returns (fired: seq<string>)
      requires |clock| == |rules|
      modifies this
      ensures Abs() == Step(old(Abs()), WholeSweep(update, clock))
      ensures metrics == old(metrics) + update
      ensures rules == SweptAll(old(rules), metrics, clock) && fired == FiredBy(old(rules), metrics, clock)
    {
      metrics := metrics + update;
      fired := [];
      ghost var start := rules;
      for i := 0 to |rules|
        modifies this`rules
        invariant |rules| == |start|
        invariant forall k :: 0 <= k < |start| ==>
                    rules[k] == if k < i then Swept(start[k], Lookup(metrics, start[k].metric), clock[k]) else start[k]
        invariant fired == FiredBy(start[..i], metrics, clock[..i])
      {
        FiredByNext(start, metrics, clock, i);
        var r := rules[i];
        if r.enabled && r.metric in metrics {
          var isFiring := r.Evaluate(metrics[r.metric]);
          if isFiring && r.CanFire(clock[i].checked) {
            r := r.(state := FIRING);
            r := r.(lastFired := clock[i].stamped);
            r := r.(fireCount := r.fireCount + 1);
            fired := fired + [r.id];
          } else if !isFiring && r.state.FIRING? {
            r := r.(state := RESOLVED);
          }
        }
        rules := rules[i := r];
      }
      assert start[..|start|] == start && clock[..|start|] == clock;
    }

    /** `update_metrics` */
    method UpdateMetrics(m: map<string, real>)
      modifies this`metrics
      ensures Abs() == Step(old(Abs()), NewMetrics(m))
    {
      metrics := m;
    }

    /** One turn of the background loop, up to the await of its callback. */
    method EvaluateRule(i: nat, at: Reading) returns (call: bool)
      requires i < |rules|
      modifies this`rules
      ensures Abs() == Step(old(Abs()), Turn(i, at))
      ensures call <==> Fires(old(rules)[i], Lookup(metrics, old(rules)[i].metric), at)
    {
      call := false;
      var r := rules[i];
      if r.enabled && r.metric in metrics {
        var isFiring := r.Evaluate(metrics[r.metric]);
        if isFiring && !r.state.FIRING? {
          r := r.(state := FIRING, lastFired := at.stamped, fireCount := r.fireCount + 1);
          call := true;
        } else if isFiring && r.state.FIRING? && r.CanFire(at.checked) {
          r := r.(lastFired := at.stamped, fireCount := r.fireCount + 1);
          call := true;
        } else if !isFiring && r.state.FIRING? {
          r := r.(state := RESOLVED);
        }
      }
      rules := rules[i := r];
    }

    /** The sweep of the background loop when nothing comes between its turns; `called` are
        the rules its callback is given. */
    method EvaluateAll(clock: seq<Reading>) returns (called: seq<string>)
      requires |clock| == |rules|
      modifies this`rules
      ensures rules == SweptAll(old(rules), metrics, clock) && called == FiredBy(old(rules), metrics, clock)
    {
      called := [];
      ghost var start := rules;
      for i := 0 to |rules|
        invariant |rules| == |start|
        invariant forall k :: 0 <= k < |start| ==>
                    rules[k] == if k < i then Swept(start[k], Lookup(metrics, start[k].metric), clock[k]) else start[k]
        invariant called == FiredBy(start[..i], metrics, clock[..i])
      {
        FiredByNext(start, metrics, clock, i);
        var call := EvaluateRule(i, clock[i]);
        if call {
          called := called + [rules[i].id];
        }
      }
      assert start[..|start|] == start && clock[..|start|] == clock;
    }
  }

  // ---------------------------------------------------------------------------
  // Episodes
  // ---------------------------------------------------------------------------

  /** One sweep as a rule sees it, whichever of the two it is. */
  datatype Sweep = Sweep(value: Option<real>, at: Reading)

  /** A rule with the times it fired in its current episode. */
  datatype Watched = Watched(rule: Rule, episode: seq<real>)

  function Watch(w: Watched, s: Sweep): Watched {
    var r := Swept(w.rule, s.value, s.at);
    Watched(r,
            if Fires(w.rule, s.value, s.at) then
              if w.rule.state.FIRING? then w.episode + [s.at.stamped] else [s.at.stamped]
            else if r.state.FIRING? then w.episode
            else [])
  }

  function WatchAll(r: Rule, sweeps: seq<Sweep>): Watched {
    if sweeps == [] then Watched(r, [])
    else Watch(WatchAll(r, sweeps[..|sweeps| - 1]), sweeps[|sweeps| - 1])
  }

  /** Readings follow each other. */
  ghost predicate Monotone(sweeps: seq<Sweep>) {
    && (forall i :: 0 <= i < |sweeps| ==> sweeps[i].at.checked <= sweeps[i].at.stamped)
    && (forall i, j :: 0 <= i < j < |sweeps| ==> sweeps[i].at.stamped <= sweeps[j].at.checked)
  }

  ghost predicate Spaced(times: seq<real>, cooldown: real) {
    forall i :: 0 < i < |times| ==> times[i] - times[i - 1] >= cooldown
  }

  ghost predicate EpisodeOk(w: Watched) {
    && (w.rule.state.FIRING? <==> w.episode != [])
    && (w.episode != [] ==> w.episode[|w.episode| - 1] == w.rule.lastFired)
    && Spaced(w.episode, w.rule.cooldown)
  }

  lemma {:induction false} WatchKeepsEpisode(r: Rule, sweeps: seq<Sweep>)
    requires !r.state.FIRING? && Monotone(sweeps)
    ensures EpisodeOk(WatchAll(r, sweeps)) && WatchAll(r, sweeps).rule.cooldown == r.cooldown
    ensures WatchAll(r, sweeps).episode != [] ==>
              sweeps != [] && WatchAll(r, sweeps).rule.lastFired <= sweeps[|sweeps| - 1].at.stamped
  {
    if sweeps == [] {
    } else {
      WatchKeepsEpisode(r, sweeps[..|sweeps| - 1]);
    }
  }

  /** Under any mix of the two sweeps, fires of one episode are a cooldown apart. */
  lemma FiresAreACooldownApart(r: Rule, sweeps: seq<Sweep>, i: nat)
    requires !r.state.FIRING? && Monotone(sweeps)
    requires 0 < i < |WatchAll(r, sweeps).episode|
    ensures WatchAll(r, sweeps).episode[i] - WatchAll(r, sweeps).episode[i - 1] >= r.cooldown
  {
    WatchKeepsEpisode(r, sweeps);
  }

  lemma {:induction false} SpacedTimesSpan(times: seq<real>, cooldown: real)
    requires times != [] && Spaced(times, cooldown)
    ensures (|times| - 1) as real * cooldown <= times[|times| - 1] - times[0]
  {
    if |times| > 1 {
      SpacedTimesSpan(times[..|times| - 1], cooldown);
      assert (|times| - 1) as real * cooldown == (|times| - 2) as real * cooldown + cooldown;
    }
  }

  lemma TimesKeepsOrder(x: real, y: real, c: real)
    requires c > 0.0
    ensures x < y <==> x * c < y * c
  {
    if x < y {
      assert (y - x) * c > 0.0;
    } else {
      assert (x - y) * c >= 0.0;
    }
  }

  lemma CooldownsFit(n: int, c: real, d: real)
    requires c > 0.0 && n as real * c <= d
    ensures n <= (d / c).Floor
  {
    var q := d / c;
    assert q * c == d;
    TimesKeepsOrder(q, n as real, c);
  }

  /** At most one fire more than cooldowns fit between the first fire and `until`. */
  ghost predicate FitsInto(fires: seq<real>, cooldown: real, until: real)
    requires fires != [] && cooldown > 0.0
  {
    |fires| <= 1 + ((until - fires[0]) / cooldown).Floor
  }

  lemma SpacedTimesFit(times: seq<real>, cooldown: real, end: real)
    requires times != [] && Spaced(times, cooldown) && cooldown > 0.0 && times[|times| - 1] <= end
    ensures FitsInto(times, cooldown, end)
  {
    SpacedTimesSpan(times, cooldown);
    CooldownsFit(|times| - 1, cooldown, end - times[0]);
  }

  /** So their number is bounded by the length of the episode so far. */
  lemma EpisodeFiresAreBounded(r: Rule, sweeps: seq<Sweep>)
    requires !r.state.FIRING? && Monotone(sweeps) && r.cooldown > 0.0
    requires sweeps != [] && WatchAll(r, sweeps).episode != []
    ensures FitsInto(WatchAll(r, sweeps).episode, r.cooldown, sweeps[|sweeps| - 1].at.stamped)
  {
    WatchKeepsEpisode(r, sweeps);
    SpacedTimesFit(WatchAll(r, sweeps).episode, r.cooldown, sweeps[|sweeps| - 1].at.stamped);
  }

  /** A rule that began OK is OK again never: it is until its first fire, and then firing or
      resolved. */
  lemma {:induction false} OkUntilFirstFire(r: Rule, sweeps: seq<Sweep>)
    requires r.state.OK?
    ensures WatchAll(r, sweeps).rule.state.OK? <==> WatchAll(r, sweeps).rule.fireCount == r.fireCount
    ensures WatchAll(r, sweeps).rule.fireCount >= r.fireCount
  {
    if sweeps == [] {
    } else {
      OkUntilFirstFire(r, sweeps[..|sweeps| - 1]);
    }
  }

  /** What each operator calls a violation, below, at and above the threshold. */
  lemma OperatorsMean(r: Rule, value: real)
    ensures value < r.threshold ==> (r.Evaluate(value) <==> r.operator in {Lt, Le, Ne})
    ensures value == r.threshold ==> (r.Evaluate(value) <==> r.operator in {Le, Ge, Eq})
    ensures value > r.threshold ==> (r.Evaluate(value) <==> r.operator in {Gt, Ge, Ne})
  {
  }

  /** After any sweeps a rule fires exactly when it is enabled, has its metric, the metric
      violates it, and no fire of the present episode is less than a cooldown ago. */
  lemma FiresExactly(r: Rule, sweeps: seq<Sweep>, next: Sweep)
    requires !r.state.FIRING? && Monotone(sweeps)
    ensures var w := WatchAll(r, sweeps);
            Fires(w.rule, next.value, next.at) <==>
              && r.enabled && next.value.Some? && w.rule.Evaluate(next.value.value)
              && (w.episode == [] || next.at.checked - w.episode[|w.episode| - 1] >= r.cooldown)
  {
    WatchKeepsEpisode(r, sweeps);
    StateFollowsValue(r, sweeps);
  }

  // ---------------------------------------------------------------------------
  // Any interleaving
  // ---------------------------------------------------------------------------

  datatype State = State(rules: seq<Rule>, metrics: map<string, real>)

  /** A synchronous sweep is one step. The background sweep is a step for each of its turns:
      its callback is awaited between them, and everything else can come there. */
  datatype Event =
    | NewMetrics(metrics: map<string, real>)
    | WholeSweep(update: map<string, real>, clock: seq<Reading>)
    | Turn(i: nat, at: Reading)

  predicate Enabled(s: State, e: Event) {
    match e
    case NewMetrics(_) => true
    case WholeSweep(_, clock) => |clock| == |s.rules|
    case Turn(i, _) => i < |s.rules|
  }

  function Step(s: State, e: Event): State
    requires Enabled(s, e)
  {
    match e
    case NewMetrics(m) => s.(metrics := m)
    case WholeSweep(update, clock) => State(SweptAll(s.rules, s.metrics + update, clock), s.metrics + update)
    case Turn(i, at) => s.(rules := s.rules[i := Swept(s.rules[i], Lookup(s.metrics, s.rules[i].metric), at)])
  }

  /** The state after a sequence of events; None when some event was not possible. */
  function Run(s: State, es: seq<Event>): Option<State> {
    if es == [] then Some(s)
    else
      match Run(s, es[..|es| - 1])
      case None => None
      case Some(before) =>
        if Enabled(before, es[|es| - 1]) then Some(Step(before, es[|es| - 1])) else None
  }

  /** What rule `k` sees of an event. */
  function Seen(s: State, e: Event, k: nat): seq<Sweep>
    requires Enabled(s, e) && k < |s.rules|
  {
    match e
    case NewMetrics(_) => []
    case WholeSweep(update, clock) => [Sweep(Lookup(s.metrics + update, s.rules[k].metric), clock[k])]
    case Turn(i, at) => if i == k then [Sweep(Lookup(s.metrics, s.rules[k].metric), at)] else []
  }

  lemma {:induction false} RunKeepsLength(s: State, es: seq<Event>)
    requires Run(s, es).Some?
    ensures |Run(s, es).value.rules| == |s.rules|
  {
    if es == [] {
    } else {
      RunKeepsLength(s, es[..|es| - 1]);
    }
  }

  function SeenAll(s: State, es: seq<Event>, k: nat): seq<Sweep>
    requires Run(s, es).Some? && k < |s.rules|
  {
    if es == [] then []
    else
      var before := es[..|es| - 1];
      RunKeepsLength(s, before);
      SeenAll(s, before, k) + Seen(Run(s, before).value, es[|es| - 1], k)
  }

  /** A rule goes through exactly the sweeps it sees, whatever comes between them. */
  lemma {:induction false} RunIsSeenSweeps(s: State, es: seq<Event>, k: nat)
    requires Run(s, es).Some? && k < |s.rules|
    ensures |Run(s, es).value.rules| == |s.rules|
    ensures Run(s, es).value.rules[k] == WatchAll(s.rules[k], SeenAll(s, es, k)).rule
  {
    if es == [] {
    } else {
      var before, e := es[..|es| - 1], es[|es| - 1];
      RunIsSeenSweeps(s, before, k);
      var seen := SeenAll(s, before, k);
      var next := Seen(Run(s, before).value, e, k);
      if |next| == 1 {
        assert (seen + next)[..|seen|] == seen && (seen + next)[|seen|] == next[0];
      } else {
        assert seen + next == seen;
      }
    }
  }

  function Readings(e: Event): seq<Reading> {
    match e
    case NewMetrics(_) => []
    case WholeSweep(_, clock) => clock
    case Turn(_, at) => [at]
  }

  /** The clock does not go back from event to event. */
  ghost predicate Chronological(es: seq<Event>) {
    && (forall i, r :: 0 <= i < |es| && r in Readings(es[i]) ==> r.checked <= r.stamped)
    && (forall i, j, r, q :: 0 <= i < j < |es| && r in Readings(es[i]) && q in Readings(es[j]) ==>
          r.stamped <= q.checked)
  }

  lemma {:induction false} SeenAreRead(s: State, es: seq<Event>, k: nat, x: Sweep) returns (i: nat)
    requires Run(s, es).Some? && k < |s.rules| && x in SeenAll(s, es, k)
    ensures i < |es| && x.at in Readings(es[i])
  {
    var before := es[..|es| - 1];
    RunKeepsLength(s, before);
    if x in SeenAll(s, before, k) {
      i := SeenAreRead(s, before, k, x);
    } else {
      i := |es| - 1;
      assert x in Seen(Run(s, before).value, es[i], k);
    }
  }

  lemma {:induction false} SeenAllIsMonotone(s: State, es: seq<Event>, k: nat)
    requires Run(s, es).Some? && k < |s.rules| && Chronological(es)
    ensures Monotone(SeenAll(s, es, k))
  {
    if es == [] {
    } else {
      var last := |es| - 1;
      SeenAllIsMonotone(s, es[..last], k);
      RunKeepsLength(s, es[..last]);
      var seen, next := SeenAll(s, es[..last], k), Seen(Run(s, es[..last]).value, es[last], k);
      assert forall y :: y in next ==> y.at in Readings(es[last]);
      forall x, y | x in seen && y in next ensures x.at.stamped <= y.at.checked {
        var i := SeenAreRead(s, es[..last], k, x);
        assert x.at in Readings(es[i]);
      }
      MonotoneAppend(seen, next);
    }
  }

  lemma MonotoneAppend(seen: seq<Sweep>, next: seq<Sweep>)
    requires Monotone(seen) && |next| <= 1
    requires forall x :: x in next ==> x.at.checked <= x.at.stamped
    requires forall x, y :: x in seen && y in next ==> x.at.stamped <= y.at.checked
    ensures Monotone(seen + next)
  {
    forall i, j | 0 <= i < j < |seen + next| ensures (seen + next)[i].at.stamped <= (seen + next)[j].at.checked {
      assert (seen + next)[i] in seen;
      assert (seen + next)[j] == if j < |seen| then seen[j] else next[j - |seen|];
    }
  }

  /** Under any interleaving of synchronous sweeps, new metrics and the turns of background
      sweeps, the fires of an episode of a rule are a cooldown apart, and the last one is the
      time the rule remembers. */
  lemma InterleavedFiresAreACooldownApart(s: State, es: seq<Event>, k: nat)
    requires Run(s, es).Some? && k < |s.rules| && Chronological(es) && !s.rules[k].state.FIRING?
    ensures |Run(s, es).value.rules| == |s.rules|
    ensures var r := Run(s, es).value.rules[k];
            var w := WatchAll(s.rules[k], SeenAll(s, es, k));
            && w.rule == r && Spaced(w.episode, r.cooldown)
            && (r.state.FIRING? <==> w.episode != [])
            && (r.state.FIRING? ==> w.episode[|w.episode| - 1] == r.lastFired)
  {
    RunIsSeenSweeps(s, es, k);
    SeenAllIsMonotone(s, es, k);
    WatchKeepsEpisode(s.rules[k], SeenAll(s, es, k));
  }

  /** And their number is bounded by the time from the first to the latest evaluation. */
  lemma InterleavedFiresAreBounded(s: State, es: seq<Event>, k: nat)
    requires Run(s, es).Some? && k < |s.rules| && Chronological(es) && !s.rules[k].state.FIRING?
    requires s.rules[k].cooldown > 0.0
    requires SeenAll(s, es, k) != [] && WatchAll(s.rules[k], SeenAll(s, es, k)).episode != []
    ensures var sweeps := SeenAll(s, es, k);
            FitsInto(WatchAll(s.rules[k], sweeps).episode, s.rules[k].cooldown, sweeps[|sweeps| - 1].at.stamped)
  {
    SeenAllIsMonotone(s, es, k);
    EpisodeFiresAreBounded(s.rules[k], SeenAll(s, es, k));
  }

  function CountFires(r: Rule, sweeps: seq<Sweep>): nat {
    if sweeps == [] then 0
    else
      var before := WatchAll(r, sweeps[..|sweeps| - 1]).rule;
      var last := sweeps[|sweeps| - 1];
      CountFires(r, sweeps[..|sweeps| - 1]) + if Fires(before, last.value, last.at) then 1 else 0
  }

  /** A rule that is enabled and has its metric is firing after a sweep exactly when the value
      violates it, and its counter counts its fires. */
  lemma {:induction false} StateFollowsValue(r: Rule, sweeps: seq<Sweep>)
    ensures WatchAll(r, sweeps).rule.fireCount == r.fireCount + CountFires(r, sweeps)
    ensures WatchAll(r, sweeps).rule.enabled == r.enabled
    ensures sweeps != [] && r.enabled && sweeps[|sweeps| - 1].value.Some? ==>
              (WatchAll(r, sweeps).rule.state.FIRING? <==>
               WatchAll(r, sweeps).rule.Evaluate(sweeps[|sweeps| - 1].value.value))
  {
    if sweeps == [] {
    } else {
      StateFollowsValue(r, sweeps[..|sweeps| - 1]);
    }
  }
}
