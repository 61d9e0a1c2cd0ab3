/** Runs of the update driver together with the versions they install (node.py and
    core/auto_updater.py): checks overlap at their awaits, and each compares the tags it gets
    with the version it read before asking for them. */
module UpdateRuns {
  import opened Wrappers
  import opened Versions
  import Driver = UpdateDriver

  /** `read` is the version a check compares with, `offered` the tag it applies. */
  datatype State = State(driver: Driver.State, node: Node, read: map<nat, string>, offered: map<nat, string>)

  function Start(version: string): State {
    State(Driver.Init, Node(version, []), map[], map[])
  }

  datatype Event =
    | Begins(trigger: Driver.Trigger)
    | Answered(id: nat, tags: Option<seq<string>>, offer: Option<string>, applyAutomatically: bool)
    | Applied(id: nat, success: bool)
    | Raises(id: nat, cancelled: bool)
    | Closes(id: nat, how: Driver.Outcome)

  function Base(e: Event): Driver.Event {
    match e
    case Begins(trigger) => Driver.Begin(trigger)
    case Answered(i, _, offer, automatic) => Driver.CheckReturns(i, offer.Some?, automatic)
    case Applied(i, success) => Driver.ApplyReturns(i, success)
    case Raises(i, cancelled) => Driver.BodyRaises(i, cancelled)
    case Closes(i, how) => Driver.CloseEnds(i, how)
  }

  ghost predicate Enabled(s: State, e: Event) {
    && Driver.Enabled(s.driver, Base(e))
    && match e
       case Answered(i, tags, offer, _) => i in s.read && Offers(s.read[i], tags, offer)
       case Applied(i, _) => i in s.offered
       case _ => true
  }

  ghost function Step(s: State, e: Event): State
    requires Enabled(s, e)
  {
    var s' := s.(driver := Driver.Step(s.driver, Base(e)));
    match e
    case Begins(_) => if s.driver.word.Busy() then s' else s'.(read := s.read[s.driver.next := s.node.version])
    case Answered(i, _, offer, automatic) =>
      if offer.Some? && automatic then s'.(offered := s.offered[i := offer.value]) else s'
    case Applied(i, success) => if success then s'.(node := Installed(s.node, s.offered[i])) else s'
    case _ => s'
  }

  /** The state after a sequence of events; None when some event was not possible. */
  ghost function Run(start: string, es: seq<Event>): Option<State> {
    if es == [] then Some(Start(start))
    else
      match Run(start, es[..|es| - 1])
      case None => None
      case Some(s) =>
        var e := es[|es| - 1];
        if Enabled(s, e) then Some(Step(s, e)) else None
  }

  /** No poll check fails to close its session while another check is in flight. */
  ghost predicate NeverOverwrites(start: string, es: seq<Event>)
    requires Run(start, es).Some?
  {
    es != [] ==>
      && NeverOverwrites(start, es[..|es| - 1])
      && !Driver.Overwrites(Run(start, es[..|es| - 1]).value.driver, Base(es[|es| - 1]))
  }

  /** The check in flight compares with the version that runs, and applies a tag above it. */
  ghost predicate CheckOk(s: State, i: nat) {
    i in s.driver.checks ==>
      match s.driver.checks[i].point
      case InCheck => i in s.read && s.read[i] == s.node.version
      case InApply => i in s.offered && Less(Key(s.node.version), Key(s.offered[i]))
      case InClose(_) => true
  }

  ghost predicate Inv(start: string, s: State) {
    Driver.Exclusive(s.driver) && Climbs(start, s.node) && forall i :: CheckOk(s, i)
  }

  lemma StepKeepsCheck(s: State, e: Event, i: nat)
    requires Enabled(s, e) && Driver.Exclusive(s.driver) && forall j :: CheckOk(s, j)
    ensures CheckOk(Step(s, e), i)
  {
    assert CheckOk(s, i);
    match e
    case Answered(j, _, _, _) => assert CheckOk(s, j);
    case Applied(j, _) => assert s.driver.checks[j].InFlight();
    case _ =>
  }

  lemma StepKeepsInv(start: string, s: State, e: Event)
    requires Inv(start, s) && Enabled(s, e) && !Driver.Overwrites(s.driver, Base(e))
    ensures Inv(start, Step(s, e))
  {
    Driver.StepKeepsExclusive(s.driver, Base(e));
    forall i ensures CheckOk(Step(s, e), i) {
      StepKeepsCheck(s, e, i);
    }
    if e.Applied? && e.success {
      assert CheckOk(s, e.id);
      InstallKeepsClimbing(start, s.node, s.offered[e.id]);
    }
  }

  /** In every run the running version is the last installed tag without its "v". */
  lemma {:induction false} VersionIsLastInstalled(start: string, es: seq<Event>)
    requires Run(start, es).Some?
    ensures var n := Run(start, es).value.node;
            n.version == if n.installed == [] then start else StripV(n.installed[|n.installed| - 1])
  {
    if es == [] {
    } else {
      VersionIsLastInstalled(start, es[..|es| - 1]);
    }
  }

  /** Installed keys strictly increase, from the key of the version the run starts with. */
  lemma {:induction false} InstalledKeysIncrease(start: string, es: seq<Event>)
    requires Run(start, es).Some? && NeverOverwrites(start, es)
    ensures Inv(start, Run(start, es).value)
  {
    if es == [] {
      assert [start] + [] == [start];
    } else {
      InstalledKeysIncrease(start, es[..|es| - 1]);
      StepKeepsInv(start, Run(start, es[..|es| - 1]).value, es[|es| - 1]);
    }
  }

  /** No tag is applied twice. */
  lemma NoTagTwice(start: string, es: seq<Event>, i: nat, j: nat)
    requires Run(start, es).Some? && NeverOverwrites(start, es)
    requires i < j < |Run(start, es).value.node.installed|
    ensures Run(start, es).value.node.installed[i] != Run(start, es).value.node.installed[j]
  {
    InstalledKeysIncrease(start, es);
    IncreasingAreDistinct(start, Run(start, es).value.node.installed, i, j);
  }

  /** Tags come from the lists that were fetched. */
  lemma {:induction false} TagsWereListed(start: string, es: seq<Event>, tags: set<string>)
    requires Run(start, es).Some?
    requires forall i, t :: 0 <= i < |es| && es[i].Answered? && es[i].tags.Some? && t in es[i].tags.value ==> t in tags
    ensures forall t :: t in Run(start, es).value.node.installed ==> t in tags
    ensures forall i :: i in Run(start, es).value.offered ==> Run(start, es).value.offered[i] in tags
  {
    if es == [] {
    } else {
      TagsWereListed(start, es[..|es| - 1], tags);
    }
  }

  /** While the lists come from a fixed set of tags, there are at most as many updates as it
      has tags. */
  lemma UpdatesAreBounded(start: string, es: seq<Event>, tags: set<string>)
    requires Run(start, es).Some? && NeverOverwrites(start, es)
    requires forall i, t :: 0 <= i < |es| && es[i].Answered? && es[i].tags.Some? && t in es[i].tags.value ==> t in tags
    ensures |Run(start, es).value.node.installed| <= |tags|
  {
    TagsWereListed(start, es, tags);
    var installed := Run(start, es).value.node.installed;
    forall i, j | 0 <= i < j < |installed| ensures installed[i] != installed[j] {
      NoTagTwice(start, es, i, j);
    }
    DistinctFit(installed, tags);
  }

  // ---------------------------------------------------------------------------
  // What an overwriting close can do
  // ---------------------------------------------------------------------------

  lemma RunOfAppend(start: string, es: seq<Event>, s: State, e: Event, s': State)
    requires Run(start, es) == Some(s) && Enabled(s, e) && Step(s, e) == s'
    ensures Run(start, es + [e]) == Some(s')
  {
    assert (es + [e])[..|es|] == es;
  }

  lemma KeyOfDigit(n: nat)
    requires n < 10
    ensures Key(PrintNat(n)) == [n] && Key("v" + PrintNat(n)) == [n]
  {
    KeyInvertsPrint([n]);
    assert [n][..0] == [];
    assert PrintAll([n]) == [PrintNat(n)];
    assert ("v" + PrintNat(n))[1..] == PrintNat(n);
  }

  lemma SingleOffer(v: string, tag: string)
    requires tag != "" && tag[0] == 'v' && Less(Key(v), Key(tag))
    ensures Offers(v, Some([tag]), Some(tag))
  {
    LessIsStrictTotal(Key(tag), Key(tag), []);
  }

  lemma TwoIsNewer()
    ensures Offers("1", Some(["v2"]), Some("v2"))
  {
    KeyOfDigit(1);
    KeyOfDigit(2);
    assert PrintNat(1) == "1" && PrintNat(2) == "2" && "v" + "2" == "v2";
    assert Key("1") == [1] && Key("v2") == [2] && Less([1], [2]);
    SingleOffer("1", "v2");
  }

  /** Two MQTT checks in flight, after a poll check that failed to close its session. */
  function Overlapping(v: string): State {
    State(Driver.State(Driver.Checking, map[1 := Driver.Check(Driver.Mqtt, Driver.InCheck),
                                            2 := Driver.Check(Driver.Mqtt, Driver.InCheck)], 3),
          Node(v, []), map[0 := v, 1 := v, 2 := v], map[])
  }

  lemma ReachOverlapping(v: string) returns (es: seq<Event>)
    ensures Run(v, es) == Some(Overlapping(v))
  {
    var node := Node(v, []);
    var poll := Driver.Check(Driver.Poll, Driver.InCheck);
    var closing := Driver.Check(Driver.Poll, Driver.InClose(Driver.Returned));
    var mqtt := Driver.Check(Driver.Mqtt, Driver.InCheck);
    var s1 := State(Driver.State(Driver.Checking, map[0 := poll], 1), node, map[0 := v], map[]);
    var s2 := s1.(driver := Driver.State(Driver.Idle, map[0 := closing], 1));
    var s3 := State(Driver.State(Driver.Checking, map[0 := closing, 1 := mqtt], 2), node, map[0 := v, 1 := v], map[]);
    var s4 := s3.(driver := Driver.State(Driver.Error, map[1 := mqtt], 2));
    RunOfAppend(v, [], Start(v), Begins(Driver.Poll), s1);
    es := [] + [Begins(Driver.Poll)];
    RunOfAppend(v, es, s1, Answered(0, None, None, false), s2);
    es := es + [Answered(0, None, None, false)];
    RunOfAppend(v, es, s2, Begins(Driver.Mqtt), s3);
    es := es + [Begins(Driver.Mqtt)];
    assert s3.driver.checks - {0} == s4.driver.checks;
    RunOfAppend(v, es, s3, Closes(0, Driver.Raised), s4);
    es := es + [Closes(0, Driver.Raised)];
    RunOfAppend(v, es, s4, Begins(Driver.Mqtt), Overlapping(v));
    es := es + [Begins(Driver.Mqtt)];
  }

  /** Both are offered the same tag. */
  function BothOffered(v: string, tag: string): State {
    var applying := Driver.Check(Driver.Mqtt, Driver.InApply);
    Overlapping(v).(driver := Driver.State(Driver.Updating, map[1 := applying, 2 := applying], 3),
                    offered := map[1 := tag, 2 := tag])
  }

  lemma StepOfOffer(s: State, i: nat, tag: string)
    requires i in s.driver.checks && s.driver.checks[i].point.InCheck?
    requires i in s.read && Offers(s.read[i], Some([tag]), Some(tag))
    ensures var e := Answered(i, Some([tag]), Some(tag), true);
            && Enabled(s, e)
            && Step(s, e) == s.(driver := Driver.Suspend(s.driver, i, Driver.InApply, Driver.Updating),
                                offered := s.offered[i := tag])
  {
  }

  function OneOffered(v: string, tag: string): State {
    var applying, checking := Driver.Check(Driver.Mqtt, Driver.InApply), Driver.Check(Driver.Mqtt, Driver.InCheck);
    Overlapping(v).(driver := Driver.State(Driver.Updating, map[1 := applying, 2 := checking], 3),
                    offered := map[1 := tag])
  }

  lemma FirstOffer(v: string, tag: string)
    requires Offers(v, Some([tag]), Some(tag))
    ensures var e := Answered(1, Some([tag]), Some(tag), true);
            Enabled(Overlapping(v), e) && Step(Overlapping(v), e) == OneOffered(v, tag)
  {
    StepOfOffer(Overlapping(v), 1, tag);
  }

  lemma SecondOffer(v: string, tag: string)
    requires Offers(v, Some([tag]), Some(tag))
    ensures var e := Answered(2, Some([tag]), Some(tag), true);
            Enabled(OneOffered(v, tag), e) && Step(OneOffered(v, tag), e) == BothOffered(v, tag)
  {
    StepOfOffer(OneOffered(v, tag), 2, tag);
  }

  lemma ReachBothOffered(v: string, tag: string) returns (es: seq<Event>)
    requires Offers(v, Some([tag]), Some(tag))
    ensures Run(v, es) == Some(BothOffered(v, tag))
  {
    es := ReachOverlapping(v);
    FirstOffer(v, tag);
    RunOfAppend(v, es, Overlapping(v), Answered(1, Some([tag]), Some(tag), true), OneOffered(v, tag));
    es := es + [Answered(1, Some([tag]), Some(tag), true)];
    SecondOffer(v, tag);
    RunOfAppend(v, es, OneOffered(v, tag), Answered(2, Some([tag]), Some(tag), true), BothOffered(v, tag));
    es := es + [Answered(2, Some([tag]), Some(tag), true)];
  }

  /** And both apply it: whatever single tag is newer than the running version. */
  lemma OverlappingChecksApplyATagTwice(v: string, tag: string) returns (es: seq<Event>)
    requires Offers(v, Some([tag]), Some(tag))
    ensures Run(v, es).Some? && Run(v, es).value.node.installed == [tag, tag]
  {
    es := ReachBothOffered(v, tag);
    var s := BothOffered(v, tag);
    var s1 := Step(s, Applied(1, true));
    assert s1.node == Installed(Node(v, []), tag);
    RunOfAppend(v, es, s, Applied(1, true), s1);
    es := es + [Applied(1, true)];
    RunOfAppend(v, es, s1, Applied(2, true), Step(s1, Applied(2, true)));
    es := es + [Applied(2, true)];
  }
}
