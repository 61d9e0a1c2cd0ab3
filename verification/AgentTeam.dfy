/** The agent hierarchy (core/agent_team.py): who reports to whom, edited in place. */
module AgentTeam {
  import opened Wrappers
  import opened Forest

  type Name = string

  datatype Node = Node(role: string, reportsTo: Option<Name>, delegatesTo: seq<Name>, autoDelegation: bool)

  /** The `nodes` dictionary with its insertion order. */
  datatype Config = Config(order: seq<Name>, nodes: map<Name, Node>) {
    ghost predicate WellFormed() {
      && (forall i, j :: 0 <= i < j < |order| ==> order[i] != order[j])
      && (forall n :: n in order <==> n in nodes)
    }
  }

  const DEFAULT_PARENT: Name := "Nova"

  /** An absent or empty `reports_to` counts as none. */
  predicate Proper(n: Option<Name>) {
    n.Some? && n.value != ""
  }

  function Chart(nodes: map<Name, Node>): map<Name, Name> {
    map n | n in nodes && Proper(nodes[n].reportsTo) :: nodes[n].reportsTo.value
  }

  /** Every non-empty `reports_to` names a known node. */
  ghost predicate Closed(nodes: map<Name, Node>) {
    forall n :: n in Chart(nodes) ==> Chart(nodes)[n] in nodes
  }

  // ---------------------------------------------------------------------------
  // reports_to_creates_cycle
  // ---------------------------------------------------------------------------

  /** What the cycle check decides: the node is the proposed parent or above it. */
  ghost predicate CreatesCycle(nodes: map<Name, Node>, node: Name, proposed: Option<Name>) {
    if !Proper(proposed) then proposed == Some(node)
    else Reach(Chart(nodes), proposed.value, node)
  }

  /** The walk of the source, on any configuration: cyclic and dangling ones included. */
  method ReportsToCreatesCycle(node: Name, proposed: Option<Name>, nodes: map<Name, Node>) returns (r: bool)
    ensures r <==> CreatesCycle(nodes, node, proposed)
  {
    if !Proper(proposed) || proposed == Some(node) {
      assert Iter(Chart(nodes), node, 0) == Some(node);
      return proposed == Some(node);
    }
    var cursor := proposed;
    var visited: set<Name> := {};
    ghost var k: nat := 0;
    ghost var g := Chart(nodes);
    while Proper(cursor) && cursor.value !in visited
      invariant Proper(cursor) ==> Iter(g, proposed.value, k) == cursor
      invariant node !in visited
      invariant proposed.value in visited || cursor == proposed
      invariant forall x :: x in visited && x in g ==> g[x] in visited || cursor == Some(g[x])
      decreases |nodes.Keys - visited|, if Proper(cursor) then 1 else 0
    {
      if cursor.value == node {
        return true;
      }
      IterSum(g, proposed.value, k, 1);
      ghost var before := nodes.Keys - visited;
      visited := visited + {cursor.value};
      if cursor.value in nodes {
        assert nodes.Keys - visited == before - {cursor.value};
        cursor := nodes[cursor.value].reportsTo;
      } else {
        assert nodes.Keys - visited == before;
        cursor := None;
      }
      k := k + 1;
    }
    forall j: nat ensures Iter(g, proposed.value, j) != Some(node) {
      IterStaysIn(g, visited, proposed.value, j);
    }
    return false;
  }

  /** On an acyclic chart the check is true exactly when the new edge closes a cycle. */
  lemma CheckIsExact(nodes: map<Name, Node>, node: Name, proposed: Option<Name>)
    requires Proper(proposed) && Acyclic(Chart(nodes))
    ensures CreatesCycle(nodes, node, proposed) <==> !Acyclic(Chart(nodes)[node := proposed.value])
  {
    RetargetKeepsAcyclic(Chart(nodes), {node}, proposed.value);
    assert Retarget(Chart(nodes), {node}, proposed.value) == Chart(nodes)[node := proposed.value];
  }

  // ---------------------------------------------------------------------------
  // sanitize_team_config
  // ---------------------------------------------------------------------------

  /** The delegates that survive: known, not the node itself, first occurrences in order. */
  function CleanDelegates(node: Name, known: set<Name>, ds: seq<Name>): seq<Name> {
    if ds == [] then []
    else
      var clean := CleanDelegates(node, known, ds[..|ds| - 1]);
      var d := ds[|ds| - 1];
      if d == node || d !in known || d in clean then clean else clean + [d]
  }

  lemma {:induction false} CleanDelegatesAreExactly(node: Name, known: set<Name>, ds: seq<Name>)
    ensures var c := CleanDelegates(node, known, ds);
            && (forall d :: d in c <==> d in ds && d in known && d != node)
            && (forall i, j :: 0 <= i < j < |c| ==> c[i] != c[j])
  {
    if ds == [] {
    } else {
      CleanDelegatesAreExactly(node, known, ds[..|ds| - 1]);
      assert ds == ds[..|ds| - 1] + [ds[|ds| - 1]];
    }
  }

  /** Where a name first occurs. */
  function FirstIndex(ds: seq<Name>, d: Name): nat {
    if ds == [] || ds[0] == d then 0 else 1 + FirstIndex(ds[1..], d)
  }

  lemma {:induction false} FirstIndexOfConcat(ds: seq<Name>, d: Name, e: Name)
    ensures d in ds ==> FirstIndex(ds + [e], d) == FirstIndex(ds, d) < |ds|
    ensures d !in ds && d == e ==> FirstIndex(ds + [e], d) == |ds|
  {
    if ds == [] {
    } else {
      assert (ds + [e])[1..] == ds[1..] + [e];
      FirstIndexOfConcat(ds[1..], d, e);
    }
  }

  /** They are in the order of their first occurrences. */
  lemma {:induction false} CleanDelegatesKeepOrder(node: Name, known: set<Name>, ds: seq<Name>, i: nat, j: nat)
    requires i < j < |CleanDelegates(node, known, ds)|
    ensures var c := CleanDelegates(node, known, ds); FirstIndex(ds, c[i]) < FirstIndex(ds, c[j])
  {
    var before, d := ds[..|ds| - 1], ds[|ds| - 1];
    var c := CleanDelegates(node, known, before);
    CleanDelegatesAreExactly(node, known, before);
    assert ds == before + [d];
    FirstIndexOfConcat(before, c[i], d);
    if j < |c| {
      CleanDelegatesKeepOrder(node, known, before, i, j);
      FirstIndexOfConcat(before, c[j], d);
    } else {
      FirstIndexOfConcat(before, d, d);
    }
  }

  /** The `reports_to` that survives: not the node itself, known, and closing no cycle. */
  ghost function CleanParent(node: Name, nodes: map<Name, Node>, reportsTo: Option<Name>): Option<Name> {
    if reportsTo == Some(node) then None
    else if !Proper(reportsTo) then reportsTo
    else if reportsTo.value !in nodes || CreatesCycle(nodes, node, reportsTo) then None
    else reportsTo
  }

  ghost function CleanDelegation(node: Name, nodes: map<Name, Node>,
      delegatesTo: Option<seq<Name>>): Option<seq<Name>> {
    if delegatesTo.Some? then Some(CleanDelegates(node, nodes.Keys, delegatesTo.value)) else None
  }

  method Sanitize(node: Name, nodes: map<Name, Node>, reportsTo: Option<Name>, delegatesTo: Option<seq<Name>>)
    returns (r: Option<Name>, d: Option<seq<Name>>)
    ensures r == CleanParent(node, nodes, reportsTo)
    ensures d == CleanDelegation(node, nodes, delegatesTo)
  {
    r, d := reportsTo, delegatesTo;
    if r == Some(node) {
      r := None;
    } else if Proper(r) && r.value !in nodes {
      r := None;
    }
    if d.Some? {
      var clean := [];
      for i := 0 to |d.value|
        invariant clean == CleanDelegates(node, nodes.Keys, d.value[..i])
      {
        assert d.value[..i + 1][..i] == d.value[..i];
        if d.value[i] != node && d.value[i] in nodes && d.value[i] !in clean {
          clean := clean + [d.value[i]];
        }
      }
      assert d.value[..|d.value|] == d.value;
      d := Some(clean);
    }
    if Proper(r) {
      var cycle := ReportsToCreatesCycle(node, r, nodes);
      if cycle {
        r := None;
      }
    }
  }

  /** Sanitizing re-reads the stored configuration, where a node being added is still
      missing. Whether its entry is there makes no difference. */
  lemma StaleReadIsHarmless(node: Name, entry: Node, nodes: map<Name, Node>, reportsTo: Option<Name>, ds: seq<Name>)
    ensures CleanParent(node, nodes[node := entry], reportsTo) == CleanParent(node, nodes, reportsTo)
    ensures CleanDelegates(node, nodes[node := entry].Keys, ds) == CleanDelegates(node, nodes.Keys, ds)
  {
    if Proper(reportsTo) {
      var g, h := Chart(nodes), Chart(nodes[node := entry]);
      assert forall x :: x != node ==> Lookup(g, x) == Lookup(h, x);
      ReachIgnoresTarget(g, h, reportsTo.value, node);
    }
    if ds != [] {
      StaleReadIsHarmless(node, entry, nodes, reportsTo, ds[..|ds| - 1]);
    }
  }

  // ---------------------------------------------------------------------------
  // update_node_role
  // ---------------------------------------------------------------------------

  /** Arguments that are None leave the stored value as it is. */
  datatype Update = Update(node: Name, role: Option<string>, reportsTo: Option<Name>,
                           delegatesTo: Option<seq<Name>>, autoDelegation: Option<bool>)

  const NEW_NODE := Node("member", Some(DEFAULT_PARENT), [], false)

  function WithNode(c: Config, n: Name): Config {
    if n in c.nodes then c else Config(c.order + [n], c.nodes[n := NEW_NODE])
  }

  ghost function Updated(c: Config, u: Update): Config {
    var c1 := WithNode(c, u.node);
    var previous := c1.nodes[u.node];
    var sanitized := u.reportsTo.Some? || u.delegatesTo.Some?;
    var role := if sanitized && u.role.GetOr("") == "" then previous.role else u.role.GetOr(previous.role);
    var parent := CleanParent(u.node, c.nodes, u.reportsTo);
    c1.(nodes := c1.nodes[u.node :=
      Node(role,
           if parent.Some? then parent else previous.reportsTo,
           CleanDelegation(u.node, c.nodes, u.delegatesTo).GetOr(previous.delegatesTo),
           u.autoDelegation.GetOr(previous.autoDelegation))])
  }

  // ---------------------------------------------------------------------------
  // cleanup_team_references
  // ---------------------------------------------------------------------------

  /** The first node in insertion order whose role is leader. */
  function Leader(order: seq<Name>, nodes: map<Name, Node>): Option<Name>
    requires forall n :: n in order ==> n in nodes
  {
    if order == [] then None
    else if nodes[order[0]].role == "leader" then Some(order[0])
    else Leader(order[1..], nodes)
  }

  function Without(ds: seq<Name>, removed: Name): seq<Name> {
    if ds == [] then []
    else
      var kept := Without(ds[..|ds| - 1], removed);
      if ds[|ds| - 1] == removed then kept else kept + [ds[|ds| - 1]]
  }

  function CleanedNode(n: Node, removed: Name, leader: Option<Name>): Node {
    n.(reportsTo := if n.reportsTo == Some(removed) then leader else n.reportsTo,
       delegatesTo := Without(n.delegatesTo, removed))
  }

  function Cleaned(c: Config, removed: Name): Config
    requires forall n :: n in c.order ==> n in c.nodes
  {
    c.(nodes := map n | n in c.nodes :: CleanedNode(c.nodes[n], removed, Leader(c.order, c.nodes)))
  }

  predicate Mentions(n: Node, removed: Name) {
    n.reportsTo == Some(removed) || removed in n.delegatesTo
  }

  /** The body of the cleanup loop. */
  method CleanEntry(entry: Node, removed: Name, leader: Option<Name>) returns (n: Node, touched: bool)
    ensures n == CleanedNode(entry, removed, leader)
    ensures touched <==> entry.reportsTo == Some(removed) || removed in entry.delegatesTo
  {
    n, touched := entry, false;
    if n.reportsTo == Some(removed) {
      n, touched := n.(reportsTo := leader), true;
    }
    if removed in n.delegatesTo {
      var kept := [];
      for k := 0 to |n.delegatesTo|
        invariant kept == Without(n.delegatesTo[..k], removed)
      {
        assert n.delegatesTo[..k + 1][..k] == n.delegatesTo[..k];
        if n.delegatesTo[k] != removed {
          kept := kept + [n.delegatesTo[k]];
        }
      }
      assert n.delegatesTo[..|n.delegatesTo|] == n.delegatesTo;
      n, touched := n.(delegatesTo := kept), true;
    } else {
      WithoutKeepsOthers(n.delegatesTo, removed);
    }
  }

  /** The loop has cleaned the first `i` names of the order. */
  ghost predicate VisitedTo(c: Config, nodes: map<Name, Node>, removed: Name, i: nat)
    requires c.WellFormed()
  {
    && nodes.Keys == c.nodes.Keys
    && forall j :: 0 <= j < |c.order| ==>
         nodes[c.order[j]] ==
           if j < i then CleanedNode(c.nodes[c.order[j]], removed, Leader(c.order, c.nodes)) else c.nodes[c.order[j]]
  }

  lemma VisitNext(c: Config, nodes: map<Name, Node>, removed: Name, i: nat)
    requires c.WellFormed() && i < |c.order| && VisitedTo(c, nodes, removed, i)
    ensures var n := CleanedNode(c.nodes[c.order[i]], removed, Leader(c.order, c.nodes));
            VisitedTo(c, nodes[c.order[i] := n], removed, i + 1)
  {
  }

  /** Cleaning every name in the order cleans the whole dictionary. */
  lemma AllVisited(c: Config, nodes: map<Name, Node>, removed: Name)
    requires c.WellFormed() && VisitedTo(c, nodes, removed, |c.order|)
    ensures nodes == Cleaned(c, removed).nodes
    ensures (exists j :: 0 <= j < |c.order| && Mentions(c.nodes[c.order[j]], removed)) <==>
            (exists n :: n in c.nodes && Mentions(c.nodes[n], removed))
  {
    forall n | n in nodes ensures nodes[n] == Cleaned(c, removed).nodes[n] {
      var j :| 0 <= j < |c.order| && c.order[j] == n;
    }
  }

  /** The stored team configuration. */
  class TeamFile {
    var config: Config

    constructor (c: Config)
      ensures config == c
    {
      config := c;
    }

    method UpdateNodeRole(u: Update)
      requires config.WellFormed()
      modifies this
      ensures config == Updated(old(config), u)
    {
      var edited := config;
      if u.node !in edited.nodes {
        edited := Config(edited.order + [u.node], edited.nodes[u.node := NEW_NODE]);
      }
      var role, reportsTo, delegatesTo := u.role, u.reportsTo, u.delegatesTo;
      if reportsTo.Some? || delegatesTo.Some? {
        if role.GetOr("") == "" {
          role := Some(edited.nodes[u.node].role);
        }
        reportsTo, delegatesTo := Sanitize(u.node, config.nodes, reportsTo, delegatesTo);
      }
      var n := edited.nodes[u.node];
      if role.Some? {
        n := n.(role := role.value);
      }
      if reportsTo.Some? {
        n := n.(reportsTo := reportsTo);
      }
      if delegatesTo.Some? {
        n := n.(delegatesTo := delegatesTo.value);
      }
      if u.autoDelegation.Some? {
        n := n.(autoDelegation := u.autoDelegation.value);
      }
      config := edited.(nodes := edited.nodes[u.node := n]);
    }

    method CleanupTeamReferences(removed: Name) returns (dirty: bool)
      requires config.WellFormed()
      modifies this
      ensures config == Cleaned(old(config), removed)
      ensures var was := old(config).nodes;
              dirty <==> exists n :: n in was && (was[n].reportsTo == Some(removed) || removed in was[n].delegatesTo)
    {
      var c := config;
      var leader := Leader(c.order, c.nodes);
      dirty := false;
      var nodes := c.nodes;
      for i := 0 to |c.order|
        modifies {}
        invariant VisitedTo(c, nodes, removed, i)
        invariant dirty <==> exists j :: 0 <= j < i && Mentions(c.nodes[c.order[j]], removed)
      {
        var n, touched := CleanEntry(nodes[c.order[i]], removed, leader);
        VisitNext(c, nodes, removed, i);
        dirty := dirty || touched;
        nodes := nodes[c.order[i] := n];
      }
      AllVisited(c, nodes, removed);
      config := config.(nodes := nodes);
    }
  }

  lemma {:induction false} WithoutKeepsOthers(ds: seq<Name>, removed: Name)
    ensures removed !in Without(ds, removed)
    ensures forall d :: d != removed ==> (d in Without(ds, removed) <==> d in ds)
    ensures removed !in ds ==> Without(ds, removed) == ds
  {
    if ds == [] {
    } else {
      var before, d := ds[..|ds| - 1], ds[|ds| - 1];
      WithoutKeepsOthers(before, removed);
      assert ds == before + [d];
      assert Without(ds, removed) == if d == removed then Without(before, removed) else Without(before, removed) + [d];
    }
  }

  // ---------------------------------------------------------------------------
  // Theorems
  // ---------------------------------------------------------------------------

  /** The hierarchy is a closed forest that contains the default parent. */
  ghost predicate Hierarchy(c: Config) {
    c.WellFormed() && Acyclic(Chart(c.nodes)) && Closed(c.nodes) && DEFAULT_PARENT in c.nodes
  }

  /** The chart after an update changes at the updated node only. */
  lemma ChartOfUpdate(c: Config, u: Update)
    ensures var g := Chart(c.nodes);
            var parent := CleanParent(u.node, c.nodes, u.reportsTo);
            Chart(Updated(c, u).nodes) ==
              if parent.Some? then if Proper(parent) then Retarget(g, {u.node}, parent.value) else g - {u.node}
              else if u.node in c.nodes then g
              else Retarget(g, {u.node}, DEFAULT_PARENT)
  {
  }

  /** An update of any forest, dangling references included, keeps it a forest if and only if
      it does not create a node under the default parent that is above the default parent
      already. */
  lemma UpdateKeepsAcyclic(c: Config, u: Update)
    requires Acyclic(Chart(c.nodes))
    ensures Acyclic(Chart(Updated(c, u).nodes)) <==>
            !(u.node !in c.nodes && CleanParent(u.node, c.nodes, u.reportsTo).None?
              && CreatesCycle(c.nodes, u.node, Some(DEFAULT_PARENT)))
  {
    ChartOfUpdate(c, u);
    var g := Chart(c.nodes);
    var parent := CleanParent(u.node, c.nodes, u.reportsTo);
    if Proper(parent) {
      RetargetKeepsAcyclic(g, {u.node}, parent.value);
    } else if parent.Some? {
      RemovalKeepsAcyclic(g, {u.node});
    } else {
      RetargetKeepsAcyclic(g, {u.node}, DEFAULT_PARENT);
    }
  }

  /** When every reference is known, the only such node is the default parent itself. */
  lemma UpdateOfClosedKeepsAcyclic(c: Config, u: Update)
    requires Acyclic(Chart(c.nodes)) && Closed(c.nodes)
    ensures Acyclic(Chart(Updated(c, u).nodes)) <==>
            !(u.node == DEFAULT_PARENT && u.node !in c.nodes && CleanParent(u.node, c.nodes, u.reportsTo).None?)
  {
    UpdateKeepsAcyclic(c, u);
    var g := Chart(c.nodes);
    if u.node == DEFAULT_PARENT {
      assert Iter(g, u.node, 0) == Some(u.node);
    } else if u.node !in c.nodes {
      forall k: nat ensures Iter(g, DEFAULT_PARENT, k) != Some(u.node) {
        IterStaysIn(g, c.nodes.Keys + {DEFAULT_PARENT}, DEFAULT_PARENT, k);
      }
    }
  }

  /** Two forests that an update without a parent turns into cycles: the empty one, and one
      whose default parent reports to an unknown node. */
  lemma CreatingANodeCanCloseACycle()
    ensures var u := Update(DEFAULT_PARENT, None, None, None, None);
            var g := Chart(Updated(Config([], map[]), u).nodes);
            Acyclic(Chart(map[])) && Lookup(g, DEFAULT_PARENT) == Some(DEFAULT_PARENT) && !Acyclic(g)
    ensures var c := Config([DEFAULT_PARENT], map[DEFAULT_PARENT := Node("leader", Some("X"), [], false)]);
            var g := Chart(Updated(c, Update("X", None, None, None, None)).nodes);
            Acyclic(Chart(c.nodes)) && g == map[DEFAULT_PARENT := "X", "X" := DEFAULT_PARENT] && !Acyclic(g)
  {
    var u := Update(DEFAULT_PARENT, None, None, None, None);
    var empty: map<Name, Node> := map[];
    assert Chart(empty) == map[];
    assert Iter(Chart(empty), DEFAULT_PARENT, 0) == Some(DEFAULT_PARENT);
    UpdateKeepsAcyclic(Config([], empty), u);
    var nodes := map[DEFAULT_PARENT := Node("leader", Some("X"), [], false)];
    assert Chart(nodes) == map[DEFAULT_PARENT := "X"];
    forall a: Name, k: nat | k > 0 ensures Iter(Chart(nodes), a, k) != Some(a) {
      assert k > 1 && a in Chart(nodes) ==> Iter(Chart(nodes), "X", k - 1) == None;
    }
    assert Iter(Chart(nodes), "X", 0) == Some("X");
    assert Iter(Chart(nodes), DEFAULT_PARENT, 1) == Some("X");
    UpdateKeepsAcyclic(Config([DEFAULT_PARENT], nodes), Update("X", None, None, None, None));
  }

  lemma UpdateKeepsHierarchy(c: Config, u: Update)
    requires Hierarchy(c)
    ensures Hierarchy(Updated(c, u))
  {
    UpdateOfClosedKeepsAcyclic(c, u);
    ChartOfUpdate(c, u);
    var c' := Updated(c, u);
    assert c'.nodes.Keys == c.nodes.Keys + {u.node};
    assert forall n :: n in Chart(c.nodes) ==> Chart(c.nodes)[n] in c'.nodes;
  }

  /** A proposed parent is taken exactly when it is a known node and the new edge closes no
      cycle; otherwise the node keeps the parent it has. */
  lemma ProposedParentIsTakenExactly(c: Config, u: Update)
    requires Acyclic(Chart(c.nodes)) && Proper(u.reportsTo)
    ensures var parent := Updated(c, u).nodes[u.node].reportsTo;
            var taken := u.reportsTo.value in c.nodes && Acyclic(Chart(c.nodes)[u.node := u.reportsTo.value]);
            parent == if taken then u.reportsTo else WithNode(c, u.node).nodes[u.node].reportsTo
  {
    CheckIsExact(c.nodes, u.node, u.reportsTo);
    if u.reportsTo == Some(u.node) {
      assert Iter(Chart(c.nodes), u.node, 0) == Some(u.node);
    }
  }

  ghost function UpdatedByAll(c: Config, us: seq<Update>): Config
    decreases |us|
  {
    if us == [] then c else UpdatedByAll(Updated(c, us[0]), us[1..])
  }

  /** What an update writes: an argument that is given wins and one that is absent leaves the
      field of the node, or of a new member under the default parent, as it was. An empty role
      counts as given only when neither a parent nor delegates are; a proposed parent that is
      sanitized away counts as absent. */
  lemma UpdateSetsFields(c: Config, u: Update)
    ensures u.node in Updated(c, u).nodes
    ensures var n := Updated(c, u).nodes[u.node];
            var was := if u.node in c.nodes then c.nodes[u.node] else Node("member", Some("Nova"), [], false);
            && (u.role.None? ==> n.role == was.role)
            && (u.role.Some? && u.role.value != "" ==> n.role == u.role.value)
            && (u.role == Some("") ==>
                  n.role == if u.reportsTo.None? && u.delegatesTo.None? then "" else was.role)
            && n.autoDelegation == (if u.autoDelegation.Some? then u.autoDelegation.value else was.autoDelegation)
            && (u.delegatesTo.None? ==> n.delegatesTo == was.delegatesTo)
            && (u.delegatesTo.Some? ==>
                  forall d :: d in n.delegatesTo <==> d in u.delegatesTo.value && d in c.nodes && d != u.node)
            && (u.reportsTo.None? ==> n.reportsTo == was.reportsTo)
            && (u.reportsTo == Some("") && u.node != "" ==> n.reportsTo == Some(""))
  {
    if u.delegatesTo.Some? {
      CleanDelegatesAreExactly(u.node, c.nodes.Keys, u.delegatesTo.value);
    }
  }

  /** The role that an update gives. */
  function GivenRole(u: Update): Option<string> {
    if u.role == Some("") && (u.reportsTo.Some? || u.delegatesTo.Some?) then None else u.role
  }

  function LastRole(us: seq<Update>, n: Name): Option<string> {
    if us == [] then None
    else
      var u := us[|us| - 1];
      if u.node == n && GivenRole(u).Some? then GivenRole(u) else LastRole(us[..|us| - 1], n)
  }

  lemma RoleAfterUpdate(c: Config, u: Update, n: Name)
    requires n in c.nodes
    ensures n in Updated(c, u).nodes
    ensures Updated(c, u).nodes[n].role == if u.node == n then GivenRole(u).GetOr(c.nodes[n].role) else c.nodes[n].role
  {
    UpdateSetsFields(c, u);
  }

  /** After any sequence of updates a node has the last role it was given. */
  lemma {:induction false} LastRoleWins(c: Config, us: seq<Update>, n: Name)
    requires n in c.nodes
    ensures n in UpdatedByAll(c, us).nodes
    ensures UpdatedByAll(c, us).nodes[n].role == LastRole(us, n).GetOr(c.nodes[n].role)
  {
    if us == [] {
    } else {
      var before, u := us[..|us| - 1], us[|us| - 1];
      LastRoleWins(c, before, n);
      UpdatedByMore(c, before, u);
      assert before + [u] == us;
      RoleAfterUpdate(UpdatedByAll(c, before), u, n);
    }
  }

  lemma {:induction false} UpdatedByMore(c: Config, us: seq<Update>, u: Update)
    ensures UpdatedByAll(c, us + [u]) == Updated(UpdatedByAll(c, us), u)
    decreases |us|
  {
    if us == [] {
      assert [u][1..] == [];
    } else {
      assert (us + [u])[1..] == us[1..] + [u];
      UpdatedByMore(Updated(c, us[0]), us[1..], u);
    }
  }

  /** A cleanup changes references only, and of those only the ones to the removed node. */
  lemma CleanupTouchesReferencesOnly(c: Config, removed: Name, n: Name)
    requires c.WellFormed() && n in c.nodes
    ensures Cleaned(c, removed).order == c.order && n in Cleaned(c, removed).nodes
    ensures var before, after := c.nodes[n], Cleaned(c, removed).nodes[n];
            && after.role == before.role && after.autoDelegation == before.autoDelegation
            && (before.reportsTo != Some(removed) ==> after.reportsTo == before.reportsTo)
            && (removed !in before.delegatesTo ==> after.delegatesTo == before.delegatesTo)
  {
    WithoutKeepsOthers(c.nodes[n].delegatesTo, removed);
  }

  lemma WithoutLast(ds: seq<Name>, d: Name, removed: Name)
    ensures Without(ds + [d], removed) == Without(ds, removed) + if d == removed then [] else [d]
  {
    assert (ds + [d])[..|ds|] == ds;
  }

  /** Dropping the removed node from a list is a filter: from lists in a row it drops it in
      each, and from a single name that name or nothing. */
  lemma {:induction false} WithoutIsFilter(a: seq<Name>, b: seq<Name>, removed: Name)
    ensures Without(a + b, removed) == Without(a, removed) + Without(b, removed)
    decreases |b|
  {
    if b == [] {
      assert a + b == a;
    } else {
      var before, d := b[..|b| - 1], b[|b| - 1];
      WithoutIsFilter(a, before, removed);
      WithoutLast(a + before, d, removed);
      WithoutLast(before, d, removed);
      assert a + b == a + before + [d] && b == before + [d];
    }
  }

  lemma WithoutOne(d: Name, removed: Name)
    ensures Without([d], removed) == if d == removed then [] else [d]
  {
    WithoutLast([], d, removed);
    assert [] + [d] == [d];
  }

  /** No sequence of updates touches the entry of a node it does not name, or the order of
      those that were there. */
  lemma {:induction false} UpdatesTouchNamedNodesOnly(c: Config, us: seq<Update>, n: Name)
    requires forall i :: 0 <= i < |us| ==> us[i].node != n
    ensures Lookup(UpdatedByAll(c, us).nodes, n) == Lookup(c.nodes, n)
    ensures c.order <= UpdatedByAll(c, us).order
    decreases |us|
  {
    if us == [] {
    } else {
      assert Lookup(Updated(c, us[0]).nodes, n) == Lookup(c.nodes, n);
      UpdatesTouchNamedNodesOnly(Updated(c, us[0]), us[1..], n);
    }
  }

  /** Any sequence of updates keeps the hierarchy. */
  lemma {:induction false} UpdatesKeepHierarchy(c: Config, us: seq<Update>)
    requires Hierarchy(c)
    ensures Hierarchy(UpdatedByAll(c, us))
    decreases |us|
  {
    if us == [] {
    } else {
      UpdateKeepsHierarchy(c, us[0]);
      UpdatesKeepHierarchy(Updated(c, us[0]), us[1..]);
    }
  }

  /** The leader is the first node of the order with the role "leader", if there is one. */
  lemma {:induction false} LeaderIsFirst(order: seq<Name>, nodes: map<Name, Node>)
    requires forall n :: n in order ==> n in nodes
    ensures match Leader(order, nodes)
            case None => forall n :: n in order ==> nodes[n].role != "leader"
            case Some(l) =>
              exists i :: && 0 <= i < |order| && order[i] == l && nodes[l].role == "leader"
                          && forall j :: 0 <= j < i ==> nodes[order[j]].role != "leader"
  {
    if order == [] {
    } else if nodes[order[0]].role == "leader" {
      assert order[0] == Leader(order, nodes).value;
    } else {
      LeaderIsFirst(order[1..], nodes);
      if Leader(order, nodes).Some? {
        var l := Leader(order, nodes).value;
        var i :| 0 <= i < |order[1..]| && order[1..][i] == l
                 && forall j :: 0 <= j < i ==> nodes[order[1..][j]].role != "leader";
        assert order[i + 1] == l;
        assert forall j :: 0 < j < i + 1 ==> order[j] == order[1..][j - 1];
      }
    }
  }

  /** The nodes that report to `removed`. */
  function Members(nodes: map<Name, Node>, removed: Name): set<Name> {
    set n | n in nodes && nodes[n].reportsTo == Some(removed)
  }

  /** Two dictionaries that differ in who reports to `removed`. */
  lemma Redirect(before: map<Name, Node>, after: map<Name, Node>, removed: Name, leader: Option<Name>)
    requires before.Keys == after.Keys
    requires forall n :: n in before ==>
               after[n].reportsTo == if before[n].reportsTo == Some(removed) then leader else before[n].reportsTo
    ensures Chart(after) == if Proper(leader) then Retarget(Chart(before), Members(before, removed), leader.value)
                            else Chart(before) - Members(before, removed)
  {
    var g, members := Chart(before), Members(before, removed);
    if Proper(leader) {
      assert Chart(after).Keys == g.Keys + members;
    } else {
      assert Chart(after).Keys == g.Keys - members;
    }
  }

  lemma ChartOfCleanup(c: Config, removed: Name)
    requires c.WellFormed()
    ensures var g := Chart(c.nodes);
            var members := Members(c.nodes, removed);
            var leader := Leader(c.order, c.nodes);
            Chart(Cleaned(c, removed).nodes)
              == if Proper(leader) then Retarget(g, members, leader.value) else g - members
  {
    Redirect(c.nodes, Cleaned(c, removed).nodes, removed, Leader(c.order, c.nodes));
  }

  /** Cleaning up after a node keeps the forest exactly when the leader that inherits its
      members is not among them or below one: when the cycle check says no for each. */
  lemma CleanupKeepsAcyclic(c: Config, removed: Name)
    requires c.WellFormed() && Acyclic(Chart(c.nodes))
    ensures var leader := Leader(c.order, c.nodes);
            Acyclic(Chart(Cleaned(c, removed).nodes)) <==>
            (!Proper(leader) || forall n :: n in Members(c.nodes, removed) ==> !CreatesCycle(c.nodes, n, leader))
  {
    var leader := Leader(c.order, c.nodes);
    ChartOfCleanup(c, removed);
    if Proper(leader) {
      RetargetKeepsAcyclic(Chart(c.nodes), Members(c.nodes, removed), leader.value);
    } else {
      RemovalKeepsAcyclic(Chart(c.nodes), Members(c.nodes, removed));
    }
  }

  /** A cleanup is safe: the leader is the removed node or not below it. */
  ghost predicate SafeCleanup(c: Config, removed: Name)
    requires c.WellFormed()
  {
    var leader := Leader(c.order, c.nodes);
    !Proper(leader) || leader.value == removed || !CreatesCycle(c.nodes, removed, leader)
  }

  /** For a removed node with a name, one cycle check on the leader decides it. */
  lemma CleanupOfNamedKeepsAcyclic(c: Config, removed: Name)
    requires c.WellFormed() && removed != "" && Acyclic(Chart(c.nodes))
    ensures Acyclic(Chart(Cleaned(c, removed).nodes)) <==> SafeCleanup(c, removed)
  {
    CleanupKeepsAcyclic(c, removed);
    var leader, g := Leader(c.order, c.nodes), Chart(c.nodes);
    if Proper(leader) {
      assert forall n :: n in Members(c.nodes, removed) <==> n in g && g[n] == removed;
      if leader.value == removed {
        RetargetKeepsAcyclic(g, Members(c.nodes, removed), removed);
        assert Retarget(g, Members(c.nodes, removed), removed) == g;
      } else {
        ReachThroughChild(g, leader.value, removed);
      }
    }
  }

  /** After a cleanup nobody delegates to the removed node, and nobody reports to it unless
      it is itself the leader that inherits its members. */
  lemma CleanupLeavesNoReference(c: Config, removed: Name)
    requires c.WellFormed()
    ensures var c' := Cleaned(c, removed);
            && (forall n :: n in c'.nodes ==> removed !in c'.nodes[n].delegatesTo)
            && ((exists n :: n in c'.nodes && c'.nodes[n].reportsTo == Some(removed)) <==>
                (Leader(c.order, c.nodes) == Some(removed)
                 && exists n :: n in c.nodes && c.nodes[n].reportsTo == Some(removed)))
  {
    var c' := Cleaned(c, removed);
    forall n | n in c.nodes ensures removed !in c'.nodes[n].delegatesTo {
      WithoutKeepsOthers(c.nodes[n].delegatesTo, removed);
    }
    forall n | n in c.nodes
      ensures c'.nodes[n].reportsTo == Some(removed) <==>
              (Leader(c.order, c.nodes) == Some(removed) && c.nodes[n].reportsTo == Some(removed))
    {
    }
  }

  /** A cleanup keeps a hierarchy if and only if it is safe. */
  lemma CleanupKeepsHierarchy(c: Config, removed: Name)
    requires Hierarchy(c) && removed != ""
    ensures Hierarchy(Cleaned(c, removed)) <==> SafeCleanup(c, removed)
  {
    CleanupOfNamedKeepsAcyclic(c, removed);
    LeaderIsFirst(c.order, c.nodes);
    ChartOfCleanup(c, removed);
    assert Cleaned(c, removed).nodes.Keys == c.nodes.Keys;
  }

  /** A leader that is a root other than the removed node is always safe. */
  lemma CleanupUnderRootLeader(c: Config, removed: Name)
    requires Hierarchy(c) && removed != ""
    requires Leader(c.order, c.nodes).Some? && Leader(c.order, c.nodes).value !in {removed, ""}
    requires Leader(c.order, c.nodes).value !in Chart(c.nodes)
    ensures Hierarchy(Cleaned(c, removed))
    ensures forall n :: n in c.nodes ==>
              && Cleaned(c, removed).nodes[n].reportsTo != Some(removed)
              && removed !in Cleaned(c, removed).nodes[n].delegatesTo
  {
    var l := Leader(c.order, c.nodes).value;
    forall k: nat ensures Iter(Chart(c.nodes), l, k) != Some(removed) {
      IterStaysIn(Chart(c.nodes), {l}, l, k);
    }
    CleanupKeepsHierarchy(c, removed);
    CleanupLeavesNoReference(c, removed);
  }

  datatype Edit = EditUpdate(update: Update) | EditCleanup(removed: Name)

  ghost function Edited(c: Config, e: Edit): Config
    requires c.WellFormed()
  {
    match e
    case EditUpdate(u) => Updated(c, u)
    case EditCleanup(removed) => Cleaned(c, removed)
  }

  ghost predicate SafeEdit(c: Config, e: Edit)
    requires c.WellFormed()
  {
    e.EditCleanup? ==> e.removed != "" && SafeCleanup(c, e.removed)
  }

  lemma EditKeepsWellFormed(c: Config, e: Edit)
    requires c.WellFormed()
    ensures Edited(c, e).WellFormed()
  {
  }

  /** The configuration after a sequence of edits; None when some cleanup was not safe. */
  ghost function EditedByAll(c: Config, es: seq<Edit>): Option<Config>
    requires c.WellFormed()
    decreases |es|
  {
    if es == [] then Some(c)
    else if !SafeEdit(c, es[0]) then None
    else
      EditKeepsWellFormed(c, es[0]);
      EditedByAll(Edited(c, es[0]), es[1..])
  }

  lemma EditKeepsHierarchy(c: Config, e: Edit)
    requires Hierarchy(c) && SafeEdit(c, e)
    ensures Hierarchy(Edited(c, e))
  {
    match e
    case EditUpdate(u) => UpdateKeepsHierarchy(c, u);
    case EditCleanup(removed) => CleanupKeepsHierarchy(c, removed);
  }

  /** Updates and safe cleanups in any order keep the hierarchy. */
  lemma {:induction false} EditsKeepHierarchy(c: Config, es: seq<Edit>)
    requires Hierarchy(c) && EditedByAll(c, es).Some?
    ensures Hierarchy(EditedByAll(c, es).value)
    decreases |es|
  {
    if es == [] {
    } else {
      EditKeepsHierarchy(c, es[0]);
      EditsKeepHierarchy(Edited(c, es[0]), es[1..]);
    }
  }

  /** A leader below the removed node: cleaning up makes it report to itself. */
  lemma CleanupCanCloseACycle()
    ensures var c := Config(["Nova", "Runa"],
                            map["Nova" := Node("member", None, [], false),
                                "Runa" := Node("leader", Some("Nova"), [], false)]);
            Hierarchy(c) && Cleaned(c, "Nova").nodes["Runa"].reportsTo == Some("Runa")
  {
    var nodes := map["Nova" := Node("member", None, [], false), "Runa" := Node("leader", Some("Nova"), [], false)];
    var c := Config(["Nova", "Runa"], nodes);
    assert Leader(["Runa"], nodes) == Some("Runa");
    assert c.order[1..] == ["Runa"];
    assert Chart(nodes) == map["Runa" := "Nova"];
    forall a: Name, k: nat | k > 0 ensures Iter(Chart(nodes), a, k) != Some(a) {
      assert k > 1 && a in Chart(nodes) ==> Iter(Chart(nodes), "Nova", k - 1) == None;
    }
  }
}
