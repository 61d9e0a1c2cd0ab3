/** The topology printer (cli.py): a tree is built from parent addresses that may be
    anything, and printed depth first from a root with a shared visited set. */
module Topology {
  import opened Wrappers
  import opened Forest

  type Addr = int

  datatype Row = Row(name: string, role: string, addr: Addr, parent: Option<Addr>)

  datatype Line = Line(addr: Addr, indent: nat, cycle: bool)

  type Children = map<Option<Addr>, seq<Row>>

  ghost predicate UniqueAddresses(rows: seq<Row>) {
    forall i, j :: 0 <= i < j < |rows| ==> rows[i].addr != rows[j].addr
  }

  function Addresses(rows: seq<Row>): set<Addr> {
    set r | r in rows :: r.addr
  }

  /** Self-parents and parents that are not in the list count as none. */
  function EffectiveParent(known: set<Addr>, r: Row): Option<Addr> {
    if r.parent == Some(r.addr) then None
    else if r.parent.Some? && r.parent.value !in known then None
    else r.parent
  }

  /** The rows under `key`, in list order. */
  function ChildrenOf(known: set<Addr>, rows: seq<Row>, key: Option<Addr>): seq<Row> {
    if rows == [] then []
    else
      var cs := ChildrenOf(known, rows[..|rows| - 1], key);
      if EffectiveParent(known, rows[|rows| - 1]) == key then cs + [rows[|rows| - 1]] else cs
  }

  function LastCoordinator(rows: seq<Row>): Option<Row> {
    if rows == [] then None
    else if rows[|rows| - 1].role == "coordinator" then Some(rows[|rows| - 1])
    else LastCoordinator(rows[..|rows| - 1])
  }

  /** The last coordinator, or else the first row without a parent. */
  function RootOf(rows: seq<Row>): Option<Row> {
    var orphans := ChildrenOf(Addresses(rows), rows, None);
    if LastCoordinator(rows).Some? then LastCoordinator(rows)
    else if orphans != [] then Some(orphans[0])
    else None
  }

  method BuildTree(rows: seq<Row>) returns (children: Children, root: Option<Row>)
    ensures forall k :: Lookup(children, k).GetOr([]) == ChildrenOf(Addresses(rows), rows, k)
    ensures root == RootOf(rows)
  {
    var known: set<Addr> := {};
    for i := 0 to |rows|
      invariant known == Addresses(rows[..i])
    {
      assert rows[..i + 1] == rows[..i] + [rows[i]];
      known := known + {rows[i].addr};
    }
    assert rows[..|rows|] == rows;
    children, root := map[], None;
    for i := 0 to |rows|
      invariant forall k :: Lookup(children, k).GetOr([]) == ChildrenOf(known, rows[..i], k)
      invariant root == LastCoordinator(rows[..i])
    {
      assert rows[..i + 1][..i] == rows[..i];
      var r := rows[i];
      var parent := r.parent;
      if parent == Some(r.addr) {
        parent := None;
      }
      if parent.Some? && parent.value !in known {
        parent := None;
      }
      if parent !in children {
        children := children[parent := []];
      }
      children := children[parent := children[parent] + [r]];
      if r.role == "coordinator" {
        root := Some(r);
      }
    }
    if root.None? && None in children && children[None] != [] {
      root := Some(children[None][0]);
    }
  }

  // ---------------------------------------------------------------------------
  // Printing
  // ---------------------------------------------------------------------------

  /** The lists of children stay within a finite universe of addresses. */
  ghost predicate Within(children: Children, universe: set<Addr>) {
    forall k, r :: k in children && r in children[k] ==> r.addr in universe
  }

  /** The lines printed for a node, and the visited set afterwards. */
  ghost function Printed(children: Children, universe: set<Addr>, n: Addr, indent: nat,
      visited: set<Addr>): (r: (set<Addr>, seq<Line>))
    requires Within(children, universe) && n in universe
    ensures visited <= r.0
    decreases |universe - visited|, 0
  {
    if n in visited then (visited, [Line(n, indent, true)])
    else
      assert universe - (visited + {n}) == (universe - visited) - {n};
      var (v, lines) := PrintedAll(children, universe, Lookup(children, Some(n)).GetOr([]), indent + 1, visited + {n});
      (v, [Line(n, indent, false)] + lines)
  }

  ghost function PrintedAll(children: Children, universe: set<Addr>, cs: seq<Row>, indent: nat,
      visited: set<Addr>): (r: (set<Addr>, seq<Line>))
    requires Within(children, universe) && forall c :: c in cs ==> c.addr in universe
    ensures visited <= r.0
    decreases |universe - visited|, 1 + |cs|
  {
    if cs == [] then (visited, [])
    else
      var (v, lines) := Printed(children, universe, cs[0].addr, indent, visited);
      assert universe - v <= universe - visited;
      Shrinks(universe - v, universe - visited);
      var (v', lines') := PrintedAll(children, universe, cs[1..], indent, v);
      (v', lines + lines')
  }

  lemma Shrinks<T>(a: set<T>, b: set<T>)
    requires a <= b
    ensures |a| <= |b|
  {
    assert b == a + (b - a);
  }

  /** `_print_tree` with its shared set of visited addresses. */
  class Printer {
    var visited: set<Addr>
    var output: seq<Line>

    constructor ()
      ensures visited == {} && output == []
    {
      visited, output := {}, [];
    }

    method PrintTree(node: Row, children: Children, indent: nat, ghost universe: set<Addr>)
      requires Within(children, universe) && node.addr in universe
      modifies this
      ensures var (v, lines) := Printed(children, universe, node.addr, indent, old(visited));
              visited == v && output == old(output) + lines
      decreases |universe - visited|
    {
      if node.addr in visited {
        output := output + [Line(node.addr, indent, true)];
        return;
      }
      assert universe - (visited + {node.addr}) == (universe - visited) - {node.addr};
      visited := visited + {node.addr};
      output := output + [Line(node.addr, indent, false)];
      var cs := Lookup(children, Some(node.addr)).GetOr([]);
      ghost var start := visited;
      ghost var (end, lines) := PrintedAll(children, universe, cs, indent + 1, visited);
      ghost var goal := output + lines;
      assert cs[0..] == cs;
      for i := 0 to |cs|
        invariant start <= visited
        invariant ToPrint(children, universe, cs[i..], indent + 1, visited, output, end, goal)
      {
        PrintNext(children, universe, cs, i, indent + 1, visited, output, end, goal);
        Shrinks(universe - visited, universe - start);
        PrintTree(cs[i], children, indent + 1, universe);
      }
      assert output == goal;
      assert goal == old(output) + ([Line(node.addr, indent, false)] + lines);
    }
  }

  /** Printing the children `cs` leads to the visited set `end` and the output `goal`. */
  ghost predicate ToPrint(children: Children, universe: set<Addr>, cs: seq<Row>, indent: nat, visited: set<Addr>,
      output: seq<Line>, end: set<Addr>, goal: seq<Line>)
    requires Within(children, universe) && forall c :: c in cs ==> c.addr in universe
  {
    var (v, lines) := PrintedAll(children, universe, cs, indent, visited);
    v == end && output + lines == goal
  }

  lemma PrintNext(children: Children, universe: set<Addr>, cs: seq<Row>, i: nat, indent: nat, visited: set<Addr>,
      output: seq<Line>, end: set<Addr>, goal: seq<Line>)
    requires Within(children, universe) && i < |cs| && forall c :: c in cs ==> c.addr in universe
    requires ToPrint(children, universe, cs[i..], indent, visited, output, end, goal)
    ensures var (v, lines) := Printed(children, universe, cs[i].addr, indent, visited);
            ToPrint(children, universe, cs[i + 1..], indent, v, output + lines, end, goal)
  {
    assert cs[i..][0] == cs[i] && cs[i..][1..] == cs[i + 1..];
    var (v, lines) := Printed(children, universe, cs[i].addr, indent, visited);
    var (v', lines') := PrintedAll(children, universe, cs[i + 1..], indent, v);
    assert output + (lines + lines') == output + lines + lines';
  }

  // ---------------------------------------------------------------------------
  // What is printed
  // ---------------------------------------------------------------------------

  /** The parent graph of the rows, after dropping self-parents and unknown parents. */
  function Parents(rows: seq<Row>): map<Addr, Addr>
    requires UniqueAddresses(rows)
  {
    map r | r in rows && EffectiveParent(Addresses(rows), r).Some? ::
      r.addr := EffectiveParent(Addresses(rows), r).value
  }

  /** The child lists are those of a parent graph: each node is listed once, under its
      parent. */
  ghost predicate ChildrenAre(children: Children, g: map<Addr, Addr>) {
    forall p: Addr :: var cs := Lookup(children, Some(p)).GetOr([]);
      && (forall i, j :: 0 <= i < j < |cs| ==> cs[i].addr != cs[j].addr)
      && (forall c :: c in cs ==> c.addr in g && g[c.addr] == p)
      && (forall a :: a in g && g[a] == p ==> exists c :: c in cs && c.addr == a)
  }

  /** Addresses printed without a marker. */
  function Unmarked(lines: seq<Line>): seq<Addr> {
    if lines == [] then []
    else if lines[0].cycle then Unmarked(lines[1..])
    else [lines[0].addr] + Unmarked(lines[1..])
  }

  function Markers(lines: seq<Line>): nat {
    if lines == [] then 0 else (if lines[0].cycle then 1 else 0) + Markers(lines[1..])
  }

  lemma {:induction false} LinesOfConcat(a: seq<Line>, b: seq<Line>)
    ensures Unmarked(a + b) == Unmarked(a) + Unmarked(b) && Markers(a + b) == Markers(a) + Markers(b)
  {
    if a == [] {
      assert a + b == b;
    } else {
      assert (a + b)[1..] == a[1..] + b;
      LinesOfConcat(a[1..], b);
    }
  }

  /** Every visited node but the root has its parent visited. */
  ghost predicate ParentsVisited(g: map<Addr, Addr>, root: Addr, visited: set<Addr>) {
    forall x :: x in visited && x != root ==> x in g && g[x] in visited
  }

  ghost predicate ReachesSome(g: map<Addr, Addr>, x: Addr, tops: set<Addr>) {
    exists t :: t in tops && Reach(g, x, t)
  }

  /** What printing below `tops` adds: `new` are the freshly visited nodes. */
  ghost predicate Covers(g: map<Addr, Addr>, root: Addr, tops: set<Addr>, added: set<Addr>, visited: set<Addr>,
      lines: seq<Line>) {
    && tops <= visited && added <= visited
    && (forall x :: x in added ==> x in tops || (x in g && g[x] in added))
    && (forall x :: x in added ==> ReachesSome(g, x, tops))
    && (forall x :: x in g && g[x] in added ==> x in visited)
    && multiset(Unmarked(lines)) == multiset(added)
    && (forall l :: l in lines && l.cycle ==> l.addr == root)
  }

  /** How many markers: one when the root is met again. */
  ghost function RootMet(g: map<Addr, Addr>, root: Addr, added: set<Addr>): nat {
    if root in g && g[root] in added then 1 else 0
  }

  /** A node above the nodes printed for all of its children. */
  lemma CoversNode(g: map<Addr, Addr>, root: Addr, n: Addr, tops: set<Addr>, added: set<Addr>,
      visited: set<Addr>, lines: seq<Line>, indent: nat)
    requires Covers(g, root, tops, added, visited, lines) && n !in added && n in visited
    requires forall a :: a in tops <==> a in g && g[a] == n
    ensures Covers(g, root, {n}, added + {n}, visited, [Line(n, indent, false)] + lines)
    ensures Markers([Line(n, indent, false)] + lines) == Markers(lines)
    ensures RootMet(g, root, added + {n}) == RootMet(g, root, added) + if root in tops then 1 else 0
  {
    LinesOfConcat([Line(n, indent, false)], lines);
    assert Unmarked([Line(n, indent, false)]) == [n];
    assert Iter(g, n, 0) == Some(n);
    forall x | x in added ensures ReachesSome(g, x, {n}) {
      assert ReachesSome(g, x, tops);
      var t :| t in tops && Reach(g, x, t);
      if x != n { ReachThroughChild(g, x, n); }
      assert Reach(g, x, n);
    }
    assert multiset(added + {n}) == multiset(added) + multiset{n};
  }

  /** Siblings after siblings. */
  lemma CoversBoth(g: map<Addr, Addr>, root: Addr, tops: set<Addr>, added: set<Addr>, visited: set<Addr>,
      lines: seq<Line>, tops': set<Addr>, added': set<Addr>, visited': set<Addr>, lines': seq<Line>)
    requires Covers(g, root, tops, added, visited, lines) && Covers(g, root, tops', added', visited', lines')
    requires visited <= visited' && added !! added'
    ensures Covers(g, root, tops + tops', added + added', visited', lines + lines')
    ensures RootMet(g, root, added + added') == RootMet(g, root, added) + RootMet(g, root, added')
    ensures Markers(lines + lines') == Markers(lines) + Markers(lines')
  {
    LinesOfConcat(lines, lines');
    assert multiset(added + added') == multiset(added) + multiset(added');
    forall x | x in added + added' ensures ReachesSome(g, x, tops + tops') {
      assert ReachesSome(g, x, if x in added then tops else tops');
      var t :| t in tops + tops' && Reach(g, x, t);
    }
  }

  lemma MarkerCovers(g: map<Addr, Addr>, root: Addr, indent: nat, visited: set<Addr>)
    requires root in visited
    ensures Covers(g, root, {root}, {}, visited, [Line(root, indent, true)]) && Markers([Line(root, indent, true)]) == 1
  {
    assert [Line(root, indent, true)][1..] == [];
  }

  lemma NewNodesKeepParentsVisited(g: map<Addr, Addr>, root: Addr, tops: set<Addr>, visited: set<Addr>,
      after: set<Addr>, lines: seq<Line>)
    requires ParentsVisited(g, root, visited) && visited <= after
    requires Covers(g, root, tops, after - visited, after, lines)
    requires forall a :: a in tops ==> a == root || (a in g && g[a] in after)
    ensures ParentsVisited(g, root, after)
  {
  }

  /** A node that may be printed next: fresh, and below the visited ones unless it is the
      root. */
  ghost predicate NodeReady(g: map<Addr, Addr>, root: Addr, n: Addr, visited: set<Addr>) {
    && ParentsVisited(g, root, visited) && n !in visited
    && (n == root || (root in visited && n in g && g[n] in visited))
  }

  /** Children of `p` that may be printed next: distinct, and fresh except for the root. */
  ghost predicate ListReady(g: map<Addr, Addr>, root: Addr, p: Addr, cs: seq<Row>, visited: set<Addr>) {
    && ParentsVisited(g, root, visited) && root in visited && p in visited
    && (forall c :: c in cs ==> c.addr in g && g[c.addr] == p)
    && (forall i, j :: 0 <= i < j < |cs| ==> cs[i].addr != cs[j].addr)
    && (forall c :: c in cs && c.addr != root ==> c.addr !in visited)
  }

  ghost predicate NodeRight(g: map<Addr, Addr>, root: Addr, n: Addr, visited: set<Addr>, after: set<Addr>,
      lines: seq<Line>) {
    && Covers(g, root, {n}, after - visited, after, lines)
    && Markers(lines) == RootMet(g, root, after - visited)
  }

  ghost predicate ListRight(g: map<Addr, Addr>, root: Addr, cs: seq<Row>, visited: set<Addr>, after: set<Addr>,
      lines: seq<Line>) {
    && Covers(g, root, Addresses(cs), after - visited, after, lines)
    && Markers(lines) == (if root in Addresses(cs) then 1 else 0) + RootMet(g, root, after - visited)
  }

  lemma ChildrenAreReady(g: map<Addr, Addr>, root: Addr, n: Addr, cs: seq<Row>, visited: set<Addr>)
    requires NodeReady(g, root, n, visited)
    requires forall i, j :: 0 <= i < j < |cs| ==> cs[i].addr != cs[j].addr
    requires forall c :: c in cs ==> c.addr in g && g[c.addr] == n
    ensures ListReady(g, root, n, cs, visited + {n})
  {
  }

  lemma NodeFromList(g: map<Addr, Addr>, root: Addr, n: Addr, cs: seq<Row>, visited: set<Addr>,
      after: set<Addr>, lines: seq<Line>, indent: nat)
    requires ListRight(g, root, cs, visited + {n}, after, lines) && visited + {n} <= after && n !in visited
    requires forall a :: a in Addresses(cs) <==> a in g && g[a] == n
    ensures NodeRight(g, root, n, visited, after, [Line(n, indent, false)] + lines)
  {
    CoversNode(g, root, n, Addresses(cs), after - (visited + {n}), after, lines, indent);
    assert after - visited == (after - (visited + {n})) + {n};
  }

  /** The first child is met again (the root) or printed; the others remain ready. */
  lemma RestIsReady(g: map<Addr, Addr>, root: Addr, p: Addr, cs: seq<Row>, visited: set<Addr>,
      after: set<Addr>, lines: seq<Line>)
    requires cs != [] && ListReady(g, root, p, cs, visited) && visited <= after
    requires Covers(g, root, {cs[0].addr}, after - visited, after, lines)
    ensures ListReady(g, root, p, cs[1..], after)
  {
    NewNodesKeepParentsVisited(g, root, {cs[0].addr}, visited, after, lines);
    forall c | c in cs[1..] && c.addr != root ensures c.addr !in after {
      assert c in cs;
    }
  }

  lemma ListFromBoth(g: map<Addr, Addr>, root: Addr, cs: seq<Row>, visited: set<Addr>, v: set<Addr>,
      lines: seq<Line>, v': set<Addr>, lines': seq<Line>)
    requires cs != [] && visited <= v <= v'
    requires Covers(g, root, {cs[0].addr}, v - visited, v, lines)
    requires Markers(lines) == (if root == cs[0].addr then 1 else 0) + RootMet(g, root, v - visited)
    requires ListRight(g, root, cs[1..], v, v', lines')
    requires forall j :: 1 <= j < |cs| ==> cs[j].addr != cs[0].addr
    ensures ListRight(g, root, cs, visited, v', lines + lines')
  {
    CoversBoth(g, root, {cs[0].addr}, v - visited, v, lines, Addresses(cs[1..]), v' - v, v', lines');
    assert v' - visited == (v - visited) + (v' - v);
    assert Addresses(cs) == {cs[0].addr} + Addresses(cs[1..]);
  }

  lemma ListOfChildren(children: Children, g: map<Addr, Addr>, n: Addr)
    requires ChildrenAre(children, g)
    ensures var cs := Lookup(children, Some(n)).GetOr([]);
            && (forall i, j :: 0 <= i < j < |cs| ==> cs[i].addr != cs[j].addr)
            && (forall c :: c in cs ==> c.addr in g && g[c.addr] == n)
            && (forall a :: a in Addresses(cs) <==> a in g && g[a] == n)
  {
    var cs := Lookup(children, Some(n)).GetOr([]);
    forall a | a in g && g[a] == n ensures a in Addresses(cs) {
      var c :| c in cs && c.addr == a;
    }
  }

  lemma {:induction false} PrintedIsRight(children: Children, universe: set<Addr>, g: map<Addr, Addr>,
      root: Addr, n: Addr, indent: nat, visited: set<Addr>)
    requires Within(children, universe) && n in universe && ChildrenAre(children, g)
    requires NodeReady(g, root, n, visited)
    ensures var (v, lines) := Printed(children, universe, n, indent, visited);
            NodeRight(g, root, n, visited, v, lines)
    decreases |universe - visited|, 0
  {
    assert universe - (visited + {n}) == (universe - visited) - {n};
    var cs := Lookup(children, Some(n)).GetOr([]);
    ListOfChildren(children, g, n);
    ChildrenAreReady(g, root, n, cs, visited);
    PrintedAllIsRight(children, universe, g, root, n, cs, indent + 1, visited + {n});
    var (v, lines) := PrintedAll(children, universe, cs, indent + 1, visited + {n});
    NodeFromList(g, root, n, cs, visited, v, lines, indent);
  }

  lemma {:induction false} PrintedAllIsRight(children: Children, universe: set<Addr>, g: map<Addr, Addr>,
      root: Addr, p: Addr, cs: seq<Row>, indent: nat, visited: set<Addr>)
    requires Within(children, universe) && ChildrenAre(children, g)
    requires forall c :: c in cs ==> c.addr in universe
    requires ListReady(g, root, p, cs, visited)
    ensures var (v, lines) := PrintedAll(children, universe, cs, indent, visited);
            ListRight(g, root, cs, visited, v, lines)
    decreases |universe - visited|, 1 + |cs|
  {
    if cs == [] {
    } else {
      var c := cs[0].addr;
      var (v, lines) := Printed(children, universe, c, indent, visited);
      Shrinks(universe - v, universe - visited);
      if c == root {
        MarkerCovers(g, root, indent, visited);
        assert v - visited == {};
      } else {
        PrintedIsRight(children, universe, g, root, c, indent, visited);
      }
      RestIsReady(g, root, p, cs, visited, v, lines);
      PrintedAllIsRight(children, universe, g, root, p, cs[1..], indent, v);
      var (v', lines') := PrintedAll(children, universe, cs[1..], indent, v);
      ListFromBoth(g, root, cs, visited, v, lines, v', lines');
    }
  }

  // ---------------------------------------------------------------------------
  // The whole printout
  // ---------------------------------------------------------------------------

  /** The parents are those of the rows themselves: all but a row's own address and the
      addresses of no row. */
  lemma ParentsAreExactly(rows: seq<Row>, r: Row, p: Addr)
    requires UniqueAddresses(rows) && r in rows
    ensures Lookup(Parents(rows), r.addr) == Some(p) <==>
            r.parent == Some(p) && p != r.addr && exists q :: q in rows && q.addr == p
  {
    var g := Parents(rows);
    if r.addr in g {
      var q :| q in rows && EffectiveParent(Addresses(rows), q).Some? && q.addr == r.addr;
      var i, j :| 0 <= i < |rows| && 0 <= j < |rows| && rows[i] == q && rows[j] == r;
      assert i == j;
    }
  }

  /** The result of building the tree. */
  ghost predicate Built(children: Children, rows: seq<Row>) {
    forall k :: Lookup(children, k).GetOr([]) == ChildrenOf(Addresses(rows), rows, k)
  }

  lemma {:induction false} ChildrenOfAre(known: set<Addr>, rows: seq<Row>, key: Option<Addr>)
    requires UniqueAddresses(rows)
    ensures var cs := ChildrenOf(known, rows, key);
            && (forall r :: r in cs <==> r in rows && EffectiveParent(known, r) == key)
            && UniqueAddresses(cs)
  {
    if rows == [] {
    } else {
      var before := rows[..|rows| - 1];
      assert rows == before + [rows[|rows| - 1]];
      ChildrenOfAre(known, before, key);
      forall r | r in before ensures r.addr != rows[|rows| - 1].addr {
        var i :| 0 <= i < |before| && before[i] == r;
        assert rows[i] == r;
      }
    }
  }

  lemma BuiltTreeIsParentGraph(children: Children, rows: seq<Row>)
    requires UniqueAddresses(rows) && Built(children, rows)
    ensures Within(children, Addresses(rows)) && ChildrenAre(children, Parents(rows))
  {
    var known, g := Addresses(rows), Parents(rows);
    forall k, r | k in children && r in children[k] ensures r.addr in known {
      assert children[k] == Lookup(children, k).GetOr([]);
      ChildrenOfAre(known, rows, k);
    }
    forall p: Addr
      ensures var cs := Lookup(children, Some(p)).GetOr([]);
              && (forall i, j :: 0 <= i < j < |cs| ==> cs[i].addr != cs[j].addr)
              && (forall c :: c in cs ==> c.addr in g && g[c.addr] == p)
              && (forall a :: a in g && g[a] == p ==> exists c :: c in cs && c.addr == a)
    {
      ChildrenOfAre(known, rows, Some(p));
    }
  }

  lemma {:induction false} ClosedSetHoldsDescendants(g: map<Addr, Addr>, v: set<Addr>, x: Addr, root: Addr, k: nat)
    requires root in v && forall y :: y in g && g[y] in v ==> y in v
    requires Iter(g, x, k) == Some(root)
    ensures x in v
    decreases k
  {
    if k > 0 {
      ClosedSetHoldsDescendants(g, v, g[x], root, k - 1);
    }
  }

  /** Every node below the root exactly once without a marker and no other node, and one
      cycle marker, for the root, exactly when the root is below itself. */
  ghost predicate ExactPrintout(g: map<Addr, Addr>, root: Addr, lines: seq<Line>) {
    && (forall a :: multiset(Unmarked(lines))[a] == if Reach(g, a, root) then 1 else 0)
    && Markers(lines) == (if root in g && Reach(g, g[root], root) then 1 else 0)
    && (forall l :: l in lines && l.cycle ==> l.addr == root)
  }

  /** Rows with unique addresses are printed exactly, whatever their parents: self-loops,
      unknown parents and cycles included. */
  lemma PrintoutIsExact(rows: seq<Row>, children: Children, root: Row)
    requires UniqueAddresses(rows) && Built(children, rows) && root in rows
    ensures Within(children, Addresses(rows))
    ensures ExactPrintout(Parents(rows), root.addr, Printed(children, Addresses(rows), root.addr, 0, {}).1)
  {
    BuiltTreeIsParentGraph(children, rows);
    var g, n := Parents(rows), root.addr;
    PrintedIsRight(children, Addresses(rows), g, n, n, 0, {});
    var (v, lines) := Printed(children, Addresses(rows), n, 0, {});
    assert v - {} == v;
    forall a ensures a in v <==> Reach(g, a, n) {
      if a in v {
        assert ReachesSome(g, a, {n});
      }
      if Reach(g, a, n) {
        var k: nat :| Iter(g, a, k) == Some(n);
        ClosedSetHoldsDescendants(g, v, a, n, k);
      }
    }
  }

  /** Children are in the order of the rows. */
  lemma {:induction false} ChildrenKeepOrder(known: set<Addr>, rows: seq<Row>, key: Option<Addr>, i: nat, j: nat)
    requires i < j < |ChildrenOf(known, rows, key)|
    ensures exists a, b :: 0 <= a < b < |rows|
                           && rows[a] == ChildrenOf(known, rows, key)[i] && rows[b] == ChildrenOf(known, rows, key)[j]
  {
    var n := |rows| - 1;
    var before := ChildrenOf(known, rows[..n], key);
    if j < |before| {
      ChildrenKeepOrder(known, rows[..n], key, i, j);
      var a, b :| 0 <= a < b < |rows[..n]| && rows[..n][a] == before[i] && rows[..n][b] == before[j];
      assert rows[a] == before[i] && rows[b] == before[j];
    } else {
      ChildrenAreRows(known, rows[..n], key, i);
      var a :| 0 <= a < n && rows[..n][a] == before[i];
      assert rows[a] == before[i];
    }
  }

  lemma {:induction false} ChildrenAreRows(known: set<Addr>, rows: seq<Row>, key: Option<Addr>, i: nat)
    requires i < |ChildrenOf(known, rows, key)|
    ensures exists a :: 0 <= a < |rows| && rows[a] == ChildrenOf(known, rows, key)[i]
  {
    var n := |rows| - 1;
    if i < |ChildrenOf(known, rows[..n], key)| {
      ChildrenAreRows(known, rows[..n], key, i);
      var a :| 0 <= a < n && rows[..n][a] == ChildrenOf(known, rows, key)[i];
      assert rows[a] == rows[..n][a];
    } else {
      assert rows[n] == ChildrenOf(known, rows, key)[i];
    }
  }

  lemma {:induction false} LastCoordinatorIs(rows: seq<Row>)
    ensures match LastCoordinator(rows)
            case None => forall r :: r in rows ==> r.role != "coordinator"
            case Some(c) =>
              && c.role == "coordinator"
              && exists i :: && 0 <= i < |rows| && rows[i] == c
                             && forall j :: i < j < |rows| ==> rows[j].role != "coordinator"
  {
    if rows == [] {
    } else if rows[|rows| - 1].role == "coordinator" {
      assert rows[|rows| - 1] == LastCoordinator(rows).value;
    } else {
      var n := |rows| - 1;
      LastCoordinatorIs(rows[..n]);
      if LastCoordinator(rows).Some? {
        var c := LastCoordinator(rows).value;
        var i :| 0 <= i < n && rows[..n][i] == c && forall j :: i < j < n ==> rows[..n][j].role != "coordinator";
        assert rows[i] == c;
        assert forall j :: i < j < n ==> rows[j] == rows[..n][j];
      }
    }
  }

  /** The root is the last coordinator, or, when there is none, the first row whose parent is
      absent, its own address or unknown; there is none exactly when there is no such row. */
  lemma RootIs(rows: seq<Row>)
    requires UniqueAddresses(rows)
    ensures match RootOf(rows)
            case None => forall r :: r in rows ==> r.role != "coordinator" && r.addr in Parents(rows)
            case Some(root) =>
              exists i :: 0 <= i < |rows| && rows[i] == root
                && if root.role == "coordinator" then forall j :: i < j < |rows| ==> rows[j].role != "coordinator"
                   else && (forall r :: r in rows ==> r.role != "coordinator")
                        && root.addr !in Parents(rows)
                        && forall j :: 0 <= j < i ==> rows[j].addr in Parents(rows)
  {
    LastCoordinatorIs(rows);
    if LastCoordinator(rows).None? {
      var known := Addresses(rows);
      var orphans := ChildrenOf(known, rows, None);
      ChildrenOfAre(known, rows, None);
      forall r | r in rows ensures r.addr in Parents(rows) <==> r !in orphans {
        InParents(rows, r);
      }
      if orphans != [] {
        FirstChild(known, rows, None);
      }
    }
  }

  lemma InParents(rows: seq<Row>, r: Row)
    requires UniqueAddresses(rows) && r in rows
    ensures r.addr in Parents(rows) <==> EffectiveParent(Addresses(rows), r).Some?
  {
    if r.addr in Parents(rows) {
      ParentsAreExactly(rows, r, Parents(rows)[r.addr]);
      var q :| q in rows && EffectiveParent(Addresses(rows), q).Some? && q.addr == r.addr;
      var i, j :| 0 <= i < |rows| && 0 <= j < |rows| && rows[i] == q && rows[j] == r;
      assert i == j;
    }
  }

  /** No row before the first child is a child. */
  lemma {:induction false} FirstChild(known: set<Addr>, rows: seq<Row>, key: Option<Addr>)
    requires ChildrenOf(known, rows, key) != []
    ensures exists i :: 0 <= i < |rows| && rows[i] == ChildrenOf(known, rows, key)[0]
                        && forall j :: 0 <= j < i ==> EffectiveParent(known, rows[j]) != key
  {
    var n := |rows| - 1;
    var before := ChildrenOf(known, rows[..n], key);
    if before != [] {
      FirstChild(known, rows[..n], key);
      var i :| 0 <= i < n && rows[..n][i] == before[0]
               && forall j :: 0 <= j < i ==> EffectiveParent(known, rows[..n][j]) != key;
      assert rows[i] == before[0];
      assert forall j :: 0 <= j < i ==> rows[j] == rows[..n][j];
    } else {
      NoChildren(known, rows[..n], key);
      assert rows[n] == ChildrenOf(known, rows, key)[0];
      assert forall j :: 0 <= j < n ==> rows[j] == rows[..n][j];
    }
  }

  lemma {:induction false} NoChildren(known: set<Addr>, rows: seq<Row>, key: Option<Addr>)
    requires ChildrenOf(known, rows, key) == []
    ensures forall j :: 0 <= j < |rows| ==> EffectiveParent(known, rows[j]) != key
  {
    if rows == [] {
    } else {
      NoChildren(known, rows[..|rows| - 1], key);
      assert forall j :: 0 <= j < |rows| - 1 ==> rows[j] == rows[..|rows| - 1][j];
    }
  }

  /** The root the printer picks is one of the rows. */
  lemma RootIsListed(rows: seq<Row>)
    requires UniqueAddresses(rows)
    ensures RootOf(rows).Some? ==> RootOf(rows).value in rows
  {
    RootIs(rows);
  }

  // ---------------------------------------------------------------------------
  // The shape of the printout
  // ---------------------------------------------------------------------------

  /** The lines at one indentation. */
  function AtIndent(lines: seq<Line>, indent: nat): seq<Addr> {
    if lines == [] then []
    else (if lines[0].indent == indent then [lines[0].addr] else []) + AtIndent(lines[1..], indent)
  }

  lemma {:induction false} AtIndentOfConcat(a: seq<Line>, b: seq<Line>, indent: nat)
    ensures AtIndent(a + b, indent) == AtIndent(a, indent) + AtIndent(b, indent)
  {
    if a == [] {
      assert a + b == b;
    } else {
      assert (a + b)[1..] == a[1..] + b;
      AtIndentOfConcat(a[1..], b, indent);
    }
  }

  lemma {:induction false} AtIndentOfDeeper(lines: seq<Line>, indent: nat)
    requires forall i :: 0 <= i < |lines| ==> lines[i].indent > indent
    ensures AtIndent(lines, indent) == []
  {
    if lines == [] {
    } else {
      AtIndentOfDeeper(lines[1..], indent);
    }
  }

  /** Line `i` stands under line `j`: one step to the right of it, with nothing in between as
      far to the left as line `j`, and `j` is the node's parent. */
  ghost predicate Under(g: map<Addr, Addr>, lines: seq<Line>, i: int, j: int) {
    && 0 <= j < i < |lines|
    && lines[j].indent + 1 == lines[i].indent && !lines[j].cycle
    && lines[i].addr in g && g[lines[i].addr] == lines[j].addr
    && forall m :: j < m < i ==> lines[m].indent > lines[j].indent
  }

  /** Lines to the right of `indent` each stand under another; those at `indent` may stand
      under a line before these. */
  ghost predicate Outline(g: map<Addr, Addr>, lines: seq<Line>, indent: nat) {
    forall i :: 0 <= i < |lines| ==>
      && lines[i].indent >= indent
      && (lines[i].indent > indent ==> exists j :: Under(g, lines, i, j))
  }

  lemma UnderShifted(g: map<Addr, Addr>, a: seq<Line>, b: seq<Line>, i: int, j: int)
    requires Under(g, b, i, j)
    ensures Under(g, a + b, |a| + i, |a| + j)
  {
    assert forall m :: |a| + j < m < |a| + i ==> (a + b)[m] == b[m - |a|];
  }

  lemma UnderKept(g: map<Addr, Addr>, a: seq<Line>, b: seq<Line>, i: int, j: int)
    requires Under(g, a, i, j)
    ensures Under(g, a + b, i, j)
  {
    assert forall m :: j < m < i ==> (a + b)[m] == a[m];
  }

  lemma OutlineOfConcat(g: map<Addr, Addr>, a: seq<Line>, b: seq<Line>, indent: nat)
    requires Outline(g, a, indent) && Outline(g, b, indent)
    ensures Outline(g, a + b, indent)
  {
    forall i | 0 <= i < |a + b|
      ensures (a + b)[i].indent >= indent
      ensures (a + b)[i].indent > indent ==> exists j :: Under(g, a + b, i, j)
    {
      if i < |a| {
        assert (a + b)[i] == a[i];
        if a[i].indent > indent {
          var j :| Under(g, a, i, j);
          UnderKept(g, a, b, i, j);
        }
      } else {
        var k := i - |a|;
        assert (a + b)[i] == b[k];
        if b[k].indent > indent {
          var j :| Under(g, b, k, j);
          UnderShifted(g, a, b, k, j);
          assert Under(g, a + b, i, |a| + j);
        }
      }
    }
  }

  /** A node above the outline of its children. */
  lemma OutlineOfNode(g: map<Addr, Addr>, n: Addr, lines: seq<Line>, indent: nat)
    requires Outline(g, lines, indent + 1)
    requires forall i :: 0 <= i < |lines| && lines[i].indent == indent + 1 ==>
               lines[i].addr in g && g[lines[i].addr] == n
    ensures Outline(g, [Line(n, indent, false)] + lines, indent)
  {
    var top := [Line(n, indent, false)];
    var c := top + lines;
    assert forall m :: 0 < m < |c| ==> c[m] == lines[m - 1];
    forall i | 0 <= i < |c| && c[i].indent > indent ensures exists j :: Under(g, c, i, j) {
      if c[i].indent == indent + 1 {
        assert Under(g, c, i, 0);
      } else {
        var j :| Under(g, lines, i - 1, j);
        UnderShifted(g, top, lines, i - 1, j);
      }
    }
  }

  function Addrs(cs: seq<Row>): seq<Addr> {
    if cs == [] then [] else [cs[0].addr] + Addrs(cs[1..])
  }

  lemma {:induction false} AddrsAre(cs: seq<Row>, a: Addr)
    requires a in Addrs(cs)
    ensures exists c :: c in cs && c.addr == a
  {
    if cs[0].addr != a {
      AddrsAre(cs[1..], a);
    }
  }

  lemma {:induction false} AtIndentHas(lines: seq<Line>, indent: nat, i: nat)
    requires i < |lines| && lines[i].indent == indent
    ensures lines[i].addr in AtIndent(lines, indent)
  {
    if i > 0 {
      AtIndentHas(lines[1..], indent, i - 1);
    }
  }

  /** The printout of a node is an outline with one line at its own indentation. */
  lemma {:induction false} PrintedIsOutline(children: Children, universe: set<Addr>, g: map<Addr, Addr>, n: Addr,
      indent: nat, visited: set<Addr>)
    requires Within(children, universe) && n in universe && ChildrenAre(children, g)
    ensures var (v, lines) := Printed(children, universe, n, indent, visited);
            Outline(g, lines, indent) && AtIndent(lines, indent) == [n]
    decreases |universe - visited|, 0
  {
    if n in visited {
    } else {
      assert universe - (visited + {n}) == (universe - visited) - {n};
      var cs := Lookup(children, Some(n)).GetOr([]);
      ListOfChildren(children, g, n);
      ListIsOutline(children, universe, g, cs, indent + 1, visited + {n});
      var (v, lines) := PrintedAll(children, universe, cs, indent + 1, visited + {n});
      forall i | 0 <= i < |lines| && lines[i].indent == indent + 1 ensures lines[i].addr in g && g[lines[i].addr] == n {
        AtIndentHas(lines, indent + 1, i);
        AddrsAre(cs, lines[i].addr);
      }
      OutlineOfNode(g, n, lines, indent);
      AtIndentOfConcat([Line(n, indent, false)], lines, indent);
      AtIndentOfDeeper(lines, indent);
      assert AtIndent([Line(n, indent, false)], indent) == [n];
    }
  }

  /** The printout of a list of children is an outline that has them, in order, at their
      indentation. */
  lemma {:induction false} ListIsOutline(children: Children, universe: set<Addr>, g: map<Addr, Addr>, cs: seq<Row>,
      indent: nat, visited: set<Addr>)
    requires Within(children, universe) && ChildrenAre(children, g)
    requires forall c :: c in cs ==> c.addr in universe
    ensures var (v, lines) := PrintedAll(children, universe, cs, indent, visited);
            Outline(g, lines, indent) && AtIndent(lines, indent) == Addrs(cs)
    decreases |universe - visited|, 1 + |cs|
  {
    if cs == [] {
    } else {
      var (v, lines) := Printed(children, universe, cs[0].addr, indent, visited);
      Shrinks(universe - v, universe - visited);
      PrintedIsOutline(children, universe, g, cs[0].addr, indent, visited);
      ListIsOutline(children, universe, g, cs[1..], indent, v);
      var (v', lines') := PrintedAll(children, universe, cs[1..], indent, v);
      OutlineOfConcat(g, lines, lines', indent);
      AtIndentOfConcat(lines, lines', indent);
    }
  }

  /** The whole printout reads as the tree: the root alone at the left, and every other line
      one step to the right of its parent's line, with nothing as far left in between. */
  lemma PrintoutIsOutline(rows: seq<Row>, children: Children, root: Row)
    requires UniqueAddresses(rows) && Built(children, rows) && root in rows
    ensures Within(children, Addresses(rows))
    ensures var lines := Printed(children, Addresses(rows), root.addr, 0, {}).1;
            Outline(Parents(rows), lines, 0) && AtIndent(lines, 0) == [root.addr]
  {
    BuiltTreeIsParentGraph(children, rows);
    PrintedIsOutline(children, Addresses(rows), Parents(rows), root.addr, 0, {});
  }

  /** `cmd_topology` on the rows it fetched. */
  method ShowTopology(rows: seq<Row>) returns (lines: seq<Line>)
    requires UniqueAddresses(rows)
    ensures match RootOf(rows)
            case None => lines == []
            case Some(root) =>
              && root in rows && ExactPrintout(Parents(rows), root.addr, lines)
              && Outline(Parents(rows), lines, 0) && AtIndent(lines, 0) == [root.addr]
  {
    var children, root := BuildTree(rows);
    RootIsListed(rows);
    if root.None? {
      return [];
    }
    PrintoutIsExact(rows, children, root.value);
    PrintoutIsOutline(rows, children, root.value);
    var printer := new Printer();
    printer.PrintTree(root.value, children, 0, Addresses(rows));
    lines := printer.output;
    ghost var printed := Printed(children, Addresses(rows), root.value.addr, 0, {}).1;
    assert [] + printed == printed;
  }
}
