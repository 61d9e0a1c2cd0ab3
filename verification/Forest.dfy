/** Parent graphs: each key points to at most one parent, which need not be a key. */
module Forest {
  import opened Wrappers

  /** The k-th ancestor of `a`. */
  function Iter<T>(g: map<T, T>, a: T, k: nat): Option<T> {
    if k == 0 then Some(a)
    else if a in g then Iter(g, g[a], k - 1)
    else None
  }

  /** `b` is `a` or an ancestor of `a`. */
  ghost predicate Reach<T(!new)>(g: map<T, T>, a: T, b: T) {
    exists k: nat :: Iter(g, a, k) == Some(b)
  }

  ghost predicate Acyclic<T(!new)>(g: map<T, T>) {
    forall a: T, k: nat :: k > 0 ==> Iter(g, a, k) != Some(a)
  }

  /** The graph in which every member of `c` has parent `p`. */
  function Retarget<T(!new)>(g: map<T, T>, c: set<T>, p: T): map<T, T> {
    map x | x in g.Keys + c :: if x in c then p else g[x]
  }

  lemma {:induction false} IterSum<T>(g: map<T, T>, a: T, i: nat, j: nat)
    ensures Iter(g, a, i + j) == match Iter(g, a, i) case None => None case Some(x) => Iter(g, x, j)
  {
    if i > 0 && a in g {
      IterSum(g, g[a], i - 1, j);
    }
  }

  lemma {:induction false} IterStaysIn<T>(g: map<T, T>, s: set<T>, a: T, k: nat)
    requires a in s && forall x :: x in s && x in g ==> g[x] in s
    ensures Iter(g, a, k).Some? ==> Iter(g, a, k).value in s
  {
    if k > 0 && a in g {
      IterStaysIn(g, s, g[a], k - 1);
    }
  }

  /** The walk from `a` does not leave a member of `c` in its first `k` steps. */
  ghost predicate Avoids<T(!new)>(g: map<T, T>, c: set<T>, a: T, k: nat) {
    forall i: nat :: i < k && Iter(g, a, i).Some? ==> Iter(g, a, i).value !in c
  }

  /** Graphs that agree outside `c` have the same walks up to the first member of `c`. */
  lemma {:induction false} IterAgrees<T(!new)>(g: map<T, T>, h: map<T, T>, c: set<T>, a: T, k: nat)
    requires forall x :: x !in c ==> Lookup(g, x) == Lookup(h, x)
    requires Avoids(g, c, a, k)
    ensures Iter(h, a, k) == Iter(g, a, k)
  {
    if k > 0 {
      assert Iter(g, a, 0) == Some(a);
      assert Lookup(g, a) == Lookup(h, a);
      if a in g {
        forall i: nat | i < k - 1 && Iter(g, g[a], i).Some? ensures Iter(g, g[a], i).value !in c {
          assert Iter(g, a, i + 1) == Iter(g, g[a], i);
        }
        IterAgrees(g, h, c, g[a], k - 1);
      }
    }
  }

  /** The first member of `c` on a walk that ends in `c`. */
  lemma {:induction false} FirstHit<T(!new)>(g: map<T, T>, c: set<T>, a: T, k: nat) returns (i: nat)
    requires Iter(g, a, k).Some? && Iter(g, a, k).value in c
    ensures i <= k && Iter(g, a, i).Some? && Iter(g, a, i).value in c && Avoids(g, c, a, i)
  {
    if a in c {
      i := 0;
    } else {
      i := FirstHit(g, c, g[a], k - 1);
      forall j: nat | j < i + 1 && Iter(g, a, j).Some? ensures Iter(g, a, j).value !in c {
        if j > 0 { assert Iter(g, a, j) == Iter(g, g[a], j - 1); }
      }
      i := i + 1;
    }
  }

  /** A cycle can be read from any of its members. */
  lemma Rotate<T>(g: map<T, T>, a: T, i: nat, k: nat)
    requires Iter(g, a, k) == Some(a) && i <= k
    ensures Iter(g, a, i).Some? && Iter(g, Iter(g, a, i).value, k) == Iter(g, a, i)
  {
    IterSum(g, a, i, k - i);
    IterSum(g, Iter(g, a, i).value, k - i, i);
  }

  /** Giving the members of `c` the parent `p` keeps an acyclic graph acyclic exactly when
      no member of `c` is `p` or an ancestor of `p`. */
  lemma RetargetKeepsAcyclic<T(!new)>(g: map<T, T>, c: set<T>, p: T)
    requires Acyclic(g)
    ensures Acyclic(Retarget(g, c, p)) <==> forall x :: x in c ==> !Reach(g, p, x)
  {
    var h := Retarget(g, c, p);
    if x :| x in c && Reach(g, p, x) {
      var k: nat :| Iter(g, p, k) == Some(x);
      var i := FirstHit(g, c, p, k);
      IterAgrees(g, h, c, p, i);
      var y := Iter(g, p, i).value;
      assert Iter(h, y, i + 1) == Iter(h, p, i) == Some(y);
    }
    if !Acyclic(h) {
      var a, k: nat :| k > 0 && Iter(h, a, k) == Some(a);
      if i: nat :| i < k && Iter(h, a, i).Some? && Iter(h, a, i).value in c {
        Rotate(h, a, i, k);
        var y := Iter(h, a, i).value;
        assert Iter(h, p, k - 1) == Some(y);
        var f := FirstHit(h, c, p, k - 1);
        IterAgrees(h, g, c, p, f);
        assert Reach(g, p, Iter(h, p, f).value);
      } else {
        IterAgrees(h, g, c, a, k);
      }
    }
  }

  /** Removing edges keeps a graph acyclic. */
  lemma RemovalKeepsAcyclic<T(!new)>(g: map<T, T>, c: set<T>)
    requires Acyclic(g)
    ensures Acyclic(g - c)
  {
    forall a: T, k: nat | k > 0 ensures Iter(g - c, a, k) != Some(a) {
      IterOfSubgraph(g - c, g, a, k);
    }
  }

  lemma {:induction false} IterOfSubgraph<T>(h: map<T, T>, g: map<T, T>, a: T, k: nat)
    requires forall x :: x in h ==> x in g && g[x] == h[x]
    ensures Iter(h, a, k).Some? ==> Iter(g, a, k) == Iter(h, a, k)
  {
    if k > 0 && a in h {
      IterOfSubgraph(h, g, h[a], k - 1);
    }
  }

  /** Whether `b` is an ancestor of `a` is decided before leaving `b`. */
  lemma ReachIgnoresTarget<T(!new)>(g: map<T, T>, h: map<T, T>, a: T, b: T)
    requires forall x :: x != b ==> Lookup(g, x) == Lookup(h, x)
    ensures Reach(g, a, b) <==> Reach(h, a, b)
  {
    if k: nat :| Iter(g, a, k) == Some(b) {
      var i := FirstHit(g, {b}, a, k);
      IterAgrees(g, h, {b}, a, i);
      assert Iter(h, a, i) == Some(b);
    }
    if k: nat :| Iter(h, a, k) == Some(b) {
      var i := FirstHit(h, {b}, a, k);
      IterAgrees(h, g, {b}, a, i);
      assert Iter(g, a, i) == Some(b);
    }
  }

  /** Above `a` there is a node with parent `b` exactly when `b` is a proper ancestor. */
  lemma ReachThroughChild<T(!new)>(g: map<T, T>, a: T, b: T)
    requires a != b
    ensures Reach(g, a, b) <==> exists x :: x in g && g[x] == b && Reach(g, a, x)
  {
    if k: nat :| Iter(g, a, k) == Some(b) {
      IterSum(g, a, k - 1, 1);
      var x := Iter(g, a, k - 1).value;
      assert Iter(g, x, 1) == if x in g then Some(g[x]) else None;
      assert Reach(g, a, x);
    }
    if x :| x in g && g[x] == b && Reach(g, a, x) {
      var k: nat :| Iter(g, a, k) == Some(x);
      IterSum(g, a, k, 1);
      assert Iter(g, x, 1) == Some(b);
    }
  }
}
