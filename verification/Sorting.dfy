/** Stable sorting by a total preorder: what `list.sort(key=...)` guarantees, and which
    element it puts first. */
module Sorting {

  ghost predicate TotalPreorder<T(!new)>(leq: (T, T) -> bool) {
    && (forall a, b :: leq(a, b) || leq(b, a))
    && (forall a, b, c :: leq(a, b) && leq(b, c) ==> leq(a, c))
  }

  /** The elements of `s` that tie with `x`, in order. */
  function Ties<T>(s: seq<T>, x: T, leq: (T, T) -> bool): seq<T> {
    if s == [] then []
    else if leq(s[0], x) && leq(x, s[0]) then [s[0]] + Ties(s[1..], x, leq)
    else Ties(s[1..], x, leq)
  }

  ghost predicate Sorted<T>(s: seq<T>, leq: (T, T) -> bool) {
    forall i, j :: 0 <= i < j < |s| ==> leq(s[i], s[j])
  }

  /** `r` is sorted and keeps tied elements of `s` in their order. */
  ghost predicate StableSortOf<T(!new)>(s: seq<T>, r: seq<T>, leq: (T, T) -> bool) {
    Sorted(r, leq) && forall x :: Ties(r, x, leq) == Ties(s, x, leq)
  }

  function Insert<T>(s: seq<T>, x: T, leq: (T, T) -> bool): seq<T> {
    if s == [] || leq(x, s[0]) then [x] + s
    else [s[0]] + Insert(s[1..], x, leq)
  }

  /** Insertion from the right: an element goes before those it ties with. */
  function StableSort<T>(s: seq<T>, leq: (T, T) -> bool): seq<T> {
    if s == [] then [] else Insert(StableSort(s[1..], leq), s[0], leq)
  }

  lemma {:induction false} InsertKeepsSorted<T(!new)>(s: seq<T>, x: T, leq: (T, T) -> bool)
    requires TotalPreorder(leq) && Sorted(s, leq)
    ensures Sorted(Insert(s, x, leq), leq)
    ensures forall y :: y in Insert(s, x, leq) <==> y == x || y in s
  {
    if s != [] && !leq(x, s[0]) {
      InsertKeepsSorted(s[1..], x, leq);
      var r := Insert(s[1..], x, leq);
      forall k | 0 <= k < |r| ensures leq(s[0], r[k]) {
        assert r[k] in r;
      }
    }
  }

  lemma {:induction false} TiesOfInsert<T(!new)>(s: seq<T>, x: T, y: T, leq: (T, T) -> bool)
    requires TotalPreorder(leq)
    ensures Ties(Insert(s, x, leq), y, leq) == Ties([x] + s, y, leq)
  {
    if s != [] && !leq(x, s[0]) {
      TiesOfInsert(s[1..], x, y, leq);
      assert ([x] + s)[1..] == s && ([x] + s[1..])[1..] == s[1..];
    }
  }

  lemma {:induction false} StableSortIsStable<T(!new)>(s: seq<T>, leq: (T, T) -> bool)
    requires TotalPreorder(leq)
    ensures StableSortOf(s, StableSort(s, leq), leq)
  {
    if s == [] {
    } else {
      var r := StableSort(s[1..], leq);
      StableSortIsStable(s[1..], leq);
      InsertKeepsSorted(r, s[0], leq);
      forall y ensures Ties(Insert(r, s[0], leq), y, leq) == Ties(s, y, leq) {
        TiesOfInsert(r, s[0], y, leq);
        assert ([s[0]] + r)[1..] == r;
      }
    }
  }

  /** The leftmost of the least elements. */
  ghost predicate IsFirstLeast<T>(s: seq<T>, i: int, leq: (T, T) -> bool) {
    && 0 <= i < |s|
    && (forall j :: 0 <= j < |s| ==> leq(s[i], s[j]))
    && (forall j :: 0 <= j < i ==> !leq(s[j], s[i]))
  }

  function FirstLeast<T>(s: seq<T>, leq: (T, T) -> bool): (i: nat)
    requires s != []
    ensures i < |s|
  {
    if |s| == 1 then 0
    else
      var i := FirstLeast(s[..|s| - 1], leq);
      if leq(s[i], s[|s| - 1]) then i else |s| - 1
  }

  lemma {:induction false} FirstLeastIs<T(!new)>(s: seq<T>, leq: (T, T) -> bool)
    requires TotalPreorder(leq) && s != []
    ensures IsFirstLeast(s, FirstLeast(s, leq), leq)
  {
    if |s| > 1 {
      FirstLeastIs(s[..|s| - 1], leq);
    }
  }

  lemma {:induction false} FirstTie<T>(s: seq<T>, x: T, leq: (T, T) -> bool) returns (i: nat)
    requires Ties(s, x, leq) != []
    ensures i < |s| && s[i] == Ties(s, x, leq)[0] && leq(s[i], x) && leq(x, s[i])
    ensures forall j :: 0 <= j < i ==> !(leq(s[j], x) && leq(x, s[j]))
  {
    if leq(s[0], x) && leq(x, s[0]) {
      i := 0;
    } else {
      i := FirstTie(s[1..], x, leq);
      i := i + 1;
    }
  }

  lemma {:induction false} TiesOfMember<T>(s: seq<T>, i: nat, x: T, leq: (T, T) -> bool)
    requires i < |s| && leq(s[i], x) && leq(x, s[i])
    ensures Ties(s, x, leq) != []
  {
    if i > 0 {
      TiesOfMember(s[1..], i - 1, x, leq);
    }
  }

  /** Every stable sort puts the leftmost of the least elements first. */
  lemma HeadOfStableSort<T(!new)>(s: seq<T>, r: seq<T>, leq: (T, T) -> bool)
    requires TotalPreorder(leq) && s != [] && StableSortOf(s, r, leq)
    ensures r != [] && r[0] == s[FirstLeast(s, leq)]
  {
    var i := FirstLeast(s, leq);
    FirstLeastIs(s, leq);
    TiesOfMember(s, i, s[i], leq);
    var k := FirstTie(r, s[i], leq);
    TiesOfMember(r, 0, r[0], leq);
    var m := FirstTie(s, r[0], leq);
    assert leq(r[0], r[k]) && leq(s[i], s[m]);
    var f := FirstTie(s, s[i], leq);
    assert f == i;
    assert k == 0;
  }
}
