/** Capsules, engramms and what one promotion or one batch does when nothing interrupts it
    (core/capsules.py).

    Both record kinds live in one table with serial ids; position 0 is never a record. What
    the vector search finds is an input: similarity is not interpreted. */
module Capsules {
  import opened Wrappers

  const MIN_AGE_SECONDS := 3600.0
  const DEDUP_THRESHOLD := 0.90
  const BATCH_LIMIT := 20

  datatype Row =
    | Other
    | Capsule(created: real, promotedTo: Option<nat>, version: nat)
    | Engramm(source: nat, merged: seq<nat>, references: nat, embedded: bool, version: nat)

  type Table = seq<Row>

  const Init: Table := [Other]

  /** The nearest engramm and its similarity. */
  datatype Hit = Hit(id: nat, similarity: real)

  /** What the world answers while a capsule is promoted: whether its conclusion could be
      embedded, and the nearest engramm if there is one to compare with. */
  datatype Answers = Answers(embedded: bool, nearest: Option<Hit>)

  ghost predicate SearchOk(t: Table, a: Answers) {
    match a.nearest
    case Some(h) => h.id < |t| && t[h.id].Engramm? && t[h.id].embedded
    case None => forall i :: 0 <= i < |t| && t[i].Engramm? ==> !t[i].embedded
  }

  predicate IsCapsule(t: Table, c: nat) {
    c < |t| && t[c].Capsule?
  }

  /** Old enough by the clock; a missing creation time counts as brand new. */
  predicate Mature(r: Row, now: real)
    requires r.Capsule?
  {
    r.created != 0.0 && now - r.created >= MIN_AGE_SECONDS
  }

  predicate Merges(a: Answers) {
    a.embedded && a.nearest.Some? && a.nearest.value.similarity >= DEDUP_THRESHOLD
  }

  /** The engramm a promotion leads to: an existing near-duplicate, or a new row. */
  function Target(t: Table, a: Answers): nat {
    if Merges(a) then a.nearest.value.id else |t|
  }

  function WithMerged(e: Row, c: nat): Row
    requires e.Engramm?
  {
    e.(merged := if c in e.merged then e.merged else e.merged + [c], references := e.references + 1)
  }

  function Promoted(t: Table, c: nat, a: Answers): Table
    requires IsCapsule(t, c)
    requires Merges(a) ==> a.nearest.value.id < |t| && t[a.nearest.value.id].Engramm?
  {
    var e := Target(t, a);
    var linked := t[c := t[c].(promotedTo := Some(e))];
    if Merges(a) then linked[e := WithMerged(t[e], c)]
    else linked + [Engramm(c, [], 1, a.embedded, 1)]
  }

  // ---------------------------------------------------------------------------
  // Batches
  // ---------------------------------------------------------------------------

  /** A capsule chosen for a batch, with the time its turn comes and what the world will
      answer for it. */
  datatype Choice = Choice(id: nat, now: real, answers: Answers)

  /** One turn of the batch loop. */
  function AfterChoice(t: Table, ch: Choice): Table
    requires IsCapsule(t, ch.id)
    requires Merges(ch.answers) ==> ch.answers.nearest.value.id < |t| && t[ch.answers.nearest.value.id].Engramm?
  {
    if t[ch.id].promotedTo.None? && Mature(t[ch.id], ch.now) then Promoted(t, ch.id, ch.answers) else t
  }

  /** The choices are distinct unpromoted capsules, and every search answers about the table
      it is asked on. */
  ghost predicate BatchOk(t: Table, chosen: seq<Choice>)
    decreases |chosen|
  {
    && |t| > 0 && t[0].Other?
    && |chosen| <= BATCH_LIMIT
    && (forall i, j :: 0 <= i < j < |chosen| ==> chosen[i].id != chosen[j].id)
    && (forall i :: 0 <= i < |chosen| ==> IsCapsule(t, chosen[i].id) && t[chosen[i].id].promotedTo.None?)
    && (chosen != [] ==> SearchOk(t, chosen[0].answers) && BatchOk(AfterChoice(t, chosen[0]), chosen[1..]))
  }

  /** A turn leaves the capsules of the later turns as they were read. */
  lemma ChoiceKeepsOthers(t: Table, chosen: seq<Choice>)
    requires chosen != [] && BatchOk(t, chosen)
    ensures var t' := AfterChoice(t, chosen[0]);
            |t| <= |t'| && forall k :: 1 <= k < |chosen| ==> t'[chosen[k].id] == t[chosen[k].id]
  {
    forall k | 1 <= k < |chosen| ensures AfterChoice(t, chosen[0])[chosen[k].id] == t[chosen[k].id] {
      assert IsCapsule(t, chosen[k].id) && chosen[0].id != chosen[k].id;
    }
  }

  ghost function AfterBatch(t: Table, chosen: seq<Choice>): Table
    requires BatchOk(t, chosen)
    decreases |chosen|
  {
    if chosen == [] then t else AfterBatch(AfterChoice(t, chosen[0]), chosen[1..])
  }

  /** The chosen rows are still as they were read before the loop. */
  predicate AsFetched(t: Table, fetched: Table, chosen: seq<Choice>) {
    |fetched| <= |t|
    && forall k :: 0 <= k < |chosen| ==> chosen[k].id < |fetched| && t[chosen[k].id] == fetched[chosen[k].id]
  }

  /** Promoting the rest of the batch leads to the table `goal` and the count `total`. */
  ghost predicate ToPromote(t: Table, chosen: seq<Choice>, count: nat, goal: Table, total: nat) {
    BatchOk(t, chosen) && AfterBatch(t, chosen) == goal && count + BatchCount(t, chosen) == total
  }

  lemma PromoteNext(t: Table, fetched: Table, chosen: seq<Choice>, i: nat, count: nat, goal: Table, total: nat)
    requires i < |chosen| && AsFetched(t, fetched, chosen[i..]) && ToPromote(t, chosen[i..], count, goal, total)
    ensures var ch := chosen[i];
            && ch == chosen[i..][0] && SearchOk(t, ch.answers) && t[ch.id].promotedTo.None? && |t| > 0 && t[0].Other?
            && t[ch.id] == fetched[ch.id]
            && AsFetched(AfterChoice(t, ch), fetched, chosen[i + 1..])
            && ToPromote(AfterChoice(t, ch), chosen[i + 1..],
                         count + (if Mature(t[ch.id], ch.now) then 1 else 0), goal, total)
  {
    var rest := chosen[i..];
    assert rest[0] == chosen[i] && rest[1..] == chosen[i + 1..];
    ChoiceKeepsOthers(t, rest);
  }

  ghost function BatchCount(t: Table, chosen: seq<Choice>): nat
    requires BatchOk(t, chosen)
    decreases |chosen|
  {
    if chosen == [] then 0
    else (if Mature(t[chosen[0].id], chosen[0].now) then 1 else 0) + BatchCount(AfterChoice(t, chosen[0]), chosen[1..])
  }

  // ---------------------------------------------------------------------------
  // The links between the two kinds of records
  // ---------------------------------------------------------------------------

  /** Engramm `e` was made from capsule `c`, or `c` was merged into it. */
  predicate Lists(t: Table, e: nat, c: nat) {
    e < |t| && t[e].Engramm? && (t[e].source == c || c in t[e].merged)
  }

  predicate PointsTo(t: Table, c: nat, e: nat) {
    IsCapsule(t, c) && t[c].promotedTo == Some(e)
  }

  predicate EngrammOk(r: Row) {
    r.Engramm? ==>
      && r.source !in r.merged
      && (forall i, j :: 0 <= i < j < |r.merged| ==> r.merged[i] != r.merged[j])
      && r.references >= 1 + |r.merged|
  }

  /** How many capsules an engramm stands for. */
  function Weight(r: Row): nat {
    if r.Engramm? then 1 + |r.merged| else 0
  }

  function TotalWeight(t: Table): nat {
    if t == [] then 0 else TotalWeight(t[..|t| - 1]) + Weight(t[|t| - 1])
  }

  function Links(r: Row): nat {
    if r.Capsule? && r.promotedTo.Some? then 1 else 0
  }

  function PromotedCount(t: Table): nat {
    if t == [] then 0 else PromotedCount(t[..|t| - 1]) + Links(t[|t| - 1])
  }

  ghost predicate Inv(t: Table) {
    && |t| > 0 && t[0].Other?
    && (forall c: nat, e: nat :: PointsTo(t, c, e) <==> Lists(t, e, c))
    && (forall i :: 0 <= i < |t| ==> EngrammOk(t[i]))
    && TotalWeight(t) == PromotedCount(t)
  }

  lemma {:induction false} CountsOfUpdate(t: Table, i: nat, r: Row)
    requires i < |t|
    ensures TotalWeight(t[i := r]) == TotalWeight(t) - Weight(t[i]) + Weight(r)
    ensures PromotedCount(t[i := r]) == PromotedCount(t) - Links(t[i]) + Links(r)
    ensures Weight(t[i]) <= TotalWeight(t) && Links(t[i]) <= PromotedCount(t)
  {
    var last := |t| - 1;
    if i == last {
      assert t[i := r][..last] == t[..last];
    } else {
      assert t[i := r][..last] == t[..last][i := r];
      CountsOfUpdate(t[..last], i, r);
    }
  }

  lemma CountsOfAppend(t: Table, r: Row)
    ensures TotalWeight(t + [r]) == TotalWeight(t) + Weight(r)
    ensures PromotedCount(t + [r]) == PromotedCount(t) + Links(r)
  {
    assert (t + [r])[..|t|] == t;
  }

  /** The source checks that a capsule is unpromoted in the batch only. Promoting one keeps
      the links right exactly when it is unpromoted, or merged again where it was merged. */
  predicate Consistent(t: Table, c: nat, a: Answers)
    requires IsCapsule(t, c)
    requires Merges(a) ==> a.nearest.value.id < |t| && t[a.nearest.value.id].Engramm?
  {
    t[c].promotedTo.None?
    || (Merges(a) && t[c].promotedTo == Some(a.nearest.value.id) && t[a.nearest.value.id].source != c)
  }

  lemma PromotionCounts(t: Table, c: nat, a: Answers)
    requires Inv(t) && IsCapsule(t, c)
    requires Merges(a) ==> a.nearest.value.id < |t| && t[a.nearest.value.id].Engramm?
    requires Consistent(t, c, a)
    ensures TotalWeight(Promoted(t, c, a)) == PromotedCount(Promoted(t, c, a))
    ensures PromotedCount(Promoted(t, c, a)) == PromotedCount(t) + (if t[c].promotedTo.None? then 1 else 0)
  {
    var e := Target(t, a);
    var r := t[c].(promotedTo := Some(e));
    CountsOfUpdate(t, c, r);
    var linked := t[c := r];
    if Merges(a) {
      assert PointsTo(t, c, e) <==> Lists(t, e, c);
      CountsOfUpdate(linked, e, WithMerged(t[e], c));
    } else {
      CountsOfAppend(linked, Engramm(c, [], 1, a.embedded, 1));
    }
  }

  lemma PromotionLinks(t: Table, c: nat, a: Answers, c': nat, e': nat)
    requires Inv(t) && IsCapsule(t, c)
    requires Merges(a) ==> a.nearest.value.id < |t| && t[a.nearest.value.id].Engramm?
    requires Consistent(t, c, a)
    ensures PointsTo(Promoted(t, c, a), c', e') <==> Lists(Promoted(t, c, a), e', c')
  {
    assert PointsTo(t, c', e') <==> Lists(t, e', c');
    var e := Target(t, a);
    assert PointsTo(t, c, e') <==> Lists(t, e', c);
    if e == |t| { assert PointsTo(t, c', e) <==> Lists(t, e, c'); }
  }

  lemma PromotionKeepsInv(t: Table, c: nat, a: Answers)
    requires Inv(t) && IsCapsule(t, c)
    requires Merges(a) ==> a.nearest.value.id < |t| && t[a.nearest.value.id].Engramm?
    ensures Inv(Promoted(t, c, a)) <==> Consistent(t, c, a)
  {
    var e, t' := Target(t, a), Promoted(t, c, a);
    if Consistent(t, c, a) {
      PromotionCounts(t, c, a);
      forall c': nat, e': nat ensures PointsTo(t', c', e') <==> Lists(t', e', c') { PromotionLinks(t, c, a, c', e'); }
      assert Merges(a) ==> (PointsTo(t, c, e) <==> Lists(t, e, c));
    } else {
      var previous := t[c].promotedTo.value;
      assert PointsTo(t, c, previous) && Lists(t, previous, c);
      if previous != e {
        assert Lists(t', previous, c) && !PointsTo(t', c, previous);
      } else {
        assert Merges(a) && c !in t[e].merged by { assert EngrammOk(t[e]); }
        assert !EngrammOk(t'[e]);
      }
    }
  }

  /** A promotion adds no row exactly when its conclusion could be embedded and the nearest
      engramm is at least nine tenths similar; the capsule points to that engramm or to the
      row added, and no other row's links change. */
  lemma PromotionMergesExactly(t: Table, c: nat, a: Answers)
    requires IsCapsule(t, c) && SearchOk(t, a)
    ensures var t' := Promoted(t, c, a);
            var near := a.embedded && a.nearest.Some? && a.nearest.value.similarity >= 0.9;
            && |t'| == |t| + (if near then 0 else 1)
            && PointsTo(t', c, if near then a.nearest.value.id else |t|)
            && Lists(t', if near then a.nearest.value.id else |t|, c)
            && forall i :: 0 <= i < |t| && i != c && !(near && i == a.nearest.value.id) ==> t'[i] == t[i]
  {
  }

  // ---------------------------------------------------------------------------
  // Batches that nothing interrupts
  // ---------------------------------------------------------------------------

  lemma PromotionKeepsLinks(t: Table, c: nat, a: Answers)
    requires IsCapsule(t, c) && t[c].promotedTo.None?
    requires Merges(a) ==> a.nearest.value.id < |t| && t[a.nearest.value.id].Engramm?
    ensures KeepsLinks(t, Promoted(t, c, a))
  {
  }

  lemma ChoiceKeepsInv(t: Table, ch: Choice)
    requires Inv(t) && IsCapsule(t, ch.id) && t[ch.id].promotedTo.None?
    requires Merges(ch.answers) ==> ch.answers.nearest.value.id < |t| && t[ch.answers.nearest.value.id].Engramm?
    ensures var t' := AfterChoice(t, ch);
            && Inv(t') && KeepsLinks(t, t')
            && PromotedCount(t') == PromotedCount(t) + (if Mature(t[ch.id], ch.now) then 1 else 0)
  {
    if Mature(t[ch.id], ch.now) {
      assert Inv(Promoted(t, ch.id, ch.answers)) by { PromotionKeepsInv(t, ch.id, ch.answers); }
      PromotionCounts(t, ch.id, ch.answers);
      PromotionKeepsLinks(t, ch.id, ch.answers);
    }
  }

  lemma {:induction false} BatchKeepsInv(t: Table, chosen: seq<Choice>)
    requires Inv(t) && BatchOk(t, chosen)
    ensures Inv(AfterBatch(t, chosen)) && KeepsLinks(t, AfterBatch(t, chosen))
    ensures BatchCount(t, chosen) == PromotedCount(AfterBatch(t, chosen)) - PromotedCount(t)
    decreases |chosen|
  {
    if chosen == [] {
    } else {
      var t1 := AfterChoice(t, chosen[0]);
      ChoiceKeepsInv(t, chosen[0]);
      BatchKeepsInv(t1, chosen[1..]);
      KeepsLinksTrans(t, t1, AfterBatch(t1, chosen[1..]));
    }
  }

  lemma KeepsLinksTrans(t: Table, t1: Table, t2: Table)
    requires KeepsLinks(t, t1) && KeepsLinks(t1, t2)
    ensures KeepsLinks(t, t2)
  {
  }

  /** Records stay, and a promoted capsule keeps its engramm. */
  ghost predicate KeepsLinks(t: Table, t': Table) {
    && |t| <= |t'|
    && forall c: nat, e: nat :: PointsTo(t, c, e) ==> PointsTo(t', c, e)
  }

  /** Promoting a promoted capsule again, outside a batch, leaves two engramms listing it. */
  lemma PromotingTwiceBreaksLinks()
    ensures var t := [Other, Capsule(1.0, Some(2), 1), Engramm(1, [], 1, false, 1)];
            var a := Answers(false, None);
            && Inv(t) && SearchOk(t, a)
            && Lists(Promoted(t, 1, a), 2, 1) && Lists(Promoted(t, 1, a), 3, 1)
  {
    var t := [Other, Capsule(1.0, Some(2), 1), Engramm(1, [], 1, false, 1)];
    assert t[..2] == [Other, Capsule(1.0, Some(2), 1)] && t[..2][..1] == [Other] && [Other][..0] == [];
    assert TotalWeight([Other]) == 0 && PromotedCount([Other]) == 0;
    assert TotalWeight(t[..2]) == 0 && PromotedCount(t[..2]) == 1;
  }
}
