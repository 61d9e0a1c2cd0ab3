/** The coroutines that write capsule and engramm rows (core/capsules.py), interleaved at
    their awaits.

    Every writer reads the metadata object of a row and writes the whole object back in a
    later statement. A promotion reads its capsule, searches for a near-duplicate, writes an
    engramm, and then writes the capsule back. Each statement is one step; any number of
    tasks, promotions included, are under way at once. A task that fails takes no further
    step. */
module CapsuleTasks {
  import opened Wrappers
  import opened Capsules

  /** A row as a statement returned it. */
  datatype Copy = Copy(id: nat, row: Row)

  datatype Task =
    | Holding(held: Copy)
    | Reading(capsule: Copy)
    | Searched(capsule: Copy, embedded: bool, target: Option<Copy>)
    | Linking(capsule: Copy, engramm: nat)
  {
    predicate Promotes() { !Holding? }
  }

  datatype State = State(table: Table, tasks: map<nat, Task>)

  const Start := State(Init, map[])

  /** What a writer changes in the object it holds. `Annotate` stands for affinity tags, the
      retrieval count and the skill mark: nothing the links depend on. */
  datatype Change = CountReference | NewVersion | Annotate

  datatype Event =
    | Store(now: real)
    | StoreOther
    | Embed(id: nat)
    | Read(task: nat, id: nat)
    | WriteBack(task: nat, change: Change)
    | PromoteReads(task: nat, c: nat, now: real)
    | PromoteSearches(task: nat, answers: Answers)
    | PromoteWrites(task: nat)
    | PromoteLinks(task: nat)

  /** The row that an UPDATE of the metadata leaves: the object held, changed, beside the
      embedding column as it is now. */
  function Written(now: Row, held: Row, change: Change): Row {
    match (now, held)
    case (Capsule(_, _, _), Capsule(created, promotedTo, v)) =>
      Capsule(created, promotedTo, if change.NewVersion? then v + 1 else v)
    case (Engramm(_, _, _, embedded, _), Engramm(source, merged, references, _, v)) =>
      Engramm(source, merged, if change.CountReference? then references + 1 else references, embedded,
              if change.NewVersion? then v + 1 else v)
    case _ => now
  }

  /** The engramm after merging capsule `c` into the object held. */
  function MergedInto(now: Row, held: Row, c: nat): Row {
    if held.Engramm? then Written(now, WithMerged(held, c), Annotate) else now
  }

  function LinkedTo(now: Row, held: Row, e: nat): Row {
    if held.Capsule? then Written(now, held.(promotedTo := Some(e)), Annotate) else now
  }

  function Embedded(r: Row): Row {
    if r.Engramm? then r.(embedded := true) else r
  }

  /** Rows are never removed, so the positions a task holds stay in the table. */
  ghost predicate Enabled(s: State, e: Event) {
    match e
    case Store(_) => true
    case StoreOther => true
    case Embed(id) => id < |s.table|
    case Read(w, id) => w !in s.tasks && id < |s.table|
    case WriteBack(w, _) => w in s.tasks && s.tasks[w].Holding? && s.tasks[w].held.id < |s.table|
    case PromoteReads(w, _, _) => w !in s.tasks
    case PromoteSearches(w, a) => w in s.tasks && s.tasks[w].Reading? && SearchOk(s.table, a)
    case PromoteWrites(w) =>
      w in s.tasks && s.tasks[w].Searched?
      && (s.tasks[w].target.Some? ==> s.tasks[w].target.value.id < |s.table|)
    case PromoteLinks(w) => w in s.tasks && s.tasks[w].Linking? && s.tasks[w].capsule.id < |s.table|
  }

  /** What a promotion found: the near-duplicate as the search returned it. */
  function FoundBy(t: Table, capsule: Copy, a: Answers): Task
    requires Merges(a) ==> a.nearest.value.id < |t|
  {
    var target := if Merges(a) then Some(Copy(a.nearest.value.id, t[a.nearest.value.id])) else None;
    Searched(capsule, a.embedded, target)
  }

  function AfterWrite(s: State, w: nat): State
    requires w in s.tasks && s.tasks[w].Searched?
    requires s.tasks[w].target.Some? ==> s.tasks[w].target.value.id < |s.table|
  {
    var capsule := s.tasks[w].capsule;
    match s.tasks[w].target
    case Some(found) =>
      State(s.table[found.id := MergedInto(s.table[found.id], found.row, capsule.id)],
            s.tasks[w := Linking(capsule, found.id)])
    case None =>
      State(s.table + [Engramm(capsule.id, [], 1, s.tasks[w].embedded, 1)],
            s.tasks[w := Linking(capsule, |s.table|)])
  }

  ghost function Step(s: State, e: Event): State
    requires Enabled(s, e)
  {
    match e
    case Store(now) => s.(table := s.table + [Capsule(now, None, 1)])
    case StoreOther => s.(table := s.table + [Other])
    case Embed(id) => s.(table := s.table[id := Embedded(s.table[id])])
    case Read(w, id) => s.(tasks := s.tasks[w := Holding(Copy(id, s.table[id]))])
    case WriteBack(w, change) =>
      var held := s.tasks[w].held;
      State(s.table[held.id := Written(s.table[held.id], held.row, change)], s.tasks - {w})
    case PromoteReads(w, c, now) =>
      if IsCapsule(s.table, c) && Mature(s.table[c], now)
      then s.(tasks := s.tasks[w := Reading(Copy(c, s.table[c]))]) else s
    case PromoteSearches(w, a) => s.(tasks := s.tasks[w := FoundBy(s.table, s.tasks[w].capsule, a)])
    case PromoteWrites(w) => AfterWrite(s, w)
    case PromoteLinks(w) =>
      var capsule := s.tasks[w].capsule;
      State(s.table[capsule.id := LinkedTo(s.table[capsule.id], capsule.row, s.tasks[w].engramm)], s.tasks - {w})
  }

  // ---------------------------------------------------------------------------
  // The functions as the source writes them
  // ---------------------------------------------------------------------------

  /** Every record of `found` counts one more reference. */
  function Referenced(t: Table, found: seq<nat>): Table {
    if found == [] then t
    else
      var u := Referenced(t, found[..|found| - 1]);
      var e := found[|found| - 1];
      if e < |u| && u[e].Engramm? then u[e := u[e].(references := u[e].references + 1)] else u
  }

  function Versioned(t: Table, id: nat, embedding: bool): Table
    requires id < |t|
  {
    var u := t[id := Written(t[id], t[id], NewVersion)];
    if embedding then u[id := Embedded(u[id])] else u
  }

  /** Each engramm gets as many references as it was found times, and nothing else changes. */
  lemma {:induction false} ReferencedCounts(t: Table, found: seq<nat>, i: nat)
    requires i < |t|
    ensures |Referenced(t, found)| == |t|
    ensures Referenced(t, found)[i]
         == if t[i].Engramm? then t[i].(references := t[i].references + multiset(found)[i]) else t[i]
  {
    if found == [] {
    } else {
      var before, e := found[..|found| - 1], found[|found| - 1];
      ReferencedCounts(t, before, i);
      assert found == before + [e];
      if e < |t| {
        ReferencedCounts(t, before, e);
      }
    }
  }

  /** Writing back an object that nobody else wrote, without a change, changes nothing. */
  lemma AnnotatingKeeps(r: Row)
    ensures Written(r, r, Annotate) == r
  {
  }

  /** An update counts the version up and may mark the embedding, and nothing else changes. */
  lemma VersionedCounts(t: Table, id: nat, embedding: bool, i: nat)
    requires id < |t| && i < |t|
    ensures |Versioned(t, id, embedding)| == |t|
    ensures Versioned(t, id, embedding)[i] ==
              if i != id then t[i]
              else
                match t[i]
                case Other => Other
                case Capsule(created, p, v) => Capsule(created, p, v + 1)
                case Engramm(source, merged, references, embedded, v) =>
                  Engramm(source, merged, references, embedded || embedding, v + 1)
  {
  }

  class Memory {
    var rows: Table
    var tasks: map<nat, Task>

    ghost function Abs(): State
      reads this
    {
      State(rows, tasks)
    }

    constructor ()
      ensures Abs() == Start
    {
      rows, tasks := Init, map[];
    }

    method StoreCapsule(now: real) returns (id: nat)
      modifies this
      ensures Abs() == Step(old(Abs()), Store(now))
      ensures id == |old(rows)| && rows == old(rows) + [Capsule(now, None, 1)]
    {
      id := |rows|;
      rows := rows + [Capsule(now, None, 1)];
    }

    /** SELECT of a row whose metadata is going to be written back. */
    method ReadMetadata(w: nat, id: nat)
      requires Enabled(Abs(), Read(w, id))
      modifies this
      ensures Abs() == Step(old(Abs()), Read(w, id))
    {
      tasks := tasks[w := Holding(Copy(id, rows[id]))];
    }

    /** UPDATE of the metadata with the object held. */
    method WriteMetadata(w: nat, change: Change)
      requires Enabled(Abs(), WriteBack(w, change))
      modifies this
      ensures Abs() == Step(old(Abs()), WriteBack(w, change))
    {
      var id, r := tasks[w].held.id, tasks[w].held.row;
      if r.Engramm? && rows[id].Engramm? {
        var references, version := r.references, r.version;
        if change.CountReference? {
          references := references + 1;
        } else if change.NewVersion? {
          version := version + 1;
        }
        rows := rows[id := Engramm(r.source, r.merged, references, rows[id].embedded, version)];
      } else if r.Capsule? && rows[id].Capsule? {
        var version := r.version;
        if change.NewVersion? {
          version := version + 1;
        }
        rows := rows[id := Capsule(r.created, r.promotedTo, version)];
      }
      tasks := tasks - {w};
    }

    /** UPDATE of the embedding column. */
    method WriteEmbedding(id: nat)
      requires id < |rows|
      modifies this
      ensures Abs() == Step(old(Abs()), Embed(id))
    {
      if rows[id].Engramm? {
        rows := rows[id := rows[id].(embedded := true)];
      }
    }

    /** A promotion up to its first await after reading the capsule; false when it ends there. */
    method PromoteReads(w: nat, c: nat, now: real) returns (goesOn: bool)
      requires w !in tasks
      modifies this
      ensures Abs() == Step(old(Abs()), Event.PromoteReads(w, c, now))
      ensures goesOn <==> c < |old(rows)| && old(rows)[c].Capsule?
                          && old(rows)[c].created != 0.0 && now - old(rows)[c].created >= 3600.0
    {
      if c >= |rows| || !rows[c].Capsule? {
        return false;
      }
      var age := if rows[c].created != 0.0 then now - rows[c].created else 0.0;
      if age < MIN_AGE_SECONDS {
        return false;
      }
      tasks := tasks[w := Reading(Copy(c, rows[c]))];
      return true;
    }

    method PromoteSearches(w: nat, a: Answers)
      requires Enabled(Abs(), Event.PromoteSearches(w, a))
      modifies this
      ensures Abs() == Step(old(Abs()), Event.PromoteSearches(w, a))
    {
      var target: Option<Copy> := None;
      if a.embedded && a.nearest.Some? && a.nearest.value.similarity >= DEDUP_THRESHOLD {
        target := Some(Copy(a.nearest.value.id, rows[a.nearest.value.id]));
      }
      tasks := tasks[w := Searched(tasks[w].capsule, a.embedded, target)];
    }

    method PromoteWrites(w: nat) returns (e: nat)
      requires Enabled(Abs(), Event.PromoteWrites(w))
      modifies this
      ensures Abs() == Step(old(Abs()), Event.PromoteWrites(w))
      ensures w in tasks && tasks[w].Linking? && e == tasks[w].engramm
    {
      var capsule, target := tasks[w].capsule, tasks[w].target;
      if target.Some? {
        e := target.value.id;
        var found := target.value.row;
        if found.Engramm? && rows[e].Engramm? {
          if capsule.id !in found.merged {
            found := found.(merged := found.merged + [capsule.id]);
          }
          found := found.(references := found.references + 1);
          rows := rows[e := found.(embedded := rows[e].embedded)];
        }
      } else {
        e := |rows|;
        rows := rows + [Engramm(capsule.id, [], 1, tasks[w].embedded, 1)];
      }
      tasks := tasks[w := Linking(capsule, e)];
    }

    method PromoteLinks(w: nat)
      requires Enabled(Abs(), Event.PromoteLinks(w))
      modifies this
      ensures Abs() == Step(old(Abs()), Event.PromoteLinks(w))
    {
      var capsule := tasks[w].capsule;
      if capsule.row.Capsule? && rows[capsule.id].Capsule? {
        rows := rows[capsule.id := capsule.row.(promotedTo := Some(tasks[w].engramm))];
      }
      tasks := tasks - {w};
    }

    /** `promote_capsule_to_engramm` when nothing comes between its statements. */
    method PromoteCapsule(w: nat, c: nat, now: real, a: Answers) returns (engramm: Option<nat>)
      requires w !in tasks && SearchOk(rows, a)
      modifies this
      ensures engramm == if IsCapsule(old(rows), c) && Mature(old(rows)[c], now) then Some(Target(old(rows), a))
                         else None
      ensures rows == (if engramm.Some? then Promoted(old(rows), c, a) else old(rows)) && tasks == old(tasks)
    {
      var goesOn := PromoteReads(w, c, now);
      if !goesOn {
        return None;
      }
      PromoteSearches(w, a);
      var e := PromoteWrites(w);
      PromoteLinks(w);
      return Some(e);
    }

    /** `check_and_promote_capsules` when nothing comes between its statements: the chosen
        rows were read before the loop. */
    method CheckAndPromote(w: nat, chosen: seq<Choice>) returns (count: nat)
      requires w !in tasks && BatchOk(rows, chosen)
      modifies this
      ensures rows == AfterBatch(old(rows), chosen) && tasks == old(tasks)
      ensures count == BatchCount(old(rows), chosen)
    {
      var fetched := rows;
      count := 0;
      for i := 0 to |chosen|
        invariant tasks == old(tasks)
        invariant AsFetched(rows, fetched, chosen[i..])
        invariant ToPromote(rows, chosen[i..], count, AfterBatch(fetched, chosen), BatchCount(fetched, chosen))
      {
        PromoteNext(rows, fetched, chosen, i, count, AfterBatch(fetched, chosen), BatchCount(fetched, chosen));
        var promoted := Consider(w, fetched[chosen[i].id], chosen[i]);
        if promoted {
          count := count + 1;
        }
      }
    }

    /** One turn of the loop, on the row as it was fetched. */
    method Consider(w: nat, meta: Row, ch: Choice) returns (promoted: bool)
      requires w !in tasks && |rows| > 0 && rows[0].Other?
      requires IsCapsule(rows, ch.id) && meta == rows[ch.id] && SearchOk(rows, ch.answers)
      modifies this
      ensures rows == AfterChoice(old(rows), ch) && tasks == old(tasks)
      ensures promoted <==> meta.promotedTo.None? && Mature(meta, ch.now)
    {
      promoted := false;
      if meta.promotedTo.None? {
        if ch.now - meta.created >= MIN_AGE_SECONDS {
          var result := PromoteCapsule(w, ch.id, ch.now, ch.answers);
          promoted := result.Some? && result.value != 0;
        }
      }
    }

    /** The end of `retrieve_engramms` when nothing comes between its statements: one
        reference for every engramm it returns. */
    method CountReferences(w: nat, found: seq<nat>)
      requires w !in tasks && forall i :: 0 <= i < |found| ==> found[i] < |rows| && rows[found[i]].Engramm?
      modifies this
      ensures rows == Referenced(old(rows), found) && tasks == old(tasks)
    {
      for i := 0 to |found|
        invariant tasks == old(tasks)
        invariant |rows| == |old(rows)| && rows == Referenced(old(rows), found[..i])
        invariant forall k :: 0 <= k < |rows| ==> rows[k].Engramm? == old(rows)[k].Engramm?
      {
        assert found[..i + 1][..i] == found[..i];
        ReadMetadata(w, found[i]);
        WriteMetadata(w, CountReference);
      }
      assert found[..|found|] == found;
    }

    /** `update_capsule_version` when nothing comes between its statements. It takes the id of
        any row; `embedding` says that it was given a text that could be embedded. */
    method UpdateVersion(w: nat, id: nat, embedding: bool) returns (ok: bool)
      requires w !in tasks
      modifies this
      ensures ok <==> id < |old(rows)| && id != 0
      ensures rows == (if ok then Versioned(old(rows), id, embedding) else old(rows)) && tasks == old(tasks)
    {
      if id == 0 || id >= |rows| {
        return false;
      }
      ReadMetadata(w, id);
      WriteMetadata(w, NewVersion);
      if embedding {
        WriteEmbedding(id);
      }
      return true;
    }
  }

  // ---------------------------------------------------------------------------
  // The links while promotions are on their way
  // ---------------------------------------------------------------------------

  /** The promotions that have written their engramm and not yet their capsule. */
  function Way(s: State): map<nat, (nat, nat)> {
    map w | w in s.tasks && s.tasks[w].Linking? :: (s.tasks[w].capsule.id, s.tasks[w].engramm)
  }

  ghost predicate OnTheWay(way: map<nat, (nat, nat)>, c: nat, e: nat) {
    exists w :: w in way && way[w] == (c, e)
  }

  /** An engramm lists a capsule exactly when the capsule points to it or is about to; a
      capsule is about to only once, and unpromoted until then. */
  ghost predicate Linked(t: Table, way: map<nat, (nat, nat)>) {
    && |t| > 0 && t[0].Other?
    && (forall c: nat, e: nat :: Lists(t, e, c) <==> PointsTo(t, c, e) || OnTheWay(way, c, e))
    && (forall w :: w in way ==> IsCapsule(t, way[w].0) && t[way[w].0].promotedTo.None?)
    && (forall w, w' :: w in way && w' in way && way[w].0 == way[w'].0 ==> w == w')
    && (forall i :: 0 <= i < |t| ==> EngrammOk(t[i]))
    && TotalWeight(t) == PromotedCount(t) + |way|
  }

  /** With no promotion on its way these are the links of the table alone. */
  lemma LinkedAtRest(t: Table)
    ensures Linked(t, map[]) <==> Inv(t)
  {
    if Inv(t) {
      forall c: nat, e: nat ensures Lists(t, e, c) <==> PointsTo(t, c, e) || OnTheWay(map[], c, e) {
        assert PointsTo(t, c, e) <==> Lists(t, e, c);
      }
    }
    if Linked(t, map[]) {
      forall c: nat, e: nat ensures PointsTo(t, c, e) <==> Lists(t, e, c) {
        assert Lists(t, e, c) <==> PointsTo(t, c, e) || OnTheWay(map[], c, e);
      }
    }
  }

  /** The rows a table had are still of their kind, and have lost no link. */
  ghost predicate Grows(t: Table, t': Table) {
    && |t| <= |t'|
    && forall i :: 0 <= i < |t| ==>
         match t[i]
         case Other => t'[i].Other?
         case Capsule(_, p, _) => t'[i].Capsule? && (p.None? || t'[i].promotedTo == p)
         case Engramm(source, merged, _, _, _) =>
           t'[i].Engramm? && t'[i].source == source && merged <= t'[i].merged
  }

  /** What a task holds is an earlier state of the row. */
  ghost predicate CopyOk(t: Table, copy: Copy) {
    && copy.id < |t|
    && EngrammOk(copy.row)
    && match copy.row
       case Other => t[copy.id].Other?
       case Capsule(_, p, _) => t[copy.id].Capsule? && (p.None? || p == t[copy.id].promotedTo)
       case Engramm(source, merged, _, _, _) =>
         t[copy.id].Engramm? && t[copy.id].source == source && merged <= t[copy.id].merged
  }

  ghost predicate TaskOk(t: Table, x: Task) {
    match x
    case Holding(held) => CopyOk(t, held)
    case Reading(capsule) => IsCapsule(t, capsule.id) && capsule.row.Capsule?
    case Searched(capsule, _, target) =>
      && IsCapsule(t, capsule.id) && capsule.row.Capsule?
      && (target.Some? ==> CopyOk(t, target.value) && target.value.row.Engramm?)
    case Linking(capsule, _) => IsCapsule(t, capsule.id) && capsule.row.Capsule?
  }

  ghost predicate Sound(s: State) {
    Linked(s.table, Way(s)) && TasksOk(s.table, s.tasks)
  }

  ghost predicate TasksOk(t: Table, tasks: map<nat, Task>) {
    forall w :: w in tasks ==> TaskOk(t, tasks[w])
  }

  // ---------------------------------------------------------------------------
  // Stale writes
  // ---------------------------------------------------------------------------

  /** The object held has the links the row has now. */
  predicate SameLinks(now: Row, held: Row) {
    match (now, held)
    case (Capsule(_, p, _), Capsule(_, q, _)) => p == q
    case (Engramm(_, m, _, _, _), Engramm(_, n, _, _, _)) => m == n
    case _ => true
  }

  /** The capsule is unpromoted and no promotion of it is about to link it. */
  predicate Unlinked(s: State, c: nat) {
    IsCapsule(s.table, c) && s.table[c].promotedTo.None?
    && forall w :: w in s.tasks && s.tasks[w].Linking? ==> s.tasks[w].capsule.id != c
  }

  /** A write is fresh when no link of the row was written since it was read, and a promotion
      when its capsule was not linked since. */
  ghost predicate Fresh(s: State, e: Event)
    requires Enabled(s, e)
  {
    match e
    case WriteBack(w, _) => SameLinks(s.table[s.tasks[w].held.id], s.tasks[w].held.row)
    case PromoteWrites(w) =>
      && Unlinked(s, s.tasks[w].capsule.id)
      && (s.tasks[w].target.Some? ==>
            SameLinks(s.table[s.tasks[w].target.value.id], s.tasks[w].target.value.row))
    case _ => true
  }

  lemma GrowsKeepsTask(t: Table, t': Table, x: Task)
    requires Grows(t, t') && TaskOk(t, x)
    ensures TaskOk(t', x)
  {
  }

  /** One row rewritten with the links it has. */
  lemma RewriteKeepsLinked(t: Table, way: map<nat, (nat, nat)>, i: nat, r: Row)
    requires Linked(t, way) && i < |t| && EngrammOk(r)
    requires match t[i]
             case Other => r.Other?
             case Capsule(_, p, _) => r.Capsule? && r.promotedTo == p
             case Engramm(source, merged, _, _, _) => r.Engramm? && r.source == source && r.merged == merged
    ensures Linked(t[i := r], way) && Grows(t, t[i := r])
    ensures PromotedCount(t[i := r]) == PromotedCount(t)
  {
    CountsOfUpdate(t, i, r);
    var t' := t[i := r];
    forall c: nat, e: nat ensures Lists(t', e, c) <==> PointsTo(t', c, e) || OnTheWay(way, c, e) {
      assert Lists(t, e, c) <==> PointsTo(t, c, e) || OnTheWay(way, c, e);
    }
  }

  lemma AppendKeepsLinked(t: Table, way: map<nat, (nat, nat)>, r: Row)
    requires Linked(t, way) && !r.Engramm? && (r.Capsule? ==> r.promotedTo.None?)
    ensures Linked(t + [r], way) && Grows(t, t + [r])
    ensures PromotedCount(t + [r]) == PromotedCount(t)
  {
    CountsOfAppend(t, r);
    var t' := t + [r];
    forall c: nat, e: nat ensures Lists(t', e, c) <==> PointsTo(t', c, e) || OnTheWay(way, c, e) {
      assert Lists(t, e, c) <==> PointsTo(t, c, e) || OnTheWay(way, c, e);
    }
  }

  /** A capsule without links is listed nowhere. */
  lemma UnlinkedIsUnlisted(t: Table, way: map<nat, (nat, nat)>, c: nat, e: nat)
    requires Linked(t, way) && IsCapsule(t, c) && t[c].promotedTo.None?
    requires forall w :: w in way ==> way[w].0 != c
    ensures !Lists(t, e, c)
  {
    assert Lists(t, e, c) <==> PointsTo(t, c, e) || OnTheWay(way, c, e);
  }

  lemma WayOfNew(way: map<nat, (nat, nat)>, w: nat, c: nat, e: nat, c': nat, e': nat)
    requires w !in way
    ensures OnTheWay(way[w := (c, e)], c', e') <==> OnTheWay(way, c', e') || (c', e') == (c, e)
    ensures |way[w := (c, e)]| == |way| + 1
  {
    var way' := way[w := (c, e)];
    assert way'[w] == (c, e);
    if OnTheWay(way, c', e') {
      var x :| x in way && way[x] == (c', e');
      assert x in way' && way'[x] == (c', e');
    }
    assert way'.Keys == way.Keys + {w};
    assert |way'.Keys| == |way.Keys| + 1;
  }

  /** A promotion writes its engramm: `e` with the capsule added, or a new row. */
  lemma WriteKeepsLinked(t: Table, way: map<nat, (nat, nat)>, w: nat, c: nat, e: nat, r: Row)
    requires Linked(t, way) && w !in way && IsCapsule(t, c) && t[c].promotedTo.None?
    requires forall x :: x in way ==> way[x].0 != c
    requires e <= |t| && r.Engramm? && EngrammOk(r)
    requires if e == |t| then r.source == c && r.merged == []
             else t[e].Engramm? && r.source == t[e].source && r.merged == t[e].merged + [c]
    ensures var t' := if e == |t| then t + [r] else t[e := r];
            && Linked(t', way[w := (c, e)]) && Grows(t, t')
            && PromotedCount(t') == PromotedCount(t)
  {
    var t' := if e == |t| then t + [r] else t[e := r];
    if e == |t| {
      CountsOfAppend(t, r);
    } else {
      CountsOfUpdate(t, e, r);
    }
    forall c': nat, e': nat
      ensures Lists(t', e', c') <==> PointsTo(t', c', e') || OnTheWay(way[w := (c, e)], c', e')
    {
      WayOfNew(way, w, c, e, c', e');
      assert Lists(t, e', c') <==> PointsTo(t, c', e') || OnTheWay(way, c', e');
      assert !Lists(t, e', c) by { UnlinkedIsUnlisted(t, way, c, e'); }
    }
    WayOfNew(way, w, c, e, c, e);
  }

  /** And then its capsule. */
  lemma LinkKeepsLinked(t: Table, way: map<nat, (nat, nat)>, w: nat, r: Row)
    requires Linked(t, way) && w in way && r.Capsule? && r.promotedTo == Some(way[w].1)
    ensures var t' := t[way[w].0 := r];
            && Linked(t', way - {w}) && Grows(t, t')
            && PromotedCount(t') == PromotedCount(t) + 1
  {
    var (c, e) := way[w];
    var t' := t[c := r];
    CountsOfUpdate(t, c, r);
    forall c': nat, e': nat ensures Lists(t', e', c') <==> PointsTo(t', c', e') || OnTheWay(way - {w}, c', e') {
      assert Lists(t, e', c') <==> PointsTo(t, c', e') || OnTheWay(way, c', e');
      if OnTheWay(way, c', e') && (c', e') != (c, e) {
        var x :| x in way && way[x] == (c', e');
        assert x in way - {w};
      }
    }
    assert (way - {w}).Keys == way.Keys - {w};
  }

  /** A step that leaves the promotions on their way alone. */
  lemma SameWay(s: State, w: nat, x: Task)
    requires !x.Linking? && (w in s.tasks ==> !s.tasks[w].Linking?)
    ensures Way(s.(tasks := s.tasks[w := x])) == Way(s)
    ensures Way(s.(tasks := s.tasks - {w})) == Way(s)
  {
  }

  lemma TasksGrow(t: Table, tasks: map<nat, Task>, t': Table)
    requires TasksOk(t, tasks) && Grows(t, t')
    ensures TasksOk(t', tasks)
  {
    forall w | w in tasks ensures TaskOk(t', tasks[w]) {
      GrowsKeepsTask(t, t', tasks[w]);
    }
  }

  lemma TasksUpdate(t: Table, tasks: map<nat, Task>, w: nat, x: Task)
    requires TasksOk(t, tasks) && TaskOk(t, x)
    ensures TasksOk(t, tasks[w := x])
  {
  }

  lemma TasksRemove(t: Table, tasks: map<nat, Task>, w: nat)
    requires TasksOk(t, tasks)
    ensures TasksOk(t, tasks - {w})
  {
  }

  lemma WayOfWrite(s: State, w: nat, x: Task)
    requires w in s.tasks && !s.tasks[w].Linking? && x.Linking?
    ensures w !in Way(s)
    ensures Way(s.(tasks := s.tasks[w := x])) == Way(s)[w := (x.capsule.id, x.engramm)]
  {
  }

  lemma WayOfLink(s: State, w: nat)
    requires w in s.tasks && s.tasks[w].Linking?
    ensures w in Way(s) && Way(s)[w] == (s.tasks[w].capsule.id, s.tasks[w].engramm)
    ensures Way(s.(tasks := s.tasks - {w})) == Way(s) - {w}
  {
  }

  /** What a fresh step does to the table. */
  ghost predicate Keeps(s: State, s': State, promoted: nat) {
    && Sound(s') && Grows(s.table, s'.table)
    && PromotedCount(s'.table) == PromotedCount(s.table) + promoted
  }

  lemma WriteBackKeepsSound(s: State, w: nat, change: Change)
    requires Sound(s) && Enabled(s, WriteBack(w, change)) && Fresh(s, WriteBack(w, change))
    ensures Keeps(s, Step(s, WriteBack(w, change)), 0)
  {
    var s', held := Step(s, WriteBack(w, change)), s.tasks[w].held;
    assert TaskOk(s.table, s.tasks[w]);
    RewriteKeepsLinked(s.table, Way(s), held.id, Written(s.table[held.id], held.row, change));
    TasksGrow(s.table, s.tasks, s'.table);
    TasksRemove(s'.table, s.tasks, w);
    SameWay(s, w, s.tasks[w]);
  }

  /** What a promotion writes into an engramm that is as it found it. */
  lemma MergedRow(t: Table, way: map<nat, (nat, nat)>, found: Copy, c: nat)
    requires Linked(t, way) && CopyOk(t, found) && found.row.Engramm? && SameLinks(t[found.id], found.row)
    requires !Lists(t, found.id, c)
    ensures var r := MergedInto(t[found.id], found.row, c);
            && r.Engramm? && EngrammOk(r)
            && r.source == t[found.id].source && r.merged == t[found.id].merged + [c]
  {
  }

  lemma WrittenRow(s: State, w: nat)
    requires Sound(s) && Enabled(s, PromoteWrites(w)) && Fresh(s, PromoteWrites(w))
    ensures var s', c := AfterWrite(s, w), s.tasks[w].capsule.id;
            var e := s'.tasks[w].engramm;
            && e <= |s.table| && IsCapsule(s.table, c) && e < |s'.table|
            && s'.table == (if e == |s.table| then s.table + [s'.table[e]] else s.table[e := s'.table[e]])
            && s'.table[e].Engramm? && EngrammOk(s'.table[e])
            && if e == |s.table| then s'.table[e].source == c && s'.table[e].merged == []
               else s.table[e].Engramm? && s'.table[e].source == s.table[e].source
                    && s'.table[e].merged == s.table[e].merged + [c]
  {
    var x := s.tasks[w];
    assert TaskOk(s.table, x);
    if x.target.Some? {
      UnlinkedIsUnlisted(s.table, Way(s), x.capsule.id, x.target.value.id);
      MergedRow(s.table, Way(s), x.target.value, x.capsule.id);
    }
  }

  lemma UnlinkedOnWay(s: State, c: nat)
    requires Unlinked(s, c)
    ensures forall w :: w in Way(s) ==> Way(s)[w].0 != c
  {
  }

  lemma PromoteWritesKeepsSound(s: State, w: nat)
    requires Sound(s) && Enabled(s, PromoteWrites(w)) && Fresh(s, PromoteWrites(w))
    ensures Keeps(s, AfterWrite(s, w), 0)
  {
    var s', x := AfterWrite(s, w), s.tasks[w];
    var c, e := x.capsule.id, s'.tasks[w].engramm;
    WrittenRow(s, w);
    UnlinkedOnWay(s, c);
    WayOfWrite(s, w, s'.tasks[w]);
    WriteKeepsLinked(s.table, Way(s), w, c, e, s'.table[e]);
    TasksGrow(s.table, s.tasks, s'.table);
    assert TaskOk(s.table, x) && TaskOk(s'.table, s'.tasks[w]);
    TasksUpdate(s'.table, s.tasks, w, s'.tasks[w]);
    assert s'.tasks == s.tasks[w := s'.tasks[w]];
  }

  lemma PromoteLinksKeepsSound(s: State, w: nat)
    requires Sound(s) && Enabled(s, PromoteLinks(w))
    ensures Keeps(s, Step(s, PromoteLinks(w)), 1)
  {
    var s', x := Step(s, PromoteLinks(w)), s.tasks[w];
    assert TaskOk(s.table, x);
    WayOfLink(s, w);
    var r := LinkedTo(s.table[x.capsule.id], x.capsule.row, x.engramm);
    LinkKeepsLinked(s.table, Way(s), w, r);
    TasksGrow(s.table, s.tasks, s'.table);
    TasksRemove(s'.table, s.tasks, w);
  }

  /** New rows and new embeddings. */
  lemma TableStepKeepsSound(s: State, e: Event)
    requires Sound(s) && Enabled(s, e) && (e.Store? || e.StoreOther? || e.Embed?)
    ensures Keeps(s, Step(s, e), 0)
  {
    var t' := Step(s, e).table;
    if e.Store? {
      AppendKeepsLinked(s.table, Way(s), Capsule(e.now, None, 1));
    } else if e.StoreOther? {
      AppendKeepsLinked(s.table, Way(s), Other);
    } else {
      RewriteKeepsLinked(s.table, Way(s), e.id, Embedded(s.table[e.id]));
    }
    TasksGrow(s.table, s.tasks, t');
    assert Way(Step(s, e)) == Way(s);
  }

  /** A task that reads. */
  lemma ReadKeepsSound(s: State, w: nat, x: Task)
    requires Sound(s) && TaskOk(s.table, x) && !x.Linking? && (w in s.tasks ==> !s.tasks[w].Linking?)
    ensures Keeps(s, s.(tasks := s.tasks[w := x]), 0)
  {
    SameWay(s, w, x);
    TasksUpdate(s.table, s.tasks, w, x);
    GrowsRefl(s.table);
  }

  lemma GrowsRefl(t: Table)
    ensures Grows(t, t)
  {
  }

  lemma FoundIsOk(t: Table, capsule: Copy, a: Answers)
    requires TaskOk(t, Reading(capsule)) && SearchOk(t, a) && forall i :: 0 <= i < |t| ==> EngrammOk(t[i])
    ensures TaskOk(t, FoundBy(t, capsule, a))
  {
  }

  lemma FreshKeepsSound(s: State, e: Event)
    requires Sound(s) && Enabled(s, e) && Fresh(s, e)
    ensures Keeps(s, Step(s, e), if e.PromoteLinks? then 1 else 0)
  {
    match e
    case Read(w, id) => ReadKeepsSound(s, w, Holding(Copy(id, s.table[id])));
    case WriteBack(w, change) => WriteBackKeepsSound(s, w, change);
    case PromoteReads(w, c, _) =>
      GrowsRefl(s.table);
      if IsCapsule(s.table, c) { ReadKeepsSound(s, w, Reading(Copy(c, s.table[c]))); }
    case PromoteSearches(w, a) =>
      assert TaskOk(s.table, s.tasks[w]);
      FoundIsOk(s.table, s.tasks[w].capsule, a);
      ReadKeepsSound(s, w, FoundBy(s.table, s.tasks[w].capsule, a));
    case PromoteWrites(w) => PromoteWritesKeepsSound(s, w);
    case PromoteLinks(w) => PromoteLinksKeepsSound(s, w);
    case _ => TableStepKeepsSound(s, e);
  }

  /** A stale write of an engramm drops a capsule from its list. */
  lemma LostMerge(t: Table, way: map<nat, (nat, nat)>, t': Table, way': map<nat, (nat, nat)>, e: nat, c: nat)
    requires Linked(t, way) && Lists(t, e, c) && !Lists(t', e, c)
    requires |t| <= |t'| && forall i :: 0 <= i < |t| && i != e ==> t'[i] == t[i]
    requires e < |t| && t[e].Engramm?
    requires forall w :: w in way ==> w in way' && way'[w] == way[w]
    ensures !Linked(t', way')
  {
    assert Lists(t, e, c) <==> PointsTo(t, c, e) || OnTheWay(way, c, e);
    if OnTheWay(way, c, e) {
      var w :| w in way && way[w] == (c, e);
      assert w in way' && way'[w] == (c, e);
    }
    assert PointsTo(t', c, e) || OnTheWay(way', c, e);
  }

  lemma StaleWriteBackBreaksLinks(s: State, w: nat, change: Change)
    requires Sound(s) && Enabled(s, WriteBack(w, change)) && !Fresh(s, WriteBack(w, change))
    ensures !Sound(Step(s, WriteBack(w, change)))
  {
    var s', held := Step(s, WriteBack(w, change)), s.tasks[w].held;
    assert TaskOk(s.table, s.tasks[w]);
    SameWay(s, w, s.tasks[w]);
    if held.row.Engramm? {
      var c := FirstMissing(held.row.merged, s.table[held.id]);
      LostMerge(s.table, Way(s), s'.table, Way(s), held.id, c);
    } else {
      var e := s.table[held.id].promotedTo.value;
      assert PointsTo(s.table, held.id, e);
      assert Lists(s.table, e, held.id) <==> PointsTo(s.table, held.id, e) || OnTheWay(Way(s), held.id, e);
      assert Lists(s'.table, e, held.id) && !PointsTo(s'.table, held.id, e);
      assert !OnTheWay(Way(s), held.id, e);
    }
  }

  /** A capsule merged since an engramm was read. */
  lemma FirstMissing(held: seq<nat>, now: Row) returns (c: nat)
    requires now.Engramm? && EngrammOk(now) && held <= now.merged && held != now.merged
    ensures c in now.merged && c !in held && c != now.source
  {
    c := now.merged[|held|];
  }

  /** A capsule that is linked already is linked once more. */
  lemma SecondLinkBreaksLinks(s: State, w: nat, x: Task, t': Table)
    requires w in s.tasks && !s.tasks[w].Linking? && x.Linking? && !Unlinked(s, x.capsule.id)
    requires |s.table| <= |t'| && x.capsule.id < |s.table| && t'[x.capsule.id] == s.table[x.capsule.id]
    ensures !Linked(t', Way(s.(tasks := s.tasks[w := x])))
  {
    var way' := Way(s.(tasks := s.tasks[w := x]));
    assert w in way' && way'[w].0 == x.capsule.id;
    if IsCapsule(s.table, x.capsule.id) && s.table[x.capsule.id].promotedTo.None? {
      var w' :| w' in s.tasks && s.tasks[w'].Linking? && s.tasks[w'].capsule.id == x.capsule.id;
      assert w' in way' && way'[w'].0 == x.capsule.id;
    }
  }

  lemma StalePromotionBreaksLinks(s: State, w: nat)
    requires Sound(s) && Enabled(s, PromoteWrites(w)) && !Fresh(s, PromoteWrites(w))
    ensures !Sound(AfterWrite(s, w))
  {
    var s', x := AfterWrite(s, w), s.tasks[w];
    assert TaskOk(s.table, x);
    assert s'.tasks == s.tasks[w := s'.tasks[w]];
    if !Unlinked(s, x.capsule.id) {
      SecondLinkBreaksLinks(s, w, s'.tasks[w], s'.table);
    } else {
      StaleMergeBreaksLinks(s, w);
    }
  }

  lemma StaleMergeBreaksLinks(s: State, w: nat)
    requires Sound(s) && Enabled(s, PromoteWrites(w)) && Unlinked(s, s.tasks[w].capsule.id)
    requires s.tasks[w].target.Some? && CopyOk(s.table, s.tasks[w].target.value)
    requires s.tasks[w].target.value.row.Engramm?
    requires !SameLinks(s.table[s.tasks[w].target.value.id], s.tasks[w].target.value.row)
    ensures !Linked(AfterWrite(s, w).table, Way(AfterWrite(s, w)))
  {
    var s', c, found := AfterWrite(s, w), s.tasks[w].capsule.id, s.tasks[w].target.value;
    var missing := FirstMissing(found.row.merged, s.table[found.id]);
    UnlinkedOnWay(s, c);
    UnlinkedIsUnlisted(s.table, Way(s), c, found.id);
    WayOfWrite(s, w, s'.tasks[w]);
    LostMerge(s.table, Way(s), s'.table, Way(s'), found.id, missing);
  }

  /** Every step, under any interleaving, keeps the links right if and only if it is fresh. */
  lemma StepKeepsSound(s: State, e: Event)
    requires Sound(s) && Enabled(s, e)
    ensures Sound(Step(s, e)) <==> Fresh(s, e)
  {
    if Fresh(s, e) {
      FreshKeepsSound(s, e);
    } else {
      match e
      case WriteBack(w, change) => StaleWriteBackBreaksLinks(s, w, change);
      case PromoteWrites(w) => StalePromotionBreaksLinks(s, w);
    }
  }

  // ---------------------------------------------------------------------------
  // Runs
  // ---------------------------------------------------------------------------

  /** The state after a sequence of events; None when some event was not possible. */
  ghost function Run(es: seq<Event>): Option<State> {
    if es == [] then Some(Start)
    else
      match Run(es[..|es| - 1])
      case None => None
      case Some(s) =>
        var e := es[|es| - 1];
        if Enabled(s, e) then Some(Step(s, e)) else None
  }

  ghost predicate NeverStale(es: seq<Event>)
    requires Run(es).Some?
  {
    es != [] ==>
      && NeverStale(es[..|es| - 1])
      && Fresh(Run(es[..|es| - 1]).value, es[|es| - 1])
  }

  ghost predicate SoundAfter(es: seq<Event>) {
    Run(es).Some? && Sound(Run(es).value)
  }

  /** After every part of a run. */
  ghost predicate SoundThroughout(es: seq<Event>) {
    forall k :: 0 <= k <= |es| ==> SoundAfter(es[..k])
  }

  lemma PrefixesOfPrefix(es: seq<Event>)
    requires es != []
    ensures SoundThroughout(es) <==> SoundThroughout(es[..|es| - 1]) && SoundAfter(es)
  {
    var before := es[..|es| - 1];
    assert es[..|es|] == es;
    assert forall k :: 0 <= k <= |before| ==> es[..k] == before[..k];
    if SoundThroughout(es) {
      forall k | 0 <= k <= |before| ensures SoundAfter(before[..k]) {
        assert SoundAfter(es[..k]);
      }
      assert SoundAfter(es[..|es|]);
    }
  }

  lemma StartIsSound()
    ensures Sound(Start)
  {
    assert Init[..0] == [];
    assert Way(Start) == map[];
    LinkedAtRest(Init);
  }

  /** The links are right after every part of a run if and only if no write of it is stale. */
  lemma {:induction false} RunIsSoundExactly(es: seq<Event>)
    requires Run(es).Some?
    ensures NeverStale(es) <==> SoundThroughout(es)
  {
    if es == [] {
      StartIsSound();
      assert es[..0] == es;
    } else {
      var before, e := es[..|es| - 1], es[|es| - 1];
      RunIsSoundExactly(before);
      PrefixesOfPrefix(es);
      if SoundThroughout(before) {
        assert before[..|before|] == before;
        assert SoundAfter(before[..|before|]);
        StepKeepsSound(Run(before).value, e);
      }
    }
  }

  lemma RunKeepsSound(es: seq<Event>)
    requires Run(es).Some? && NeverStale(es)
    ensures Sound(Run(es).value)
  {
    RunIsSoundExactly(es);
    assert SoundAfter(es[..|es|]);
    assert es[..|es|] == es;
  }

  /** In a run without stale writes a capsule points to an engramm, or its promotion is about
      to make it, exactly when it is its source or merged into it; no other engramm lists it;
      and with no promotion on its way the table alone has these links. */
  lemma LinksAgree(es: seq<Event>, c: nat, e: nat, e': nat)
    requires Run(es).Some? && NeverStale(es)
    ensures var s := Run(es).value;
            && (Lists(s.table, e, c) <==> PointsTo(s.table, c, e) || OnTheWay(Way(s), c, e))
            && (Lists(s.table, e, c) && Lists(s.table, e', c) ==> e == e')
            && ((forall w :: w in s.tasks ==> !s.tasks[w].Linking?) ==> Inv(s.table))
  {
    RunKeepsSound(es);
    var s := Run(es).value;
    assert Lists(s.table, e, c) <==> PointsTo(s.table, c, e) || OnTheWay(Way(s), c, e);
    assert Lists(s.table, e', c) <==> PointsTo(s.table, c, e') || OnTheWay(Way(s), c, e');
    if forall w :: w in s.tasks ==> !s.tasks[w].Linking? {
      assert Way(s) == map[];
      LinkedAtRest(s.table);
    }
  }

  /** A capsule that is promoted keeps its engramm for good, and an engramm its capsules. */
  lemma {:induction false} LinksAreKept(es: seq<Event>, k: nat)
    requires Run(es).Some? && NeverStale(es) && k <= |es|
    ensures Run(es[..k]).Some? && Grows(Run(es[..k]).value.table, Run(es).value.table)
  {
    if k == |es| {
      assert es[..k] == es;
      GrowsRefl(Run(es).value.table);
    } else {
      var before := es[..|es| - 1];
      assert before[..k] == es[..k];
      LinksAreKept(before, k);
      RunKeepsSound(before);
      FreshKeepsSound(Run(before).value, es[|es| - 1]);
      GrowsTrans(Run(es[..k]).value.table, Run(before).value.table, Run(es).value.table);
    }
  }

  lemma GrowsTrans(t: Table, t1: Table, t2: Table)
    requires Grows(t, t1) && Grows(t1, t2)
    ensures Grows(t, t2)
  {
  }

  /** An engramm stands for its source and the distinct capsules merged into it, its
      references count at least those, and the engramms stand without overlap for the
      capsules that are promoted or about to be. */
  lemma WeightsCountPromotedCapsules(es: seq<Event>)
    requires Run(es).Some? && NeverStale(es)
    ensures var s := Run(es).value;
            && TotalWeight(s.table) == PromotedCount(s.table) + |Way(s)|
            && forall e :: 0 <= e < |s.table| ==> EngrammOk(s.table[e])
  {
    RunKeepsSound(es);
  }

  /** A promotion starts exactly on an existing capsule that is at least an hour old by a
      creation time it has. */
  lemma PromotionStartsExactly(s: State, w: nat, c: nat, now: real)
    requires w !in s.tasks
    ensures w in Step(s, PromoteReads(w, c, now)).tasks <==>
            c < |s.table| && s.table[c].Capsule? && s.table[c].created != 0.0 && now - s.table[c].created >= 3600.0
  {
  }

  /** However stale the object it writes back, no statement but that of the embedding column
      changes whether an engramm is embedded. */
  lemma EmbeddingChangesExactly(s: State, e: Event, i: nat)
    requires TasksOk(s.table, s.tasks) && Enabled(s, e) && i < |s.table| && s.table[i].Engramm?
    ensures i < |Step(s, e).table| && Step(s, e).table[i].Engramm?
    ensures Step(s, e).table[i].embedded <==> s.table[i].embedded || e == Embed(i)
  {
    match e
    case WriteBack(w, _) => assert TaskOk(s.table, s.tasks[w]);
    case PromoteWrites(w) => assert TaskOk(s.table, s.tasks[w]);
    case PromoteLinks(w) => assert TaskOk(s.table, s.tasks[w]);
    case _ =>
  }

  /** How many promotions of the run ended with an engramm; batches add these up. */
  function Reported(es: seq<Event>): nat {
    if es == [] then 0 else Reported(es[..|es| - 1]) + if es[|es| - 1].PromoteLinks? then 1 else 0
  }

  /** The promotions together report exactly the capsules that are promoted at the end: none
      is reported twice, and none goes unreported. */
  lemma {:induction false} ReportsAddUp(es: seq<Event>)
    requires Run(es).Some? && NeverStale(es)
    ensures PromotedCount(Run(es).value.table) == Reported(es)
  {
    if es == [] {
      assert Init[..0] == [];
    } else {
      var before := es[..|es| - 1];
      ReportsAddUp(before);
      RunKeepsSound(before);
      FreshKeepsSound(Run(before).value, es[|es| - 1]);
    }
  }

  // ---------------------------------------------------------------------------
  // Promotions one at a time
  // ---------------------------------------------------------------------------

  /** A promotion starts when no other is under way, on a capsule that is not promoted. This
      is what a single batch does, whose query skips promoted capsules. */
  predicate OneAtATime(s: State, e: Event) {
    e.PromoteReads? ==>
      && (forall w :: w in s.tasks ==> !s.tasks[w].Promotes())
      && (IsCapsule(s.table, e.c) ==> s.table[e.c].promotedTo.None?)
  }

  /** Then nobody else links its capsule or writes the links of its engramm. */
  ghost predicate Undisturbed(s: State) {
    && (forall w, w' :: w in s.tasks && w' in s.tasks && s.tasks[w].Promotes() && s.tasks[w'].Promotes() ==> w == w')
    && (forall w :: w in s.tasks ==> PromotionUndisturbed(s.table, s.tasks[w]))
  }

  ghost predicate PromotionUndisturbed(t: Table, x: Task) {
    match x
    case Reading(capsule) => IsCapsule(t, capsule.id) && t[capsule.id].promotedTo.None?
    case Searched(capsule, _, target) =>
      && IsCapsule(t, capsule.id) && t[capsule.id].promotedTo.None?
      && (target.Some? ==> target.value.id < |t| && SameLinks(t[target.value.id], target.value.row))
    case _ => true
  }

  lemma UndisturbedIsFresh(s: State, w: nat)
    requires Undisturbed(s) && Enabled(s, PromoteWrites(w))
    ensures Fresh(s, PromoteWrites(w))
  {
    assert PromotionUndisturbed(s.table, s.tasks[w]);
    assert s.tasks[w].Promotes();
  }

  lemma StepKeepsPromotionUndisturbed(s: State, e: Event, w: nat)
    requires Sound(s) && Enabled(s, e) && Fresh(s, e) && Undisturbed(s) && OneAtATime(s, e)
    requires w in Step(s, e).tasks
    ensures PromotionUndisturbed(Step(s, e).table, Step(s, e).tasks[w])
  {
    assert w in s.tasks ==> PromotionUndisturbed(s.table, s.tasks[w]) && TaskOk(s.table, s.tasks[w]);
    match e
    case PromoteWrites(x) => assert s.tasks[x].Promotes();
    case PromoteLinks(x) => assert s.tasks[x].Promotes();
    case PromoteSearches(x, _) => assert PromotionUndisturbed(s.table, s.tasks[x]);
    case _ =>
  }

  lemma StepKeepsUndisturbed(s: State, e: Event)
    requires Sound(s) && Enabled(s, e) && Fresh(s, e) && Undisturbed(s) && OneAtATime(s, e)
    ensures Undisturbed(Step(s, e))
  {
    forall w | w in Step(s, e).tasks ensures PromotionUndisturbed(Step(s, e).table, Step(s, e).tasks[w]) {
      StepKeepsPromotionUndisturbed(s, e, w);
    }
  }

  ghost predicate AllOneAtATime(es: seq<Event>)
    requires Run(es).Some?
  {
    es != [] ==>
      && AllOneAtATime(es[..|es| - 1])
      && OneAtATime(Run(es[..|es| - 1]).value, es[|es| - 1])
  }

  ghost predicate WriteBacksFresh(es: seq<Event>)
    requires Run(es).Some?
  {
    es != [] ==>
      && WriteBacksFresh(es[..|es| - 1])
      && (es[|es| - 1].WriteBack? ==> Fresh(Run(es[..|es| - 1]).value, es[|es| - 1]))
  }

  /** With promotions one at a time, only the other writers can lose a link: a run is free of
      stale writes if and only if their write-backs are. */
  lemma {:induction false} OnlyWriteBacksLoseLinks(es: seq<Event>)
    requires Run(es).Some? && AllOneAtATime(es)
    ensures NeverStale(es) <==> WriteBacksFresh(es)
    ensures NeverStale(es) ==> Undisturbed(Run(es).value)
  {
    if es == [] {
    } else {
      var before, e := es[..|es| - 1], es[|es| - 1];
      OnlyWriteBacksLoseLinks(before);
      if WriteBacksFresh(before) {
        var s := Run(before).value;
        RunKeepsSound(before);
        if e.PromoteWrites? {
          UndisturbedIsFresh(s, e.task);
        }
        if Fresh(s, e) {
          StepKeepsUndisturbed(s, e);
        }
      }
    }
  }

  // ---------------------------------------------------------------------------
  // Two runs with a stale write
  // ---------------------------------------------------------------------------

  lemma RunOfAppend(es: seq<Event>, s: State, e: Event, s': State)
    requires Run(es) == Some(s) && Enabled(s, e) && Step(s, e) == s'
    ensures Run(es + [e]) == Some(s')
  {
    assert (es + [e])[..|es|] == es;
  }

  lemma UninterruptedLink(s: State, w: nat, c: nat, a: Answers)
    requires w !in s.tasks && IsCapsule(s.table, c) && SearchOk(s.table, a)
    ensures var s2 := s.(tasks := s.tasks[w := FoundBy(s.table, Copy(c, s.table[c]), a)]);
            && Enabled(AfterWrite(s2, w), PromoteLinks(w))
            && Step(AfterWrite(s2, w), PromoteLinks(w)) == State(Promoted(s.table, c, a), s.tasks)
  {
    var s2 := s.(tasks := s.tasks[w := FoundBy(s.table, Copy(c, s.table[c]), a)]);
    var s3 := AfterWrite(s2, w);
    assert s3.tasks - {w} == s.tasks;
    assert Step(s3, PromoteLinks(w)).table == Promoted(s.table, c, a);
  }

  /** A promotion that nothing interrupts. */
  lemma RunOfPromotion(es: seq<Event>, s: State, w: nat, c: nat, now: real, a: Answers) returns (es': seq<Event>)
    requires Run(es) == Some(s) && w !in s.tasks
    requires IsCapsule(s.table, c) && Mature(s.table[c], now) && SearchOk(s.table, a)
    ensures Run(es') == Some(State(Promoted(s.table, c, a), s.tasks))
    ensures es' == es + [PromoteReads(w, c, now), PromoteSearches(w, a), PromoteWrites(w), PromoteLinks(w)]
  {
    var capsule := Copy(c, s.table[c]);
    var s1 := s.(tasks := s.tasks[w := Reading(capsule)]);
    var s2 := s.(tasks := s.tasks[w := FoundBy(s.table, capsule, a)]);
    var s3 := AfterWrite(s2, w);
    RunOfAppend(es, s, PromoteReads(w, c, now), s1);
    RunOfAppend(es + [PromoteReads(w, c, now)], s1, PromoteSearches(w, a), s2);
    es' := es + [PromoteReads(w, c, now)] + [PromoteSearches(w, a)];
    RunOfAppend(es', s2, PromoteWrites(w), s3);
    es' := es' + [PromoteWrites(w)];
    UninterruptedLink(s, w, c, a);
    RunOfAppend(es', s3, PromoteLinks(w), State(Promoted(s.table, c, a), s.tasks));
    es' := es' + [PromoteLinks(w)];
  }

  /** A retrieval that read an engramm before a capsule was merged into it writes it back
      after: the capsule points to an engramm that does not list it. */
  lemma StaleRetrievalLosesAMerge() returns (es: seq<Event>)
    ensures Run(es).Some?
    ensures PointsTo(Run(es).value.table, 3, 2) && !Lists(Run(es).value.table, 2, 3)
  {
    var t1 := [Other, Capsule(1.0, None, 1)];
    RunOfAppend([], Start, Store(1.0), State(t1, map[]));
    es := RunOfPromotion([] + [Store(1.0)], State(t1, map[]), 0, 1, 5000.0, Answers(true, None));
    var t2 := [Other, Capsule(1.0, Some(2), 1), Engramm(1, [], 1, true, 1)];
    assert Promoted(t1, 1, Answers(true, None)) == t2;
    var t3 := t2 + [Capsule(2.0, None, 1)];
    RunOfAppend(es, State(t2, map[]), Store(2.0), State(t3, map[]));
    es := es + [Store(2.0)];
    var tasks := map[1 := Holding(Copy(2, t3[2]))];
    RunOfAppend(es, State(t3, map[]), Read(1, 2), State(t3, tasks));
    es := es + [Read(1, 2)];
    var a := Answers(true, Some(Hit(2, 0.95)));
    es := RunOfPromotion(es, State(t3, tasks), 0, 3, 5000.0, a);
    var t4 := Promoted(t3, 3, a);
    var t5 := t4[2 := Engramm(1, [], 2, true, 1)];
    assert t4[2] == Engramm(1, [3], 2, true, 1);
    assert tasks - {1} == map[];
    RunOfAppend(es, State(t4, tasks), WriteBack(1, CountReference), State(t5, map[]));
    es := es + [WriteBack(1, CountReference)];
  }

  /** A retrieval that read a capsule before its promotion forgets it after. */
  function Forgotten(): Table {
    [Other, Capsule(1.0, None, 1), Engramm(1, [], 1, false, 1)]
  }

  lemma StaleTagsForgetAPromotion() returns (es: seq<Event>)
    ensures Run(es) == Some(State(Forgotten(), map[]))
  {
    var a := Answers(false, None);
    var t1 := [Other, Capsule(1.0, None, 1)];
    RunOfAppend([], Start, Store(1.0), State(t1, map[]));
    es := [] + [Store(1.0)];
    var tasks := map[1 := Holding(Copy(1, t1[1]))];
    RunOfAppend(es, State(t1, map[]), Read(1, 1), State(t1, tasks));
    es := RunOfPromotion(es + [Read(1, 1)], State(t1, tasks), 0, 1, 5000.0, a);
    var t2 := [Other, Capsule(1.0, Some(2), 1), Engramm(1, [], 1, false, 1)];
    assert Promoted(t1, 1, a) == t2;
    assert tasks - {1} == map[];
    assert t2[1 := t1[1]] == Forgotten();
    RunOfAppend(es, State(t2, tasks), WriteBack(1, Annotate), State(Forgotten(), map[]));
    es := es + [WriteBack(1, Annotate)];
  }

  /** The next batch promotes it again, and two engramms list it. */
  lemma StaleTagsPromoteTwice() returns (es: seq<Event>)
    ensures Run(es).Some?
    ensures Lists(Run(es).value.table, 2, 1) && Lists(Run(es).value.table, 3, 1)
  {
    es := StaleTagsForgetAPromotion();
    var a := Answers(false, None);
    var t := [Other, Capsule(1.0, Some(3), 1), Engramm(1, [], 1, false, 1), Engramm(1, [], 1, false, 1)];
    assert Promoted(Forgotten(), 1, a) == t;
    es := RunOfPromotion(es, State(Forgotten(), map[]), 0, 1, 6000.0, a);
  }
}
