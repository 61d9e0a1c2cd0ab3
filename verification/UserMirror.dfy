/** The local mirror of the shared user table (core/auth.py, `_sync_from_pg`).

    The local table has two unique keys, the user id and the username; replacing a row
    deletes every row that collides on either. */
module UserMirror {
  import opened Wrappers

  datatype Fields = Fields(displayName: string, passwordHash: string, salt: string, role: string,
                           createdAt: real, lastLogin: real, active: int)

  datatype RemoteUser = RemoteUser(username: string, fields: Fields)

  datatype LocalUser = LocalUser(username: string, fields: Fields, sessionTimeout: real)

  const DEFAULT_TIMEOUT := 24.0

  /** Users by id, and the user id of each session. */
  datatype State = State(users: map<string, LocalUser>, sessions: map<string, string>)

  ghost predicate UniqueNames(users: map<string, LocalUser>) {
    forall i, j :: i in users && j in users && users[i].username == users[j].username ==> i == j
  }

  ghost predicate UniqueRemote(rows: seq<RemoteUser>) {
    forall i, j :: 0 <= i < j < |rows| ==> rows[i].username != rows[j].username
  }

  function Names(rows: seq<RemoteUser>): set<string> {
    set r | r in rows :: r.username
  }

  /** The local row written for a remote user: its id is the remote username as it is, its
      username the lowercased one. */
  function LocalRow(lower: string -> string, r: RemoteUser): LocalUser {
    LocalUser(lower(r.username), r.fields, DEFAULT_TIMEOUT)
  }

  /** INSERT OR REPLACE */
  function Upsert(lower: string -> string, users: map<string, LocalUser>, r: RemoteUser): map<string, LocalUser> {
    (map i | i in users && users[i].username != lower(r.username) :: users[i])[r.username := LocalRow(lower, r)]
  }

  function UpsertAll(lower: string -> string, users: map<string, LocalUser>,
      rows: seq<RemoteUser>): map<string, LocalUser> {
    if rows == [] then users
    else Upsert(lower, UpsertAll(lower, users, rows[..|rows| - 1]), rows[|rows| - 1])
  }

  /** Users whose username is among `gone` leave, with the sessions under their id. */
  function Prune(s: State, gone: set<string>): State {
    State(map i | i in s.users && s.users[i].username !in gone :: s.users[i],
          map t | t in s.sessions && !(s.sessions[t] in s.users && s.users[s.sessions[t]].username in gone) ::
            s.sessions[t])
  }

  function LocalNames(users: map<string, LocalUser>): set<string> {
    set i | i in users :: users[i].username
  }

  function Synced(lower: string -> string, s: State, rows: seq<RemoteUser>): State {
    var users := UpsertAll(lower, s.users, rows);
    Prune(s.(users := users), LocalNames(users) - Names(rows))
  }

  /** The part of the auth manager that owns the local tables. */
  class LocalTables {
    const lower: string -> string
    var users: map<string, LocalUser>
    var sessions: map<string, string>

    function Abs(): State
      reads this
    {
      State(users, sessions)
    }

    constructor (lower: string -> string, s: State)
      ensures this.lower == lower && Abs() == s
    {
      this.lower := lower;
      users, sessions := s.users, s.sessions;
    }

    method SyncFromPg(rows: seq<RemoteUser>)
      requires UniqueNames(users)
      modifies this
      ensures Abs() == Synced(lower, old(Abs()), rows)
    {
      var pgNames := PullUsers(rows);
      UpsertAllKeepsUnique(lower, old(users), rows);
      RemoveGone(LocalNames(users) - pgNames);
    }

    /** The loop over the remote rows. */
    method PullUsers(rows: seq<RemoteUser>) returns (pgNames: set<string>)
      modifies this`users
      ensures users == UpsertAll(lower, old(users), rows) && pgNames == Names(rows)
    {
      pgNames := {};
      for i := 0 to |rows|
        invariant users == UpsertAll(lower, old(users), rows[..i])
        invariant pgNames == Names(rows[..i])
      {
        assert rows[..i + 1] == rows[..i] + [rows[i]];
        var r := rows[i];
        pgNames := pgNames + {r.username};
        users := (map u | u in users && users[u].username != lower(r.username) :: users[u])
                   [r.username := LocalUser(lower(r.username), r.fields, DEFAULT_TIMEOUT)];
      }
      assert rows[..|rows|] == rows;
    }

    /** The loop over the names that are gone remotely. */
    method RemoveGone(names: set<string>)
      requires UniqueNames(users) && names <= LocalNames(users)
      modifies this
      ensures Abs() == Prune(old(Abs()), names)
    {
      ghost var start := Abs();
      var gone := names;
      ghost var done: set<string> := {};
      assert Abs() == Prune(start, done);
      while gone != {}
        invariant Abs() == Prune(start, done)
        invariant done !! gone && done + gone == names
        decreases gone
      {
        var name :| name in gone;
        assert name in LocalNames(start.users);
        var u :| u in users && users[u].username == name;
        PruneOneMore(start, done, u);
        sessions := map t | t in sessions && sessions[t] != u :: sessions[t];
        users := users - {u};
        done := done + {name};
        gone := gone - {name};
      }
      assert done == names;
    }
  }

  /** Pruning names one at a time. */
  lemma PruneOneMore(s: State, done: set<string>, u: string)
    requires UniqueNames(s.users) && u in s.users && s.users[u].username !in done
    ensures var s1 := Prune(s, done);
            Prune(s, done + {s.users[u].username})
              == State(s1.users - {u}, map t | t in s1.sessions && s1.sessions[t] != u :: s1.sessions[t])
  {
    var name := s.users[u].username;
    assert forall i :: i in s.users ==>
                         (s.users[i].username in done + {name} <==> s.users[i].username in done || i == u);
    var s1, s2 := Prune(s, done), Prune(s, done + {name});
    assert s2.users == s1.users - {u};
  }

  lemma {:induction false} UpsertAllKeepsUnique(lower: string -> string, users: map<string, LocalUser>,
      rows: seq<RemoteUser>)
    requires UniqueNames(users)
    ensures UniqueNames(UpsertAll(lower, users, rows))
  {
    if rows == [] {
    } else {
      UpsertAllKeepsUnique(lower, users, rows[..|rows| - 1]);
    }
  }

  // ---------------------------------------------------------------------------
  // Theorems
  // ---------------------------------------------------------------------------

  /** The mirror of the remote table: every remote user under its name as id and as username,
      with its fields and the default session timeout. */
  ghost predicate IsMirror(users: map<string, LocalUser>, rows: seq<RemoteUser>) {
    && users.Keys == Names(rows)
    && forall r :: r in rows ==> Lookup(users, r.username) == Some(LocalUser(r.username, r.fields, 24.0))
  }

  ghost predicate AllLower(lower: string -> string, rows: seq<RemoteUser>) {
    forall r :: r in rows ==> lower(r.username) == r.username
  }

  /** The last of unique rows is new. */
  lemma LastRowIsNew(rows: seq<RemoteUser>)
    requires UniqueRemote(rows) && rows != []
    ensures var before, r := rows[..|rows| - 1], rows[|rows| - 1];
            && Names(rows) == Names(before) + {r.username} && r.username !in Names(before)
            && forall q :: q in rows <==> q in before || q == r
  {
    var before, r := rows[..|rows| - 1], rows[|rows| - 1];
    assert rows == before + [r];
    forall q | q in before ensures q.username != r.username {
      var i :| 0 <= i < |before| && before[i] == q;
      assert rows[i] == q;
    }
  }

  /** The remote users are in the table, and no other row holds one of their names. */
  ghost predicate Holds(users: map<string, LocalUser>, rows: seq<RemoteUser>) {
    && (forall r :: r in rows ==> Lookup(users, r.username) == Some(LocalUser(r.username, r.fields, 24.0)))
    && (forall i :: i in users && users[i].username in Names(rows) ==> i in Names(rows))
  }

  lemma {:induction false} UpsertAllWritesMirror(lower: string -> string, users: map<string, LocalUser>,
      rows: seq<RemoteUser>)
    requires UniqueRemote(rows) && AllLower(lower, rows)
    ensures Holds(UpsertAll(lower, users, rows), rows)
  {
    if rows == [] {
    } else {
      LastRowIsNew(rows);
      UpsertAllWritesMirror(lower, users, rows[..|rows| - 1]);
    }
  }

  lemma SyncOfLowercase(lower: string -> string, s: State, rows: seq<RemoteUser>)
    requires UniqueRemote(rows) && AllLower(lower, rows)
    ensures IsMirror(Synced(lower, s, rows).users, rows)
  {
    var users := UpsertAll(lower, s.users, rows);
    UpsertAllWritesMirror(lower, s.users, rows);
    forall i | i in users ensures i in Synced(lower, s, rows).users <==> i in Names(rows) {
      assert users[i].username in LocalNames(users);
    }
    assert forall i :: i in Names(rows) ==> i in users;
  }

  /** What is under the id of a remote user has its name in lower case. */
  lemma {:induction false} WrittenNameIsLower(lower: string -> string, users: map<string, LocalUser>,
      rows: seq<RemoteUser>, r: RemoteUser)
    requires UniqueRemote(rows) && r in rows && r.username in UpsertAll(lower, users, rows)
    ensures UpsertAll(lower, users, rows)[r.username].username == lower(r.username)
  {
    LastRowIsNew(rows);
    if r != rows[|rows| - 1] {
      assert r.username in Names(rows[..|rows| - 1]);
      WrittenNameIsLower(lower, users, rows[..|rows| - 1], r);
    }
  }

  /** From any local table the sync produces exactly the mirror if and only if every remote
      username is in lower case. */
  lemma SyncMirrorsExactly(lower: string -> string, s: State, rows: seq<RemoteUser>)
    requires UniqueRemote(rows)
    ensures IsMirror(Synced(lower, s, rows).users, rows) <==> AllLower(lower, rows)
  {
    if AllLower(lower, rows) {
      SyncOfLowercase(lower, s, rows);
    }
    if IsMirror(Synced(lower, s, rows).users, rows) {
      forall r | r in rows ensures lower(r.username) == r.username {
        assert Lookup(Synced(lower, s, rows).users, r.username).Some?;
        WrittenNameIsLower(lower, s.users, rows, r);
      }
    }
  }

  /** No remote row writes the id or the username. */
  predicate Untouched(lower: string -> string, rows: seq<RemoteUser>, i: string, username: string) {
    rows != [] ==>
      && Untouched(lower, rows[..|rows| - 1], i, username)
      && rows[|rows| - 1].username != i && lower(rows[|rows| - 1].username) != username
  }

  lemma UpsertedAt(lower: string -> string, users: map<string, LocalUser>, r: RemoteUser, i: string)
    ensures Lookup(Upsert(lower, users, r), i) ==
              if i == r.username then Some(LocalRow(lower, r))
              else if i in users && users[i].username != lower(r.username) then Some(users[i])
              else None
  {
  }

  /** What the upserts write does not depend on what was there before: under each id the
      table has an untouched old row, or what an empty table would get. */
  lemma {:induction false} UpsertsSplit(lower: string -> string, users: map<string, LocalUser>, rows: seq<RemoteUser>,
      i: string)
    ensures Lookup(UpsertAll(lower, users, rows), i) ==
              if i in users && Untouched(lower, rows, i, users[i].username) then Some(users[i])
              else Lookup(UpsertAll(lower, map[], rows), i)
    ensures i in users && Untouched(lower, rows, i, users[i].username) ==> i !in UpsertAll(lower, map[], rows)
  {
    if rows == [] {
    } else {
      var before, r := rows[..|rows| - 1], rows[|rows| - 1];
      UpsertsSplit(lower, users, before, i);
      UpsertedAt(lower, UpsertAll(lower, users, before), r, i);
      UpsertedAt(lower, UpsertAll(lower, map[], before), r, i);
    }
  }

  /** A sync keeps, of what the upserts gave, the users whose names are remote. */
  lemma SyncedAt(lower: string -> string, s: State, rows: seq<RemoteUser>, i: string)
    ensures var users := UpsertAll(lower, s.users, rows);
            Lookup(Synced(lower, s, rows).users, i) ==
              if i in users && users[i].username in Names(rows) then Some(users[i]) else None
  {
    var users := UpsertAll(lower, s.users, rows);
    assert i in users ==> users[i].username in LocalNames(users);
  }

  /** A second sync writes no row that the first did not leave, or write and prune. */
  lemma SecondUpserts(lower: string -> string, s: State, rows: seq<RemoteUser>, i: string)
    ensures var first := UpsertAll(lower, s.users, rows);
            var second := UpsertAll(lower, Synced(lower, s, rows).users, rows);
            if i in first && first[i].username in Names(rows) then Lookup(second, i) == Some(first[i])
            else i in second ==> Lookup(first, i) == Some(second[i])
  {
    SyncedAt(lower, s, rows, i);
    UpsertsSplit(lower, s.users, rows, i);
    UpsertsSplit(lower, Synced(lower, s, rows).users, rows, i);
  }

  /** Syncing twice is syncing once, whatever the names are. */
  lemma SyncIsIdempotent(lower: string -> string, s: State, rows: seq<RemoteUser>)
    ensures Synced(lower, Synced(lower, s, rows), rows) == Synced(lower, s, rows)
  {
    var s1 := Synced(lower, s, rows);
    var s2 := Synced(lower, s1, rows);
    forall i ensures Lookup(s2.users, i) == Lookup(s1.users, i) {
      SyncedAt(lower, s, rows, i);
      SyncedAt(lower, s1, rows, i);
      SecondUpserts(lower, s, rows, i);
    }
    assert s2.users == s1.users by { SameMaps(s2.users, s1.users); }
    forall t | t in s1.sessions ensures t in s2.sessions {
      PrunedUsersLoseTheirSessions(lower, s, rows, t);
      PrunedUsersLoseTheirSessions(lower, s1, rows, t);
      SecondUpserts(lower, s, rows, s1.sessions[t]);
    }
    assert s2.sessions == s1.sessions;
  }

  lemma SameMaps<K, V>(a: map<K, V>, b: map<K, V>)
    requires forall k :: Lookup(a, k) == Lookup(b, k)
    ensures a == b
  {
    assert forall k :: k in a <==> Lookup(a, k).Some?;
    assert forall k :: k in b <==> Lookup(b, k).Some?;
  }

  lemma {:induction false} UpsertsAddNoNames(lower: string -> string, users: map<string, LocalUser>,
      rows: seq<RemoteUser>, i: string)
    requires AllLower(lower, rows) && i in UpsertAll(lower, users, rows)
    ensures var n := UpsertAll(lower, users, rows)[i].username;
            n in Names(rows) || (i in users && users[i].username == n)
  {
    if rows == [] {
    } else {
      var before, last := rows[..|rows| - 1], rows[|rows| - 1];
      assert rows == before + [last];
      if i != last.username {
        UpsertsAddNoNames(lower, users, before, i);
      }
    }
  }

  /** A session is deleted exactly when its user was pruned: its id named, after the upserts,
      a row whose username is not in the remote table. */
  lemma PrunedUsersLoseTheirSessions(lower: string -> string, s: State, rows: seq<RemoteUser>, token: string)
    requires token in s.sessions
    ensures var users := UpsertAll(lower, s.users, rows);
            var id := s.sessions[token];
            token in Synced(lower, s, rows).sessions <==> !(id in users && users[id].username !in Names(rows))
  {
    var users := UpsertAll(lower, s.users, rows);
    if s.sessions[token] in users {
      assert users[s.sessions[token]].username in LocalNames(users);
    }
  }

  /** Replacing a row by its username can change its id: a session of the old id survives the
      sync, but its user is gone. */
  lemma RekeyedSessionsLoseTheirUser(lower: string -> string, s: State, rows: seq<RemoteUser>, token: string)
    requires UniqueRemote(rows) && AllLower(lower, rows)
    requires token in s.sessions && s.sessions[token] in s.users
    requires s.users[s.sessions[token]].username in Names(rows)
    ensures var s' := Synced(lower, s, rows);
            var id := s.sessions[token];
            && token in s'.sessions
            && (id in s'.users <==> id in Names(rows))
  {
    SyncOfLowercase(lower, s, rows);
    UpsertAllWritesMirror(lower, s.users, rows);
    PrunedUsersLoseTheirSessions(lower, s, rows, token);
    var users := UpsertAll(lower, s.users, rows);
    if s.sessions[token] in users {
      UpsertsAddNoNames(lower, s.users, rows, s.sessions[token]);
    }
  }
}
