/**
  The database as the handlers use it: tables, serial numbers, statements that
  may fail, and transactions.

  A failed statement leaves its table alone.  Rolling back restores the tables
  but not the serial numbers.
*/
module Database {
  import opened AccountRuns
  import opened SessionLedger
  import opened SessionRows
  import opened SessionRuns
  import opened Wrappers

  // A row of composites_rooms; all four columns are its primary key.
  datatype Placement = Placement(composite: int, room: int, gateway: int, position: int)

  datatype Tables = Tables(sessions: Rows, users: map<int, User>, placements: set<Placement>)

  // What the body of a transaction did.
  datatype Outcome<+E> = Done | Failed(error: E) | Panicked

  // What the caller of the transaction sees.
  datatype TxResult<+E> = Committed | RolledBack(error: E) | TxError | Repanicked

  datatype InsertReply = Stored | DuplicateKey | InsertFailed

  datatype UserReply = Found(user: User) | NoRows | QueryFailed

  class Db {
    var tables: Tables
    var nextSession: int
    var nextUser: int
    var saved: Option<Tables>            // the tables as of the open transaction's begin
    ghost var history: seq<Event>        // committed session events
    ghost var faults: nat                // statements and commands the database has failed

    ghost predicate Ok(t: Tables)
      reads this
    {
      && RowsOk(t.sessions)
      && (forall id :: id in t.sessions ==> id < nextSession)
      && UsersOk(t.users, nextUser)
      && 0 < nextUser
    }

    // Outside transactions.
    ghost predicate Valid()
      reads this
    {
      Ok(tables) && saved.None? && Legal(history) && tables.sessions == Run(history)
    }

    // Inside one.
    ghost predicate Open()
      reads this
    {
      saved.Some? && Ok(tables)
    }

    // The state at the begin of the transaction can be restored.
    ghost predicate Restorable()
      reads this
    {
      saved.Some? && Ok(saved.value) && Legal(history) && saved.value.sessions == Run(history)
    }

    constructor ()
      ensures Valid() && tables == Tables(map[], map[], {}) && history == []
    {
      tables, nextSession, nextUser, saved := Tables(map[], map[], {}), 1, 1, None;
      history, faults := [], 0;
    }

    method Begin() returns (ok: bool)
      requires Valid()
      modifies `saved, `faults
      ensures faults == old(faults) + if ok then 0 else 1
      ensures if ok then Open() && Restorable() && saved == Some(tables) else Valid()
    {
      ok := *;
      if ok {
        saved := Some(tables);
      } else {
        faults := faults + 1;
      }
    }

    // Commits a body that is done; rolls back one that failed or panicked.
    method Settle<E>(outcome: Outcome<E>, ghost evs: seq<Event>) returns (r: TxResult<E>)
      requires Open() && Restorable()
      requires outcome.Done? ==> Legal(history + evs) && tables.sessions == Run(history + evs)
      modifies `tables, `saved, `history, `faults
      ensures Valid()
      ensures old(faults) <= faults && (r.TxError? ==> old(faults) < faults)
      ensures r.Committed? ==> outcome.Done? && tables == old(tables) && history == old(history) + evs
      ensures !r.Committed? ==> tables == old(saved).value && history == old(history)
      ensures r.RolledBack? ==> outcome == Failed(r.error)
      ensures r.Repanicked? <==> outcome.Panicked?
    {
      var controlOk: bool := *;     // of the commit or rollback command itself
      faults := faults + if controlOk then 0 else 1;
      if outcome.Done? && controlOk {
        history := history + evs;
        r := Committed;
      } else {
        tables := saved.value;
        r := match outcome
             case Done => TxError
             case Failed(e) => if controlOk then RolledBack(e) else TxError
             case Panicked => Repanicked;
      }
      saved := None;
    }

    method SelectUser(account: string) returns (r: UserReply)
      requires UsersOk(tables.users, nextUser)
      modifies `faults
      ensures faults == old(faults) + if r.QueryFailed? then 1 else 0
      ensures r.Found? ==> r.user.id in tables.users && tables.users[r.user.id] == r.user && r.user.account == account
      ensures r.NoRows? ==> !Registered(tables.users, account)
    {
      if * {
        r, faults := QueryFailed, faults + 1;
      } else if id :| id in tables.users && tables.users[id].account == account {
        r := Found(tables.users[id]);
      } else {
        r := NoRows;
      }
    }

    // Account ids are unique.
    method InsertUser(account: string) returns (ok: bool, user: User)
      requires Open()
      modifies `tables, `nextUser, `faults
      ensures old(faults) <= faults
      ensures !ok ==> old(faults) < faults || Registered(old(tables).users, account)
      ensures Registered(old(tables).users, account) ==> !ok
      ensures Open() && nextUser == old(nextUser) + 1 && user == User(old(nextUser), account, false)
      ensures tables == if ok then old(tables).(users := old(tables).users[user.id := user]) else old(tables)
    {
      user := User(nextUser, account, false);
      nextUser := nextUser + 1;
      ok := *;
      faults := faults + if ok then 0 else 1;
      var clash := exists id :: id in tables.users && tables.users[id].account == account;
      assert forall id :: HasRow(tables.users, account, id) ==> clash;
      assert clash ==> Registered(tables.users, account) by {
        if id :| id in tables.users && tables.users[id].account == account {
          assert HasRow(tables.users, account, id);
        }
      }
      ok := ok && !clash;
      if ok {
        tables := tables.(users := tables.users[user.id := user]);
      }
    }

    method CloseSessions(user: int, at: int) returns (ok: bool)
      requires Open()
      modifies `tables, `faults
      ensures Open() && faults == old(faults) + if ok then 0 else 1
      ensures tables == if ok
                        then old(tables).(sessions := CloseActive(old(tables).sessions, user, at))
                        else old(tables)
    {
      ok := *;
      faults := faults + if ok then 0 else 1;
      if ok {
        CloseLookup(tables.sessions, user, at, Key(0, None, None));
        tables := tables.(sessions := CloseActive(tables.sessions, user, at));
      }
    }

    // The user column references the users table; the serial number is spent either way.
    method UpsertSession(o: Row, c: Columns, now: int) returns (ok: bool, ghost newId: int)
      requires Open() && Made(o) && (c == Infer || c == Blacklist({CreatedAt, Properties}))
      modifies `tables, `nextSession, `faults
      ensures old(faults) <= faults && (!ok ==> old(faults) < faults || o.user !in tables.users)
      ensures Open() && newId == old(nextSession) < nextSession && newId !in old(tables).sessions
      ensures o.user !in tables.users ==> !ok
      ensures tables == if ok
                        then old(tables).(sessions := Upsert(old(tables).sessions, o, c, newId, now))
                        else old(tables)
    {
      var id := nextSession;
      newId, nextSession := id, id + 1;
      ok := *;
      faults := faults + if ok then 0 else 1;
      ok := ok && o.user in tables.users;
      if ok {
        UpsertLookup(tables.sessions, o, c, id, now, KeyOf(o));
        var rows := Write(tables.sessions, o, c, id, now);
        tables := tables.(sessions := rows);
      }
    }

    method SelectStale(cutoff: int) returns (ok: bool, found: seq<Row>)
      requires RowsOk(tables.sessions)
      modifies `faults
      ensures faults == old(faults) + if ok then 0 else 1
      ensures ok ==> Fetched(tables.sessions, found, cutoff)
      ensures ok && found == [] ==> StaleIDs(tables.sessions, cutoff) == {}
      ensures !ok ==> found == []
    {
      ok, found := *, [];
      faults := faults + if ok then 0 else 1;
      if ok {
        found := FetchStale(tables.sessions, cutoff);
      }
    }

    method DeletePlacements(composite: int) returns (ok: bool)
      requires Open()
      modifies `tables, `faults
      ensures Open() && faults == old(faults) + if ok then 0 else 1
      ensures tables == old(tables).(placements := tables.placements)
      ensures forall p :: p in tables.placements <==> p in old(tables).placements && (ok ==> p.composite != composite)
    {
      ok := *;
      faults := faults + if ok then 0 else 1;
      if ok {
        tables := tables.(placements := set p | p in tables.placements && p.composite != composite);
      }
    }

    method InsertPlacement(p: Placement) returns (r: InsertReply)
      requires Open()
      modifies `tables, `faults
      ensures Open() && faults == old(faults) + if r.InsertFailed? then 1 else 0
      ensures r.DuplicateKey? ==> p in old(tables).placements
      ensures r.Stored? ==> p !in old(tables).placements
      ensures tables == if r.Stored? then old(tables).(placements := old(tables).placements + {p}) else old(tables)
    {
      if p in tables.placements {
        r := DuplicateKey;
      } else if * {
        tables, r := tables.(placements := tables.placements + {p}), Stored;
      } else {
        r, faults := InsertFailed, faults + 1;
      }
    }

    // A composite's rows, ordered by position; rows at one position come in any order.
    method SelectPlacements(composite: int) returns (rows: seq<Placement>)
      ensures Ordered(rows) && forall p :: p in rows <==> p in tables.placements && p.composite == composite
    {
      rows := [];
      var rest := set p | p in tables.placements && p.composite == composite;
      ghost var all := rest;
      while rest != {}
        invariant rest <= all && Ordered(rows)
        invariant forall p :: p in rows <==> p in all - rest
        invariant forall p, q :: p in rows && q in rest ==> p.position <= q.position
        decreases rest
      {
        var p := Lowest(rest);
        rows, rest := rows + [p], rest - {p};
      }
    }

    // update ... where id = any(ids)
    method EndSessions(ids: seq<int>, at: int) returns (ok: bool)
      requires Open()
      modifies `tables, `faults
      ensures Open() && faults == old(faults) + if ok then 0 else 1
      ensures tables == if ok
                        then old(tables).(sessions := EndByIDs(old(tables).sessions, (set id | id in ids), at))
                        else old(tables)
    {
      ok := *;
      faults := faults + if ok then 0 else 1;
      if ok {
        ghost var hits := KeysOf(tables.sessions, set id | id in ids);
        EndByIDsIsByKeys(tables.sessions, (set id | id in ids), at);
        CleanLookup(tables.sessions, hits, at, Key(0, None, None));
        tables := tables.(sessions := EndByIDs(tables.sessions, (set id | id in ids), at));
      }
    }
  }

  // By position, no row twice.
  ghost predicate Ordered(rows: seq<Placement>) {
    forall i, j :: 0 <= i < j < |rows| ==> rows[i].position <= rows[j].position && rows[i] != rows[j]
  }

  method Lowest(ps: set<Placement>) returns (p: Placement)
    requires ps != {}
    ensures p in ps && forall q :: q in ps ==> p.position <= q.position
  {
    p := AnyOf(ps);
    var rest := ps - {p};
    while rest != {}
      invariant rest <= ps && p in ps
      invariant forall q :: q in ps - rest ==> p.position <= q.position
      decreases rest
    {
      var q := AnyOf(rest);
      rest := rest - {q};
      if q.position < p.position {
        p := q;
      }
    }
  }

  method AnyOf<T>(s: set<T>) returns (x: T)
    requires s != {}
    ensures x in s
  {
    x :| x in s;
  }

  // A row of the table, active and last updated before the cutoff.
  ghost predicate Selected(rows: Rows, r: Row, cutoff: int) {
    && r.id in rows && rows[r.id] == r
    && r.removedAt.None? && r.updatedAt.Some? && r.updatedAt.value < cutoff
  }

  // A fetch holds each stale row once.
  ghost predicate Fetched(rows: Rows, found: seq<Row>, cutoff: int) {
    && (forall r :: r in found <==> Selected(rows, r, cutoff))
    && (forall r :: multiset(found)[r] <= 1)
  }

  // The matching rows, in no particular order.
  method FetchStale(rows: Rows, cutoff: int) returns (found: seq<Row>)
    requires RowsOk(rows)
    ensures Fetched(rows, found, cutoff) && (found == [] ==> StaleIDs(rows, cutoff) == {})
  {
    found := [];
    var rest := rows.Keys;
    while rest != {}
      invariant rest <= rows.Keys
      invariant forall r :: r in found <==> r.id in rows.Keys - rest && rows[r.id] == r && Stale(Some(r), cutoff)
      invariant forall r :: multiset(found)[r] <= 1
      decreases rest
    {
      var id := AnyOf(rest);
      assert rows[id] !in found;
      rest := rest - {id};
      var updatedAt := rows[id].updatedAt;
      if rows[id].removedAt.None? && updatedAt.Some? && updatedAt.value < cutoff {
        found := found + [rows[id]];
      }
    }
    FetchedIDs(rows, found, cutoff);
  }

  lemma FetchedIDs(rows: Rows, found: seq<Row>, cutoff: int)
    requires RowsOk(rows) && Fetched(rows, found, cutoff)
    ensures (set r | r in found :: r.id) == StaleIDs(rows, cutoff)
  {
    forall id | id in StaleIDs(rows, cutoff) ensures id in set r | r in found :: r.id {
      assert rows[id] in found;
    }
  }

  lemma FetchedByOthers(rows: Rows, found: seq<Row>, other: seq<Row>, cutoff: int)
    requires Fetched(rows, found, cutoff) && multiset(other) == multiset(found)
    ensures Fetched(rows, other, cutoff)
  {
    assert forall r :: r in other <==> r in multiset(other);
    assert forall r :: r in found <==> r in multiset(found);
  }

  // The keys hit by an update of the fetched ids, after the table has moved on.
  lemma HitsOfFetch(evs: seq<Event>, ms: seq<Event>, found: seq<Row>, ids: set<int>, cutoff: int)
    requires Legal(evs + ms) && AllFrom(ms, cutoff)
    requires Legal(evs) && Fetched(Run(evs), found, cutoff) && ids == set r | r in found :: r.id
    ensures Hits(evs, cutoff, KeysOf(Run(evs + ms), ids))
    ensures Covers(evs + ms, cutoff, KeysOf(Run(evs + ms), ids))
  {
    RunLookup(evs, Key(0, None, None));
    FetchedIDs(Run(evs), found, cutoff);
    FetchIsThorough(evs, ms, cutoff);
  }

  lemma EndByIDsIsByKeys(rows: Rows, ids: set<int>, at: int)
    requires RowsOk(rows)
    ensures EndByIDs(rows, ids, at) == EndByKeys(rows, KeysOf(rows, ids), at)
  {
    forall id | id in rows ensures id in ids <==> KeyOf(rows[id]) in KeysOf(rows, ids) {
    }
  }

  // The insert with its conflict clause: the row holding the key, if any, is updated.
  method Write(rows: Rows, o: Row, c: Columns, newId: int, now: int) returns (rows': Rows)
    requires RowsOk(rows) && Made(o)
    ensures rows' == Upsert(rows, o, c, newId, now)
  {
    var excluded := Excluded(o, newId, now);
    if id :| id in rows && KeyOf(rows[id]) == KeyOf(o) {
      assert Has(rows, KeyOf(o), id);
      rows' := rows[id := Merged(rows[id], excluded, c)];
    } else {
      rows' := rows[newId := excluded];
    }
  }
}
