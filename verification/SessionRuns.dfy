/**
  Runs of the sessions table: what enter, status update, leave and cleaning do
  to it, one committed transaction at a time, and the same seen key by key.
*/
module SessionRuns {
  import opened SessionRows
  import opened Wrappers

  // `newId` is the serial number drawn by the insert; the other numbers are clock readings.
  // Enter is the close and the upsert of one transaction with nothing in between; where other
  // transactions commit in between, the close is a Leave and the upsert a Put.
  datatype Event =
    | Enter(o: Row, newId: int, at: int, now: int)
    | Put(o: Row, newId: int, now: int)
    | Status(o: Row, newId: int, now: int)
    | Leave(user: int, at: int)
    | Clean(hits: set<Key>, seen: int, at: int)   // fetched at `seen`, updated at `at`

  // Cleaning updates by id; here the rows are told by their keys.
  ghost function EndByKeys(rows: Rows, hits: set<Key>, at: int): Rows {
    EndByIDs(rows, (set id | id in rows && KeyOf(rows[id]) in hits), at)
  }

  ghost function KeysOf(rows: Rows, ids: set<int>): set<Key> {
    set id | id in ids && id in rows :: KeyOf(rows[id])
  }

  ghost predicate Enabled(rows: Rows, e: Event) {
    match e
    case Enter(o, newId, _, _) => Made(o) && newId !in rows
    case Put(o, newId, _) => Made(o) && newId !in rows
    case Status(o, newId, _) => Made(o) && newId !in rows
    case Leave(_, _) => true
    case Clean(_, _, _) => true
  }

  ghost function Apply(rows: Rows, e: Event): Rows {
    match e
    case Enter(o, newId, at, now) => Upsert(CloseActive(rows, o.user, at), o, Infer, newId, now)
    case Put(o, newId, now) => Upsert(rows, o, Infer, newId, now)
    case Status(o, newId, now) => Upsert(rows, o, Blacklist({CreatedAt, Properties}), newId, now)
    case Leave(user, at) => CloseActive(rows, user, at)
    case Clean(hits, _, at) => EndByKeys(rows, hits, at)
  }

  ghost function Run(evs: seq<Event>): Rows {
    if evs == [] then map[] else Apply(Run(evs[..|evs| - 1]), evs[|evs| - 1])
  }

  ghost predicate Legal(evs: seq<Event>) {
    evs == [] || (Legal(evs[..|evs| - 1]) && Enabled(Run(evs[..|evs| - 1]), evs[|evs| - 1]))
  }

  lemma RunSnoc(evs: seq<Event>, e: Event)
    requires Legal(evs) && Enabled(Run(evs), e)
    ensures Legal(evs + [e]) && Run(evs + [e]) == Apply(Run(evs), e)
  {
    assert (evs + [e])[..|evs + [e]| - 1] == evs;
  }

  // Row identity: rows carry their id, no key part is null, no key occurs twice,
  // and the update time is set.
  ghost predicate RowsOk(rows: Rows) {
    && (forall id :: id in rows ==>
          rows[id].id == id && rows[id].gateway.Some? && rows[id].session.Some? && rows[id].updatedAt.Some?)
    && (forall i, j :: i in rows && j in rows && KeyOf(rows[i]) == KeyOf(rows[j]) ==> i == j)
  }

  ghost function Lookup(rows: Rows, k: Key): Option<Row> {
    if exists id :: Has(rows, k, id) then
      var id :| Has(rows, k, id);
      Some(rows[id])
    else None
  }

  lemma LookupAt(rows: Rows, id: int)
    requires RowsOk(rows) && id in rows
    ensures Lookup(rows, KeyOf(rows[id])) == Some(rows[id])
  {
    assert Has(rows, KeyOf(rows[id]), id);
  }

  // ------------------------------------------------------------------
  // The table seen through one key
  // ------------------------------------------------------------------

  predicate Names(e: Event, k: Key) {
    (e.Enter? || e.Put? || e.Status?) && KeyOf(e.o) == k
  }

  function Closed(r: Row, user: int, at: int): Row {
    if r.user == user && r.removedAt.None? then Ended(r, "close_session", at) else r
  }

  // What one event does to the row of a key.
  function Effect(x: Option<Row>, e: Event, k: Key): Option<Row> {
    match e
    case Enter(o, newId, at, now) =>
      if KeyOf(o) == k then Some(o.(id := if x.Some? then x.value.id else newId, createdAt := now))
      else if x.Some? then Some(Closed(x.value, o.user, at))
      else None
    case Put(o, newId, now) =>
      if KeyOf(o) == k then Some(o.(id := if x.Some? then x.value.id else newId, createdAt := now)) else x
    case Status(o, newId, now) =>
      if KeyOf(o) != k then x
      else if x.Some? then
        Some(o.(id := x.value.id, createdAt := x.value.createdAt, properties := x.value.properties))
      else Some(o.(id := newId, createdAt := now))
    case Leave(user, at) => if x.Some? then Some(Closed(x.value, user, at)) else None
    case Clean(hits, _, at) => if x.Some? && k in hits then Some(Ended(x.value, "clean_session", at)) else x
  }

  function Track(evs: seq<Event>, k: Key): (x: Option<Row>)
    ensures x.Some? ==> KeyOf(x.value) == k
  {
    if evs == [] then None else Effect(Track(evs[..|evs| - 1], k), evs[|evs| - 1], k)
  }

  // A statement that changes rows in place without touching their keys.
  lemma LookupInPlace(rows: Rows, rows': Rows, k: Key)
    requires RowsOk(rows) && rows'.Keys == rows.Keys
    requires forall id :: id in rows ==>
               KeyOf(rows'[id]) == KeyOf(rows[id]) && rows'[id].id == id && rows'[id].updatedAt == rows[id].updatedAt
    ensures RowsOk(rows')
    ensures Lookup(rows, k) == None ==> Lookup(rows', k) == None
    ensures Lookup(rows, k).Some? ==>
              var id := Lookup(rows, k).value.id;
              id in rows && rows[id] == Lookup(rows, k).value && Lookup(rows', k) == Some(rows'[id])
  {
    if id :| Has(rows, k, id) {
      LookupAt(rows, id);
      LookupAt(rows', id);
    } else {
      forall id ensures !Has(rows', k, id) {
        assert !Has(rows, k, id);
      }
    }
  }

  lemma CloseLookup(rows: Rows, user: int, at: int, k: Key)
    requires RowsOk(rows)
    ensures RowsOk(CloseActive(rows, user, at))
    ensures Lookup(CloseActive(rows, user, at), k) ==
            if Lookup(rows, k).Some? then Some(Closed(Lookup(rows, k).value, user, at)) else None
  {
    LookupInPlace(rows, CloseActive(rows, user, at), k);
  }

  lemma CleanLookup(rows: Rows, hits: set<Key>, at: int, k: Key)
    requires RowsOk(rows)
    ensures RowsOk(EndByKeys(rows, hits, at))
    ensures Lookup(EndByKeys(rows, hits, at), k) ==
            if Lookup(rows, k).Some? && k in hits then Some(Ended(Lookup(rows, k).value, "clean_session", at))
            else Lookup(rows, k)
  {
    LookupInPlace(rows, EndByKeys(rows, hits, at), k);
  }

  // Writes one row; `id` is new or already holds the key.
  lemma WriteLookup(rows: Rows, id: int, r: Row, k: Key)
    requires RowsOk(rows) && r.id == id && Full(KeyOf(r)) && r.updatedAt.Some?
    requires if id in rows then KeyOf(rows[id]) == KeyOf(r) else forall i :: i in rows ==> KeyOf(rows[i]) != KeyOf(r)
    ensures RowsOk(rows[id := r])
    ensures Lookup(rows[id := r], k) == if k == KeyOf(r) then Some(r) else Lookup(rows, k)
  {
    var rows' := rows[id := r];
    if k == KeyOf(r) {
      LookupAt(rows', id);
    } else if i :| Has(rows, k, i) {
      LookupAt(rows, i);
      LookupAt(rows', i);
    } else {
      forall i ensures !Has(rows', k, i) {
        assert !Has(rows, k, i);
      }
    }
  }

  lemma WrittenRowFits(o: Row, x: Row, c: Columns, newId: int, now: int)
    requires Made(o) && (c == Infer || c == Blacklist({CreatedAt, Properties}))
    ensures var m := Merged(x, Excluded(o, newId, now), c);
            m.id == x.id && KeyOf(m) == KeyOf(o) && m.updatedAt == o.updatedAt
    ensures var m := Excluded(o, newId, now);
            m.id == newId && KeyOf(m) == KeyOf(o) && m.updatedAt == o.updatedAt
  {
    MadeUpsertColumns(o, x, newId, now);
  }

  lemma UpsertLookup(rows: Rows, o: Row, c: Columns, newId: int, now: int, k: Key)
    requires RowsOk(rows) && Made(o) && newId !in rows
    requires c == Infer || c == Blacklist({CreatedAt, Properties})
    ensures RowsOk(Upsert(rows, o, c, newId, now))
    ensures Lookup(Upsert(rows, o, c, newId, now), k) ==
            if k != KeyOf(o) then Lookup(rows, k)
            else if Lookup(rows, k) == None then Some(Excluded(o, newId, now))
            else Some(Merged(Lookup(rows, k).value, Excluded(o, newId, now), c))
  {
    var excluded := Excluded(o, newId, now);
    if id0 :| Has(rows, KeyOf(o), id0) {
      var id :| Has(rows, KeyOf(o), id)
                && Upsert(rows, o, c, newId, now) == rows[id := Merged(rows[id], excluded, c)];
      WrittenRowFits(o, rows[id], c, newId, now);
      LookupAt(rows, id);
      WriteLookup(rows, id, Merged(rows[id], excluded, c), k);
    } else {
      forall i | i in rows ensures KeyOf(rows[i]) != KeyOf(o) {
        assert !Has(rows, KeyOf(o), i);
      }
      WrittenRowFits(o, o, c, newId, now);
      WriteLookup(rows, newId, excluded, k);
    }
  }

  lemma StepLookup(rows: Rows, e: Event, k: Key)
    requires RowsOk(rows) && Enabled(rows, e)
    ensures RowsOk(Apply(rows, e))
    ensures Lookup(Apply(rows, e), k) == Effect(Lookup(rows, k), e, k)
  {
    match e {
      case Enter(o, newId, at, now) =>
        CloseLookup(rows, o.user, at, k);
        UpsertLookup(CloseActive(rows, o.user, at), o, Infer, newId, now, k);
        var x := if Lookup(rows, k).Some? then Closed(Lookup(rows, k).value, o.user, at) else o;
        MadeUpsertColumns(o, x, newId, now);
      case Put(o, newId, now) =>
        UpsertLookup(rows, o, Infer, newId, now, k);
        MadeUpsertColumns(o, if Lookup(rows, k).Some? then Lookup(rows, k).value else o, newId, now);
      case Status(o, newId, now) =>
        UpsertLookup(rows, o, Blacklist({CreatedAt, Properties}), newId, now, k);
        MadeUpsertColumns(o, if Lookup(rows, k).Some? then Lookup(rows, k).value else o, newId, now);
      case Leave(user, at) =>
        CloseLookup(rows, user, at, k);
      case Clean(hits, _, at) =>
        CleanLookup(rows, hits, at, k);
    }
  }

  // Row identity holds in every run, and the row of a key depends on the events alone.
  lemma {:induction false} RunLookup(evs: seq<Event>, k: Key)
    requires Legal(evs)
    ensures RowsOk(Run(evs))
    ensures Lookup(Run(evs), k) == Track(evs, k)
  {
    if evs != [] {
      RunLookup(evs[..|evs| - 1], k);
      StepLookup(Run(evs[..|evs| - 1]), evs[|evs| - 1], k);
    }
  }
}
