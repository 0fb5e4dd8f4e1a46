/**
  What every run of the sessions table means, told by the events alone: which
  sessions are active, which carry a close mark, what a row still says, and
  what the cleaner may remove.
*/
module SessionLedger {
  import opened SessionRows
  import opened SessionRuns
  import opened Wrappers

  predicate Active(x: Option<Row>) {
    x.Some? && x.value.removedAt.None?
  }

  // The session ends: its user leaves or enters elsewhere, or the cleaner hits it.
  predicate Ends(e: Event, k: Key) {
    match e
    case Enter(o, _, _, _) => o.user == k.user && KeyOf(o) != k
    case Put(_, _, _) => false
    case Status(_, _, _) => false
    case Leave(user, _) => user == k.user
    case Clean(hits, _, _) => k in hits
  }

  // The last event to concern the session was a message naming it.
  ghost predicate NamedLast(evs: seq<Event>, k: Key) {
    exists i :: 0 <= i < |evs| && Names(evs[i], k) && forall j :: i < j < |evs| ==> !Ends(evs[j], k)
  }

  ghost predicate EverNamed(evs: seq<Event>, k: Key) {
    exists i :: 0 <= i < |evs| && Names(evs[i], k)
  }

  lemma NamedLastStep(evs: seq<Event>, e: Event, k: Key)
    ensures NamedLast(evs + [e], k) <==> Names(e, k) || (NamedLast(evs, k) && !Ends(e, k))
  {
    var all := evs + [e];
    if Names(e, k) {
      assert Names(all[|evs|], k);
    } else if NamedLast(evs, k) && !Ends(e, k) {
      var i :| 0 <= i < |evs| && Names(evs[i], k) && forall j :: i < j < |evs| ==> !Ends(evs[j], k);
      assert Names(all[i], k);
    }
    if NamedLast(all, k) && !Names(e, k) {
      var i :| 0 <= i < |all| && Names(all[i], k) && forall j :: i < j < |all| ==> !Ends(all[j], k);
      assert Names(evs[i], k);
      assert !Ends(all[|evs|], k);
      forall j | i < j < |evs| ensures !Ends(evs[j], k) {
        assert !Ends(all[j], k);
      }
    }
  }

  lemma {:induction false} ActiveIffNamedLast(evs: seq<Event>, k: Key)
    requires Legal(evs)
    ensures Active(Track(evs, k)) <==> NamedLast(evs, k)
  {
    if evs != [] {
      var front, e := evs[..|evs| - 1], evs[|evs| - 1];
      ActiveIffNamedLast(front, k);
      NamedLastStep(front, e, k);
      assert evs == front + [e];
    }
  }

  lemma EverNamedStep(evs: seq<Event>, e: Event, k: Key)
    ensures EverNamed(evs + [e], k) <==> EverNamed(evs, k) || Names(e, k)
  {
    var all := evs + [e];
    if EverNamed(evs, k) {
      var i :| 0 <= i < |evs| && Names(evs[i], k);
      assert Names(all[i], k);
    }
    if Names(e, k) {
      assert Names(all[|evs|], k);
    }
  }

  lemma {:induction false} KnownIffNamed(evs: seq<Event>, k: Key)
    ensures Track(evs, k).Some? <==> EverNamed(evs, k)
  {
    if evs != [] {
      var front, e := evs[..|evs| - 1], evs[|evs| - 1];
      KnownIffNamed(front, k);
      EverNamedStep(front, e, k);
      assert evs == front + [e];
    }
  }

  // The table after any run: one row for each key ever named, active exactly
  // when the last event to concern it was a message naming it.
  lemma RunRefinesLedger(evs: seq<Event>)
    requires Legal(evs)
    ensures forall k :: EverNamed(evs, k) <==> exists id :: Has(Run(evs), k, id)
    ensures forall id :: id in Run(evs) ==>
              (Run(evs)[id].removedAt.None? <==> NamedLast(evs, KeyOf(Run(evs)[id])))
    ensures forall i, j :: i in Run(evs) && j in Run(evs) && KeyOf(Run(evs)[i]) == KeyOf(Run(evs)[j]) ==> i == j
  {
    RunLookup(evs, Key(0, None, None));
    forall k ensures EverNamed(evs, k) <==> exists id :: Has(Run(evs), k, id) {
      RunLookup(evs, k);
      KnownIffNamed(evs, k);
    }
    forall id | id in Run(evs)
      ensures Run(evs)[id].removedAt.None? <==> NamedLast(evs, KeyOf(Run(evs)[id]))
    {
      var k := KeyOf(Run(evs)[id]);
      RunLookup(evs, k);
      LookupAt(Run(evs), id);
      ActiveIffNamedLast(evs, k);
    }
  }

  // ------------------------------------------------------------------
  // Close marks: the dead and the revived
  // ------------------------------------------------------------------

  predicate HasMark(x: Option<Row>, mark: string) {
    x.Some? && x.value.properties.Some? && mark in x.value.properties.value
  }

  // The event closes whatever sessions of the user are active.
  predicate Closes(e: Event, user: int) {
    (e.Leave? && e.user == user) || (e.Enter? && e.o.user == user)
  }

  predicate EntersAt(e: Event, k: Key) {
    (e.Enter? || e.Put?) && KeyOf(e.o) == k
  }

  // Closed while active, and not entered since.
  ghost predicate ClosedSinceEnter(evs: seq<Event>, k: Key) {
    exists i :: 0 <= i < |evs| && Closes(evs[i], k.user) && NamedLast(evs[..i], k)
                && forall j :: i <= j < |evs| ==> !EntersAt(evs[j], k)
  }

  lemma ClosedSinceEnterStep(evs: seq<Event>, e: Event, k: Key)
    ensures ClosedSinceEnter(evs + [e], k) <==>
            !EntersAt(e, k) && (ClosedSinceEnter(evs, k) || (Closes(e, k.user) && NamedLast(evs, k)))
  {
    var all := evs + [e];
    assert all[..|evs|] == evs && all[|evs|] == e;
    if !EntersAt(e, k) {
      if ClosedSinceEnter(evs, k) {
        var i :| 0 <= i < |evs| && Closes(evs[i], k.user) && NamedLast(evs[..i], k)
                 && forall j :: i <= j < |evs| ==> !EntersAt(evs[j], k);
        assert all[..i] == evs[..i] && Closes(all[i], k.user);
      } else if Closes(e, k.user) && NamedLast(evs, k) {
        assert Closes(all[|evs|], k.user) && NamedLast(all[..|evs|], k);
      }
    }
    if ClosedSinceEnter(all, k) {
      var i :| 0 <= i < |all| && Closes(all[i], k.user) && NamedLast(all[..i], k)
               && forall j :: i <= j < |all| ==> !EntersAt(all[j], k);
      assert !EntersAt(all[|evs|], k);
      if i < |evs| {
        assert all[..i] == evs[..i] && Closes(evs[i], k.user);
        forall j | i <= j < |evs| ensures !EntersAt(evs[j], k) {
          assert !EntersAt(all[j], k);
        }
      }
    }
  }

  // A row carries the close mark exactly when its session was closed, while active, after its
  // last enter (or creation).  An active row with the mark is thus one revived by a status update.
  lemma {:induction false} MarkedIffClosedSinceEnter(evs: seq<Event>, k: Key)
    requires Legal(evs)
    ensures HasMark(Track(evs, k), "close_session") <==> ClosedSinceEnter(evs, k)
  {
    if evs != [] {
      var front, e := evs[..|evs| - 1], evs[|evs| - 1];
      MarkedIffClosedSinceEnter(front, k);
      ClosedSinceEnterStep(front, e, k);
      ActiveIffNamedLast(front, k);
      assert evs == front + [e];
    }
  }

  lemma RowIsTold(evs: seq<Event>, id: int)
    requires Legal(evs) && id in Run(evs)
    ensures Run(evs)[id].removedAt.None? <==> NamedLast(evs, KeyOf(Run(evs)[id]))
    ensures HasMark(Some(Run(evs)[id]), "close_session") <==> ClosedSinceEnter(evs, KeyOf(Run(evs)[id]))
  {
    var k := KeyOf(Run(evs)[id]);
    RunLookup(evs, k);
    LookupAt(Run(evs), id);
    ActiveIffNamedLast(evs, k);
    MarkedIffClosedSinceEnter(evs, k);
  }

  // ------------------------------------------------------------------
  // What a row says
  // ------------------------------------------------------------------

  // Same session data; id, creation time, properties and removal aside.
  predicate SaysSame(r: Row, o: Row) {
    r == o.(id := r.id, createdAt := r.createdAt, properties := r.properties, removedAt := r.removedAt)
  }

  lemma QuietKeepsData(x: Option<Row>, e: Event, k: Key, o: Row)
    requires x.Some? && SaysSame(x.value, o) && !Names(e, k)
    ensures Effect(x, e, k).Some? && SaysSame(Effect(x, e, k).value, o)
  {
  }

  // A row tells the last message naming its key, and no later event changed it.
  lemma {:induction false} RowTellsLastMessage(evs: seq<Event>, k: Key)
    requires Track(evs, k).Some?
    ensures exists i :: 0 <= i < |evs| && Names(evs[i], k) && SaysSame(Track(evs, k).value, evs[i].o)
                        && forall j :: i < j < |evs| ==> !Names(evs[j], k)
  {
    var front, e := evs[..|evs| - 1], evs[|evs| - 1];
    if Names(e, k) {
      assert Names(evs[|evs| - 1], k);
    } else {
      RowTellsLastMessage(front, k);
      var i :| 0 <= i < |front| && Names(front[i], k) && SaysSame(Track(front, k).value, front[i].o)
               && forall j :: i < j < |front| ==> !Names(front[j], k);
      QuietKeepsData(Track(front, k), e, k, front[i].o);
      assert Names(evs[i], k);
      forall j | i < j < |evs| ensures !Names(evs[j], k) {
        assert j < |front| ==> !Names(front[j], k);
      }
    }
  }

  // Once a key has a row, its id never changes; its creation time changes only when it is entered.
  lemma {:induction false} IdentityIsStable(evs: seq<Event>, ms: seq<Event>, k: Key)
    requires Track(evs, k).Some?
    ensures Track(evs + ms, k).Some? && Track(evs + ms, k).value.id == Track(evs, k).value.id
    ensures (forall m :: m in ms ==> !EntersAt(m, k)) ==>
              Track(evs + ms, k).value.createdAt == Track(evs, k).value.createdAt
  {
    if ms == [] {
      assert evs + ms == evs;
    } else {
      var front := ms[..|ms| - 1];
      assert (evs + ms)[..|evs + ms| - 1] == evs + front;
      IdentityIsStable(evs, front, k);
      assert ms[|ms| - 1] in ms;
    }
  }

  // ------------------------------------------------------------------
  // Enter
  // ------------------------------------------------------------------

  // The rows are of one session: same user, gateway and gateway session.
  ghost predicate SameSession(r: Row, o: Row) {
    r.user == o.user && r.gateway == o.gateway && r.session == o.session
  }

  // The user's one active session is the entered one, holding the message's data under a fresh
  // creation time and without properties; the user's other active sessions are closed, and
  // the other rows are as they were.
  ghost predicate EnteredAlone(rows: Rows, rows': Rows, o: Row, at: int, now: int) {
    && (exists id :: id in rows' && rows'[id] == o.(id := id, createdAt := now))
    && (forall id :: id in rows' && rows'[id].user == o.user ==>
          (rows'[id].removedAt.None? <==> SameSession(rows'[id], o)))
    && (forall id :: id in rows' && !SameSession(rows'[id], o) ==> id in rows)
    && (forall id :: id in rows ==>
          id in rows' && (SameSession(rows[id], o) || ClosedOrSame(rows[id], rows'[id], o.user, at)))
  }

  // An active session of the user is closed at the given time, any other row stays.
  ghost predicate ClosedOrSame(before: Row, after: Row, user: int, at: int) {
    if before.user == user && before.removedAt.None? then Marked(before, after, "close_session", at)
    else after == before
  }

  // Exactly the user's active sessions are closed.
  ghost predicate LeftBy(rows: Rows, rows': Rows, user: int, at: int) {
    rows'.Keys == rows.Keys && forall id :: id in rows ==> ClosedOrSame(rows[id], rows'[id], user, at)
  }

  // The session holds the message's data and is active; an existing row keeps its id, its
  // creation time and its properties; the other rows are as they were.
  ghost predicate Refreshed(rows: Rows, rows': Rows, o: Row, now: int) {
    exists id :: RefreshedAt(rows, rows', o, now, id)
  }

  ghost predicate RefreshedAt(rows: Rows, rows': Rows, o: Row, now: int, id: int) {
    && id in rows'
    && (if id in rows then SameSession(rows[id], o) else forall i :: i in rows ==> !SameSession(rows[i], o))
    && rows' == rows[id := if id in rows
                           then o.(id := id, createdAt := rows[id].createdAt, properties := rows[id].properties)
                           else o.(id := id, createdAt := now)]
  }

  lemma LeaveIsExact(rows: Rows, user: int, at: int)
    ensures LeftBy(rows, CloseActive(rows, user, at), user, at)
  {
    forall id | id in rows ensures ClosedOrSame(rows[id], CloseActive(rows, user, at)[id], user, at) {
      EndedIsMarked(rows[id], "close_session", at);
    }
  }

  // An upsert writes the row of the session, or a new one, and no other.
  lemma UpsertWrites(rows: Rows, o: Row, c: Columns, newId: int, now: int) returns (id: int)
    requires RowsOk(rows) && Made(o) && newId !in rows && (c == Infer || c == Blacklist({CreatedAt, Properties}))
    ensures if id in rows then SameSession(rows[id], o)
            else id == newId && forall i :: i in rows ==> !SameSession(rows[i], o)
    ensures Upsert(rows, o, c, newId, now) ==
            rows[id := if id in rows then Merged(rows[id], Excluded(o, newId, now), c) else Excluded(o, newId, now)]
  {
    if i :| Has(rows, KeyOf(o), i) {
      id :| Has(rows, KeyOf(o), id)
            && Upsert(rows, o, c, newId, now) == rows[id := Merged(rows[id], Excluded(o, newId, now), c)];
    } else {
      id := newId;
      forall i | i in rows ensures !SameSession(rows[i], o) {
        assert !Has(rows, KeyOf(o), i);
      }
    }
  }

  lemma StatusIsExact(rows: Rows, o: Row, newId: int, now: int)
    requires RowsOk(rows) && Enabled(rows, Status(o, newId, now))
    ensures Refreshed(rows, Apply(rows, Status(o, newId, now)), o, now)
  {
    var id := UpsertWrites(rows, o, Blacklist({CreatedAt, Properties}), newId, now);
    MadeUpsertColumns(o, if id in rows then rows[id] else o, newId, now);
    assert id in rows ==> rows[id].id == id;
    assert RefreshedAt(rows, Apply(rows, Status(o, newId, now)), o, now, id);
  }

  lemma SessionsAreDistinct(rows: Rows, i: int, j: int)
    requires RowsOk(rows) && i in rows && j in rows && SameSession(rows[i], rows[j])
    ensures i == j
  {
    assert KeyOf(rows[i]) == KeyOf(rows[j]);
  }

  // The row of the session is written at `id`; the closed ones stay inactive.
  lemma EnteredRow(rows: Rows, closed: Rows, o: Row, at: int, id: int, i: int)
    requires RowsOk(closed) && LeftBy(rows, closed, o.user, at)
    requires if id in closed then SameSession(closed[id], o) else forall j :: j in closed ==> !SameSession(closed[j], o)
    requires i in closed && i != id
    ensures !SameSession(closed[i], o) && !SameSession(rows[i], o) && ClosedOrSame(rows[i], closed[i], o.user, at)
    ensures closed[i].user == o.user ==> closed[i].removedAt.Some?
  {
    assert ClosedOrSame(rows[i], closed[i], o.user, at);
    if SameSession(closed[i], o) && id in closed {
      SessionsAreDistinct(closed, i, id);
    }
  }

  lemma EnterIsExact(rows: Rows, o: Row, newId: int, at: int, now: int)
    requires RowsOk(rows) && Enabled(rows, Enter(o, newId, at, now))
    ensures EnteredAlone(rows, Apply(rows, Enter(o, newId, at, now)), o, at, now)
  {
    var closed := CloseActive(rows, o.user, at);
    LeaveIsExact(rows, o.user, at);
    CloseLookup(rows, o.user, at, KeyOf(o));
    var id := UpsertWrites(closed, o, Infer, newId, now);
    MadeUpsertColumns(o, if id in closed then closed[id] else o, newId, now);
    assert id in closed ==> closed[id].id == id;
    WrittenIsAlone(rows, closed, o, at, now, id);
  }

  lemma WrittenIsAlone(rows: Rows, closed: Rows, o: Row, at: int, now: int, id: int)
    requires Made(o) && RowsOk(closed) && LeftBy(rows, closed, o.user, at)
    requires if id in closed then SameSession(closed[id], o) else forall j :: j in closed ==> !SameSession(closed[j], o)
    ensures EnteredAlone(rows, closed[id := o.(id := id, createdAt := now)], o, at, now)
  {
    var rows' := closed[id := o.(id := id, createdAt := now)];
    assert id in rows' && rows'[id] == o.(id := id, createdAt := now);
    forall i | i in rows' && rows'[i].user == o.user
      ensures rows'[i].removedAt.None? <==> SameSession(rows'[i], o)
    {
      if i != id {
        EnteredRow(rows, closed, o, at, id, i);
      }
    }
    forall i | i in rows && !SameSession(rows[i], o) ensures ClosedOrSame(rows[i], rows'[i], o.user, at) {
      assert ClosedOrSame(rows[i], closed[i], o.user, at);
    }
  }

  // What a committed event of a handler has done, row by row.
  ghost predicate Meant(rows: Rows, rows': Rows, e: Event) {
    match e
    case Enter(o, _, at, now) => EnteredAlone(rows, rows', o, at, now)
    case Status(o, _, now) => Refreshed(rows, rows', o, now)
    case Leave(user, at) => LeftBy(rows, rows', user, at)
    case _ => true
  }

  lemma EventIsMeant(rows: Rows, e: Event)
    requires RowsOk(rows) && Enabled(rows, e)
    ensures Meant(rows, Apply(rows, e), e)
  {
    match e
    case Enter(o, newId, at, now) => EnterIsExact(rows, o, newId, at, now);
    case Status(o, newId, now) => StatusIsExact(rows, o, newId, now);
    case Leave(user, at) => LeaveIsExact(rows, user, at);
    case _ =>
  }

  // ------------------------------------------------------------------
  // Overlapping enters
  // ------------------------------------------------------------------

  lemma SplitEnterIsEnter(evs: seq<Event>, o: Row, newId: int, at: int, now: int)
    ensures Run(evs + [Leave(o.user, at)] + [Put(o, newId, now)]) == Run(evs + [Enter(o, newId, at, now)])
  {
    var closed := evs + [Leave(o.user, at)];
    assert (closed + [Put(o, newId, now)])[..|closed|] == closed && closed[..|evs|] == evs;
    assert (evs + [Enter(o, newId, at, now)])[..|evs|] == evs;
  }

  lemma {:induction false} NamedLastAfterEnd(evs: seq<Event>, e: Event, ms: seq<Event>, k: Key)
    requires Ends(e, k) && !Names(e, k)
    ensures NamedLast(evs + [e] + ms, k) <==> NamedLast(ms, k)
  {
    if ms == [] {
      assert evs + [e] + ms == evs + [e];
      NamedLastStep(evs, e, k);
    } else {
      var front, m := ms[..|ms| - 1], ms[|ms| - 1];
      assert evs + [e] + ms == (evs + [e] + front) + [m] && ms == front + [m];
      NamedLastAfterEnd(evs, e, front, k);
      NamedLastStep(evs + [e] + front, m, k);
      NamedLastStep(front, m, k);
    }
  }

  // An enter whose upsert comes after other transactions, `ms`, have committed since its close.
  function Overlapped(evs: seq<Event>, ms: seq<Event>, o: Row, newId: int, at: int, now: int): seq<Event> {
    evs + [Leave(o.user, at)] + ms + [Put(o, newId, now)]
  }

  // The entered session is active, and another one of its user is, too, exactly when the last
  // event of `ms` to concern that one is a message naming it.
  lemma OverlappedIsActiveIff(evs: seq<Event>, ms: seq<Event>, o: Row, newId: int, at: int, now: int, k: Key)
    requires Legal(Overlapped(evs, ms, o, newId, at, now)) && k.user == o.user
    ensures Active(Track(Overlapped(evs, ms, o, newId, at, now), k)) <==> k == KeyOf(o) || NamedLast(ms, k)
  {
    ActiveIffNamedLast(Overlapped(evs, ms, o, newId, at, now), k);
    NamedLastStep(evs + [Leave(o.user, at)] + ms, Put(o, newId, now), k);
    NamedLastAfterEnd(evs, Leave(o.user, at), ms, k);
  }

  ghost predicate OnlyActive(rows: Rows, k: Key) {
    forall id :: id in rows && rows[id].user == k.user && rows[id].removedAt.None? ==> KeyOf(rows[id]) == k
  }

  // So the user is in the entered session alone exactly when in between no message has put the
  // user into another one to stay.
  lemma OverlappedIsAloneIff(evs: seq<Event>, ms: seq<Event>, o: Row, newId: int, at: int, now: int)
    requires Legal(Overlapped(evs, ms, o, newId, at, now))
    ensures OnlyActive(Run(Overlapped(evs, ms, o, newId, at, now)), KeyOf(o)) <==>
            forall k: Key :: k.user == o.user && NamedLast(ms, k) ==> k == KeyOf(o)
  {
    var all := Overlapped(evs, ms, o, newId, at, now);
    forall id | id in Run(all) && Run(all)[id].user == o.user
      ensures Run(all)[id].removedAt.None? <==>
              KeyOf(Run(all)[id]) == KeyOf(o) || NamedLast(ms, KeyOf(Run(all)[id]))
    {
      RowIsTracked(all, id);
      OverlappedIsActiveIff(evs, ms, o, newId, at, now, KeyOf(Run(all)[id]));
    }
    if OnlyActive(Run(all), KeyOf(o)) {
      forall k: Key | k.user == o.user && NamedLast(ms, k) ensures k == KeyOf(o) {
        OverlappedIsActiveIff(evs, ms, o, newId, at, now, k);
        TrackedIsRow(all, k);
      }
    }
  }

  // Both enters of the user have closed before the row of either is there.
  ghost predicate LeavesTwo(first: Row, second: Row) {
    var all := Overlapped([Leave(first.user, 0)], [Put(first, 1, 0)], second, 2, 0, 0);
    && first.user == second.user && Legal(all)
    && Active(Track(all, KeyOf(first))) && Active(Track(all, KeyOf(second))) && KeyOf(first) != KeyOf(second)
  }

  // Two overlapping enters of one user may leave two sessions active.
  lemma OverlapMayLeaveTwo()
    ensures exists first, second :: LeavesTwo(first, second)
  {
    var o1 := Row(0, 1, Some(1), Some(1), Some(1), None, false, false, false, false, None, 0, Some(0), None);
    var o2 := o1.(session := Some(2));
    var closed, m := [Leave(1, 0)] + [Leave(1, 0)], Put(o1, 1, 0);
    assert [] + [Leave(1, 0)] == [Leave(1, 0)];
    RunSnoc([], Leave(1, 0));
    RunSnoc([Leave(1, 0)], Leave(1, 0));
    RunSnoc(closed, m);
    assert Run(closed + [m]).Keys == {1};
    RunSnoc(closed + [m], Put(o2, 2, 0));
    assert Names([m][0], KeyOf(o1));
    OverlappedIsActiveIff([Leave(1, 0)], [m], o2, 2, 0, 0, KeyOf(o1));
    OverlappedIsActiveIff([Leave(1, 0)], [m], o2, 2, 0, 0, KeyOf(o2));
    assert LeavesTwo(o1, o2);
  }

  // ------------------------------------------------------------------
  // The cleaner
  // ------------------------------------------------------------------

  // What the cleaner's fetch selects.
  ghost predicate Stale(x: Option<Row>, cutoff: int) {
    x.Some? && x.value.removedAt.None? && x.value.updatedAt.Some? && x.value.updatedAt.value < cutoff
  }

  ghost function StaleIDs(rows: Rows, cutoff: int): set<int> {
    set id | id in rows && Stale(Some(rows[id]), cutoff)
  }

  // In the ledger's terms: the last event to concern the session is a message naming it, and
  // the last message naming it is older than the cutoff.
  lemma StaleIffNamedLast(evs: seq<Event>, k: Key, cutoff: int)
    requires Legal(evs)
    ensures Stale(Track(evs, k), cutoff) <==> LastNamedBefore(evs, k, cutoff)
  {
    ActiveIffNamedLast(evs, k);
    RunLookup(evs, k);
    if Track(evs, k).Some? {
      RowTellsLastMessage(evs, k);
      var i :| 0 <= i < |evs| && Names(evs[i], k) && SaysSame(Track(evs, k).value, evs[i].o)
               && forall j :: i < j < |evs| ==> !Names(evs[j], k);
      assert LastNames(evs, k, i);
      forall j | LastNames(evs, k, j) ensures i == j {
      }
    }
  }

  // The i-th event is the last message naming the session.
  ghost predicate LastNames(evs: seq<Event>, k: Key, i: int) {
    && 0 <= i < |evs| && Names(evs[i], k) && evs[i].o.updatedAt.Some?
    && forall j :: i < j < |evs| ==> !Names(evs[j], k)
  }

  // Still in use: active, and updated since the cutoff.
  predicate InUse(x: Option<Row>, cutoff: int) {
    Active(x) && x.value.updatedAt.Some? && cutoff <= x.value.updatedAt.value
  }

  predicate MessageFrom(e: Event, since: int) {
    e.Enter? || e.Put? || e.Status? ==> e.o.updatedAt.Some? && since <= e.o.updatedAt.value
  }

  ghost predicate AllFrom(ms: seq<Event>, since: int) {
    forall m :: m in ms ==> MessageFrom(m, since)
  }

  lemma MoreFrom(ms: seq<Event>, more: seq<Event>, since: int, later: int)
    requires AllFrom(ms, since) && AllFrom(more, later) && since <= later
    ensures AllFrom(ms + more, since)
  {
    forall m | m in more ensures MessageFrom(m, since) {
      assert MessageFrom(m, later);
    }
  }

  lemma {:induction false} PrefixIsLegal(evs: seq<Event>, ms: seq<Event>)
    requires Legal(evs + ms)
    ensures Legal(evs)
  {
    if ms == [] {
      assert evs + ms == evs;
    } else {
      assert (evs + ms)[..|evs + ms| - 1] == evs + ms[..|ms| - 1];
      PrefixIsLegal(evs, ms[..|ms| - 1]);
    }
  }

  lemma RowIsTracked(evs: seq<Event>, id: int)
    requires Legal(evs) && id in Run(evs)
    ensures Run(evs)[id].id == id && Track(evs, KeyOf(Run(evs)[id])) == Some(Run(evs)[id])
  {
    RunLookup(evs, KeyOf(Run(evs)[id]));
    LookupAt(Run(evs), id);
  }

  lemma TrackedIsRow(evs: seq<Event>, k: Key)
    requires Legal(evs) && Track(evs, k).Some?
    ensures var id := Track(evs, k).value.id; id in Run(evs) && Run(evs)[id] == Track(evs, k).value
  {
    RunLookup(evs, k);
  }

  // No row ever goes away, and none changes its key.
  lemma RowIsStable(evs: seq<Event>, ms: seq<Event>, id: int)
    requires Legal(evs) && Legal(evs + ms) && id in Run(evs)
    ensures id in Run(evs + ms) && KeyOf(Run(evs + ms)[id]) == KeyOf(Run(evs)[id])
    ensures Track(evs + ms, KeyOf(Run(evs)[id])) == Some(Run(evs + ms)[id])
  {
    var k := KeyOf(Run(evs)[id]);
    RowIsTracked(evs, id);
    IdentityIsStable(evs, ms, k);
    TrackedIsRow(evs + ms, k);
  }

  lemma InUseStep(x: Option<Row>, m: Event, k: Key, cutoff: int)
    requires x.Some? && KeyOf(x.value) == k && MessageFrom(m, cutoff)
    requires Names(m, k) ==> Made(m.o)
    ensures Effect(x, m, k).Some?
    ensures InUse(Effect(x, m, k), cutoff) <==> Names(m, k) || (InUse(x, cutoff) && !Ends(m, k))
  {
  }

  lemma {:induction false} InUseIffNamedLast(evs: seq<Event>, ms: seq<Event>, k: Key, cutoff: int)
    requires Legal(evs + ms) && Stale(Track(evs, k), cutoff) && AllFrom(ms, cutoff)
    ensures Track(evs + ms, k).Some?
    ensures InUse(Track(evs + ms, k), cutoff) <==> NamedLast(ms, k)
  {
    if ms == [] {
      assert evs + ms == evs;
    } else {
      var front, m := ms[..|ms| - 1], ms[|ms| - 1];
      assert (evs + ms)[..|evs + ms| - 1] == evs + front && ms == front + [m] && m in ms;
      InUseIffNamedLast(evs, front, k, cutoff);
      InUseStep(Track(evs + front, k), m, k, cutoff);
      NamedLastStep(front, m, k);
    }
  }

  // The update by the ids fetched at `evs`, with `ms` committed in between, ends every fetched row
  // and no other.  Each was active and stale at the fetch and has kept its key; but the
  // session is in use again, and ended nevertheless, exactly when the last event of `ms` to
  // concern it is a message naming it.
  lemma CleanerEndsInUseIff(evs: seq<Event>, ms: seq<Event>, cutoff: int, at: int, id: int)
    requires Legal(evs + ms) && id in Run(evs + ms) && AllFrom(ms, cutoff)
    ensures var after := EndByIDs(Run(evs + ms), StaleIDs(Run(evs), cutoff), at);
            if id in Run(evs) && Run(evs)[id].removedAt.None?
               && Run(evs)[id].updatedAt.Some? && Run(evs)[id].updatedAt.value < cutoff then
              var k := KeyOf(Run(evs)[id]);
              && KeyOf(Run(evs + ms)[id]) == k
              && Marked(Run(evs + ms)[id], after[id], "clean_session", at)
              && (InUse(Some(Run(evs + ms)[id]), cutoff) <==> NamedLast(ms, k))
            else after[id] == Run(evs + ms)[id]
  {
    PrefixIsLegal(evs, ms);
    if id in StaleIDs(Run(evs), cutoff) {
      EndedIsMarked(Run(evs + ms)[id], "clean_session", at);
      RowIsTracked(evs, id);
      RowIsStable(evs, ms, id);
      InUseIffNamedLast(evs, ms, KeyOf(Run(evs)[id]), cutoff);
    }
  }

  ghost predicate EndsInUse(evs: seq<Event>, ms: seq<Event>, cutoff: int, at: int, id: int) {
    && Legal(evs + ms) && id in Run(evs + ms) && AllFrom(ms, cutoff)
    && InUse(Some(Run(evs + ms)[id]), cutoff)
    && !Active(Some(EndByIDs(Run(evs + ms), StaleIDs(Run(evs), cutoff), at)[id]))
  }

  // A client silent since instant 0 sends a status at 10, after the cleaner has fetched the sessions
  // older than 5: its session is ended all the same.
  lemma CleanerMayEndInUse()
    ensures exists evs, ms, id :: EndsInUse(evs, ms, 5, 11, id)
  {
    var o := Row(0, 1, Some(1), Some(1), Some(1), None, false, false, false, false, None, 0, Some(0), None);
    var k, e, m := KeyOf(o), Status(o, 1, 0), Status(o.(updatedAt := Some(10)), 2, 10);
    var evs, ms := [e], [m];
    RunSnoc([], e);
    assert [] + [e] == evs;
    assert Track(evs, k) == Some(o.(id := 1));
    assert Run(evs).Keys == {1};
    RunSnoc(evs, m);
    TrackedIsRow(evs, k);
    CleanerEndsInUseIff(evs, ms, 5, 11, 1);
    RowIsStable(evs, ms, 1);
    assert Names(ms[0], k);
    assert EndsInUse(evs, ms, 5, 11, 1);
  }

  // The keys an update by fetched ids hits are those of the sessions stale at the fetch.
  lemma HitsWereStale(evs: seq<Event>, ms: seq<Event>, cutoff: int, k: Key)
    requires Legal(evs + ms)
    ensures k in KeysOf(Run(evs + ms), StaleIDs(Run(evs), cutoff)) <==> Stale(Track(evs, k), cutoff)
  {
    PrefixIsLegal(evs, ms);
    if Stale(Track(evs, k), cutoff) {
      TrackedIsRow(evs, k);
      RowIsStable(evs, ms, Track(evs, k).value.id);
    }
    if id :| id in Run(evs + ms) && id in StaleIDs(Run(evs), cutoff) && KeyOf(Run(evs + ms)[id]) == k {
      RowIsStable(evs, ms, id);
      RowIsTracked(evs, id);
    }
  }

  // Whatever is stale after `ms` was stale before: messages do not date back.
  lemma {:induction false} StaleWasStale(evs: seq<Event>, ms: seq<Event>, k: Key, cutoff: int)
    requires Stale(Track(evs + ms, k), cutoff) && AllFrom(ms, cutoff)
    ensures Stale(Track(evs, k), cutoff)
  {
    if ms == [] {
      assert evs + ms == evs;
    } else {
      var front, m := ms[..|ms| - 1], ms[|ms| - 1];
      assert (evs + ms)[..|evs + ms| - 1] == evs + front && m in ms;
      StaleWasStale(evs, front, k, cutoff);
    }
  }

  // The keys of the sessions stale at the fetch.
  ghost predicate Hits(fetched: seq<Event>, cutoff: int, hits: set<Key>) {
    forall k :: k in hits <==> Stale(Track(fetched, k), cutoff)
  }

  // The last event to concern the session is a message naming it, and that message is old.
  ghost predicate LastNamedBefore(evs: seq<Event>, k: Key, cutoff: int) {
    NamedLast(evs, k) && exists i :: LastNames(evs, k, i) && evs[i].o.updatedAt.value < cutoff
  }

  lemma HitsAreNamedLast(fetched: seq<Event>, cutoff: int, hits: set<Key>)
    requires Legal(fetched) && Hits(fetched, cutoff, hits)
    ensures forall k :: k in hits <==> LastNamedBefore(fetched, k, cutoff)
  {
    forall k ensures k in hits <==> LastNamedBefore(fetched, k, cutoff) {
      StaleIffNamedLast(fetched, k, cutoff);
    }
  }

  ghost predicate Covers(evs: seq<Event>, cutoff: int, hits: set<Key>) {
    forall k :: Stale(Track(evs, k), cutoff) ==> k in hits
  }

  lemma FetchIsThorough(evs: seq<Event>, ms: seq<Event>, cutoff: int)
    requires Legal(evs + ms) && AllFrom(ms, cutoff)
    ensures Hits(evs, cutoff, KeysOf(Run(evs + ms), StaleIDs(Run(evs), cutoff)))
    ensures Covers(evs + ms, cutoff, KeysOf(Run(evs + ms), StaleIDs(Run(evs), cutoff)))
  {
    forall k ensures k in KeysOf(Run(evs + ms), StaleIDs(Run(evs), cutoff)) <==> Stale(Track(evs, k), cutoff) {
      HitsWereStale(evs, ms, cutoff, k);
    }
    forall k | Stale(Track(evs + ms, k), cutoff) ensures Stale(Track(evs, k), cutoff) {
      StaleWasStale(evs, ms, k, cutoff);
    }
  }

  lemma HitIsFetched(evs: seq<Event>, ms: seq<Event>, hits: set<Key>, cutoff: int, id: int)
    requires Legal(evs) && Legal(evs + ms) && Hits(evs, cutoff, hits) && id in Run(evs + ms)
    ensures KeyOf(Run(evs + ms)[id]) in hits <==> id in StaleIDs(Run(evs), cutoff)
  {
    var k := KeyOf(Run(evs + ms)[id]);
    RowIsTracked(evs + ms, id);
    if id in StaleIDs(Run(evs), cutoff) {
      RowIsTracked(evs, id);
      RowIsStable(evs, ms, id);
    }
    if k in hits {
      var id0 := Track(evs, k).value.id;
      TrackedIsRow(evs, k);
      RowIsStable(evs, ms, id0);
      RowIsTracked(evs + ms, id0);
    }
  }

  // A cleaning event is the update by the ids of its fetch: it ends exactly the rows stale then.
  lemma CleaningIsByIDs(evs: seq<Event>, ms: seq<Event>, e: Event, cutoff: int)
    requires Legal(evs + ms) && e.Clean? && Hits(evs, cutoff, e.hits)
    ensures Apply(Run(evs + ms), e) == EndByIDs(Run(evs + ms), StaleIDs(Run(evs), cutoff), e.at)
  {
    var rows := Run(evs + ms);
    PrefixIsLegal(evs, ms);
    forall id | id in rows ensures KeyOf(rows[id]) in e.hits <==> id in StaleIDs(Run(evs), cutoff) {
      HitIsFetched(evs, ms, e.hits, cutoff, id);
    }
  }

  // Run atomically, cleaning ends exactly the stale sessions.
  lemma AtomicCleanIsExact(rows: Rows, hits: set<Key>, seen: int, at: int, dead: int, k: Key)
    requires RowsOk(rows) && forall q :: q in hits <==> Stale(Lookup(rows, q), seen - dead)
    ensures var rows' := Apply(rows, Clean(hits, seen, at));
            Active(Lookup(rows', k)) <==> Active(Lookup(rows, k)) && !Stale(Lookup(rows, k), seen - dead)
  {
    CleanLookup(rows, hits, at, k);
  }

  // The clock reading that dates an event.
  function Stamp(e: Event): int {
    match e
    case Enter(o, _, at, _) => if o.updatedAt.Some? then o.updatedAt.value else at
    case Put(o, _, now) => if o.updatedAt.Some? then o.updatedAt.value else now
    case Status(o, _, now) => if o.updatedAt.Some? then o.updatedAt.value else now
    case Leave(_, at) => at
    case Clean(_, _, at) => at
  }

  ghost predicate Dated(evs: seq<Event>) {
    && (forall i, j :: 0 <= i <= j < |evs| ==> Stamp(evs[i]) <= Stamp(evs[j]))
    && (forall e :: e in evs && e.Clean? ==> e.seen <= e.at)
  }

  // Every cleaning hit all that was still stale for its fetch when it updated.
  ghost predicate Thorough(evs: seq<Event>, dead: nat) {
    forall i :: 0 <= i < |evs| && evs[i].Clean? ==> Covers(evs[..i], evs[i].seen - dead, evs[i].hits)
  }

  // Extends a history by an event no older than its latest.
  lemma DatedSnoc(evs: seq<Event>, e: Event, dead: nat)
    requires Dated(evs) && Thorough(evs, dead) && forall x :: x in evs ==> Stamp(x) <= Stamp(e)
    requires e.Clean? ==> e.seen <= e.at && Covers(evs, e.seen - dead, e.hits)
    ensures Dated(evs + [e]) && Thorough(evs + [e], dead)
  {
    var all := evs + [e];
    forall i, j | 0 <= i <= j < |all| ensures Stamp(all[i]) <= Stamp(all[j]) {
      if j == |evs| && i < j {
        assert all[i] in evs;
      }
    }
    forall i | 0 <= i < |all| && all[i].Clean? ensures Covers(all[..i], all[i].seen - dead, all[i].hits) {
      assert all[..i] == evs[..i];
      assert evs[..|evs|] == evs;
    }
  }

  // Whatever is active has been updated within the dead period before any past cleaning.
  lemma {:induction false} ActiveSinceCleaning(evs: seq<Event>, c: nat, dead: nat, k: Key)
    requires Legal(evs) && Dated(evs) && Thorough(evs, dead)
    requires c < |evs| && evs[c].Clean? && Active(Track(evs, k))
    ensures Track(evs, k).value.updatedAt.Some?
    ensures evs[c].seen - dead <= Track(evs, k).value.updatedAt.value
  {
    RunLookup(evs, k);
    var front, e := evs[..|evs| - 1], evs[|evs| - 1];
    if c == |evs| - 1 {
      RunLookup(front, k);
      assert !Stale(Track(evs[..c], k), evs[c].seen - dead);
    } else if Names(e, k) {
      assert Stamp(evs[c]) <= Stamp(e);
    } else {
      assert front[c] == evs[c];
      ThoroughPrefix(evs, dead);
      ActiveSinceCleaning(front, c, dead, k);
    }
  }

  lemma ThoroughPrefix(evs: seq<Event>, dead: nat)
    requires evs != [] && Dated(evs) && Thorough(evs, dead)
    ensures Dated(evs[..|evs| - 1]) && Thorough(evs[..|evs| - 1], dead)
  {
    var front := evs[..|evs| - 1];
    forall i | 0 <= i < |front| && front[i].Clean? ensures Covers(front[..i], front[i].seen - dead, front[i].hits) {
      assert front[..i] == evs[..i] && front[i] == evs[i];
    }
  }

  // A session untouched for the dead period plus the age of the last cleaning is inactive.
  lemma UntouchedIsInactive(evs: seq<Event>, c: nat, dead: nat, interval: nat, now: int, k: Key)
    requires Legal(evs) && Dated(evs) && Thorough(evs, dead)
    requires c < |evs| && evs[c].Clean? && now - evs[c].seen <= interval
    requires forall i :: 0 <= i < |evs| && Names(evs[i], k) ==> Stamp(evs[i]) < now - dead - interval
    ensures !Active(Track(evs, k))
  {
    if Active(Track(evs, k)) {
      RunLookup(evs, k);
      ActiveSinceCleaning(evs, c, dead, k);
      RowTellsLastMessage(evs, k);
    }
  }
}
