/**
  The view of a room: one session for each of its users, and what is folded
  over the chosen ones in the map's arbitrary order.
*/
module RoomView {
  import opened Database
  import opened SessionRows
  import opened Wrappers

  // When a session was last active.
  function Activity(s: Row): int {
    if s.updatedAt.Some? then s.updatedAt.value else s.createdAt
  }

  function UsersIn(sessions: seq<Row>): set<int> {
    set s | s in sessions :: s.user
  }

  // Not later than the other, going by the update times, or by the creation time where there is none.
  ghost predicate NoLater(s: Row, r: Row) {
    match (s.updatedAt, r.updatedAt)
    case (Some(x), Some(y)) => x <= y
    case (Some(x), None) => x <= r.createdAt
    case (None, Some(y)) => s.createdAt <= y
    case (None, None) => s.createdAt <= r.createdAt
  }

  // The i-th session is the user's most active one, and the earliest of those listed.
  ghost predicate MostActive(sessions: seq<Row>, i: int) {
    && 0 <= i < |sessions|
    && (forall j :: 0 <= j < |sessions| && sessions[j].user == sessions[i].user ==>
          NoLater(sessions[j], sessions[i]))
    && (forall j :: 0 <= j < i && sessions[j].user == sessions[i].user ==>
          !NoLater(sessions[i], sessions[j]))
  }

  // Each user of the list is mapped to the most active of the user's sessions.
  ghost predicate Chosen(chosen: map<int, Row>, sessions: seq<Row>) {
    && chosen.Keys == UsersIn(sessions)
    && forall u :: u in chosen ==>
         exists i :: MostActive(sessions, i) && chosen[u] == sessions[i] && sessions[i].user == u
  }

  // The smallest creation time, where the zero instant counts as not set.
  function FirstOf(rows: seq<Row>): int {
    if rows == [] then 0
    else
      var first, s := FirstOf(rows[..|rows| - 1]), rows[|rows| - 1];
      if first == 0 || s.createdAt < first then s.createdAt else first
  }

  lemma MostActiveSnoc(sessions: seq<Row>, s: Row, i: int)
    requires MostActive(sessions, i)
    ensures sessions[i].user != s.user || Activity(s) <= Activity(sessions[i]) ==> MostActive(sessions + [s], i)
    ensures sessions[i].user == s.user && Activity(sessions[i]) < Activity(s) ==> MostActive(sessions + [s], |sessions|)
  {
  }

  lemma ChosenSnoc(chosen: map<int, Row>, sessions: seq<Row>, s: Row)
    requires Chosen(chosen, sessions)
    ensures Chosen(if s.user in chosen && Activity(s) <= Activity(chosen[s.user]) then chosen else chosen[s.user := s],
                   sessions + [s])
  {
    var all := sessions + [s];
    var next := if s.user in chosen && Activity(s) <= Activity(chosen[s.user]) then chosen else chosen[s.user := s];
    assert UsersIn(all) == UsersIn(sessions) + {s.user};
    forall u | u in next ensures exists i :: MostActive(all, i) && next[u] == all[i] && all[i].user == u {
      if u in chosen {
        var i :| MostActive(sessions, i) && chosen[u] == sessions[i] && sessions[i].user == u;
        MostActiveSnoc(sessions, s, i);
        assert all[i] == sessions[i] && all[|sessions|] == s;
      } else {
        assert all[|sessions|] == s;
        assert forall j :: 0 <= j < |sessions| ==> sessions[j].user in UsersIn(sessions);
        assert MostActive(all, |sessions|);
      }
    }
  }

  method ChooseSessions(sessions: seq<Row>) returns (chosen: map<int, Row>)
    ensures Chosen(chosen, sessions)
  {
    chosen := map[];
    for i := 0 to |sessions|
      invariant Chosen(chosen, sessions[..i])
    {
      var session := sessions[i];
      assert sessions[..i + 1] == sessions[..i] + [session];
      ChosenSnoc(chosen, sessions[..i], session);
      if session.user in chosen {
        if Activity(chosen[session.user]) < Activity(session) {
          chosen := chosen[session.user := session];
        }
      } else {
        chosen := chosen[session.user := session];
      }
    }
    assert sessions[..|sessions|] == sessions;
  }

  datatype View = View(numUsers: int, users: seq<Row>, questions: bool, first: int)

  // As many entries as users, one for each.
  ghost predicate OneForEach(rows: seq<Row>, users: set<int>) {
    UsersIn(rows) == users && |rows| == |users|
  }

  ghost predicate Folded(v: View) {
    && v.numUsers == |v.users|
    && (v.questions <==> exists r :: r in v.users && r.question)
    && v.first == FirstOf(v.users)
  }

  // One entry for each distinct user, the user's most active session; the rest is told by the entries.
  ghost predicate Shows(v: View, sessions: seq<Row>) {
    && Folded(v)
    && OneForEach(v.users, UsersIn(sessions))
    && forall r :: r in v.users ==> exists i :: MostActive(sessions, i) && r == sessions[i]
  }

  lemma FoldedSnoc(v: View, s: Row)
    requires Folded(v)
    ensures Folded(View(v.numUsers + 1, v.users + [s], v.questions || s.question,
                        if v.first == 0 || s.createdAt < v.first then s.createdAt else v.first))
  {
    assert (v.users + [s])[..|v.users + [s]| - 1] == v.users;
    if v.questions {
      var r :| r in v.users && r.question;
      assert r in v.users + [s];
    }
  }

  // The entries listed so far are those of the users visited.
  ghost predicate Listed(v: View, chosen: map<int, Row>, done: set<int>) {
    && Folded(v) && OneForEach(v.users, done)
    && forall r :: r in v.users ==> r.user in chosen && chosen[r.user] == r
  }

  lemma ListedSnoc(v: View, w: View, chosen: map<int, Row>, done: set<int>, u: int)
    requires Listed(v, chosen, done) && u in chosen && u !in done && chosen[u].user == u
    requires var s := chosen[u];
             w == View(v.numUsers + 1, v.users + [s], v.questions || s.question,
                       if v.first == 0 || s.createdAt < v.first then s.createdAt else v.first)
    ensures Listed(w, chosen, done + {u})
  {
    FoldedSnoc(v, chosen[u]);
    assert UsersIn(w.users) == UsersIn(v.users) + {u};
  }

  // Runs over the map of chosen sessions in any order.
  method FoldChosen(chosen: map<int, Row>) returns (v: View)
    requires forall u :: u in chosen ==> chosen[u].user == u
    ensures Listed(v, chosen, chosen.Keys)
  {
    v := View(0, [], false, 0);
    var rest, done := chosen.Keys, {};
    while rest != {}
      invariant rest !! done && rest + done == chosen.Keys && Listed(v, chosen, done)
      decreases rest
    {
      var u := AnyOf(rest);
      v := AddEntry(v, chosen, done, u);
      rest, done := rest - {u}, done + {u};
    }
  }

  method AddEntry(v: View, chosen: map<int, Row>, ghost done: set<int>, u: int) returns (w: View)
    requires Listed(v, chosen, done) && u in chosen && u !in done && chosen[u].user == u
    ensures Listed(w, chosen, done + {u})
  {
    var session, questions, first := chosen[u], v.questions, v.first;
    if session.question {
      questions := true;
    }
    if first == 0 || session.createdAt < first {
      first := session.createdAt;
    }
    w := View(v.numUsers + 1, v.users + [session], questions, first);
    ListedSnoc(v, w, chosen, done, u);
  }

  method MakeRoom(sessions: seq<Row>) returns (v: View)
    ensures Shows(v, sessions)
    ensures forall r, s :: r in v.users && s in sessions && s.user == r.user ==> NoLater(s, r)
  {
    var chosen := ChooseSessions(sessions);
    v := FoldChosen(chosen);
    forall r, s | r in v.users && s in sessions && s.user == r.user ensures NoLater(s, r) {
      ShownIsLatest(v, sessions, r, s);
    }
  }

  lemma ShownIsLatest(v: View, sessions: seq<Row>, r: Row, s: Row)
    requires Shows(v, sessions) && r in v.users && s in sessions && s.user == r.user
    ensures NoLater(s, r)
  {
    var i :| MostActive(sessions, i) && r == sessions[i];
    var j :| 0 <= j < |sessions| && sessions[j] == s;
  }

  lemma MostActiveIsUnique(sessions: seq<Row>, i: int, j: int)
    requires MostActive(sessions, i) && MostActive(sessions, j) && sessions[i].user == sessions[j].user
    ensures i == j
  {
  }

  // The entries do not depend on the map's order: any two views of a room list the same rows.
  lemma ViewsAgree(v: View, w: View, sessions: seq<Row>, r: Row)
    requires Shows(v, sessions) && Shows(w, sessions) && r in v.users
    ensures v.numUsers == w.numUsers && r in w.users
  {
    assert r.user in UsersIn(v.users) && r.user in UsersIn(w.users);
    var q :| q in w.users && q.user == r.user;
    var i :| MostActive(sessions, i) && r == sessions[i];
    var j :| MostActive(sessions, j) && q == sessions[j];
    MostActiveIsUnique(sessions, i, j);
  }

  lemma {:induction false} FewerUsersThanRows(rows: seq<Row>)
    ensures |UsersIn(rows)| <= |rows|
  {
    if rows != [] {
      var front, s := rows[..|rows| - 1], rows[|rows| - 1];
      FewerUsersThanRows(front);
      assert rows == front + [s];
      assert UsersIn(rows) == UsersIn(front) + {s.user};
    }
  }

  // No user is listed twice.
  lemma OneEntryEach(rows: seq<Row>, i: int, j: int)
    requires |UsersIn(rows)| == |rows| && 0 <= i < j < |rows|
    ensures rows[i].user != rows[j].user
  {
    if rows[i].user == rows[j].user {
      var others := rows[..j] + rows[j + 1..];
      forall r | r in rows ensures r.user in UsersIn(others) {
        var k :| 0 <= k < |rows| && rows[k] == r;
        assert rows[i] == others[i];
        assert k < j ==> others[k] == r;
        assert k > j ==> others[k - 1] == r;
      }
      assert UsersIn(rows) <= UsersIn(others);
      FewerUsersThanRows(others);
      SmallerSubset(UsersIn(rows), UsersIn(others));
    }
  }

  lemma SmallerSubset<T>(a: set<T>, b: set<T>)
    requires a <= b
    ensures |a| <= |b|
  {
    assert b == a + (b - a);
  }

  // ------------------------------------------------------------------
  // The first session of the room
  // ------------------------------------------------------------------

  ghost predicate Dated(rows: seq<Row>) {
    forall r :: r in rows ==> 0 < r.createdAt
  }

  ghost predicate Timed(rows: seq<Row>) {
    forall r :: r in rows ==> 0 <= r.createdAt
  }

  lemma {:induction false} FirstIsMinimum(rows: seq<Row>)
    requires rows != [] && Dated(rows)
    ensures exists r :: r in rows && FirstOf(rows) == r.createdAt
    ensures forall r :: r in rows ==> FirstOf(rows) <= r.createdAt
  {
    var front, s := rows[..|rows| - 1], rows[|rows| - 1];
    assert rows == front + [s];
    if front == [] {
      assert s in rows && FirstOf(rows) == s.createdAt;
    } else {
      FirstIsMinimum(front);
      var r :| r in front && FirstOf(front) == r.createdAt;
      assert r in rows && s in rows;
      assert FirstOf(rows) == if s.createdAt < FirstOf(front) then s.createdAt else FirstOf(front);
    }
  }

  // It is the same in every order exactly when no chosen session has the zero creation time, or all do.
  lemma FirstIgnoresOrderIff(rows: seq<Row>)
    requires Timed(rows)
    ensures (forall p :: multiset(p) == multiset(rows) ==> FirstOf(p) == FirstOf(rows))
            <==> Dated(rows) || forall r :: r in rows ==> r.createdAt == 0
  {
    if Dated(rows) {
      forall p | multiset(p) == multiset(rows) ensures FirstOf(p) == FirstOf(rows) {
        SameFirst(p, rows);
      }
    } else if forall r :: r in rows ==> r.createdAt == 0 {
      forall p | multiset(p) == multiset(rows) ensures FirstOf(p) == FirstOf(rows) {
        AllZero(p, rows);
        AllZero(rows, rows);
      }
    } else {
      var z :| z in rows && z.createdAt == 0;
      var y :| y in rows && y.createdAt != 0;
      var p := MoveLast(rows, z);
      var q := MoveLast(rows, y);
      assert FirstOf(p) != FirstOf(q);
    }
  }

  lemma SameFirst(p: seq<Row>, rows: seq<Row>)
    requires Dated(rows) && multiset(p) == multiset(rows)
    ensures FirstOf(p) == FirstOf(rows)
  {
    forall r ensures r in p <==> r in rows {
      assert r in multiset(p) <==> r in multiset(rows);
    }
    if rows == [] {
      assert |multiset(p)| == |p|;
    } else {
      assert rows[0] in p;
      FirstIsMinimum(rows);
      FirstIsMinimum(p);
    }
  }

  lemma {:induction false} AllZero(p: seq<Row>, rows: seq<Row>)
    requires forall r :: r in rows ==> r.createdAt == 0
    requires multiset(p) <= multiset(rows)
    ensures FirstOf(p) == 0
  {
    if p != [] {
      var front, s := p[..|p| - 1], p[|p| - 1];
      assert p == front + [s];
      assert s in multiset(p);
      AllZero(front, rows);
    }
  }

  // A permutation ending in the given row; its first session is then zero just when that row's time is.
  lemma MoveLast(rows: seq<Row>, x: Row) returns (p: seq<Row>)
    requires Timed(rows) && x in rows
    ensures multiset(p) == multiset(rows)
    ensures FirstOf(p) == 0 <==> x.createdAt == 0
  {
    var i :| 0 <= i < |rows| && rows[i] == x;
    var others := rows[..i] + rows[i + 1..];
    p := others + [x];
    assert rows == rows[..i] + [x] + rows[i + 1..];
    assert p[..|p| - 1] == others;
    FirstIsTimed(others);
  }

  lemma {:induction false} FirstIsTimed(rows: seq<Row>)
    requires Timed(rows)
    ensures 0 <= FirstOf(rows)
  {
    if rows != [] {
      FirstIsTimed(rows[..|rows| - 1]);
    }
  }

  // So whatever the map's order, clients are told the same.
  lemma ViewsTellTheSame(v: View, w: View, sessions: seq<Row>)
    requires Shows(v, sessions) && Shows(w, sessions)
    ensures v.numUsers == w.numUsers == |UsersIn(sessions)|
    ensures forall r :: r in v.users <==> r in w.users
    ensures v.questions == w.questions
    ensures Dated(sessions) ==> v.first == w.first
  {
    forall r ensures r in v.users <==> r in w.users {
      if r in v.users {
        ViewsAgree(v, w, sessions, r);
      } else if r in w.users {
        ViewsAgree(w, v, sessions, r);
      }
    }
    assert |w.users| == |v.users|;
    if Dated(sessions) && v.users != [] {
      FirstIsMinimum(v.users);
      FirstIsMinimum(w.users);
    }
  }
}
