/**
  How an account id is resolved to an internal user id, over whole runs: from a
  cache that may forget, from the users table, or by inserting a row.
*/
module AccountRuns {

  datatype User = User(id: int, account: string, disabled: bool)

  // `next` is the serial number of the next user; a rollback does not give it back.
  datatype Accounts = Accounts(cache: map<string, User>, users: map<int, User>, next: int)

  // Unresolved: the lookup failed, or the transaction needed none.
  datatype Source = FromCache | FromTable | Inserted | Unresolved

  ghost predicate SubMap<K, V>(a: map<K, V>, b: map<K, V>) {
    forall k :: k in a ==> k in b && b[k] == a[k]
  }

  ghost predicate UsersOk(users: map<int, User>, next: int) {
    && (forall id :: id in users ==> users[id].id == id && 0 < id < next)
    && (forall i, j :: i in users && j in users && users[i].account == users[j].account ==> i == j)
  }

  ghost predicate HasRow(users: map<int, User>, account: string, id: int) {
    id in users && users[id].account == account
  }

  ghost predicate OnlyRow(users: map<int, User>, account: string, id: int) {
    HasRow(users, account, id) && forall j :: HasRow(users, account, j) ==> j == id
  }

  // Cached ids were drawn from the sequence, and one that is in the table is its account's.
  ghost predicate CacheOk(a: Accounts) {
    forall x :: x in a.cache ==>
      && a.cache[x].account == x && 0 < a.cache[x].id < a.next
      && (a.cache[x].id in a.users ==> a.users[a.cache[x].id].account == x)
  }

  // Every cached account has its row.
  ghost predicate Sound(a: Accounts) {
    forall x :: x in a.cache ==> a.cache[x].id in a.users
  }

  ghost predicate Ok(a: Accounts) {
    UsersOk(a.users, a.next) && 0 < a.next && CacheOk(a)
  }

  ghost predicate Registered(users: map<int, User>, account: string) {
    exists id :: HasRow(users, account, id)
  }

  // One resolution, as its transaction sees it.  A disabled user is found but not cached.
  ghost predicate Resolved(b: Accounts, account: string, id: int, a: Accounts, how: Source) {
    match how
    case FromCache =>
      && account in b.cache && id == b.cache[account].id
      && a.users == b.users && a.next == b.next && SubMap(a.cache, b.cache)
    case FromTable =>
      && HasRow(b.users, account, id) && a.users == b.users && a.next == b.next
      && SubMap(a.cache, if b.users[id].disabled then b.cache else b.cache[account := b.users[id]])
    case Inserted =>
      var u := User(b.next, account, false);
      && id == b.next && a.next == b.next + 1 && a.users == b.users[id := u]
      && !Registered(b.users, account)
      && account in a.cache && a.cache[account] == u && SubMap(a.cache, b.cache[account := u])
    case Unresolved =>
      a.users == b.users && b.next <= a.next && SubMap(a.cache, b.cache)
  }

  // The resolution together with the fate of its transaction.
  ghost predicate Step(b: Accounts, account: string, id: int, a: Accounts, how: Source, commits: bool) {
    exists seen: Accounts ::
      Resolved(b, account, id, seen, how) && a == if commits then seen else seen.(users := b.users)
  }

  lemma StepKeepsOk(b: Accounts, account: string, id: int, a: Accounts, how: Source, commits: bool)
    requires Ok(b) && Step(b, account, id, a, how, commits)
    ensures Ok(a) && SubMap(b.users, a.users)
    ensures !how.Unresolved? && id in a.users ==> a.users[id].account == account
  {
    if how.Inserted? {
      forall j | j in b.users ensures b.users[j].account != account {
        assert !HasRow(b.users, account, j);
      }
    }
  }

  lemma ResolvedIsOfAccount(b: Accounts, account: string, id: int, a: Accounts, how: Source)
    requires Ok(b) && Resolved(b, account, id, a, how) && !how.Unresolved?
    ensures 0 < id && (id in a.users ==> a.users[id].account == account)
    ensures Sound(b) ==> id in a.users
  {
  }

  // With a sound cache a user is inserted exactly for an account without a row.
  lemma InsertsIffUnregistered(b: Accounts, account: string, id: int, a: Accounts, how: Source)
    requires Ok(b) && Sound(b) && Resolved(b, account, id, a, how) && !how.Unresolved?
    ensures how.Inserted? <==> !Registered(b.users, account)
  {
    if how.FromCache? {
      assert HasRow(b.users, account, id);
    }
  }

  // The cache goes on agreeing with the table exactly when the transaction commits or the account
  // had a row before; a transaction that resolves nothing does no harm.
  lemma StepIsSoundIff(b: Accounts, account: string, id: int, a: Accounts, how: Source, commits: bool)
    requires Ok(b) && Sound(b) && Step(b, account, id, a, how, commits)
    ensures Sound(a) <==> commits || how.Unresolved? || Registered(b.users, account)
  {
    var seen :| Resolved(b, account, id, seen, how) && a == if commits then seen else seen.(users := b.users);
    if !how.Unresolved? {
      InsertsIffUnregistered(b, account, id, seen, how);
    }
  }

  lemma SoundStepHasRow(b: Accounts, account: string, id: int, a: Accounts, how: Source, commits: bool)
    requires Ok(b) && Sound(b) && Step(b, account, id, a, how, commits) && Sound(a) && !how.Unresolved?
    ensures HasRow(a.users, account, id)
  {
    StepIsSoundIff(b, account, id, a, how, commits);
  }

  datatype Resolution = Resolution(account: string, id: int, how: Source, commits: bool)

  // The transaction of resolution r leads from b to a.
  ghost predicate Takes(b: Accounts, r: Resolution, a: Accounts) {
    Step(b, r.account, r.id, a, r.how, r.commits)
  }

  // states[i] is where the i-th transaction starts.
  ghost predicate IsRun(states: seq<Accounts>, rs: seq<Resolution>) {
    && |states| == |rs| + 1
    && Ok(states[0]) && Sound(states[0])
    && forall i :: 0 <= i < |rs| ==> Takes(states[i], rs[i], states[i + 1])
  }

  // A transaction that meets an account without a row commits.
  ghost predicate NewcomersCommit(states: seq<Accounts>, rs: seq<Resolution>)
    requires |states| == |rs| + 1
  {
    forall i :: 0 <= i < |rs| && !rs[i].how.Unresolved? && !Registered(states[i].users, rs[i].account) ==> rs[i].commits
  }

  lemma {:induction false} RunStaysSound(states: seq<Accounts>, rs: seq<Resolution>, n: nat)
    requires IsRun(states, rs) && NewcomersCommit(states, rs) && n <= |rs|
    ensures Ok(states[n]) && Sound(states[n])
  {
    if n > 0 {
      RunStaysSound(states, rs, n - 1);
      var r := rs[n - 1];
      StepKeepsOk(states[n - 1], r.account, r.id, states[n], r.how, r.commits);
      StepIsSoundIff(states[n - 1], r.account, r.id, states[n], r.how, r.commits);
    }
  }

  lemma {:induction false} RowsStay(states: seq<Accounts>, rs: seq<Resolution>, m: nat, n: nat)
    requires IsRun(states, rs) && NewcomersCommit(states, rs) && m <= n <= |rs|
    ensures SubMap(states[m].users, states[n].users)
  {
    if m < n {
      RowsStay(states, rs, m, n - 1);
      RunStaysSound(states, rs, n - 1);
      var r := rs[n - 1];
      StepKeepsOk(states[n - 1], r.account, r.id, states[n], r.how, r.commits);
    }
  }

  // Whatever the cache forgets in between, an account always resolves to the same id,
  // and that id stays its only row.
  lemma ResolutionIsAFunction(states: seq<Accounts>, rs: seq<Resolution>, m: nat, n: nat)
    requires IsRun(states, rs) && NewcomersCommit(states, rs) && m <= n < |rs|
    requires rs[m].account == rs[n].account && !rs[m].how.Unresolved? && !rs[n].how.Unresolved?
    ensures rs[m].id == rs[n].id
    ensures OnlyRow(states[n + 1].users, rs[m].account, rs[m].id)
  {
    RunStaysSound(states, rs, m);
    RunStaysSound(states, rs, m + 1);
    RunStaysSound(states, rs, n);
    RunStaysSound(states, rs, n + 1);
    SoundStepHasRow(states[m], rs[m].account, rs[m].id, states[m + 1], rs[m].how, rs[m].commits);
    SoundStepHasRow(states[n], rs[n].account, rs[n].id, states[n + 1], rs[n].how, rs[n].commits);
    RowsStay(states, rs, m + 1, n + 1);
  }

  // Without that condition it fails: a user inserted by a transaction that is rolled back stays
  // cached; once forgotten, the account gets another id.
  lemma RolledBackInsertChangesID()
    ensures exists states: seq<Accounts>, rs: seq<Resolution> ::
              IsRun(states, rs) && |rs| == 2 && rs[0].account == rs[1].account && rs[0].id != rs[1].id
              && rs[0].how.Inserted? && rs[1].how.Inserted?
  {
    var u1, u2 := User(1, "a", false), User(2, "a", false);
    var s0 := Accounts(map[], map[], 1);
    var s1 := Accounts(map["a" := u1], map[], 2);
    var s2 := Accounts(map["a" := u2], map[2 := u2], 3);
    var r0, r1 := Resolution("a", 1, Inserted, false), Resolution("a", 2, Inserted, true);
    assert Resolved(s0, "a", 1, s1.(users := map[1 := u1]), Inserted);
    assert Takes(s0, r0, s1);
    assert Resolved(s1, "a", 2, s2, Inserted);
    assert Takes(s1, r1, s2);
    var states, rs := [s0, s1, s2], [r0, r1];
    assert IsRun(states, rs);
    assert rs[0].account == rs[1].account && rs[0].id != rs[1].id;
  }
}
