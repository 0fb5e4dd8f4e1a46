/**
  The session manager: protocol messages, gateway events and the periodic
  cleaning, each in one transaction over users and sessions.
*/
module SessionManager {
  import opened AccountRuns
  import opened Database
  import opened SessionLedger
  import opened SessionRows
  import opened SessionRuns
  import opened Wrappers

  // A client's description of itself; `ip` is the address if it parses.
  datatype V1User = V1User(
    account: string, room: string, janus: string, session: int, handle: int, rfid: string, textroom: int,
    display: string, system: string, ip: Option<string>, extra: map<string, string>,
    camera: bool, question: bool, selfTest: bool, soundTest: bool)

  datatype Kind = EnterRoom | SetQuestion | SetCamera | SetSoundTest | OtherKind

  // The "display" datum of a leaving event.
  datatype Display = NotAString | BadJson | Parsed(account: string)

  datatype SessionError = UnknownRoom | UnknownGateway | DisabledUser | BadDisplay | DbError

  datatype IdReply = Known(id: int) | Disabled(id: int) | LookupFailed

  // The bodies of the manager's transactions.
  datatype Job =
    | Protocol(kind: Kind, user: V1User)
    | UpdateSession(user: V1User)
    | Leaving(display: Display)

  // The account a job is about.
  function Account(job: Job): Option<string> {
    match job
    case Protocol(OtherKind, _) => None
    case Protocol(_, user) => Some(user.account)
    case UpdateSession(user) => Some(user.account)
    case Leaving(Parsed(account)) => Some(account)
    case Leaving(_) => None
  }

  // The session of a message, the room and gateway told by their cached ids.
  function MakeSession(rooms: map<string, int>, gateways: map<string, int>, userID: int, user: V1User, now: int)
    : Result<Row, SessionError>
  {
    if user.room !in rooms then Err(UnknownRoom)
    else if user.janus !in gateways then Err(UnknownGateway)
    else
      Ok(Row(0, userID, Some(rooms[user.room]), Some(gateways[user.janus]), Some(user.session),
             Some(Details(user.handle, user.rfid, user.display, user.system, user.ip, user.extra, user.textroom)),
             user.camera, user.question, user.selfTest, user.soundTest,
             None, 0, Some(now), None))
  }

  ghost predicate DisabledAccount(users: map<int, User>, account: string) {
    exists id :: id in users && users[id].account == account && users[id].disabled
  }

  class SessionManager {
    const db: Db
    const dead: nat                       // a session not updated for so long is dead
    const rooms: map<string, int>
    const gateways: map<string, int>
    var users: map<string, User>          // an account cache that may forget at any time
    var clock: int

    constructor (db: Db, dead: nat, rooms: map<string, int>, gateways: map<string, int>, clock: int)
      requires db.Valid() && db.history == []
      ensures Valid() && this.db == db && users == map[]
    {
      this.db, this.dead, this.rooms, this.gateways, this.clock := db, dead, rooms, gateways, clock;
      users := map[];
    }

    ghost function Directory(): Accounts
      reads this, db
    {
      Accounts(users, db.tables.users, db.nextUser)
    }

    ghost predicate HistoryOk()
      reads this, db
    {
      && Dated(db.history) && Thorough(db.history, dead)
      && forall e :: e in db.history ==> Stamp(e) <= clock
    }

    ghost predicate Valid()
      reads this, db
    {
      db.Valid() && CacheOk(Directory()) && HistoryOk()
    }

    method Now() returns (t: int)
      modifies `clock
      ensures old(clock) <= clock == t
    {
      var d :| 0 <= d;
      clock := clock + d;
      t := clock;
    }

    // Looks an account up in the cache, which may have evicted anything before.
    method Cached(account: string) returns (u: Option<User>)
      modifies `users
      ensures SubMap(users, old(users))
      ensures u == if account in users then Some(users[account]) else None
    {
      var gone: set<string> := *;
      users := users - gone;
      u := if account in users then Some(users[account]) else None;
    }

    method Remember(u: User)
      modifies `users
      ensures u.account in users && users[u.account] == u
      ensures SubMap(users, old(users)[u.account := u])
    {
      var gone: set<string> := *;
      users := (users - gone)[u.account := u];
    }

    // The internal id of an account: cached, stored, or given to a new row.  When no call fails,
    // a row is inserted exactly for an account that had none.
    method GetInternalUserID(account: string) returns (r: IdReply, ghost res: Resolution)
      requires Ready()
      modifies `users, db`tables, db`nextUser, db`faults
      ensures Ready()
      ensures db.tables == old(db.tables).(users := db.tables.users) && old(db.nextUser) <= db.nextUser
      ensures old(db.faults) <= db.faults && (r.LookupFailed? ==> old(db.faults) < db.faults)
      ensures res.account == account && (res.how.Unresolved? <==> r.LookupFailed?)
      ensures !r.LookupFailed? ==> r.id == res.id && 0 < r.id
      ensures Resolved(old(Directory()), account, res.id, Directory(), res.how)
      ensures Sound(old(Directory())) && db.faults == old(db.faults) ==>
                (res.how.Inserted? <==> !Registered(old(db.tables).users, account))
      ensures r.Known? && account !in old(users) ==> r.id in db.tables.users && !db.tables.users[r.id].disabled
      ensures r.Disabled? ==> r.id in old(db.tables).users && old(db.tables).users[r.id].disabled
      ensures !r.LookupFailed? && r.id in db.tables.users ==> db.tables.users[r.id].account == account
      ensures !r.LookupFailed? && Sound(old(Directory())) ==> r.id in db.tables.users
    {
      r, res := Find(account);
      if !res.how.Unresolved? {
        ResolvedIsOfAccount(old(Directory()), account, res.id, Directory(), res.how);
        if Sound(old(Directory())) {
          InsertsIffUnregistered(old(Directory()), account, res.id, Directory(), res.how);
        }
      }
    }

    method Find(account: string) returns (r: IdReply, ghost res: Resolution)
      requires Ready()
      modifies `users, db`tables, db`nextUser, db`faults
      ensures Ready()
      ensures db.tables == old(db.tables).(users := db.tables.users) && old(db.nextUser) <= db.nextUser
      ensures old(db.faults) <= db.faults && (r.LookupFailed? ==> old(db.faults) < db.faults)
      ensures res.account == account && (res.how.Unresolved? <==> r.LookupFailed?)
      ensures !r.LookupFailed? ==> r.id == res.id
      ensures Resolved(old(Directory()), account, res.id, Directory(), res.how)
      ensures r.Known? && account !in old(users) ==> r.id in db.tables.users && !db.tables.users[r.id].disabled
      ensures r.Disabled? ==> r.id in old(db.tables).users && old(db.tables).users[r.id].disabled
    {
      res := Resolution(account, 0, Unresolved, true);
      var u := Cached(account);
      if u.Some? {
        return Known(u.value.id), Resolution(account, u.value.id, FromCache, true);
      }
      var reply := db.SelectUser(account);
      match reply {
        case Found(user) =>
          if user.disabled {
            return Disabled(user.id), Resolution(account, user.id, FromTable, true);
          }
          Remember(user);
          return Known(user.id), Resolution(account, user.id, FromTable, true);
        case QueryFailed =>
          return LookupFailed, res;
        case NoRows =>
      }
      var ok, user := db.InsertUser(account);
      if !ok {
        return LookupFailed, res;
      }
      Remember(user);
      return Known(user.id), Resolution(account, user.id, Inserted, true);
    }

    // The session event is what the message asks for.
    ghost predicate Describes(job: Job, evs: seq<Event>) {
      match job
      case Protocol(EnterRoom, user) => |evs| == 1 && evs[0].Enter? && Carries(evs[0].o, user)
      case Protocol(OtherKind, _) => evs == []
      case Protocol(_, user) => |evs| == 1 && evs[0].Status? && Carries(evs[0].o, user)
      case UpdateSession(user) => |evs| == 1 && evs[0].Status? && Carries(evs[0].o, user)
      case Leaving(NotAString) => evs == []
      case Leaving(BadJson) => false
      case Leaving(Parsed(_)) => |evs| == 1 && evs[0].Leave?
    }

    ghost predicate Carries(o: Row, user: V1User) {
      o.updatedAt.Some? && MakeSession(rooms, gateways, o.user, user, o.updatedAt.value) == Ok(o)
    }

    // Why a job fails, apart from database errors.
    ghost predicate Blames(job: Job, e: SessionError, users: map<int, User>) {
      match e
      case UnknownRoom => !job.Leaving? && job.user.room !in rooms
      case UnknownGateway => !job.Leaving? && job.user.room in rooms && job.user.janus !in gateways
      case DisabledUser =>
        !job.Leaving? && DisabledAccount(users, job.user.account)
      case BadDisplay => job == Leaving(BadJson)
      case DbError => true
    }

    // At most one session event, applied to the sessions as of the begin.
    ghost predicate Did(before: Rows, outcome: Outcome<SessionError>, evs: seq<Event>, from: int)
      reads this, db
    {
      && !outcome.Panicked?
      && (outcome.Done? ==>
            if evs == [] then db.tables.sessions == before
            else
              && |evs| == 1 && Enabled(before, evs[0]) && !evs[0].Clean?
              && from <= Stamp(evs[0]) <= clock
              && db.tables.sessions == Apply(before, evs[0]))
    }

    // What a session statement of a transaction needs and keeps.
    ghost predicate Ready()
      reads this, db
    {
      db.Open() && CacheOk(Directory())
    }

    // Closes the user's sessions, the entered one included, and then writes that one.  The guard
    // of the source against id zero is always met: ids are positive.
    method EnterAs(userID: int, user: V1User) returns (outcome: Outcome<SessionError>, ghost evs: seq<Event>)
      requires Ready() && 0 < userID
      modifies `clock, db`tables, db`nextSession, db`faults
      ensures Ready() && old(clock) <= clock && old(db.nextSession) <= db.nextSession
      ensures db.tables == old(db.tables).(sessions := db.tables.sessions)
      ensures Did(old(db.tables).sessions, outcome, evs, old(clock))
      ensures outcome.Done? ==> |evs| == 1 && evs[0].Enter? && evs[0].o.user == userID && Carries(evs[0].o, user)
      ensures outcome.Done? ==> userID in db.tables.users
      ensures old(db.faults) <= db.faults
      ensures outcome == Failed(DbError) ==> old(db.faults) < db.faults || userID !in db.tables.users
      ensures outcome.Failed? ==>
                outcome.error.DbError? || MakeSession(rooms, gateways, userID, user, clock) == Err(outcome.error)
    {
      evs := [];
      var at := Now();
      var closed := db.CloseSessions(userID, at);
      if !closed {
        return Failed(DbError), evs;
      }
      var now := Now();
      var made := MakeSession(rooms, gateways, userID, user, now);
      if made.Err? {
        return Failed(made.error), evs;
      }
      var dbNow := *;
      var ok, newId := db.UpsertSession(made.value, Infer, dbNow);
      if !ok {
        return Failed(DbError), evs;
      }
      return Done, [Enter(made.value, newId, at, dbNow)];
    }

    method UpdateAs(userID: int, user: V1User) returns (outcome: Outcome<SessionError>, ghost evs: seq<Event>)
      requires Ready()
      modifies `clock, db`tables, db`nextSession, db`faults
      ensures Ready() && old(clock) <= clock && old(db.nextSession) <= db.nextSession
      ensures db.tables == old(db.tables).(sessions := db.tables.sessions)
      ensures Did(old(db.tables).sessions, outcome, evs, old(clock))
      ensures outcome.Done? ==> |evs| == 1 && evs[0].Status? && evs[0].o.user == userID && Carries(evs[0].o, user)
      ensures outcome.Done? ==> userID in db.tables.users
      ensures old(db.faults) <= db.faults
      ensures outcome == Failed(DbError) ==> old(db.faults) < db.faults || userID !in db.tables.users
      ensures outcome.Failed? ==>
                outcome.error.DbError? || MakeSession(rooms, gateways, userID, user, clock) == Err(outcome.error)
    {
      evs := [];
      var now := Now();
      var made := MakeSession(rooms, gateways, userID, user, now);
      if made.Err? {
        return Failed(made.error), evs;
      }
      var dbNow := *;
      var ok, newId := db.UpsertSession(made.value, Blacklist({CreatedAt, Properties}), dbNow);
      if !ok {
        return Failed(DbError), evs;
      }
      return Done, [Status(made.value, newId, dbNow)];
    }

    method LeaveAs(userID: int) returns (outcome: Outcome<SessionError>, ghost evs: seq<Event>)
      requires Ready()
      modifies `clock, db`tables, db`faults
      ensures Ready() && old(clock) <= clock
      ensures db.tables == old(db.tables).(sessions := db.tables.sessions)
      ensures Did(old(db.tables).sessions, outcome, evs, old(clock))
      ensures outcome.Done? ==> |evs| == 1 && evs[0].Leave? && evs[0].user == userID
      ensures old(db.faults) <= db.faults
      ensures outcome.Failed? ==> outcome.error.DbError? && old(db.faults) < db.faults
    {
      evs := [];
      var at := Now();
      var closed := db.CloseSessions(userID, at);
      if !closed {
        return Failed(DbError), evs;
      }
      return Done, [Leave(userID, at)];
    }

    // What a body has done to the tables and the directory it began with.
    ghost predicate Performed(job: Job, before: Tables, b: Accounts, outcome: Outcome<SessionError>, evs: seq<Event>,
                              res: Resolution, from: int)
      reads this, db
    {
      && Ready() && from <= clock
      && Did(before.sessions, outcome, evs, from)
      && db.tables.placements == before.placements
      && Resolved(b, res.account, res.id, Directory(), res.how) && Concerns(job, res)
      && (outcome.Done? ==> Describes(job, evs) && OfAccount(job, evs, res.id))
      && (outcome.Failed? ==> Blames(job, outcome.error, before.users))
    }

    // Only the job's account is resolved.
    ghost predicate Concerns(job: Job, res: Resolution) {
      !res.how.Unresolved? ==> Account(job) == Some(res.account)
    }

    function UserOf(e: Event): int {
      match e
      case Enter(o, _, _, _) => o.user
      case Put(o, _, _) => o.user
      case Status(o, _, _) => o.user
      case Leave(user, _) => user
      case Clean(_, _, _) => 0
    }

    // The event's user is the resolved one, and the row of the job's account; a leaving one may have no row.
    ghost predicate OfAccount(job: Job, evs: seq<Event>, id: int)
      reads db
    {
      evs != [] ==>
        && Account(job).Some? && UserOf(evs[0]) == id
        && (job.Leaving? || id in db.tables.users)
        && (id in db.tables.users ==> db.tables.users[id].account == Account(job).value)
    }

    ghost predicate Uncached(job: Job)
      reads this
    {
      Account(job).Some? ==> Account(job).value !in users
    }

    // The session is of a user who is not disabled.
    ghost predicate Admitted(job: Job, evs: seq<Event>)
      reads db
    {
      evs != [] && !job.Leaving? ==>
        UserOf(evs[0]) in db.tables.users && !db.tables.users[UserOf(evs[0])].disabled
    }

    method OnProtocolEnter(user: V1User)
      returns (outcome: Outcome<SessionError>, ghost evs: seq<Event>, ghost res: Resolution)
      requires Ready()
      modifies `users, `clock, db`tables, db`nextUser, db`nextSession, db`faults
      ensures Performed(Protocol(EnterRoom, user), old(db.tables), old(Directory()), outcome, evs, res, old(clock))
      ensures old(db.faults) <= db.faults && (res.how.Unresolved? ==> old(db.faults) < db.faults)
      ensures outcome == Failed(DbError) && Sound(old(Directory())) ==> old(db.faults) < db.faults
      ensures outcome.Done? && old(Uncached(Protocol(EnterRoom, user))) ==> Admitted(Protocol(EnterRoom, user), evs)
      ensures old(db.nextSession) <= db.nextSession && old(db.nextUser) <= db.nextUser
    {
      var r;
      r, res := GetInternalUserID(user.account);
      if r.Known? {
        outcome, evs := EnterAs(r.id, user);
      } else {
        outcome, evs := Failed(if r.Disabled? then DisabledUser else DbError), [];
      }
    }

    method DoUpsertSession(job: Job)
      returns (outcome: Outcome<SessionError>, ghost evs: seq<Event>, ghost res: Resolution)
      requires Ready()
      requires job.UpdateSession? || (job.Protocol? && !job.kind.EnterRoom? && !job.kind.OtherKind?)
      modifies `users, `clock, db`tables, db`nextUser, db`nextSession, db`faults
      ensures Performed(job, old(db.tables), old(Directory()), outcome, evs, res, old(clock))
      ensures old(db.faults) <= db.faults && (res.how.Unresolved? ==> old(db.faults) < db.faults)
      ensures outcome == Failed(DbError) && Sound(old(Directory())) ==> old(db.faults) < db.faults
      ensures outcome.Done? && old(Uncached(job)) ==> Admitted(job, evs)
      ensures old(db.nextSession) <= db.nextSession && old(db.nextUser) <= db.nextUser
    {
      var r;
      r, res := GetInternalUserID(job.user.account);
      if r.Known? {
        outcome, evs := UpdateAs(r.id, job.user);
      } else {
        outcome, evs := Failed(if r.Disabled? then DisabledUser else DbError), [];
      }
    }

    // A disabled user's sessions are closed all the same.
    method OnVideoroomLeaving(display: Display)
      returns (outcome: Outcome<SessionError>, ghost evs: seq<Event>, ghost res: Resolution)
      requires Ready()
      modifies `users, `clock, db`tables, db`nextUser, db`faults
      ensures Performed(Leaving(display), old(db.tables), old(Directory()), outcome, evs, res, old(clock))
      ensures old(db.faults) <= db.faults && (display.Parsed? && res.how.Unresolved? ==> old(db.faults) < db.faults)
      ensures outcome == Failed(DbError) && Sound(old(Directory())) ==> old(db.faults) < db.faults
      ensures outcome == Failed(BadDisplay) <==> display.BadJson?
      ensures old(db.nextUser) <= db.nextUser
    {
      outcome, evs, res := Done, [], Resolution("", 0, Unresolved, true);
      match display {
        case NotAString => return;
        case BadJson => outcome := Failed(BadDisplay);
        case Parsed(account) =>
          var r;
          r, res := GetInternalUserID(account);
          if r.LookupFailed? {
            outcome := Failed(DbError);
          } else {
            outcome, evs := LeaveAs(r.id);
          }
      }
    }

    // The body of a transaction.
    method Perform(job: Job)
      returns (outcome: Outcome<SessionError>, ghost evs: seq<Event>, ghost res: Resolution)
      requires Ready()
      modifies `users, `clock, db`tables, db`nextUser, db`nextSession, db`faults
      ensures Performed(job, old(db.tables), old(Directory()), outcome, evs, res, old(clock))
      ensures old(db.faults) <= db.faults && (Account(job).Some? && res.how.Unresolved? ==> old(db.faults) < db.faults)
      ensures outcome == Failed(DbError) && Sound(old(Directory())) ==> old(db.faults) < db.faults
      ensures outcome.Done? && old(Uncached(job)) ==> Admitted(job, evs)
      ensures old(db.nextSession) <= db.nextSession && old(db.nextUser) <= db.nextUser
    {
      match job {
        case Protocol(EnterRoom, user) => outcome, evs, res := OnProtocolEnter(user);
        case Protocol(OtherKind, _) => outcome, evs, res := Done, [], Resolution("", 0, Unresolved, true);
        case Protocol(_, user) => outcome, evs, res := DoUpsertSession(job);
        case UpdateSession(user) => outcome, evs, res := DoUpsertSession(job);
        case Leaving(display) => outcome, evs, res := OnVideoroomLeaving(display);
      }
    }

    lemma ExtendHistory(e: Event, from: int)
      requires Legal(db.history) && Enabled(Run(db.history), e) && !e.Clean?
      requires Dated(db.history) && Thorough(db.history, dead)
      requires from <= Stamp(e) <= clock && forall x :: x in db.history ==> Stamp(x) <= from
      ensures Legal(db.history + [e]) && Run(db.history + [e]) == Apply(Run(db.history), e)
      ensures Dated(db.history + [e]) && Thorough(db.history + [e], dead)
      ensures forall x :: x in db.history + [e] ==> Stamp(x) <= clock
    {
      RunSnoc(db.history, e);
      DatedSnoc(db.history, e, dead);
    }

    lemma SweepExtends(e: Event)
      requires e.Clean? && e.seen <= e.at <= clock
      requires Legal(db.history) && Dated(db.history) && Thorough(db.history, dead)
      requires forall x :: x in db.history ==> Stamp(x) <= e.at
      requires Covers(db.history, e.seen - dead, e.hits)
      ensures Extends([e]) && Run(db.history + [e]) == EndByKeys(Run(db.history), e.hits, e.at)
    {
      RunSnoc(db.history, e);
      DatedSnoc(db.history, e, dead);
    }

    // What a transaction adds to the history keeps it legal, dated and thorough.
    ghost predicate Extends(evs: seq<Event>)
      reads this, db
    {
      && Legal(db.history + evs) && Dated(db.history + evs) && Thorough(db.history + evs, dead)
      && forall x :: x in db.history + evs ==> Stamp(x) <= clock
    }

    lemma BodyExtends(outcome: Outcome<SessionError>, evs: seq<Event>, from: int)
      requires Legal(db.history) && Dated(db.history) && Thorough(db.history, dead)
      requires from <= clock && forall x :: x in db.history ==> Stamp(x) <= from
      requires outcome.Done? && Did(Run(db.history), outcome, evs, from)
      ensures Extends(evs) && db.tables.sessions == Run(db.history + evs)
      ensures AllFrom(evs, from)
    {
      if evs == [] {
        assert db.history + evs == db.history;
      } else {
        ExtendHistory(evs[0], from);
        assert evs == [evs[0]];
      }
    }

    // Commits what has been performed, or rolls it back.
    method Conclude(job: Job, outcome: Outcome<SessionError>, ghost evs: seq<Event>, ghost b: Accounts,
                    ghost res: Resolution, ghost from: int)
      returns (r: TxResult<SessionError>)
      requires db.Restorable() && Performed(job, db.saved.value, b, outcome, evs, res, from)
      requires b.users == db.saved.value.users && AccountRuns.Ok(b)
      requires Dated(db.history) && Thorough(db.history, dead) && forall x :: x in db.history ==> Stamp(x) <= from
      modifies db`tables, db`saved, db`history, db`faults
      ensures Valid()
      ensures r.Committed? ==> outcome.Done? && db.tables == old(db.tables) && db.history == old(db.history) + evs
      ensures !r.Committed? ==> db.tables == old(db.saved).value && db.history == old(db.history)
      ensures r.RolledBack? ==> outcome == Failed(r.error)
      ensures !r.Repanicked?
      ensures old(db.faults) <= db.faults && (r.TxError? ==> old(db.faults) < db.faults)
      ensures r.Committed? ==> AllFrom(evs, from)
      ensures Step(b, res.account, res.id, Directory(), res.how, r.Committed?)
    {
      if outcome.Done? {
        BodyExtends(outcome, evs, from);
      }
      ghost var seen := Directory();
      r := db.Settle(outcome, evs);
      assert Resolved(b, res.account, res.id, seen, res.how);
      assert Directory() == if r.Committed? then seen else seen.(users := b.users);
      assert Step(b, res.account, res.id, Directory(), res.how, r.Committed?);
      StepKeepsOk(b, res.account, res.id, Directory(), res.how, r.Committed?);
    }

    // Nothing in the job makes its transaction fail.
    predicate Acceptable(job: Job) {
      job.Leaving? || (job.user.room in rooms && job.user.janus in gateways)
    }

    // A job that cannot leave an account without a row in the cache.
    ghost predicate Harmless(job: Job, users: map<int, User>) {
      Account(job).Some? ==> Registered(users, Account(job).value) || Acceptable(job)
    }

    // What a job means for the directory.  When no call fails and every cached account has its
    // row, so has it afterwards exactly if the job was harmless.
    ghost predicate Directed(job: Job, b: Accounts, res: Resolution, a: Accounts, committed: bool, faultless: bool) {
      && Takes(b, res, a) && Concerns(job, res) && res.commits == committed
      && SubMap(b.users, a.users)
      && (Sound(b) && faultless ==> (Sound(a) <==> Harmless(job, b.users)))
    }

    lemma HarmlessIff(job: Job, r: TxResult<SessionError>, evs: seq<Event>, users: map<int, User>, account: string)
      requires Account(job) == Some(account)
      requires r.Committed? ==> Describes(job, evs)
      requires !r.Committed? ==> r.RolledBack? && !r.error.DbError? && Blames(job, r.error, users)
      ensures r.Committed? ==> Acceptable(job)
      ensures !DisabledAccount(users, account) && Acceptable(job) ==> r.Committed?
      ensures r.Committed? || Registered(users, account) <==> Harmless(job, users)
    {
      if r.RolledBack? && r.error.DisabledUser? {
        var id :| id in users && users[id].account == account && users[id].disabled;
        assert HasRow(users, account, id);
      }
    }

    lemma JobIsDirected(job: Job, b: Accounts, res: Resolution, a: Accounts, r: TxResult<SessionError>,
                        evs: seq<Event>, faultless: bool)
      requires AccountRuns.Ok(b) && Takes(b, res, a) && Concerns(job, res) && res.commits == r.Committed?
      requires r.Committed? ==> Describes(job, evs)
      requires r.RolledBack? ==> Blames(job, r.error, b.users)
      requires Sound(b) && faultless ==> r.Committed? || (r.RolledBack? && !r.error.DbError?)
      requires faultless && Account(job).Some? ==> !res.how.Unresolved?
      ensures Directed(job, b, res, a, r.Committed?, faultless)
    {
      StepKeepsOk(b, res.account, res.id, a, res.how, res.commits);
      if Sound(b) {
        StepIsSoundIff(b, res.account, res.id, a, res.how, res.commits);
        if faultless && !res.how.Unresolved? {
          HarmlessIff(job, r, evs, b.users, res.account);
        }
      }
    }

    // A job between begin and commit or rollback.
    method Transact(job: Job) returns (r: TxResult<SessionError>, ghost evs: seq<Event>, ghost res: Resolution)
      requires Valid()
      modifies `users, `clock, db
      ensures Valid() && old(clock) <= clock
      ensures r.Committed? ==> db.history == old(db.history) + evs && Describes(job, evs)
      ensures r.Committed? ==> OfAccount(job, evs, res.id) && AllFrom(evs, old(clock))
      ensures r.Committed? && evs != [] ==>
                Enabled(old(db.tables).sessions, evs[0]) && db.tables.sessions == Apply(old(db.tables).sessions, evs[0])
      ensures r.Committed? && old(Uncached(job)) ==> Admitted(job, evs)
      ensures !r.Committed? ==> db.tables == old(db.tables) && db.history == old(db.history)
      ensures r.RolledBack? ==> Blames(job, r.error, old(db.tables).users)
      ensures !r.Repanicked?
      ensures old(db.faults) <= db.faults
      ensures (r.TxError? || r == RolledBack(DbError)) && Sound(old(Directory())) ==> old(db.faults) < db.faults
      ensures Account(job).Some? && res.how.Unresolved? ==> old(db.faults) < db.faults
      ensures Step(old(Directory()), res.account, res.id, Directory(), res.how, r.Committed?) && Concerns(job, res)
    {
      evs, res := [], Resolution("", 0, Unresolved, false);
      ghost var b := Directory();
      var ok := db.Begin();
      if !ok {
        assert Resolved(b, "", 0, Directory(), Unresolved);
        return TxError, evs, res;
      }
      var outcome;
      outcome, evs, res := Perform(job);
      r := Conclude(job, outcome, evs, b, res, old(clock));
    }

    // A job in its transaction: committed with its one event, or without a trace in the tables.
    // The account cache survives either way.
    method InTx(job: Job) returns (r: TxResult<SessionError>, ghost evs: seq<Event>, ghost res: Resolution)
      requires Valid()
      modifies `users, `clock, db
      ensures Valid() && old(clock) <= clock
      ensures r.Committed? ==> db.history == old(db.history) + evs && Describes(job, evs)
      ensures r.Committed? ==> OfAccount(job, evs, res.id) && AllFrom(evs, old(clock))
      ensures r.Committed? && evs != [] ==>
                Enabled(old(db.tables).sessions, evs[0]) && db.tables.sessions == Apply(old(db.tables).sessions, evs[0])
      ensures r.Committed? && old(Uncached(job)) ==> Admitted(job, evs)
      ensures !r.Committed? ==> db.tables == old(db.tables) && db.history == old(db.history)
      ensures r.RolledBack? ==> Blames(job, r.error, old(db.tables).users)
      ensures !r.Repanicked?
      ensures old(db.faults) <= db.faults
      ensures (r.TxError? || r == RolledBack(DbError)) && Sound(old(Directory())) ==> old(db.faults) < db.faults
      ensures Directed(job, old(Directory()), res, Directory(), r.Committed?, db.faults == old(db.faults))
      ensures r.Committed? && evs != [] && !job.Leaving? && res.how.FromCache? ==> res.id in old(db.tables).users
      ensures r.Committed? && evs != [] ==> Meant(old(db.tables).sessions, db.tables.sessions, evs[0])
    {
      r, evs, res := Transact(job);
      if r.Committed? && evs != [] {
        EventIsMeant(old(db.tables).sessions, evs[0]);
      }
      res := res.(commits := r.Committed?);
      JobIsDirected(job, old(Directory()), res, Directory(), r, evs, db.faults == old(db.faults));
    }

    // A textroom message.  A committed enter leaves its user in the entered session alone.
    method HandleProtocol(kind: Kind, user: V1User)
      returns (r: TxResult<SessionError>, ghost evs: seq<Event>, ghost res: Resolution)
      requires Valid()
      modifies `users, `clock, db
      ensures Valid()
      ensures r.Committed? ==> db.history == old(db.history) + evs && Describes(Protocol(kind, user), evs)
      ensures r.Committed? ==> OfAccount(Protocol(kind, user), evs, res.id)
      ensures r.Committed? && kind.EnterRoom? ==>
                EnteredAlone(old(db.tables).sessions, db.tables.sessions, evs[0].o, evs[0].at, evs[0].now)
      ensures r.Committed? && !kind.EnterRoom? && !kind.OtherKind? ==>
                Refreshed(old(db.tables).sessions, db.tables.sessions, evs[0].o, evs[0].now)
      ensures r.Committed? && user.account !in old(users) ==> Admitted(Protocol(kind, user), evs)
      ensures r.Committed? && kind.OtherKind? ==> db.tables.sessions == old(db.tables).sessions
      ensures !r.Committed? ==> db.tables == old(db.tables) && db.history == old(db.history)
      ensures r.RolledBack? ==> Blames(Protocol(kind, user), r.error, old(db.tables).users)
      ensures Directed(Protocol(kind, user), old(Directory()), res, Directory(), r.Committed?,
                       db.faults == old(db.faults))
      ensures Sound(old(Directory())) && db.faults == old(db.faults) && !kind.OtherKind?
              && !DisabledAccount(old(db.tables).users, user.account) ==>
                (r.Committed? <==> user.room in rooms && user.janus in gateways)
    {
      r, evs, res := InTx(Protocol(kind, user));
      if r.Committed? && kind.OtherKind? {
        assert old(db.history) + evs == old(db.history);
      }
      if Sound(old(Directory())) && db.faults == old(db.faults) && !kind.OtherKind? {
        HarmlessIff(Protocol(kind, user), r, evs, old(db.tables).users, user.account);
      }
    }

    // Whatever other transactions do meanwhile: jobs one after the other, each committed or not.
    method Traffic(jobs: seq<Job>) returns (ghost evs: seq<Event>)
      requires Valid()
      modifies `users, `clock, db
      ensures Valid() && old(clock) <= clock && old(db.faults) <= db.faults
      ensures db.history == old(db.history) + evs && AllFrom(evs, old(clock))
      ensures SubMap(old(db.tables).users, db.tables.users)
    {
      evs := [];
      for i := 0 to |jobs|
        invariant Valid() && old(clock) <= clock && old(db.faults) <= db.faults
        invariant db.history == old(db.history) + evs && AllFrom(evs, old(clock))
        invariant SubMap(old(db.tables).users, db.tables.users)
      {
        ghost var now := clock;
        var r, more, res := InTx(jobs[i]);
        if r.Committed? {
          MoreFrom(evs, more, old(clock), now);
          evs := evs + more;
        }
      }
    }

    // Two committed enters of one account are of one user, whatever the cache forgets, and whoever
    // else comes, goes or fails in between.
    method EnterTwice(first: V1User, traffic: seq<Job>, second: V1User)
      returns (r1: TxResult<SessionError>, r2: TxResult<SessionError>, ghost o1: Option<Row>, ghost o2: Option<Row>)
      requires Valid()
      modifies `users, `clock, db
      ensures Valid()
      ensures (r1.Committed? <==> o1.Some?) && (r2.Committed? <==> o2.Some?)
      ensures o1.Some? ==> Carries(o1.value, first)
      ensures o2.Some? ==> Carries(o2.value, second)
      ensures o1.Some? && o2.Some? && first.account == second.account ==> o1.value.user == o2.value.user
    {
      ghost var e1, e2, between, res1, res2;
      r1, e1, res1 := HandleProtocol(EnterRoom, first);
      ghost var users1 := db.tables.users;
      between := Traffic(traffic);
      assert SubMap(users1, db.tables.users);
      r2, e2, res2 := HandleProtocol(EnterRoom, second);
      o1 := if r1.Committed? then Some(e1[0].o) else None;
      o2 := if r2.Committed? then Some(e2[0].o) else None;
    }

    method IDs(sessions: seq<Row>) returns (ids: seq<int>)
      ensures (set id | id in ids) == (set x | x in sessions :: x.id)
    {
      ids := [];
      for i := 0 to |sessions|
        invariant |ids| == i && forall k :: 0 <= k < i ==> ids[k] == sessions[k].id
      {
        ids := ids + [sessions[i].id];
      }
      assert forall k :: 0 <= k < |sessions| ==> ids[k] in ids;
    }

    // Ends, by their ids, the sessions fetched after the events `fetched`; `moved` came since.
    method Sweep(sessions: seq<Row>, seen: int, ghost fetched: seq<Event>, ghost moved: seq<Event>)
      returns (r: TxResult<SessionError>, ghost evs: seq<Event>)
      requires Valid() && seen <= clock && db.history == fetched + moved
      requires AllFrom(moved, seen - dead)
      requires Legal(fetched) && Fetched(Run(fetched), sessions, seen - dead)
      modifies `clock, db
      ensures Valid()
      ensures r.Committed? ==> |evs| == 1 && evs[0].Clean? && evs[0].seen == seen
      ensures r.Committed? ==> Hits(fetched, seen - dead, evs[0].hits)
      ensures r.Committed? ==> db.history == old(db.history) + evs && db.tables.users == old(db.tables).users
      ensures !r.Committed? ==> db.tables == old(db.tables) && db.history == old(db.history)
      ensures r.Committed? || old(db.faults) < db.faults
      ensures old(db.faults) <= db.faults
    {
      var ids := IDs(sessions);
      HitsOfFetch(fetched, moved, sessions, (set id | id in ids), seen - dead);
      r, evs := SweepByIDs(ids, seen);
    }

    // The transaction of the cleaner.
    method SweepByIDs(ids: seq<int>, seen: int) returns (r: TxResult<SessionError>, ghost evs: seq<Event>)
      requires Valid() && seen <= clock
      requires Covers(db.history, seen - dead, KeysOf(Run(db.history), (set id | id in ids)))
      modifies `clock, db
      ensures Valid()
      ensures r.Committed? ==> |evs| == 1 && evs[0].Clean? && evs[0].seen == seen
      ensures r.Committed? ==> evs[0].hits == KeysOf(Run(old(db.history)), (set id | id in ids))
      ensures r.Committed? ==> db.history == old(db.history) + evs && db.tables.users == old(db.tables).users
      ensures !r.Committed? ==> db.tables == old(db.tables) && db.history == old(db.history)
      ensures r.Committed? || old(db.faults) < db.faults
      ensures old(db.faults) <= db.faults
    {
      evs := [];
      var began := db.Begin();
      if !began {
        return TxError, evs;
      }
      ghost var hits := KeysOf(Run(db.history), (set id | id in ids));
      var at := Now();
      EndByIDsIsByKeys(db.tables.sessions, (set id | id in ids), at);
      var ok := db.EndSessions(ids, at);
      evs := if ok then [Clean(hits, seen, at)] else [];
      r := SettleSweep(ok, evs);
    }

    method SettleSweep(ok: bool, ghost evs: seq<Event>) returns (r: TxResult<SessionError>)
      requires db.Open() && db.Restorable() && CacheOk(Directory()) && HistoryOk()
      requires ok ==> |evs| == 1 && evs[0].Clean? && evs[0].seen <= evs[0].at <= clock
      requires ok ==> forall x :: x in db.history ==> Stamp(x) <= evs[0].at
      requires ok ==> Covers(db.history, evs[0].seen - dead, evs[0].hits)
      requires ok ==> db.tables.sessions == EndByKeys(Run(db.history), evs[0].hits, evs[0].at)
      requires db.tables.users == db.saved.value.users
      modifies db`tables, db`saved, db`history, db`faults
      ensures Valid()
      ensures r.Committed? ==> ok && db.history == old(db.history) + evs && db.tables.users == old(db.tables).users
      ensures !r.Committed? ==> db.tables == old(db.saved).value && db.history == old(db.history)
      ensures old(db.faults) <= db.faults && (r.Committed? || !ok || old(db.faults) < db.faults)
    {
      if ok {
        assert evs == [evs[0]];
        SweepExtends(evs[0]);
        r := db.Settle(Outcome<SessionError>.Done, evs);
      } else {
        r := db.Settle(Failed(DbError), evs);
      }
    }

    // Sorts cleaned sessions into dead ones and ones revived after they had been closed.
    method Report(sessions: seq<Row>) returns (gone: seq<Row>, revived: seq<Row>)
      ensures forall x :: x in gone <==> x in sessions && !HasMark(Some(x), "close_session")
      ensures forall x :: x in revived <==> x in sessions && HasMark(Some(x), "close_session")
      ensures multiset(gone) + multiset(revived) == multiset(sessions)
    {
      gone, revived := [], [];
      for i := 0 to |sessions|
        invariant forall x :: x in gone <==> x in sessions[..i] && !HasMark(Some(x), "close_session")
        invariant forall x :: x in revived <==> x in sessions[..i] && HasMark(Some(x), "close_session")
        invariant multiset(gone) + multiset(revived) == multiset(sessions[..i])
      {
        assert sessions[..i + 1] == sessions[..i] + [sessions[i]];
        var properties := sessions[i].properties;
        if properties.Some? && "close_session" in properties.value {
          revived := revived + [sessions[i]];
        } else {
          gone := gone + [sessions[i]];
        }
      }
      assert sessions[..|sessions|] == sessions;
    }

    // The report lists every stale row of the fetch once, as revived exactly if its session had
    // been closed since it was last entered.
    ghost predicate Reported(fetched: seq<Event>, cutoff: int, gone: seq<Row>, revived: seq<Row>) {
      && Fetched(Run(fetched), gone + revived, cutoff)
      && (forall x :: x in revived ==> ClosedSinceEnter(fetched, KeyOf(x)))
      && (forall x :: x in gone ==> !ClosedSinceEnter(fetched, KeyOf(x)))
    }

    lemma ReportIsExact(fetched: seq<Event>, sessions: seq<Row>, cutoff: int, gone: seq<Row>, revived: seq<Row>)
      requires Legal(fetched) && Fetched(Run(fetched), sessions, cutoff)
      requires multiset(gone) + multiset(revived) == multiset(sessions)
      requires forall x :: x in gone ==> x in sessions && !HasMark(Some(x), "close_session")
      requires forall x :: x in revived ==> x in sessions && HasMark(Some(x), "close_session")
      ensures Reported(fetched, cutoff, gone, revived)
    {
      FetchedByOthers(Run(fetched), sessions, gone + revived, cutoff);
      forall x | x in sessions ensures HasMark(Some(x), "close_session") <==> ClosedSinceEnter(fetched, KeyOf(x)) {
        RowIsTold(fetched, x.id);
      }
    }

    // A cleaning and its report: it hit exactly what was active at the fetch and last named by an old
    // message, and only messages not older than the fetch came in between.
    ghost predicate Cleaned(fetched: seq<Event>, between: seq<Event>, e: Event, seen: int,
                            gone: seq<Row>, revived: seq<Row>)
    {
      && e.Clean? && e.seen == seen && Hits(fetched, seen - dead, e.hits)
      && (forall k :: k in e.hits <==> LastNamedBefore(fetched, k, seen - dead))
      && AllFrom(between, seen)
      && Reported(fetched, seen - dead, gone, revived)
    }

    lemma SweepIsClean(fetched: seq<Event>, between: seq<Event>, e: Event, seen: int, gone: seq<Row>, revived: seq<Row>)
      requires Legal(fetched) && e.Clean? && e.seen == seen && Hits(fetched, seen - dead, e.hits)
      requires AllFrom(between, seen) && Reported(fetched, seen - dead, gone, revived)
      ensures Cleaned(fetched, between, e, seen, gone, revived)
    {
      HitsAreNamedLast(fetched, seen - dead, e.hits);
    }

    method SweepFetched(sessions: seq<Row>, seen: int, traffic: seq<Job>)
      returns (gone: seq<Row>, revived: seq<Row>, ghost between: seq<Event>, ghost done: seq<Event>)
      requires Valid() && seen <= clock && Fetched(Run(db.history), sessions, seen - dead)
      modifies `users, `clock, db
      ensures Valid() && db.history == old(db.history) + between + done
      ensures done == [] ==> gone == revived == [] && old(db.faults) < db.faults
      ensures done != [] ==> |done| == 1 && Cleaned(old(db.history), between, done[0], seen, gone, revived)
    {
      gone, revived, done := [], [], [];
      ghost var fetched := db.history;
      between := Traffic(traffic);
      var r, evs := Sweep(sessions, seen, fetched, between);
      if r.Committed? {
        done := evs;
        gone, revived := Report(sessions);
        ReportIsExact(fetched, sessions, seen - dead, gone, revived);
        SweepIsClean(fetched, between, evs[0], seen, gone, revived);
      }
    }

    method FetchSessions() returns (ok: bool, sessions: seq<Row>, seen: int)
      requires Valid()
      modifies `clock, db`faults
      ensures Valid() && old(clock) <= seen == clock
      ensures ok ==> Fetched(db.tables.sessions, sessions, seen - dead)
      ensures ok && sessions == [] ==> StaleIDs(db.tables.sessions, seen - dead) == {}
      ensures old(db.faults) <= db.faults && (!ok ==> old(db.faults) < db.faults)
    {
      seen := Now();
      ok, sessions := db.SelectStale(seen - dead);
    }

    // The periodic cleaning, with other transactions between its fetch and its update.  It ends
    // exactly what was stale at the fetch, or nothing, and reports exactly what it ended.
    method CleanSessions(traffic: seq<Job>)
      returns (gone: seq<Row>, revived: seq<Row>, ghost between: seq<Event>, ghost done: seq<Event>, ghost seen: int)
      requires Valid()
      modifies `users, `clock, db
      ensures Valid() && db.history == old(db.history) + between + done && old(clock) <= seen
      ensures done == [] ==> gone == revived == []
      ensures done == [] && db.faults == old(db.faults) ==>
                between == [] && StaleIDs(old(db.tables).sessions, seen - dead) == {}
      ensures done != [] ==> |done| == 1 && Cleaned(old(db.history), between, done[0], seen, gone, revived)
    {
      var ok, sessions, now := FetchSessions();
      seen := now;
      if !ok || sessions == [] {
        return [], [], [], [], seen;
      }
      gone, revived, between, done := SweepFetched(sessions, now, traffic);
    }

    // A videoroom event.  Leaving closes the user's sessions, a disabled user's too.
    method HandleEvent(display: Display)
      returns (r: TxResult<SessionError>, ghost evs: seq<Event>, ghost res: Resolution)
      requires Valid()
      modifies `users, `clock, db
      ensures Valid()
      ensures r.Committed? ==> db.history == old(db.history) + evs && Describes(Leaving(display), evs)
      ensures Directed(Leaving(display), old(Directory()), res, Directory(), r.Committed?, db.faults == old(db.faults))
      ensures r.Committed? && display.Parsed? ==>
                OfAccount(Leaving(display), evs, res.id)
                && LeftBy(old(db.tables).sessions, db.tables.sessions, evs[0].user, evs[0].at)
      ensures !r.Committed? ==> db.tables == old(db.tables) && db.history == old(db.history)
      ensures r.RolledBack? ==> r.error.DbError? || (r.error.BadDisplay? && display.BadJson?)
      ensures Sound(old(Directory())) && db.faults == old(db.faults) ==> (r.Committed? <==> !display.BadJson?)
    {
      r, evs, res := InTx(Leaving(display));
    }
  }
}
