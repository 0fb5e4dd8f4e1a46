/**
  The sessions table: its columns, and the statements issued against it.

  Columns that are only carried along (handles, feed, display name, user agent,
  address, extra data) are grouped as `details`; all of them lack a database
  default.  Zero is the zero value of an identifier and of an instant.
*/
module SessionRows {
  import opened Wrappers

  datatype Details = Details(handle: int, feed: string, display: string, userAgent: string,
                             ip: Option<string>, extra: map<string, string>, textroom: int)

  datatype Row = Row(
    id: int, user: int, room: Option<int>, gateway: Option<int>, session: Option<int>,
    details: Option<Details>,
    camera: bool, question: bool, selfTest: bool, soundTest: bool,
    properties: Option<map<string, int>>,
    createdAt: int, updatedAt: Option<int>, removedAt: Option<int>)

  datatype Column =
    | ID | UserID | RoomID | GatewayID | GatewaySession | DetailsGroup
    | Camera | Question | SelfTest | SoundTest
    | Properties | CreatedAt | UpdatedAt | RemovedAt

  const WITHOUT_DEFAULT: set<Column> :=
    {UserID, RoomID, GatewayID, GatewaySession, DetailsGroup, Properties, UpdatedAt, RemovedAt}
  const WITH_DEFAULT: set<Column> := {ID, Camera, Question, SelfTest, SoundTest, CreatedAt}
  const PRIMARY_KEY: set<Column> := {ID}

  datatype Columns = Infer | Blacklist(cols: set<Column>)

  // The columns a conflicting insert overwrites.
  function UpdateSet(c: Columns): set<Column> {
    var all := WITHOUT_DEFAULT + WITH_DEFAULT - PRIMARY_KEY;
    if c.Infer? then all else all - c.cols
  }

  function NonZeroDefaults(o: Row): set<Column> {
    (if o.id != 0 then {ID} else {}) + (if o.camera then {Camera} else {}) +
    (if o.question then {Question} else {}) + (if o.selfTest then {SelfTest} else {}) +
    (if o.soundTest then {SoundTest} else {}) + (if o.createdAt != 0 then {CreatedAt} else {})
  }

  // The columns given a value by the insert; the others take their defaults.
  function InsertSet(o: Row): set<Column> {
    WITHOUT_DEFAULT + NonZeroDefaults(o)
  }

  // The row with the listed columns from `a` and the others from `b`.
  function Mix(cols: set<Column>, a: Row, b: Row): Row {
    Row(if ID in cols then a.id else b.id,
        if UserID in cols then a.user else b.user,
        if RoomID in cols then a.room else b.room,
        if GatewayID in cols then a.gateway else b.gateway,
        if GatewaySession in cols then a.session else b.session,
        if DetailsGroup in cols then a.details else b.details,
        if Camera in cols then a.camera else b.camera,
        if Question in cols then a.question else b.question,
        if SelfTest in cols then a.selfTest else b.selfTest,
        if SoundTest in cols then a.soundTest else b.soundTest,
        if Properties in cols then a.properties else b.properties,
        if CreatedAt in cols then a.createdAt else b.createdAt,
        if UpdatedAt in cols then a.updatedAt else b.updatedAt,
        if RemovedAt in cols then a.removedAt else b.removedAt)
  }

  // Column defaults: the next serial number, false flags, the database's clock.
  function Defaults(newId: int, now: int): Row {
    Row(newId, 0, None, None, None, None, false, false, false, false, None, now, None, None)
  }

  // The row proposed for insertion, which a conflict clause sees as EXCLUDED.
  function Excluded(o: Row, newId: int, now: int): Row {
    Mix(InsertSet(o), o, Defaults(newId, now))
  }

  function Merged(existing: Row, excluded: Row, c: Columns): Row {
    Mix(UpdateSet(c), excluded, existing)
  }

  // The unique constraint over user, gateway and gateway session; nulls never conflict.
  datatype Key = Key(user: int, gateway: Option<int>, session: Option<int>)

  function KeyOf(r: Row): Key {
    Key(r.user, r.gateway, r.session)
  }

  predicate Full(k: Key) {
    k.gateway.Some? && k.session.Some?
  }

  type Rows = map<int, Row>

  ghost predicate Has(rows: Rows, k: Key, id: int) {
    id in rows && KeyOf(rows[id]) == k
  }

  ghost function Upsert(rows: Rows, o: Row, c: Columns, newId: int, now: int): Rows {
    var excluded := Excluded(o, newId, now);
    if Full(KeyOf(o)) && exists id :: Has(rows, KeyOf(o), id) then
      var id :| Has(rows, KeyOf(o), id);
      rows[id := Merged(rows[id], excluded, c)]
    else
      rows[newId := excluded]
  }

  // properties = coalesce(properties, '{}') || {mark: at}, removed_at = at
  function Ended(r: Row, mark: string, at: int): Row {
    r.(properties := Some((if r.properties.Some? then r.properties.value else map[])[mark := at]),
       removedAt := Some(at))
  }

  // The row is ended at the given time: the mark joins the properties, and nothing else changes.
  ghost predicate Marked(before: Row, after: Row, mark: string, at: int) {
    && after == before.(properties := after.properties, removedAt := Some(at))
    && after.properties.Some? && mark in after.properties.value && after.properties.value[mark] == at
    && forall m :: m != mark ==>
         && (m in after.properties.value <==> before.properties.Some? && m in before.properties.value)
         && (m in after.properties.value ==> after.properties.value[m] == before.properties.value[m])
  }

  lemma EndedIsMarked(r: Row, mark: string, at: int)
    ensures Marked(r, Ended(r, mark, at), mark, at)
  {
  }

  function CloseActive(rows: Rows, user: int, at: int): Rows {
    map id | id in rows ::
      if rows[id].user == user && rows[id].removedAt.None? then Ended(rows[id], "close_session", at) else rows[id]
  }

  function EndByIDs(rows: Rows, ids: set<int>, at: int): Rows {
    map id | id in rows :: if id in ids then Ended(rows[id], "clean_session", at) else rows[id]
  }

  // A session as the manager builds it from a message.
  predicate Made(o: Row) {
    && o.id == 0 && o.createdAt == 0
    && o.room.Some? && Full(KeyOf(o))
    && o.updatedAt.Some? && o.removedAt.None? && o.properties.None?
  }

  lemma MadeExcluded(o: Row, newId: int, now: int)
    requires Made(o)
    ensures Excluded(o, newId, now) == o.(id := newId, createdAt := now)
  {
  }

  // What the two conflict clauses keep of an existing row: its id, and for a
  // status update also its creation time and its properties.
  lemma MergedColumns(e: Row, x: Row)
    ensures Merged(x, e, Infer) == e.(id := x.id)
    ensures Merged(x, e, Blacklist({CreatedAt, Properties}))
              == e.(id := x.id, createdAt := x.createdAt, properties := x.properties)
  {
  }

  lemma MadeUpsertColumns(o: Row, x: Row, newId: int, now: int)
    requires Made(o)
    ensures Excluded(o, newId, now) == o.(id := newId, createdAt := now)
    ensures Merged(x, Excluded(o, newId, now), Infer) == o.(id := x.id, createdAt := now)
    ensures Merged(x, Excluded(o, newId, now), Blacklist({CreatedAt, Properties}))
              == o.(id := x.id, createdAt := x.createdAt, properties := x.properties)
  {
    MadeExcluded(o, newId, now);
    MergedColumns(Excluded(o, newId, now), x);
  }
}
