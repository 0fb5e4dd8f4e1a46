/**
  Replacing the rooms of a composite and listing them again.
*/
module Composites {
  import opened Database
  import opened RoomCaches
  import opened Wrappers

  datatype Item = Item(room: string, janus: string)

  datatype CompositeError = UnknownGateway(name: string) | UnknownRoom(uid: string) | DuplicateRow | DatabaseError

  datatype Entry = Entry(room: string, janus: string, position: int)

  // The caches the handlers look items up in.
  datatype Lookups = Lookups(byID: map<int, GatewayRef>, byName: map<string, GatewayRef>, rooms: map<string, Room>)

  predicate KnownItem(c: Lookups, item: Item) {
    item.janus in c.byName && item.room in c.rooms
  }

  // The row for the i-th item.
  function RowFor(c: Lookups, composite: int, item: Item, i: nat): Placement
    requires KnownItem(c, item)
  {
    Placement(composite, c.rooms[item.room].id, c.byName[item.janus].id, i + 1)
  }

  ghost predicate AllKnown(c: Lookups, vquad: seq<Option<Item>>) {
    forall i :: 0 <= i < |vquad| ==> vquad[i].Some? && KnownItem(c, vquad[i].value)
  }

  ghost function RowsFor(c: Lookups, composite: int, vquad: seq<Option<Item>>): (rows: seq<Placement>)
    requires AllKnown(c, vquad)
    ensures |rows| == |vquad|
  {
    seq(|vquad|, i requires 0 <= i < |vquad| => RowFor(c, composite, vquad[i].value, i))
  }

  ghost predicate Built(c: Lookups, composite: int, vquad: seq<Option<Item>>, rows: seq<Option<Placement>>) {
    && |rows| == |vquad|
    && forall i :: 0 <= i < |rows| ==>
         if vquad[i].None? then rows[i].None?
         else KnownItem(c, vquad[i].value) && rows[i] == Some(RowFor(c, composite, vquad[i].value, i))
  }

  // Null items aside, every gateway and room is known.
  ghost predicate Passable(c: Lookups, vquad: seq<Option<Item>>) {
    forall i :: 0 <= i < |vquad| && vquad[i].Some? ==> KnownItem(c, vquad[i].value)
  }

  // The first item not to be found; its gateway is looked up before its room.
  ghost predicate Blamed(c: Lookups, vquad: seq<Option<Item>>, i: int, e: CompositeError) {
    && 0 <= i < |vquad| && Passable(c, vquad[..i]) && vquad[i].Some?
    && match e
       case UnknownGateway(name) => name == vquad[i].value.janus && name !in c.byName
       case UnknownRoom(uid) => vquad[i].value.janus in c.byName && uid == vquad[i].value.room && uid !in c.rooms
       case _ => false
  }

  ghost predicate Unknown(c: Lookups, vquad: seq<Option<Item>>, e: CompositeError) {
    exists i :: Blamed(c, vquad, i, e)
  }

  // The rows to insert; null items leave null rows.
  method BuildRows(c: Lookups, composite: int, vquad: seq<Option<Item>>)
    returns (r: Result<seq<Option<Placement>>, CompositeError>)
    ensures r.Ok? <==> Passable(c, vquad)
    ensures r.Ok? ==> Built(c, composite, vquad, r.value)
    ensures r.Err? ==> Unknown(c, vquad, r.error)
  {
    var rows: seq<Option<Placement>> := [];
    for i := 0 to |vquad|
      invariant Built(c, composite, vquad[..i], rows) && Passable(c, vquad[..i])
    {
      if vquad[i].None? {
        rows := rows + [None];
      } else {
        var item := vquad[i].value;
        if item.janus !in c.byName {
          assert Blamed(c, vquad, i, UnknownGateway(item.janus));
          return Err(UnknownGateway(item.janus));
        }
        if item.room !in c.rooms {
          assert Blamed(c, vquad, i, UnknownRoom(item.room));
          return Err(UnknownRoom(item.room));
        }
        rows := rows + [Some(RowFor(c, composite, item, i))];
      }
    }
    assert vquad[..|vquad|] == vquad;
    return Ok(rows);
  }

  // Distinct positions: the four-column key cannot clash.
  ghost predicate Positioned(rows: seq<Option<Placement>>, composite: int) {
    forall i :: 0 <= i < |rows| && rows[i].Some? ==>
      rows[i].value.composite == composite && rows[i].value.position == i + 1
  }

  ghost function Present(rows: seq<Option<Placement>>): set<Placement> {
    set r | r in rows && r.Some? :: r.value
  }

  lemma PresentSnoc(rows: seq<Option<Placement>>, r: Option<Placement>)
    requires r.Some?
    ensures Present(rows + [r]) == Present(rows) + {r.value}
  {
  }

  lemma NotPresent(rows: seq<Option<Placement>>, composite: int, i: nat)
    requires Positioned(rows, composite) && i < |rows| && rows[i].Some?
    ensures rows[i].value !in Present(rows[..i])
  {
  }

  // Inserts row by row; a null row is dereferenced and panics.
  method AddCompositesRooms(db: Db, composite: int, rows: seq<Option<Placement>>)
    returns (outcome: Outcome<CompositeError>)
    requires db.Open() && Positioned(rows, composite)
    requires forall p :: p in db.tables.placements ==> p.composite != composite
    modifies db`tables, db`faults
    ensures db.Open() && db.tables == old(db.tables).(placements := db.tables.placements)
    ensures old(db.faults) <= db.faults && (outcome == Failed(DatabaseError) ==> old(db.faults) < db.faults)
    ensures outcome.Done? ==>
              None !in rows && db.tables.placements == old(db.tables).placements + Present(rows)
    ensures outcome.Failed? ==> outcome.error == DatabaseError
    ensures outcome.Panicked? ==> None in rows
  {
    for i := 0 to |rows|
      invariant db.Open() && db.tables == old(db.tables).(placements := db.tables.placements)
      invariant None !in rows[..i] && db.faults == old(db.faults)
      invariant db.tables.placements == old(db.tables).placements + Present(rows[..i])
    {
      if rows[i].None? {
        return Panicked;
      }
      PresentSnoc(rows[..i], rows[i]);
      assert rows[..i + 1] == rows[..i] + [rows[i]];
      NotPresent(rows, composite, i);
      var r := db.InsertPlacement(rows[i].value);
      match r {
        case Stored =>
        case DuplicateKey => return Failed(DuplicateRow);
        case InsertFailed => return Failed(DatabaseError);
      }
    }
    assert rows[..|rows|] == rows;
    return Done;
  }

  lemma BuiltIsPositioned(c: Lookups, composite: int, vquad: seq<Option<Item>>, rows: seq<Option<Placement>>)
    requires Built(c, composite, vquad, rows)
    ensures Positioned(rows, composite)
    ensures None in rows ==> None in vquad
    ensures None !in rows ==>
              AllKnown(c, vquad) && Present(rows) == set p | p in RowsFor(c, composite, vquad)
  {
    if None in rows {
      var i :| 0 <= i < |rows| && rows[i] == None;
      assert vquad[i] == None;
    } else {
      forall i | 0 <= i < |vquad| ensures vquad[i].Some? && KnownItem(c, vquad[i].value) {
        assert rows[i] in rows;
      }
      BuiltIsPresent(c, composite, vquad, rows);
    }
  }

  lemma BuiltIsPresent(c: Lookups, composite: int, vquad: seq<Option<Item>>, rows: seq<Option<Placement>>)
    requires Built(c, composite, vquad, rows) && AllKnown(c, vquad)
    ensures Present(rows) == set p | p in RowsFor(c, composite, vquad)
  {
    var wanted := RowsFor(c, composite, vquad);
    forall i | 0 <= i < |rows| ensures rows[i] == Some(wanted[i]) {
    }
    forall p ensures p in Present(rows) <==> p in wanted {
      if p in Present(rows) {
        var i :| 0 <= i < |rows| && rows[i] == Some(p);
        assert wanted[i] == p;
      }
      if p in wanted {
        var i :| 0 <= i < |wanted| && wanted[i] == p;
        assert rows[i] in rows;
      }
    }
  }

  // The composite holds the wanted rows, and every other one those it held before.
  ghost predicate HoldsNow(before: set<Placement>, after: set<Placement>, composite: int, wanted: seq<Placement>) {
    && (forall p: Placement :: p in after && p.composite == composite <==> p in wanted)
    && (forall p: Placement :: p.composite != composite ==> (p in after <==> p in before))
  }

  // The body of the replacement.
  method Replace(db: Db, c: Lookups, composite: int, vquad: seq<Option<Item>>)
    returns (outcome: Outcome<CompositeError>)
    requires db.Open()
    modifies db`tables, db`faults
    ensures db.Open() && db.tables == old(db.tables).(placements := db.tables.placements)
    ensures old(db.faults) <= db.faults && (outcome == Failed(DatabaseError) ==> old(db.faults) < db.faults)
    ensures outcome.Done? ==>
              AllKnown(c, vquad)
              && HoldsNow(old(db.tables).placements, db.tables.placements, composite, RowsFor(c, composite, vquad))
    ensures outcome.Failed? ==> outcome.error == DatabaseError || Unknown(c, vquad, outcome.error)
    ensures outcome.Panicked? ==> None in vquad && Passable(c, vquad)
    ensures outcome == Failed(DatabaseError) || !outcome.Failed? ==> Passable(c, vquad)
  {
    var built := BuildRows(c, composite, vquad);
    if built.Err? {
      return Failed(built.error);
    }
    BuiltIsPositioned(c, composite, vquad, built.value);
    var ok := db.DeletePlacements(composite);
    if !ok {
      return Failed(DatabaseError);
    }
    outcome := AddCompositesRooms(db, composite, built.value);
  }

  // Replaces the rooms of a composite in one transaction.  It commits only if every item is there
  // and known, and then the composite has exactly the items' rows; otherwise, a panic on a null
  // item included, nothing changes.  Row keys never clash.
  method UpdateComposite(db: Db, c: Lookups, composite: int, vquad: seq<Option<Item>>)
    returns (r: TxResult<CompositeError>)
    requires db.Valid()
    modifies db
    ensures db.Valid() && db.tables == old(db.tables).(placements := db.tables.placements)
    ensures r.Committed? ==>
              AllKnown(c, vquad)
              && HoldsNow(old(db.tables).placements, db.tables.placements, composite, RowsFor(c, composite, vquad))
    ensures !r.Committed? ==> db.tables.placements == old(db.tables).placements
    ensures r.RolledBack? ==> r.error == DatabaseError || Unknown(c, vquad, r.error)
    ensures r.Repanicked? ==> None in vquad && Passable(c, vquad)
    ensures db.faults == old(db.faults) ==>
              && (r.Committed? <==> AllKnown(c, vquad))
              && (r.Repanicked? <==> None in vquad && Passable(c, vquad))
              && (r.RolledBack? <==> !Passable(c, vquad))
  {
    var ok := db.Begin();
    if !ok {
      return TxError;
    }
    var outcome := Replace(db, c, composite, vquad);
    assert db.history + [] == db.history;
    r := db.Settle(outcome, []);
  }

  // ------------------------------------------------------------------
  // Listing
  // ------------------------------------------------------------------

  // The entry for a row, or none where the handler dereferences a missing room or gateway.  A gateway
  // missing in the cache is replaced by the room's default one.
  function EntryFor(c: Lookups, table: map<int, Room>, p: Placement): Option<Entry> {
    if p.room !in table || table[p.room].disabled || table[p.room].removed then None
    else
      var room := table[p.room];
      if p.gateway in c.byID then Some(Entry(room.uid, c.byID[p.gateway].name, p.position))
      else if room.defaultGateway in c.byID then Some(Entry(room.uid, c.byID[room.defaultGateway].name, p.position))
      else None
  }

  // The row's room is there and enabled, and its gateway or the room's default one is cached.
  ghost predicate Listable(c: Lookups, table: map<int, Room>, p: Placement) {
    && p.room in table && !table[p.room].disabled && !table[p.room].removed
    && (p.gateway in c.byID || table[p.room].defaultGateway in c.byID)
  }

  ghost predicate Describes(e: Entry, c: Lookups, table: map<int, Room>, p: Placement) {
    && Listable(c, table, p)
    && e.room == table[p.room].uid && e.position == p.position
    && e.janus == c.byID[if p.gateway in c.byID then p.gateway else table[p.room].defaultGateway].name
  }

  lemma EntryDescribes(c: Lookups, table: map<int, Room>, p: Placement)
    ensures EntryFor(c, table, p).Some? <==> Listable(c, table, p)
    ensures EntryFor(c, table, p).Some? ==> Describes(EntryFor(c, table, p).value, c, table, p)
  {
  }

  ghost predicate Lists(entries: seq<Entry>, rows: seq<Placement>, c: Lookups, table: map<int, Room>) {
    |entries| == |rows| && forall i :: 0 <= i < |rows| ==> Describes(entries[i], c, table, rows[i])
  }

  // The composite's loaded rows and their entries.
  method ListComposite(db: Db, c: Lookups, table: map<int, Room>, composite: int)
    returns (entries: Option<seq<Entry>>, rows: seq<Placement>)
    ensures Ordered(rows)
    ensures forall p :: p in rows <==> p in db.tables.placements && p.composite == composite
    ensures entries.Some? ==> Lists(entries.value, rows, c, table)
    ensures entries.None? ==> exists p :: p in rows && !Listable(c, table, p)
  {
    rows := db.SelectPlacements(composite);
    var list: seq<Entry> := [];
    for i := 0 to |rows|
      invariant Lists(list, rows[..i], c, table)
    {
      EntryDescribes(c, table, rows[i]);
      var e := EntryFor(c, table, rows[i]);
      if e.None? {
        return None, rows;
      }
      list := list + [e.value];
    }
    assert rows[..|rows|] == rows;
    return Some(list), rows;
  }

  // ------------------------------------------------------------------
  // Round trip
  // ------------------------------------------------------------------

  ghost predicate Numbered(rows: seq<Placement>) {
    forall i :: 0 <= i < |rows| ==> rows[i].position == i + 1
  }

  lemma LastMatches(rows: seq<Placement>, wanted: seq<Placement>)
    requires Ordered(rows) && Numbered(wanted) && wanted != []
    requires forall p :: p in rows <==> p in wanted
    ensures rows != [] && rows[|rows| - 1] == wanted[|wanted| - 1]
  {
    var w := wanted[|wanted| - 1];
    assert w in rows;
    var j :| 0 <= j < |rows| && rows[j] == w;
    var last := rows[|rows| - 1];
    assert last in wanted;
    var k :| 0 <= k < |wanted| && wanted[k] == last;
  }

  // Ordering by position recovers the sequence the rows were made from.
  lemma {:induction false} OrderRecovers(rows: seq<Placement>, wanted: seq<Placement>)
    requires Ordered(rows) && Numbered(wanted)
    requires forall p :: p in rows <==> p in wanted
    ensures rows == wanted
  {
    assert rows != [] ==> rows[0] in wanted;
    if wanted != [] {
      LastMatches(rows, wanted);
      var front, wfront, w := rows[..|rows| - 1], wanted[..|wanted| - 1], wanted[|wanted| - 1];
      assert rows == front + [w] && wanted == wfront + [w];
      forall p ensures p in front <==> p in wfront {
        assert p in rows <==> p in front || p == w;
        assert p in wanted <==> p in wfront || p == w;
      }
      OrderRecovers(front, wfront);
    }
  }

  // What an update has stored is listed again: the same rooms and gateways in the same order,
  // at positions from one on, also when a room occurs more than once.
  lemma RoundTrip(c: Lookups, table: map<int, Room>, composite: int, vquad: seq<Option<Item>>,
                  before: set<Placement>, after: set<Placement>, rows: seq<Placement>)
    requires AllKnown(c, vquad) && MutuallyInverse(c.byID, c.byName) && Coherent(c.rooms, table)
    requires Ordered(rows)
    requires HoldsNow(before, after, composite, RowsFor(c, composite, vquad))
    requires forall p :: p in rows <==> p in after && p.composite == composite
    ensures Lists(seq(|vquad|, i requires 0 <= i < |vquad| => Entry(vquad[i].value.room, vquad[i].value.janus, i + 1)),
                  rows, c, table)
  {
    OrderRecovers(rows, RowsFor(c, composite, vquad));
  }

  // Updating and then listing, end to end.
  method UpdateThenList(db: Db, c: Lookups, table: map<int, Room>, composite: int, vquad: seq<Option<Item>>)
    returns (committed: bool, entries: Option<seq<Entry>>)
    requires db.Valid() && MutuallyInverse(c.byID, c.byName) && Coherent(c.rooms, table)
    modifies db
    ensures committed ==>
              entries.Some? && |entries.value| == |vquad| && forall i :: 0 <= i < |vquad| ==>
                vquad[i].Some? && entries.value[i] == Entry(vquad[i].value.room, vquad[i].value.janus, i + 1)
  {
    ghost var before := db.tables.placements;
    var r := UpdateComposite(db, c, composite, vquad);
    committed := r.Committed?;
    var rows;
    entries, rows := ListComposite(db, c, table, composite);
    if committed {
      RoundTrip(c, table, composite, vquad, before, db.tables.placements, rows);
    }
  }
}
