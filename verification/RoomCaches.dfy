/** The caches of gateways, by id and by name, and of enabled rooms, by uid. */
module RoomCaches {

  datatype GatewayRef = GatewayRef(id: int, name: string)

  datatype Room = Room(id: int, uid: string, defaultGateway: int, disabled: bool, removed: bool)

  // The two indexes hold the same gateways.
  ghost predicate MutuallyInverse(byID: map<int, GatewayRef>, byName: map<string, GatewayRef>) {
    && (forall id :: id in byID ==> byID[id].id == id && byID[id].name in byName && byName[byID[id].name] == byID[id])
    && (forall n :: n in byName ==> byName[n].name == n && byName[n].id in byID && byID[byName[n].id] == byName[n])
  }

  class GatewayCache {
    var byID: map<int, GatewayRef>
    var byName: map<string, GatewayRef>

    constructor ()
      ensures byID == map[] && byName == map[]
    {
      byID, byName := map[], map[];
    }

    // Ids and names are unique in the table.
    method Reload(rows: seq<GatewayRef>)
      requires forall i, j :: 0 <= i < j < |rows| ==> rows[i].id != rows[j].id && rows[i].name != rows[j].name
      modifies this
      ensures MutuallyInverse(byID, byName)
      ensures forall g :: g in rows <==> g.id in byID && byID[g.id] == g
    {
      byID, byName := map[], map[];
      for i := 0 to |rows|
        invariant forall id :: id in byID <==> exists k :: 0 <= k < i && rows[k].id == id
        invariant forall n :: n in byName <==> exists k :: 0 <= k < i && rows[k].name == n
        invariant forall k :: 0 <= k < i ==> byID[rows[k].id] == rows[k] && byName[rows[k].name] == rows[k]
      {
        var gateway := rows[i];
        byID := byID[gateway.id := gateway];
        byName := byName[gateway.name := gateway];
      }
    }
  }

  // The room table by id agrees with the cache by uid.
  ghost predicate Coherent(cache: map<string, Room>, table: map<int, Room>) {
    forall uid :: uid in cache ==>
      && cache[uid].uid == uid && cache[uid].id in table && table[cache[uid].id] == cache[uid]
      && !cache[uid].disabled && !cache[uid].removed
  }

  class RoomCache {
    var m: map<string, Room>

    constructor ()
      ensures m == map[]
    {
      m := map[];
    }

    // Room uids are unique in the table.
    method Reload(rows: seq<Room>, ghost table: map<int, Room>)
      requires forall r :: r in rows <==> r.id in table && table[r.id] == r && !r.disabled && !r.removed
      modifies this
      ensures Coherent(m, table)
      ensures forall r :: r in rows ==> r.uid in m
    {
      m := map[];
      for i := 0 to |rows|
        invariant Coherent(m, table)
        invariant forall k :: 0 <= k < i ==> rows[k].uid in m
      {
        m := m[rows[i].uid := rows[i]];
      }
    }
  }
}
