/** What other clients are shown of a session. */
module UserView {
  import opened AccountRuns
  import opened SessionLedger
  import opened SessionManager
  import opened SessionRows
  import opened SessionRuns
  import opened Wrappers
  import RoomCaches

  // The entry of a session in its room's view, or none where the handler dereferences a
  // gateway missing in the cache.  The user is the one the session refers to.  Null columns read as
  // empty values.
  function MakeV1User(users: map<int, User>, room: RoomCaches.Room, gatewayNames: map<int, string>, s: Row)
    : Option<V1User>
    requires s.user in users
  {
    if s.gateway.Some? && s.gateway.value !in gatewayNames then None
    else
      var d := if s.details.Some? then s.details.value else Details(0, "", "", "", None, map[], 0);
      Some(V1User(users[s.user].account, room.uid, if s.gateway.Some? then gatewayNames[s.gateway.value] else "",
                  if s.session.Some? then s.session.value else 0,
                  d.handle, d.feed, d.textroom, d.display, d.userAgent, d.ip, d.extra,
                  s.camera, s.question, s.selfTest, s.soundTest))
  }

  // Nothing is shown only where the gateway is set and not cached; empty columns are shown as empty values.
  lemma ShownUnlessUncached(users: map<int, User>, room: RoomCaches.Room, gatewayNames: map<int, string>, s: Row)
    requires s.user in users
    ensures var v := MakeV1User(users, room, gatewayNames, s);
            && (v.None? <==> s.gateway.Some? && s.gateway.value !in gatewayNames)
            && (v.Some? && s.gateway.None? ==> v.value.janus == "")
            && (v.Some? && s.session.None? ==> v.value.session == 0)
            && (v.Some? && s.details.None? ==>
                  && v.value.handle == v.value.textroom == 0 && v.value.ip.None? && v.value.extra == map[]
                  && v.value.rfid == v.value.display == v.value.system == "")
  {
  }

  ghost predicate NamesGateways(gatewayNames: map<int, string>, gateways: map<string, int>) {
    forall n :: n in gateways ==> gateways[n] in gatewayNames && gatewayNames[gateways[n]] == n
  }

  ghost predicate NamesRooms(table: map<int, RoomCaches.Room>, rooms: map<string, int>) {
    forall uid :: uid in rooms ==> rooms[uid] in table && table[rooms[uid]].uid == uid
  }

  // The event stores what the message says, for the user who has sent it.
  ghost predicate Stores(rooms: map<string, int>, gateways: map<string, int>, users: map<int, User>, e: Event,
                         sent: V1User)
  {
    && (e.Enter? || e.Put? || e.Status?) && e.o.updatedAt.Some?
    && MakeSession(rooms, gateways, e.o.user, sent, e.o.updatedAt.value) == Ok(e.o)
    && e.o.user in users && users[e.o.user].account == sent.account
  }

  // After any run, clients are shown of a session, in the room it refers to, what its last
  // message said, under its sender's account.
  lemma ShownAsSent(evs: seq<Event>, k: Key, rooms: map<string, int>, gateways: map<string, int>, users: map<int, User>,
                    table: map<int, RoomCaches.Room>, gatewayNames: map<int, string>, sent: seq<V1User>)
    requires Legal(evs) && Track(evs, k).Some?
    requires NamesGateways(gatewayNames, gateways) && NamesRooms(table, rooms)
    requires |sent| == |evs|
    requires forall i :: 0 <= i < |evs| && Names(evs[i], k) ==> Stores(rooms, gateways, users, evs[i], sent[i])
    ensures var s := Track(evs, k).value;
            && s.user in users && s.room.Some? && s.room.value in table
            && exists i :: 0 <= i < |evs| && Names(evs[i], k) && (forall j :: i < j < |evs| ==> !Names(evs[j], k))
                           && MakeV1User(users, table[s.room.value], gatewayNames, s) == Some(sent[i])
  {
    RowTellsLastMessage(evs, k);
    var i :| 0 <= i < |evs| && Names(evs[i], k) && SaysSame(Track(evs, k).value, evs[i].o)
             && forall j :: i < j < |evs| ==> !Names(evs[j], k);
    assert Stores(rooms, gateways, users, evs[i], sent[i]);
    assert MakeV1User(users, table[Track(evs, k).value.room.value], gatewayNames, Track(evs, k).value) == Some(sent[i]);
  }
}
