/**
  The tokens served to clients: a cache over all gateway rows, refreshed when a
  round of synchronizations reports a change.
*/
module TokenCache {
  import opened GatewayRows
  import opened Gateways
  import opened GatewayTokensManager
  import opened TokenGuarantees
  import opened TokenLists
  import opened TokenMachine
  import opened Wrappers

  ghost predicate DistinctIDs(rows: seq<Row>) {
    forall i, j :: 0 <= i < j < |rows| ==> rows[i].id != rows[j].id
  }

  // Each row's gateway is served its active token.
  ghost predicate Serves(byID: map<int, string>, rows: seq<Row>) {
    forall r :: r in rows ==> r.id in byID && Newest(r.properties) == Some(byID[r.id])
  }

  ghost predicate AllServable(rows: seq<Row>) {
    forall r :: r in rows ==> Newest(r.properties).Some?
  }

  class GatewayTokenCache {
    var byID: map<int, string>

    constructor ()
      ensures byID == map[]
    {
      byID := map[];
    }

    // Rebuilds the cache from every row, disabled and removed ones included.  A row whose
    // token cannot be read stops it, with only the rows before it served.
    method Reload(rows: seq<Row>) returns (ok: bool, ghost n: nat)
      requires DistinctIDs(rows)
      modifies this
      ensures n <= |rows| && Serves(byID, rows[..n]) && (ok <==> n == |rows|)
      ensures ok <==> AllServable(rows)
      ensures byID.Keys == set i | 0 <= i < |rows| && i <= n :: rows[i].id
      ensures !ok ==> Newest(rows[n].properties).None? && byID[rows[n].id] == ""
    {
      n, ok := 0, false;
      byID := map[];
      for i := 0 to |rows|
        invariant n == i && Serves(byID, rows[..i])
        invariant byID.Keys == set k | 0 <= k < i :: rows[k].id
      {
        var row := rows[i];
        assert rows[..i + 1] == rows[..i] + [row];
        ActiveTokenIsNewest(row.properties);
        match ActiveToken(row.properties) {
          case Err(_) =>
            byID := byID[row.id := ""];
            return;
          case Ok(token) =>
            byID := byID[row.id := token];
        }
        n := i + 1;
      }
      assert rows[..|rows|] == rows;
      ok := true;
    }
  }

  ghost predicate Ready(g: Gateway, maxAge: nat)
    reads g
  {
    g.Valid() && g.maxAge == maxAge
  }

  function RowsOf(gs: seq<Gateway>): (rows: seq<Row>)
    reads gs
    ensures |rows| == |gs|
  {
    seq(|gs|, i requires 0 <= i < |gs| reads gs => gs[i].row)
  }

  // What a round may do to a row: give an enabled one another, readable token list, and nothing else.
  ghost predicate Rolled(before: Row, after: Row) {
    after == before || (!before.disabled && !before.removed && Saved(before, after))
  }

  // Unless some call failed, a successful sync of the enabled gateway has been logged.
  ghost predicate Renewed(g: Gateway, row: Row, log: seq<Label>, clock: int, faults: nat)
    reads g
  {
    !row.disabled && !row.removed && Readable(row.properties) && g.supportsTokens && g.faults == faults ==>
      EndedWell(log, g.log) && GoodSince(g, clock)
  }

  ghost predicate AllRolled(before: seq<Row>, after: seq<Row>) {
    |before| == |after| && forall i :: 0 <= i < |before| ==> Rolled(before[i], after[i])
  }

  lemma RolledKeepsIDs(before: seq<Row>, after: seq<Row>)
    requires AllRolled(before, after) && DistinctIDs(before)
    ensures DistinctIDs(after)
  {
    forall i, j | 0 <= i < j < |after| ensures after[i].id != after[j].id {
      assert Rolled(before[i], after[i]) && Rolled(before[j], after[j]);
    }
  }

  // What a round has done to one gateway, as it was before.  A disabled or removed one is left alone.
  ghost predicate Handled(g: Gateway, row: Row, live: set<string>, log: seq<Label>, clock: int, faults: nat, lost: nat,
                          notify: bool)
    reads g
  {
    && Rolled(row, g.row) && Renewed(g, row, log, clock, faults) && (notify || g.row == row || lost < g.lost)
    && (row.disabled || row.removed ==> g.live == live && g.log == log && g.clock == clock && g.faults == faults)
  }

  // Disabled and removed gateways are passed over.
  method SyncIfActive(tm: GatewayTokensManager, g: Gateway) returns (changed: bool)
    requires Ready(g, tm.maxAge)
    modifies g
    ensures Ready(g, tm.maxAge) && (changed ==> g.row != old(g.row))
    ensures Handled(g, old(g.row), old(g.live), old(g.log), old(g.clock), old(g.faults), old(g.lost), changed)
  {
    changed := false;
    if !g.row.disabled && !g.row.removed {
      var err;
      changed, err := tm.SyncGatewayTokens(g);
    }
  }

  // The loop of a round: a notification is asked for only when some row was given another list, and
  // is missing for a changed row only when its save was reported as an error.
  method SyncEnabled(tm: GatewayTokensManager, gs: seq<Gateway>) returns (notify: bool)
    requires forall i, j :: 0 <= i < j < |gs| ==> gs[i] != gs[j]
    requires forall g :: g in gs ==> Ready(g, tm.maxAge)
    modifies set g | g in gs :: g
    ensures forall g :: g in gs ==> Ready(g, tm.maxAge)
    ensures AllRolled(old(RowsOf(gs)), RowsOf(gs))
    ensures notify ==> RowsOf(gs) != old(RowsOf(gs))
    ensures forall g :: g in gs ==>
              Handled(g, old(g.row), old(g.live), old(g.log), old(g.clock), old(g.faults), old(g.lost), notify)
  {
    notify := false;
    ghost var changedAt := 0;
    for i := 0 to |gs|
      invariant forall g :: g in gs ==> Ready(g, tm.maxAge)
      invariant forall k :: i <= k < |gs| ==> unchanged(gs[k])
      invariant forall k :: 0 <= k < i ==>
                  Handled(gs[k], old(gs[k].row), old(gs[k].live), old(gs[k].log), old(gs[k].clock),
                          old(gs[k].faults), old(gs[k].lost), notify)
      invariant notify ==> 0 <= changedAt < i && gs[changedAt].row != old(gs[changedAt].row)
    {
      assert gs[i] in gs;
      var changed := SyncIfActive(tm, gs[i]);
      if changed {
        notify, changedAt := true, i;
      }
    }
    assert forall k :: 0 <= k < |gs| ==> RowsOf(gs)[k] == gs[k].row && old(RowsOf(gs))[k] == old(gs[k].row);
  }

  // The gateways of a round: each once, under its own id.
  ghost predicate Fleet(gs: seq<Gateway>, maxAge: nat)
    reads gs
  {
    && (forall i, j :: 0 <= i < j < |gs| ==> gs[i] != gs[j])
    && DistinctIDs(RowsOf(gs))
    && forall g :: g in gs ==> Ready(g, maxAge)
  }

  // One round, marked as in progress, over the enabled gateways, and the notification it may end with; `fetched` says
  // whether the observer can fetch the rows.  Whenever the notified reload succeeds, and also when
  // nothing had to be notified and no save has lost its reply, clients are served the active
  // tokens of the stored lists.
  method Round(tm: GatewayTokensManager, gs: seq<Gateway>, cache: GatewayTokenCache, fetched: bool)
    returns (notified: bool, reloaded: bool)
    requires tm.wip && Fleet(gs, tm.maxAge)
    modifies cache, set g | g in gs :: g
    ensures Fleet(gs, tm.maxAge)
    ensures notified ==> RowsOf(gs) != old(RowsOf(gs))
    ensures forall g :: g in gs ==>
              Handled(g, old(g.row), old(g.live), old(g.log), old(g.clock), old(g.faults), old(g.lost), notified)
    ensures reloaded <==> notified && fetched && AllServable(RowsOf(gs))
    ensures !notified || !fetched ==> cache.byID == old(cache.byID)
    ensures reloaded ==> Serves(cache.byID, RowsOf(gs))
    ensures !notified && Serves(old(cache.byID), old(RowsOf(gs))) && (forall g :: g in gs ==> g.lost == old(g.lost)) ==>
              Serves(cache.byID, RowsOf(gs))
  {
    reloaded := false;
    notified := SyncEnabled(tm, gs);
    RolledKeepsIDs(old(RowsOf(gs)), RowsOf(gs));
    if notified {
      reloaded := Notify(cache, RowsOf(gs), fetched);
    } else if forall g :: g in gs ==> g.lost == old(g.lost) {
      assert RowsOf(gs) == old(RowsOf(gs));
    }
  }

  // A round at a time; none while another is in progress or when the gateways cannot be fetched.
  method SyncAll(tm: GatewayTokensManager, gs: seq<Gateway>, cache: GatewayTokenCache, listed: bool, fetched: bool)
    returns (ran: bool, notified: bool, reloaded: bool)
    requires Fleet(gs, tm.maxAge)
    modifies tm`wip, cache, set g | g in gs :: g
    ensures tm.wip == old(tm.wip) && (ran <==> !tm.wip && listed)
    ensures Fleet(gs, tm.maxAge)
    ensures !ran ==> !notified && unchanged(cache) && forall g :: g in gs ==> unchanged(g)
    ensures notified ==> RowsOf(gs) != old(RowsOf(gs))
    ensures ran ==> forall g :: g in gs ==>
              Handled(g, old(g.row), old(g.live), old(g.log), old(g.clock), old(g.faults), old(g.lost), notified)
    ensures reloaded <==> notified && fetched && AllServable(RowsOf(gs))
    ensures !notified || !fetched ==> cache.byID == old(cache.byID)
    ensures reloaded ==> Serves(cache.byID, RowsOf(gs))
    ensures ran && !notified && (forall g :: g in gs ==> g.lost == old(g.lost)) ==>
              (Serves(old(cache.byID), old(RowsOf(gs))) ==> Serves(cache.byID, RowsOf(gs)))
  {
    ran, notified, reloaded := false, false, false;
    if tm.wip {
      return;
    }
    tm.wip := true;
    if listed {
      ran := true;
      notified, reloaded := Round(tm, gs, cache, fetched);
    }
    tm.wip := false;
  }

  // The observer's reaction: fetch all rows and rebuild the cache.
  method Notify(cache: GatewayTokenCache, rows: seq<Row>, fetched: bool) returns (reloaded: bool)
    requires DistinctIDs(rows)
    modifies cache
    ensures reloaded <==> fetched && AllServable(rows)
    ensures reloaded ==> Serves(cache.byID, rows)
    ensures !fetched ==> cache.byID == old(cache.byID)
  {
    reloaded := false;
    if fetched {
      var ok, n := cache.Reload(rows);
      assert rows[..|rows|] == rows;
      reloaded := ok;
    }
  }

  // What the cache serves for a gateway is accepted there for the whole grace period, when the
  // labels logged after `pre` hold a successful sync and nobody takes tokens away since then.
  lemma ServedTokenIsAccepted(g: Gateway, rows: seq<Row>, byID: map<int, string>, pre: seq<Label>,
                              ms: seq<Label>, gap: int)
    requires g.Valid() && Readable(g.row.properties) && g.row in rows && Serves(byID, rows)
    requires pre <= g.log && Succeeded(g.log[|pre|..]) && g.st.lastGood.Some?
    requires Legal(g.maxAge, g.origin, pre) && At(g.maxAge, g.origin, pre).phase.Idle?
    requires Legal(g.maxAge, g.origin, g.log + ms) && Keeping(g.maxAge, g.origin, g.log + ms, |pre|)
    requires g.st.now - g.st.lastGood.value <= gap <= g.maxAge - DAY
    ensures byID[g.row.id] in g.live
    ensures At(g.maxAge, g.origin, g.log + ms).now <= g.st.now + g.maxAge - DAY - gap ==>
              byID[g.row.id] in At(g.maxAge, g.origin, g.log + ms).live
  {
    var ls := g.log[|pre|..];
    assert pre + ls == g.log;
    GracePeriod(g.maxAge, g.origin, pre, ls, ms, gap);
    NewestIsLastEntry(g.row.properties);
  }

  // The run goes on with nobody taking tokens off the gateway since `pre`.
  ghost predicate Undisturbed(g: Gateway, pre: seq<Label>, ms: seq<Label>)
    reads g
  {
    Legal(g.maxAge, g.origin, g.log + ms) && Keeping(g.maxAge, g.origin, g.log + ms, |pre|)
  }

  // The gateway accepts the token clients are served for it, now and in every continuation up to
  // the given instant.
  ghost predicate Honoured(g: Gateway, byID: map<int, string>, pre: seq<Label>, until: int)
    reads g
  {
    && g.row.id in byID
    && forall ms :: Undisturbed(g, pre, ms) ==>
         && byID[g.row.id] in g.live
         && (At(g.maxAge, g.origin, g.log + ms).now <= until ==>
               byID[g.row.id] in At(g.maxAge, g.origin, g.log + ms).live)
  }

  lemma RenewedIsHonoured(g: Gateway, rows: seq<Row>, byID: map<int, string>, pre: seq<Label>, since: int)
    requires g.Valid() && Readable(g.row.properties) && g.row in rows && Serves(byID, rows)
    requires Legal(g.maxAge, g.origin, pre) && At(g.maxAge, g.origin, pre).phase.Idle?
    requires EndedWell(pre, g.log) && GoodSince(g, since) && g.clock - since <= g.maxAge - DAY
    ensures Honoured(g, byID, pre, since + g.maxAge - DAY)
  {
    EndedWellIsSuccess(pre, g.log);
    forall ms | Undisturbed(g, pre, ms)
      ensures byID[g.row.id] in g.live
      ensures At(g.maxAge, g.origin, g.log + ms).now <= since + g.maxAge - DAY ==>
                byID[g.row.id] in At(g.maxAge, g.origin, g.log + ms).live
    {
      ServedTokenIsAccepted(g, rows, byID, pre, ms, g.st.now - g.st.lastGood.value);
    }
  }

  // The gateway's tokens were read and pushed by a round without a failed call.
  ghost predicate Served(g: Gateway, row: Row, clock: int, faults: nat)
    reads g
  {
    && !row.disabled && !row.removed && Readable(row.properties) && g.supportsTokens
    && g.faults == faults && g.clock - clock <= g.maxAge - DAY
  }

  // A round, seen by a client: whatever the past of the gateways, once the cache serves their rows
  // the token it hands out for a gateway synced without a fault is honoured for the grace period,
  // which is counted from the beginning of the round.
  method RoundForClients(tm: GatewayTokensManager, gs: seq<Gateway>, cache: GatewayTokenCache, fetched: bool)
    returns (ran: bool, notified: bool, reloaded: bool)
    requires Fleet(gs, tm.maxAge)
    modifies tm`wip, cache, set g | g in gs :: g
    ensures Fleet(gs, tm.maxAge) && (ran <==> !old(tm.wip))
    ensures reloaded <==> notified && fetched && AllServable(RowsOf(gs))
    ensures reloaded || (ran && !notified && Serves(old(cache.byID), old(RowsOf(gs)))
                         && forall g :: g in gs ==> g.lost == old(g.lost)) ==>
              forall g :: g in gs && Served(g, old(g.row), old(g.clock), old(g.faults)) ==>
                Honoured(g, cache.byID, old(g.log), old(g.clock) + g.maxAge - DAY)
  {
    ran, notified, reloaded := SyncAll(tm, gs, cache, true, fetched);
    if ran && Serves(cache.byID, RowsOf(gs)) {
      forall g | g in gs && Served(g, old(g.row), old(g.clock), old(g.faults))
        ensures Honoured(g, cache.byID, old(g.log), old(g.clock) + g.maxAge - DAY)
      {
        var i :| 0 <= i < |gs| && gs[i] == g;
        assert RowsOf(gs)[i] == g.row;
        RenewedIsHonoured(g, RowsOf(gs), cache.byID, old(g.log), old(g.clock));
      }
    }
  }
}
