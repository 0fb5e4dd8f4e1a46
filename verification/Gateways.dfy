/**
  One gateway as the token manager meets it: the database row, the remote Janus
  server behind its admin API, and the clock.

  Remote calls are unreliable, and other users of the server may change its
  token set before any of them.  The ghost log records the history as a run of
  the rotation machine, so everything proved of runs holds of this code.
*/
module Gateways {
  import opened TokenLists
  import opened TokenMachine
  import opened GatewayRows
  import opened Wrappers

  datatype ListReply = Listing(tokens: set<string>) | Unsupported | ListFailed

  class Gateway {
    var row: Row
    var live: set<string>
    const supportsTokens: bool
    var clock: int

    ghost const maxAge: nat
    ghost const origin: State
    ghost var log: seq<Label>
    ghost var st: State
    ghost var faults: nat               // calls that have failed
    ghost var lost: nat                 // of them, saves which have taken effect all the same

    ghost predicate Sound()
      reads this
    {
      Init(origin) && Legal(maxAge, origin, log) && st == At(maxAge, origin, log)
    }

    // The machine's state is the state of the row and the server, and its clock never runs ahead.
    ghost predicate Mirrors()
      reads this
    {
      && Readable(row.properties)
      && st.stored == Entries(row.properties)
      && st.live == live
      && st.now <= clock
    }

    // Between two synchronizations.
    ghost predicate Valid()
      reads this
    {
      && Sound()
      && st.phase.Idle?
      && st.now <= clock
      && if Readable(row.properties) then Mirrors() else st.stored == []
    }

    constructor (row: Row, live: set<string>, supportsTokens: bool, clock: int, ghost maxAge: nat)
      requires Readable(row.properties) ==> GoodList(Entries(row.properties), clock)
      ensures Valid() && this.row == row && this.maxAge == maxAge && log == []
    {
      this.row, this.live, this.supportsTokens, this.clock := row, live, supportsTokens, clock;
      this.maxAge := maxAge;
      ghost var stored := if Readable(row.properties) then Entries(row.properties) else [];
      origin := State(clock, stored, live, Idle, None);
      st := State(clock, stored, live, Idle, None);
      log, faults, lost := [], 0, 0;
    }

    ghost method Log(l: Label)
      requires Sound() && Enabled(maxAge, st, l)
      modifies `log, `st
      ensures Sound() && log == old(log) + [l] && st == After(maxAge, old(st), l)
    {
      assert (log + [l])[..|log + [l]| - 1] == log;
      log, st := log + [l], After(maxAge, st, l);
    }

    ghost method Wait(t: int)
      requires Sound() && st.now <= t
      modifies `log, `st
      ensures Sound() && old(log) <= log && st == old(st).(now := t)
    {
      if st.now < t {
        Log(Tick(t - st.now));
      }
    }

    // Accounts for time that went by and for what others did to the server.
    ghost method CatchUp(before: set<string>)
      requires Sound() && st.now <= clock
      modifies `log, `st
      ensures Sound() && old(log) <= log
      ensures st == old(st).(now := clock, live := before)
    {
      Wait(clock);
      if st.live != before {
        Log(Outside(before));
      }
    }

    method Now() returns (t: int)
      modifies `clock
      ensures old(clock) <= clock == t
    {
      var d :| 0 <= d;
      clock := clock + d;
      t := clock;
    }

    method Interference()
      modifies `live
    {
      if * {
        live := *;
      }
    }

    method ListTokens() returns (r: ListReply)
      modifies `live, `faults
      ensures faults == old(faults) + if r.ListFailed? then 1 else 0
      ensures r.Listing? ==> supportsTokens && r.tokens == live
      ensures r.Unsupported? ==> !supportsTokens
    {
      Interference();
      if * {
        r, faults := ListFailed, faults + 1;
      } else {
        r := if supportsTokens then Listing(live) else Unsupported;
      }
    }

    method AddToken(token: string, plugins: seq<string>)
      returns (ok: bool, ghost before: set<string>, ghost reply: Reply)
      modifies `live, `faults
      ensures faults == old(faults) + if ok then 0 else 1
      ensures live == Added(before, token, reply) && (ok <==> reply == Done)
    {
      Interference();
      before, ok, reply := live, false, Refused;
      if * {
        live, reply := live + {token}, LostReply;
        if * {
          ok, reply := true, Done;
        }
      }
      faults := faults + if ok then 0 else 1;
    }

    method RemoveToken(token: string) returns (ok: bool, ghost before: set<string>, ghost reply: Reply)
      modifies `live, `faults
      ensures faults == old(faults) + if ok then 0 else 1
      ensures live == Removed(before, token, reply) && (ok <==> reply == Done)
    {
      Interference();
      before, ok, reply := live, false, Refused;
      if * {
        live, reply := live - {token}, LostReply;
        if * {
          ok, reply := true, Done;
        }
      }
      faults := faults + if ok then 0 else 1;
    }

    // The database writes the column, or reports an error and has left it or written it all the same.
    method UpdateProperties(p: Properties) returns (ok: bool, ghost reply: Reply)
      modifies `row, `faults, `lost
      ensures faults == old(faults) + if ok then 0 else 1
      ensures lost == old(lost) + if reply == LostReply then 1 else 0
      ensures (ok <==> reply == Done) && row == if reply == Refused then old(row) else old(row).(properties := p)
    {
      ok, reply := *, Done;
      if ok {
        row := row.(properties := p);
      } else if * {
        row, reply, faults, lost := row.(properties := p), LostReply, faults + 1, lost + 1;
      } else {
        reply, faults := Refused, faults + 1;
      }
    }
  }
}
