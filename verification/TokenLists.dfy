/**
  Lists of gateway tokens and the way one synchronization splits them by age.

  An `Entry` is one element of the token list a gateway keeps in its database
  properties, after decryption.  All instants and durations are nanoseconds.
*/
module TokenLists {

  datatype Entry = Entry(plain: string, createdAt: int)

  const DAY: int := 24 * 3600 * 1_000_000_000

  function Plains(ts: seq<Entry>): set<string> {
    set e | e in ts :: e.plain
  }

  function Elems(xs: seq<string>): set<string> {
    set x | x in xs
  }

  lemma ElemsEmpty(xs: seq<string>)
    ensures Elems(xs) == {} <==> xs == []
  {
    assert xs != [] ==> xs[0] in Elems(xs);
  }

  // The entries which are not older than the cutoff, in list order.
  function Kept(ts: seq<Entry>, cutoff: int): seq<Entry> {
    if ts == [] then []
    else
      var e := ts[|ts| - 1];
      Kept(ts[..|ts| - 1], cutoff) + if e.createdAt < cutoff then [] else [e]
  }

  // Plaintexts of kept entries which the gateway does not list.
  function Missing(ts: seq<Entry>, cutoff: int, listed: set<string>): seq<string> {
    if ts == [] then []
    else
      var e := ts[|ts| - 1];
      Missing(ts[..|ts| - 1], cutoff, listed) +
      if e.createdAt < cutoff || e.plain in listed then [] else [e.plain]
  }

  // Plaintexts of expired entries which the gateway still lists.
  function Lapsed(ts: seq<Entry>, cutoff: int, listed: set<string>): seq<string> {
    if ts == [] then []
    else
      var e := ts[|ts| - 1];
      Lapsed(ts[..|ts| - 1], cutoff, listed) +
      if e.createdAt < cutoff && e.plain in listed then [e.plain] else []
  }

  // A new token is due: nothing was kept, or the newest stored token is over a day old.
  predicate MintDue(ts: seq<Entry>, cutoff: int, now: int) {
    Kept(ts, cutoff) == [] || ts[|ts| - 1].createdAt < now - DAY
  }

  // Any two entries are more than a day apart, oldest first.
  ghost predicate Spaced(ts: seq<Entry>) {
    forall i, j :: 0 <= i < j < |ts| ==> ts[i].createdAt + DAY < ts[j].createdAt
  }

  ghost predicate Distinct(ts: seq<Entry>) {
    forall i, j :: 0 <= i < j < |ts| ==> ts[i].plain != ts[j].plain
  }

  ghost predicate GoodList(ts: seq<Entry>, now: int) {
    && Spaced(ts)
    && Distinct(ts)
    && forall e :: e in ts ==> e.createdAt <= now
  }

  lemma {:induction false} KeptMembers(ts: seq<Entry>, cutoff: int, e: Entry)
    ensures e in Kept(ts, cutoff) <==> e in ts && cutoff <= e.createdAt
  {
    if ts != [] {
      KeptMembers(ts[..|ts| - 1], cutoff, e);
      assert ts == ts[..|ts| - 1] + [ts[|ts| - 1]];
    }
  }

  lemma {:induction false} MissingMembers(ts: seq<Entry>, cutoff: int, listed: set<string>, x: string)
    ensures x in Missing(ts, cutoff, listed) <==>
            x !in listed && exists e :: e in ts && cutoff <= e.createdAt && e.plain == x
  {
    if ts != [] {
      MissingMembers(ts[..|ts| - 1], cutoff, listed, x);
      assert ts == ts[..|ts| - 1] + [ts[|ts| - 1]];
    }
  }

  lemma {:induction false} LapsedMembers(ts: seq<Entry>, cutoff: int, listed: set<string>, x: string)
    ensures x in Lapsed(ts, cutoff, listed) <==>
            x in listed && exists e :: e in ts && e.createdAt < cutoff && e.plain == x
  {
    if ts != [] {
      LapsedMembers(ts[..|ts| - 1], cutoff, listed, x);
      assert ts == ts[..|ts| - 1] + [ts[|ts| - 1]];
    }
  }

  lemma {:induction false} KeptWhole(ts: seq<Entry>, cutoff: int)
    ensures |Kept(ts, cutoff)| <= |ts|
    ensures |Kept(ts, cutoff)| == |ts| <==> Kept(ts, cutoff) == ts
    ensures Kept(ts, cutoff) == ts <==> forall e :: e in ts ==> cutoff <= e.createdAt
  {
    if ts != [] {
      KeptWhole(ts[..|ts| - 1], cutoff);
      assert ts == ts[..|ts| - 1] + [ts[|ts| - 1]];
      if forall e :: e in ts ==> cutoff <= e.createdAt {
        assert forall e :: e in ts[..|ts| - 1] ==> e in ts;
      } else {
        var e :| e in ts && e.createdAt < cutoff;
        KeptMembers(ts, cutoff, e);
      }
    }
  }

  lemma {:induction false} NoneKept(ts: seq<Entry>, cutoff: int)
    requires forall e :: e in ts ==> e.createdAt < cutoff
    ensures Kept(ts, cutoff) == []
  {
    if ts != [] {
      NoneKept(ts[..|ts| - 1], cutoff);
      assert ts[|ts| - 1] in ts;
    }
  }

  // In a spaced list the expired entries are a prefix, so the newest stored
  // entry is also the newest kept one whenever any is kept.
  lemma {:induction false} KeptIsSuffix(ts: seq<Entry>, cutoff: int)
    requires Spaced(ts)
    ensures |Kept(ts, cutoff)| <= |ts|
    ensures Kept(ts, cutoff) == ts[|ts| - |Kept(ts, cutoff)|..]
  {
    if ts != [] {
      var front, e := ts[..|ts| - 1], ts[|ts| - 1];
      if e.createdAt < cutoff {
        forall x | x in ts ensures x.createdAt < cutoff {
          var i :| 0 <= i < |ts| && ts[i] == x;
        }
        NoneKept(ts, cutoff);
      } else {
        KeptIsSuffix(front, cutoff);
        var k := |front| - |Kept(front, cutoff)|;
        assert ts[k..] == front[k..] + [e];
      }
    }
  }

  // Gaps of over a day bound how many entries fit between the oldest and the newest.
  lemma {:induction false} SpacedSpan(ts: seq<Entry>)
    requires Spaced(ts) && ts != []
    ensures (|ts| - 1) * DAY <= ts[|ts| - 1].createdAt - ts[0].createdAt
    ensures |ts| > 1 ==> (|ts| - 1) * DAY < ts[|ts| - 1].createdAt - ts[0].createdAt
  {
    if |ts| > 1 {
      var front := ts[..|ts| - 1];
      SpacedSpan(front);
      assert ts[|ts| - 2].createdAt + DAY < ts[|ts| - 1].createdAt;
    }
  }
}
