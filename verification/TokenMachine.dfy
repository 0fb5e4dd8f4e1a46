/**
  Token rotation of one gateway as a machine of small steps.

  Two stores change independently: the token list in the gateway's database
  row (`stored`) and the tokens the gateway accepts (`live`).  Each remote call
  of a synchronization is a step of its own, may fail with or without having
  had its effect, and may be interleaved with the clock and with other users of
  the gateway.  The labels carry every choice, so a run is its label sequence.
*/
module TokenMachine {
  import opened TokenLists
  import opened Wrappers

  // What the caller of an operation saw; after LostReply it took effect all the same.
  datatype Reply = Done | Refused | LostReply

  datatype Plan = Plan(
    listed: set<string>,     // what the gateway answered
    cutoff: int,             // entries created before this instant have expired
    decidedAt: int,          // the clock reading of the rotation decision
    adds: seq<string>,       // still to be added to the gateway
    removes: seq<string>,    // still to be removed from the gateway
    next: seq<Entry>,        // the list to be stored
    changed: bool)

  datatype Phase =
    | Idle
    | Listed(listed: set<string>, at: int)
    | Minting(plan: Plan)
    | Pushing(plan: Plan)

  datatype State = State(
    now: int,
    stored: seq<Entry>,
    live: set<string>,
    phase: Phase,
    lastGood: Option<int>)   // decision time of the latest successful sync

  datatype Label =
    | Tick(d: nat)
    | List
    | Decide(cutAt: int, rogue: seq<string>)
    | Mint(minted: string, stamp: int, reply: Reply)
    | PushAdd(reply: Reply)
    | PushRemove(reply: Reply)
    | Save(reply: Reply)
    | Finish
    | Abandon
    | DropStored(reply: Reply)
    | Outside(live: set<string>)

  function Added(live: set<string>, x: string, r: Reply): set<string> {
    if r == Refused then live else live + {x}
  }

  function Removed(live: set<string>, x: string, r: Reply): set<string> {
    if r == Refused then live else live - {x}
  }

  // The plan of a sync that saw `listed`, before a possible new token.
  function Planned(ts: seq<Entry>, listed: set<string>, cutoff: int, now: int, rogue: seq<string>): Plan {
    Plan(listed, cutoff, now,
         Missing(ts, cutoff, listed),
         Lapsed(ts, cutoff, listed) + rogue,
         Kept(ts, cutoff),
         Kept(ts, cutoff) != ts)
  }

  ghost predicate Enabled(maxAge: nat, s: State, l: Label) {
    match l
    case Tick(_) => true
    case List => s.phase.Idle?
    case Decide(cutAt, rogue) =>
      && s.phase.Listed?
      && s.phase.at <= cutAt <= s.now
      && Elems(rogue) == s.phase.listed - Plains(s.stored)
    case Mint(minted, stamp, _) =>
      && s.phase.Minting?
      && s.phase.plan.decidedAt <= stamp <= s.now
      && minted !in s.phase.plan.listed + Plains(s.stored)
    case PushAdd(_) => s.phase.Pushing? && s.phase.plan.adds != []
    case PushRemove(_) => s.phase.Pushing? && s.phase.plan.adds == [] && s.phase.plan.removes != []
    case Save(_) =>
      s.phase.Pushing? && s.phase.plan.adds == [] && s.phase.plan.removes == [] && s.phase.plan.changed
    case Finish =>
      s.phase.Pushing? && s.phase.plan.adds == [] && s.phase.plan.removes == [] && !s.phase.plan.changed
    case Abandon => !s.phase.Idle?
    case DropStored(_) => s.phase.Idle? && s.stored != []
    case Outside(_) => true
  }

  ghost function After(maxAge: nat, s: State, l: Label): State
    requires Enabled(maxAge, s, l)
  {
    match l
    case Tick(d) => s.(now := s.now + d)
    case List => s.(phase := Listed(s.live, s.now))
    case Decide(cutAt, rogue) =>
      var p := Planned(s.stored, s.phase.listed, cutAt - maxAge, s.now, rogue);
      s.(phase := if MintDue(s.stored, p.cutoff, s.now) then Minting(p) else Pushing(p))
    case Mint(minted, stamp, reply) =>
      var p := s.phase.plan;
      s.(live := Added(s.live, minted, reply),
         phase := if reply == Done
                  then Pushing(p.(next := p.next + [Entry(minted, stamp)], changed := true))
                  else Idle)
    case PushAdd(reply) =>
      var p := s.phase.plan;
      s.(live := Added(s.live, p.adds[0], reply),
         phase := if reply == Done then Pushing(p.(adds := p.adds[1..])) else Idle)
    case PushRemove(reply) =>
      var p := s.phase.plan;
      s.(live := Removed(s.live, p.removes[0], reply),
         phase := Pushing(p.(removes := p.removes[1..])))
    case Save(reply) =>
      s.(stored := if reply == Refused then s.stored else s.phase.plan.next,
         lastGood := if reply == Done then Some(s.phase.plan.decidedAt) else s.lastGood,
         phase := Idle)
    case Finish => s.(lastGood := Some(s.phase.plan.decidedAt), phase := Idle)
    case Abandon => s.(phase := Idle)
    case DropStored(reply) => if reply == Refused then s else s.(stored := [], lastGood := None)
    case Outside(live) => s.(live := live)
  }

  ghost predicate Legal(maxAge: nat, s: State, ls: seq<Label>)
    decreases |ls|, 0
  {
    ls == [] ||
    (Legal(maxAge, s, ls[..|ls| - 1]) && Enabled(maxAge, At(maxAge, s, ls[..|ls| - 1]), ls[|ls| - 1]))
  }

  // The state a legal run has reached.
  ghost function At(maxAge: nat, s: State, ls: seq<Label>): State
    requires Legal(maxAge, s, ls)
    decreases |ls|, 1
  {
    if ls == [] then s
    else After(maxAge, At(maxAge, s, ls[..|ls| - 1]), ls[|ls| - 1])
  }

  // A manager starts idle, on whatever list earlier runs have left.
  ghost predicate Init(s: State) {
    s.phase.Idle? && s.lastGood.None? && GoodList(s.stored, s.now)
  }

  // ------------------------------------------------------------------
  // Invariant of all runs, whatever fails and whatever others do
  // ------------------------------------------------------------------

  // Nothing planned for removal is the plaintext of an unexpired stored token.
  ghost predicate Spares(ts: seq<Entry>, cutoff: int, removes: seq<string>) {
    forall e :: e in ts && cutoff <= e.createdAt ==> e.plain !in removes
  }

  ghost predicate PlanFits(maxAge: nat, ts: seq<Entry>, now: int, p: Plan) {
    && p.cutoff + maxAge <= p.decidedAt <= now
    && Kept(ts, p.cutoff) <= p.next
    && Spares(ts, p.cutoff, p.removes)
  }

  ghost predicate MintingFits(maxAge: nat, ts: seq<Entry>, now: int, p: Plan) {
    && PlanFits(maxAge, ts, now, p)
    && p.next == Kept(ts, p.cutoff)
    && MintDue(ts, p.cutoff, p.decidedAt)
    && Elems(p.removes) <= p.listed
  }

  // What is about to be stored is a good list of unexpired tokens, its newest
  // token was at most a day old at the decision, and no removal touches it.
  ghost predicate PushingFits(maxAge: nat, ts: seq<Entry>, now: int, p: Plan) {
    && PlanFits(maxAge, ts, now, p)
    && GoodList(p.next, now)
    && Kept(p.next, p.cutoff) == p.next != []
    && p.decidedAt - DAY <= p.next[|p.next| - 1].createdAt
    && Spares(p.next, p.cutoff, p.removes)
    && (p.changed <==> p.next != ts)
  }

  ghost predicate PhaseFits(maxAge: nat, ts: seq<Entry>, now: int, ph: Phase) {
    match ph
    case Idle => true
    case Listed(_, at) => at <= now
    case Minting(p) => MintingFits(maxAge, ts, now, p)
    case Pushing(p) => PushingFits(maxAge, ts, now, p)
  }

  ghost predicate Inv(maxAge: nat, s: State) {
    GoodList(s.stored, s.now) && PhaseFits(maxAge, s.stored, s.now, s.phase)
  }

  lemma PlannedSpares(ts: seq<Entry>, listed: set<string>, cutoff: int, rogue: seq<string>)
    requires Distinct(ts) && Elems(rogue) == listed - Plains(ts)
    ensures Spares(ts, cutoff, Lapsed(ts, cutoff, listed) + rogue)
    ensures Elems(Lapsed(ts, cutoff, listed) + rogue) <= listed
  {
    var removes := Lapsed(ts, cutoff, listed) + rogue;
    forall e | e in ts && cutoff <= e.createdAt ensures e.plain !in removes {
      LapsedMembers(ts, cutoff, listed, e.plain);
      assert e.plain in Plains(ts);
      assert e.plain !in Elems(rogue);
    }
    forall x | x in removes ensures x in listed {
      LapsedMembers(ts, cutoff, listed, x);
      assert x in rogue ==> x in Elems(rogue);
    }
  }

  lemma KeptIsGood(ts: seq<Entry>, cutoff: int, now: int)
    requires GoodList(ts, now)
    ensures GoodList(Kept(ts, cutoff), now)
    ensures Kept(Kept(ts, cutoff), cutoff) == Kept(ts, cutoff)
    ensures Kept(ts, cutoff) != [] ==> Kept(ts, cutoff)[|Kept(ts, cutoff)| - 1] == ts[|ts| - 1]
  {
    KeptIsSuffix(ts, cutoff);
    var kept := Kept(ts, cutoff);
    forall e | e in kept ensures cutoff <= e.createdAt {
      KeptMembers(ts, cutoff, e);
    }
    KeptWhole(kept, cutoff);
    KeptWhole(ts, cutoff);
  }

  lemma KeptAreSpared(ts: seq<Entry>, cutoff: int, removes: seq<string>)
    requires Spares(ts, cutoff, removes)
    ensures Spares(Kept(ts, cutoff), cutoff, removes)
  {
    forall e | e in Kept(ts, cutoff) ensures e in ts && cutoff <= e.createdAt {
      KeptMembers(ts, cutoff, e);
    }
  }

  lemma DecideFits(maxAge: nat, ts: seq<Entry>, now: int, p: Plan)
    requires GoodList(ts, now) && p.cutoff + maxAge <= p.decidedAt <= now
    requires p.next == Kept(ts, p.cutoff) && (p.changed <==> p.next != ts)
    requires Spares(ts, p.cutoff, p.removes) && Elems(p.removes) <= p.listed
    ensures MintDue(ts, p.cutoff, p.decidedAt) ==> MintingFits(maxAge, ts, now, p)
    ensures !MintDue(ts, p.cutoff, p.decidedAt) ==> PushingFits(maxAge, ts, now, p)
  {
    if !MintDue(ts, p.cutoff, p.decidedAt) {
      KeptIsGood(ts, p.cutoff, now);
      KeptAreSpared(ts, p.cutoff, p.removes);
    }
  }

  // Appending a token stamped over a day after the newest one.
  lemma AppendIsGood(ts: seq<Entry>, e: Entry, now: int)
    requires GoodList(ts, now) && e.createdAt <= now && e.plain !in Plains(ts)
    requires ts == [] || ts[|ts| - 1].createdAt + DAY < e.createdAt
    ensures GoodList(ts + [e], now)
  {
    var next := ts + [e];
    forall i, j | 0 <= i < j < |next|
      ensures next[i].createdAt + DAY < next[j].createdAt && next[i].plain != next[j].plain
    {
      assert next[i] in ts && next[i].plain in Plains(ts);
    }
  }

  lemma MintFits(maxAge: nat, ts: seq<Entry>, now: int, p: Plan, e: Entry)
    requires GoodList(ts, now) && MintingFits(maxAge, ts, now, p)
    requires p.decidedAt <= e.createdAt <= now && e.plain !in p.listed + Plains(ts)
    ensures PushingFits(maxAge, ts, now, p.(next := p.next + [e], changed := true))
  {
    var cutoff, next := p.cutoff, p.next + [e];
    KeptIsGood(ts, cutoff, now);
    KeptAreSpared(ts, cutoff, p.removes);
    forall x | x in p.next ensures x.plain in Plains(ts) {
      KeptMembers(ts, cutoff, x);
    }
    AppendIsGood(p.next, e, now);
    assert next[..|next| - 1] == p.next;
    assert e.plain !in Elems(p.removes);
  }

  lemma DecideKeepsInv(maxAge: nat, s: State, l: Label)
    requires Inv(maxAge, s) && l.Decide? && Enabled(maxAge, s, l)
    ensures Inv(maxAge, After(maxAge, s, l))
  {
    var p := Planned(s.stored, s.phase.listed, l.cutAt - maxAge, s.now, l.rogue);
    PlannedSpares(s.stored, p.listed, p.cutoff, l.rogue);
    DecideFits(maxAge, s.stored, s.now, p);
  }

  lemma MintKeepsInv(maxAge: nat, s: State, l: Label)
    requires Inv(maxAge, s) && l.Mint? && Enabled(maxAge, s, l)
    ensures Inv(maxAge, After(maxAge, s, l))
  {
    MintFits(maxAge, s.stored, s.now, s.phase.plan, Entry(l.minted, l.stamp));
  }

  lemma PushKeepsInv(maxAge: nat, s: State, l: Label)
    requires Inv(maxAge, s) && (l.PushAdd? || l.PushRemove?) && Enabled(maxAge, s, l)
    ensures Inv(maxAge, After(maxAge, s, l))
  {
    var p := s.phase.plan;
    if l.PushRemove? {
      assert Spares(s.stored, p.cutoff, p.removes[1..]);
      assert Spares(p.next, p.cutoff, p.removes[1..]);
    }
  }

  lemma SaveKeepsInv(maxAge: nat, s: State, l: Label)
    requires Inv(maxAge, s) && (l.Save? || l.Finish? || l.DropStored?) && Enabled(maxAge, s, l)
    ensures Inv(maxAge, After(maxAge, s, l))
  {
  }

  lemma TimeKeepsInv(maxAge: nat, s: State, l: Label)
    requires Inv(maxAge, s) && (l.Tick? || l.List? || l.Abandon? || l.Outside?) && Enabled(maxAge, s, l)
    ensures Inv(maxAge, After(maxAge, s, l))
  {
  }

  lemma StepKeepsInv(maxAge: nat, s: State, l: Label)
    requires Inv(maxAge, s) && Enabled(maxAge, s, l)
    ensures Inv(maxAge, After(maxAge, s, l))
  {
    if l.Decide? {
      DecideKeepsInv(maxAge, s, l);
    } else if l.Mint? {
      MintKeepsInv(maxAge, s, l);
    } else if l.PushAdd? || l.PushRemove? {
      PushKeepsInv(maxAge, s, l);
    } else if l.Save? || l.Finish? || l.DropStored? {
      SaveKeepsInv(maxAge, s, l);
    } else {
      TimeKeepsInv(maxAge, s, l);
    }
  }

  // Every reachable state: the stored list is sorted with gaps over a day, its
  // plaintexts are distinct, and no stored token is dated in the future.
  lemma {:induction false} EveryRunKeepsInv(maxAge: nat, s: State, ls: seq<Label>)
    requires Init(s) && Legal(maxAge, s, ls)
    ensures Inv(maxAge, At(maxAge, s, ls))
  {
    if ls != [] {
      EveryRunKeepsInv(maxAge, s, ls[..|ls| - 1]);
      StepKeepsInv(maxAge, At(maxAge, s, ls[..|ls| - 1]), ls[|ls| - 1]);
    }
  }
}
