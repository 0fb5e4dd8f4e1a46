/**
  What every run of the rotation machine guarantees: no unexpired token is
  lost, a token handed to a client outlives a grace period, one undisturbed
  synchronization makes both stores agree, a settled gateway is left alone, and
  the stored list stays short.
*/
module TokenGuarantees {
  import opened TokenLists
  import opened TokenMachine
  import opened Wrappers

  // ------------------------------------------------------------------
  // Runs and their continuations
  // ------------------------------------------------------------------

  lemma {:induction false} PrefixIsLegal(maxAge: nat, s: State, ls: seq<Label>, ms: seq<Label>)
    requires Legal(maxAge, s, ls + ms)
    ensures Legal(maxAge, s, ls)
  {
    if ms == [] {
      assert ls + ms == ls;
    } else {
      assert (ls + ms)[..|ls + ms| - 1] == ls + ms[..|ms| - 1];
      PrefixIsLegal(maxAge, s, ls, ms[..|ms| - 1]);
    }
  }

  // Splits off the last step of a run.
  lemma LastStep(maxAge: nat, s: State, ls: seq<Label>, l: Label)
    requires Legal(maxAge, s, ls + [l])
    ensures Legal(maxAge, s, ls) && Enabled(maxAge, At(maxAge, s, ls), l)
    ensures At(maxAge, s, ls + [l]) == After(maxAge, At(maxAge, s, ls), l)
  {
    assert (ls + [l])[..|ls + [l]| - 1] == ls;
  }

  // ------------------------------------------------------------------
  // Safety of every step
  // ------------------------------------------------------------------

  ghost predicate Unexpired(maxAge: nat, e: Entry, now: int) {
    now <= e.createdAt + maxAge
  }

  // The gateway may get tokens from elsewhere but loses none, and keeps token support.
  ghost predicate Keeps(s: State, l: Label) {
    !l.DropStored? && (l.Outside? ==> s.live <= l.live)
  }

  // A save that takes effect, whether or not its reply is lost.
  ghost predicate Stores(l: Label) {
    l.Save? && l.reply != Refused
  }

  lemma PushSparesUnexpired(maxAge: nat, s: State, l: Label, e: Entry)
    requires s.phase.Pushing? && PlanFits(maxAge, s.stored, s.now, s.phase.plan)
    requires l.PushRemove? || Stores(l)
    requires Enabled(maxAge, s, l) && e in s.stored && Unexpired(maxAge, e, s.now)
    ensures e.plain in s.live ==> e.plain in After(maxAge, s, l).live
    ensures e in After(maxAge, s, l).stored
  {
    KeptMembers(s.stored, s.phase.plan.cutoff, e);
  }

  lemma StepSparesUnexpired(maxAge: nat, s: State, l: Label, e: Entry)
    requires Inv(maxAge, s) && Enabled(maxAge, s, l)
    requires e in s.stored && Unexpired(maxAge, e, s.now)
    ensures !l.Outside? && e.plain in s.live ==> e.plain in After(maxAge, s, l).live
    ensures !l.DropStored? ==> e in After(maxAge, s, l).stored
  {
    if l.PushRemove? || Stores(l) {
      PushSparesUnexpired(maxAge, s, l, e);
    }
  }

  // No call of any sync, complete or aborted, takes an unexpired stored token off the gateway.
  lemma NoRunRemovesUnexpired(maxAge: nat, s: State, ls: seq<Label>, l: Label, e: Entry)
    requires Init(s) && Legal(maxAge, s, ls + [l]) && Legal(maxAge, s, ls)
    requires e in At(maxAge, s, ls).stored && Unexpired(maxAge, e, At(maxAge, s, ls).now)
    ensures !l.Outside? && e.plain in At(maxAge, s, ls).live ==> e.plain in At(maxAge, s, ls + [l]).live
    ensures !l.DropStored? ==> e in At(maxAge, s, ls + [l]).stored
  {
    LastStep(maxAge, s, ls, l);
    EveryRunKeepsInv(maxAge, s, ls);
    StepSparesUnexpired(maxAge, At(maxAge, s, ls), l, e);
  }

  // ------------------------------------------------------------------
  // Grace period of a token handed to a client
  // ------------------------------------------------------------------

  // From the label at index n on, nobody takes the gateway's tokens away.
  ghost predicate Keeping(maxAge: nat, s: State, ls: seq<Label>, n: nat)
    requires Legal(maxAge, s, ls)
  {
    |ls| <= n ||
    (Keeping(maxAge, s, ls[..|ls| - 1], n) && Keeps(At(maxAge, s, ls[..|ls| - 1]), ls[|ls| - 1]))
  }

  lemma {:induction false} PrefixIsKeeping(maxAge: nat, s: State, ls: seq<Label>, ms: seq<Label>, n: nat)
    requires Legal(maxAge, s, ls + ms) && Legal(maxAge, s, ls) && Keeping(maxAge, s, ls + ms, n)
    ensures Keeping(maxAge, s, ls, n)
  {
    if ms == [] {
      assert ls + ms == ls;
    } else if |ls| > n {
      assert (ls + ms)[..|ls + ms| - 1] == ls + ms[..|ms| - 1];
      PrefixIsKeeping(maxAge, s, ls, ms[..|ms| - 1], n);
    }
  }

  lemma LastKeeps(maxAge: nat, s: State, ls: seq<Label>, l: Label, n: nat)
    requires Legal(maxAge, s, ls + [l]) && Keeping(maxAge, s, ls + [l], n) && n <= |ls|
    ensures Legal(maxAge, s, ls) && Keeping(maxAge, s, ls, n) && Keeps(At(maxAge, s, ls), l)
  {
    assert (ls + [l])[..|ls + [l]| - 1] == ls;
  }

  // The step with which a sync ends well.
  ghost predicate Succeeds(l: Label) {
    l == Save(Done) || l == Finish
  }

  ghost predicate Succeeded(ls: seq<Label>) {
    exists l :: l in ls && Succeeds(l)
  }

  ghost predicate Accepted(maxAge: nat, s: State) {
    forall e :: e in s.stored && Unexpired(maxAge, e, s.now) ==> e.plain in s.live
  }

  ghost predicate Covered(next: seq<Entry>, live: set<string>, adds: seq<string>) {
    forall e :: e in next ==> e.plain in live || e.plain in adds
  }

  ghost predicate GracePhase(s: State) {
    match s.phase
    case Idle => true
    case Listed(listed, _) => listed <= s.live
    case Minting(p) => Covered(p.next, s.live, p.adds)
    case Pushing(p) => Covered(p.next, s.live, p.adds)
  }

  // The newest stored token was at most a day old at the decision of the latest successful sync.
  ghost predicate Rotated(s: State) {
    s.lastGood.Some? ==>
      && s.stored != [] && s.lastGood.value - DAY <= s.stored[|s.stored| - 1].createdAt
      && s.lastGood.value <= match s.phase
                             case Minting(p) => p.decidedAt
                             case Pushing(p) => p.decidedAt
                             case _ => s.now
  }

  // From its first successful sync on, the gateway accepts every unexpired stored token.
  ghost predicate GraceInv(maxAge: nat, s: State, good: bool) {
    && GracePhase(s) && Rotated(s)
    && (good ==> s.lastGood.Some? && Accepted(maxAge, s))
  }

  lemma PlannedIsCovered(ts: seq<Entry>, listed: set<string>, live: set<string>, cutoff: int)
    requires listed <= live
    ensures Covered(Kept(ts, cutoff), live, Missing(ts, cutoff, listed))
  {
    forall e | e in Kept(ts, cutoff) ensures e.plain in live || e.plain in Missing(ts, cutoff, listed) {
      KeptMembers(ts, cutoff, e);
      MissingMembers(ts, cutoff, listed, e.plain);
    }
  }

  lemma RemovalKeepsCovered(p: Plan, live: set<string>, r: Reply)
    requires p.removes != [] && Covered(p.next, live, p.adds)
    requires Kept(p.next, p.cutoff) == p.next && Spares(p.next, p.cutoff, p.removes)
    ensures Covered(p.next, Removed(live, p.removes[0], r), p.adds)
  {
    KeptWhole(p.next, p.cutoff);
  }

  lemma StepKeepsPhase(maxAge: nat, s: State, l: Label)
    requires GracePhase(s) && Enabled(maxAge, s, l) && Keeps(s, l)
    requires s.phase.Pushing? ==>
               var p := s.phase.plan;
               Kept(p.next, p.cutoff) == p.next && Spares(p.next, p.cutoff, p.removes)
    ensures GracePhase(After(maxAge, s, l))
  {
    if l.Decide? {
      PlannedIsCovered(s.stored, s.phase.listed, s.live, l.cutAt - maxAge);
    } else if l.PushRemove? {
      RemovalKeepsCovered(s.phase.plan, s.live, l.reply);
    }
  }

  // What the invariant says of the instants of a plan.
  ghost predicate PlanDated(s: State) {
    && (s.phase.Minting? || s.phase.Pushing? ==> s.phase.plan.decidedAt <= s.now)
    && (s.phase.Pushing? ==>
          var p := s.phase.plan;
          && p.next != [] && p.decidedAt - DAY <= p.next[|p.next| - 1].createdAt
          && (p.changed <==> p.next != s.stored))
  }

  lemma InvIsDated(maxAge: nat, s: State)
    requires Inv(maxAge, s)
    ensures PlanDated(s)
  {
  }

  lemma StepKeepsRotated(maxAge: nat, s: State, l: Label)
    requires Rotated(s) && PlanDated(s) && Enabled(maxAge, s, l)
    ensures Rotated(After(maxAge, s, l))
  {
  }

  lemma PushedIsAccepted(maxAge: nat, s: State, l: Label)
    requires Inv(maxAge, s) && GracePhase(s) && Enabled(maxAge, s, l) && (Succeeds(l) || Stores(l))
    ensures Accepted(maxAge, After(maxAge, s, l))
  {
    assert After(maxAge, s, l).stored == s.phase.plan.next;
  }

  lemma StepKeepsAccepted(maxAge: nat, s: State, l: Label)
    requires Inv(maxAge, s) && Accepted(maxAge, s) && Enabled(maxAge, s, l) && Keeps(s, l)
    requires !Succeeds(l) && !Stores(l)
    ensures Accepted(maxAge, After(maxAge, s, l))
  {
    var s' := After(maxAge, s, l);
    assert s'.stored == s.stored;
    forall e | e in s'.stored && Unexpired(maxAge, e, s'.now) ensures e.plain in s'.live {
      StepSparesUnexpired(maxAge, s, l, e);
    }
  }

  lemma StepKeepsGrace(maxAge: nat, s: State, l: Label, good: bool)
    requires Inv(maxAge, s) && GraceInv(maxAge, s, good) && Enabled(maxAge, s, l) && Keeps(s, l)
    ensures GraceInv(maxAge, After(maxAge, s, l), good || Succeeds(l))
  {
    StepKeepsPhase(maxAge, s, l);
    InvIsDated(maxAge, s);
    StepKeepsRotated(maxAge, s, l);
    if Succeeds(l) || Stores(l) {
      PushedIsAccepted(maxAge, s, l);
    } else if good {
      StepKeepsAccepted(maxAge, s, l);
    }
  }

  lemma {:induction false} EveryRunIsRotated(maxAge: nat, s: State, ls: seq<Label>)
    requires Init(s) && Legal(maxAge, s, ls)
    ensures Rotated(At(maxAge, s, ls))
  {
    if ls != [] {
      EveryRunIsRotated(maxAge, s, ls[..|ls| - 1]);
      EveryRunKeepsInv(maxAge, s, ls[..|ls| - 1]);
      InvIsDated(maxAge, At(maxAge, s, ls[..|ls| - 1]));
      StepKeepsRotated(maxAge, At(maxAge, s, ls[..|ls| - 1]), ls[|ls| - 1]);
    }
  }

  // After any past, even one in which the gateway lost its tokens, the guarantee is
  // restored by the first successful sync.
  lemma {:induction false} EveryRunKeepsGrace(maxAge: nat, s: State, pre: seq<Label>, ls: seq<Label>)
    requires Init(s) && Legal(maxAge, s, pre + ls) && Keeping(maxAge, s, pre + ls, |pre|)
    requires Legal(maxAge, s, pre) && At(maxAge, s, pre).phase.Idle?
    ensures GraceInv(maxAge, At(maxAge, s, pre + ls), Succeeded(ls))
  {
    if ls == [] {
      assert pre + ls == pre;
      EveryRunIsRotated(maxAge, s, pre);
    } else {
      var front, l := ls[..|ls| - 1], ls[|ls| - 1];
      assert pre + ls == (pre + front) + [l];
      LastStep(maxAge, s, pre + front, l);
      LastKeeps(maxAge, s, pre + front, l, |pre|);
      EveryRunKeepsGrace(maxAge, s, pre, front);
      EveryRunKeepsInv(maxAge, s, pre + front);
      StepKeepsGrace(maxAge, At(maxAge, s, pre + front), l, Succeeded(front));
      assert ls == front + [l];
    }
  }

  // A stored token the gateway accepts stays stored and accepted until it expires.
  lemma {:induction false} StaysAccepted(maxAge: nat, s: State, ls: seq<Label>, ms: seq<Label>, n: nat, e: Entry)
    requires Init(s) && Legal(maxAge, s, ls + ms) && Keeping(maxAge, s, ls + ms, n) && n <= |ls|
    requires Legal(maxAge, s, ls) && e in At(maxAge, s, ls).stored && e.plain in At(maxAge, s, ls).live
    requires Unexpired(maxAge, e, At(maxAge, s, ls + ms).now)
    ensures e in At(maxAge, s, ls + ms).stored && e.plain in At(maxAge, s, ls + ms).live
  {
    if ms == [] {
      assert ls + ms == ls;
    } else {
      var front, l := ms[..|ms| - 1], ms[|ms| - 1];
      assert ls + ms == (ls + front) + [l];
      LastStep(maxAge, s, ls + front, l);
      LastKeeps(maxAge, s, ls + front, l, n);
      StepTakesTime(maxAge, At(maxAge, s, ls + front), l);
      StaysAccepted(maxAge, s, ls, front, n, e);
      EveryRunKeepsInv(maxAge, s, ls + front);
      StepSparesUnexpired(maxAge, At(maxAge, s, ls + front), l, e);
    }
  }

  // The token a client gets at time t, when the latest successful sync decided at most g ago,
  // is accepted at t and until t + maxAge - 24h - g at least.  The run up to `pre` is any
  // past; the gateway has to keep its tokens only from an idle instant before that sync on.
  lemma GracePeriod(maxAge: nat, s: State, pre: seq<Label>, ls: seq<Label>, ms: seq<Label>, g: int)
    requires Init(s) && Legal(maxAge, s, pre + ls + ms) && Keeping(maxAge, s, pre + ls + ms, |pre|)
    requires Legal(maxAge, s, pre) && At(maxAge, s, pre).phase.Idle?
    requires Legal(maxAge, s, pre + ls) && Succeeded(ls) && At(maxAge, s, pre + ls).lastGood.Some?
    requires At(maxAge, s, pre + ls).now - At(maxAge, s, pre + ls).lastGood.value <= g <= maxAge - DAY
    ensures At(maxAge, s, pre + ls).stored != []
    ensures var t := At(maxAge, s, pre + ls);
            var served := t.stored[|t.stored| - 1].plain;
            && served in t.live
            && (At(maxAge, s, pre + ls + ms).now <= t.now + maxAge - DAY - g ==>
                  served in At(maxAge, s, pre + ls + ms).live)
  {
    PrefixIsKeeping(maxAge, s, pre + ls, ms, |pre|);
    EveryRunKeepsGrace(maxAge, s, pre, ls);
    var t := At(maxAge, s, pre + ls);
    var served := t.stored[|t.stored| - 1];
    assert served.plain in t.live;
    if At(maxAge, s, pre + ls + ms).now <= t.now + maxAge - DAY - g {
      StaysAccepted(maxAge, s, pre + ls, ms, |pre|, served);
    }
  }

  // ------------------------------------------------------------------
  // Convergence and self-healing
  // ------------------------------------------------------------------

  // Set effect of a whole plan, exactly: the gateway ends with the kept tokens
  // unless it lists a token which is stored both expired and unexpired.
  lemma PlanConvergesIff(ts: seq<Entry>, listed: set<string>, cutoff: int, rogue: seq<string>)
    requires Elems(rogue) == listed - Plains(ts)
    ensures listed + Elems(Missing(ts, cutoff, listed)) - Elems(Lapsed(ts, cutoff, listed) + rogue)
              == Plains(Kept(ts, cutoff))
            <==> forall e, f :: e in ts && f in ts && e.createdAt < cutoff <= f.createdAt && e.plain == f.plain
                                ==> e.plain !in listed
  {
    var adds, removes := Elems(Missing(ts, cutoff, listed)), Elems(Lapsed(ts, cutoff, listed) + rogue);
    var kept := Plains(Kept(ts, cutoff));
    forall x ensures x in adds <==> x in kept && x !in listed {
      MissingMembers(ts, cutoff, listed, x);
      KeptPlains(ts, cutoff, x);
    }
    forall x
      ensures x in removes <==>
              x in listed && (x !in Plains(ts) || exists e :: e in ts && e.createdAt < cutoff && e.plain == x)
    {
      LapsedMembers(ts, cutoff, listed, x);
      assert x in rogue <==> x in Elems(rogue);
    }
    forall x ensures x in kept <==> exists e :: e in ts && cutoff <= e.createdAt && e.plain == x {
      KeptPlains(ts, cutoff, x);
    }
    if listed + adds - removes == kept {
      forall e, f | e in ts && f in ts && e.createdAt < cutoff <= f.createdAt && e.plain == f.plain
        ensures e.plain !in listed
      {
        assert e.plain in kept;
      }
    }
  }

  lemma KeptPlains(ts: seq<Entry>, cutoff: int, x: string)
    ensures x in Plains(Kept(ts, cutoff)) <==> exists e :: e in ts && cutoff <= e.createdAt && e.plain == x
  {
    forall e ensures e in Kept(ts, cutoff) <==> e in ts && cutoff <= e.createdAt {
      KeptMembers(ts, cutoff, e);
    }
  }

  ghost predicate AllCalm(ms: seq<Label>) {
    forall l :: l in ms ==> Calm(l)
  }

  // Every remote call does what it reports, and nobody else touches the gateway.
  ghost predicate Calm(l: Label) {
    match l
    case Tick(_) => true
    case List => true
    case Decide(_, _) => true
    case Mint(_, _, reply) => reply == Done
    case PushAdd(reply) => reply == Done
    case PushRemove(reply) => reply == Done
    case Save(reply) => reply == Done
    case Finish => true
    case Abandon => false
    case DropStored(_) => false
    case Outside(_) => false
  }

  ghost predicate Heading(maxAge: nat, live: set<string>, p: Plan, since: int) {
    && live + Elems(p.adds) - Elems(p.removes) == Plains(p.next)
    && since - maxAge <= p.cutoff
  }

  // How far an undisturbed sync that began at `since` has brought the gateway.
  ghost predicate Converging(maxAge: nat, s: State, since: int) {
    match s.phase
    case Idle =>
      s.stored != [] && s.live == Plains(s.stored) && forall e :: e in s.stored ==> Unexpired(maxAge, e, since)
    case Listed(listed, at) => s.live == listed && since <= at
    case Minting(p) => Heading(maxAge, s.live, p, since)
    case Pushing(p) => Heading(maxAge, s.live, p, since)
  }

  lemma PlannedIsHeading(maxAge: nat, ts: seq<Entry>, live: set<string>, cutAt: int, now: int, rogue: seq<string>,
                         since: int)
    requires Distinct(ts) && Elems(rogue) == live - Plains(ts) && since <= cutAt
    ensures Heading(maxAge, live, Planned(ts, live, cutAt - maxAge, now, rogue), since)
  {
    PlanConvergesIff(ts, live, cutAt - maxAge, rogue);
  }

  lemma DecideConverges(maxAge: nat, s: State, l: Label, since: int)
    requires Distinct(s.stored) && l.Decide? && Enabled(maxAge, s, l) && Converging(maxAge, s, since)
    ensures Converging(maxAge, After(maxAge, s, l), since)
  {
    PlannedIsHeading(maxAge, s.stored, s.live, l.cutAt, s.now, l.rogue, since);
  }

  lemma MintConverges(maxAge: nat, s: State, l: Label, since: int)
    requires Inv(maxAge, s) && l.Mint? && l.reply == Done && Enabled(maxAge, s, l) && Converging(maxAge, s, since)
    ensures Converging(maxAge, After(maxAge, s, l), since)
  {
    var p, e := s.phase.plan, Entry(l.minted, l.stamp);
    assert Plains(p.next + [e]) == Plains(p.next) + {e.plain};
    assert e.plain !in Elems(p.removes);
  }

  lemma PushConverges(maxAge: nat, s: State, l: Label, since: int)
    requires l == PushAdd(Done) || l == PushRemove(Done)
    requires Enabled(maxAge, s, l) && Converging(maxAge, s, since)
    ensures Converging(maxAge, After(maxAge, s, l), since)
  {
    var p := s.phase.plan;
    if l.PushAdd? {
      assert p.adds == [p.adds[0]] + p.adds[1..];
      assert Elems(p.adds) == {p.adds[0]} + Elems(p.adds[1..]);
    } else {
      assert p.removes == [p.removes[0]] + p.removes[1..];
      assert Elems(p.removes) == {p.removes[0]} + Elems(p.removes[1..]);
    }
  }

  lemma HeadingSettles(maxAge: nat, live: set<string>, p: Plan, since: int)
    requires Heading(maxAge, live, p, since) && p.adds == [] && p.removes == []
    requires Kept(p.next, p.cutoff) == p.next
    ensures live == Plains(p.next)
    ensures forall e :: e in p.next ==> Unexpired(maxAge, e, since)
  {
    assert Elems(p.adds) == {} && Elems(p.removes) == {};
    KeptWhole(p.next, p.cutoff);
  }

  lemma SettleConverges(maxAge: nat, s: State, l: Label, since: int)
    requires Inv(maxAge, s) && Succeeds(l)
    requires Enabled(maxAge, s, l) && Converging(maxAge, s, since)
    ensures Converging(maxAge, After(maxAge, s, l), since)
  {
    var p := s.phase.plan;
    HeadingSettles(maxAge, s.live, p, since);
    assert After(maxAge, s, l).stored == p.next;
    assert After(maxAge, s, l).live == s.live;
  }

  lemma StepConverges(maxAge: nat, s: State, l: Label, since: int)
    requires Inv(maxAge, s) && Enabled(maxAge, s, l) && Calm(l) && Converging(maxAge, s, since)
    requires since <= s.now
    ensures Converging(maxAge, After(maxAge, s, l), since)
  {
    if l.Decide? {
      DecideConverges(maxAge, s, l, since);
    } else if l.Mint? {
      MintConverges(maxAge, s, l, since);
    } else if l.PushAdd? || l.PushRemove? {
      PushConverges(maxAge, s, l, since);
    } else if l.Save? || l.Finish? {
      SettleConverges(maxAge, s, l, since);
    }
  }

  // Whatever the gateway held before: once a sync has listed it, undisturbed steps lead to agreement.
  lemma {:induction false} OneSyncConverges(maxAge: nat, s: State, ls: seq<Label>, ms: seq<Label>)
    requires Init(s) && Legal(maxAge, s, ls + [List] + ms) && Legal(maxAge, s, ls)
    requires AllCalm(ms)
    ensures Converging(maxAge, At(maxAge, s, ls + [List] + ms), At(maxAge, s, ls).now)
    ensures At(maxAge, s, ls).now <= At(maxAge, s, ls + [List] + ms).now
  {
    if ms == [] {
      assert ls + [List] + ms == ls + [List];
      LastStep(maxAge, s, ls, List);
    } else {
      var front, l := ms[..|ms| - 1], ms[|ms| - 1];
      assert ls + [List] + ms == (ls + [List] + front) + [l];
      LastStep(maxAge, s, ls + [List] + front, l);
      OneSyncConverges(maxAge, s, ls, front);
      EveryRunKeepsInv(maxAge, s, ls + [List] + front);
      StepConverges(maxAge, At(maxAge, s, ls + [List] + front), l, At(maxAge, s, ls).now);
    }
  }

  // From any gateway set, one undisturbed sync leaves the gateway with exactly the
  // stored tokens, at least one, none of which had expired when the sync began.
  lemma SelfHealing(maxAge: nat, s: State, ls: seq<Label>, ms: seq<Label>)
    requires Init(s) && Legal(maxAge, s, ls + [List] + ms) && Legal(maxAge, s, ls)
    requires AllCalm(ms)
    requires At(maxAge, s, ls + [List] + ms).phase.Idle?
    ensures At(maxAge, s, ls + [List] + ms).live == Plains(At(maxAge, s, ls + [List] + ms).stored)
    ensures At(maxAge, s, ls + [List] + ms).stored != []
    ensures forall e :: e in At(maxAge, s, ls + [List] + ms).stored ==> Unexpired(maxAge, e, At(maxAge, s, ls).now)
  {
    OneSyncConverges(maxAge, s, ls, ms);
  }

  // ------------------------------------------------------------------
  // Fixpoint
  // ------------------------------------------------------------------

  ghost predicate AllSince(ts: seq<Entry>, cutoff: int) {
    forall e :: e in ts ==> cutoff <= e.createdAt
  }

  ghost predicate NothingPlanned(p: Plan, due: bool) {
    !due && p.adds == [] && p.removes == [] && !p.changed
  }

  // A sync has nothing to call and nothing to save exactly when the gateway lists the
  // stored tokens, none has expired, and the newest is at most a day old.
  lemma NothingToDoIff(ts: seq<Entry>, listed: set<string>, cutoff: int, now: int, rogue: seq<string>)
    requires Distinct(ts) && Elems(rogue) == listed - Plains(ts)
    ensures NothingPlanned(Planned(ts, listed, cutoff, now, rogue), MintDue(ts, cutoff, now))
            <==>
            ts != [] && listed == Plains(ts) && AllSince(ts, cutoff) && now - DAY <= ts[|ts| - 1].createdAt
  {
    KeptWhole(ts, cutoff);
    var p := Planned(ts, listed, cutoff, now, rogue);
    PlanConvergesIff(ts, listed, cutoff, rogue);
    if listed == Plains(ts) && AllSince(ts, cutoff) {
      if p.adds != [] {
        MissingMembers(ts, cutoff, listed, p.adds[0]);
      }
      forall x ensures x !in p.removes {
        LapsedMembers(ts, cutoff, listed, x);
        assert x in rogue ==> x in Elems(rogue);
      }
      ElemsEmpty(p.removes);
    }
  }

  // No token has expired and the newest is at most a day old.
  ghost predicate UpToDate(maxAge: nat, ts: seq<Entry>, now: int) {
    && ts != []
    && (forall e :: e in ts ==> Unexpired(maxAge, e, now))
    && now - DAY <= ts[|ts| - 1].createdAt
  }

  // Labels of a sync that neither calls the gateway nor saves.
  ghost predicate Quiet(l: Label) {
    l.Tick? || l.List? || l.Decide? || l.Finish?
  }

  ghost predicate AllQuiet(ms: seq<Label>) {
    forall l :: l in ms ==> Quiet(l)
  }

  lemma QuietSnoc(ms: seq<Label>, l: Label)
    requires AllQuiet(ms) && Quiet(l)
    ensures AllQuiet(ms + [l])
  {
  }

  // Both stores hold the tokens of ts, and no sync under way is going to change that.
  ghost predicate Settled(s: State, ts: seq<Entry>) {
    && s.stored == ts && s.live == Plains(ts)
    && match s.phase
       case Idle => true
       case Listed(listed, _) => listed == Plains(ts)
       case Minting(_) => false
       case Pushing(p) => p.adds == [] && p.removes == [] && !p.changed
  }

  lemma UpToDateBefore(maxAge: nat, ts: seq<Entry>, now: int, later: int)
    requires UpToDate(maxAge, ts, later) && now <= later
    ensures UpToDate(maxAge, ts, now)
  {
  }

  lemma StepTakesTime(maxAge: nat, s: State, l: Label)
    requires Enabled(maxAge, s, l)
    ensures s.now <= After(maxAge, s, l).now
  {
  }

  lemma NothingToDecide(maxAge: nat, ts: seq<Entry>, listed: set<string>, cutAt: int, now: int, rogue: seq<string>)
    requires Distinct(ts) && listed == Plains(ts) && UpToDate(maxAge, ts, now) && cutAt <= now
    requires Elems(rogue) == listed - Plains(ts)
    ensures NothingPlanned(Planned(ts, listed, cutAt - maxAge, now, rogue), MintDue(ts, cutAt - maxAge, now))
  {
    forall e | e in ts ensures cutAt - maxAge <= e.createdAt {
      assert Unexpired(maxAge, e, now);
    }
    NothingToDoIff(ts, listed, cutAt - maxAge, now, rogue);
  }

  lemma DecideStaysSettled(maxAge: nat, s: State, l: Label, ts: seq<Entry>)
    requires Distinct(ts) && Settled(s, ts) && UpToDate(maxAge, ts, s.now)
    requires l.Decide? && Enabled(maxAge, s, l)
    ensures Settled(After(maxAge, s, l), ts)
  {
    NothingToDecide(maxAge, ts, s.phase.listed, l.cutAt, s.now, l.rogue);
  }

  lemma OtherStaysSettled(maxAge: nat, s: State, l: Label, ts: seq<Entry>)
    requires Settled(s, ts) && !l.Decide? && Enabled(maxAge, s, l) && Calm(l)
    ensures Settled(After(maxAge, s, l), ts) && Quiet(l)
  {
  }

  lemma StepLeavesAlone(maxAge: nat, s: State, l: Label, ts: seq<Entry>, now: int)
    requires Inv(maxAge, s) && Settled(s, ts) && UpToDate(maxAge, ts, now) && s.now <= now
    requires Enabled(maxAge, s, l) && Calm(l)
    ensures Settled(After(maxAge, s, l), ts) && Quiet(l)
  {
    if l.Decide? {
      UpToDateBefore(maxAge, ts, s.now, now);
      DecideStaysSettled(maxAge, s, l, ts);
    } else {
      OtherStaysSettled(maxAge, s, l, ts);
    }
  }

  lemma CalmFront(ms: seq<Label>)
    requires AllCalm(ms) && ms != []
    ensures AllCalm(ms[..|ms| - 1]) && Calm(ms[|ms| - 1])
  {
  }

  // As long as no stored token expires or comes of age, settled stores stay untouched, sync after sync.
  lemma {:induction false} SettledRunsDoNothing(maxAge: nat, s: State, ls: seq<Label>, ks: seq<Label>, ts: seq<Entry>,
                                                now: int)
    requires Init(s) && Legal(maxAge, s, ls + ks) && Legal(maxAge, s, ls) && AllCalm(ks)
    requires Settled(At(maxAge, s, ls), ts) && UpToDate(maxAge, ts, now) && At(maxAge, s, ls + ks).now <= now
    ensures Settled(At(maxAge, s, ls + ks), ts) && AllQuiet(ks)
  {
    if ks == [] {
      assert ls + ks == ls;
    } else {
      var front, l := ks[..|ks| - 1], ks[|ks| - 1];
      assert ls + ks == (ls + front) + [l] && ks == front + [l];
      LastStep(maxAge, s, ls + front, l);
      CalmFront(ks);
      var t := At(maxAge, s, ls + front);
      StepTakesTime(maxAge, t, l);
      SettledRunsDoNothing(maxAge, s, ls, front, ts, now);
      EveryRunKeepsInv(maxAge, s, ls + front);
      StepLeavesAlone(maxAge, t, l, ts, now);
      QuietSnoc(front, l);
    }
  }

  // Whatever the gateway held: after one undisturbed sync, further undisturbed ones add, remove
  // and save nothing until a stored token expires or the newest is over a day old.
  lemma SecondSyncDoesNothing(maxAge: nat, s: State, ls: seq<Label>, ms: seq<Label>, ks: seq<Label>)
    requires Init(s) && Legal(maxAge, s, ls + [List] + ms + ks)
    requires Legal(maxAge, s, ls) && Legal(maxAge, s, ls + [List] + ms)
    requires AllCalm(ms) && AllCalm(ks)
    requires At(maxAge, s, ls + [List] + ms).phase.Idle?
    requires UpToDate(maxAge, At(maxAge, s, ls + [List] + ms).stored, At(maxAge, s, ls + [List] + ms + ks).now)
    ensures At(maxAge, s, ls + [List] + ms + ks).stored == At(maxAge, s, ls + [List] + ms).stored
    ensures At(maxAge, s, ls + [List] + ms + ks).live == At(maxAge, s, ls + [List] + ms).live
    ensures AllQuiet(ks)
  {
    SelfHealing(maxAge, s, ls, ms);
    SettledRunsDoNothing(maxAge, s, ls + [List] + ms, ks, At(maxAge, s, ls + [List] + ms).stored,
                         At(maxAge, s, ls + [List] + ms + ks).now);
  }

  // ------------------------------------------------------------------
  // Length of the stored list
  // ------------------------------------------------------------------

  // Room for n tokens over a day apart within `span`.
  ghost predicate Fits(n: nat, span: int) {
    n > 1 ==> (n - 1) * DAY < span
  }

  lemma PlannedListFits(maxAge: nat, ts: seq<Entry>, now: int, p: Plan)
    requires PushingFits(maxAge, ts, now, p)
    ensures Fits(|p.next|, now - p.cutoff)
  {
    SpacedSpan(p.next);
    KeptWhole(p.next, p.cutoff);
    assert p.next[0] in p.next && p.next[|p.next| - 1] in p.next;
  }

  lemma PushedIsPlanned(maxAge: nat, s: State, l: Label)
    requires PlanDated(s) && Enabled(maxAge, s, l) && (Succeeds(l) || Stores(l))
    ensures s.phase.Pushing? && After(maxAge, s, l).stored == s.phase.plan.next
  {
  }

  lemma PushedFits(maxAge: nat, s: State, l: Label)
    requires Inv(maxAge, s) && Enabled(maxAge, s, l) && (Succeeds(l) || Stores(l))
    ensures Fits(|After(maxAge, s, l).stored|, s.now - s.phase.plan.cutoff)
  {
    InvIsDated(maxAge, s);
    PushedIsPlanned(maxAge, s, l);
    PlannedListFits(maxAge, s.stored, s.now, s.phase.plan);
  }

  lemma OtherStepKeepsFit(maxAge: nat, s: State, l: Label, span: int)
    requires Enabled(maxAge, s, l) && !Succeeds(l) && !Stores(l) && Fits(|s.stored|, span)
    ensures Fits(|After(maxAge, s, l).stored|, span)
  {
    assert After(maxAge, s, l).stored == s.stored || After(maxAge, s, l).stored == [];
  }

  // Every sync of the run which saves or ends well does so at most `lag` after it read the expiry cutoff.
  ghost predicate Prompt(maxAge: nat, s: State, ls: seq<Label>, lag: nat)
    requires Legal(maxAge, s, ls)
  {
    ls == [] ||
    (Prompt(maxAge, s, ls[..|ls| - 1], lag) &&
     (Succeeds(ls[|ls| - 1]) || Stores(ls[|ls| - 1]) ==>
        var t := At(maxAge, s, ls[..|ls| - 1]);
        t.now - maxAge - t.phase.plan.cutoff <= lag))
  }

  // A list that was too long is short after the first successful sync.
  lemma {:induction false} ListStaysShort(maxAge: nat, s: State, ls: seq<Label>, lag: nat)
    requires Init(s) && Legal(maxAge, s, ls) && Prompt(maxAge, s, ls, lag)
    requires Fits(|s.stored|, maxAge + lag) || Succeeded(ls)
    ensures Fits(|At(maxAge, s, ls).stored|, maxAge + lag)
  {
    if ls != [] {
      var front, l := ls[..|ls| - 1], ls[|ls| - 1];
      assert ls == front + [l];
      EveryRunKeepsInv(maxAge, s, front);
      if Succeeds(l) || Stores(l) {
        PushedFits(maxAge, At(maxAge, s, front), l);
      } else {
        ListStaysShort(maxAge, s, front, lag);
        OtherStepKeepsFit(maxAge, At(maxAge, s, front), l, maxAge + lag);
      }
    }
  }

  // The deployed age of three days, in nanoseconds.
  const THREE_DAYS: nat := 259_200_000_000_000

  // With the deployed age: at most three tokens when a sync takes no time, at most four as
  // long as it takes no more than a day, whatever the first list was.
  lemma DeployedListIsShort(s: State, ls: seq<Label>, lag: nat)
    requires Init(s) && Legal(THREE_DAYS, s, ls) && Prompt(THREE_DAYS, s, ls, lag)
    requires |s.stored| <= 3 || Succeeded(ls)
    ensures lag == 0 ==> |At(THREE_DAYS, s, ls).stored| <= 3
    ensures lag <= 86_400_000_000_000 ==> |At(THREE_DAYS, s, ls).stored| <= 4
  {
    ListStaysShort(THREE_DAYS, s, ls, lag);
  }

  // With the deployed age: a token handed out right after a sync decided is good for two days more.
  lemma DeployedGracePeriod(s: State, pre: seq<Label>, ls: seq<Label>, ms: seq<Label>)
    requires Init(s) && Legal(THREE_DAYS, s, pre + ls + ms) && Keeping(THREE_DAYS, s, pre + ls + ms, |pre|)
    requires Legal(THREE_DAYS, s, pre) && At(THREE_DAYS, s, pre).phase.Idle?
    requires Legal(THREE_DAYS, s, pre + ls) && Succeeded(ls)
    requires At(THREE_DAYS, s, pre + ls).lastGood == Some(At(THREE_DAYS, s, pre + ls).now)
    ensures At(THREE_DAYS, s, pre + ls).stored != []
    ensures var t := At(THREE_DAYS, s, pre + ls);
            At(THREE_DAYS, s, pre + ls + ms).now <= t.now + 172_800_000_000_000 ==>
              t.stored[|t.stored| - 1].plain in At(THREE_DAYS, s, pre + ls + ms).live
  {
    GracePeriod(THREE_DAYS, s, pre, ls, ms, 0);
  }
}
