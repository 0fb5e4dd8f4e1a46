/**
  A run showing that the grace period of a served token cannot be promised to
  last any longer.
*/
module TokenWitness {
  import opened TokenGuarantees
  import opened TokenLists
  import opened TokenMachine
  import opened Wrappers

  lemma Grow(maxAge: nat, s: State, ls: seq<Label>, t: State, l: Label, u: State)
    requires Legal(maxAge, s, ls) && At(maxAge, s, ls) == t && Keeping(maxAge, s, ls, 0)
    requires Enabled(maxAge, t, l) && Keeps(t, l) && After(maxAge, t, l) == u
    ensures Legal(maxAge, s, ls + [l]) && At(maxAge, s, ls + [l]) == u && Keeping(maxAge, s, ls + [l], 0)
  {
    assert (ls + [l])[..|ls + [l]| - 1] == ls;
  }

  // The run reaches the state with the gateway keeping its tokens.
  ghost predicate Reaches(maxAge: nat, ls: seq<Label>, t: State) {
    Legal(maxAge, START, ls) && At(maxAge, START, ls) == t && Keeping(maxAge, START, ls, 0)
  }

  const START := State(0, [], {}, Idle, None)
  const A := Entry("a", 0)

  function FirstDay(): seq<Label> {
    [List] + [Decide(0, [])] + [Mint("a", 0, Done)] + [Save(Done)]
  }

  function SecondDay(): seq<Label> {
    FirstDay() + [Tick(DAY as nat)] + [List] + [Decide(DAY, [])] + [Finish]
  }

  function Expiry(maxAge: nat): seq<Label>
    requires DAY <= maxAge
  {
    [Tick(maxAge + 1 - DAY), List, Decide(maxAge + 1, []), Mint("b", maxAge + 1, Done), PushRemove(Done)]
  }

  lemma FirstDecision(maxAge: nat)
    ensures var p := Plan({}, 0 - maxAge, 0, [], [], [], false);
            var s := START.(phase := Listed({}, 0));
            Enabled(maxAge, s, Decide(0, [])) && After(maxAge, s, Decide(0, [])) == START.(phase := Minting(p))
  {
    var none: seq<Entry> := [];
    var noName: seq<string> := [];
    assert Kept(none, 0 - maxAge) == [] && MintDue(none, 0 - maxAge, 0);
    assert Missing(none, 0 - maxAge, {}) == [] && Lapsed(none, 0 - maxAge, {}) + noName == [];
    assert Plains(none) == {} && Elems(noName) == {};
  }

  // A token is minted and stored at instant zero.
  lemma RunFirstDay(maxAge: nat)
    ensures Reaches(maxAge, FirstDay(), State(0, [A], {"a"}, Idle, Some(0)))
  {
    var p := Plan({}, 0 - maxAge, 0, [], [], [], false);
    var s1, s2 := START.(phase := Listed({}, 0)), START.(phase := Minting(p));
    var s3 := State(0, [], {"a"}, Pushing(p.(next := [A], changed := true)), None);
    Grow(maxAge, START, [], START, List, s1);
    assert [] + [List] == [List];
    FirstDecision(maxAge);
    Grow(maxAge, START, [List], s1, Decide(0, []), s2);
    assert {} + {"a"} == {"a"} && [] + [A] == [A];
    assert After(maxAge, s2, Mint("a", 0, Done)).phase == s3.phase;
    Grow(maxAge, START, [List] + [Decide(0, [])], s2, Mint("a", 0, Done), s3);
    Grow(maxAge, START, [List] + [Decide(0, [])] + [Mint("a", 0, Done)], s3, Save(Done),
         State(0, [A], {"a"}, Idle, Some(0)));
  }

  lemma SplitOfOne(cutoff: int)
    ensures Kept([A], cutoff) == if 0 < cutoff then [] else [A]
    ensures Missing([A], cutoff, {"a"}) == []
    ensures Lapsed([A], cutoff, {"a"}) == if 0 < cutoff then ["a"] else []
    ensures Plains([A]) == {"a"}
  {
    assert [A][..0] == [];
    assert Kept([], cutoff) == [] && Missing([], cutoff, {"a"}) == [] && Lapsed([], cutoff, {"a"}) == [];
  }

  // The decision on the one stored token, which the gateway has.
  lemma DecisionOnOne(maxAge: nat, now: int, g: Option<int>)
    ensures var s := State(now, [A], {"a"}, Listed({"a"}, now), g);
            var old' := 0 < now - maxAge;
            var p := Plan({"a"}, now - maxAge, now, [], if old' then ["a"] else [], if old' then [] else [A], old');
            && Enabled(maxAge, s, Decide(now, []))
            && After(maxAge, s, Decide(now, [])) == s.(phase := if old' || DAY < now then Minting(p) else Pushing(p))
  {
    SplitOfOne(now - maxAge);
    assert Planned([A], {"a"}, now - maxAge, now, []).removes == Lapsed([A], now - maxAge, {"a"});
  }

  // A sync just a day later still finds it recent enough.
  lemma RunSecondDay(maxAge: nat)
    requires DAY <= maxAge
    ensures Reaches(maxAge, SecondDay(), State(DAY, [A], {"a"}, Idle, Some(DAY)))
  {
    RunFirstDay(maxAge);
    var l1 := FirstDay() + [Tick(DAY as nat)];
    var t := State(DAY, [A], {"a"}, Idle, Some(0));
    var u := t.(phase := Listed({"a"}, DAY));
    Grow(maxAge, START, FirstDay(), State(0, [A], {"a"}, Idle, Some(0)), Tick(DAY as nat), t);
    Grow(maxAge, START, l1, t, List, u);
    DecisionOnOne(maxAge, DAY, Some(0));
    FinishSecondDay(maxAge, l1 + [List], u, t);
  }

  lemma FinishSecondDay(maxAge: nat, ls: seq<Label>, u: State, t: State)
    requires DAY <= maxAge && Reaches(maxAge, ls, u)
    requires t == State(DAY, [A], {"a"}, Idle, Some(0)) && u == t.(phase := Listed({"a"}, DAY))
    ensures Reaches(maxAge, ls + [Decide(DAY, [])] + [Finish], t.(lastGood := Some(DAY)))
  {
    DecisionOnOne(maxAge, DAY, Some(0));
    var p := Plan({"a"}, DAY - maxAge, DAY, [], [], [A], false);
    Grow(maxAge, START, ls, u, Decide(DAY, []), t.(phase := Pushing(p)));
    Grow(maxAge, START, ls + [Decide(DAY, [])], t.(phase := Pushing(p)), Finish, t.(lastGood := Some(DAY)));
  }

  lemma RunExpiry(maxAge: nat, ls: seq<Label>, u: State)
    requires Reaches(maxAge, ls, u) && u == State(maxAge + 1, [A], {"a"}, Listed({"a"}, maxAge + 1), Some(DAY))
    ensures var ms := ls + [Decide(maxAge + 1, [])] + [Mint("b", maxAge + 1, Done)] + [PushRemove(Done)];
            && Legal(maxAge, START, ms) && Keeping(maxAge, START, ms, 0)
            && At(maxAge, START, ms).now == maxAge + 1
            && A.plain !in At(maxAge, START, ms).live
  {
    DecisionOnOne(maxAge, maxAge + 1, Some(DAY));
    var p := Plan({"a"}, 1, maxAge + 1, [], ["a"], [], true);
    var mint := Mint("b", maxAge + 1, Done);
    var l1 := ls + [Decide(maxAge + 1, [])];
    Grow(maxAge, START, ls, u, Decide(maxAge + 1, []), u.(phase := Minting(p)));
    SplitOfOne(1);
    var v := After(maxAge, u.(phase := Minting(p)), mint);
    Grow(maxAge, START, l1, u.(phase := Minting(p)), mint, v);
    Grow(maxAge, START, l1 + [mint], v, PushRemove(Done), After(maxAge, v, PushRemove(Done)));
  }

  lemma RunToExpiry(maxAge: nat)
    requires DAY <= maxAge
    ensures Reaches(maxAge, SecondDay() + [Tick(maxAge + 1 - DAY)] + [List],
                    State(maxAge + 1, [A], {"a"}, Listed({"a"}, maxAge + 1), Some(DAY)))
  {
    RunSecondDay(maxAge);
    var ls, d := SecondDay(), maxAge + 1 - DAY;
    var t := State(maxAge + 1, [A], {"a"}, Idle, Some(DAY));
    Grow(maxAge, START, ls, State(DAY, [A], {"a"}, Idle, Some(DAY)), Tick(d), t);
    Grow(maxAge, START, ls + [Tick(d)], t, List, t.(phase := Listed({"a"}, maxAge + 1)));
  }

  lemma ExpiryInSteps(maxAge: nat, ls: seq<Label>)
    requires DAY <= maxAge
    ensures ls + Expiry(maxAge) ==
            ls + [Tick(maxAge + 1 - DAY)] + [List] + [Decide(maxAge + 1, [])]
            + [Mint("b", maxAge + 1, Done)] + [PushRemove(Done)]
  {
  }

  // A client gets the token right after that sync; one instant after its grace period the token is gone.
  lemma GraceIsTight(maxAge: nat)
    requires DAY <= maxAge
    ensures Init(START) && Succeeded(SecondDay())
    ensures Reaches(maxAge, SecondDay(), State(DAY, [A], {"a"}, Idle, Some(DAY)))
    ensures var ls := SecondDay() + Expiry(maxAge);
            && Legal(maxAge, START, ls) && Keeping(maxAge, START, ls, 0)
            && At(maxAge, START, ls).now == DAY + (maxAge - DAY) + 1
            && A.plain !in At(maxAge, START, ls).live
  {
    RunSecondDay(maxAge);
    RunToExpiry(maxAge);
    RunExpiry(maxAge, SecondDay() + [Tick(maxAge + 1 - DAY)] + [List],
              State(maxAge + 1, [A], {"a"}, Listed({"a"}, maxAge + 1), Some(DAY)));
    ExpiryInSteps(maxAge, SecondDay());
    assert Finish in SecondDay() && Succeeds(Finish);
  }
}
