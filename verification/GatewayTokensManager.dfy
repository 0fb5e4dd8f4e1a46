/**
  Synchronization of gateway tokens, call by call as the service performs it.
*/
module GatewayTokensManager {
  import opened TokenLists
  import opened TokenMachine
  import opened TokenGuarantees
  import opened GatewayRows
  import opened Gateways
  import opened Wrappers

  datatype SyncError =
    | PropertiesFailed(e: PropertiesError)
    | ListTokensFailed
    | DecryptFailed
    | CreateTokenFailed
    | UpdateFailed

  // A stand-in for the random identifier generator: only freshness is used.
  method GenerateUID(avoid: set<string>) returns (uid: string)
    ensures uid !in avoid
  {
    var rest, n := avoid, 0;
    while rest != {}
      invariant 0 <= n && rest <= avoid
      invariant forall x :: x in avoid - rest ==> |x| < n
      decreases rest
    {
      var x :| x in rest;
      rest := rest - {x};
      n := if n <= |x| then |x| + 1 else n;
    }
    uid := seq(n, _ => 'a');
    assert avoid - rest == avoid;
  }

  // What a partition of the list consists of, in terms of the machine.
  ghost predicate Parted(list: seq<SealedToken>, cutoff: int, listed: set<string>, adds: seq<string>,
                         lapsed: seq<string>, next: seq<SealedToken>, known: set<string>, expired: bool)
  {
    && Decryptable(list) && Decryptable(next) && next == Unlapsed(list, cutoff)
    && adds == Missing(Opened(list), cutoff, listed)
    && lapsed == Lapsed(Opened(list), cutoff, listed)
    && known == Plains(Opened(list))
    && (expired <==> |next| < |list|)
  }

  datatype Parts = Parts(adds: seq<string>, lapsed: seq<string>, next: seq<SealedToken>, known: set<string>,
                         expired: bool)

  // The parts with one more token.
  ghost function Place(p: Parts, t: SealedToken, cutoff: int, listed: set<string>): Parts
    requires t.cipher.Sealed?
  {
    var old', plain := t.createdAt < cutoff, t.cipher.plain;
    Parts(if old' || plain in listed then p.adds else p.adds + [plain],
          if old' && plain in listed then p.lapsed + [plain] else p.lapsed,
          if old' then p.next else p.next + [t],
          p.known + {plain},
          p.expired || old')
  }

  // Token after token.
  ghost function Placed(list: seq<SealedToken>, cutoff: int, listed: set<string>): Parts
    requires Decryptable(list)
  {
    if list == [] then Parts([], [], [], {}, false)
    else Place(Placed(list[..|list| - 1], cutoff, listed), list[|list| - 1], cutoff, listed)
  }

  lemma {:induction false} PlacedIsParted(list: seq<SealedToken>, cutoff: int, listed: set<string>)
    requires Decryptable(list)
    ensures var p := Placed(list, cutoff, listed);
            Parted(list, cutoff, listed, p.adds, p.lapsed, p.next, p.known, p.expired)
  {
    if list != [] {
      var front, t := list[..|list| - 1], list[|list| - 1];
      PlacedIsParted(front, cutoff, listed);
      SplitSnoc(Opened(front), Entry(t.cipher.plain, t.createdAt), cutoff, listed);
      UnlapsedIsKept(front, cutoff);
    }
  }

  lemma PlacedSnoc(list: seq<SealedToken>, t: SealedToken, cutoff: int, listed: set<string>)
    requires Decryptable(list) && t.cipher.Sealed?
    ensures Decryptable(list + [t])
    ensures Placed(list + [t], cutoff, listed) == Place(Placed(list, cutoff, listed), t, cutoff, listed)
  {
    assert (list + [t])[..|list + [t]| - 1] == list;
  }

  // Splits the stored list by age; gives up on the first token it cannot decrypt.
  method Partition(list: seq<SealedToken>, cutoff: int, listed: set<string>)
    returns (ok: bool, adds: seq<string>, lapsed: seq<string>, next: seq<SealedToken>, known: set<string>,
             expired: bool)
    ensures ok <==> Decryptable(list)
    ensures ok ==> Parted(list, cutoff, listed, adds, lapsed, next, known, expired)
  {
    ok, adds, lapsed, next, known, expired := true, [], [], [], {}, false;
    for i := 0 to |list|
      invariant ok && Decryptable(list[..i])
      invariant Placed(list[..i], cutoff, listed) == Parts(adds, lapsed, next, known, expired)
    {
      var token := list[i];
      var plain := Decrypt(token);
      if plain.None? {
        ok := false;
        return;
      }
      assert list[..i + 1] == list[..i] + [token];
      PlacedSnoc(list[..i], token, cutoff, listed);
      known := known + {plain.value};
      if token.createdAt < cutoff {
        expired := true;
        if plain.value in listed {
          lapsed := lapsed + [plain.value];
        }
      } else {
        next := next + [token];
        if plain.value !in listed {
          adds := adds + [plain.value];
        }
      }
    }
    assert list[..|list|] == list;
    PlacedIsParted(list, cutoff, listed);
  }

  ghost predicate NoRepeats(xs: seq<string>) {
    forall i, j :: 0 <= i < j < |xs| ==> xs[i] != xs[j]
  }

  lemma OneMore(xs: seq<string>, x: string)
    requires NoRepeats(xs) && x !in Elems(xs)
    ensures NoRepeats(xs + [x]) && Elems(xs + [x]) == Elems(xs) + {x}
  {
    assert forall i :: 0 <= i < |xs| ==> xs[i] in Elems(xs);
  }

  // Tokens on the gateway the stored list does not know, each once, in whatever order the map yields.
  method Rogues(listed: set<string>, known: set<string>) returns (rogue: seq<string>)
    ensures Elems(rogue) == listed - known && NoRepeats(rogue)
  {
    rogue := [];
    var rest := listed;
    while rest != {}
      invariant rest <= listed
      invariant Elems(rogue) == listed - rest - known && NoRepeats(rogue)
      decreases rest
    {
      var token :| token in rest;
      rest := rest - {token};
      if token !in known {
        OneMore(rogue, token);
        rogue := rogue + [token];
      }
    }
  }

  // A token as the manager makes it for a gateway of the given type, dated within the given bounds.
  ghost predicate Minted(t: SealedToken, gtype: GatewayType, since: int, until: int) {
    && since <= t.createdAt <= until && t.cipher.Sealed?
    && t.plugins == match gtype
                    case Rooms => ["janus.plugin.videoroom", "janus.plugin.textroom"]
                    case Streaming => ["janus.plugin.streaming"]
                    case OtherType => []
  }

  method CreateToken(g: Gateway, token: string)
    returns (created: Option<SealedToken>, ghost before: set<string>, ghost reply: Reply)
    modifies g`live, g`clock, g`faults
    ensures g.live == Added(before, token, reply)
    ensures old(g.clock) <= g.clock
    ensures created.Some? <==> reply == Done
    ensures old(g.faults) <= g.faults && (created.None? ==> old(g.faults) < g.faults)
    ensures created.Some? ==>
              && created.value.createdAt == g.clock
              && created.value.cipher.Sealed? && created.value.cipher.plain == token
              && Minted(created.value, g.row.gtype, old(g.clock), g.clock)
  {
    var createdAt := g.Now();
    var plugins := PluginsFor(g.row.gtype);
    var ok;
    ok, before, reply := g.AddToken(token, plugins);
    if !ok {
      return None, before, reply;
    }
    if * {
      g.faults := g.faults + 1;          // encryption failed after the gateway took the token
      return None, before, LostReply;
    }
    var nonce: nat := *;
    created := Some(SealedToken(Encrypt(token, nonce), plugins, createdAt));
  }

  method PushAdds(g: Gateway, adds: seq<string>) returns (ok: bool)
    requires g.Sound() && g.Mirrors() && g.st.phase.Pushing? && g.st.phase.plan.adds == adds
    modifies g`live, g`clock, g`log, g`st, g`faults
    ensures g.Sound() && g.Mirrors() && old(g.log) <= g.log
    ensures if ok then g.st.phase == Pushing(old(g.st).phase.plan.(adds := [])) else g.st.phase.Idle?
    ensures old(g.faults) <= g.faults && (!ok ==> old(g.faults) < g.faults) && old(g.clock) <= g.clock
  {
    for i := 0 to |adds|
      invariant g.Sound() && g.Mirrors() && old(g.log) <= g.log && old(g.faults) <= g.faults
      invariant old(g.clock) <= g.clock
      invariant g.st.phase == Pushing(old(g.st).phase.plan.(adds := adds[i..]))
    {
      var created, before, reply := CreateToken(g, adds[i]);
      g.CatchUp(before);
      g.Log(PushAdd(reply));
      if created.None? {
        return false;
      }
    }
    return true;
  }

  // A removal that fails is logged and passed over.
  method PushRemoves(g: Gateway, removes: seq<string>)
    requires g.Sound() && g.Mirrors() && g.st.phase.Pushing?
    requires g.st.phase.plan.adds == [] && g.st.phase.plan.removes == removes
    modifies g`live, g`log, g`st, g`faults
    ensures g.Sound() && g.Mirrors() && old(g.log) <= g.log
    ensures g.st.phase == Pushing(old(g.st).phase.plan.(removes := [])) && old(g.faults) <= g.faults
  {
    for i := 0 to |removes|
      invariant g.Sound() && g.Mirrors() && old(g.log) <= g.log && old(g.faults) <= g.faults
      invariant g.st.phase == Pushing(old(g.st).phase.plan.(removes := removes[i..]))
    {
      var ok, before, reply := g.RemoveToken(removes[i]);
      g.CatchUp(before);
      g.Log(PushRemove(reply));
    }
  }

  // The log has grown by a sync whose last step ended it well.
  ghost predicate EndedWell(before: seq<Label>, log: seq<Label>) {
    before < log && Succeeds(log[|log| - 1])
  }

  lemma EndedWellIsSuccess(before: seq<Label>, log: seq<Label>)
    requires EndedWell(before, log)
    ensures Succeeded(log[|before|..])
  {
    assert log[|before|..][|log| - 1 - |before|] == log[|log| - 1];
  }

  // The row with another token list and its other properties as they are.
  function WithTokens(r: Row, tokens: TokensProp): Row {
    r.(properties := Object(tokens, Rest(r.properties)))
  }

  method SaveTokens(g: Gateway, next: seq<SealedToken>, changed: bool) returns (ok: bool)
    requires g.Sound() && g.Mirrors() && g.st.phase.Pushing?
    requires g.st.phase.plan.adds == [] && g.st.phase.plan.removes == [] && g.st.phase.plan.changed == changed
    requires Decryptable(next) && Opened(next) == g.st.phase.plan.next
    modifies g`row, g`log, g`st, g`faults, g`lost
    ensures g.Sound() && g.Mirrors() && g.st.phase.Idle? && old(g.log) <= g.log
    ensures ok ==> g.row == if changed then WithTokens(old(g.row), Tokens(next)) else old(g.row)
    ensures !ok ==> changed && old(g.faults) < g.faults
    ensures !ok ==> g.row == if g.lost == old(g.lost) then old(g.row) else WithTokens(old(g.row), Tokens(next))
    ensures ok ==> EndedWell(old(g.log), g.log) && g.st.lastGood == Some(old(g.st).phase.plan.decidedAt)
    ensures old(g.faults) <= g.faults && old(g.lost) <= g.lost
  {
    ok := true;
    if changed {
      ghost var reply;
      ok, reply := g.UpdateProperties(WithTokens(g.row, Tokens(next)).properties);
      g.Log(Save(reply));
    } else {
      g.Log(Finish);
    }
  }

  // The log holds a sync which listed the gateway's tokens at the given time.
  ghost predicate Began(g: Gateway, begun: seq<Label>, at: int)
    reads g
  {
    Legal(g.maxAge, g.origin, begun) && begun + [List] <= g.log && At(g.maxAge, g.origin, begun).now == at
  }

  // What one sync finds out before it calls the gateway again.
  datatype Survey = Survey(cutAt: int, decidedAt: int, due: bool, adds: seq<string>, removes: seq<string>,
                           next: seq<SealedToken>, known: set<string>, changed: bool)

  // The survey holds the plan of the machine for the same list, answer and clock readings.
  ghost predicate Surveyed(v: Survey, maxAge: nat, list: seq<SealedToken>, listed: set<string>, rogue: seq<string>) {
    && Decryptable(list) && Decryptable(v.next)
    && v.known == Plains(Opened(list))
    && Elems(rogue) == listed - v.known
    && Planned(Opened(list), listed, v.cutAt - maxAge, v.decidedAt, rogue)
         == Plan(listed, v.cutAt - maxAge, v.decidedAt, v.adds, v.removes, Opened(v.next), v.changed)
    && (v.due <==> MintDue(Opened(list), v.cutAt - maxAge, v.decidedAt))
  }

  lemma UnlapsedFits(list: seq<SealedToken>, next: seq<SealedToken>, cutoff: int)
    requires Decryptable(list) && next == Unlapsed(list, cutoff)
    ensures |next| <= |list| && forall t :: t in next ==> t in list
  {
    UnlapsedIsKept(list, cutoff);
  }

  // The sealed lists of a partition, opened, are those of the machine.
  lemma UnlapsedMeans(list: seq<SealedToken>, next: seq<SealedToken>, cutoff: int, now: int)
    requires Decryptable(list) && next == Unlapsed(list, cutoff)
    ensures Decryptable(next) && Opened(next) == Kept(Opened(list), cutoff)
    ensures |next| < |list| <==> Kept(Opened(list), cutoff) != Opened(list)
    ensures MintDue(Opened(list), cutoff, now) <==> next == [] || list[|list| - 1].createdAt < now - DAY
  {
    UnlapsedIsKept(list, cutoff);
    KeptWhole(Opened(list), cutoff);
  }

  lemma PartedIsSurveyed(list: seq<SealedToken>, maxAge: nat, cutAt: int, listed: set<string>, adds: seq<string>,
                         lapsed: seq<string>, next: seq<SealedToken>, known: set<string>, expired: bool,
                         rogue: seq<string>, now: int)
    requires Parted(list, cutAt - maxAge, listed, adds, lapsed, next, known, expired)
    requires Elems(rogue) == listed - known
    ensures var due := next == [] || list[|list| - 1].createdAt < now - DAY;
            Surveyed(Survey(cutAt, now, due, adds, lapsed + rogue, next, known, expired), maxAge, list, listed, rogue)
  {
    UnlapsedMeans(list, next, cutAt - maxAge, now);
  }

  // From the gateway's answer to the rotation decision.
  method TakeSurvey(g: Gateway, maxAge: nat, list: seq<SealedToken>, listed: set<string>)
    returns (ok: bool, v: Survey, ghost rogue: seq<string>)
    modifies g`clock
    ensures ok <==> Decryptable(list)
    ensures ok ==> old(g.clock) <= v.cutAt <= v.decidedAt == g.clock && Surveyed(v, maxAge, list, listed, rogue)
    ensures ok ==> forall t :: t in v.next ==> t in list
    ensures old(g.clock) <= g.clock
  {
    var now := g.Now();
    var parted, adds, lapsed, next, known, expired := Partition(list, now - maxAge, listed);
    ok, rogue, v := parted, [], Survey(now, now, false, adds, lapsed, next, known, expired);
    if ok {
      var rogues := Rogues(listed, known);
      var decidedAt := g.Now();
      UnlapsedFits(list, next, now - maxAge);
      var due := next == [] || list[|list| - 1].createdAt < decidedAt - DAY;
      PartedIsSurveyed(list, maxAge, now, listed, adds, lapsed, next, known, expired, rogues, decidedAt);
      rogue, v := rogues, Survey(now, decidedAt, due, adds, lapsed + rogues, next, known, expired);
    }
  }

  // The machine has taken the decision the survey holds.
  ghost predicate Decided(g: Gateway, v: Survey, listed: set<string>)
    reads g
  {
    && g.Sound() && g.Mirrors() && g.st.now == g.clock == v.decidedAt
    && Decryptable(v.next) && v.known == Plains(g.st.stored)
    && (if v.due then g.st.phase.Minting? else g.st.phase.Pushing?)
    && g.st.phase.plan ==
       Plan(listed, g.st.phase.plan.cutoff, v.decidedAt, v.adds, v.removes, Opened(v.next), v.changed)
  }

  // Logs the gateway's answer, dated by the reading of the expiry cutoff.
  ghost method LogAnswer(g: Gateway, cutAt: int) returns (begun: seq<Label>)
    requires g.Sound() && g.st.phase.Idle? && g.st.now <= cutAt <= g.clock
    modifies g`log, g`st
    ensures g.Sound() && old(g.log) <= begun && Began(g, begun, cutAt)
    ensures g.st == old(g.st).(now := g.clock, phase := Listed(old(g.st).live, cutAt))
  {
    g.Wait(cutAt);
    begun := g.log;
    g.Log(List);
    g.Wait(g.clock);
  }

  lemma SurveyIsDecision(maxAge: nat, s: State, v: Survey, list: seq<SealedToken>, rogue: seq<string>)
    requires s.phase.Listed? && s.phase.at == v.cutAt <= v.decidedAt == s.now
    requires Surveyed(v, maxAge, list, s.phase.listed, rogue) && s.stored == Opened(list)
    ensures Enabled(maxAge, s, Decide(v.cutAt, rogue))
    ensures var p := Plan(s.phase.listed, v.cutAt - maxAge, v.decidedAt, v.adds, v.removes, Opened(v.next), v.changed);
            After(maxAge, s, Decide(v.cutAt, rogue)) == s.(phase := if v.due then Minting(p) else Pushing(p))
  {
  }

  // Logs the decision of a sync on a readable row.
  ghost method LogDecision(g: Gateway, v: Survey, list: seq<SealedToken>, rogue: seq<string>)
    requires g.Sound() && g.Mirrors() && g.st.phase == Listed(g.live, v.cutAt)
    requires Surveyed(v, g.maxAge, list, g.live, rogue) && g.st.stored == Opened(list)
    requires v.cutAt <= v.decidedAt == g.clock == g.st.now
    modifies g`log, g`st
    ensures Decided(g, v, g.live) && g.log == old(g.log) + [Decide(v.cutAt, rogue)]
  {
    SurveyIsDecision(g.maxAge, g.st, v, list, rogue);
    g.Log(Decide(v.cutAt, rogue));
  }

  method TakeDecision(g: Gateway, maxAge: nat, list: seq<SealedToken>, listed: set<string>)
    returns (ok: bool, v: Survey, ghost begun: seq<Label>)
    requires g.Valid() && g.maxAge == maxAge
    requires Stored(g.row.properties) == list && (Readable(g.row.properties) <==> Decryptable(list))
    requires Decryptable(list) ==> listed == g.live
    modifies g`clock, g`log, g`st
    ensures old(g.clock) <= g.clock && (ok ==> forall t :: t in v.next ==> t in list)
    ensures ok <==> Decryptable(list)
    ensures !ok ==> g.Valid() && g.log == old(g.log)
    ensures ok ==> Decided(g, v, listed) && old(g.log) <= begun && Began(g, begun, v.cutAt)
    ensures ok ==> old(g.clock) <= v.cutAt <= v.decidedAt && Readable(old(g.row).properties)
  {
    begun := g.log;
    ghost var rogue;
    ok, v, rogue := TakeSurvey(g, maxAge, list, listed);
    if ok {
      begun := LogAnswer(g, v.cutAt);
      LogDecision(g, v, list, rogue);
    }
  }

  // A new token, when one is due, joins the list to be stored.
  method MintIfDue(g: Gateway, v: Survey, listed: set<string>)
    returns (ok: bool, next: seq<SealedToken>)
    requires Decided(g, v, listed)
    modifies g`live, g`clock, g`log, g`st, g`faults
    ensures g.Sound() && g.Mirrors() && old(g.log) <= g.log
    ensures !ok ==> v.due && g.st.phase.Idle?
    ensures old(g.faults) <= g.faults && (!ok ==> old(g.faults) < g.faults)
    ensures ok ==> Decryptable(next) && NextList(v.next, next, v.due, g.row.gtype, old(g.clock), g.clock)
    ensures old(g.clock) <= g.clock
    ensures ok ==>
              var p := old(g.st).phase.plan;
              g.st.phase == Pushing(p.(next := Opened(next), changed := p.changed || v.due))
  {
    ok, next := true, v.next;
    if v.due {
      var uid := GenerateUID(listed + v.known);
      var created, before, reply := CreateToken(g, uid);
      g.CatchUp(before);
      g.Log(Mint(uid, g.clock, reply));
      ok := created.Some?;
      if ok {
        OpenedSnoc(v.next, created.value);
        next := v.next + [created.value];
      }
    }
  }

  // Stored tokens keep their ciphertext; at most one is new, the last, made for its gateway.
  ghost predicate NextList(kept: seq<SealedToken>, next: seq<SealedToken>, due: bool, gtype: GatewayType,
                           since: int, until: int)
  {
    if due then |next| == |kept| + 1 && kept <= next && Minted(next[|kept|], gtype, since, until)
    else next == kept
  }

  // Pushes the plan to the gateway and saves the list.
  method Push(g: Gateway, adds: seq<string>, removes: seq<string>, next: seq<SealedToken>, changed: bool)
    returns (err: Option<SyncError>)
    requires g.Sound() && g.Mirrors() && g.st.phase.Pushing? && Decryptable(next)
    requires g.st.phase.plan.adds == adds && g.st.phase.plan.removes == removes
    requires g.st.phase.plan.next == Opened(next) && g.st.phase.plan.changed == changed
    modifies g`row, g`live, g`clock, g`log, g`st, g`faults, g`lost
    ensures g.Valid() && old(g.log) <= g.log && old(g.clock) <= g.clock
    ensures old(g.faults) <= g.faults && old(g.lost) <= g.lost && (err.Some? ==> old(g.faults) < g.faults)
    ensures err.None? ==> g.row == if changed then WithTokens(old(g.row), Tokens(next)) else old(g.row)
    ensures err.Some? && g.row != old(g.row) ==>
              changed && old(g.lost) < g.lost && g.row == WithTokens(old(g.row), Tokens(next))
    ensures err.None? ==> EndedWell(old(g.log), g.log) && g.st.lastGood == Some(old(g.st).phase.plan.decidedAt)
  {
    var ok := PushAdds(g, adds);
    if !ok {
      return Some(CreateTokenFailed);
    }
    PushRemoves(g, removes);
    ok := SaveTokens(g, next, changed);
    err := if ok then None else Some(UpdateFailed);
  }

  lemma ChangeIsReal(maxAge: nat, s: State, ls: seq<Label>)
    requires Init(s) && Legal(maxAge, s, ls) && At(maxAge, s, ls).phase.Pushing?
    ensures At(maxAge, s, ls).phase.plan.changed <==> At(maxAge, s, ls).phase.plan.next != At(maxAge, s, ls).stored
  {
    EveryRunKeepsInv(maxAge, s, ls);
  }

  // A sync leaves the row alone or gives it another, readable token list, and nothing else.
  ghost predicate Saved(before: Row, after: Row) {
    || after == before
    || (&& after.properties.Object? && Readable(after.properties)
        && after.properties.rest == (if before.properties.Object? then before.properties.rest else map[])
        && after == before.(properties := after.properties))
  }

  // After a successful sync: unexpired tokens as they were stored and at most one new one, the last.
  ghost predicate Extended(before: seq<SealedToken>, after: seq<SealedToken>, gtype: GatewayType, since: int,
                           until: int)
  {
    && after != []
    && (forall i :: 0 <= i < |after| - 1 ==> after[i] in before)
    && (after[|after| - 1] in before || Minted(after[|after| - 1], gtype, since, until))
  }

  // The column of a gateway which has never had tokens, or had them dropped.
  ghost predicate Tokenless(p: Properties) {
    p.NullColumn? || (p.Object? && (p.tokens.NoTokens? || p.tokens.NullTokens?))
  }

  lemma FirstIsAlone(before: seq<SealedToken>, after: seq<SealedToken>, gtype: GatewayType, since: int, until: int)
    requires Extended(before, after, gtype, since, until) && before == []
    ensures |after| == 1
  {
    var first := after[0];
    assert |after| > 1 ==> first in before;
  }

  lemma NextIsExtended(before: seq<SealedToken>, kept: seq<SealedToken>, next: seq<SealedToken>, due: bool,
                       gtype: GatewayType, since: int, until: int)
    requires (forall t :: t in kept ==> t in before) && next != []
    requires NextList(kept, next, due, gtype, since, until)
    ensures Extended(before, next, gtype, since, until)
  {
    forall i | 0 <= i < |next| - 1 ensures next[i] in before {
      assert next[i] == kept[i];
    }
    assert next[|next| - 1] in kept || due;
  }

  // A change is reported when the row was changed, unless the save was reported as an error.
  ghost predicate Told(before: Row, after: Row, changed: bool, err: Option<SyncError>, lost: bool) {
    && Saved(before, after)
    && (changed <==> err.None? && after != before)
    && (err.Some? && after != before ==> lost)
  }

  lemma SavedIsTold(before: Row, after: Row, next: seq<SealedToken>, wanted: bool, err: Option<SyncError>, lost: bool)
    requires Readable(before.properties) && Decryptable(next)
    requires wanted <==> Opened(next) != Entries(before.properties)
    requires err.None? ==> after == if wanted then WithTokens(before, Tokens(next)) else before
    requires err.Some? && after != before ==> wanted && lost && after == WithTokens(before, Tokens(next))
    ensures Told(before, after, wanted && err.None?, err, lost)
    ensures after != before ==> Readable(after.properties) && Entries(after.properties) != Entries(before.properties)
  {
  }

  lemma SameIsExtended(list: seq<SealedToken>, gtype: GatewayType, since: int, until: int)
    requires list != []
    ensures Extended(list, list, gtype, since, until)
  {
  }

  // Carries out a decided sync.
  method Execute(g: Gateway, v: Survey, listed: set<string>) returns (changed: bool, err: Option<SyncError>)
    requires Decided(g, v, listed)
    modifies g`row, g`live, g`clock, g`log, g`st, g`faults, g`lost
    ensures g.Valid() && old(g.log) <= g.log
    ensures old(g.faults) <= g.faults && (err.Some? ==> old(g.faults) < g.faults) && old(g.lost) <= g.lost
    ensures Told(old(g.row), g.row, changed, err, old(g.lost) < g.lost)
    ensures Replaced(old(g.row), g.row) && old(g.clock) <= g.clock
    ensures err.None? && g.row != old(g.row) ==>
              NextList(v.next, Stored(g.row.properties), v.due, g.row.gtype, old(g.clock), g.clock)
    ensures err.None? ==> EndedWell(old(g.log), g.log) && g.st.lastGood == Some(v.decidedAt)
  {
    var ok, next := MintIfDue(g, v, listed);
    if !ok {
      return false, Some(CreateTokenFailed);
    }
    ChangeIsReal(g.maxAge, g.origin, g.log);
    changed := v.changed || v.due;
    ghost var wanted := changed;
    err := Push(g, v.adds, v.removes, next, changed);
    changed := changed && err.None?;
    SavedIsTold(old(g.row), g.row, next, wanted, err, old(g.lost) < g.lost);
  }

  // A changed row holds other entries, if it held any that could be read.
  ghost predicate Replaced(before: Row, after: Row) {
    after != before && Readable(before.properties) ==>
      Readable(after.properties) && Entries(after.properties) != Entries(before.properties)
  }

  // Every call after the first n of the log did what it reported, undisturbed by others.
  ghost predicate CalmSince(log: seq<Label>, n: nat) {
    forall k :: n <= k < |log| ==> Calm(log[k])
  }

  lemma CalmSyncConverges(maxAge: nat, s: State, log: seq<Label>, begun: seq<Label>)
    requires Init(s) && Legal(maxAge, s, log) && Legal(maxAge, s, begun) && begun + [List] <= log
    requires CalmSince(log, |begun| + 1) && At(maxAge, s, log).phase.Idle?
    ensures At(maxAge, s, log).live == Plains(At(maxAge, s, log).stored) && At(maxAge, s, log).stored != []
    ensures forall e :: e in At(maxAge, s, log).stored ==> Unexpired(maxAge, e, At(maxAge, s, begun).now)
  {
    var ms := log[|begun| + 1..];
    assert log == begun + [List] + ms;
    forall l | l in ms ensures Calm(l) {
      var k :| 0 <= k < |ms| && ms[k] == l;
      assert log[|begun| + 1 + k] == l;
    }
    SelfHealing(maxAge, s, begun, ms);
  }

  // The stored tokens and the accepted ones are the same, at least one, and none had expired at `since`.
  ghost predicate InAgreement(g: Gateway, since: int)
    reads g
  {
    && Readable(g.row.properties)
    && Entries(g.row.properties) != []
    && g.live == Plains(Entries(g.row.properties))
    && forall e :: e in Entries(g.row.properties) ==> Unexpired(g.maxAge, e, since)
  }

  // The latest successful sync took its decision at the given time or later.
  ghost predicate GoodSince(g: Gateway, since: int)
    reads g
  {
    g.st.lastGood.Some? && since <= g.st.lastGood.value
  }

  // The stored tokens and the accepted ones are the same.
  ghost predicate AllAgree(g: Gateway)
    reads g
  {
    Readable(g.row.properties) && g.live == Plains(Entries(g.row.properties))
  }

  // The log's labels from index n on neither call the gateway nor save.
  ghost predicate QuietSince(log: seq<Label>, n: nat) {
    forall k :: n <= k < |log| ==> Quiet(log[k])
  }

  lemma SettledSyncDoesNothing(maxAge: nat, s: State, before: seq<Label>, log: seq<Label>, now: int)
    requires Init(s) && Legal(maxAge, s, log) && Legal(maxAge, s, before) && before <= log
    requires CalmSince(log, |before|) && At(maxAge, s, log).now <= now
    requires At(maxAge, s, before).phase.Idle? && At(maxAge, s, before).live == Plains(At(maxAge, s, before).stored)
    requires UpToDate(maxAge, At(maxAge, s, before).stored, now)
    ensures At(maxAge, s, log).stored == At(maxAge, s, before).stored
    ensures At(maxAge, s, log).live == At(maxAge, s, before).live
    ensures QuietSince(log, |before|)
  {
    var ks := log[|before|..];
    assert log == before + ks;
    forall l | l in ks ensures Calm(l) {
      var k :| 0 <= k < |ks| && ks[k] == l;
      assert log[|before| + k] == l;
    }
    SettledRunsDoNothing(maxAge, s, before, ks, At(maxAge, s, before).stored, now);
    forall k | |before| <= k < |log| ensures Quiet(log[k]) {
      assert log[k] == ks[k - |before|];
    }
  }

  // The gateway has no token support: the stored tokens are dropped, if there are any.
  method DropTokens(g: Gateway, list: seq<SealedToken>) returns (changed: bool, err: Option<SyncError>)
    requires g.Valid() && g.st.live == g.live
    requires Stored(g.row.properties) == list && (Readable(g.row.properties) <==> Decryptable(list))
    modifies g`row, g`log, g`st, g`faults, g`lost
    ensures g.Valid() && old(g.log) <= g.log
    ensures old(g.faults) <= g.faults && (err.Some? ==> old(g.faults) < g.faults) && old(g.lost) <= g.lost
    ensures Told(old(g.row), g.row, changed, err, old(g.lost) < g.lost)
    ensures Replaced(old(g.row), g.row)
    ensures err.None? ==> Readable(g.row.properties) && Entries(g.row.properties) == [] && (changed <==> list != [])
  {
    if list == [] {
      return false, None;
    }
    ghost var reply;
    changed, reply := g.UpdateProperties(WithTokens(g.row, NullTokens).properties);
    if Decryptable(list) {
      g.Log(DropStored(reply));
    }
    err := if changed then None else Some(UpdateFailed);
  }

  // The part of a synchronization which follows the gateway's answer.
  method SyncListed(g: Gateway, maxAge: nat, list: seq<SealedToken>, tokens: set<string>)
    returns (changed: bool, err: Option<SyncError>, ghost begun: seq<Label>, ghost since: int)
    requires g.Valid() && g.maxAge == maxAge
    requires Stored(g.row.properties) == list && (Readable(g.row.properties) <==> Decryptable(list))
    requires Decryptable(list) ==> tokens == g.live
    modifies g`row, g`live, g`clock, g`log, g`st, g`faults, g`lost
    ensures g.Valid() && old(g.log) <= g.log
    ensures old(g.faults) <= g.faults && old(g.lost) <= g.lost
    ensures err.Some? ==> old(g.faults) < g.faults || !Decryptable(list)
    ensures Told(old(g.row), g.row, changed, err, old(g.lost) < g.lost)
    ensures Replaced(old(g.row), g.row) && (!Decryptable(list) ==> err.Some?)
    ensures err.None? ==> EndedWell(old(g.log), g.log) && GoodSince(g, old(g.clock))
    ensures err.None? ==> old(g.log) <= begun && Began(g, begun, since) && old(g.clock) <= since
    ensures err.None? ==> Extended(list, Stored(g.row.properties), g.row.gtype, old(g.clock), g.clock)
  {
    var ok, v;
    ok, v, begun := TakeDecision(g, maxAge, list, tokens);
    since := v.cutAt;
    if !ok {
      return false, Some(DecryptFailed), begun, since;
    }
    changed, err := Execute(g, v, tokens);
    if err.None? {
      EveryRunIsRotated(g.maxAge, g.origin, g.log);
      NewestIsLastEntry(g.row.properties);
      if g.row == old(g.row) {
        SameIsExtended(list, g.row.gtype, old(g.clock), g.clock);
      } else {
        NextIsExtended(list, v.next, Stored(g.row.properties), v.due, g.row.gtype, old(g.clock), g.clock);
      }
    }
  }

  // The calls of one synchronization.  The ghost result is the log before the gateway answered.
  method Attempt(g: Gateway, maxAge: nat)
    returns (changed: bool, err: Option<SyncError>, ghost begun: seq<Label>, ghost since: int)
    requires g.Valid() && g.maxAge == maxAge
    modifies g`row, g`live, g`clock, g`log, g`st, g`faults, g`lost
    ensures g.Valid() && old(g.log) <= g.log
    ensures old(g.faults) <= g.faults && old(g.lost) <= g.lost
    ensures err.Some? && Readable(old(g.row).properties) ==> old(g.faults) < g.faults
    ensures Told(old(g.row), g.row, changed, err, old(g.lost) < g.lost)
    ensures Replaced(old(g.row), g.row)
    ensures err.None? && !g.supportsTokens ==> Readable(g.row.properties) && Entries(g.row.properties) == []
    ensures err.None? && g.supportsTokens ==> EndedWell(old(g.log), g.log) && GoodSince(g, old(g.clock))
    ensures err.None? && g.supportsTokens ==>
              old(g.log) <= begun && Began(g, begun, since) && old(g.clock) <= since && Readable(old(g.row).properties)
    ensures err.None? && g.supportsTokens ==>
              Extended(Stored(old(g.row).properties), Stored(g.row.properties), g.row.gtype, old(g.clock), g.clock)
  {
    var list;
    begun, since := [], 0;
    TokenListIsStored(g.row.properties);
    match TokenList(g.row.properties) {
      case Err(e) => return false, Some(PropertiesFailed(e)), begun, since;
      case Ok(l) => list := l;
    }
    var resp := g.ListTokens();
    g.CatchUp(g.live);
    match resp {
      case ListFailed =>
        return false, Some(ListTokensFailed), begun, since;
      case Unsupported =>
        changed, err := DropTokens(g, list);
      case Listing(tokens) =>
        changed, err, begun, since := SyncListed(g, maxAge, list, tokens);
    }
  }

  class GatewayTokensManager {
    const maxAge: nat
    var wip: bool

    constructor (maxAge: nat)
      ensures this.maxAge == maxAge && !wip
    {
      this.maxAge := maxAge;
      wip := false;
    }

    // One synchronization of one gateway.
    method SyncGatewayTokens(g: Gateway) returns (changed: bool, err: Option<SyncError>)
      requires g.Valid() && g.maxAge == maxAge
      modifies g`row, g`live, g`clock, g`log, g`st, g`faults, g`lost
      ensures g.Valid() && old(g.log) <= g.log && old(g.faults) <= g.faults && old(g.lost) <= g.lost
      ensures err.Some? && Readable(old(g.row).properties) ==> old(g.faults) < g.faults
      ensures Told(old(g.row), g.row, changed, err, old(g.lost) < g.lost)
      ensures Replaced(old(g.row), g.row)
      ensures err.None? && !g.supportsTokens ==> Readable(g.row.properties) && Entries(g.row.properties) == []
      ensures err.None? && g.supportsTokens ==> EndedWell(old(g.log), g.log) && GoodSince(g, old(g.clock))
      ensures err.None? && g.supportsTokens ==>
                Extended(Stored(old(g.row).properties), Stored(g.row.properties), g.row.gtype, old(g.clock), g.clock)
      ensures Tokenless(old(g.row).properties) && g.faults == old(g.faults) ==>
                err.None? && (g.supportsTokens ==> |Stored(g.row.properties)| == 1)
      ensures err.None? && g.supportsTokens && CalmSince(g.log, |old(g.log)|) ==> InAgreement(g, old(g.clock))
      ensures old(AllAgree(g)) && CalmSince(g.log, |old(g.log)|) && UpToDate(maxAge, old(g.st).stored, g.clock) ==>
                g.row == old(g.row) && g.live == old(g.live) && QuietSince(g.log, |old(g.log)|)
    {
      ghost var begun, since;
      changed, err, begun, since := Attempt(g, maxAge);
      if Tokenless(old(g.row).properties) && err.None? && g.supportsTokens {
        FirstIsAlone(Stored(old(g.row).properties), Stored(g.row.properties), g.row.gtype, old(g.clock), g.clock);
      }
      if CalmSince(g.log, |old(g.log)|) {
        if err.None? && g.supportsTokens {
          CalmSyncConverges(maxAge, g.origin, g.log, begun);
        }
        if old(AllAgree(g)) && UpToDate(maxAge, old(g.st).stored, g.clock) {
          SettledSyncDoesNothing(maxAge, g.origin, old(g.log), g.log, g.clock);
        }
      }
    }
  }
}
