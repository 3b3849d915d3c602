/** Guards that civilians call: each area has charges, a cooldown after use, and a common recharge. */
module GuardPosts {

  const GUARD_POST_USE_COOLDOWN: nat := 10000
  const GUARD_POST_RECHARGE_TIME: nat := 60000
  const GUARD_POST_MAX_CHARGES: nat := 10

  datatype AreaGuardInfo = AreaGuardInfo(cooldown: nat, charges: nat)

  /** The state of the manager. */
  datatype Posts = Posts(timer: nat, areas: map<nat, AreaGuardInfo>)

  function AreaUpdated(g: AreaGuardInfo, diff: nat, recharge: bool): (g': AreaGuardInfo)
  {
    AreaGuardInfo(
      if g.cooldown >= diff then g.cooldown - diff else 0,
      if recharge && g.charges < GUARD_POST_MAX_CHARGES then g.charges + 1 else g.charges)
  }

  predicate Recharges(p: Posts, diff: nat) {
    p.timer < diff
  }

  function Updated(p: Posts, diff: nat): (p': Posts)
  {
    Posts(if Recharges(p, diff) then GUARD_POST_RECHARGE_TIME else p.timer - diff,
          map a | a in p.areas :: AreaUpdated(p.areas[a], diff, Recharges(p, diff)))
  }

  /** Whether a call from the area makes a guard post spend a charge. */
  predicate Summons(p: Posts, area: nat, hardcore: bool) {
    !hardcore && area in p.areas && p.areas[area].cooldown == 0 && p.areas[area].charges > 0
  }

  /** The posts after a call. */
  function Summoned(p: Posts, area: nat, hardcore: bool): (p': Posts)
  {
    if Summons(p, area, hardcore)
    then p.(areas := p.areas[area := AreaGuardInfo(GUARD_POST_USE_COOLDOWN, p.areas[area].charges - 1)])
    else p
  }

  class GuardMgr {
    var areaGuardInfo: map<nat, AreaGuardInfo>
    var rechargeTimer: nat

    constructor (areas: set<nat>, timer: nat)
      ensures State() == Posts(timer, map a | a in areas :: AreaGuardInfo(0, GUARD_POST_MAX_CHARGES))
    {
      areaGuardInfo := map a | a in areas :: AreaGuardInfo(0, GUARD_POST_MAX_CHARGES);
      rechargeTimer := timer;
    }

    ghost function State(): (p: Posts)
      reads this
    {
      Posts(rechargeTimer, areaGuardInfo)
    }

    method Update(diff: nat)
      modifies this
      ensures State() == Updated(old(State()), diff)
    {
      hide AreaUpdated;
      var increaseCharges := false;
      if rechargeTimer < diff {
        increaseCharges := true;
        rechargeTimer := GUARD_POST_RECHARGE_TIME;
      } else {
        rechargeTimer := rechargeTimer - diff;
      }
      ghost var before := areaGuardInfo;
      assert increaseCharges == Recharges(old(State()), diff);
      var todo := areaGuardInfo.Keys;
      while todo != {}
        invariant todo <= areaGuardInfo.Keys == before.Keys && rechargeTimer == Updated(old(State()), diff).timer
        invariant forall a :: a in before ==>
                    areaGuardInfo[a] == if a in todo then before[a] else AreaUpdated(before[a], diff, increaseCharges)
        decreases |todo|
      {
        var a :| a in todo;
        var info := UpdateArea(areaGuardInfo[a], diff, increaseCharges);
        areaGuardInfo := areaGuardInfo[a := info];
        todo := todo - {a};
      }
    }

    static method UpdateArea(g: AreaGuardInfo, diff: nat, increaseCharges: bool) returns (info: AreaGuardInfo)
      ensures info == AreaUpdated(g, diff, increaseCharges)
    {
      info := g;
      if info.cooldown != 0 {
        if info.cooldown >= diff {
          info := info.(cooldown := info.cooldown - diff);
        } else {
          info := info.(cooldown := 0);
        }
      }
      if increaseCharges && info.charges < GUARD_POST_MAX_CHARGES {
        info := info.(charges := info.charges + 1);
      }
    }

    /** `handled` is false when the civilian may call again. */
    method SummonGuard(area: nat, hardcore: bool) returns (handled: bool)
      modifies this
      ensures State() == Summoned(old(State()), area, hardcore)
      ensures handled <==> !hardcore && (area !in old(areaGuardInfo) || Summons(old(State()), area, hardcore))
    {
      if hardcore {
        return false;
      }
      if area !in areaGuardInfo {
        return true;
      }
      var info := areaGuardInfo[area];
      if info.cooldown != 0 || info.charges == 0 {
        return false;
      }
      info := info.(charges := info.charges - 1);
      info := info.(cooldown := GUARD_POST_USE_COOLDOWN);
      areaGuardInfo := areaGuardInfo[area := info];
      return true;
    }
  }

  // ---------------------------------------------------------------------------
  // Runs
  // ---------------------------------------------------------------------------

  datatype Op = Tick(diff: nat) | Call(area: nat, hardcore: bool)

  function Step(p: Posts, op: Op): (p': Posts)
  {
    match op
    case Tick(diff) => Updated(p, diff)
    case Call(area, hardcore) => Summoned(p, area, hardcore)
  }

  function At(p: Posts, ops: seq<Op>): (p': Posts)
  {
    if ops == [] then p else Step(At(p, ops[..|ops| - 1]), ops[|ops| - 1])
  }

  /** The time that passes. */
  function Elapsed(ops: seq<Op>): (t: nat)
  {
    if ops == [] then 0
    else
      var op := ops[|ops| - 1];
      Elapsed(ops[..|ops| - 1]) + if op.Tick? then op.diff else 0
  }

  /** Operation `n` summons a guard in the area. */
  predicate SummonsAt(p: Posts, ops: seq<Op>, a: nat, n: nat) {
    n < |ops| && ops[n].Call? && ops[n].area == a && Summons(At(p, ops[..n]), a, ops[n].hardcore)
  }

  /** How many guards the area summons. */
  function Guards(p: Posts, ops: seq<Op>, a: nat): (n: nat)
  {
    if ops == [] then 0
    else Guards(p, ops[..|ops| - 1], a) + if SummonsAt(p, ops, a, |ops| - 1) then 1 else 0
  }

  /** How many recharges there are. */
  function RechargeCount(p: Posts, ops: seq<Op>): (n: nat)
  {
    if ops == [] then 0
    else
      var op := ops[|ops| - 1];
      RechargeCount(p, ops[..|ops| - 1]) +
      if op.Tick? && Recharges(At(p, ops[..|ops| - 1]), op.diff) then 1 else 0
  }

  predicate PostsOk(p: Posts) {
    forall a :: a in p.areas ==>
      p.areas[a].charges <= GUARD_POST_MAX_CHARGES && p.areas[a].cooldown <= GUARD_POST_USE_COOLDOWN
  }

  /** The bounds that every area starts with are kept by every step, so any run is a window of a longer one. */
  lemma StepKeepsOk(p: Posts, op: Op)
    requires PostsOk(p)
    ensures PostsOk(Step(p, op)) && Step(p, op).areas.Keys == p.areas.Keys
  {
  }

  function Charges(p: Posts, a: nat): (n: nat)
  {
    if a in p.areas then p.areas[a].charges else 0
  }

  function Cooldown(p: Posts, a: nat): (n: nat)
  {
    if a in p.areas then p.areas[a].cooldown else 0
  }

  /** What one step does to an area's charges, and to its cooldown. */
  lemma StepCharges(p: Posts, op: Op, a: nat)
    ensures var used := if op.Call? && op.area == a && Summons(p, a, op.hardcore) then 1 else 0;
            var fired := if op.Tick? && Recharges(p, op.diff) then 1 else 0;
            && Charges(Step(p, op), a) + used <= Charges(p, a) + fired
            && Cooldown(Step(p, op), a) + (if op.Tick? then op.diff else 0) >= Cooldown(p, a) + used * GUARD_POST_USE_COOLDOWN
            && (used == 1 ==> Cooldown(p, a) == 0)
  {
  }

  /** Guards are paid for by the first charges and the recharges. */
  lemma {:induction false} GuardsAreCharged(p: Posts, ops: seq<Op>, a: nat)
    ensures Guards(p, ops, a) + Charges(At(p, ops), a) <= Charges(p, a) + RechargeCount(p, ops)
    decreases |ops|
  {
    hide Step, Charges, Cooldown, Summons, Recharges;
    if ops != [] {
      GuardsAreCharged(p, ops[..|ops| - 1], a);
      StepCharges(At(p, ops[..|ops| - 1]), ops[|ops| - 1], a);
    }
  }

  /** Recharges are at least a minute apart; the first may come at once. */
  lemma {:induction false} RechargesTakeTime(p: Posts, ops: seq<Op>)
    ensures RechargeCount(p, ops) * GUARD_POST_RECHARGE_TIME + p.timer <= Elapsed(ops) + At(p, ops).timer
    ensures RechargeCount(p, ops) > 0 ==> At(p, ops).timer <= GUARD_POST_RECHARGE_TIME
    decreases |ops|
  {
    if ops != [] {
      RechargesTakeTime(p, ops[..|ops| - 1]);
      StepTimer(At(p, ops[..|ops| - 1]), ops[|ops| - 1]);
      hide Step, Recharges;
    }
  }

  lemma StepTimer(p: Posts, op: Op)
    ensures Step(p, op).timer ==
            if op.Call? then p.timer
            else if Recharges(p, op.diff) then GUARD_POST_RECHARGE_TIME
            else p.timer - op.diff
  {
  }

  /** After a guard was summoned the cooldown and the time since then add up to ten seconds. */
  lemma {:induction false} CooldownLasts(p: Posts, ops: seq<Op>, a: nat, n: nat, m: nat)
    requires n < m <= |ops| && SummonsAt(p, ops, a, n)
    ensures Cooldown(At(p, ops[..m]), a) + Elapsed(ops[n..m]) >= GUARD_POST_USE_COOLDOWN
    decreases m
  {
    hide Step, Cooldown, Summons, Charges;
    var k := m - 1;
    assert ops[..m][..k] == ops[..k] && ops[n..m][..|ops[n..m]| - 1] == ops[n..k];
    StepCharges(At(p, ops[..k]), ops[k], a);
    if n < k {
      CooldownLasts(p, ops, a, n, k);
    } else {
      assert ops[n..k] == [];
    }
  }

  /** Two guards of one area are at least ten seconds of updates apart. */
  lemma GuardsAreApart(p: Posts, ops: seq<Op>, a: nat, n: nat, m: nat)
    requires n < m && SummonsAt(p, ops, a, n) && SummonsAt(p, ops, a, m)
    ensures Elapsed(ops[n..m]) >= GUARD_POST_USE_COOLDOWN
  {
    hide At, Elapsed;
    CooldownLasts(p, ops, a, n, m);
  }

  /**
   In any time E an area summons at most 10 + E / 60000 + 1 guards, whatever the recharge timer
   shows at its start; and at most 1 + E / 10000.
   */
  lemma GuardsAreLimited(p: Posts, ops: seq<Op>, a: nat)
    requires PostsOk(p)
    ensures Guards(p, ops, a) <= GUARD_POST_MAX_CHARGES + Elapsed(ops) / GUARD_POST_RECHARGE_TIME + 1
    ensures Guards(p, ops, a) <= 1 + Elapsed(ops) / GUARD_POST_USE_COOLDOWN
  {
    hide Guards, At, Elapsed, RechargeCount;
    GuardsAreCharged(p, ops, a);
    RechargesTakeTime(p, ops);
    GuardsTakeTime(p, ops, a);
  }

  /** Each guard after the first costs ten seconds, some of which may still be to come. */
  lemma {:induction false} GuardsTakeTime(p: Posts, ops: seq<Op>, a: nat)
    requires PostsOk(p)
    ensures Guards(p, ops, a) * GUARD_POST_USE_COOLDOWN <= Elapsed(ops) + Cooldown(At(p, ops), a)
    ensures Cooldown(At(p, ops), a) <= GUARD_POST_USE_COOLDOWN && PostsOk(At(p, ops))
    decreases |ops|
  {
    if ops != [] {
      var before, op := At(p, ops[..|ops| - 1]), ops[|ops| - 1];
      GuardsTakeTime(p, ops[..|ops| - 1], a);
      StepKeepsOk(before, op);
      StepCharges(before, op, a);
      hide Step, Summons, Recharges;
    }
  }

  // ---------------------------------------------------------------------------
  // Guards do come
  // ---------------------------------------------------------------------------

  lemma QuietStep(p: Posts, op: Op, a: nat)
    requires op.Tick? || !Summons(p, a, op.hardcore) || op.area != a
    ensures Cooldown(Step(p, op), a) ==
            if op.Call? then Cooldown(p, a) else if Cooldown(p, a) <= op.diff then 0 else Cooldown(p, a) - op.diff
    ensures a in p.areas && Charges(p, a) <= 10 ==>
              Charges(Step(p, op), a) ==
              if op.Tick? && Recharges(p, op.diff) && Charges(p, a) < 10 then Charges(p, a) + 1 else Charges(p, a)
    ensures a in Step(p, op).areas <==> a in p.areas
  {
  }

  /** While an area summons nobody its cooldown runs down with the time, and no further than to zero. */
  lemma {:induction false} CooldownEnds(p: Posts, ops: seq<Op>, a: nat)
    requires Guards(p, ops, a) == 0
    ensures Cooldown(At(p, ops), a) == if Cooldown(p, a) <= Elapsed(ops) then 0 else Cooldown(p, a) - Elapsed(ops)
    decreases |ops|
  {
    hide Step, Summons, Recharges, Cooldown, Charges;
    if ops != [] {
      CooldownEnds(p, ops[..|ops| - 1], a);
      QuietStep(At(p, ops[..|ops| - 1]), ops[|ops| - 1], a);
    }
  }

  /** Meanwhile every recharge adds a charge, up to ten. */
  lemma {:induction false} IdleAreaRefills(p: Posts, ops: seq<Op>, a: nat)
    requires Guards(p, ops, a) == 0 && a in p.areas && Charges(p, a) <= 10
    ensures a in At(p, ops).areas
    ensures Charges(At(p, ops), a) == if Charges(p, a) + RechargeCount(p, ops) <= 10 then Charges(p, a) + RechargeCount(p, ops) else 10
    decreases |ops|
  {
    hide Step, Summons, Recharges, Cooldown, Charges;
    if ops != [] {
      IdleAreaRefills(p, ops[..|ops| - 1], a);
      QuietStep(At(p, ops[..|ops| - 1]), ops[|ops| - 1], a);
    }
  }

  /** Without a recharge the timer runs down with the time. */
  lemma {:induction false} TimerRunsDown(p: Posts, ops: seq<Op>)
    requires RechargeCount(p, ops) == 0
    ensures At(p, ops).timer + Elapsed(ops) == p.timer
    decreases |ops|
  {
    if ops != [] {
      TimerRunsDown(p, ops[..|ops| - 1]);
      StepTimer(At(p, ops[..|ops| - 1]), ops[|ops| - 1]);
      hide Step, Recharges;
    }
  }

  /** There was a recharge exactly when more time has passed than the timer shows; it sets the timer to a minute. */
  lemma {:induction false} RechargeComes(p: Posts, ops: seq<Op>)
    ensures RechargeCount(p, ops) > 0 <==> Elapsed(ops) > p.timer
    ensures ops != [] && ops[|ops| - 1].Tick? && Recharges(At(p, ops[..|ops| - 1]), ops[|ops| - 1].diff) ==>
              At(p, ops).timer == 60000
    decreases |ops|
  {
    hide Step;
    if RechargeCount(p, ops) == 0 {
      TimerRunsDown(p, ops);
    }
    if ops != [] {
      var before := ops[..|ops| - 1];
      RechargeComes(p, before);
      if RechargeCount(p, before) == 0 {
        TimerRunsDown(p, before);
      }
      StepTimer(At(p, before), ops[|ops| - 1]);
    }
  }

  /** Ten seconds without a guard, and a charge or a recharge in that time: the next call is answered. */
  lemma CallIsAnswered(p: Posts, ops: seq<Op>, a: nat)
    requires PostsOk(p) && a in p.areas && Guards(p, ops, a) == 0
    requires Elapsed(ops) >= 10000 && Charges(p, a) + RechargeCount(p, ops) > 0
    ensures Summons(At(p, ops), a, false)
  {
    assert Charges(p, a) <= 10 && Cooldown(p, a) <= 10000;
    CooldownEnds(p, ops, a);
    IdleAreaRefills(p, ops, a);
    hide At, Guards, Elapsed, RechargeCount;
  }

  /** An answered call takes one charge and starts ten seconds of rest; any other changes nothing. */
  lemma CallTakes(p: Posts, a: nat, hardcore: bool)
    ensures var r := Summoned(p, a, hardcore);
            && r.timer == p.timer
            && (Summons(p, a, hardcore) ==>
                  Charges(r, a) + 1 == Charges(p, a) && Cooldown(r, a) == 10000 && !hardcore)
            && (!Summons(p, a, hardcore) ==> r == p)
            && forall b :: b != a ==> Charges(r, b) == Charges(p, b) && Cooldown(r, b) == Cooldown(p, b)
  {
  }
}
