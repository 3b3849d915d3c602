/**
 Whole runs of the war effort: updates interleaved with gong rings, stock changes (seen by
 the updates) and scheduler ticks, on a clock that never goes back.
 */
module WarEffortRuns {
  import opened Integers
  import opened GameEvents
  import opened WarEffort

  datatype Step =
    | Update(tick: Tick)
    | RingGong(at: nat)
    | Schedule(at: nat)
  {
    function Now(): nat {
      match this
      case Update(t) => t.now
      case RingGong(n) => n
      case Schedule(n) => n
    }
  }

  /** The gate event is off and cannot be switched on by the scheduler. */
  predicate GateShut(m: MgrState) {
    && AQ_GATE !in m.active
    && AQ_GATE < |m.events| && m.events[AQ_GATE].disabled
  }

  ghost predicate Inv(w: WarState, clock: nat) {
    && Knows(w.tables)
    && w.saved.stage <= STAGE_COMPLETE
    && w.saved.lastTransition <= clock && w.saved.gong <= clock
    && 0 < clock < U32_RANGE
    && (w.saved.stage >= STAGE_GONG_RUNG ==> w.saved.gong != 0)
    && (w.saved.stage >= STAGE_BATTLE ==> GateShut(w.tables))
  }

  ghost function Next(w: WarState, s: Step): (r: WarState)
    requires Knows(w.tables) && w.saved.stage <= STAGE_COMPLETE
  {
    match s
    case Update(t) => Advanced(w, t)
    case RingGong(n) => w.(saved := w.saved.(gong := n))
    case Schedule(n) => w.(tables := RegularPhase(w.tables, n))
  }

  // ---------------------------------------------------------------------------
  // One step
  // ---------------------------------------------------------------------------

  lemma ReconciledKeepsGateShut(m: MgrState, stage: nat)
    requires Knows(m) && STAGE_GONG_RUNG <= stage <= STAGE_COMPLETE && GateShut(m)
    ensures Knows(Reconciled(m, stage)) && GateShut(Reconciled(m, stage))
  {
    RowsAreTracked(stage);
    ReconciledFollowsRow(m, stage);
  }

  lemma StartKeepsGateShut(m: MgrState, id: nat, wanted: bool, overwrite: bool, now: int)
    requires GateShut(m) && id != AQ_GATE
    ensures GateShut(StartedUnlessActive(m, id, wanted, overwrite, now))
  {
  }

  lemma StartsKeepGateShut(m: MgrState, t: Tick)
    requires GateShut(m)
    ensures GateShut(ColossusBattles(StartedUnlessActive(m, WAR_EFFORT, true, false, t.now), t))
  {
    hide GateShut, StartedUnlessActive;
    var m1 := StartedUnlessActive(m, WAR_EFFORT, true, false, t.now);
    StartKeepsGateShut(m, WAR_EFFORT, true, false, t.now);
    var m2 := StartedUnlessActive(m1, BATTLE_ASHI, t.ashi, true, t.now);
    StartKeepsGateShut(m1, BATTLE_ASHI, t.ashi, true, t.now);
    StartKeepsGateShut(m2, BATTLE_ZORA, t.zora, true, t.now);
    StartKeepsGateShut(StartedUnlessActive(m2, BATTLE_ZORA, t.zora, true, t.now), BATTLE_REGAL, t.regal, true, t.now);
  }

  lemma StoppingShutsGate(m: MgrState, ids: set<nat>)
    requires Knows(m)
    ensures Knows(AllStopped(m, ids))
    ensures AQ_GATE in ids ==> GateShut(AllStopped(m, ids))
  {
    hide Knows;
    StoppingKeepsKnown(m, ids);
  }

  /** An update keeps the tables usable, and from BATTLE on it keeps the gate shut. */
  lemma NextTablesKeepsGateShut(m: MgrState, v: SavedVars, t: Tick)
    requires Knows(m) && v.stage <= STAGE_COMPLETE
    requires v.stage >= STAGE_BATTLE ==> GateShut(m)
    ensures Knows(NextTables(m, v, t))
    ensures NextStage(v, t) >= STAGE_BATTLE ==> GateShut(NextTables(m, v, t))
  {
    hide Knows, GateShut, Reconciled, AllStopped, ColossusBattles, StartedUnlessActive;
    var m1 := Reconciled(m, v.stage);
    ReconciledFollowsRow(m, v.stage);
    if v.stage >= STAGE_BATTLE {
      ReconciledKeepsGateShut(m, v.stage);
    }
    if v.stage == STAGE_COMPLETE {
      var m2 := if WAR_EFFORT in m1.active then Stopped(m1, WAR_EFFORT, false, t.now) else m1;
      StopKeepsKnown(m1, t.now);
      StoppingShutsGate(m2, {AQ_GATE, BATTLE_ASHI, BATTLE_REGAL, BATTLE_ZORA});
    } else {
      var m2 := ColossusBattles(StartedUnlessActive(m1, WAR_EFFORT, true, false, t.now), t);
      StartsKeepKnown(m1, t);
      if v.stage >= STAGE_BATTLE {
        StartsKeepGateShut(m1, t);
      }
      if v.stage == STAGE_GONG_RUNG {
        StoppingShutsGate(m2, {AQ_GATE});
        ReconciledKeepsGateShut(AllStopped(m2, {AQ_GATE}), STAGE_BATTLE);
      } else if v.stage >= STAGE_BATTLE {
        ReconciledKeepsGateShut(m2, if v.stage == STAGE_BATTLE then STAGE_BATTLE else STAGE_COMPLETE);
      }
    }
  }

  lemma StopKeepsKnown(m: MgrState, now: int)
    requires Knows(m)
    ensures Knows(if WAR_EFFORT in m.active then Stopped(m, WAR_EFFORT, false, now) else m)
  {
    hide Tracked;
    CalledKeepsValid(m, Stop(WAR_EFFORT, false), now);
    SameShapeKnows(m, if WAR_EFFORT in m.active then Stopped(m, WAR_EFFORT, false, now) else m);
  }

  lemma ScheduleKeepsGateShut(m: MgrState, now: int)
    requires Knows(m)
    ensures Knows(RegularPhase(m, now))
    ensures GateShut(m) ==> GateShut(RegularPhase(m, now))
  {
    hide Tracked;
    RegularKeepsValid(m, now);
    SameShapeKnows(m, RegularPhase(m, now));
  }

  /** Every step keeps the invariant; the stage stays or advances by one, and COMPLETE is final. */
  lemma StepKeepsInv(w: WarState, clock: nat, s: Step)
    requires Inv(w, clock) && clock <= s.Now() < U32_RANGE
    ensures Inv(Next(w, s), s.Now())
    ensures w.saved.stage <= Next(w, s).saved.stage <= w.saved.stage + 1
    ensures Next(w, s).saved.stage == w.saved.stage ==> Next(w, s).saved.lastTransition == w.saved.lastTransition
    ensures Next(w, s).saved.stage != w.saved.stage ==>
              s.Update? && Next(w, s).saved.lastTransition == s.Now()
  {
    hide Knows, GateShut;
    match s
    case Update(t) => NextTablesKeepsGateShut(w.tables, w.saved, t);
    case RingGong(n) =>
    case Schedule(n) => ScheduleKeepsGateShut(w.tables, n);
  }

  // ---------------------------------------------------------------------------
  // Runs
  // ---------------------------------------------------------------------------

  /** The clock of a run starts at `from` and never goes back. */
  predicate Timed(from: nat, steps: seq<Step>) {
    && (forall i :: 0 <= i < |steps| ==> from <= steps[i].Now() < U32_RANGE)
    && (forall i, j :: 0 <= i < j < |steps| ==> steps[i].Now() <= steps[j].Now())
  }

  /** The state after the first `k` steps. */
  ghost function At(w: WarState, from: nat, steps: seq<Step>, k: nat): (r: WarState)
    requires Inv(w, from) && Timed(from, steps) && k <= |steps|
    ensures Inv(r, if k == 0 then from else steps[k - 1].Now())
  {
    if k == 0 then w
    else
      var p := At(w, from, steps, k - 1);
      StepKeepsInv(p, if k == 1 then from else steps[k - 2].Now(), steps[k - 1]);
      Next(p, steps[k - 1])
  }

  ghost function StageAt(w: WarState, from: nat, steps: seq<Step>, k: nat): (stage: nat)
    requires Inv(w, from) && Timed(from, steps) && k <= |steps|
  {
    At(w, from, steps, k).saved.stage
  }

  /** Step `k` of the run as a step of the machine. */
  lemma OneStep(w: WarState, from: nat, steps: seq<Step>, k: nat)
    requires Inv(w, from) && Timed(from, steps) && k < |steps|
    ensures var a, b := At(w, from, steps, k), At(w, from, steps, k + 1);
            && b == Next(a, steps[k])
            && a.saved.stage <= b.saved.stage <= a.saved.stage + 1
            && (b.saved.stage == a.saved.stage ==> b.saved.lastTransition == a.saved.lastTransition)
            && (b.saved.stage != a.saved.stage ==> steps[k].Update? && b.saved.lastTransition == steps[k].Now())
  {
    StepKeepsInv(At(w, from, steps, k), if k == 0 then from else steps[k - 1].Now(), steps[k]);
  }

  /** Stages never go back, so COMPLETE is absorbing, and a stage is never skipped. */
  lemma {:induction false} StagesGrow(w: WarState, from: nat, steps: seq<Step>, i: nat, j: nat)
    requires Inv(w, from) && Timed(from, steps) && i <= j <= |steps|
    ensures StageAt(w, from, steps, i) <= StageAt(w, from, steps, j) <= StageAt(w, from, steps, i) + (j - i)
    decreases j
  {
    hide Inv, Next, At;
    if i < j {
      StagesGrow(w, from, steps, i, j - 1);
      OneStep(w, from, steps, j - 1);
    }
  }

  /** From the moment BATTLE is reached the gate event is never active again. */
  lemma GateNeverReturns(w: WarState, from: nat, steps: seq<Step>, i: nat, j: nat)
    requires Inv(w, from) && Timed(from, steps) && i <= j <= |steps|
    requires StageAt(w, from, steps, i) >= STAGE_BATTLE
    ensures AQ_GATE !in At(w, from, steps, j).tables.active
  {
    StagesGrow(w, from, steps, i, j);
  }

  /** Step `j` enters stage `s`. */
  ghost predicate Enters(w: WarState, from: nat, steps: seq<Step>, j: nat, s: nat)
    requires Inv(w, from) && Timed(from, steps)
  {
    j < |steps| && StageAt(w, from, steps, j) + 1 == StageAt(w, from, steps, j + 1) == s
  }

  /** The saved transition time is the time at which the current stage was entered. */
  lemma {:induction false} TransitionTimeIsEntryTime(w: WarState, from: nat, steps: seq<Step>, j: nat, k: nat)
    requires Inv(w, from) && Timed(from, steps) && j < k <= |steps|
    requires Enters(w, from, steps, j, StageAt(w, from, steps, k))
    ensures At(w, from, steps, k).saved.lastTransition == steps[j].Now()
    decreases k
  {
    hide Inv, Next, At;
    if k == j + 1 {
      OneStep(w, from, steps, j);
    } else {
      StagesGrow(w, from, steps, j + 1, k - 1);
      OneStep(w, from, steps, k - 1);
      TransitionTimeIsEntryTime(w, from, steps, j, k - 1);
    }
  }

  /** The least number of seconds a run spends in a stage. */
  function LeastTime(stage: nat): nat {
    if stage == STAGE_READY then COLLECTION_TRANSITION_TIME + 1
    else if STAGE_MOVE_1 <= stage <= STAGE_MOVE_5 then MOVE_TRANSITION_TIME + 1
    else if stage == STAGE_BATTLE then CH_ATTACK_TIME + 1
    else if stage == STAGE_CH_ATTACK then FINAL_BATTLE_TIME + 1
    else 0
  }

  function LeastTimes(a: nat, b: nat): nat
    requires a <= b
    decreases b - a
  {
    if a == b then 0 else LeastTimes(a, b - 1) + LeastTime(b - 1)
  }

  lemma GongInThePast(w: WarState, from: nat, steps: seq<Step>, k: nat)
    requires Inv(w, from) && Timed(from, steps) && k < |steps|
    ensures At(w, from, steps, k).saved.gong <= steps[k].Now()
  {
    hide At, Next, Knows, GateShut;
  }

  /** A timed stage is left only after its threshold has passed since it was entered. */
  lemma StageOutlastsThreshold(w: WarState, from: nat, steps: seq<Step>, j: nat, k: nat, s: nat)
    requires Inv(w, from) && Timed(from, steps) && j < k
    requires Enters(w, from, steps, j, s) && Enters(w, from, steps, k, s + 1)
    ensures steps[k].Now() - steps[j].Now() >= LeastTime(s)
    ensures s == STAGE_FINALBATTLE ==> steps[k].Now() - At(w, from, steps, k).saved.gong > GONG_DURATION
  {
    hide Inv, At, Knows, NextTables;
    TransitionTimeIsEntryTime(w, from, steps, j, k);
    OneStep(w, from, steps, k);
    GongInThePast(w, from, steps, k);
    var v := At(w, from, steps, k).saved;
    assert NextStage(v, steps[k].tick) == s + 1;
    assert v.lastTransition == steps[j].Now() <= steps[k].Now();
  }

  /** Between two stages of a run some step enters each stage in between. */
  lemma {:induction false} StageIsEntered(w: WarState, from: nat, steps: seq<Step>, i: nat, j: nat, s: nat) returns (k: nat)
    requires Inv(w, from) && Timed(from, steps) && i <= j <= |steps|
    requires StageAt(w, from, steps, i) < s <= StageAt(w, from, steps, j)
    ensures i <= k < j && Enters(w, from, steps, k, s)
    decreases j
  {
    hide Inv, Next, At;
    OneStep(w, from, steps, j - 1);
    if s <= StageAt(w, from, steps, j - 1) {
      k := StageIsEntered(w, from, steps, i, j - 1, s);
    } else {
      k := j - 1;
    }
  }

  /** The thresholds of all stages passed through add up: the march takes five days, the war eight hours. */
  lemma {:induction false} TransitTime(w: WarState, from: nat, steps: seq<Step>, j: nat, a: nat, k: nat, b: nat)
    requires Inv(w, from) && Timed(from, steps) && j <= k && a <= b
    requires Enters(w, from, steps, j, a) && Enters(w, from, steps, k, b)
    ensures steps[k].Now() - steps[j].Now() >= LeastTimes(a, b)
    decreases b
  {
    hide Inv, Next, At;
    if a < b {
      StagesGrow(w, from, steps, j + 1, k);
      if a == b - 1 {
        StageOutlastsThreshold(w, from, steps, j, k, a);
      } else {
        var m := StageIsEntered(w, from, steps, j + 1, k, b - 1);
        TransitTime(w, from, steps, j, a, m, b - 1);
        StageOutlastsThreshold(w, from, steps, m, k, b - 1);
      }
    }
  }

  lemma MarchTakesFiveDays(w: WarState, from: nat, steps: seq<Step>, j: nat, k: nat)
    requires Inv(w, from) && Timed(from, steps) && j <= k
    requires Enters(w, from, steps, j, STAGE_READY) && Enters(w, from, steps, k, STAGE_GONG_WAIT)
    ensures steps[k].Now() - steps[j].Now() > 5 * MOVE_TRANSITION_TIME
  {
    TransitTime(w, from, steps, j, STAGE_READY, k, STAGE_GONG_WAIT);
    assert LeastTimes(1, 3) == LeastTime(1) + LeastTime(2);
    assert LeastTimes(1, 5) == LeastTimes(1, 3) + LeastTime(3) + LeastTime(4);
    assert LeastTimes(1, 7) == LeastTimes(1, 5) + LeastTime(5) + LeastTime(6);
  }
}
