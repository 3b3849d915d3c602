/**
 Progress of the war effort: when exactly a stage is left, how long the march takes at most, and
 what each stage shows.
 */
module WarEffortProgress {
  import opened Integers
  import opened GameEvents
  import opened WarEffort
  import opened WarEffortRuns

  // ---------------------------------------------------------------------------
  // Leaving a stage
  // ---------------------------------------------------------------------------

  /** Ten minutes behind the collection, a day for each march, four hours in the battles for the colossi. */
  function Wait(s: nat): (seconds: nat) {
    if s == 1 then 600
    else if 2 <= s <= 6 then 86400
    else if s == 9 || s == 10 then 14400
    else 0
  }

  predicate IsTimed(s: nat) {
    1 <= s <= 6 || s == 9 || s == 10
  }

  lemma TimedNext(v: SavedVars, t: Tick)
    requires IsTimed(v.stage) && v.lastTransition <= t.now < U32_RANGE
    ensures NextStage(v, t) == if t.now - v.lastTransition > Wait(v.stage) then v.stage + 1 else v.stage
  {
  }

  /** An update that finds a timed stage moves on exactly when its time has passed since the stage was entered. */
  lemma TimedStageLeftIff(w: WarState, from: nat, steps: seq<Step>, j: nat, k: nat, s: nat)
    requires Inv(w, from) && Timed(from, steps) && j < k < |steps| && IsTimed(s)
    requires Enters(w, from, steps, j, s) && StageAt(w, from, steps, k) == s && steps[k].Update?
    ensures StageAt(w, from, steps, k + 1) == s + 1 <==> steps[k].Now() - steps[j].Now() > Wait(s)
    ensures StageAt(w, from, steps, k + 1) == s || StageAt(w, from, steps, k + 1) == s + 1
  {
    hide Inv, At, NextTables, NextStage;
    TransitionTimeIsEntryTime(w, from, steps, j, k);
    OneStep(w, from, steps, k);
    TimedNext(At(w, from, steps, k).saved, steps[k].tick);
  }

  lemma UntimedNext(v: SavedVars, t: Tick)
    requires v.gong <= t.now < U32_RANGE && v.stage <= 12
    ensures v.stage == 0 ==> NextStage(v, t) == if t.collected then 1 else 0
    ensures v.stage == 7 ==> NextStage(v, t) == if v.gong != 0 then 8 else 7
    ensures v.stage == 8 ==> NextStage(v, t) == 9
    ensures v.stage == 11 ==> NextStage(v, t) == if t.now - v.gong > 36000 then 12 else 11
    ensures v.stage == 12 ==> NextStage(v, t) == 12
  {
  }

  /**
   The other stages: the collection is left exactly when all stock is complete, the wait when the
   gong was rung, the stage behind it at once, and the last battle ten hours behind the gong.
   */
  lemma UntimedStageLeftIff(w: WarState, from: nat, steps: seq<Step>, k: nat)
    requires Inv(w, from) && Timed(from, steps) && k < |steps| && steps[k].Update?
    ensures var gong, s, s' := At(w, from, steps, k).saved.gong, StageAt(w, from, steps, k), StageAt(w, from, steps, k + 1);
            && (s == 0 ==> s' == if steps[k].tick.collected then 1 else 0)
            && (s == 7 ==> s' == if gong != 0 then 8 else 7)
            && (s == 8 ==> s' == 9)
            && (s == 11 ==> s' == if steps[k].Now() - gong > 36000 then 12 else 11)
            && (s == 12 ==> s' == 12)
  {
    hide At, NextTables, NextStage, Knows, GateShut;
    OneStep(w, from, steps, k);
    GongInThePast(w, from, steps, k);
    var a := At(w, from, steps, k);
    assert a.saved.stage <= 12;
    UntimedNext(a.saved, steps[k].tick);
  }

  /** Only updates change the stage. */
  lemma OthersKeepStage(w: WarState, from: nat, steps: seq<Step>, k: nat)
    requires Inv(w, from) && Timed(from, steps) && k < |steps| && !steps[k].Update?
    ensures StageAt(w, from, steps, k + 1) == StageAt(w, from, steps, k)
  {
    hide Inv, At, Next;
    OneStep(w, from, steps, k);
  }

  /** The time at which the gong was last rung. */
  function LastRing(gong: nat, steps: seq<Step>, k: nat): (time: nat)
    requires k <= |steps|
  {
    if k == 0 then gong
    else if steps[k - 1].RingGong? then steps[k - 1].at
    else LastRing(gong, steps, k - 1)
  }

  lemma StepGong(a: WarState, clock: nat, step: Step)
    requires Inv(a, clock)
    ensures Next(a, step).saved.gong == if step.RingGong? then step.at else a.saved.gong
  {
    hide NextTables, Knows, GateShut, NextStage;
  }

  lemma StepIs(w: WarState, from: nat, steps: seq<Step>, k: nat)
    requires Inv(w, from) && Timed(from, steps) && k < |steps|
    ensures Inv(At(w, from, steps, k), if k == 0 then from else steps[k - 1].Now())
    ensures At(w, from, steps, k + 1) == Next(At(w, from, steps, k), steps[k])
  {
    hide Inv, Next;
  }

  lemma NoStep(w: WarState, from: nat, steps: seq<Step>)
    requires Inv(w, from) && Timed(from, steps)
    ensures At(w, from, steps, 0) == w
  {
  }

  /** The saved gong time is that of the last ring: updates never touch it. */
  lemma {:induction false} GongIsLastRing(w: WarState, from: nat, steps: seq<Step>, k: nat)
    requires Inv(w, from) && Timed(from, steps) && k <= |steps|
    ensures At(w, from, steps, k).saved.gong == LastRing(w.saved.gong, steps, k)
    decreases k
  {
    hide Inv, At, Next;
    if k == 0 {
      NoStep(w, from, steps);
    } else {
      GongIsLastRing(w, from, steps, k - 1);
      StepIs(w, from, steps, k - 1);
      StepGong(At(w, from, steps, k - 1), if k == 1 then from else steps[k - 2].Now(), steps[k - 1]);
    }
  }

  lemma StepAuto(a: WarState, clock: nat, step: Step)
    requires Inv(a, clock) && a.saved.lastAuto <= clock <= step.Now() < U32_RANGE
    ensures Next(a, step).saved.lastAuto ==
            if step.Update? && a.saved.stage == 0 && step.Now() - a.saved.lastAuto > step.tick.period then step.Now()
            else a.saved.lastAuto
  {
    hide NextTables, Knows, GateShut, NextStage;
  }

  /** The automatic contribution comes with updates of the collection, once its period has passed since the last one. */
  lemma {:induction false} AutomaticIff(w: WarState, from: nat, steps: seq<Step>, k: nat)
    requires Inv(w, from) && Timed(from, steps) && w.saved.lastAuto <= from && k < |steps|
    ensures var last := At(w, from, steps, k).saved.lastAuto;
            && last <= steps[k].Now()
            && At(w, from, steps, k + 1).saved.lastAuto ==
               if steps[k].Update? && StageAt(w, from, steps, k) == 0 && steps[k].Now() - last > steps[k].tick.period
               then steps[k].Now() else last
  {
    hide Inv, At, Next;
    if k == 0 {
      NoStep(w, from, steps);
    } else {
      AutomaticIff(w, from, steps, k - 1);
    }
    StepIs(w, from, steps, k);
    StepAuto(At(w, from, steps, k), if k == 0 then from else steps[k - 1].Now(), steps[k]);
  }

  // ---------------------------------------------------------------------------
  // An upper bound on the march
  // ---------------------------------------------------------------------------

  /** From step `j` on an update follows every step within `gap` seconds, unless the run is over before. */
  predicate Frequent(steps: seq<Step>, j: nat, gap: nat) {
    forall i :: j <= i < |steps| && steps[i].Now() + gap < steps[|steps| - 1].Now() ==> Follows(steps, i, gap)
  }

  predicate Follows(steps: seq<Step>, i: nat, gap: nat)
    requires i < |steps|
  {
    exists u :: i < u < |steps| && steps[u].Update? && steps[u].Now() <= steps[i].Now() + gap
  }

  /** The first update whose time lies beyond `limit`, not more than `gap` behind it. */
  lemma {:induction false} UpdateBehind(from: nat, steps: seq<Step>, i: nat, limit: nat, gap: nat) returns (u: nat)
    requires Timed(from, steps) && Frequent(steps, i, gap)
    requires i < |steps| && steps[i].Now() <= limit && limit + gap < steps[|steps| - 1].Now()
    ensures i < u < |steps| && steps[u].Update? && limit < steps[u].Now() <= limit + gap
    decreases |steps| - i
  {
    assert Follows(steps, i, gap);
    u :| i < u < |steps| && steps[u].Update? && steps[u].Now() <= steps[i].Now() + gap;
    if steps[u].Now() <= limit {
      u := UpdateBehind(from, steps, u, limit, gap);
    }
  }

  /** With frequent updates a timed stage is left at most `gap` seconds behind its time. */
  lemma TimedStageEnds(w: WarState, from: nat, steps: seq<Step>, j: nat, s: nat, gap: nat) returns (k: nat)
    requires Inv(w, from) && Timed(from, steps) && Enters(w, from, steps, j, s) && IsTimed(s)
    requires Frequent(steps, j, gap) && steps[j].Now() + Wait(s) + gap < steps[|steps| - 1].Now()
    ensures j < k && Enters(w, from, steps, k, s + 1) && steps[k].Now() <= steps[j].Now() + Wait(s) + gap
  {
    hide Inv, At, Wait;
    var u := UpdateBehind(from, steps, j, steps[j].Now() + Wait(s), gap);
    StagesGrow(w, from, steps, j + 1, u);
    if StageAt(w, from, steps, u) == s {
      TimedStageLeftIff(w, from, steps, j, u, s);
      k := u;
    } else {
      k := StageIsEntered(w, from, steps, j + 1, u, s + 1);
    }
  }

  lemma FrequentLater(steps: seq<Step>, j: nat, k: nat, gap: nat)
    requires Frequent(steps, j, gap) && j <= k
    ensures Frequent(steps, k, gap)
  {
    hide Follows;
  }

  /** The times of the stages from `a` to `b`, with the gap between updates added to each. */
  function MostTimes(a: nat, b: nat, gap: nat): (seconds: nat)
    requires a <= b
    decreases b - a
  {
    if a == b then 0 else Wait(a) + gap + MostTimes(a + 1, b, gap)
  }

  lemma {:induction false} TimedStagesEnd(w: WarState, from: nat, steps: seq<Step>, j: nat, a: nat, b: nat, gap: nat) returns (k: nat)
    requires Inv(w, from) && Timed(from, steps) && Enters(w, from, steps, j, a) && a <= b
    requires forall s :: a <= s < b ==> IsTimed(s)
    requires Frequent(steps, j, gap) && steps[j].Now() + MostTimes(a, b, gap) < steps[|steps| - 1].Now()
    ensures j <= k && Enters(w, from, steps, k, b) && steps[k].Now() <= steps[j].Now() + MostTimes(a, b, gap)
    decreases b - a
  {
    hide Inv, At, Wait;
    k := j;
    if a < b {
      var m := TimedStageEnds(w, from, steps, j, a, gap);
      FrequentLater(steps, j, m, gap);
      k := TimedStagesEnd(w, from, steps, m, a + 1, b, gap);
    }
  }

  /** With an update every `gap` seconds the march is over five days, ten minutes and six gaps behind the collection. */
  lemma MarchEnds(w: WarState, from: nat, steps: seq<Step>, j: nat, gap: nat) returns (k: nat)
    requires Inv(w, from) && Timed(from, steps) && Enters(w, from, steps, j, 1)
    requires Frequent(steps, j, gap) && steps[j].Now() + 432600 + 6 * gap < steps[|steps| - 1].Now()
    ensures j <= k && Enters(w, from, steps, k, 7) && steps[k].Now() <= steps[j].Now() + 432600 + 6 * gap
  {
    hide Inv, At;
    assert MostTimes(5, 7, gap) == 2 * (86400 + gap);
    assert MostTimes(3, 7, gap) == 2 * (86400 + gap) + MostTimes(5, 7, gap);
    assert MostTimes(1, 7, gap) == (600 + gap) + (86400 + gap) + MostTimes(3, 7, gap);
    k := TimedStagesEnd(w, from, steps, j, 1, 7, gap);
  }

  // ---------------------------------------------------------------------------
  // What a stage shows
  // ---------------------------------------------------------------------------

  /** The stages in which an event runs, by the event's id. */
  predicate ShownIn(id: nat, stage: nat) {
    match id
    case 22 => stage <= 6
    case 52 => true
    case 53 => 1 <= stage
    case 54 => 2 <= stage <= 11
    case 55 => 3 <= stage <= 11
    case 56 => 4 <= stage <= 11
    case 57 => 5 <= stage <= 11
    case 58 => 6 <= stage <= 11
    case 59 => stage == 10
    case 61 => stage == 11
    case 65 => 9 <= stage <= 11
    case 83 => stage <= 7
    case 85 => 7 <= stage <= 11
    case 86 => stage == 12
    case _ => false
  }

  lemma RowEntryShown(stage: nat, k: nat)
    requires stage <= 12 && k < |STAGE_EVENTS[stage]|
    ensures STAGE_EVENTS[stage][k] != 0 ==> ShownIn(STAGE_EVENTS[stage][k], stage)
  {
  }

  /** Where an event stands in the row of a stage that shows it. */
  function Place(id: nat, stage: nat): (k: nat) {
    if id == 22 then 0
    else if id == 52 then (if stage <= 6 then 1 else 0)
    else if id == 53 then (if stage <= 6 then 2 else 1)
    else if 54 <= id <= 58 then (if stage <= 6 then id - 51 else id - 52)
    else if id == 59 || id == 61 then 9
    else if id == 65 then 8
    else if id == 83 then (if stage == 0 then 2 else if stage <= 6 then stage + 2 else 8)
    else if id == 85 then 7
    else 2
  }

  lemma ShownIsListed(id: nat, stage: nat)
    requires stage <= 12 && ShownIn(id, stage)
    ensures id in STAGE_EVENTS[stage] && id != 0
  {
    assert STAGE_EVENTS[stage][Place(id, stage)] == id;
  }

  /** Officers come when the collection is over, one more day of troops with each march, crystals with the battle, and so on. */
  lemma RowShows(stage: nat, id: nat)
    requires stage <= 12
    ensures id in Row(stage) <==> ShownIn(id, stage)
  {
    if id in Row(stage) {
      var row := STAGE_EVENTS[stage];
      var k :| 0 <= k < |row| && row[k] == id;
      RowEntryShown(stage, k);
    }
    if ShownIn(id, stage) {
      hide ShownIn;
      ShownIsListed(id, stage);
    }
  }

  /** The events that the stages switch. */
  predicate Switched(id: nat) {
    id == 22 || 52 <= id <= 61 || id == 65 || id == 83 || id == 85 || id == 86
  }

  lemma TrackedAt(k: nat)
    requires k < |TRACKED|
    ensures TRACKED[k] != 0 ==> Switched(TRACKED[k])
  {
  }

  lemma SwitchedAt(id: nat)
    requires Switched(id)
    ensures id in TRACKED
  {
    var k := if id == 22 then 0 else if id <= 61 then id - 51 else if id == 65 then 11
             else if id == 83 then 12 else if id == 85 then 13 else 14;
    assert TRACKED[k] == id;
  }

  lemma TrackedAre(id: nat)
    ensures id in Tracked() <==> Switched(id)
  {
    if Switched(id) {
      SwitchedAt(id);
    }
    if id in Tracked() {
      var row := TRACKED;
      var k :| 0 <= k < |row| && row[k] == id;
      TrackedAt(k);
    }
  }

  lemma ReconciledShows(m: MgrState, stage: nat, id: nat)
    requires Knows(m) && stage <= 12
    ensures Knows(Reconciled(m, stage))
    ensures id in Reconciled(m, stage).active <==> if Switched(id) then ShownIn(id, stage) else id in m.active
  {
    hide Reconciled, Row, Tracked, Knows, ShownIn, Switched;
    ReconciledFollowsRow(m, stage);
    TrackedAre(id);
    RowShows(stage, id);
  }

  /** An event that comes is enabled and one that goes is disabled; nothing else in the table changes. */
  lemma SwitchedAreEnabled(m: MgrState, stage: nat, id: nat)
    requires Knows(m) && stage <= 12 && id < |m.events|
    ensures id < |Reconciled(m, stage).events|
    ensures Reconciled(m, stage).events[id] ==
            if Switched(id) && (id in m.active) != ShownIn(id, stage)
            then m.events[id].(disabled := !ShownIn(id, stage)) else m.events[id]
  {
    hide Row, Tracked, Knows, ShownIn, Switched;
    TrackedAre(id);
    RowShows(stage, id);
    RowsAreTracked(stage);
  }

  lemma StartShows(m: MgrState, id: nat, wanted: bool, overwrite: bool, now: int, i: nat)
    requires m.IsValidEvent(id)
    ensures i in StartedUnlessActive(m, id, wanted, overwrite, now).active <==> i in m.active || (wanted && i == id)
  {
  }

  /** The war effort itself and the battles for the colossi that were slain are started. */
  lemma StartsShow(m: MgrState, t: Tick, id: nat)
    requires Knows(m)
    ensures id in ColossusBattles(StartedUnlessActive(m, WAR_EFFORT, true, false, t.now), t).active <==>
            id in m.active || id == 84 || (t.ashi && id == 62) || (t.zora && id == 64) || (t.regal && id == 63)
  {
    hide StartedUnlessActive, Tracked, SameShape, MgrState.Valid;
    var m1 := StartedUnlessActive(m, WAR_EFFORT, true, false, t.now);
    StartKeepsKnown(m, WAR_EFFORT, true, false, t.now);
    StartShows(m, WAR_EFFORT, true, false, t.now, id);
    var m2 := StartedUnlessActive(m1, BATTLE_ASHI, t.ashi, true, t.now);
    StartKeepsKnown(m1, BATTLE_ASHI, t.ashi, true, t.now);
    StartShows(m1, BATTLE_ASHI, t.ashi, true, t.now, id);
    var m3 := StartedUnlessActive(m2, BATTLE_ZORA, t.zora, true, t.now);
    StartKeepsKnown(m2, BATTLE_ZORA, t.zora, true, t.now);
    StartShows(m2, BATTLE_ZORA, t.zora, true, t.now, id);
    StartShows(m3, BATTLE_REGAL, t.regal, true, t.now, id);
  }

  /** The stage whose events run behind an update that found stage `v.stage`. */
  function ShownStage(v: SavedVars, t: Tick): (stage: nat) {
    if v.stage == 8 then 9
    else if v.stage == 11 && NextStage(v, t) == 12 then 12
    else v.stage
  }

  /** What runs behind an update below the last stage. */
  lemma UpdateShows(m: MgrState, v: SavedVars, t: Tick, id: nat)
    requires Knows(m) && v.stage < 12
    ensures id in NextTables(m, v, t).active <==>
            if Switched(id) then ShownIn(id, ShownStage(v, t))
            else id in m.active || id == 84 || (t.ashi && id == 62) || (t.zora && id == 64) || (t.regal && id == 63)
  {
    hide Knows, Reconciled, AllStopped, ColossusBattles, StartedUnlessActive, ShownIn, NextStage;
    var m1 := Reconciled(m, v.stage);
    ReconciledShows(m, v.stage, id);
    var m2 := ColossusBattles(StartedUnlessActive(m1, WAR_EFFORT, true, false, t.now), t);
    StartsKeepKnown(m1, t);
    StartsShow(m1, t, id);
    if v.stage == 8 {
      GateStopped(m2);
      ReconciledShows(AllStopped(m2, {AQ_GATE}), 9, id);
    } else if v.stage == 9 || (v.stage == 11 && NextStage(v, t) == 12) {
      ReconciledShows(m2, if v.stage == 9 then 9 else 12, id);
    }
  }

  lemma GateStopped(m: MgrState)
    requires Knows(m)
    ensures Knows(AllStopped(m, {AQ_GATE}))
    ensures forall id :: id != 83 ==> (id in AllStopped(m, {AQ_GATE}).active <==> id in m.active)
  {
    StoppingKeepsKnown(m, {AQ_GATE});
    hide Knows;
  }

  /** When all is over only the officers, representatives and what follows the war are left. */
  lemma CompleteShows(m: MgrState, v: SavedVars, t: Tick, id: nat)
    requires Knows(m) && v.stage == 12
    ensures id in NextTables(m, v, t).active <==>
            if Switched(id) then id == 52 || id == 53 || id == 86
            else id in m.active && id != 84 && id != 62 && id != 63 && id != 64
  {
    hide Knows, Reconciled;
    var m1 := Reconciled(m, v.stage);
    ReconciledShows(m, 12, id);
    StopKeepsKnown(m1, t.now);
    WarEffortStopped(m1, t.now, id);
  }

  lemma WarEffortStopped(m: MgrState, now: int, id: nat)
    requires Knows(m)
    ensures id in (if WAR_EFFORT in m.active then Stopped(m, WAR_EFFORT, false, now) else m).active <==>
            id in m.active && id != 84
  {
  }
}
