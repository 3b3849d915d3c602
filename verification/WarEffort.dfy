/**
 The Ahn'Qiraj war effort: a machine of 13 stages that keeps a fixed table of game events
 in step with its stage, driven by the clock, the stock of materials and the gong.
 */
module WarEffort {
  import opened Integers
  import opened GameEvents

  // Game event ids
  const COLLECT_OBJ: nat := 22
  const REP: nat := 52
  const OFFICERS: nat := 53
  const DAY1: nat := 54
  const DAY2: nat := 55
  const DAY3: nat := 56
  const DAY4: nat := 57
  const DAY5: nat := 58
  const CH_ATTACK: nat := 59
  const TROOPS2: nat := 60
  const FINALBATTLE: nat := 61
  const BATTLE_ASHI: nat := 62
  const BATTLE_REGAL: nat := 63
  const BATTLE_ZORA: nat := 64
  const WORLD_CRYSTALS: nat := 65
  const AQ_GATE: nat := 83
  const WAR_EFFORT: nat := 84
  const GONG: nat := 85
  const POST_WAR: nat := 86

  // Stages
  const STAGE_COLLECTION: nat := 0
  const STAGE_READY: nat := 1
  const STAGE_MOVE_1: nat := 2
  const STAGE_MOVE_5: nat := 6
  const STAGE_GONG_WAIT: nat := 7
  const STAGE_GONG_RUNG: nat := 8
  const STAGE_BATTLE: nat := 9
  const STAGE_CH_ATTACK: nat := 10
  const STAGE_FINALBATTLE: nat := 11
  const STAGE_COMPLETE: nat := 12

  const HOUR: nat := 3600
  const COLLECTION_TRANSITION_TIME: nat := 600
  const MOVE_TRANSITION_TIME: nat := 86400
  const GONG_DURATION: nat := 10 * HOUR
  const CH_ATTACK_TIME: nat := 4 * HOUR
  const FINAL_BATTLE_TIME: nat := 4 * HOUR

  /** The events the stage table may switch; unused places of the array hold 0. */
  const TRACKED: seq<nat> := [
    COLLECT_OBJ, REP, OFFICERS, DAY1, DAY2, DAY3, DAY4, DAY5, CH_ATTACK, TROOPS2,
    FINALBATTLE, WORLD_CRYSTALS, AQ_GATE, GONG, POST_WAR, 0, 0, 0, 0, 0]

  /** The events enabled in each stage; unused places of a row hold 0. */
  const STAGE_EVENTS: seq<seq<nat>> := [
    [COLLECT_OBJ, REP, AQ_GATE, 0, 0, 0, 0, 0, 0, 0],
    [COLLECT_OBJ, REP, OFFICERS, AQ_GATE, 0, 0, 0, 0, 0, 0],
    [COLLECT_OBJ, REP, OFFICERS, DAY1, AQ_GATE, 0, 0, 0, 0, 0],
    [COLLECT_OBJ, REP, OFFICERS, DAY1, DAY2, AQ_GATE, 0, 0, 0, 0],
    [COLLECT_OBJ, REP, OFFICERS, DAY1, DAY2, DAY3, AQ_GATE, 0, 0, 0],
    [COLLECT_OBJ, REP, OFFICERS, DAY1, DAY2, DAY3, DAY4, AQ_GATE, 0, 0],
    [COLLECT_OBJ, REP, OFFICERS, DAY1, DAY2, DAY3, DAY4, DAY5, AQ_GATE, 0],
    [REP, OFFICERS, DAY1, DAY2, DAY3, DAY4, DAY5, GONG, AQ_GATE, 0],
    [REP, OFFICERS, DAY1, DAY2, DAY3, DAY4, DAY5, GONG, 0, 0],
    [REP, OFFICERS, DAY1, DAY2, DAY3, DAY4, DAY5, GONG, WORLD_CRYSTALS, 0],
    [REP, OFFICERS, DAY1, DAY2, DAY3, DAY4, DAY5, GONG, WORLD_CRYSTALS, CH_ATTACK],
    [REP, OFFICERS, DAY1, DAY2, DAY3, DAY4, DAY5, GONG, WORLD_CRYSTALS, FINALBATTLE],
    [REP, OFFICERS, POST_WAR, 0, 0, 0, 0, 0, 0, 0]]

  ghost function Nonzero(row: seq<nat>): set<nat> {
    set id | id in row && id != 0
  }

  ghost function Row(stage: nat): set<nat>
    requires stage <= STAGE_COMPLETE
  {
    Nonzero(STAGE_EVENTS[stage])
  }

  ghost function Tracked(): set<nat> {
    Nonzero(TRACKED)
  }

  predicate Distinct(s: seq<nat>) {
    forall i, j :: 0 <= i < j < |s| ==> s[i] != s[j]
  }

  /** The war effort's own events are usable entries of the event table. */
  ghost predicate Knows(s: MgrState) {
    && s.Valid()
    && (forall id :: id in Tracked() ==> s.IsValidEvent(id))
    && s.IsValidEvent(WAR_EFFORT)
    && s.IsValidEvent(BATTLE_ASHI) && s.IsValidEvent(BATTLE_REGAL) && s.IsValidEvent(BATTLE_ZORA)
  }

  /** Tables of the same shape know the same events. */
  lemma SameShapeKnows(s: MgrState, t: MgrState)
    requires Knows(s) && t.Valid() && SameShape(s, t)
    ensures Knows(t)
  {
    forall id | id in Tracked()
      ensures t.IsValidEvent(id)
    {
      assert s.IsValidEvent(id);
    }
  }

  /** All events of `ids` stopped and disabled. */
  ghost function AllStopped(s: MgrState, ids: set<nat>): (r: MgrState) {
    s.(active := s.active - ids,
       events := seq(|s.events|, i requires 0 <= i < |s.events| =>
                       if i in ids then s.events[i].(disabled := true) else s.events[i]))
  }

  /** All events of `ids` enabled and started. */
  ghost function AllStarted(s: MgrState, ids: set<nat>): (r: MgrState) {
    s.(active := s.active + ids,
       events := seq(|s.events|, i requires 0 <= i < |s.events| =>
                       if i in ids then s.events[i].(disabled := false) else s.events[i]))
  }

  /** Reconciliation as one change of the tables: stop what is not required, start what is missing. */
  ghost function ReconciledTo(s: MgrState, row: set<nat>, tracked: set<nat>): (r: MgrState)
  {
    AllStarted(AllStopped(s, s.active * tracked - row), row - s.active)
  }

  ghost function Reconciled(s: MgrState, stage: nat): (r: MgrState)
    requires stage <= STAGE_COMPLETE
  {
    ReconciledTo(s, Row(stage), Tracked())
  }

  /** Every row is made of tracked events. */
  lemma RowsAreTracked(stage: nat)
    requires stage <= STAGE_COMPLETE
    ensures Row(stage) <= Tracked()
    ensures AQ_GATE in Row(stage) <==> stage <= STAGE_GONG_WAIT
    ensures AQ_GATE in Tracked()
    ensures DistinctEntries(STAGE_EVENTS[stage]) && DistinctEntries(TRACKED)
  {
    RowDistinct(stage);
    TrackedDistinct();
    assert TRACKED[12] == AQ_GATE;
    forall id | id in Row(stage)
      ensures id in Tracked()
    {
      var row := STAGE_EVENTS[stage];
      var k :| 0 <= k < |row| && row[k] == id;
      RowEntryTracked(stage, k);
    }
    if stage <= STAGE_GONG_WAIT {
      GateInRow(stage);
    }
  }

  lemma RowEntryTracked(stage: nat, k: nat)
    requires stage <= STAGE_COMPLETE && k < |STAGE_EVENTS[stage]|
    ensures STAGE_EVENTS[stage][k] in TRACKED
    ensures STAGE_EVENTS[stage][k] == AQ_GATE ==> stage <= STAGE_GONG_WAIT
  {
  }

  lemma GateInRow(stage: nat)
    requires stage <= STAGE_GONG_WAIT
    ensures AQ_GATE in STAGE_EVENTS[stage]
  {
    var k := if stage == 0 then 2 else if stage <= 6 then stage + 2 else 8;
    assert STAGE_EVENTS[stage][k] == AQ_GATE;
  }

  predicate DistinctEntries(row: seq<nat>) {
    forall i, j :: 0 <= i < j < |row| && row[i] != 0 ==> row[i] != row[j]
  }

  lemma RowDistinct(stage: nat)
    requires stage <= STAGE_COMPLETE
    ensures DistinctEntries(STAGE_EVENTS[stage])
  {
  }

  lemma TrackedDistinct()
    ensures DistinctEntries(TRACKED)
  {
  }

  /** The reconciliation with any row of tracked events. */
  lemma ReconciledToFollows(s: MgrState, row: set<nat>, tracked: set<nat>)
    requires row <= tracked && s.Valid() && forall id :: id in tracked ==> s.IsValidEvent(id)
    ensures var r := ReconciledTo(s, row, tracked);
            && r.Valid() && SameShape(s, r)
            && (forall id :: id in tracked ==> (id in r.active <==> id in row))
            && (forall id :: id !in tracked ==> (id in r.active <==> id in s.active))
            && (forall id :: id !in tracked && 0 <= id < |s.events| ==> r.events[id] == s.events[id])
  {
  }

  /** What the reconciliation is for: exactly the row is active among the tracked events. */
  lemma ReconciledFollowsRow(s: MgrState, stage: nat)
    requires Knows(s) && stage <= STAGE_COMPLETE
    ensures Knows(Reconciled(s, stage))
    ensures forall id :: id in Tracked() ==> (id in Reconciled(s, stage).active <==> id in Row(stage))
    ensures forall id :: id !in Tracked() ==> (id in Reconciled(s, stage).active <==> id in s.active)
    ensures forall id :: id !in Tracked() && 0 <= id < |s.events| ==> Reconciled(s, stage).events[id] == s.events[id]
  {
    RowsAreTracked(stage);
    hide Row, Tracked, SameShape, MgrState.Valid, MgrState.IsValidEvent, ReconciledTo;
    ReconciledToFollows(s, Row(stage), Tracked());
    SameShapeKnows(s, Reconciled(s, stage));
  }

  lemma StoppingKeepsKnown(s: MgrState, ids: set<nat>)
    requires Knows(s)
    ensures Knows(AllStopped(s, ids)) && s.IsValidEvent(AQ_GATE)
  {
    RowsAreTracked(STAGE_BATTLE);
    hide Tracked;
    SameShapeKnows(s, AllStopped(s, ids));
  }

  lemma StopOneMore(s: MgrState, ids: set<nat>, id: nat)
    ensures AllStopped(AllStopped(s, ids), {id}) == AllStopped(s, ids + {id})
  {
  }

  lemma StartOneMore(s: MgrState, ids: set<nat>, id: nat)
    ensures AllStarted(AllStarted(s, ids), {id}) == AllStarted(s, ids + {id})
  {
  }

  /** Position of `x` in `s`, |s| if it does not occur. */
  method FindIndex(s: seq<nat>, x: nat) returns (k: nat)
    ensures k <= |s|
    ensures k < |s| ==> s[k] == x
    ensures k == |s| ==> x !in s
  {
    k := 0;
    while k < |s| && s[k] != x
      invariant k <= |s|
      invariant x !in s[..k]
    {
      k := k + 1;
    }
  }

  function Without(s: seq<nat>, k: nat): (r: seq<nat>)
    requires k < |s|
  {
    s[..k] + s[k + 1..]
  }

  /** The elements of `s` that `t` does not have, in their order. */
  function Minus(s: seq<nat>, t: seq<nat>): (r: seq<nat>)
    ensures forall x :: x in r <==> x in s && x !in t
  {
    if s == [] then []
    else
      var n := |s| - 1;
      Minus(s[..n], t) + if s[n] in t then [] else [s[n]]
  }

  lemma MinusStep(s: seq<nat>, n: nat, t: seq<nat>)
    requires n < |s|
    ensures Minus(s[..n + 1], t) == Minus(s[..n], t) + if s[n] in t then [] else [s[n]]
  {
    assert s[..n + 1][..n] == s[..n];
  }

  lemma {:induction false} MinusDistinct(s: seq<nat>, t: seq<nat>)
    requires Distinct(s)
    ensures Distinct(Minus(s, t))
  {
    if s != [] {
      MinusDistinct(s[..|s| - 1], t);
    }
  }

  lemma {:induction false} MinusNothing(s: seq<nat>)
    ensures Minus(s, []) == s
  {
    if s != [] {
      MinusNothing(s[..|s| - 1]);
    }
  }

  lemma {:induction false} MinusSame(s: seq<nat>, t: seq<nat>, u: seq<nat>)
    requires forall x :: x in s ==> (x in t <==> x in u)
    ensures Minus(s, t) == Minus(s, u)
  {
    if s != [] {
      MinusSame(s[..|s| - 1], t, u);
    }
  }

  lemma WithoutFront(a: seq<nat>, b: seq<nat>, k: nat)
    requires k < |a|
    ensures Without(a + b, k) == Without(a, k) + b
  {
    assert (a + b)[..k] == a[..k];
    assert (a + b)[k + 1..] == a[k + 1..] + b;
  }

  lemma WithoutMiddle(a: seq<nat>, x: nat, b: seq<nat>)
    ensures Without(a + [x] + b, |a|) == a + b
  {
    assert (a + [x] + b)[..|a|] == a;
    assert (a + [x] + b)[|a| + 1..] == b;
  }

  lemma DistinctFront(s: seq<nat>)
    requires Distinct(s) && s != []
    ensures Distinct(s[..|s| - 1]) && s[|s| - 1] !in s[..|s| - 1]
  {
  }

  lemma MinusLast(s: seq<nat>, t: seq<nat>)
    requires s != []
    ensures Minus(s, t) == Minus(s[..|s| - 1], t) + if s[|s| - 1] in t then [] else [s[|s| - 1]]
  {
  }

  /** Leaving out one more element is erasing it. */
  lemma {:induction false} MinusOneMore(s: seq<nat>, t: seq<nat>, u: seq<nat>, k: nat)
    requires Distinct(s) && k < |Minus(s, t)|
    requires forall x :: x in u <==> x in t || x == Minus(s, t)[k]
    ensures Minus(s, u) == Without(Minus(s, t), k)
  {
    hide Minus, Without, Distinct;
    assert Minus(s, t)[k] in Minus(s, t);
    var n := |s| - 1;
    var m := Minus(s[..n], t);
    MinusLast(s, t);
    MinusLast(s, u);
    DistinctFront(s);
    if k < |m| {
      var rest := if s[n] in t then [] else [s[n]];
      assert m[k] in m;
      MinusOneMore(s[..n], t, u, k);
      WithoutFront(m, rest, k);
    } else {
      MinusSame(s[..n], t, u);
      WithoutMiddle(m, s[n], []);
      assert m + [s[n]] + [] == m + [s[n]];
      assert m + [] == m;
    }
  }

  /** The state of the two lists when `n` elements of the first have been looked at. */
  predicate Cancelled(required0: seq<nat>, active0: seq<nat>, n: nat, required: seq<nat>, active: seq<nat>, i: nat) {
    && n <= |required0| && i == |Minus(required0[..n], active0)|
    && required == Minus(required0[..n], active0) + required0[n..]
    && active == Minus(active0, required0[..n])
  }

  lemma CancelStart(required0: seq<nat>, active0: seq<nat>)
    ensures Cancelled(required0, active0, 0, required0, active0, 0)
  {
    MinusNothing(active0);
    assert Minus([], active0) == [];
  }

  /** The element that is looked at next. */
  lemma CancelNext(required0: seq<nat>, active0: seq<nat>, n: nat, required: seq<nat>, active: seq<nat>, i: nat)
    requires Distinct(required0) && Cancelled(required0, active0, n, required, active, i) && i < |required|
    ensures n < |required0| && required[i] == required0[n] && required0[n] !in required0[..n]
    ensures required == Minus(required0[..n], active0) + [required0[n]] + required0[n + 1..]
    ensures required0[..n + 1] == required0[..n] + [required0[n]]
  {
    hide Minus;
    assert required0[n..] == [required0[n]] + required0[n + 1..];
  }

  /** An element of both lists is erased from both. */
  lemma CancelErases(
    required0: seq<nat>, active0: seq<nat>, n: nat, required: seq<nat>, active: seq<nat>, i: nat, k: nat)
    requires Distinct(required0) && Distinct(active0) && Cancelled(required0, active0, n, required, active, i)
    requires i < |required| && k < |active| && active[k] == required[i]
    ensures Cancelled(required0, active0, n + 1, Without(required, i), Without(active, k), i)
  {
    CancelNext(required0, active0, n, required, active, i);
    hide Minus, Without, Distinct;
    var m := Minus(required0[..n], active0);
    assert active[k] in active;
    MinusStep(required0, n, active0);
    assert m + [] == m;
    MinusOneMore(active0, required0[..n], required0[..n + 1], k);
    WithoutMiddle(m, required0[n], required0[n + 1..]);
  }

  /** An element of the first list alone is passed by. */
  lemma CancelPasses(required0: seq<nat>, active0: seq<nat>, n: nat, required: seq<nat>, active: seq<nat>, i: nat)
    requires Distinct(required0) && Cancelled(required0, active0, n, required, active, i)
    requires i < |required| && required[i] !in active
    ensures Cancelled(required0, active0, n + 1, required, active, i + 1)
  {
    CancelNext(required0, active0, n, required, active, i);
    hide Minus, Distinct;
    assert required0[n] !in active0;
    MinusStep(required0, n, active0);
    MinusSame(active0, required0[..n], required0[..n + 1]);
  }

  lemma CancelEnd(required0: seq<nat>, active0: seq<nat>, n: nat, required: seq<nat>, active: seq<nat>)
    requires Cancelled(required0, active0, n, required, active, |required|)
    ensures required == Minus(required0, active0) && active == Minus(active0, required0)
  {
    hide Minus;
    assert n == |required0|;
    assert required0[..n] == required0;
  }

  /** Cancels common elements of two lists by erasing them from both, in one pass over the first. */
  method CancelCommon(required0: seq<nat>, active0: seq<nat>) returns (required: seq<nat>, active: seq<nat>)
    requires Distinct(required0) && Distinct(active0)
    ensures required == Minus(required0, active0) && active == Minus(active0, required0)
    ensures Distinct(required) && Distinct(active)
    ensures forall x :: x in required <==> x in required0 && x !in active0
    ensures forall x :: x in active <==> x in active0 && x !in required0
  {
    hide Minus, Cancelled, Distinct;
    required, active := required0, active0;
    var i := 0;
    ghost var n := 0;
    CancelStart(required0, active0);
    while i < |required|
      invariant i <= |required| && Cancelled(required0, active0, n, required, active, i)
      decreases |required| - i
    {
      var k := FindIndex(active, required[i]);
      if k < |active| {
        CancelErases(required0, active0, n, required, active, i, k);
        required := Without(required, i);
        active := Without(active, k);
      } else {
        CancelPasses(required0, active0, n, required, active, i);
        i := i + 1;
      }
      n := n + 1;
    }
    CancelEnd(required0, active0, n, required, active);
    MinusDistinct(required0, active0);
    MinusDistinct(active0, required0);
  }

  // ---------------------------------------------------------------------------
  // The machine as a function
  // ---------------------------------------------------------------------------

  /** The variables the event keeps in the saved-variable store. */
  datatype SavedVars = SavedVars(stage: nat, lastTransition: nat, gong: nat, lastAuto: nat)

  /** The saved variables and the game event tables. */
  datatype WarState = WarState(saved: SavedVars, tables: MgrState)

  /** What one update sees: the clock, whether the collection is done, slain colossi, the config period. */
  datatype Tick = Tick(now: nat, collected: bool, ashi: bool, zora: bool, regal: bool, period: nat)

  /** The stage after one update that finds stage below COMPLETE. */
  function NextStage(v: SavedVars, t: Tick): (stage: nat)
  {
    var inStage := U32(t.now - v.lastTransition);
    if v.stage == STAGE_COLLECTION then (if t.collected then STAGE_READY else v.stage)
    else if v.stage == STAGE_READY then (if inStage > COLLECTION_TRANSITION_TIME then STAGE_MOVE_1 else v.stage)
    else if STAGE_MOVE_1 <= v.stage <= STAGE_MOVE_5 then (if inStage > MOVE_TRANSITION_TIME then v.stage + 1 else v.stage)
    else if v.stage == STAGE_GONG_WAIT then (if v.gong != 0 then STAGE_GONG_RUNG else v.stage)
    else if v.stage == STAGE_GONG_RUNG then STAGE_BATTLE
    else if v.stage == STAGE_BATTLE then (if inStage > CH_ATTACK_TIME then STAGE_CH_ATTACK else v.stage)
    else if v.stage == STAGE_CH_ATTACK then (if inStage > FINAL_BATTLE_TIME then STAGE_FINALBATTLE else v.stage)
    else if v.stage == STAGE_FINALBATTLE then (if U32(t.now - v.gong) > GONG_DURATION then STAGE_COMPLETE else v.stage)
    else v.stage
  }

  function NextSaved(v: SavedVars, t: Tick): (v': SavedVars)
  {
    SavedVars(
      NextStage(v, t),
      if NextStage(v, t) != v.stage then t.now else v.lastTransition,
      if v.stage == STAGE_GONG_RUNG && v.gong == 0 then t.now else v.gong,
      if v.stage == STAGE_COLLECTION && U32(t.now - v.lastAuto) > t.period then t.now else v.lastAuto)
  }

  function StartedUnlessActive(m: MgrState, id: nat, wanted: bool, overwrite: bool, now: int): (r: MgrState)
  {
    if wanted && id !in m.active then Started(m, id, overwrite, now) else m
  }

  /** The tables after the battles of slain colossi are started. */
  function ColossusBattles(m: MgrState, t: Tick): (r: MgrState)
  {
    var m1 := StartedUnlessActive(m, BATTLE_ASHI, t.ashi, true, t.now);
    var m2 := StartedUnlessActive(m1, BATTLE_ZORA, t.zora, true, t.now);
    StartedUnlessActive(m2, BATTLE_REGAL, t.regal, true, t.now)
  }

  /** The tables after one update in stage `v.stage`. */
  ghost function NextTables(m: MgrState, v: SavedVars, t: Tick): (r: MgrState)
    requires v.stage <= STAGE_COMPLETE
  {
    var m1 := Reconciled(m, v.stage);
    if v.stage == STAGE_COMPLETE then
      var m2 := if WAR_EFFORT in m1.active then Stopped(m1, WAR_EFFORT, false, t.now) else m1;
      AllStopped(m2, {AQ_GATE, BATTLE_ASHI, BATTLE_REGAL, BATTLE_ZORA})
    else
      AfterStage(ColossusBattles(StartedUnlessActive(m1, WAR_EFFORT, true, false, t.now), t), v, t)
  }

  /** What the switch over the stages does to the tables. */
  ghost function AfterStage(m: MgrState, v: SavedVars, t: Tick): (r: MgrState)
  {
    if v.stage == STAGE_GONG_RUNG then Reconciled(AllStopped(m, {AQ_GATE}), STAGE_BATTLE)
    else if v.stage == STAGE_BATTLE then Reconciled(m, STAGE_BATTLE)
    else if v.stage == STAGE_FINALBATTLE && NextStage(v, t) == STAGE_COMPLETE then Reconciled(m, STAGE_COMPLETE)
    else m
  }

  lemma StartKeepsKnown(m: MgrState, id: nat, wanted: bool, overwrite: bool, now: int)
    requires Knows(m)
    ensures Knows(StartedUnlessActive(m, id, wanted, overwrite, now))
    ensures SameShape(m, StartedUnlessActive(m, id, wanted, overwrite, now))
  {
    hide Tracked;
    CalledKeepsValid(m, Start(id, overwrite), now);
    SameShapeKnows(m, StartedUnlessActive(m, id, wanted, overwrite, now));
  }

  lemma StartsKeepKnown(m: MgrState, t: Tick)
    requires Knows(m)
    ensures Knows(ColossusBattles(StartedUnlessActive(m, WAR_EFFORT, true, false, t.now), t))
  {
    hide Knows, SameShape;
    var m1 := StartedUnlessActive(m, WAR_EFFORT, true, false, t.now);
    StartKeepsKnown(m, WAR_EFFORT, true, false, t.now);
    var m2 := StartedUnlessActive(m1, BATTLE_ASHI, t.ashi, true, t.now);
    StartKeepsKnown(m1, BATTLE_ASHI, t.ashi, true, t.now);
    StartKeepsKnown(m2, BATTLE_ZORA, t.zora, true, t.now);
    StartKeepsKnown(StartedUnlessActive(m2, BATTLE_ZORA, t.zora, true, t.now), BATTLE_REGAL, t.regal, true, t.now);
  }

  ghost function Advanced(w: WarState, t: Tick): (r: WarState)
    requires w.saved.stage <= STAGE_COMPLETE
  {
    WarState(NextSaved(w.saved, t), NextTables(w.tables, w.saved, t))
  }

  // ---------------------------------------------------------------------------
  // The event object
  // ---------------------------------------------------------------------------

  /** The stock of one material for one team, if the material is known. */
  datatype Stock = Unknown | Stock(count: nat, required: nat)

  const OBJECTIVE_GOAL: nat := 30

  ghost predicate Complete(s: Stock) {
    s.Stock? && s.count >= s.required
  }

  class WarEffortEvent {
    var stage: nat
    var lastStageTransitionTime: nat
    var gongRingTime: nat
    var lastAutoCompleteTime: nat
    var saved: SavedVars
    const mgr: GameEventMgr

    constructor (mgr: GameEventMgr, saved: SavedVars)
      ensures this.mgr == mgr && this.saved == saved && Cached() == saved
    {
      this.mgr := mgr;
      this.saved := saved;
      stage, lastStageTransitionTime := saved.stage, saved.lastTransition;
      gongRingTime, lastAutoCompleteTime := saved.gong, saved.lastAuto;
    }

    ghost function State(): WarState
      reads this, mgr
    {
      WarState(saved, mgr.State())
    }

    /** The members that mirror the saved variables. */
    ghost function Cached(): SavedVars
      reads this
    {
      SavedVars(stage, lastStageTransitionTime, gongRingTime, lastAutoCompleteTime)
    }

    method UpdateVariables()
      modifies this
      ensures Cached() == saved && saved == old(saved)
    {
      stage, lastStageTransitionTime := saved.stage, saved.lastTransition;
      gongRingTime, lastAutoCompleteTime := saved.gong, saved.lastAuto;
    }

    method UpdateStageTransitionTime(now: nat)
      modifies this
      ensures Cached() == old(Cached()).(lastTransition := now)
      ensures saved == old(saved).(lastTransition := now)
    {
      lastStageTransitionTime := now;
      saved := saved.(lastTransition := now);
    }

    method EnableAndStartEvent(id: nat, now: int)
      requires mgr.IsValidEvent(id)
      modifies mgr
      ensures mgr.State() == if id in old(mgr.active) then old(mgr.State()) else AllStarted(old(mgr.State()), {id})
    {
      if !mgr.IsActiveEvent(id) {
        if !mgr.IsEnabled(id) {
          mgr.EnableEvent(id, true, now);
        }
        mgr.StartEvent(id, false, now);
      }
    }

    method DisableAndStopEvent(id: nat, now: int)
      requires mgr.IsValidEvent(id)
      modifies mgr
      ensures mgr.State() == AllStopped(old(mgr.State()), {id})
    {
      if mgr.IsActiveEvent(id) {
        mgr.StopEvent(id, false, now);
      }
      if mgr.IsEnabled(id) {
        mgr.EnableEvent(id, false, now);
      }
    }

    /** Collects the nonzero entries of `row` that are active, or all nonzero ones. */
    method Collect(row: seq<nat>, activeOnly: bool) returns (ids: seq<nat>)
      requires DistinctEntries(row)
      ensures Distinct(ids)
      ensures forall x :: x in ids <==> x in Nonzero(row) && (activeOnly ==> x in mgr.active)
    {
      ids := [];
      for i := 0 to |row|
        invariant Distinct(ids)
        invariant forall x :: x in ids <==> x != 0 && x in row[..i] && (activeOnly ==> x in mgr.active)
      {
        assert row[..i + 1] == row[..i] + [row[i]];
        if row[i] != 0 && (activeOnly ==> mgr.IsActiveEvent(row[i])) {
          assert row[i] !in ids;
          ids := ids + [row[i]];
        }
      }
      assert row[..|row|] == row;
    }

    method StopAll(ids: seq<nat>, now: int)
      requires forall id :: id in ids ==> mgr.IsValidEvent(id)
      modifies mgr
      ensures mgr.State() == AllStopped(old(mgr.State()), set id | id in ids)
    {
      ghost var s := mgr.State();
      ghost var done: set<nat> := {};
      assert AllStopped(s, done).events == s.events;
      for i := 0 to |ids|
        invariant done == set id | id in ids[..i]
        invariant mgr.State() == AllStopped(s, done)
        invariant forall id :: id in ids ==> mgr.IsValidEvent(id)
      {
        DisableAndStopEvent(ids[i], now);
        StopOneMore(s, done, ids[i]);
        assert ids[..i + 1] == ids[..i] + [ids[i]];
        done := done + {ids[i]};
      }
      assert ids[..|ids|] == ids;
    }

    method StartAll(ids: seq<nat>, now: int)
      requires Distinct(ids)
      requires forall id :: id in ids ==> mgr.IsValidEvent(id) && id !in mgr.active
      modifies mgr
      ensures mgr.State() == AllStarted(old(mgr.State()), set id | id in ids)
    {
      ghost var s := mgr.State();
      ghost var done: set<nat> := {};
      assert AllStarted(s, done).events == s.events;
      for i := 0 to |ids|
        invariant done == set id | id in ids[..i]
        invariant mgr.State() == AllStarted(s, done)
        invariant forall id :: id in ids ==> mgr.IsValidEvent(id)
      {
        if !mgr.IsActiveEvent(ids[i]) {
          EnableAndStartEvent(ids[i], now);
        }
        StartOneMore(s, done, ids[i]);
        assert ids[..i + 1] == ids[..i] + [ids[i]];
        done := done + {ids[i]};
      }
      assert ids[..|ids|] == ids;
    }

    /** Stops the active events of `tracked` that `row` does not list and starts those it misses. */
    method Reconcile(row: seq<nat>, tracked: seq<nat>, now: int)
      requires DistinctEntries(row) && DistinctEntries(tracked)
      requires Nonzero(row) <= Nonzero(tracked)
      requires forall id :: id in Nonzero(tracked) ==> mgr.IsValidEvent(id)
      modifies mgr
      ensures mgr.State() == ReconciledTo(old(mgr.State()), Nonzero(row), Nonzero(tracked))
    {
      hide Minus;
      ghost var s := mgr.State();
      var required := Collect(row, false);
      var active := Collect(tracked, true);
      required, active := CancelCommon(required, active);
      StopAll(active, now);
      StartAll(required, now);
      assert (set id | id in active) == s.active * Nonzero(tracked) - Nonzero(row);
      assert (set id | id in required) == Nonzero(row) - s.active;
    }

    /** Brings the tracked events in line with the stage's row. */
    method UpdateStageEvents(now: int)
      requires Knows(mgr.State()) && stage <= STAGE_COMPLETE
      modifies mgr
      ensures mgr.State() == Reconciled(old(mgr.State()), stage)
      ensures Knows(mgr.State())
    {
      ghost var s := mgr.State();
      RowsAreTracked(stage);
      RowDistinct(stage);
      TrackedDistinct();
      Reconcile(STAGE_EVENTS[stage], TRACKED, now);
      ReconciledFollowsRow(s, stage);
    }

    /** Counts the finished objectives; all of them must be finished. */
    method UpdateWarEffortCollection(now: nat, stocks: seq<Stock>, period: nat)
      requires |stocks| == 30 && stage == STAGE_COLLECTION
      modifies this
      ensures var done := forall i :: 0 <= i < |stocks| ==> Complete(stocks[i]);
              var auto := if U32(now - old(lastAutoCompleteTime)) > period then now else old(lastAutoCompleteTime);
              && Cached() == SavedVars(if done then STAGE_READY else STAGE_COLLECTION,
                                       if done then now else old(lastStageTransitionTime), old(gongRingTime), auto)
              && saved == old(saved).(lastTransition := if done then now else old(saved).lastTransition,
                                      lastAuto := if U32(now - old(lastAutoCompleteTime)) > period then now
                                                  else old(saved).lastAuto)
    {
      if U32(now - lastAutoCompleteTime) > period {
        lastAutoCompleteTime := now;
        saved := saved.(lastAuto := now);
      }
      var completed := 0;
      for i := 0 to |stocks|
        invariant completed <= i
        invariant completed == i <==> forall k :: 0 <= k < i ==> Complete(stocks[k])
      {
        if stocks[i].Stock? && stocks[i].count >= stocks[i].required {
          completed := completed + 1;
        }
      }
      if completed >= OBJECTIVE_GOAL {
        stage := STAGE_READY;
        UpdateStageTransitionTime(now);
      }
    }

    method StartIfInactive(id: nat, wanted: bool, overwrite: bool, now: int)
      modifies mgr
      ensures mgr.State() == StartedUnlessActive(old(mgr.State()), id, wanted, overwrite, now)
    {
      if wanted && !mgr.IsActiveEvent(id) {
        mgr.StartEvent(id, overwrite, now);
      }
    }

    method UpdateHiveColossusEvents(t: Tick)
      modifies mgr
      ensures mgr.State() == ColossusBattles(old(mgr.State()), t)
    {
      StartIfInactive(BATTLE_ASHI, t.ashi, true, t.now);
      StartIfInactive(BATTLE_ZORA, t.zora, true, t.now);
      StartIfInactive(BATTLE_REGAL, t.regal, true, t.now);
    }

    method CompleteWarEffort(now: int)
      requires mgr.IsValidEvent(AQ_GATE) && mgr.IsValidEvent(BATTLE_ASHI)
      requires mgr.IsValidEvent(BATTLE_REGAL) && mgr.IsValidEvent(BATTLE_ZORA)
      modifies this, mgr
      ensures mgr.State() == AllStopped(old(mgr.State()), {AQ_GATE, BATTLE_ASHI, BATTLE_REGAL, BATTLE_ZORA})
      ensures Cached() == old(Cached()).(stage := STAGE_COMPLETE)
      ensures saved == old(saved).(stage := STAGE_COMPLETE)
    {
      var ids := [AQ_GATE, BATTLE_ASHI, BATTLE_REGAL, BATTLE_ZORA];
      StopAll(ids, now);
      assert (set id | id in ids) == {AQ_GATE, BATTLE_ASHI, BATTLE_REGAL, BATTLE_ZORA};
      stage := STAGE_COMPLETE;
      saved := saved.(stage := STAGE_COMPLETE);
    }

    /** The switch over the stages below COMPLETE. */
    method UpdateStage(t: Tick, stocks: seq<Stock>)
      requires Knows(mgr.State()) && Cached() == saved && stage < STAGE_COMPLETE
      requires |stocks| == 30
      requires t.collected == forall i :: 0 <= i < |stocks| ==> Complete(stocks[i])
      modifies this, mgr
      ensures Cached() == saved == NextSaved(old(saved), t)
      ensures mgr.State() == AfterStage(old(mgr.State()), old(saved), t)
    {
      hide Reconciled, Tracked;
      if stage == STAGE_COLLECTION {
        UpdateWarEffortCollection(t.now, stocks, t.period);
      } else if stage == STAGE_READY {
        if U32(t.now - lastStageTransitionTime) > COLLECTION_TRANSITION_TIME {
          stage := STAGE_MOVE_1;
          UpdateStageTransitionTime(t.now);
        }
      } else if STAGE_MOVE_1 <= stage <= STAGE_MOVE_5 {
        if U32(t.now - lastStageTransitionTime) > MOVE_TRANSITION_TIME {
          stage := stage + 1;
          UpdateStageTransitionTime(t.now);
        }
      } else if stage == STAGE_GONG_WAIT {
        if gongRingTime != 0 {
          stage := STAGE_GONG_RUNG;
          UpdateStageTransitionTime(t.now);
        }
      } else if stage == STAGE_GONG_RUNG {
        OpenGate(t.now);
      } else if stage == STAGE_BATTLE {
        UpdateStageEvents(t.now);
        if U32(t.now - lastStageTransitionTime) > CH_ATTACK_TIME {
          stage := STAGE_CH_ATTACK;
          UpdateStageTransitionTime(t.now);
        }
      } else if stage == STAGE_CH_ATTACK {
        if U32(t.now - lastStageTransitionTime) > FINAL_BATTLE_TIME {
          stage := STAGE_FINALBATTLE;
          UpdateStageTransitionTime(t.now);
        }
      } else if U32(t.now - gongRingTime) > GONG_DURATION {
        stage := STAGE_COMPLETE;
        UpdateStageTransitionTime(t.now);
        UpdateStageEvents(t.now);
      }
      saved := saved.(stage := stage);
    }

    /** Records a gong time if there is none, opens the gate for good and starts the battle events. */
    method OpenGate(now: nat)
      requires Knows(mgr.State()) && Cached() == saved && stage == STAGE_GONG_RUNG
      modifies this, mgr
      ensures Cached() == SavedVars(STAGE_BATTLE, now, if old(gongRingTime) == 0 then now else old(gongRingTime),
                                    old(lastAutoCompleteTime))
      ensures saved == Cached().(stage := STAGE_GONG_RUNG)
      ensures mgr.State() == Reconciled(AllStopped(old(mgr.State()), {AQ_GATE}), STAGE_BATTLE)
    {
      if gongRingTime == 0 {
        gongRingTime := now;
        saved := saved.(gong := gongRingTime);
      }
      ghost var s := mgr.State();
      hide Reconciled, Tracked, Row, Knows, AllStopped;
      StoppingKeepsKnown(s, {AQ_GATE});
      DisableAndStopEvent(AQ_GATE, now);
      stage := STAGE_BATTLE;
      UpdateStageTransitionTime(now);
      UpdateStageEvents(now);
    }

    /** One update of the war effort. */
    method Update(t: Tick, stocks: seq<Stock>)
      requires Knows(mgr.State()) && saved.stage <= STAGE_COMPLETE
      requires |stocks| == 30
      requires t.collected == forall i :: 0 <= i < |stocks| ==> Complete(stocks[i])
      modifies this, mgr
      ensures State() == Advanced(old(State()), t)
      ensures Cached() == saved
    {
      hide Reconciled, Tracked, AllStopped, AfterStage;
      UpdateVariables();
      UpdateStageEvents(t.now);
      ghost var m1 := mgr.State();
      if stage == STAGE_COMPLETE {
        RowsAreTracked(stage);
        if mgr.IsActiveEvent(WAR_EFFORT) {
          mgr.StopEvent(WAR_EFFORT, false, t.now);
        }
        CompleteWarEffort(t.now);
        return;
      }
      StartIfInactive(WAR_EFFORT, true, false, t.now);
      UpdateHiveColossusEvents(t);
      StartsKeepKnown(m1, t);
      UpdateStage(t, stocks);
    }
  }
}
