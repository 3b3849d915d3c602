/**
 The whole life of a loot: dropped, opened by players in any order and repeatedly, and
 emptied item by item.
 */
module LootRuns {
  import opened Options
  import opened LootTemplates
  import opened Loot
  import opened LootSlots
  import opened LootView
  import opened LootObject

  // ---------------------------------------------------------------------------
  // Dropping
  // ---------------------------------------------------------------------------

  /** The item was made from one of the store items. */
  ghost predicate MadeFrom(w: World, es: seq<LootStoreItem>, quest: bool, i: LootItem) {
    exists k :: 0 <= k < |es| && es[k].needsQuest == quest && i == FromStore(w, es[k])
  }

  lemma MadeFromMore(w: World, es: seq<LootStoreItem>, quest: bool, i: LootItem)
    requires es != []
    ensures MadeFrom(w, es[..|es| - 1], quest, i) ==> MadeFrom(w, es, quest, i)
    ensures es[|es| - 1].needsQuest == quest && i == FromStore(w, es[|es| - 1]) ==> MadeFrom(w, es, quest, i)
  {
    if MadeFrom(w, es[..|es| - 1], quest, i) {
      var k :| 0 <= k < |es| - 1 && es[..|es| - 1][k].needsQuest == quest && i == FromStore(w, es[..|es| - 1][k]);
      assert es[k] == es[..|es| - 1][k];
    }
  }

  /** Everything past the first `n` items was made from the store items, and the cap holds. */
  ghost predicate Extends(w: World, es: seq<LootStoreItem>, quest: bool, a: seq<LootItem>, b: seq<LootItem>, limit: nat) {
    && a <= b && |b| <= limit
    && forall k :: |a| <= k < |b| ==> MadeFrom(w, es, quest, b[k])
  }

  lemma ExtendsMore(w: World, es: seq<LootStoreItem>, quest: bool, a: seq<LootItem>, b: seq<LootItem>, c: seq<LootItem>, limit: nat)
    requires es != [] && Extends(w, es[..|es| - 1], quest, a, b, limit)
    requires c == b ||
             (|b| < limit && es[|es| - 1].needsQuest == quest && c == b + [FromStore(w, es[|es| - 1])])
    ensures Extends(w, es, quest, a, c, limit)
  {
    forall k | |a| <= k < |c|
      ensures MadeFrom(w, es, quest, c[k])
    {
      MadeFromMore(w, es, quest, c[k]);
    }
  }

  /** The caps hold whatever is added, and quest items come from quest entries only. */
  lemma {:induction false} AllAddedCaps(s: LootState, w: World, es: seq<LootStoreItem>)
    requires |s.items| <= MAX_NR_LOOT_ITEMS && |s.questItems| <= MAX_NR_QUEST_ITEMS
    ensures var t := AllAdded(s, w, es);
            && Extends(w, es, false, s.items, t.items, MAX_NR_LOOT_ITEMS)
            && Extends(w, es, true, s.questItems, t.questItems, MAX_NR_QUEST_ITEMS)
  {
    hide Extends, FromStore;
    if es == [] {
      NothingExtends(w, s.items, false, MAX_NR_LOOT_ITEMS);
      NothingExtends(w, s.questItems, true, MAX_NR_QUEST_ITEMS);
    } else {
      var p := AllAdded(s, w, es[..|es| - 1]);
      AllAddedCaps(s, w, es[..|es| - 1]);
      ExtendsMore(w, es, false, s.items, p.items, AllAdded(s, w, es).items, MAX_NR_LOOT_ITEMS);
      ExtendsMore(w, es, true, s.questItems, p.questItems, AllAdded(s, w, es).questItems, MAX_NR_QUEST_ITEMS);
    }
  }

  lemma NothingExtends(w: World, a: seq<LootItem>, quest: bool, limit: nat)
    requires |a| <= limit
    ensures Extends(w, [], quest, a, a, limit)
  {
  }

  /**
   Every item a template adds is made from an entry reachable from it, within the caps; a
   quest item only from a quest entry, so that the quest-drop test announces it.
   */
  lemma ProcessedItems(
      s: LootState, w: World, refs: Store, rank: nat -> nat, r: Rules, d: Dice, t: LootTemplate, group: nat,
      level: nat, pos: nat)
    requires Acyclic(refs, rank) && (group == 0 ==> Below(refs, rank, t, level))
    requires |s.items| <= 16 && |s.questItems| <= 32
    ensures var u := AllAdded(s, w, Drops(refs, rank, r, d, t, group, level, pos).0);
            && |u.items| <= 16 && |u.questItems| <= 32
            && s.items <= u.items && s.questItems <= u.questItems
            && (forall k :: |s.items| <= k < |u.items| ==> FromTemplate(w, refs, t, group, false, u.items[k]))
            && (forall k :: |s.questItems| <= k < |u.questItems| ==> FromTemplate(w, refs, t, group, true, u.questItems[k]))
            && (!HasQuestDrop(refs, rank, r, t, group, level) ==> u.questItems == s.questItems)
  {
    hide Drops, HasQuestDrop, AllAdded, FromStore, ReachVia, Acyclic, Below;
    var es := Drops(refs, rank, r, d, t, group, level, pos).0;
    var u := AllAdded(s, w, es);
    AllAddedCaps(s, w, es);
    forall quest, i | MadeFrom(w, es, quest, i)
      ensures FromTemplate(w, refs, t, group, quest, i)
    {
      var k :| 0 <= k < |es| && es[k].needsQuest == quest && i == FromStore(w, es[k]);
      var path := DropsAreReachable(refs, rank, r, d, t, group, level, pos, es[k]);
    }
    if |s.questItems| < |u.questItems| && !HasQuestDrop(refs, rank, r, t, group, level) {
      QuestItemHasEntry(w, es, s.questItems, u.questItems, MAX_NR_QUEST_ITEMS);
      NoQuestDropWithoutQuestEntry(refs, rank, r, d, t, group, level, pos);
    }
  }

  lemma QuestItemHasEntry(w: World, es: seq<LootStoreItem>, a: seq<LootItem>, b: seq<LootItem>, limit: nat)
    requires Extends(w, es, true, a, b, limit) && |a| < |b|
    ensures exists e :: e in es && e.needsQuest
  {
    hide FromStore;
    assert MadeFrom(w, es, true, b[|a|]);
    var k :| 0 <= k < |es| && es[k].needsQuest == true && b[|a|] == FromStore(w, es[k]);
    assert es[k] in es;
  }

  /** The item was made from an entry reachable from the template. */
  ghost predicate FromTemplate(w: World, refs: Store, t: LootTemplate, group: nat, quest: bool, i: LootItem) {
    exists path, e :: ReachVia(refs, t, group, path, e) && e.needsQuest == quest && i == FromStore(w, e)
  }

  // ---------------------------------------------------------------------------
  // Filling
  // ---------------------------------------------------------------------------

  lemma ClearedGood()
    ensures LootInv(CLEARED) && Conserved(CLEARED)
  {
  }

  lemma {:induction false} FilledForAllGood(s: LootState, w: World, ps: seq<Player>)
    requires LootInv(s) && Conserved(s)
    ensures LootInv(FilledForAll(s, w, ps)) && Conserved(FilledForAll(s, w, ps))
  {
    hide LootInv, Conserved, FilledFor;
    if ps != [] {
      var p := FilledForAll(s, w, ps[..|ps| - 1]);
      FilledForAllGood(s, w, ps[..|ps| - 1]);
      FilledForKeepsInv(p, w, ps[|ps| - 1]);
      FilledForConserved(p, w, ps[|ps| - 1]);
    }
  }

  /** Items that differ at most in their threshold and roll marks. */
  predicate Remarked(a: seq<LootItem>, b: seq<LootItem>) {
    |a| == |b| && forall k :: 0 <= k < |a| ==>
      b[k] == a[k].(isUnderthreshold := b[k].isUnderthreshold, isBlocked := b[k].isBlocked)
  }

  /** The threshold and roll marks play no part in lists or counts. */
  lemma RemarkedGood(s: LootState, items: seq<LootItem>)
    requires LootInv(s) && Remarked(s.items, items)
    ensures var t := s.(items := items); LootInv(t) && LeftToTake(t) == LeftToTake(s)
  {
    var t := s.(items := items);
    forall g | g in t.ffa
      ensures FFAListOk(t.items, t.ffa[g])
    {
      assert FFAListOk(s.items, s.ffa[g]);
    }
    forall g | g in t.cond
      ensures CondListOk(t.items, t.cond[g])
    {
      assert CondListOk(s.items, s.cond[g]);
      forall j | 0 <= j < |t.cond[g]|
        ensures CondEntryOk(t.items, t.cond[g][j])
      {
        assert CondEntryOk(s.items, s.cond[g][j]);
      }
    }
    SameWeights(s.items, items);
    AllEntriesLeftSame(s.ffa, items, s.items);
  }

  lemma ThresholdGood(s: LootState, w: World, under: nat -> bool)
    requires LootInv(s) && Conserved(s)
    ensures var t := s.(items := ThresholdMarked(w, s.items, under)); LootInv(t) && Conserved(t)
  {
    hide LootInv, LeftToTake;
    RemarkedGood(s, ThresholdMarked(w, s.items, under));
  }

  lemma {:induction false} SameWeights(a: seq<LootItem>, b: seq<LootItem>)
    requires |a| == |b| && forall k :: 0 <= k < |a| ==> ItemWeight(false, a[k]) == ItemWeight(false, b[k])
    ensures ItemsLeft(false, a) == ItemsLeft(false, b)
  {
    if a != [] {
      SameWeights(a[..|a| - 1], b[..|b| - 1]);
    }
  }

  /** A filled loot is in order: lists fit, the counter is right, and nobody has more than 16 slots. */
  lemma FilledLootGood(w: World, es: seq<LootStoreItem>, owner: Player, isPersonal: bool,
                       group: Option<seq<Member>>, under: nat -> bool)
    ensures var s := FilledLoot(CLEARED, w, es, owner, isPersonal, group, under);
            LootInv(s) && Conserved(s) && forall guid :: MaxSlot(s, guid) <= 16
  {
    hide LootInv, Conserved, FilledFor, FilledForAll, ThresholdMarked, MaxSlot;
    var s := FilledLoot(CLEARED, w, es, owner, isPersonal, group, under);
    ClearedGood();
    AllAddedKeepsInv(CLEARED, w, es);
    AllAddedConserved(CLEARED, w, es);
    var dropped := AllAdded(CLEARED, w, es);
    if !isPersonal && group.Some? {
      FilledForAllGood(dropped, w, Eligible(group.value));
      ThresholdGood(FilledForAll(dropped, w, Eligible(group.value)), w, under);
    } else {
      FilledForKeepsInv(dropped, w, owner);
      FilledForConserved(dropped, w, owner);
    }
    forall guid
      ensures MaxSlot(s, guid) <= MAX_NR_LOOT_ITEMS
    {
      SlotsFit(s, guid);
    }
  }

  // ---------------------------------------------------------------------------
  // Opening and taking
  // ---------------------------------------------------------------------------

  /** A player opens the loot, asks for what a slot holds, or a roll for an item begins or ends. */
  datatype Op = Open(w: World, p: Player) | Take(t: Taker, slot: nat) | Block(index: nat, blocked: bool)

  function Step(s: LootState, op: Op): (r: LootState)
    requires LootInv(s)
  {
    InvMeansFit(s);
    match op
    case Open(w, p) => FilledFor(s, w, p)
    case Take(t, slot) => if MayTake(s, t, slot) then Taken(s, t, slot) else s
    case Block(k, blocked) => if k < |s.items| then s.(items := s.items[k := s.items[k].(isBlocked := blocked)]) else s
  }

  lemma StepKeepsInv(s: LootState, op: Op)
    requires LootInv(s)
    ensures LootInv(Step(s, op))
  {
    hide LootInv;
    InvMeansFit(s);
    match op
    case Open(w, p) => FilledForKeepsInv(s, w, p);
    case Take(t, slot) =>
      if MayTake(s, t, slot) {
        TakenKeepsInv(s, t, slot);
      }
    case Block(k, blocked) =>
      if k < |s.items| {
        RemarkedGood(s, s.items[k := s.items[k].(isBlocked := blocked)]);
      }
  }

  /** The state after a run. */
  function After(s: LootState, ops: seq<Op>): (r: LootState)
    requires LootInv(s)
    ensures LootInv(r)
    decreases |ops|
  {
    if ops == [] then s
    else
      StepKeepsInv(s, ops[0]);
      After(Step(s, ops[0]), ops[1..])
  }

  /** Does the step take something that was not counted? */
  predicate TakesUnaccounted(s: LootState, op: Op)
    requires LootInv(s)
  {
    InvMeansFit(s);
    op.Take? && MayTake(s, op.t, op.slot) && !Accounted(s, op.slot, op.t.player.guid)
  }

  /** How many steps of the run take something that was not counted. */
  function Unaccounted(s: LootState, ops: seq<Op>): (n: nat)
    requires LootInv(s)
    decreases |ops|
  {
    if ops == [] then 0
    else
      StepKeepsInv(s, ops[0]);
      (if TakesUnaccounted(s, ops[0]) then 1 else 0) + Unaccounted(Step(s, ops[0]), ops[1..])
  }

  /** The counter is behind the truth by `n`, as far as a uint8 can tell. */
  ghost predicate Behind(s: LootState, n: nat) {
    U8(s.unlootedCount + n) == U8(LeftToTake(s))
  }

  lemma OpenBehind(s: LootState, w: World, p: Player, n: nat)
    requires LootInv(s) && Behind(s, n)
    ensures Behind(FilledFor(s, w, p), n)
  {
    var c := FilledForGrows(s, w, p);
    hide LeftToTake, FilledFor, LootInv;
    U8Add(s.unlootedCount + c, n);
    U8Add(s.unlootedCount + n, c);
    U8Add(LeftToTake(s), c);
  }

  lemma BlockBehind(s: LootState, k: nat, blocked: bool, n: nat)
    requires LootInv(s) && Behind(s, n) && k < |s.items|
    ensures Behind(s.(items := s.items[k := s.items[k].(isBlocked := blocked)]), n)
  {
    hide LootInv, LeftToTake;
    RemarkedGood(s, s.items[k := s.items[k].(isBlocked := blocked)]);
  }

  lemma StepBehind(s: LootState, op: Op, n: nat)
    requires LootInv(s) && Behind(s, n)
    ensures Behind(Step(s, op), n + if TakesUnaccounted(s, op) then 1 else 0)
  {
    hide LootInv, Behind, FilledFor, Taken, MayTake, Accounted, ListsFit;
    InvMeansFit(s);
    match op
    case Open(w, p) => OpenBehind(s, w, p, n);
    case Take(t, slot) =>
      if MayTake(s, t, slot) {
        TakenBehind(s, t, slot, n);
      }
    case Block(k, blocked) =>
      if k < |s.items| {
        BlockBehind(s, k, blocked, n);
      }
  }

  lemma TakenBehind(s: LootState, t: Taker, slot: nat, n: nat)
    requires LootInv(s) && ListsFit(s) && MayTake(s, t, slot) && Behind(s, n)
    ensures Behind(Taken(s, t, slot), n + if Accounted(s, slot, t.player.guid) then 0 else 1)
  {
    hide *;
    TakenCounts(s, t, slot);
    TakenCounter(s, t, slot);
    OneBehind(s, Taken(s, t, slot), n, if Accounted(s, slot, t.player.guid) then 0 else 1);
  }

  /** One less on the counter, and one less left unless the take was not counted. */
  lemma OneBehind(s: LootState, r: LootState, n: nat, missed: nat)
    requires missed <= 1 && Behind(s, n) && r.unlootedCount == U8(s.unlootedCount + 255)
    requires LeftToTake(r) + 1 - missed == LeftToTake(s)
    ensures Behind(r, n + missed)
  {
    hide LeftToTake, U8;
    U8Round(s.unlootedCount, n + missed);
    U8Same(s.unlootedCount + n, LeftToTake(s), 255 + missed);
    U8Turn(LeftToTake(r));
    assert LeftToTake(s) + 255 + missed == LeftToTake(r) + 256;
  }

  /** The counter after one less, and `k` more. */
  lemma U8Round(u: Byte, k: nat)
    ensures U8(U8(u + 255) + k) == U8(u + 255 + k)
  {
    assert u == 0 ==> U8(u + 255) == 255;
    if u > 0 {
      assert u + 255 == (u - 1) + 256;
      assert U8(u + 255) == u - 1;
      U8Turn(u - 1 + k);
    }
  }

  lemma U8Turn(x: nat)
    ensures U8(x + 256) == U8(x)
  {
  }

  lemma U8Same(a: nat, b: nat, k: nat)
    requires U8(a) == U8(b)
    ensures U8(a + k) == U8(b + k)
  {
    U8Add(a, k);
    U8Add(b, k);
  }

  lemma TakenCounter(s: LootState, t: Taker, slot: nat)
    requires ListsFit(s) && MayTake(s, t, slot)
    ensures Taken(s, t, slot).unlootedCount == U8(s.unlootedCount + 255)
  {
  }

  /** Over a whole run the counter falls behind the truth by the unaccounted takes, and by nothing else. */
  lemma {:induction false} RunBehind(s: LootState, ops: seq<Op>, n: nat)
    requires LootInv(s) && Behind(s, n)
    ensures Behind(After(s, ops), n + Unaccounted(s, ops))
    decreases |ops|
  {
    hide LootInv, Behind, Step, TakesUnaccounted;
    if ops != [] {
      StepKeepsInv(s, ops[0]);
      StepBehind(s, ops[0], n);
      RunBehind(Step(s, ops[0]), ops[1..], n + if TakesUnaccounted(s, ops[0]) then 1 else 0);
    }
  }

  /** The counter is right after a run exactly when the number of unaccounted takes is a multiple of 256. */
  lemma RunConservedIff(s: LootState, ops: seq<Op>)
    requires LootInv(s) && Conserved(s)
    ensures Conserved(After(s, ops)) <==> Unaccounted(s, ops) % 256 == 0
  {
    RunBehind(s, ops, 0);
    hide LootInv, After, Unaccounted, LeftToTake;
    var u := After(s, ops).unlootedCount;
    assert U8(u + Unaccounted(s, ops)) == U8(LeftToTake(After(s, ops)));
    ShiftIff(u, Unaccounted(s, ops));
  }

  // An uncounted take: the condition of an item is met only after the player has opened the loot.

  const LATE_ITEM := LootStoreItem(1, 100.0, 1, 0, false, 1, 5)
  const LATE_PLAYER := Player(1, true)

  function LateWorld(met: bool): (w: World) {
    World(id => true, id => false, (c, g) => met, (g, id) => true, (g, id) => false)
  }

  function LateLoot(looted: bool, count: Byte): (s: LootState) {
    var i := FromStore(LateWorld(false), LATE_ITEM);
    CLEARED.(items := [i.(isLooted := looted)], unlootedCount := count)
  }

  lemma LateDrop()
    ensures AllAdded(CLEARED, LateWorld(false), [LATE_ITEM]) == LateLoot(false, 0)
    ensures LootInv(LateLoot(false, 0)) && LootInv(LateLoot(true, 255)) && Conserved(LateLoot(false, 0))
  {
    assert [LATE_ITEM][..0] == [];
    assert AllAdded(CLEARED, LateWorld(false), []) == CLEARED;
    LateLeft(false, 0);
  }

  lemma LateLeft(looted: bool, count: Byte)
    ensures LeftToTake(LateLoot(looted, count)) == 0
  {
    var items := LateLoot(looted, count).items;
    assert items[..0] == [] && ItemsLeft(false, items[..0]) == 0;
    assert ItemWeight(false, items[0]) == 0;
    assert ItemsLeft(true, []) == 0;
    assert AllEntriesLeft(map[], items) == 0;
  }

  /** Opening makes no lists, as the item is not allowed yet. */
  lemma LateOpened()
    ensures FilledFor(LateLoot(false, 0), LateWorld(false), LATE_PLAYER) == LateLoot(false, 0)
  {
    var s, w, p := LateLoot(false, 0), LateWorld(false), LATE_PLAYER;
    assert QuestFill(w, p, s.questItems, 15, 0) == Fill([], s.questItems, 0);
    assert FFAFill(w, p, s.items, 0) == Fill([], s.items, 0);
    assert ConditionalFill(w, p, s.items, 0) == Fill([], s.items, 0);
    assert FFAFill(w, p, s.items, 1) == Fill([], s.items, 0);
    assert ConditionalFill(w, p, s.items, 1) == Fill([], s.items, 0);
  }

  /** The take is permitted, and the item was never counted. */
  lemma LateTaken()
    ensures ListsFit(LateLoot(false, 0))
    ensures var s, t := LateLoot(false, 0), Taker(LateWorld(true), LATE_PLAYER, false, true);
            MayTake(s, t, 0) && !Accounted(s, 0, LATE_PLAYER.guid) && Taken(s, t, 0) == LateLoot(true, 255)
  {
  }

  /**
   A run in which the counter goes wrong: an item drops, a player opens the loot while the item's
   condition is not met, the condition becomes true, and the player takes the item. Nothing is left,
   but the counter shows 255.
   */
  lemma UncountedTakeReached()
    ensures var s := AllAdded(CLEARED, LateWorld(false), [LATE_ITEM]);
            var ops := [LateOpen(), LateTake()];
            && LootInv(s) && Conserved(s) && Unaccounted(s, ops) == 1
            && LeftToTake(After(s, ops)) == 0 && After(s, ops).unlootedCount == 255
  {
    hide *;
    var s, open, take := LateLoot(false, 0), LateOpen(), LateTake();
    LateDrop();
    LateLeft(true, 255);
    LateCount(true, 255);
    LateSteps();
    RunFrom(s, open, [take]);
    RunFrom(s, take, []);
    NothingMore(LateLoot(true, 255));
    assert [open] + [take] == [open, take] && [take] + [] == [take];
  }

  function LateOpen(): (op: Op) {
    Open(LateWorld(false), LATE_PLAYER)
  }

  function LateTake(): (op: Op) {
    Take(Taker(LateWorld(true), LATE_PLAYER, false, true), 0)
  }

  lemma LateSteps()
    ensures LootInv(LateLoot(false, 0))
    ensures Step(LateLoot(false, 0), LateOpen()) == LateLoot(false, 0)
    ensures Step(LateLoot(false, 0), LateTake()) == LateLoot(true, 255)
    ensures !TakesUnaccounted(LateLoot(false, 0), LateOpen()) && TakesUnaccounted(LateLoot(false, 0), LateTake())
  {
    LateDrop();
    LateOpened();
    LateTaken();
    hide FilledFor, MayTake, Taken, Accounted, LateLoot, LootInv;
  }

  lemma RunFrom(s: LootState, op: Op, rest: seq<Op>)
    requires LootInv(s)
    ensures LootInv(Step(s, op))
    ensures After(s, [op] + rest) == After(Step(s, op), rest)
    ensures Unaccounted(s, [op] + rest) == (if TakesUnaccounted(s, op) then 1 else 0) + Unaccounted(Step(s, op), rest)
  {
    hide LootInv, Step, TakesUnaccounted;
    StepKeepsInv(s, op);
    assert ([op] + rest)[1..] == rest;
  }

  lemma LateCount(looted: bool, count: Byte)
    ensures LateLoot(looted, count).unlootedCount == count
  {
  }

  lemma NothingMore(s: LootState)
    requires LootInv(s)
    ensures After(s, []) == s && Unaccounted(s, []) == 0
  {
  }

  lemma ShiftIff(u: nat, n: nat)
    requires u < 256
    ensures U8(u + n) == u <==> n % 256 == 0
  {
  }

  // ---------------------------------------------------------------------------
  // Does an empty counter mean an empty loot?
  // ---------------------------------------------------------------------------

  /** What is left is at most what lies there and what the players' lists hold. */
  lemma LeftToTakeBound(s: LootState)
    requires LootInv(s)
    ensures LeftToTake(s) <= |s.items| + |s.questItems| + MAX_NR_LOOT_ITEMS * (|s.ffa| + |s.quest|)
  {
    ItemsLeftBound(false, s.items);
    ItemsLeftBound(true, s.questItems);
    forall g | g in s.ffa
      ensures |s.ffa[g]| <= MAX_NR_LOOT_ITEMS
    {
      AscendingFits(s.ffa[g], |s.items|);
    }
    AllEntriesLeftBound(s.ffa, s.items);
    AllEntriesLeftBound(s.quest, s.questItems);
  }

  lemma {:induction false} ItemsLeftBound(quest: bool, items: seq<LootItem>)
    ensures ItemsLeft(quest, items) <= |items|
  {
    if items != [] {
      ItemsLeftBound(quest, items[..|items| - 1]);
    }
  }

  lemma {:induction false} EntriesLeftBound(list: seq<QuestItem>, items: seq<LootItem>)
    ensures EntriesLeft(list, items) <= |list|
  {
    if list != [] {
      EntriesLeftBound(list[..|list| - 1], items);
    }
  }

  lemma {:induction false} AscendingFits(list: seq<QuestItem>, n: nat)
    requires Ascending(list) && forall j :: 0 <= j < |list| ==> list[j].index < n
    ensures |list| <= n
  {
    if list != [] {
      AscendingFits(list[..|list| - 1], list[|list| - 1].index);
    }
  }

  lemma {:induction false} AllEntriesLeftBound(m: PlayerLists, items: seq<LootItem>)
    requires forall g :: g in m ==> |m[g]| <= MAX_NR_LOOT_ITEMS
    ensures AllEntriesLeft(m, items) <= MAX_NR_LOOT_ITEMS * |m|
    decreases |m|
  {
    if m != map[] {
      var g :| g in m && AllEntriesLeft(m, items) == EntriesLeft(m[g], items) + AllEntriesLeft(m - {g}, items);
      EntriesLeftBound(m[g], items);
      AllEntriesLeftBound(m - {g}, items);
      assert |m - {g}| == |m| - 1 by {
        assert (m - {g}).Keys == m.Keys - {g};
      }
    }
  }

  /** With few enough players an empty counter means that nothing is left. */
  lemma EmptyCounterMeansNothingLeft(s: LootState)
    requires LootInv(s) && Conserved(s)
    requires |s.items| + |s.questItems| + MAX_NR_LOOT_ITEMS * (|s.ffa| + |s.quest|) < 256
    ensures s.unlootedCount == 0 <==> LeftToTake(s) == 0
  {
    LeftToTakeBound(s);
    hide LeftToTake;
  }

  /** In general it means that what is left is a multiple of 256. */
  lemma EmptyCounterIff(s: LootState)
    requires Conserved(s)
    ensures s.unlootedCount == 0 <==> LeftToTake(s) % 256 == 0
  {
    hide LeftToTake;
  }

  /** Leaving only the quest items keeps the lists, but the counter only if no quest item counts any more. */
  lemma LeavingQuestItems(s: LootState)
    requires LootInv(s)
    ensures LootInv(Emptied(s, false))
    ensures Conserved(Emptied(s, false)) <==>
            (ItemsLeft(true, s.questItems) + AllEntriesLeft(s.quest, s.questItems)) % 256 == 0
  {
    hide ItemWeight, EntriesLeft, AllEntriesLeft;
    assert ItemsLeft(false, []) == 0;
    NoListsNothingLeft([]);
    forall g | g in s.quest
      ensures QuestListOk(0, s.questItems, s.quest[g])
    {
      assert QuestListOk(|s.items|, s.questItems, s.quest[g]);
    }
  }

  lemma NoListsNothingLeft(items: seq<LootItem>)
    ensures AllEntriesLeft(map[], items) == 0
  {
  }

  // The counter left at zero: a quest item that a player has on the list.

  const QUEST_ITEM := LootStoreItem(1, 100.0, 1, 0, true, 1, 0)
  const ON_QUEST := World(id => true, id => false, (c, g) => true, (g, id) => true, (g, id) => false)

  function QuestLoot(listed: bool, count: Byte): (s: LootState) {
    CLEARED.(questItems := [FromStore(ON_QUEST, QUEST_ITEM).(isBlocked := listed)],
             quest := if listed then map[1 := [QuestItem(0, false)]] else map[],
             unlootedCount := count)
  }

  lemma QuestDropped()
    ensures AllAdded(CLEARED, ON_QUEST, [QUEST_ITEM]) == QuestLoot(false, 0)
  {
    assert [QUEST_ITEM][..0] == [];
    assert AllAdded(CLEARED, ON_QUEST, []) == CLEARED;
  }

  lemma QuestOpened()
    ensures FilledFor(QuestLoot(false, 0), ON_QUEST, LATE_PLAYER) == QuestLoot(true, 1)
  {
    var s, w, p := QuestLoot(false, 0), ON_QUEST, LATE_PLAYER;
    assert QuestFill(w, p, s.questItems, 16, 0) == Fill([], s.questItems, 0);
    assert QuestFill(w, p, s.questItems, 16, 1) == Fill([QuestItem(0, false)], [s.questItems[0].(isBlocked := true)], 1);
    assert FFAFill(w, p, s.items, 0) == Fill([], s.items, 0);
    assert ConditionalFill(w, p, s.items, 0) == Fill([], s.items, 0);
  }

  lemma QuestLeft(count: Byte)
    ensures LootInv(QuestLoot(true, count)) && LeftToTake(QuestLoot(true, count)) == 1
  {
    var s := QuestLoot(true, count);
    assert s.questItems[..0] == [] && ItemsLeft(true, s.questItems[..0]) == 0;
    assert ItemWeight(true, s.questItems[0]) == 1;
    assert ItemsLeft(false, s.items) == 0;
    NoListsNothingLeft(s.items);
    var m := s.quest;
    assert m - {1} == map[];
    NoListsNothingLeft(s.questItems);
    var list := m[1];
    assert list[..0] == [] && EntriesLeft(list[..0], s.questItems) == 0;
  }

  /** A quest item drops, a player opens the loot, and all but quest items is cleared: one is left, the counter shows none. */
  lemma LeftQuestItemUncounted()
    ensures var s := FilledFor(AllAdded(CLEARED, ON_QUEST, [QUEST_ITEM]), ON_QUEST, LATE_PLAYER);
            var r := Emptied(s, false);
            LootInv(s) && Conserved(s) && LeftToTake(r) == 1 && r.unlootedCount == 0
  {
    hide *;
    QuestDropped();
    QuestOpened();
    QuestLeft(1);
    QuestLeft(0);
    QuestConserved();
    QuestEmptied();
  }

  lemma QuestConserved()
    requires LeftToTake(QuestLoot(true, 1)) == 1
    ensures Conserved(QuestLoot(true, 1))
  {
    hide LeftToTake;
  }

  lemma QuestEmptied()
    ensures Emptied(QuestLoot(true, 1), false) == QuestLoot(true, 0) && QuestLoot(true, 0).unlootedCount == 0
  {
  }

  // The counter does run over: sixteen free-for-all items seen by sixteen players.

  const PARTY_ITEM := LootStoreItem(1, 100.0, 1, 0, false, 1, 0)
  const EVERYBODY_MAY_LOOT := World(id => true, id => true, (c, g) => true, (g, id) => true, (g, id) => false)

  function PartyDrops(n: nat): (es: seq<LootStoreItem>) {
    if n == 0 then [] else PartyDrops(n - 1) + [PARTY_ITEM]
  }

  function PartyItems(n: nat): (items: seq<LootItem>)
    ensures |items| == n && forall k :: 0 <= k < n ==> items[k] == FromStore(EVERYBODY_MAY_LOOT, PARTY_ITEM)
  {
    if n == 0 then [] else PartyItems(n - 1) + [FromStore(EVERYBODY_MAY_LOOT, PARTY_ITEM)]
  }

  function PartyEntries(n: nat): (list: seq<QuestItem>)
    ensures |list| == n
  {
    if n == 0 then [] else PartyEntries(n - 1) + [QuestItem(n - 1, false)]
  }

  function PartyLists(n: nat): (m: PlayerLists)
    ensures forall g :: g in m ==> 1 <= g <= n
  {
    if n == 0 then map[] else PartyLists(n - 1)[n := PartyEntries(16)]
  }

  function PartyPlayers(n: nat): (ps: seq<Player>) {
    if n == 0 then [] else PartyPlayers(n - 1) + [Player(n, true)]
  }

  /** The loot with sixteen party items and the lists of players 1 to `n`. */
  function PartyLoot(n: nat): (s: LootState) {
    LootState(PartyItems(16), [], U8(16 * n), map[], PartyLists(n), map[])
  }

  lemma {:induction false} PartyItemsDropped(n: nat)
    requires n <= 16
    ensures AllAdded(CLEARED, EVERYBODY_MAY_LOOT, PartyDrops(n)) == CLEARED.(items := PartyItems(n))
  {
    if n > 0 {
      PartyItemsDropped(n - 1);
      assert PartyDrops(n)[..|PartyDrops(n)| - 1] == PartyDrops(n - 1);
    }
  }

  lemma {:induction false} PartyFills(p: Player, n: nat)
    requires n <= 16
    ensures FFAFill(EVERYBODY_MAY_LOOT, p, PartyItems(16), n) == Fill(PartyEntries(n), PartyItems(16), n)
    ensures ConditionalFill(EVERYBODY_MAY_LOOT, p, PartyItems(16), n) == Fill([], PartyItems(16), 0)
  {
    if n > 0 {
      PartyFills(p, n - 1);
    }
  }

  /** One more player opens the party loot. */
  lemma PartyOpened(n: nat)
    ensures FilledFor(PartyLoot(n), EVERYBODY_MAY_LOOT, Player(n + 1, true)) == PartyLoot(n + 1)
  {
    var s, p := PartyLoot(n), Player(n + 1, true);
    PartyFills(p, 16);
    hide FFAFill, ConditionalFill, PartyItems, PartyEntries, U8;
    U8Add(16 * n, 16);
    assert FilledQuest(s, EVERYBODY_MAY_LOOT, p) == s;
    assert FilledFFA(s, EVERYBODY_MAY_LOOT, p) == PartyLoot(n + 1);
    U8Add(16 * (n + 1), 0);
    assert FilledConditional(PartyLoot(n + 1), EVERYBODY_MAY_LOOT, p) == PartyLoot(n + 1);
  }

  lemma {:induction false} PartyFilled(n: nat)
    ensures FilledForAll(PartyLoot(0), EVERYBODY_MAY_LOOT, PartyPlayers(n)) == PartyLoot(n)
  {
    hide FilledFor, PartyLoot;
    if n > 0 {
      PartyFilled(n - 1);
      assert PartyPlayers(n)[..|PartyPlayers(n)| - 1] == PartyPlayers(n - 1);
      PartyOpened(n - 1);
    }
  }

  lemma {:induction false} PartyEntriesLeft(n: nat)
    requires n <= 16
    ensures EntriesLeft(PartyEntries(n), PartyItems(16)) == n
  {
    if n > 0 {
      PartyEntriesLeft(n - 1);
      assert PartyEntries(n)[..n - 1] == PartyEntries(n - 1);
    }
  }

  /** A loot nobody has touched can look empty: pieces are left, but the counter is 0. */
  lemma FullLootLooksEmpty()
    ensures var s := FilledForAll(AllAdded(CLEARED, EVERYBODY_MAY_LOOT, PartyDrops(16)), EVERYBODY_MAY_LOOT, PartyPlayers(16));
            s.unlootedCount == 0 && LeftToTake(s) > 0
  {
    PartyItemsDropped(16);
    assert PartyLists(0) == map[];
    assert CLEARED.(items := PartyItems(16)) == PartyLoot(0);
    PartyFilled(16);
    var s := PartyLoot(16);
    assert s.ffa[16] == PartyEntries(16);
    AllEntriesLeftRemove(s.ffa, s.items, 16);
    PartyEntriesLeft(16);
  }
}
