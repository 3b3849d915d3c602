/**
 A loot in progress: its items, the per-player lists of quest, free-for-all and conditional
 items, and the shared counter of what is left to take.
 */
module Loot {
  import opened LootTemplates

  const MAX_NR_LOOT_ITEMS: nat := 16
  const MAX_NR_QUEST_ITEMS: nat := 32

  datatype LootItem = LootItem(
    itemid: nat,
    conditionId: nat,
    isLooted: bool,
    isBlocked: bool,
    freeforall: bool,
    isUnderthreshold: bool,
    isCounted: bool,
    needsQuest: bool,
    lootOwner: nat)

  /** A player's entry: the position of the item and whether this player has taken it. */
  datatype QuestItem = QuestItem(index: nat, isLooted: bool)

  datatype Player = Player(guid: nat, inWorld: bool)

  /** What the loot asks of the world about items and players. */
  datatype World = World(
    hasProto: nat -> bool,
    partyLoot: nat -> bool,
    conditionMet: (nat, nat) -> bool,
    hasQuestFor: (nat, nat) -> bool,
    questStartBlocked: (nat, nat) -> bool)

  function IsFreeForAll(w: World, itemid: nat): (b: bool)
  {
    w.hasProto(itemid) && w.partyLoot(itemid)
  }

  /** The loot item made from a store item. */
  function FromStore(w: World, e: LootStoreItem): (i: LootItem)
  {
    LootItem(e.itemid, e.conditionId, false, false, IsFreeForAll(w, e.itemid), false, false, e.needsQuest, 0)
  }

  predicate AllowedForPlayer(w: World, p: Player, i: LootItem) {
    && (i.conditionId != 0 ==> w.conditionMet(i.conditionId, p.guid))
    && w.hasProto(i.itemid)
    && (if i.needsQuest then w.hasQuestFor(p.guid, i.itemid) else !w.questStartBlocked(p.guid, i.itemid))
    && (i.lootOwner != 0 ==> i.lootOwner == p.guid)
  }

  type Byte = x: int | 0 <= x < 256

  type PlayerLists = map<nat, seq<QuestItem>>

  datatype LootState = LootState(
    items: seq<LootItem>,
    questItems: seq<LootItem>,
    unlootedCount: Byte,
    quest: PlayerLists,
    ffa: PlayerLists,
    cond: PlayerLists)

  /** The uint8 counter after an addition. */
  function U8(x: nat): (r: Byte)
    ensures x < 256 ==> r == x
  {
    x % 256
  }

  // ---------------------------------------------------------------------------
  // Adding items
  // ---------------------------------------------------------------------------

  function Added(s: LootState, w: World, e: LootStoreItem): (r: LootState)
  {
    if e.needsQuest then
      if |s.questItems| < MAX_NR_QUEST_ITEMS then s.(questItems := s.questItems + [FromStore(w, e)]) else s
    else if |s.items| < MAX_NR_LOOT_ITEMS then
      s.(items := s.items + [FromStore(w, e)],
         unlootedCount :=
           if e.conditionId == 0 && !IsFreeForAll(w, e.itemid) then U8(s.unlootedCount + 1) else s.unlootedCount)
    else s
  }

  /**
   A dropped item starts untouched and owned by nobody; it is kept while there is room among 16
   ordinary or 32 quest items, and only what everybody may take is counted at once.
   */
  lemma AddedIs(s: LootState, w: World, e: LootStoreItem)
    ensures var r, i := Added(s, w, e), FromStore(w, e);
            && i.itemid == e.itemid && i.conditionId == e.conditionId && i.needsQuest == e.needsQuest && i.lootOwner == 0
            && !i.isLooted && !i.isBlocked && !i.isUnderthreshold && !i.isCounted
            && (i.freeforall <==> w.hasProto(e.itemid) && w.partyLoot(e.itemid))
            && r.questItems == (if e.needsQuest && |s.questItems| < 32 then s.questItems + [i] else s.questItems)
            && r.items == (if !e.needsQuest && |s.items| < 16 then s.items + [i] else s.items)
            && r.quest == s.quest && r.ffa == s.ffa && r.cond == s.cond
            && (s.unlootedCount < 255 ==>
                (r.unlootedCount == s.unlootedCount + 1 <==> r.items != s.items && i.conditionId == 0 && !i.freeforall))
            && (r.unlootedCount != s.unlootedCount ==> r.unlootedCount == (s.unlootedCount + 1) % 256)
  {
    assert |s.items + [FromStore(w, e)]| != |s.items|;
  }

  function AllAdded(s: LootState, w: World, es: seq<LootStoreItem>): (r: LootState)
  {
    if es == [] then s else Added(AllAdded(s, w, es[..|es| - 1]), w, es[|es| - 1])
  }

  lemma {:induction false} AllAddedConcat(s: LootState, w: World, es: seq<LootStoreItem>, fs: seq<LootStoreItem>)
    ensures AllAdded(s, w, es + fs) == AllAdded(AllAdded(s, w, es), w, fs)
  {
    if fs == [] {
      assert es + fs == es;
    } else {
      var n := |fs| - 1;
      assert (es + fs)[..|es + fs| - 1] == es + fs[..n];
      AllAddedConcat(s, w, es, fs[..n]);
    }
  }

  // ---------------------------------------------------------------------------
  // The three per-player lists
  // ---------------------------------------------------------------------------

  /** A list under construction: the player's entries, the items with their new marks, the counter's growth. */
  datatype Fill = Fill(list: seq<QuestItem>, items: seq<LootItem>, count: nat)

  predicate WantsFFA(w: World, p: Player, i: LootItem) {
    !i.isLooted && i.freeforall && AllowedForPlayer(w, p, i)
  }

  predicate WantsQuest(w: World, p: Player, i: LootItem) {
    !i.isLooted && AllowedForPlayer(w, p, i)
  }

  predicate WantsConditional(w: World, p: Player, i: LootItem) {
    !i.isLooted && !i.freeforall && i.conditionId != 0 && AllowedForPlayer(w, p, i)
  }

  /** Free-for-all items among the first `n`: each player counts for each. */
  function FFAFill(w: World, p: Player, items: seq<LootItem>, n: nat): (f: Fill)
    requires n <= |items|
    ensures f.items == items
  {
    if n == 0 then Fill([], items, 0)
    else
      var f := FFAFill(w, p, items, n - 1);
      if WantsFFA(w, p, items[n - 1]) then Fill(f.list + [QuestItem(n - 1, false)], items, f.count + 1) else f
  }

  /** Quest items among the first `n` while there is room: blocked by the first player that sees them. */
  function QuestFill(w: World, p: Player, items: seq<LootItem>, room: nat, n: nat): (f: Fill)
    requires n <= |items|
    ensures |f.items| == |items| && forall k :: n <= k < |items| ==> f.items[k] == items[k]
    ensures |f.list| <= room
  {
    if n == 0 then Fill([], items, 0)
    else
      var f := QuestFill(w, p, items, room, n - 1);
      var i := items[n - 1];
      if |f.list| < room && WantsQuest(w, p, i) then
        Fill(f.list + [QuestItem(n - 1, false)],
             f.items[n - 1 := i.(isBlocked := true)],
             f.count + if i.freeforall || !i.isBlocked then 1 else 0)
      else f
  }

  /** Conditional items among the first `n`: counted by the first player that may have them. */
  function ConditionalFill(w: World, p: Player, items: seq<LootItem>, n: nat): (f: Fill)
    requires n <= |items|
    ensures |f.items| == |items| && forall k :: n <= k < |items| ==> f.items[k] == items[k]
  {
    if n == 0 then Fill([], items, 0)
    else
      var f := ConditionalFill(w, p, items, n - 1);
      var i := items[n - 1];
      if WantsConditional(w, p, i) then
        Fill(f.list + [QuestItem(n - 1, false)],
             f.items[n - 1 := i.(isCounted := true)],
             f.count + if i.isCounted then 0 else 1)
      else f
  }

  function Listed(m: PlayerLists, guid: nat, list: seq<QuestItem>): (r: PlayerLists)
  {
    if list == [] then m else m[guid := list]
  }

  function FilledFFA(s: LootState, w: World, p: Player): (r: LootState)
  {
    if !p.inWorld then s
    else
      var f := FFAFill(w, p, s.items, |s.items|);
      s.(ffa := Listed(s.ffa, p.guid, f.list), unlootedCount := U8(s.unlootedCount + f.count))
  }

  function FilledQuest(s: LootState, w: World, p: Player): (r: LootState)
  {
    if !p.inWorld || |s.items| >= MAX_NR_LOOT_ITEMS then s
    else
      var f := QuestFill(w, p, s.questItems, MAX_NR_LOOT_ITEMS - |s.items|, |s.questItems|);
      s.(quest := Listed(s.quest, p.guid, f.list), questItems := f.items, unlootedCount := U8(s.unlootedCount + f.count))
  }

  function FilledConditional(s: LootState, w: World, p: Player): (r: LootState)
  {
    if !p.inWorld then s
    else
      var f := ConditionalFill(w, p, s.items, |s.items|);
      s.(cond := Listed(s.cond, p.guid, f.list), items := f.items, unlootedCount := U8(s.unlootedCount + f.count))
  }

  /** Each list is made once per player. */
  function FilledFor(s: LootState, w: World, p: Player): (r: LootState)
  {
    var s1 := if p.guid in s.quest then s else FilledQuest(s, w, p);
    var s2 := if p.guid in s1.ffa then s1 else FilledFFA(s1, w, p);
    if p.guid in s2.cond then s2 else FilledConditional(s2, w, p)
  }

  /** The lists of several players, one after the other, with repeats. */
  function FilledForAll(s: LootState, w: World, ps: seq<Player>): (r: LootState)
  {
    if ps == [] then s else FilledFor(FilledForAll(s, w, ps[..|ps| - 1]), w, ps[|ps| - 1])
  }

  // ---------------------------------------------------------------------------
  // What is left to take
  // ---------------------------------------------------------------------------

  /**
   What one item adds for all players together. An ordinary item counts once if it is not
   free for all and either unconditional or claimed by a player who meets its condition; a
   quest item counts once if it is not free for all and some player has it on the list.
   */
  function ItemWeight(quest: bool, i: LootItem): (n: nat)
  {
    if i.isLooted || i.freeforall then 0
    else if quest then (if i.isBlocked then 1 else 0)
    else if i.conditionId == 0 || i.isCounted then 1 else 0
  }

  function ItemsLeft(quest: bool, items: seq<LootItem>): (n: nat)
  {
    if items == [] then 0
    else ItemsLeft(quest, items[..|items| - 1]) + ItemWeight(quest, items[|items| - 1])
  }

  /** A free-for-all entry counts for each player that has not taken it. */
  function EntryWeight(q: QuestItem, items: seq<LootItem>): (n: nat)
  {
    if !q.isLooted && q.index < |items| && items[q.index].freeforall then 1 else 0
  }

  function EntriesLeft(list: seq<QuestItem>, items: seq<LootItem>): (n: nat)
  {
    if list == [] then 0
    else EntriesLeft(list[..|list| - 1], items) + EntryWeight(list[|list| - 1], items)
  }

  /** Free-for-all entries summed over all players. */
  ghost function AllEntriesLeft(m: PlayerLists, items: seq<LootItem>): (n: nat)
    decreases |m|
  {
    if m == map[] then 0
    else
      var g :| g in m;
      EntriesLeft(m[g], items) + AllEntriesLeft(m - {g}, items)
  }

  /** Everything that is left to take, counted from the lists and marks alone. */
  ghost function LeftToTake(s: LootState): (n: nat)
  {
    ItemsLeft(false, s.items) + AllEntriesLeft(s.ffa, s.items) +
    ItemsLeft(true, s.questItems) + AllEntriesLeft(s.quest, s.questItems)
  }

  /** The shared counter agrees with what is left, as far as a uint8 can. */
  ghost predicate Conserved(s: LootState) {
    s.unlootedCount == U8(LeftToTake(s))
  }

  /** The empty loot after `clear`. */
  const CLEARED := LootState([], [], 0, map[], map[], map[])

  // ---------------------------------------------------------------------------
  // Counting lemmas
  // ---------------------------------------------------------------------------

  /** Items that agree in what never changes after they drop. */
  predicate SameKinds(a: seq<LootItem>, b: seq<LootItem>) {
    |a| == |b| && forall k :: 0 <= k < |a| ==> a[k].freeforall == b[k].freeforall
  }

  lemma {:induction false} EntriesLeftSame(list: seq<QuestItem>, a: seq<LootItem>, b: seq<LootItem>)
    requires SameKinds(a, b)
    ensures EntriesLeft(list, a) == EntriesLeft(list, b)
  {
    if list != [] {
      EntriesLeftSame(list[..|list| - 1], a, b);
    }
  }

  lemma {:induction false} AllEntriesLeftSame(m: PlayerLists, a: seq<LootItem>, b: seq<LootItem>)
    requires SameKinds(a, b)
    ensures AllEntriesLeft(m, a) == AllEntriesLeft(m, b)
    decreases |m|
  {
    if m != map[] {
      var g :| g in m && AllEntriesLeft(m, a) == EntriesLeft(m[g], a) + AllEntriesLeft(m - {g}, a);
      AllEntriesLeftRemove(m, b, g);
      EntriesLeftSame(m[g], a, b);
      AllEntriesLeftSame(m - {g}, a, b);
    }
  }

  /** The sum does not depend on the order in which players are taken. */
  lemma {:induction false} AllEntriesLeftRemove(m: PlayerLists, items: seq<LootItem>, g: nat)
    requires g in m
    ensures AllEntriesLeft(m, items) == EntriesLeft(m[g], items) + AllEntriesLeft(m - {g}, items)
    decreases |m|
  {
    var h :| h in m && AllEntriesLeft(m, items) == EntriesLeft(m[h], items) + AllEntriesLeft(m - {h}, items);
    if h != g {
      AllEntriesLeftRemove(m - {h}, items, g);
      AllEntriesLeftRemove(m - {g}, items, h);
      assert m - {h} - {g} == m - {g} - {h};
    }
  }

  /** Replacing one player's list changes the sum by that list alone. */
  lemma AllEntriesLeftUpdate(m: PlayerLists, items: seq<LootItem>, g: nat, list: seq<QuestItem>)
    requires g in m
    ensures AllEntriesLeft(m[g := list], items) + EntriesLeft(m[g], items) ==
            AllEntriesLeft(m, items) + EntriesLeft(list, items)
  {
    AllEntriesLeftRemove(m, items, g);
    AllEntriesLeftRemove(m[g := list], items, g);
    assert m[g := list] - {g} == m - {g};
  }

  lemma AllEntriesLeftInsert(m: PlayerLists, items: seq<LootItem>, g: nat, list: seq<QuestItem>)
    requires g !in m
    ensures AllEntriesLeft(Listed(m, g, list), items) == AllEntriesLeft(m, items) + EntriesLeft(list, items)
  {
    if list != [] {
      AllEntriesLeftRemove(m[g := list], items, g);
      assert m[g := list] - {g} == m;
    }
  }

  /** Changing one item changes the sum by that item alone. */
  lemma {:induction false} ItemsLeftUpdate(quest: bool, items: seq<LootItem>, k: nat, i: LootItem)
    requires k < |items|
    ensures ItemsLeft(quest, items[k := i]) + ItemWeight(quest, items[k]) ==
            ItemsLeft(quest, items) + ItemWeight(quest, i)
  {
    var n := |items| - 1;
    if k == n {
      assert items[k := i][..n] == items[..n];
    } else {
      assert items[k := i][..n] == items[..n][k := i];
      ItemsLeftUpdate(quest, items[..n], k, i);
    }
  }

  lemma {:induction false} EntriesLeftUpdate(list: seq<QuestItem>, items: seq<LootItem>, j: nat, q: QuestItem)
    requires j < |list|
    ensures EntriesLeft(list[j := q], items) + EntryWeight(list[j], items) ==
            EntriesLeft(list, items) + EntryWeight(q, items)
  {
    var n := |list| - 1;
    if j == n {
      assert list[j := q][..n] == list[..n];
    } else {
      assert list[j := q][..n] == list[..n][j := q];
      EntriesLeftUpdate(list[..n], items, j, q);
    }
  }

  lemma EntriesLeftAppend(list: seq<QuestItem>, k: nat, items: seq<LootItem>)
    requires k < |items|
    ensures EntriesLeft(list + [QuestItem(k, false)], items) ==
            EntriesLeft(list, items) + if items[k].freeforall then 1 else 0
  {
    assert (list + [QuestItem(k, false)])[..|list|] == list;
  }

  lemma NoEntriesLeft(items: seq<LootItem>)
    ensures EntriesLeft([], items) == 0
  {
  }

  lemma {:induction false} FFAFillCounts(w: World, p: Player, items: seq<LootItem>, n: nat)
    requires n <= |items|
    ensures var f := FFAFill(w, p, items, n); f.count == EntriesLeft(f.list, items)
  {
    hide EntriesLeft, AllowedForPlayer;
    if n > 0 {
      FFAFillCounts(w, p, items, n - 1);
      EntriesLeftAppend(FFAFill(w, p, items, n - 1).list, n - 1, items);
    } else {
      NoEntriesLeft(items);
    }
  }

  lemma {:induction false} QuestFillCounts(w: World, p: Player, items: seq<LootItem>, room: nat, n: nat)
    requires n <= |items|
    ensures var f := QuestFill(w, p, items, room, n);
            && SameKinds(f.items, items)
            && ItemsLeft(true, items) + f.count == ItemsLeft(true, f.items) + EntriesLeft(f.list, items)
  {
    hide ItemsLeft, EntriesLeft, AllowedForPlayer;
    if n > 0 {
      QuestFillCounts(w, p, items, room, n - 1);
      var f := QuestFill(w, p, items, room, n - 1);
      EntriesLeftAppend(f.list, n - 1, items);
      ItemsLeftUpdate(true, f.items, n - 1, items[n - 1].(isBlocked := true));
    } else {
      NoEntriesLeft(items);
    }
  }

  lemma {:induction false} ConditionalFillCounts(w: World, p: Player, items: seq<LootItem>, n: nat)
    requires n <= |items|
    ensures var f := ConditionalFill(w, p, items, n);
            SameKinds(f.items, items) && ItemsLeft(false, items) + f.count == ItemsLeft(false, f.items)
  {
    hide ItemsLeft, AllowedForPlayer;
    if n > 0 {
      ConditionalFillCounts(w, p, items, n - 1);
      ItemsLeftUpdate(false, ConditionalFill(w, p, items, n - 1).items, n - 1, items[n - 1].(isCounted := true));
    }
  }

  // ---------------------------------------------------------------------------
  // Conservation
  // ---------------------------------------------------------------------------

  lemma U8Add(a: nat, b: nat)
    ensures U8(U8(a) + b) == U8(a + b)
  {
  }

  /** Adding items before any list exists keeps the counter right. */
  lemma AddedConserved(s: LootState, w: World, e: LootStoreItem)
    requires Conserved(s) && s.quest == s.ffa == s.cond == map[]
    ensures Conserved(Added(s, w, e)) && Added(s, w, e).quest == Added(s, w, e).ffa == Added(s, w, e).cond == map[]
  {
    var r := Added(s, w, e);
    if r.items != s.items {
      assert r.items[..|s.items|] == s.items;
      U8Add(LeftToTake(s), 1);
    }
    if r.questItems != s.questItems {
      assert r.questItems[..|s.questItems|] == s.questItems;
    }
  }

  lemma {:induction false} AllAddedConserved(s: LootState, w: World, es: seq<LootStoreItem>)
    requires Conserved(s) && s.quest == s.ffa == s.cond == map[]
    ensures var r := AllAdded(s, w, es); Conserved(r) && r.quest == r.ffa == r.cond == map[]
  {
    if es != [] {
      AllAddedConserved(s, w, es[..|es| - 1]);
      AddedConserved(AllAdded(s, w, es[..|es| - 1]), w, es[|es| - 1]);
    }
  }

  /** From `s` to `t` the counter and what is left grow by the same number. */
  ghost predicate GrowsBy(s: LootState, t: LootState, c: nat) {
    t.unlootedCount == U8(s.unlootedCount + c) && LeftToTake(t) == LeftToTake(s) + c
  }

  lemma FilledFFAGrows(s: LootState, w: World, p: Player) returns (c: nat)
    requires p.guid !in s.ffa
    ensures GrowsBy(s, FilledFFA(s, w, p), c)
  {
    hide FFAFill, ItemsLeft, AllEntriesLeft, EntriesLeft, Listed;
    c := 0;
    if p.inWorld {
      var f := FFAFill(w, p, s.items, |s.items|);
      FFAFillCounts(w, p, s.items, |s.items|);
      AllEntriesLeftInsert(s.ffa, s.items, p.guid, f.list);
      c := f.count;
    }
  }

  lemma FilledQuestGrows(s: LootState, w: World, p: Player) returns (c: nat)
    requires p.guid !in s.quest
    ensures GrowsBy(s, FilledQuest(s, w, p), c)
  {
    hide QuestFill, ItemsLeft, AllEntriesLeft, EntriesLeft, SameKinds, Listed;
    c := 0;
    if p.inWorld && |s.items| < MAX_NR_LOOT_ITEMS {
      var f := QuestFill(w, p, s.questItems, MAX_NR_LOOT_ITEMS - |s.items|, |s.questItems|);
      QuestFillCounts(w, p, s.questItems, MAX_NR_LOOT_ITEMS - |s.items|, |s.questItems|);
      AllEntriesLeftInsert(s.quest, s.questItems, p.guid, f.list);
      AllEntriesLeftSame(Listed(s.quest, p.guid, f.list), f.items, s.questItems);
      c := f.count;
    }
  }

  lemma FilledConditionalGrows(s: LootState, w: World, p: Player) returns (c: nat)
    ensures GrowsBy(s, FilledConditional(s, w, p), c)
  {
    hide ConditionalFill, ItemsLeft, AllEntriesLeft, EntriesLeft, SameKinds, Listed;
    c := 0;
    if p.inWorld {
      var f := ConditionalFill(w, p, s.items, |s.items|);
      ConditionalFillCounts(w, p, s.items, |s.items|);
      AllEntriesLeftSame(s.ffa, f.items, s.items);
      c := f.count;
    }
  }

  lemma GrowthsAdd(s: LootState, t: LootState, u: LootState, c: nat, d: nat)
    requires GrowsBy(s, t, c) && GrowsBy(t, u, d)
    ensures GrowsBy(s, u, c + d)
  {
    hide LeftToTake;
    U8Add(s.unlootedCount + c, d);
  }

  lemma NoGrowth(s: LootState)
    ensures GrowsBy(s, s, 0)
  {
  }

  /** Making the lists of any player adds to the counter exactly what it adds to what is left. */
  lemma FilledForGrows(s: LootState, w: World, p: Player) returns (c: nat)
    ensures GrowsBy(s, FilledFor(s, w, p), c)
  {
    hide GrowsBy, FilledQuest, FilledFFA, FilledConditional;
    var s1 := if p.guid in s.quest then s else FilledQuest(s, w, p);
    NoGrowth(s);
    var c1 := 0;
    if p.guid !in s.quest {
      c1 := FilledQuestGrows(s, w, p);
    }
    var s2 := if p.guid in s1.ffa then s1 else FilledFFA(s1, w, p);
    NoGrowth(s1);
    var c2 := 0;
    if p.guid !in s1.ffa {
      c2 := FilledFFAGrows(s1, w, p);
    }
    GrowthsAdd(s, s1, s2, c1, c2);
    NoGrowth(s2);
    var c3 := 0;
    if p.guid !in s2.cond {
      c3 := FilledConditionalGrows(s2, w, p);
    }
    GrowthsAdd(s, s2, FilledFor(s, w, p), c1 + c2, c3);
    c := c1 + c2 + c3;
  }

  lemma FilledForConserved(s: LootState, w: World, p: Player)
    requires Conserved(s)
    ensures Conserved(FilledFor(s, w, p))
  {
    var c := FilledForGrows(s, w, p);
    hide LeftToTake, FilledFor;
    U8Add(LeftToTake(s), c);
  }

  /** Conservation over a whole distribution: any items, then any players, repeats included. */
  lemma {:induction false} DistributionConserved(w: World, es: seq<LootStoreItem>, ps: seq<Player>)
    ensures Conserved(FilledForAll(AllAdded(CLEARED, w, es), w, ps))
  {
    if ps == [] {
      AllAddedConserved(CLEARED, w, es);
    } else {
      DistributionConserved(w, es, ps[..|ps| - 1]);
      FilledForConserved(FilledForAll(AllAdded(CLEARED, w, es), w, ps[..|ps| - 1]), w, ps[|ps| - 1]);
    }
  }
}
