/**
 Slots: what a player is shown of a loot, how a slot number is turned back into an item, and
 what taking that item does to the loot.
 */
module LootSlots {
  import opened LootTemplates
  import opened Loot

  /** Which of the player's entries stands behind a slot, by its position in the list. */
  datatype Entry = NoEntry | QuestEntry(j: nat) | FFAEntry(j: nat) | CondEntry(j: nat)

  datatype Found = Nothing | Found(item: LootItem, entry: Entry)

  /** Position of the first entry for item `index`, |list| if there is none. */
  function FindEntry(list: seq<QuestItem>, index: nat): (j: nat)
    ensures j <= |list|
    ensures j < |list| ==> list[j].index == index
    ensures forall k :: 0 <= k < j ==> list[k].index != index
  {
    if list == [] || list[0].index == index then 0 else 1 + FindEntry(list[1..], index)
  }

  /** The entries of a player, none if there is no list. */
  function ListOf(m: PlayerLists, guid: nat): (list: seq<QuestItem>)
  {
    if guid in m then m[guid] else []
  }

  /** The item behind a slot, unless it is gone. */
  function ItemInSlot(s: LootState, slot: nat, guid: nat): (f: Found)
    requires ListsFit(s)
  {
    if slot >= |s.items| then
      var j := slot - |s.items|;
      var list := ListOf(s.quest, guid);
      if j < |list| then
        var item := s.questItems[list[j].index];
        if item.isLooted || list[j].isLooted then Nothing else Found(item, QuestEntry(j))
      else Nothing
    else
      var item := s.items[slot];
      if item.freeforall then
        var list := ListOf(s.ffa, guid);
        var j := FindEntry(list, slot);
        if j < |list| then (if list[j].isLooted then Nothing else Found(item, FFAEntry(j)))
        else if item.isLooted then Nothing else Found(item, NoEntry)
      else if item.isLooted then Nothing
      else if item.conditionId != 0 then
        var list := ListOf(s.cond, guid);
        var j := FindEntry(list, slot);
        if j < |list| then (if list[j].isLooted then Nothing else Found(item, CondEntry(j)))
        else Found(item, NoEntry)
      else Found(item, NoEntry)
  }

  function MaxSlot(s: LootState, guid: nat): (n: nat)
  {
    |s.items| + |ListOf(s.quest, guid)|
  }

  // ---------------------------------------------------------------------------
  // The invariant of a loot
  // ---------------------------------------------------------------------------

  /** Every entry points to an existing item. */
  predicate ListsFit(s: LootState) {
    && (forall g, j :: g in s.quest && 0 <= j < |s.quest[g]| ==> s.quest[g][j].index < |s.questItems|)
    && (forall g, j :: g in s.ffa && 0 <= j < |s.ffa[g]| ==> s.ffa[g][j].index < |s.items|)
    && (forall g, j :: g in s.cond && 0 <= j < |s.cond[g]| ==> s.cond[g][j].index < |s.items|)
  }

  predicate Ascending(list: seq<QuestItem>) {
    forall i, j :: 0 <= i < j < |list| ==> list[i].index < list[j].index
  }

  predicate ItemsOk(items: seq<LootItem>, limit: nat) {
    && |items| <= limit
    && (forall k :: 0 <= k < |items| ==> !(items[k].freeforall && items[k].isLooted))
  }

  predicate QuestListOk(itemCount: nat, questItems: seq<LootItem>, list: seq<QuestItem>) {
    && itemCount + |list| <= MAX_NR_LOOT_ITEMS && Ascending(list)
    && (forall j :: 0 <= j < |list| ==> QuestEntryOk(questItems, list[j]))
  }

  predicate QuestEntryOk(questItems: seq<LootItem>, q: QuestItem) {
    && q.index < |questItems| && questItems[q.index].isBlocked
    && (q.isLooted && !questItems[q.index].freeforall ==> questItems[q.index].isLooted)
  }

  predicate FFAListOk(items: seq<LootItem>, list: seq<QuestItem>) {
    && Ascending(list)
    && (forall j :: 0 <= j < |list| ==> list[j].index < |items| && items[list[j].index].freeforall)
  }

  predicate CondListOk(items: seq<LootItem>, list: seq<QuestItem>) {
    && Ascending(list)
    && (forall j :: 0 <= j < |list| ==> CondEntryOk(items, list[j]))
  }

  predicate CondEntryOk(items: seq<LootItem>, q: QuestItem) {
    && q.index < |items| && !items[q.index].freeforall
    && items[q.index].conditionId != 0 && items[q.index].isCounted
    && (q.isLooted ==> items[q.index].isLooted)
  }

  /** What holds of a loot from the moment it is filled, whoever takes what. */
  predicate LootInv(s: LootState) {
    && ItemsOk(s.items, MAX_NR_LOOT_ITEMS) && ItemsOk(s.questItems, MAX_NR_QUEST_ITEMS)
    && (forall g :: g in s.quest ==> QuestListOk(|s.items|, s.questItems, s.quest[g]))
    && (forall g :: g in s.ffa ==> FFAListOk(s.items, s.ffa[g]))
    && (forall g :: g in s.cond ==> CondListOk(s.items, s.cond[g]))
  }

  lemma InvMeansFit(s: LootState)
    requires LootInv(s)
    ensures ListsFit(s)
  {
    forall g, j | g in s.quest && 0 <= j < |s.quest[g]|
      ensures s.quest[g][j].index < |s.questItems|
    {
      assert QuestListOk(|s.items|, s.questItems, s.quest[g]);
    }
    forall g, j | g in s.ffa && 0 <= j < |s.ffa[g]|
      ensures s.ffa[g][j].index < |s.items|
    {
      assert FFAListOk(s.items, s.ffa[g]);
    }
    forall g, j | g in s.cond && 0 <= j < |s.cond[g]|
      ensures s.cond[g][j].index < |s.items|
    {
      assert CondListOk(s.items, s.cond[g]);
    }
  }

  lemma AddedKeepsInv(s: LootState, w: World, e: LootStoreItem)
    requires LootInv(s) && s.quest == s.ffa == s.cond == map[]
    ensures LootInv(Added(s, w, e)) && Added(s, w, e).quest == Added(s, w, e).ffa == Added(s, w, e).cond == map[]
  {
  }

  lemma {:induction false} AllAddedKeepsInv(s: LootState, w: World, es: seq<LootStoreItem>)
    requires LootInv(s) && s.quest == s.ffa == s.cond == map[]
    ensures var r := AllAdded(s, w, es); LootInv(r) && r.quest == r.ffa == r.cond == map[]
  {
    hide LootInv;
    if es != [] {
      AllAddedKeepsInv(s, w, es[..|es| - 1]);
      AddedKeepsInv(AllAdded(s, w, es[..|es| - 1]), w, es[|es| - 1]);
    }
  }

  // ---------------------------------------------------------------------------
  // Filling keeps the invariant
  // ---------------------------------------------------------------------------

  /** Items that have not lost a mark and agree otherwise. */
  predicate OnlyMarked(a: seq<LootItem>, b: seq<LootItem>) {
    |a| == |b| && forall k :: 0 <= k < |a| ==>
      && b[k] == a[k].(isBlocked := b[k].isBlocked, isCounted := b[k].isCounted)
      && (a[k].isBlocked ==> b[k].isBlocked)
      && (a[k].isCounted ==> b[k].isCounted)
  }

  lemma {:induction false} FFAFillList(w: World, p: Player, items: seq<LootItem>, n: nat)
    requires n <= |items|
    ensures var list := FFAFill(w, p, items, n).list;
            && Ascending(list)
            && forall j :: 0 <= j < |list| ==> list[j].index < n && items[list[j].index].freeforall
  {
    hide AllowedForPlayer;
    if n > 0 {
      FFAFillList(w, p, items, n - 1);
    }
  }

  lemma {:induction false} QuestFillList(w: World, p: Player, items: seq<LootItem>, room: nat, n: nat)
    requires n <= |items|
    ensures var f := QuestFill(w, p, items, room, n);
            && Ascending(f.list) && OnlyMarked(items, f.items)
            && forall j :: 0 <= j < |f.list| ==> f.list[j].index < n && f.items[f.list[j].index].isBlocked && !f.list[j].isLooted
  {
    hide AllowedForPlayer;
    if n > 0 {
      QuestFillList(w, p, items, room, n - 1);
    }
  }

  lemma {:induction false} ConditionalFillList(w: World, p: Player, items: seq<LootItem>, n: nat)
    requires n <= |items|
    ensures var f := ConditionalFill(w, p, items, n);
            && Ascending(f.list) && OnlyMarked(items, f.items)
            && forall j :: 0 <= j < |f.list| ==>
                 f.list[j].index < n && !f.list[j].isLooted &&
                 var i := f.items[f.list[j].index]; !i.freeforall && i.conditionId != 0 && i.isCounted
  {
    hide AllowedForPlayer;
    if n > 0 {
      ConditionalFillList(w, p, items, n - 1);
    }
  }

  lemma FilledQuestKeepsInv(s: LootState, w: World, p: Player)
    requires LootInv(s)
    ensures LootInv(FilledQuest(s, w, p))
  {
    if p.inWorld && |s.items| < MAX_NR_LOOT_ITEMS {
      var f := QuestFill(w, p, s.questItems, MAX_NR_LOOT_ITEMS - |s.items|, |s.questItems|);
      QuestFillList(w, p, s.questItems, MAX_NR_LOOT_ITEMS - |s.items|, |s.questItems|);
      var r := FilledQuest(s, w, p);
      forall g | g in r.quest
        ensures QuestListOk(|r.items|, r.questItems, r.quest[g])
      {
        if g in s.quest {
          assert QuestListOk(|s.items|, s.questItems, s.quest[g]);
        }
      }
      forall g | g in r.ffa ensures FFAListOk(r.items, r.ffa[g]) { assert FFAListOk(s.items, s.ffa[g]); }
      forall g | g in r.cond ensures CondListOk(r.items, r.cond[g]) { assert CondListOk(s.items, s.cond[g]); }
    }
  }

  lemma FilledFFAKeepsInv(s: LootState, w: World, p: Player)
    requires LootInv(s)
    ensures LootInv(FilledFFA(s, w, p))
  {
    if p.inWorld {
      FFAFillList(w, p, s.items, |s.items|);
      var r := FilledFFA(s, w, p);
      forall g | g in r.quest
        ensures QuestListOk(|r.items|, r.questItems, r.quest[g])
      {
        assert QuestListOk(|s.items|, s.questItems, s.quest[g]);
      }
      forall g | g in r.ffa
        ensures FFAListOk(r.items, r.ffa[g])
      {
        if g in s.ffa {
          assert FFAListOk(s.items, s.ffa[g]);
        }
      }
      forall g | g in r.cond ensures CondListOk(r.items, r.cond[g]) { assert CondListOk(s.items, s.cond[g]); }
    }
  }

  lemma FilledConditionalKeepsInv(s: LootState, w: World, p: Player)
    requires LootInv(s)
    ensures LootInv(FilledConditional(s, w, p))
  {
    if p.inWorld {
      ConditionalFillList(w, p, s.items, |s.items|);
      var r := FilledConditional(s, w, p);
      forall g | g in r.quest
        ensures QuestListOk(|r.items|, r.questItems, r.quest[g])
      {
        assert QuestListOk(|s.items|, s.questItems, s.quest[g]);
      }
      forall g | g in r.ffa ensures FFAListOk(r.items, r.ffa[g]) { assert FFAListOk(s.items, s.ffa[g]); }
      forall g | g in r.cond
        ensures CondListOk(r.items, r.cond[g])
      {
        if g in s.cond {
          assert CondListOk(s.items, s.cond[g]);
        }
      }
    }
  }

  lemma FilledForKeepsInv(s: LootState, w: World, p: Player)
    requires LootInv(s)
    ensures LootInv(FilledFor(s, w, p))
  {
    hide LootInv, FilledQuest, FilledFFA, FilledConditional;
    var s1 := if p.guid in s.quest then s else FilledQuest(s, w, p);
    FilledQuestKeepsInv(s, w, p);
    var s2 := if p.guid in s1.ffa then s1 else FilledFFA(s1, w, p);
    FilledFFAKeepsInv(s1, w, p);
    FilledConditionalKeepsInv(s2, w, p);
  }

  // ---------------------------------------------------------------------------
  // Taking
  // ---------------------------------------------------------------------------

  function MarkedTaken(m: PlayerLists, guid: nat, j: nat): (r: PlayerLists)
    requires guid in m && j < |m[guid]|
  {
    m[guid := m[guid][j := m[guid][j].(isLooted := true)]]
  }

  /** The item gone for everybody, unless it is free for all. */
  function Gone(items: seq<LootItem>, k: nat): (r: seq<LootItem>)
    requires k < |items|
    ensures |r| == |items|
  {
    if items[k].freeforall then items else items[k := items[k].(isLooted := true)]
  }

  /** Who asks for an item: the world at that time, whether master loot holds, whether there is room for it. */
  datatype Taker = Taker(world: World, player: Player, masterLoot: bool, room: bool)

  /** The item is there, and none of the server's refusals applies. */
  predicate MayTake(s: LootState, t: Taker, slot: nat)
    requires ListsFit(s)
  {
    var f := ItemInSlot(s, slot, t.player.guid);
    && f.Found?
    && AllowedForPlayer(t.world, t.player, f.item)
    && (f.entry.QuestEntry? || !f.item.isBlocked)
    && (t.masterLoot ==> f.item.isUnderthreshold || f.entry.QuestEntry? || f.entry.FFAEntry?)
    && t.room
  }

  /** The loot after the player has taken what the slot decodes to. */
  function Taken(s: LootState, t: Taker, slot: nat): (r: LootState)
    requires ListsFit(s) && MayTake(s, t, slot)
  {
    var guid := t.player.guid;
    var s' := s.(unlootedCount := U8(s.unlootedCount + 255));
    match ItemInSlot(s, slot, guid).entry
    case QuestEntry(j) =>
      s'.(quest := MarkedTaken(s.quest, guid, j), questItems := Gone(s.questItems, s.quest[guid][j].index))
    case FFAEntry(j) => s'.(ffa := MarkedTaken(s.ffa, guid, j), items := Gone(s.items, slot))
    case CondEntry(j) => s'.(cond := MarkedTaken(s.cond, guid, j), items := Gone(s.items, slot))
    case NoEntry => s'.(items := Gone(s.items, slot))
  }

  /** Was the item counted? Either it stands on the player's list or it is an item for anyone. */
  predicate Accounted(s: LootState, slot: nat, guid: nat)
    requires ListsFit(s)
  {
    var f := ItemInSlot(s, slot, guid);
    f.Found? && (f.entry != NoEntry || (!f.item.freeforall && (f.item.conditionId == 0 || f.item.isCounted)))
  }

  lemma GoneKeepsLists(items: seq<LootItem>, k: nat, list: seq<QuestItem>)
    requires k < |items|
    ensures FFAListOk(items, list) ==> FFAListOk(Gone(items, k), list)
    ensures CondListOk(items, list) ==> CondListOk(Gone(items, k), list)
  {
  }

  lemma GoneKeepsQuestList(itemCount: nat, questItems: seq<LootItem>, k: nat, list: seq<QuestItem>)
    requires k < |questItems| && QuestListOk(itemCount, questItems, list)
    ensures QuestListOk(itemCount, Gone(questItems, k), list)
  {
  }

  lemma MarkedKeepsQuestList(itemCount: nat, questItems: seq<LootItem>, list: seq<QuestItem>, j: nat)
    requires j < |list| && QuestListOk(itemCount, questItems, list)
    ensures QuestEntryOk(questItems, list[j])
    ensures QuestListOk(itemCount, Gone(questItems, list[j].index), list[j := list[j].(isLooted := true)])
  {
    GoneKeepsQuestList(itemCount, questItems, list[j].index, list);
  }

  lemma MarkedKeepsFFAList(items: seq<LootItem>, list: seq<QuestItem>, j: nat)
    requires j < |list| && FFAListOk(items, list)
    ensures FFAListOk(Gone(items, list[j].index), list[j := list[j].(isLooted := true)])
  {
  }

  lemma MarkedKeepsCondList(items: seq<LootItem>, list: seq<QuestItem>, j: nat)
    requires j < |list| && CondListOk(items, list)
    ensures CondEntryOk(items, list[j])
    ensures CondListOk(Gone(items, list[j].index), list[j := list[j].(isLooted := true)])
  {
    GoneKeepsLists(items, list[j].index, list);
  }

  lemma GoneKeepsItems(items: seq<LootItem>, k: nat, limit: nat)
    requires k < |items| && ItemsOk(items, limit)
    ensures ItemsOk(Gone(items, k), limit)
  {
  }

  /** Taking an item keeps the invariant, accounted for or not. */
  lemma TakenKeepsInv(s: LootState, t: Taker, slot: nat)
    requires LootInv(s) && ListsFit(s) && MayTake(s, t, slot)
    ensures LootInv(Taken(s, t, slot))
  {
    hide QuestListOk, FFAListOk, CondListOk, ItemsOk, Gone, AllowedForPlayer;
    var r, guid := Taken(s, t, slot), t.player.guid;
    var entry := ItemInSlot(s, slot, guid).entry;
    var k := if entry.QuestEntry? then s.quest[guid][entry.j].index else slot;
    if entry.QuestEntry? {
      GoneKeepsItems(s.questItems, k, MAX_NR_QUEST_ITEMS);
    } else {
      GoneKeepsItems(s.items, k, MAX_NR_LOOT_ITEMS);
    }
    forall g | g in r.quest
      ensures QuestListOk(|r.items|, r.questItems, r.quest[g])
    {
      if entry.QuestEntry? && g == guid {
        MarkedKeepsQuestList(|s.items|, s.questItems, s.quest[g], entry.j);
      } else if entry.QuestEntry? {
        GoneKeepsQuestList(|s.items|, s.questItems, k, s.quest[g]);
      }
    }
    forall g | g in r.ffa
      ensures FFAListOk(r.items, r.ffa[g])
    {
      if entry.FFAEntry? && g == guid {
        MarkedKeepsFFAList(s.items, s.ffa[g], entry.j);
      } else if !entry.QuestEntry? {
        GoneKeepsLists(s.items, k, s.ffa[g]);
      }
    }
    forall g | g in r.cond
      ensures CondListOk(r.items, r.cond[g])
    {
      if entry.CondEntry? && g == guid {
        MarkedKeepsCondList(s.items, s.cond[g], entry.j);
      } else if !entry.QuestEntry? {
        GoneKeepsLists(s.items, k, s.cond[g]);
      }
    }
  }

  /** An item going changes the sum by its own weight. */
  lemma GoneCounts(quest: bool, items: seq<LootItem>, k: nat)
    requires k < |items|
    ensures ItemsLeft(quest, Gone(items, k)) + ItemWeight(quest, items[k]) == ItemsLeft(quest, items)
    ensures SameKinds(Gone(items, k), items)
  {
    hide ItemsLeft;
    if !items[k].freeforall {
      ItemsLeftUpdate(quest, items, k, items[k].(isLooted := true));
    }
  }

  /** An entry taken changes the sum over all players by its own weight. */
  lemma MarkedTakenCounts(m: PlayerLists, items: seq<LootItem>, guid: nat, j: nat)
    requires guid in m && j < |m[guid]|
    ensures AllEntriesLeft(MarkedTaken(m, guid, j), items) + EntryWeight(m[guid][j], items) == AllEntriesLeft(m, items)
  {
    hide AllEntriesLeft, EntriesLeft;
    var q := m[guid][j].(isLooted := true);
    EntriesLeftUpdate(m[guid], items, j, q);
    AllEntriesLeftUpdate(m, items, guid, m[guid][j := q]);
  }

  lemma QuestTakenCounts(s: LootState, t: Taker, slot: nat)
    requires LootInv(s) && ListsFit(s) && MayTake(s, t, slot) && ItemInSlot(s, slot, t.player.guid).entry.QuestEntry?
    ensures LeftToTake(Taken(s, t, slot)) + 1 == LeftToTake(s)
  {
    hide ItemsLeft, AllEntriesLeft, EntriesLeft, Gone, MarkedTaken, AllowedForPlayer;
    var r, guid := Taken(s, t, slot), t.player.guid;
    var j := ItemInSlot(s, slot, guid).entry.j;
    assert QuestListOk(|s.items|, s.questItems, s.quest[guid]);
    var k := s.quest[guid][j].index;
    GoneCounts(true, s.questItems, k);
    MarkedTakenCounts(s.quest, s.questItems, guid, j);
    AllEntriesLeftSame(r.quest, r.questItems, s.questItems);
  }

  lemma FFATakenCounts(s: LootState, t: Taker, slot: nat)
    requires LootInv(s) && ListsFit(s) && MayTake(s, t, slot) && ItemInSlot(s, slot, t.player.guid).entry.FFAEntry?
    ensures LeftToTake(Taken(s, t, slot)) + 1 == LeftToTake(s)
  {
    hide ItemsLeft, AllEntriesLeft, EntriesLeft, Gone, MarkedTaken, FindEntry, AllowedForPlayer;
    var r, guid := Taken(s, t, slot), t.player.guid;
    GoneCounts(false, s.items, slot);
    MarkedTakenCounts(s.ffa, s.items, guid, ItemInSlot(s, slot, guid).entry.j);
    AllEntriesLeftSame(r.ffa, r.items, s.items);
  }

  lemma SharedTakenCounts(s: LootState, t: Taker, slot: nat)
    requires LootInv(s) && ListsFit(s) && MayTake(s, t, slot)
    requires var e := ItemInSlot(s, slot, t.player.guid).entry; e.CondEntry? || e.NoEntry?
    ensures LeftToTake(Taken(s, t, slot)) + (if Accounted(s, slot, t.player.guid) then 1 else 0) == LeftToTake(s)
  {
    hide ItemsLeft, AllEntriesLeft, EntriesLeft, Gone, MarkedTaken, FindEntry, AllowedForPlayer;
    var r, guid := Taken(s, t, slot), t.player.guid;
    if ItemInSlot(s, slot, guid).entry.CondEntry? {
      assert CondListOk(s.items, s.cond[guid]);
    }
    GoneCounts(false, s.items, slot);
    AllEntriesLeftSame(r.ffa, r.items, s.items);
  }

  /** Taking an accounted item leaves exactly one less to take; otherwise nothing less is left. */
  lemma TakenCounts(s: LootState, t: Taker, slot: nat)
    requires LootInv(s) && ListsFit(s) && MayTake(s, t, slot)
    ensures LeftToTake(Taken(s, t, slot)) + (if Accounted(s, slot, t.player.guid) then 1 else 0) == LeftToTake(s)
  {
    hide LootInv, ListsFit, LeftToTake, Taken, ItemInSlot, AllowedForPlayer;
    match ItemInSlot(s, slot, t.player.guid).entry
    case QuestEntry(_) => QuestTakenCounts(s, t, slot);
    case FFAEntry(_) => FFATakenCounts(s, t, slot);
    case CondEntry(_) => SharedTakenCounts(s, t, slot);
    case NoEntry => SharedTakenCounts(s, t, slot);
  }

  /** The counter stays right through a take exactly when the item was accounted for. */
  lemma TakenConservedIff(s: LootState, t: Taker, slot: nat)
    requires LootInv(s) && ListsFit(s) && Conserved(s) && MayTake(s, t, slot)
    ensures Conserved(Taken(s, t, slot)) <==> Accounted(s, slot, t.player.guid)
  {
    TakenCounts(s, t, slot);
    hide LootInv, ListsFit, ItemInSlot, LeftToTake, Accounted, MayTake;
    assert Taken(s, t, slot).unlootedCount == U8(s.unlootedCount + 255);
  }

  // ---------------------------------------------------------------------------
  // Takes in the world in which the player opened the loot
  // ---------------------------------------------------------------------------

  lemma {:induction false} FFAFillLists(w: World, p: Player, items: seq<LootItem>, n: nat, k: nat)
    requires k < n <= |items| && WantsFFA(w, p, items[k])
    ensures exists j :: 0 <= j < |FFAFill(w, p, items, n).list| && FFAFill(w, p, items, n).list[j].index == k
    decreases n
  {
    hide WantsFFA;
    var f := FFAFill(w, p, items, n);
    if k == n - 1 {
      assert f.list[|f.list| - 1].index == k;
    } else {
      FFAFillLists(w, p, items, n - 1, k);
      var g := FFAFill(w, p, items, n - 1);
      var j :| 0 <= j < |g.list| && g.list[j].index == k;
      assert f.list[j] == g.list[j];
    }
  }

  lemma {:induction false} ConditionalFillCounted(w: World, p: Player, items: seq<LootItem>, n: nat, k: nat)
    requires k < |items| && n <= |items|
    ensures var i := ConditionalFill(w, p, items, n).items[k];
            && i == items[k].(isCounted := i.isCounted)
            && (k < n && WantsConditional(w, p, items[k]) ==> i.isCounted)
    decreases n
  {
    hide AllowedForPlayer;
    if n > 0 {
      ConditionalFillCounted(w, p, items, n - 1, k);
    }
  }

  /** The first position with the index is found where there is one. */
  lemma {:induction false} EntryIsFound(list: seq<QuestItem>, index: nat, j: nat)
    requires j < |list| && list[j].index == index
    ensures FindEntry(list, index) < |list|
    decreases |list|
  {
    if list[0].index != index {
      EntryIsFound(list[1..], index, j - 1);
    }
  }

  /** What the first opening makes of the items and of the player's free-for-all list. */
  lemma FirstFillIs(s: LootState, w: World, p: Player)
    requires p.inWorld && p.guid !in s.quest && p.guid !in s.ffa && p.guid !in s.cond
    ensures FilledFor(s, w, p).items == ConditionalFill(w, p, s.items, |s.items|).items
    ensures ListOf(FilledFor(s, w, p).ffa, p.guid) == FFAFill(w, p, s.items, |s.items|).list
  {
    hide FFAFill, QuestFill, ConditionalFill;
  }

  /** The marks play no part in who may have an item. */
  lemma SameAllowed(w: World, p: Player, a: LootItem, b: LootItem)
    requires b == a.(isCounted := b.isCounted)
    ensures AllowedForPlayer(w, p, a) == AllowedForPlayer(w, p, b)
  {
  }

  /** The item stands on the player's list, was claimed, or needs neither. */
  predicate Settled(r: LootState, guid: nat, slot: nat) {
    slot < |r.items| && !r.items[slot].isLooted ==>
      var i, list := r.items[slot], ListOf(r.ffa, guid);
      && (i.freeforall ==> FindEntry(list, slot) < |list|)
      && (!i.freeforall && i.conditionId != 0 ==> i.isCounted)
  }

  lemma SettledIsAccounted(r: LootState, t: Taker, slot: nat)
    requires ListsFit(r) && MayTake(r, t, slot) && Settled(r, t.player.guid, slot)
    ensures Accounted(r, slot, t.player.guid)
  {
    hide ListsFit, AllowedForPlayer, FindEntry;
  }

  /** What an opening player may have is settled. */
  lemma AllowedIsSettled(s: LootState, w: World, p: Player, r: LootState, slot: nat)
    requires r.items == ConditionalFill(w, p, s.items, |s.items|).items && |r.items| == |s.items|
    requires ListOf(r.ffa, p.guid) == FFAFill(w, p, s.items, |s.items|).list
    requires slot < |r.items| ==> AllowedForPlayer(w, p, r.items[slot])
    ensures Settled(r, p.guid, slot)
  {
    hide AllowedForPlayer, FindEntry, FFAFill, ConditionalFill, ListOf;
    if slot < |r.items| && !r.items[slot].isLooted {
      var i, list := s.items[slot], FFAFill(w, p, s.items, |s.items|).list;
      ConditionalFillCounted(w, p, s.items, |s.items|, slot);
      SameAllowed(w, p, i, r.items[slot]);
      if i.freeforall {
        FFAFillLists(w, p, s.items, |s.items|, slot);
        var j :| 0 <= j < |list| && list[j].index == slot;
        EntryIsFound(list, slot, j);
      }
    }
  }

  lemma TakenIsAllowed(r: LootState, t: Taker, slot: nat)
    requires ListsFit(r) && MayTake(r, t, slot)
    ensures slot < |r.items| ==> AllowedForPlayer(t.world, t.player, r.items[slot])
  {
    hide ListsFit, AllowedForPlayer, FindEntry;
  }

  /** A player without lists opens the loot, and then may take an item: that item was counted. */
  lemma TakeAfterOpeningIsAccounted(s: LootState, w: World, t: Taker, slot: nat)
    requires LootInv(s) && t.world == w && t.player.inWorld
    requires t.player.guid !in s.quest && t.player.guid !in s.ffa && t.player.guid !in s.cond
    ensures ListsFit(FilledFor(s, w, t.player))
    ensures MayTake(FilledFor(s, w, t.player), t, slot) ==> Accounted(FilledFor(s, w, t.player), slot, t.player.guid)
  {
    hide *;
    var p, r := t.player, FilledFor(s, w, t.player);
    FilledForKeepsInv(s, w, p);
    InvMeansFit(r);
    FirstFillIs(s, w, p);
    if MayTake(r, t, slot) {
      TakenIsAllowed(r, t, slot);
      AllowedIsSettled(s, w, p, r, slot);
      SettledIsAccounted(r, t, slot);
    }
  }
}
