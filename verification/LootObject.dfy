/**
 The loot object itself: templates are processed into it, players get their lists, slots are
 shown, decoded and emptied, all by updating its vectors, maps and counter in place.
 */
module LootObject {
  import opened Options
  import opened LootTemplates
  import opened Loot
  import opened LootSlots
  import opened LootView

  /** A group member and whether it is near enough to be rewarded. */
  datatype Member = Member(player: Player, eligible: bool)

  function Eligible(ms: seq<Member>): (ps: seq<Player>)
  {
    if ms == [] then []
    else
      var rest := Eligible(ms[..|ms| - 1]);
      if ms[|ms| - 1].eligible then rest + [ms[|ms| - 1].player] else rest
  }

  function ThresholdMarked(w: World, items: seq<LootItem>, underThreshold: nat -> bool): (r: seq<LootItem>)
    ensures |r| == |items|
  {
    seq(|items|, k requires 0 <= k < |items| =>
      if w.hasProto(items[k].itemid) && underThreshold(items[k].itemid)
      then items[k].(isUnderthreshold := true) else items[k])
  }

  /** The loot after its template dropped `es` and the lists are made. */
  function FilledLoot(s: LootState, w: World, es: seq<LootStoreItem>, owner: Player, isPersonal: bool,
                      group: Option<seq<Member>>, underThreshold: nat -> bool): (r: LootState)
  {
    var dropped := AllAdded(s, w, es);
    if !isPersonal && group.Some? then
      var filled := FilledForAll(dropped, w, Eligible(group.value));
      filled.(items := ThresholdMarked(w, filled.items, underThreshold))
    else FilledFor(dropped, w, owner)
  }

  /** What a loot is after it was cleared, of everything or of all but the quest items. */
  function Emptied(s: LootState, clearQuestItems: bool): (r: LootState)
  {
    if clearQuestItems then CLEARED else CLEARED.(questItems := s.questItems, quest := s.quest)
  }

  class LootBox {
    var items: seq<LootItem>
    var questItems: seq<LootItem>
    var unlootedCount: Byte
    var quest: PlayerLists
    var ffa: PlayerLists
    var cond: PlayerLists
    var allowedLooters: seq<nat>
    var gold: nat
    var roundRobin: nat
    var personal: bool

    constructor (gold: nat)
      ensures State() == CLEARED && this.gold == gold
    {
      items, questItems, unlootedCount := [], [], 0;
      quest, ffa, cond := map[], map[], map[];
      allowedLooters, roundRobin, personal := [], 0, false;
      this.gold := gold;
    }

    function State(): LootState
      reads this
    {
      LootState(items, questItems, unlootedCount, quest, ffa, cond)
    }

    method Clear(clearQuestItems: bool)
      modifies this
      ensures gold == 0 && roundRobin == 0 && allowedLooters == [] && personal
      ensures State() == Emptied(old(State()), clearQuestItems)
    {
      if clearQuestItems {
        quest, questItems := map[], [];
      }
      ffa, cond, items := map[], map[], [];
      gold, unlootedCount, roundRobin := 0, 0, 0;
      allowedLooters, personal := [], true;
    }

    method AddItem(w: World, e: LootStoreItem)
      modifies this
      ensures State() == Added(old(State()), w, e)
    {
      if e.needsQuest {
        if |questItems| < MAX_NR_QUEST_ITEMS {
          questItems := questItems + [FromStore(w, e)];
        }
      } else if |items| < MAX_NR_LOOT_ITEMS {
        items := items + [FromStore(w, e)];
        if e.conditionId == 0 {
          if !IsFreeForAll(w, e.itemid) {
            unlootedCount := U8(unlootedCount + 1);
          }
        }
      }
    }

    // -------------------------------------------------------------------------
    // Processing a template
    // -------------------------------------------------------------------------

    /** Rolls one group into the loot. */
    method ProcessGroup(w: World, r: Rules, d: Dice, g: LootGroup, pos0: nat) returns (pos: nat)
      modifies this
      ensures State() == AllAdded(old(State()), w, GroupDrops(r, d, g, pos0).0)
      ensures pos == GroupDrops(r, d, g, pos0).1
    {
      var item;
      item, pos := Roll(r, g, d, pos0);
      if item.Some? {
        AddItem(w, item.value);
        assert [item.value][..0] == [];
      }
    }

    method ProcessGroups(w: World, r: Rules, d: Dice, gs: seq<LootGroup>, pos0: nat) returns (pos: nat)
      modifies this
      ensures State() == AllAdded(old(State()), w, GroupsDrops(r, d, gs, |gs|, pos0).0)
      ensures pos == GroupsDrops(r, d, gs, |gs|, pos0).1
    {
      pos := pos0;
      for i := 0 to |gs|
        invariant State() == AllAdded(old(State()), w, GroupsDrops(r, d, gs, i, pos0).0)
        invariant pos == GroupsDrops(r, d, gs, i, pos0).1
      {
        AllAddedConcat(old(State()), w, GroupsDrops(r, d, gs, i, pos0).0, GroupDrops(r, d, gs[i], pos).0);
        pos := ProcessGroup(w, r, d, gs[i], pos);
      }
    }

    /** Rolls every entry and group of a template into the loot. It ends because references are acyclic. */
    method Process(w: World, refs: Store, ghost rank: nat -> nat, r: Rules, d: Dice, t: LootTemplate, group: nat,
                   ghost level: nat, pos0: nat) returns (pos: nat)
      requires Acyclic(refs, rank) && (group == 0 ==> Below(refs, rank, t, level))
      modifies this
      ensures State() == AllAdded(old(State()), w, Drops(refs, rank, r, d, t, group, level, pos0).0)
      ensures pos == Drops(refs, rank, r, d, t, group, level, pos0).1
      decreases level, 1
    {
      pos := pos0;
      if group != 0 {
        if group > |t.groups| {
          return;
        }
        pos := ProcessGroup(w, r, d, t.groups[group - 1], pos);
        return;
      }
      for k := 0 to |t.entries|
        invariant State() == AllAdded(old(State()), w, EntryDrops(refs, rank, r, d, t, k, level, pos0).0)
        invariant pos == EntryDrops(refs, rank, r, d, t, k, level, pos0).1
      {
        ghost var before := EntryDrops(refs, rank, r, d, t, k, level, pos0).0;
        var e := t.entries[k];
        var roll := RollEntry(r, e, d, pos);
        pos := roll.1;
        if roll.0 {
          if e.IsReference() {
            if e.Target() in refs {
              ghost var more := RepeatedDrops(refs, rank, r, d, e.Target(), e.group, e.maxcount, pos).0;
              AllAddedConcat(old(State()), w, before, more);
              pos := ProcessRepeatedly(w, refs, rank, r, d, e.Target(), e.group, e.maxcount, pos);
            }
          } else {
            AllAddedConcat(old(State()), w, before, [e]);
            assert [e][..0] == [];
            AddItem(w, e);
          }
        }
      }
      ghost var fromEntries := EntryDrops(refs, rank, r, d, t, |t.entries|, level, pos0);
      AllAddedConcat(old(State()), w, fromEntries.0, GroupsDrops(r, d, t.groups, |t.groups|, pos).0);
      pos := ProcessGroups(w, r, d, t.groups, pos);
    }

    /** The loop over the multiplicator of a reference. */
    method ProcessRepeatedly(w: World, refs: Store, ghost rank: nat -> nat, r: Rules, d: Dice, id: nat, group: nat,
                             n: nat, pos0: nat) returns (pos: nat)
      requires Acyclic(refs, rank) && id in refs
      modifies this
      ensures State() == AllAdded(old(State()), w, RepeatedDrops(refs, rank, r, d, id, group, n, pos0).0)
      ensures pos == RepeatedDrops(refs, rank, r, d, id, group, n, pos0).1
      decreases RefLevel(rank, id, group), 2
    {
      pos := pos0;
      for i := 0 to n
        invariant State() == AllAdded(old(State()), w, RepeatedDrops(refs, rank, r, d, id, group, i, pos0).0)
        invariant pos == RepeatedDrops(refs, rank, r, d, id, group, i, pos0).1
      {
        ghost var level := RefLevel(rank, id, group);
        AllAddedConcat(old(State()), w, RepeatedDrops(refs, rank, r, d, id, group, i, pos0).0,
                       Drops(refs, rank, r, d, refs[id], group, level, pos).0);
        pos := Process(w, refs, rank, r, d, refs[id], group, level, pos);
      }
    }

    // -------------------------------------------------------------------------
    // The players' lists
    // -------------------------------------------------------------------------

    method FillFFALoot(w: World, p: Player)
      modifies `unlootedCount, `ffa
      ensures State() == FilledFFA(old(State()), w, p)
    {
      if !p.inWorld {
        return;
      }
      ghost var start := unlootedCount;
      var ql := [];
      for i := 0 to |items|
        invariant State() == old(State()).(unlootedCount := unlootedCount)
        invariant ql == FFAFill(w, p, items, i).list
        invariant unlootedCount == U8(start + FFAFill(w, p, items, i).count)
      {
        if !items[i].isLooted && items[i].freeforall && AllowedForPlayer(w, p, items[i]) {
          ql := ql + [QuestItem(i, false)];
          unlootedCount := U8(unlootedCount + 1);
        }
      }
      if |ql| != 0 {
        ffa := ffa[p.guid := ql];
      }
    }

    method FillQuestLoot(w: World, p: Player)
      modifies `unlootedCount, `questItems, `quest
      ensures State() == FilledQuest(old(State()), w, p)
    {
      if !p.inWorld {
        return;
      }
      if |items| >= MAX_NR_LOOT_ITEMS {
        return;
      }
      var ql := ListQuestItems(w, p);
      if |ql| != 0 {
        quest := quest[p.guid := ql];
      }
    }

    /** Goes through the quest items until the player's slots are full. */
    method ListQuestItems(w: World, p: Player) returns (ql: seq<QuestItem>)
      requires |items| < MAX_NR_LOOT_ITEMS
      modifies `unlootedCount, `questItems
      ensures var f := QuestFill(w, p, old(questItems), MAX_NR_LOOT_ITEMS - |items|, |old(questItems)|);
              ql == f.list && questItems == f.items && unlootedCount == U8(old(unlootedCount) + f.count)
    {
      hide QuestFill, AllowedForPlayer, U8;
      QuestFillStarts(w, p, questItems, MAX_NR_LOOT_ITEMS - |items|);
      ghost var start: nat, before, count: nat := unlootedCount, questItems, 0;
      ghost var room := MAX_NR_LOOT_ITEMS - |items|;
      ql := [];
      var i := 0;
      while i < |questItems|
        invariant i <= |questItems| == |before| && |ql| < room
        invariant QuestFill(w, p, before, room, i) == Fill(ql, questItems, count)
        invariant unlootedCount == U8(start + count)
      {
        var item := questItems[i];
        assert item == before[i];
        QuestFillSteps(w, p, before, room, i);
        U8Add(start + count, 1);
        if !item.isLooted && AllowedForPlayer(w, p, item) {
          ql := ql + [QuestItem(i, false)];
          if item.freeforall || !item.isBlocked {
            unlootedCount := U8(unlootedCount + 1);
            count := count + 1;
          }
          questItems := questItems[i := item.(isBlocked := true)];
          if |items| + |ql| == MAX_NR_LOOT_ITEMS {
            FullListStays(w, p, before, room, i + 1, |before|);
            return;
          }
        }
        i := i + 1;
      }
    }

    method FillNonQuestNonFFAConditionalLoot(w: World, p: Player)
      modifies `unlootedCount, `items, `cond
      ensures State() == FilledConditional(old(State()), w, p)
    {
      if !p.inWorld {
        return;
      }
      ghost var start, before := unlootedCount, items;
      var ql := [];
      for i := 0 to |items|
        invariant State() == old(State()).(unlootedCount := unlootedCount, items := items)
        invariant |items| == |before|
        invariant ql == ConditionalFill(w, p, before, i).list && items == ConditionalFill(w, p, before, i).items
        invariant unlootedCount == U8(start + ConditionalFill(w, p, before, i).count)
      {
        assert items[i] == before[i];
        if !items[i].isLooted && !items[i].freeforall && items[i].conditionId != 0 && AllowedForPlayer(w, p, items[i]) {
          ql := ql + [QuestItem(i, false)];
          if !items[i].isCounted {
            unlootedCount := U8(unlootedCount + 1);
            items := items[i := items[i].(isCounted := true)];
          }
        }
      }
      if |ql| != 0 {
        cond := cond[p.guid := ql];
      }
    }

    method FillNotNormalLootFor(w: World, p: Player)
      modifies `unlootedCount, `items, `questItems, `quest, `ffa, `cond, `allowedLooters
      ensures State() == FilledFor(old(State()), w, p)
    {
      if p.inWorld {
        allowedLooters := allowedLooters + [p.guid];
      }
      if p.guid !in quest {
        FillQuestLoot(w, p);
      }
      if p.guid !in ffa {
        FillFFALoot(w, p);
      }
      if p.guid !in cond {
        FillNonQuestNonFFAConditionalLoot(w, p);
      }
    }

    // -------------------------------------------------------------------------
    // Filling the loot
    // -------------------------------------------------------------------------

    /** Rolls the template and makes the lists of everybody who may loot. */
    method FillLoot(w: World, refs: Store, ghost rank: nat -> nat, r: Rules, d: Dice, tab: Option<LootTemplate>,
                    ghost level: nat, owner: Option<Player>, isPersonal: bool, group: Option<seq<Member>>,
                    underThreshold: nat -> bool) returns (ok: bool)
      requires Acyclic(refs, rank) && (tab.Some? ==> Below(refs, rank, tab.value, level))
      modifies this
      ensures ok <==> owner.Some? && tab.Some?
      ensures !ok ==> State() == old(State())
      ensures ok ==> State() == FilledLoot(old(State()), w, Drops(refs, rank, r, d, tab.value, 0, level, 0).0,
                                           owner.value, isPersonal, group, underThreshold)
    {
      if owner.None? {
        return false;
      }
      if tab.None? {
        return false;
      }
      personal := true;
      var pos := Process(w, refs, rank, r, d, tab.value, 0, level, 0);
      if !isPersonal && group.Some? {
        roundRobin := owner.value.guid;
        personal := false;
        FillForGroup(w, group.value);
        MarkUnderThreshold(w, underThreshold);
      } else {
        FillNotNormalLootFor(w, owner.value);
      }
      return true;
    }

    method FillForGroup(w: World, members: seq<Member>)
      modifies `unlootedCount, `items, `questItems, `quest, `ffa, `cond, `allowedLooters
      ensures State() == FilledForAll(old(State()), w, Eligible(members))
    {
      for i := 0 to |members|
        invariant State() == FilledForAll(old(State()), w, Eligible(members[..i]))
      {
        assert members[..i + 1][..i] == members[..i];
        if members[i].eligible {
          allowedLooters := allowedLooters + [members[i].player.guid];
          FillNotNormalLootFor(w, members[i].player);
        }
      }
      assert members[..|members|] == members;
    }

    method MarkUnderThreshold(w: World, underThreshold: nat -> bool)
      modifies `items
      ensures items == ThresholdMarked(w, old(items), underThreshold)
    {
      for i := 0 to |items|
        invariant |items| == |old(items)|
        invariant forall k :: 0 <= k < i ==> items[k] == ThresholdMarked(w, old(items), underThreshold)[k]
        invariant forall k :: i <= k < |items| ==> items[k] == old(items)[k]
      {
        if w.hasProto(items[i].itemid) && underThreshold(items[i].itemid) {
          items := items[i := items[i].(isUnderthreshold := true)];
        }
      }
    }

    // -------------------------------------------------------------------------
    // Slots
    // -------------------------------------------------------------------------

    /** The loop that looks for the player's entry for an item. */
    method Search(list: seq<QuestItem>, index: nat) returns (j: nat)
      ensures j == FindEntry(list, index)
    {
      j := 0;
      while j < |list|
        invariant j <= |list|
        invariant FindEntry(list, index) == j + FindEntry(list[j..], index)
      {
        if list[j].index == index {
          return;
        }
        j := j + 1;
      }
    }

    method LootItemInSlot(slot: nat, guid: nat) returns (f: Found)
      requires ListsFit(State())
      ensures f == ItemInSlot(State(), slot, guid)
    {
      f := Nothing;
      var looted := true;
      if slot >= |items| {
        var questSlot := slot - |items|;
        if guid in quest && questSlot < |quest[guid]| {
          var q := quest[guid][questSlot];
          f := Found(questItems[q.index], QuestEntry(questSlot));
          looted := questItems[q.index].isLooted || q.isLooted;
        }
      } else {
        var item := items[slot];
        f := Found(item, NoEntry);
        looted := item.isLooted;
        if item.freeforall {
          if guid in ffa {
            var j := Search(ffa[guid], slot);
            if j < |ffa[guid]| {
              f := Found(item, FFAEntry(j));
              looted := ffa[guid][j].isLooted;
            }
          }
        } else if item.conditionId != 0 && !looted {
          if guid in cond {
            var j := Search(cond[guid], slot);
            if j < |cond[guid]| {
              f := Found(item, CondEntry(j));
              looted := cond[guid][j].isLooted;
            }
          }
        }
      }
      if looted {
        f := Nothing;
      }
    }

    method GetMaxSlotInLootFor(guid: nat) returns (n: nat)
      ensures n == MaxSlot(State(), guid)
    {
      n := |items| + if guid in quest then |quest[guid]| else 0;
    }

    /** Refuses the item behind the slot, or hands it out: marks and counter after it was stored. */
    method TakeItem(t: Taker, slot: nat) returns (taken: bool)
      requires ListsFit(State())
      modifies `unlootedCount, `items, `questItems, `quest, `ffa, `cond
      ensures taken <==> MayTake(old(State()), t, slot)
      ensures State() == if taken then Taken(old(State()), t, slot) else old(State())
    {
      hide AllowedForPlayer;
      var guid := t.player.guid;
      var f := LootItemInSlot(slot, guid);
      if f == Nothing {
        return false;
      }
      if !AllowedForPlayer(t.world, t.player, f.item) {
        return false;
      }
      if !f.entry.QuestEntry? && f.item.isBlocked {
        return false;
      }
      if t.masterLoot && !f.item.isUnderthreshold && !f.entry.QuestEntry? && !f.entry.FFAEntry? {
        return false;
      }
      if !t.room {
        return false;
      }
      match f.entry {
        case QuestEntry(j) =>
          quest := quest[guid := quest[guid][j := quest[guid][j].(isLooted := true)]];
          if !f.item.freeforall {
            questItems := questItems[quest[guid][j].index := f.item.(isLooted := true)];
          }
        case FFAEntry(j) =>
          ffa := ffa[guid := ffa[guid][j := ffa[guid][j].(isLooted := true)]];
        case CondEntry(j) =>
          cond := cond[guid := cond[guid][j := cond[guid][j].(isLooted := true)]];
          items := items[slot := f.item.(isLooted := true)];
        case NoEntry =>
          if !f.item.freeforall {
            items := items[slot := f.item.(isLooted := true)];
          }
      }
      unlootedCount := U8(unlootedCount + 255);
      return true;
    }

    /** Writes the slot list for a viewer and counts its lines. */
    method SendView(w: World, v: Viewer) returns (shown: seq<Shown>, count: nat)
      requires ListsFit(State())
      ensures shown == LootView.View(State(), w, v)
      ensures count == |shown|
    {
      if v.permission == NoPermission {
        return [], 0;
      }
      var ordinary := SendOrdinary(w, v);
      var questLines := SendQuest(v);
      var ffaLines := SendFFA(v);
      var conditional := SendConditional(w, v);
      shown := ordinary + questLines + ffaLines + conditional;
      count := |ordinary| + |questLines| + |ffaLines| + |conditional|;
    }

    method SendOrdinary(w: World, v: Viewer) returns (shown: seq<Shown>)
      ensures shown == OrdinarySection(State(), w, v, |items|)
    {
      hide AllowedForPlayer, OrdinaryType;
      shown := [];
      for i := 0 to |items|
        invariant shown == OrdinarySection(State(), w, v, i)
      {
        var item := items[i];
        if !item.isLooted && !item.freeforall && AllowedForPlayer(w, v.player, item) {
          var t := OrdinaryType(v, item);
          if t.Some? {
            shown := shown + [Shown(i, item, t.value)];
          }
        }
      }
    }

    method SendQuest(v: Viewer) returns (shown: seq<Shown>)
      requires ListsFit(State())
      ensures shown == QuestSection(State(), v, |ListOf(quest, v.player.guid)|)
    {
      shown := [];
      var list := ListOf(quest, v.player.guid);
      for j := 0 to |list|
        invariant shown == QuestSection(State(), v, j)
      {
        var q := list[j];
        var item := questItems[q.index];
        if !(q.isLooted || item.isLooted) {
          if !(!item.freeforall && v.NotMyTurn() && v.roundRobin in quest) {
            shown := shown + [Shown(|items| + j, item, ALLOW_LOOT)];
          }
        }
      }
    }

    method SendFFA(v: Viewer) returns (shown: seq<Shown>)
      requires ListsFit(State())
      ensures shown == FFASection(State(), v, |ListOf(ffa, v.player.guid)|)
    {
      shown := [];
      var list := ListOf(ffa, v.player.guid);
      for j := 0 to |list|
        invariant shown == FFASection(State(), v, j)
      {
        var q := list[j];
        var item := items[q.index];
        if !q.isLooted && !item.isLooted {
          shown := shown + [Shown(q.index, item, ALLOW_LOOT)];
        }
      }
    }

    method SendConditional(w: World, v: Viewer) returns (shown: seq<Shown>)
      requires ListsFit(State())
      ensures shown == ConditionalSection(State(), w, v, |ListOf(cond, v.player.guid)|)
    {
      hide SharedType;
      shown := [];
      var list := ListOf(cond, v.player.guid);
      for j := 0 to |list|
        invariant shown == ConditionalSection(State(), w, v, j)
      {
        var q := list[j];
        var item := items[q.index];
        var t := SharedType(w, v, item, !q.isLooted);
        if t.Some? && !(!item.freeforall && v.NotMyTurn() && v.roundRobin in cond) {
          shown := shown + [Shown(q.index, item, t.value)];
        }
      }
    }
  }

  lemma QuestFillStarts(w: World, p: Player, items: seq<LootItem>, room: nat)
    ensures QuestFill(w, p, items, room, 0) == Fill([], items, 0)
  {
  }

  /** One more item of the quest list. */
  lemma QuestFillSteps(w: World, p: Player, items: seq<LootItem>, room: nat, n: nat)
    requires n < |items|
    ensures var f, i := QuestFill(w, p, items, room, n), items[n];
            QuestFill(w, p, items, room, n + 1) ==
            if |f.list| < room && WantsQuest(w, p, i) then
              Fill(f.list + [QuestItem(n, false)],
                   f.items[n := i.(isBlocked := true)],
                   f.count + if i.freeforall || !i.isBlocked then 1 else 0)
            else f
  {
  }

  /** Once a quest list is full nothing more goes on it. */
  lemma {:induction false} FullListStays(w: World, p: Player, items: seq<LootItem>, room: nat, n: nat, m: nat)
    requires n <= m <= |items| && |QuestFill(w, p, items, room, n).list| == room
    ensures QuestFill(w, p, items, room, m) == QuestFill(w, p, items, room, n)
    decreases m
  {
    if n < m {
      FullListStays(w, p, items, room, n, m - 1);
    }
  }
}
