/**
 The list of slots a viewer is shown, and its agreement with the slot decoder in every state
 a loot can reach.
 */
module LootView {
  import opened Options
  import opened LootTemplates
  import opened Loot
  import opened LootSlots

  datatype Permission = All | Group | Master | RoundRobin | Owner | NoPermission

  const ALLOW_LOOT: nat := 0
  const ROLL_ONGOING: nat := 1
  const MASTER: nat := 2

  /** One line of the list: slot, item, slot type. */
  datatype Shown = Shown(slot: nat, item: LootItem, slotType: nat)

  /** Who looks, with what permission, and whose turn it is (0: nobody's). */
  datatype Viewer = Viewer(player: Player, permission: Permission, roundRobin: nat)
  {
    predicate NotMyTurn() {
      roundRobin != 0 && player.guid != roundRobin
    }
  }

  /** The slot type of an ordinary item, if it is shown at all. */
  function OrdinaryType(v: Viewer, i: LootItem): (t: Option<nat>)
  {
    match v.permission
    case Group =>
      if i.isBlocked then Some(ROLL_ONGOING)
      else if v.roundRobin == 0 || !i.isUnderthreshold || v.player.guid == v.roundRobin then Some(ALLOW_LOOT)
      else None
    case RoundRobin => if v.NotMyTurn() then None else Some(ALLOW_LOOT)
    case Master => Some(MASTER)
    case All => Some(ALLOW_LOOT)
    case Owner => Some(ALLOW_LOOT)
    case NoPermission => None
  }

  predicate OrdinaryVisible(w: World, v: Viewer, i: LootItem) {
    !i.isLooted && !i.freeforall && AllowedForPlayer(w, v.player, i) && OrdinaryType(v, i).Some?
  }

  /** The ordinary section, first `n` items. */
  function OrdinarySection(s: LootState, w: World, v: Viewer, n: nat): (r: seq<Shown>)
    requires n <= |s.items|
  {
    if n == 0 then []
    else
      var i := s.items[n - 1];
      OrdinarySection(s, w, v, n - 1) +
      if OrdinaryVisible(w, v, i) then [Shown(n - 1, i, OrdinaryType(v, i).value)] else []
  }

  predicate QuestVisible(s: LootState, v: Viewer, j: nat)
    requires ListsFit(s) && j < |ListOf(s.quest, v.player.guid)|
  {
    var q := ListOf(s.quest, v.player.guid)[j];
    var i := s.questItems[q.index];
    !q.isLooted && !i.isLooted && !(!i.freeforall && v.NotMyTurn() && v.roundRobin in s.quest)
  }

  /** The quest section, first `n` entries of the viewer: slots follow the ordinary ones. */
  function QuestSection(s: LootState, v: Viewer, n: nat): (r: seq<Shown>)
    requires ListsFit(s) && n <= |ListOf(s.quest, v.player.guid)|
  {
    if n == 0 then []
    else
      QuestSection(s, v, n - 1) +
      if QuestVisible(s, v, n - 1)
      then [Shown(|s.items| + n - 1, s.questItems[ListOf(s.quest, v.player.guid)[n - 1].index], ALLOW_LOOT)] else []
  }

  /** The free-for-all section, first `n` entries of the viewer. */
  function FFASection(s: LootState, v: Viewer, n: nat): (r: seq<Shown>)
    requires ListsFit(s) && n <= |ListOf(s.ffa, v.player.guid)|
  {
    if n == 0 then []
    else
      var q := ListOf(s.ffa, v.player.guid)[n - 1];
      var i := s.items[q.index];
      FFASection(s, v, n - 1) + if !q.isLooted && !i.isLooted then [Shown(q.index, i, ALLOW_LOOT)] else []
  }

  /** The slot type of a shared item, if the player may see it. */
  function SharedType(w: World, v: Viewer, i: LootItem, conditionOk: bool): (t: Option<nat>)
  {
    if i.isLooted || i.freeforall || (i.conditionId != 0 && !conditionOk) || !AllowedForPlayer(w, v.player, i) then None
    else
      match v.permission
      case Group => Some(if i.isBlocked || i.isUnderthreshold then ALLOW_LOOT else ROLL_ONGOING)
      case All => Some(ALLOW_LOOT)
      case Owner => Some(ALLOW_LOOT)
      case Master => Some(if i.isUnderthreshold then ALLOW_LOOT else MASTER)
      case RoundRobin => None
      case NoPermission => None
  }

  /** The conditional section, first `n` entries of the viewer. */
  function ConditionalSection(s: LootState, w: World, v: Viewer, n: nat): (r: seq<Shown>)
    requires ListsFit(s) && n <= |ListOf(s.cond, v.player.guid)|
  {
    if n == 0 then []
    else
      var q := ListOf(s.cond, v.player.guid)[n - 1];
      var i := s.items[q.index];
      var t := SharedType(w, v, i, !q.isLooted);
      ConditionalSection(s, w, v, n - 1) +
      if t.Some? && !(!i.freeforall && v.NotMyTurn() && v.roundRobin in s.cond)
      then [Shown(q.index, i, t.value)] else []
  }

  /** The whole list. */
  function View(s: LootState, w: World, v: Viewer): (r: seq<Shown>)
    requires ListsFit(s)
  {
    if v.permission == NoPermission then []
    else
      var g := v.player.guid;
      OrdinarySection(s, w, v, |s.items|) + QuestSection(s, v, |ListOf(s.quest, g)|) +
      FFASection(s, v, |ListOf(s.ffa, g)|) + ConditionalSection(s, w, v, |ListOf(s.cond, g)|)
  }

  // ---------------------------------------------------------------------------
  // Every slot shown decodes to the item shown
  // ---------------------------------------------------------------------------

  /** In an ascending list the entry with a given index is found where it is. */
  lemma {:induction false} EntryFound(list: seq<QuestItem>, j: nat)
    requires Ascending(list) && j < |list|
    ensures FindEntry(list, list[j].index) == j
  {
    if j > 0 {
      assert list[0].index < list[j].index;
      assert Ascending(list[1..]);
      EntryFound(list[1..], j - 1);
      assert list[1..][j - 1] == list[j];
    }
  }

  lemma ListsOk(s: LootState, guid: nat)
    requires LootInv(s)
    ensures ListsFit(s)
    ensures QuestListOk(|s.items|, s.questItems, ListOf(s.quest, guid))
    ensures FFAListOk(s.items, ListOf(s.ffa, guid))
    ensures CondListOk(s.items, ListOf(s.cond, guid))
  {
    InvMeansFit(s);
  }

  lemma OrdinaryDecodes(s: LootState, guid: nat, k: nat)
    requires LootInv(s) && ListsFit(s) && k < |s.items|
    requires !s.items[k].isLooted && !s.items[k].freeforall
    ensures ItemInSlot(s, k, guid).Found? && ItemInSlot(s, k, guid).item == s.items[k]
  {
    ListsOk(s, guid);
    var list := ListOf(s.cond, guid);
    var j := FindEntry(list, k);
    if j < |list| {
      assert CondEntryOk(s.items, list[j]);
    }
  }

  lemma QuestDecodes(s: LootState, guid: nat, j: nat)
    requires LootInv(s) && ListsFit(s) && j < |ListOf(s.quest, guid)|
    requires !ListOf(s.quest, guid)[j].isLooted && !s.questItems[ListOf(s.quest, guid)[j].index].isLooted
    ensures ItemInSlot(s, |s.items| + j, guid) ==
            Found(s.questItems[ListOf(s.quest, guid)[j].index], QuestEntry(j))
  {
  }

  lemma FFADecodes(s: LootState, guid: nat, j: nat)
    requires LootInv(s) && ListsFit(s) && j < |ListOf(s.ffa, guid)| && !ListOf(s.ffa, guid)[j].isLooted
    ensures var k := ListOf(s.ffa, guid)[j].index; ItemInSlot(s, k, guid) == Found(s.items[k], FFAEntry(j))
  {
    ListsOk(s, guid);
    EntryFound(ListOf(s.ffa, guid), j);
  }

  lemma ConditionalDecodes(s: LootState, guid: nat, j: nat)
    requires LootInv(s) && ListsFit(s) && j < |ListOf(s.cond, guid)| && !ListOf(s.cond, guid)[j].isLooted
    requires !s.items[ListOf(s.cond, guid)[j].index].isLooted
    ensures var k := ListOf(s.cond, guid)[j].index; ItemInSlot(s, k, guid) == Found(s.items[k], CondEntry(j))
  {
    ListsOk(s, guid);
    EntryFound(ListOf(s.cond, guid), j);
    assert CondEntryOk(s.items, ListOf(s.cond, guid)[j]);
  }

  /** The slot leads back to the item, and to the ordinary items exactly below their number. */
  predicate Decodes(s: LootState, guid: nat, x: Shown)
    requires ListsFit(s)
  {
    && ItemInSlot(s, x.slot, guid).Found?
    && ItemInSlot(s, x.slot, guid).item == x.item
    && (ItemInSlot(s, x.slot, guid).entry.QuestEntry? <==> |s.items| <= x.slot)
  }

  lemma {:induction false} OrdinarySectionDecodes(s: LootState, w: World, v: Viewer, n: nat, x: Shown)
    requires LootInv(s) && ListsFit(s) && n <= |s.items| && x in OrdinarySection(s, w, v, n)
    ensures Decodes(s, v.player.guid, x) && x.slot < n
  {
    if x in OrdinarySection(s, w, v, n - 1) {
      OrdinarySectionDecodes(s, w, v, n - 1, x);
    } else {
      OrdinaryDecodes(s, v.player.guid, n - 1);
    }
  }

  /** What the last entry adds to the section. */
  lemma LastQuest(s: LootState, v: Viewer, n: nat, x: Shown)
    requires LootInv(s) && ListsFit(s) && n <= |ListOf(s.quest, v.player.guid)| && x in QuestSection(s, v, n)
    ensures 0 < n
    ensures x in QuestSection(s, v, n - 1) || (Decodes(s, v.player.guid, x) && x.slot == |s.items| + n - 1)
  {
    hide LootInv, ItemInSlot;
    if x !in QuestSection(s, v, n - 1) {
      QuestDecodes(s, v.player.guid, n - 1);
    }
  }

  lemma {:induction false} QuestSectionDecodes(s: LootState, v: Viewer, n: nat, x: Shown)
    requires LootInv(s) && ListsFit(s) && n <= |ListOf(s.quest, v.player.guid)| && x in QuestSection(s, v, n)
    ensures Decodes(s, v.player.guid, x) && |s.items| <= x.slot < |s.items| + n
  {
    hide *;
    LastQuest(s, v, n, x);
    if x in QuestSection(s, v, n - 1) {
      QuestSectionDecodes(s, v, n - 1, x);
    }
  }

  lemma LastFFA(s: LootState, v: Viewer, n: nat, x: Shown)
    requires LootInv(s) && ListsFit(s) && n <= |ListOf(s.ffa, v.player.guid)| && x in FFASection(s, v, n)
    ensures 0 < n
    ensures x in FFASection(s, v, n - 1) ||
            (Decodes(s, v.player.guid, x) && x.slot < |s.items| && ItemInSlot(s, x.slot, v.player.guid).entry.FFAEntry?)
  {
    hide LootInv, ItemInSlot;
    if x !in FFASection(s, v, n - 1) {
      FFADecodes(s, v.player.guid, n - 1);
    }
  }

  lemma {:induction false} FFASectionDecodes(s: LootState, v: Viewer, n: nat, x: Shown)
    requires LootInv(s) && ListsFit(s) && n <= |ListOf(s.ffa, v.player.guid)| && x in FFASection(s, v, n)
    ensures Decodes(s, v.player.guid, x) && x.slot < |s.items|
    ensures ItemInSlot(s, x.slot, v.player.guid).entry.FFAEntry?
  {
    hide *;
    LastFFA(s, v, n, x);
    if x in FFASection(s, v, n - 1) {
      FFASectionDecodes(s, v, n - 1, x);
    }
  }

  lemma ShownConditional(s: LootState, w: World, v: Viewer, n: nat, x: Shown)
    requires LootInv(s) && ListsFit(s) && 0 < n <= |ListOf(s.cond, v.player.guid)|
    requires x in ConditionalSection(s, w, v, n) && x !in ConditionalSection(s, w, v, n - 1)
    ensures var q := ListOf(s.cond, v.player.guid)[n - 1];
            x.slot == q.index && x.item == s.items[q.index] && !q.isLooted && !x.item.isLooted
  {
    ListsOk(s, v.player.guid);
    assert CondEntryOk(s.items, ListOf(s.cond, v.player.guid)[n - 1]);
    hide LootInv;
  }

  lemma LastConditional(s: LootState, w: World, v: Viewer, n: nat, x: Shown)
    requires LootInv(s) && ListsFit(s) && n <= |ListOf(s.cond, v.player.guid)| && x in ConditionalSection(s, w, v, n)
    ensures 0 < n
    ensures x in ConditionalSection(s, w, v, n - 1) ||
            (Decodes(s, v.player.guid, x) && x.slot < |s.items| && ItemInSlot(s, x.slot, v.player.guid).entry.CondEntry?)
  {
    hide LootInv, SharedType, ItemInSlot;
    if x !in ConditionalSection(s, w, v, n - 1) {
      ShownConditional(s, w, v, n, x);
      ConditionalDecodes(s, v.player.guid, n - 1);
    }
  }

  lemma {:induction false} ConditionalSectionDecodes(s: LootState, w: World, v: Viewer, n: nat, x: Shown)
    requires LootInv(s) && ListsFit(s) && n <= |ListOf(s.cond, v.player.guid)| && x in ConditionalSection(s, w, v, n)
    ensures Decodes(s, v.player.guid, x) && x.slot < |s.items|
    ensures ItemInSlot(s, x.slot, v.player.guid).entry.CondEntry?
  {
    hide *;
    LastConditional(s, w, v, n, x);
    if x in ConditionalSection(s, w, v, n - 1) {
      ConditionalSectionDecodes(s, w, v, n - 1, x);
    }
  }

  /** Round trip: every slot on the list is below 16 and decodes to the item it shows. */
  lemma ShownSlotsDecode(s: LootState, w: World, v: Viewer, x: Shown)
    requires LootInv(s) && ListsFit(s) && x in View(s, w, v)
    ensures Decodes(s, v.player.guid, x)
    ensures x.slot < MaxSlot(s, v.player.guid) <= 16
  {
    hide LootInv, ListsFit, Decodes, OrdinarySection, QuestSection, FFASection, ConditionalSection;
    var g := v.player.guid;
    SlotsFit(s, g);
    if x in OrdinarySection(s, w, v, |s.items|) {
      OrdinarySectionDecodes(s, w, v, |s.items|, x);
    } else if x in QuestSection(s, v, |ListOf(s.quest, g)|) {
      QuestSectionDecodes(s, v, |ListOf(s.quest, g)|, x);
    } else if x in FFASection(s, v, |ListOf(s.ffa, g)|) {
      FFASectionDecodes(s, v, |ListOf(s.ffa, g)|, x);
    } else {
      ConditionalSectionDecodes(s, w, v, |ListOf(s.cond, g)|, x);
    }
  }

  /** The client cannot show more than 16 items, and no player has more slots. */
  lemma SlotsFit(s: LootState, guid: nat)
    requires LootInv(s)
    ensures MaxSlot(s, guid) <= 16
  {
    ListsOk(s, guid);
  }

  // ---------------------------------------------------------------------------
  // Every slot that decodes is shown
  // ---------------------------------------------------------------------------

  predicate IsShown(r: seq<Shown>, slot: nat) {
    exists i :: 0 <= i < |r| && r[i].slot == slot
  }

  lemma {:induction false} OrdinaryShown(s: LootState, w: World, v: Viewer, n: nat, k: nat)
    requires k < n <= |s.items| && OrdinaryVisible(w, v, s.items[k])
    ensures IsShown(OrdinarySection(s, w, v, n), k)
  {
    var r := OrdinarySection(s, w, v, n);
    if k < n - 1 {
      OrdinaryShown(s, w, v, n - 1, k);
      var p := OrdinarySection(s, w, v, n - 1);
      var i :| 0 <= i < |p| && p[i].slot == k;
      assert r[i] == p[i];
    } else {
      assert r[|r| - 1].slot == k;
    }
  }

  lemma {:induction false} QuestShown(s: LootState, v: Viewer, n: nat, j: nat)
    requires ListsFit(s) && j < n <= |ListOf(s.quest, v.player.guid)| && QuestVisible(s, v, j)
    ensures IsShown(QuestSection(s, v, n), |s.items| + j)
  {
    var r := QuestSection(s, v, n);
    if j < n - 1 {
      QuestShown(s, v, n - 1, j);
      var p := QuestSection(s, v, n - 1);
      var i :| 0 <= i < |p| && p[i].slot == |s.items| + j;
      assert r[i] == p[i];
    } else {
      assert r[|r| - 1].slot == |s.items| + j;
    }
  }

  lemma {:induction false} FFAShown(s: LootState, v: Viewer, n: nat, j: nat)
    requires ListsFit(s) && j < n <= |ListOf(s.ffa, v.player.guid)|
    requires var q := ListOf(s.ffa, v.player.guid)[j]; !q.isLooted && !s.items[q.index].isLooted
    ensures IsShown(FFASection(s, v, n), ListOf(s.ffa, v.player.guid)[j].index)
  {
    var r := FFASection(s, v, n);
    var slot := ListOf(s.ffa, v.player.guid)[j].index;
    if j < n - 1 {
      FFAShown(s, v, n - 1, j);
      var p := FFASection(s, v, n - 1);
      var i :| 0 <= i < |p| && p[i].slot == slot;
      assert r[i] == p[i];
    } else {
      assert r[|r| - 1].slot == slot;
    }
  }

  lemma ShownInWhole(a: seq<Shown>, b: seq<Shown>, c: seq<Shown>, d: seq<Shown>, slot: nat)
    requires IsShown(a, slot) || IsShown(b, slot) || IsShown(c, slot) || IsShown(d, slot)
    ensures IsShown(a + b + c + d, slot)
  {
    var r := a + b + c + d;
    if i :| 0 <= i < |a| && a[i].slot == slot {
      assert r[i] == a[i];
    } else if i :| 0 <= i < |b| && b[i].slot == slot {
      assert r[|a| + i] == b[i];
    } else if i :| 0 <= i < |c| && c[i].slot == slot {
      assert r[|a| + |b| + i] == c[i];
    } else {
      var i :| 0 <= i < |d| && d[i].slot == slot;
      assert r[|a| + |b| + |c| + i] == d[i];
    }
  }

  /** May the player have the item behind the slot as far as the list is concerned? */
  predicate Offered(s: LootState, w: World, v: Viewer, slot: nat)
    requires ListsFit(s)
  {
    var f := ItemInSlot(s, slot, v.player.guid);
    && f.Found?
    && (f.entry.QuestEntry? || f.entry.FFAEntry? ||
        (!f.item.freeforall && AllowedForPlayer(w, v.player, f.item)))
  }

  lemma {:induction false} OrdinarySectionAllowed(s: LootState, w: World, v: Viewer, n: nat, x: Shown)
    requires n <= |s.items| && x in OrdinarySection(s, w, v, n)
    ensures !x.item.freeforall && AllowedForPlayer(w, v.player, x.item)
  {
    hide AllowedForPlayer;
    if x in OrdinarySection(s, w, v, n - 1) {
      OrdinarySectionAllowed(s, w, v, n - 1, x);
    }
  }

  lemma {:induction false} ConditionalSectionAllowed(s: LootState, w: World, v: Viewer, n: nat, x: Shown)
    requires ListsFit(s) && n <= |ListOf(s.cond, v.player.guid)| && x in ConditionalSection(s, w, v, n)
    ensures !x.item.freeforall && AllowedForPlayer(w, v.player, x.item)
  {
    hide AllowedForPlayer;
    if x in ConditionalSection(s, w, v, n - 1) {
      ConditionalSectionAllowed(s, w, v, n - 1, x);
    }
  }

  /** With unrestricted permission and nobody's turn, the list shows exactly the offered slots. */
  lemma ViewIsExact(s: LootState, w: World, v: Viewer, slot: nat)
    requires LootInv(s) && ListsFit(s) && v.permission == All && v.roundRobin == 0
    ensures IsShown(View(s, w, v), slot) <==> Offered(s, w, v, slot)
  {
    var g := v.player.guid;
    var a, b := OrdinarySection(s, w, v, |s.items|), QuestSection(s, v, |ListOf(s.quest, g)|);
    var c, d := FFASection(s, v, |ListOf(s.ffa, g)|), ConditionalSection(s, w, v, |ListOf(s.cond, g)|);
    if IsShown(View(s, w, v), slot) {
      ShownIsOffered(s, w, v, slot);
    }
    if Offered(s, w, v, slot) {
      OfferedIsShown(s, w, v, slot);
      ShownInWhole(a, b, c, d, slot);
    }
  }

  lemma ShownIsOffered(s: LootState, w: World, v: Viewer, slot: nat)
    requires LootInv(s) && ListsFit(s) && IsShown(View(s, w, v), slot)
    ensures Offered(s, w, v, slot)
  {
    var g := v.player.guid;
    var r := View(s, w, v);
    var i :| 0 <= i < |r| && r[i].slot == slot;
    var x := r[i];
    hide LootInv, ListsFit, AllowedForPlayer, ItemInSlot, OrdinarySection, QuestSection, FFASection, ConditionalSection;
    if x in OrdinarySection(s, w, v, |s.items|) {
      OrdinarySectionDecodes(s, w, v, |s.items|, x);
      OrdinarySectionAllowed(s, w, v, |s.items|, x);
    } else if x in QuestSection(s, v, |ListOf(s.quest, g)|) {
      QuestSectionDecodes(s, v, |ListOf(s.quest, g)|, x);
    } else if x in FFASection(s, v, |ListOf(s.ffa, g)|) {
      FFASectionDecodes(s, v, |ListOf(s.ffa, g)|, x);
    } else {
      ConditionalSectionDecodes(s, w, v, |ListOf(s.cond, g)|, x);
      ConditionalSectionAllowed(s, w, v, |ListOf(s.cond, g)|, x);
    }
  }

  lemma OfferedIsShown(s: LootState, w: World, v: Viewer, slot: nat)
    requires LootInv(s) && ListsFit(s) && v.permission == All && v.roundRobin == 0 && Offered(s, w, v, slot)
    ensures || IsShown(OrdinarySection(s, w, v, |s.items|), slot)
            || IsShown(QuestSection(s, v, |ListOf(s.quest, v.player.guid)|), slot)
            || IsShown(FFASection(s, v, |ListOf(s.ffa, v.player.guid)|), slot)
  {
    var g := v.player.guid;
    match ItemInSlot(s, slot, g).entry
    case QuestEntry(j) => QuestShown(s, v, |ListOf(s.quest, g)|, j);
    case FFAEntry(j) =>
      assert ItemsOk(s.items, MAX_NR_LOOT_ITEMS);
      FFAShown(s, v, |ListOf(s.ffa, g)|, j);
    case CondEntry(j) => OrdinaryShown(s, w, v, |s.items|, slot);
    case NoEntry => OrdinaryShown(s, w, v, |s.items|, slot);
  }

  /**
   The list against the server's refusals: a listed item is refused only if it is no longer allowed
   for the player or a roll for it is going on, and what may be taken is listed, except a
   free-for-all item that the player has no entry for.
   */
  lemma ListedAgainstTakeable(s: LootState, v: Viewer, t: Taker, slot: nat)
    requires LootInv(s) && ListsFit(s) && v.permission == All && v.roundRobin == 0
    requires t.player == v.player && !t.masterLoot && t.room
    ensures var f := ItemInSlot(s, slot, v.player.guid);
            && (MayTake(s, t, slot) ==> IsShown(View(s, t.world, v), slot) || (f.item.freeforall && f.entry.NoEntry?))
            && (IsShown(View(s, t.world, v), slot) ==>
                  f.Found? && (MayTake(s, t, slot) <==>
                               AllowedForPlayer(t.world, t.player, f.item) && (f.entry.QuestEntry? || !f.item.isBlocked)))
  {
    ViewIsExact(s, t.world, v, slot);
    hide IsShown, View, ItemInSlot, AllowedForPlayer, LootInv, ListsFit;
  }

  /** A listed slot can be taken without upsetting the counter unless it is a conditional item that nobody has claimed. */
  lemma ListedSlotsAreAccounted(s: LootState, w: World, v: Viewer, x: Shown)
    requires LootInv(s) && ListsFit(s) && x in View(s, w, v)
    ensures Accounted(s, x.slot, v.player.guid) <==>
            (x.item.freeforall || |s.items| <= x.slot || x.item.conditionId == 0 || x.item.isCounted)
  {
    var g := v.player.guid;
    ListsOk(s, g);
    hide LootInv, ListsFit, AllowedForPlayer, OrdinarySection, QuestSection, FFASection, ConditionalSection, ItemInSlot;
    if x in OrdinarySection(s, w, v, |s.items|) {
      OrdinarySectionDecodes(s, w, v, |s.items|, x);
      OrdinarySectionAllowed(s, w, v, |s.items|, x);
      EntryMeansCounted(s, x.slot, g);
    } else if x in QuestSection(s, v, |ListOf(s.quest, g)|) {
      QuestSectionDecodes(s, v, |ListOf(s.quest, g)|, x);
    } else if x in FFASection(s, v, |ListOf(s.ffa, g)|) {
      FFASectionDecodes(s, v, |ListOf(s.ffa, g)|, x);
      EntryMeansCounted(s, x.slot, g);
    } else {
      ConditionalSectionDecodes(s, w, v, |ListOf(s.cond, g)|, x);
      EntryMeansCounted(s, x.slot, g);
    }
  }

  lemma EntryMeansCounted(s: LootState, slot: nat, guid: nat)
    requires LootInv(s) && ListsFit(s) && slot < |s.items| && ItemInSlot(s, slot, guid).Found?
    ensures ItemInSlot(s, slot, guid).item == s.items[slot]
    ensures ItemInSlot(s, slot, guid).entry.CondEntry? ==> s.items[slot].isCounted
    ensures ItemInSlot(s, slot, guid).entry.FFAEntry? ==> s.items[slot].freeforall
    ensures !ItemInSlot(s, slot, guid).entry.QuestEntry?
  {
    ListsOk(s, guid);
    if ItemInSlot(s, slot, guid).entry.CondEntry? {
      assert CondEntryOk(s.items, ListOf(s.cond, guid)[ItemInSlot(s, slot, guid).entry.j]);
    }
  }
}
