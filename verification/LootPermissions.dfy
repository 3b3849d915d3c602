/**
 What a viewer is shown under each permission: which items, and whether they may be looted at once,
 are being rolled for, or are handed out by the master looter.
 */
module LootPermissions {
  import opened Options
  import opened LootTemplates
  import opened Loot
  import opened LootSlots
  import opened LootView

  /** Line `x` stands on the list for ordinary items. */
  predicate OnOrdinaryList(s: LootState, w: World, v: Viewer, x: Shown) {
    x in OrdinarySection(s, w, v, |s.items|)
  }

  /** The item lies there, is not free for all, and is allowed for the viewer. */
  predicate Lies(s: LootState, w: World, v: Viewer, k: nat) {
    k < |s.items| && !s.items[k].isLooted && !s.items[k].freeforall && AllowedForPlayer(w, v.player, s.items[k])
  }

  /** The reasons for which a player is turned away from an item. */
  lemma TurnedAwayIff(w: World, p: Player, i: LootItem)
    ensures !AllowedForPlayer(w, p, i) <==>
            || !w.hasProto(i.itemid)
            || (0 < i.conditionId && !w.conditionMet(i.conditionId, p.guid))
            || (i.needsQuest && !w.hasQuestFor(p.guid, i.itemid))
            || (!i.needsQuest && w.questStartBlocked(p.guid, i.itemid))
            || (0 < i.lootOwner && i.lootOwner != p.guid)
  {
  }

  lemma {:induction false} OrdinaryIff(s: LootState, w: World, v: Viewer, n: nat, k: nat, t: nat)
    requires n <= |s.items|
    ensures k < |s.items| ==>
              (Shown(k, s.items[k], t) in OrdinarySection(s, w, v, n) <==>
               k < n && OrdinaryVisible(w, v, s.items[k]) && OrdinaryType(v, s.items[k]) == Some(t))
    decreases n
  {
    hide OrdinaryVisible, OrdinaryType;
    if n > 0 && k < |s.items| {
      OrdinaryIff(s, w, v, n - 1, k, t);
      LastOrdinary(s, w, v, n - 1, Shown(k, s.items[k], t));
    }
  }

  lemma LastOrdinary(s: LootState, w: World, v: Viewer, n: nat, x: Shown)
    requires n < |s.items|
    ensures x in OrdinarySection(s, w, v, n + 1) <==>
            || x in OrdinarySection(s, w, v, n)
            || (OrdinaryVisible(w, v, s.items[n]) && x == Shown(n, s.items[n], x.slotType) &&
                OrdinaryType(v, s.items[n]) == Some(x.slotType))
  {
    hide OrdinaryType, AllowedForPlayer;
  }

  /**
   In a group an item that is rolled for is shown as such; any other may be looted, one below the
   threshold only by the player whose turn it is, if it is somebody's.
   */
  lemma GroupShows(s: LootState, w: World, v: Viewer, k: nat, t: nat)
    requires v.permission == Group && k < |s.items|
    ensures var i := s.items[k];
            OnOrdinaryList(s, w, v, Shown(k, i, t)) <==>
            && Lies(s, w, v, k)
            && if i.isBlocked then t == 1
               else t == 0 && (!i.isUnderthreshold || v.roundRobin == 0 || v.roundRobin == v.player.guid)
  {
    OrdinaryIff(s, w, v, |s.items|, k, t);
    hide AllowedForPlayer, OrdinarySection;
  }

  /** Taking turns, everything may be looted by the player whose turn it is, or by all if it is nobody's. */
  lemma RoundRobinShows(s: LootState, w: World, v: Viewer, k: nat, t: nat)
    requires v.permission == RoundRobin && k < |s.items|
    ensures OnOrdinaryList(s, w, v, Shown(k, s.items[k], t)) <==>
            Lies(s, w, v, k) && t == 0 && (v.roundRobin == 0 || v.roundRobin == v.player.guid)
  {
    OrdinaryIff(s, w, v, |s.items|, k, t);
    hide AllowedForPlayer, OrdinarySection;
  }

  /** A master looter is shown everything as hers to hand out; an owner and everybody else everything as free to loot. */
  lemma OthersShow(s: LootState, w: World, v: Viewer, k: nat, t: nat)
    requires v.permission == Master || v.permission == All || v.permission == Owner
    requires k < |s.items|
    ensures OnOrdinaryList(s, w, v, Shown(k, s.items[k], t)) <==>
            Lies(s, w, v, k) && t == if v.permission == Master then 2 else 0
  {
    OrdinaryIff(s, w, v, |s.items|, k, t);
    hide AllowedForPlayer, OrdinarySection;
  }

  /** Without permission nothing is shown. */
  lemma NothingShown(s: LootState, w: World, v: Viewer)
    requires ListsFit(s) && v.permission == NoPermission
    ensures View(s, w, v) == []
  {
  }

  // ---------------------------------------------------------------------------
  // Lists of one's own
  // ---------------------------------------------------------------------------

  /** Somebody else's turn keeps shared items of a list from the viewer, if that player has such a list too. */
  predicate Waits(v: Viewer, lists: PlayerLists) {
    v.roundRobin != 0 && v.roundRobin != v.player.guid && v.roundRobin in lists
  }

  lemma {:induction false} QuestIff(s: LootState, v: Viewer, n: nat, j: nat, i: LootItem, t: nat)
    requires ListsFit(s) && n <= |ListOf(s.quest, v.player.guid)| && j < |ListOf(s.quest, v.player.guid)|
    ensures Shown(|s.items| + j, i, t) in QuestSection(s, v, n) <==>
            j < n && QuestVisible(s, v, j) && i == s.questItems[ListOf(s.quest, v.player.guid)[j].index] && t == ALLOW_LOOT
    decreases n
  {
    hide QuestVisible, ListsFit;
    if n > 0 {
      QuestIff(s, v, n - 1, j, i, t);
    }
  }

  /** A quest item of the viewer is shown as free to loot until it is gone, or while the viewer waits for another's turn. */
  lemma QuestShows(s: LootState, v: Viewer, j: nat, t: nat)
    requires ListsFit(s) && j < |ListOf(s.quest, v.player.guid)|
    ensures var q := ListOf(s.quest, v.player.guid)[j];
            var i := s.questItems[q.index];
            Shown(|s.items| + j, i, t) in QuestSection(s, v, |ListOf(s.quest, v.player.guid)|) <==>
            t == 0 && !q.isLooted && !i.isLooted && (i.freeforall || !Waits(v, s.quest))
  {
    var i := s.questItems[ListOf(s.quest, v.player.guid)[j].index];
    QuestIff(s, v, |ListOf(s.quest, v.player.guid)|, j, i, t);
    hide QuestSection;
  }

  lemma {:induction false} FFAIff(s: LootState, v: Viewer, n: nat, x: Shown)
    requires ListsFit(s) && n <= |ListOf(s.ffa, v.player.guid)|
    ensures x in FFASection(s, v, n) <==>
            exists j :: 0 <= j < n && FFAShown(s, v, j, x)
    decreases n
  {
    hide ListsFit;
    if n > 0 {
      FFAIff(s, v, n - 1, x);
      assert FFAShown(s, v, n - 1, x) ==> x in FFASection(s, v, n);
    }
  }

  /** Line `x` shows entry `j` of the viewer's free-for-all list, which neither the viewer nor all have taken, as free to loot. */
  predicate FFAShown(s: LootState, v: Viewer, j: nat, x: Shown)
    requires ListsFit(s) && j < |ListOf(s.ffa, v.player.guid)|
  {
    var q := ListOf(s.ffa, v.player.guid)[j];
    !q.isLooted && !s.items[q.index].isLooted && x == Shown(q.index, s.items[q.index], 0)
  }

  /** The slot types of a shared item on a list of conditional items. */
  predicate SharedAs(v: Viewer, i: LootItem, t: nat) {
    match v.permission
    case Group => t == if i.isBlocked || i.isUnderthreshold then 0 else 1
    case Master => t == if i.isUnderthreshold then 0 else 2
    case All => t == 0
    case Owner => t == 0
    case RoundRobin => false
    case NoPermission => false
  }

  /** Line `x` shows entry `j` of the viewer's conditional list. */
  predicate CondShown(s: LootState, w: World, v: Viewer, j: nat, x: Shown)
    requires ListsFit(s) && j < |ListOf(s.cond, v.player.guid)|
  {
    var q := ListOf(s.cond, v.player.guid)[j];
    var i := s.items[q.index];
    && x.slot == q.index && x.item == i && SharedAs(v, i, x.slotType)
    && !i.isLooted && !i.freeforall && (i.conditionId == 0 || !q.isLooted) && AllowedForPlayer(w, v.player, i)
    && !Waits(v, s.cond)
  }

  lemma {:induction false} CondIff(s: LootState, w: World, v: Viewer, n: nat, x: Shown)
    requires ListsFit(s) && n <= |ListOf(s.cond, v.player.guid)|
    ensures x in ConditionalSection(s, w, v, n) <==> exists j :: 0 <= j < n && CondShown(s, w, v, j, x)
    decreases n
  {
    hide ListsFit, AllowedForPlayer;
    if n > 0 {
      CondIff(s, w, v, n - 1, x);
      LastCond(s, w, v, n - 1, x);
      hide CondShown, SharedType;
    }
  }

  lemma LastCond(s: LootState, w: World, v: Viewer, n: nat, x: Shown)
    requires ListsFit(s) && n < |ListOf(s.cond, v.player.guid)|
    ensures x in ConditionalSection(s, w, v, n + 1) <==> x in ConditionalSection(s, w, v, n) || CondShown(s, w, v, n, x)
  {
    hide ListsFit, AllowedForPlayer;
  }
}
