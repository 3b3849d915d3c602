/**
 Runs in which the world stands still: conditions and quests of the players do not change while
 a loot is open. Then every take was counted, so the counter can only go wrong by such a change.
 */
module LootWorlds {
  import opened LootTemplates
  import opened Loot
  import opened LootSlots
  import opened LootRuns

  // ---------------------------------------------------------------------------
  // Claims
  // ---------------------------------------------------------------------------

  predicate Wants(w: World, guid: nat, i: LootItem) {
    !i.isLooted && AllowedForPlayer(w, Player(guid, true), i)
  }

  /** Every free-for-all item that the player may have is on the player's list. */
  predicate FFAClaimed(s: LootState, w: World, guid: nat) {
    forall k :: 0 <= k < |s.items| && s.items[k].freeforall && Wants(w, guid, s.items[k]) ==> OnList(s, guid, k)
  }

  predicate OnList(s: LootState, guid: nat, k: nat) {
    FindEntry(ListOf(s.ffa, guid), k) < |ListOf(s.ffa, guid)|
  }

  predicate IsConditional(i: LootItem) {
    !i.freeforall && i.conditionId != 0
  }

  /** Every conditional item that the player may have was counted. */
  predicate CondClaimed(s: LootState, w: World, guid: nat) {
    forall k :: 0 <= k < |s.items| && IsConditional(s.items[k]) && Wants(w, guid, s.items[k]) ==> s.items[k].isCounted
  }

  /** Whoever has a list, or opened the loot, claimed everything. */
  ghost predicate AllClaimed(s: LootState, w: World, seen: set<nat>) {
    && (forall g :: g in s.ffa || g in seen ==> FFAClaimed(s, w, g))
    && (forall g :: g in s.cond || g in seen ==> CondClaimed(s, w, g))
  }

  // ---------------------------------------------------------------------------
  // One step
  // ---------------------------------------------------------------------------

  /** Items only gain marks of counting and taking, and lists keep the items they name. */
  ghost predicate Onward(s: LootState, r: LootState) {
    && |r.items| == |s.items|
    && (forall k :: 0 <= k < |s.items| ==> ItemOnward(s.items[k], r.items[k]))
    && (forall g, k :: OnList(s, g, k) ==> OnList(r, g, k))
  }

  predicate ItemOnward(i: LootItem, j: LootItem) {
    && j == i.(isLooted := j.isLooted, isBlocked := j.isBlocked, isCounted := j.isCounted)
    && (i.isLooted ==> j.isLooted) && (i.isCounted ==> j.isCounted)
  }

  lemma OnwardKeepsClaims(s: LootState, r: LootState, w: World, guid: nat)
    requires Onward(s, r)
    ensures FFAClaimed(s, w, guid) ==> FFAClaimed(r, w, guid)
    ensures CondClaimed(s, w, guid) ==> CondClaimed(r, w, guid)
  {
    hide OnList;
    forall k | 0 <= k < |s.items|
      ensures Wants(w, guid, r.items[k]) ==> Wants(w, guid, s.items[k])
      ensures IsConditional(r.items[k]) == IsConditional(s.items[k])
      ensures ItemOnward(s.items[k], r.items[k])
    {
    }
    hide Wants, IsConditional;
  }

  lemma {:induction false} FindSame(a: seq<QuestItem>, b: seq<QuestItem>, k: nat)
    requires |a| == |b| && forall j :: 0 <= j < |a| ==> a[j].index == b[j].index
    ensures FindEntry(a, k) == FindEntry(b, k)
  {
    if a != [] {
      FindSame(a[1..], b[1..], k);
    }
  }

  lemma GoneOnward(items: seq<LootItem>, k: nat)
    requires k < |items|
    ensures forall i :: 0 <= i < |items| ==> ItemOnward(items[i], Gone(items, k)[i])
  {
  }

  lemma TakenOnward(s: LootState, t: Taker, slot: nat)
    requires ListsFit(s) && MayTake(s, t, slot)
    ensures Onward(s, Taken(s, t, slot)) && Taken(s, t, slot).ffa.Keys == s.ffa.Keys && Taken(s, t, slot).cond.Keys == s.cond.Keys
  {
    hide AllowedForPlayer, FindEntry, ListsFit;
    var r, guid := Taken(s, t, slot), t.player.guid;
    var entry := ItemInSlot(s, slot, guid).entry;
    if !entry.QuestEntry? {
      GoneOnward(s.items, slot);
    }
    forall g, k | OnList(s, g, k)
      ensures OnList(r, g, k)
    {
      FindSame(ListOf(s.ffa, g), ListOf(r.ffa, g), k);
    }
  }

  lemma {:induction false} ConditionalOnward(w: World, p: Player, items: seq<LootItem>, n: nat)
    requires n <= |items|
    ensures forall k :: 0 <= k < |items| ==> ItemOnward(items[k], ConditionalFill(w, p, items, n).items[k])
  {
    hide WantsConditional;
    if n > 0 {
      ConditionalOnward(w, p, items, n - 1);
    }
  }

  lemma QuestPart(s: LootState, w: World, p: Player)
    ensures var r := if p.guid in s.quest then s else FilledQuest(s, w, p);
            r.ffa == s.ffa && r.items == s.items && r.cond == s.cond
  {
    hide QuestFill;
  }

  lemma FFAPart(s: LootState, w: World, p: Player)
    ensures var r := if p.guid in s.ffa then s else FilledFFA(s, w, p);
            && r.items == s.items && r.cond == s.cond
            && r.ffa == if !p.inWorld || p.guid in s.ffa then s.ffa
                        else Listed(s.ffa, p.guid, FFAFill(w, p, s.items, |s.items|).list)
  {
    hide FFAFill, Listed;
  }

  lemma CondPart(s: LootState, w: World, p: Player)
    ensures var r := if p.guid in s.cond then s else FilledConditional(s, w, p);
            && r.ffa == s.ffa && s.cond.Keys <= r.cond.Keys <= s.cond.Keys + {p.guid} && (!p.inWorld ==> r.cond == s.cond)
            && r.items == if !p.inWorld || p.guid in s.cond then s.items
                          else ConditionalFill(w, p, s.items, |s.items|).items
  {
    hide ConditionalFill;
  }

  /** Opening in the order of its parts: only the two lists of ordinary items matter here. */
  lemma OpenedIs(s: LootState, w: World, p: Player)
    ensures var r := FilledFor(s, w, p);
            && r.ffa == (if !p.inWorld || p.guid in s.ffa then s.ffa
                         else Listed(s.ffa, p.guid, FFAFill(w, p, s.items, |s.items|).list))
            && r.items == (if !p.inWorld || p.guid in s.cond then s.items else ConditionalFill(w, p, s.items, |s.items|).items)
            && s.cond.Keys <= r.cond.Keys <= s.cond.Keys + {p.guid}
            && (!p.inWorld ==> r.cond == s.cond)
  {
    hide FFAFill, ConditionalFill, FilledQuest, FilledFFA, FilledConditional, Listed;
    QuestPart(s, w, p);
    var s1 := if p.guid in s.quest then s else FilledQuest(s, w, p);
    FFAPart(s1, w, p);
    var s2 := if p.guid in s1.ffa then s1 else FilledFFA(s1, w, p);
    CondPart(s2, w, p);
  }

  lemma OpenedOnward(s: LootState, w: World, p: Player)
    ensures Onward(s, FilledFor(s, w, p))
  {
    hide FFAFill, ConditionalFill, FilledFor, FindEntry;
    OpenedIs(s, w, p);
    ConditionalOnward(w, p, s.items, |s.items|);
  }

  lemma ListedWhereFound(s: LootState, guid: nat, k: nat, j: nat)
    requires j < |ListOf(s.ffa, guid)| && ListOf(s.ffa, guid)[j].index == k
    ensures OnList(s, guid, k)
  {
    EntryIsFound(ListOf(s.ffa, guid), k, j);
  }

  /** A player in the world who opens the loot has claimed everything. */
  lemma OpenedClaims(s: LootState, w: World, p: Player)
    requires p.inWorld && (p.guid in s.ffa ==> FFAClaimed(s, w, p.guid)) && (p.guid in s.cond ==> CondClaimed(s, w, p.guid))
    ensures FFAClaimed(FilledFor(s, w, p), w, p.guid) && CondClaimed(FilledFor(s, w, p), w, p.guid)
  {
    var r := FilledFor(s, w, p);
    OpenedIs(s, w, p);
    OpenedOnward(s, w, p);
    OnwardKeepsClaims(s, r, w, p.guid);
    hide FilledFor, FindEntry, OnList, AllowedForPlayer;
    if p.guid !in s.ffa {
      forall k | 0 <= k < |r.items| && r.items[k].freeforall && Wants(w, p.guid, r.items[k])
        ensures OnList(r, p.guid, k)
      {
        ConditionalOnward(w, p, s.items, |s.items|);
        AllowedSame(w, p, s.items[k], r.items[k]);
        FFAFillLists(w, p, s.items, |s.items|, k);
        hide FFAFill, ConditionalFill;
        var list := FFAFill(w, p, s.items, |s.items|).list;
        var j :| 0 <= j < |list| && list[j].index == k;
        assert ListOf(r.ffa, p.guid) == list;
        ListedWhereFound(r, p.guid, k, j);
      }
    }
    if p.guid !in s.cond {
      forall k | 0 <= k < |r.items| && IsConditional(r.items[k]) && Wants(w, p.guid, r.items[k])
        ensures r.items[k].isCounted
      {
        ConditionalOnward(w, p, s.items, |s.items|);
        AllowedSame(w, p, s.items[k], r.items[k]);
        ConditionalFillCounted(w, p, s.items, |s.items|, k);
      }
    }
  }

  /** The marks and whether the player is in the world play no part in who may have an item. */
  lemma AllowedSame(w: World, p: Player, i: LootItem, j: LootItem)
    requires ItemOnward(i, j)
    ensures AllowedForPlayer(w, p, i) == AllowedForPlayer(w, Player(p.guid, true), j)
  {
  }

  lemma OpenKeepsClaims(s: LootState, w: World, p: Player, seen: set<nat>)
    requires AllClaimed(s, w, seen)
    ensures AllClaimed(FilledFor(s, w, p), w, if p.inWorld then seen + {p.guid} else seen)
  {
    var r := FilledFor(s, w, p);
    hide FFAClaimed, CondClaimed;
    OpenedIs(s, w, p);
    OpenedOnward(s, w, p);
    if p.inWorld {
      OpenedClaims(s, w, p);
    }
    hide Onward, FilledFor;
    forall g
      ensures FFAClaimed(s, w, g) ==> FFAClaimed(r, w, g)
      ensures CondClaimed(s, w, g) ==> CondClaimed(r, w, g)
    {
      OnwardKeepsClaims(s, r, w, g);
    }
  }

  /** A player who has claimed everything takes only what was counted. */
  lemma ClaimedTake(s: LootState, t: Taker, slot: nat)
    requires ListsFit(s) && MayTake(s, t, slot)
    requires FFAClaimed(s, t.world, t.player.guid) && CondClaimed(s, t.world, t.player.guid)
    ensures Accounted(s, slot, t.player.guid)
  {
    hide FindEntry, ListsFit;
    TakenIsAllowed(s, t, slot);
    assert slot < |s.items| && !s.items[slot].isLooted ==> Wants(t.world, t.player.guid, s.items[slot]);
    hide AllowedForPlayer;
    assert Settled(s, t.player.guid, slot);
    SettledIsAccounted(s, t, slot);
  }

  // ---------------------------------------------------------------------------
  // Runs
  // ---------------------------------------------------------------------------

  /** The players who have opened the loot after the step. */
  function SeenAfter(seen: set<nat>, op: Op): (o: set<nat>) {
    if op.Open? && op.p.inWorld then seen + {op.p.guid} else seen
  }

  /** One world throughout, and nobody takes before having opened the loot. */
  ghost predicate StandsStill(w: World, ops: seq<Op>, seen: set<nat>) {
    ops != [] ==>
      && StepStandsStill(w, ops[0], seen)
      && StandsStill(w, ops[1..], SeenAfter(seen, ops[0]))
  }

  ghost predicate StepStandsStill(w: World, op: Op, seen: set<nat>) {
    && (op.Open? ==> op.w == w)
    && (op.Take? ==> op.t.world == w && op.t.player.guid in seen)
  }

  lemma StepKeepsClaims(s: LootState, op: Op, w: World, seen: set<nat>)
    requires LootInv(s) && AllClaimed(s, w, seen) && StepStandsStill(w, op, seen)
    ensures AllClaimed(Step(s, op), w, SeenAfter(seen, op)) && !TakesUnaccounted(s, op)
  {
    InvMeansFit(s);
    hide LootInv, ListsFit, FFAClaimed, CondClaimed, FilledFor, MayTake, Taken, Accounted;
    match op
    case Open(_, p) => OpenKeepsClaims(s, w, p, seen);
    case Take(t, slot) =>
      if MayTake(s, t, slot) {
        ClaimedTake(s, t, slot);
        TakenOnward(s, t, slot);
        OnwardKeepsAll(s, Taken(s, t, slot), w, seen);
      }
    case Block(k, blocked) =>
      if k < |s.items| {
        BlockOnward(s, k, blocked);
        OnwardKeepsAll(s, Step(s, op), w, seen);
      }
  }

  lemma BlockOnward(s: LootState, k: nat, blocked: bool)
    requires k < |s.items|
    ensures Onward(s, s.(items := s.items[k := s.items[k].(isBlocked := blocked)]))
  {
    hide FindEntry;
  }

  lemma OnwardKeepsAll(s: LootState, r: LootState, w: World, seen: set<nat>)
    requires Onward(s, r) && r.ffa.Keys == s.ffa.Keys && r.cond.Keys == s.cond.Keys && AllClaimed(s, w, seen)
    ensures AllClaimed(r, w, seen)
  {
    hide Onward, FFAClaimed, CondClaimed;
    forall g
      ensures FFAClaimed(s, w, g) ==> FFAClaimed(r, w, g)
      ensures CondClaimed(s, w, g) ==> CondClaimed(r, w, g)
      ensures g in r.ffa <==> g in s.ffa
      ensures g in r.cond <==> g in s.cond
    {
      OnwardKeepsClaims(s, r, w, g);
      assert (g in r.ffa <==> g in r.ffa.Keys) && (g in r.cond <==> g in r.cond.Keys);
    }
  }

  /** While the world stands still, everything that is taken was counted. */
  lemma {:induction false} StillRunCounts(s: LootState, ops: seq<Op>, w: World, seen: set<nat>)
    requires LootInv(s) && AllClaimed(s, w, seen) && StandsStill(w, ops, seen)
    ensures Unaccounted(s, ops) == 0
    decreases |ops|
  {
    hide LootInv, AllClaimed, Step, TakesUnaccounted, StepStandsStill, SeenAfter;
    if ops != [] {
      StepKeepsInv(s, ops[0]);
      StepKeepsClaims(s, ops[0], w, seen);
      StillRunCounts(Step(s, ops[0]), ops[1..], w, SeenAfter(seen, ops[0]));
    }
  }

  /**
   From the drop on: whoever opens, takes and blocks, the counter is right at the end if the world
   stands still and everybody opens the loot before taking.
   */
  lemma StillRunConserved(w: World, es: seq<LootStoreItem>, ops: seq<Op>)
    requires StandsStill(w, ops, {})
    ensures var s := AllAdded(CLEARED, w, es);
            LootInv(s) && Unaccounted(s, ops) == 0 && Conserved(After(s, ops))
  {
    var s := AllAdded(CLEARED, w, es);
    ClearedGood();
    AllAddedKeepsInv(CLEARED, w, es);
    AllAddedConserved(CLEARED, w, es);
    hide LootInv, Conserved, AllAdded;
    StillRunCounts(s, ops, w, {});
    RunConservedIff(s, ops);
  }
}
