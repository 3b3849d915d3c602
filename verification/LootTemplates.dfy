/**
 Loot templates: plain entries, references to other templates and groups of which one item
 drops. Rolling a template with any dice yields the list of store items handed to the loot.
 */
module LootTemplates {
  import opened Options

  datatype LootStoreItem = LootStoreItem(
    itemid: nat,
    chance: real,
    mincountOrRef: int,
    group: nat,
    needsQuest: bool,
    maxcount: nat,
    conditionId: nat)
  {
    predicate IsReference() {
      mincountOrRef < 0
    }

    function Target(): (id: nat)
      requires IsReference()
    {
      -mincountOrRef
    }
  }

  datatype LootGroup = LootGroup(
    explicitlyChanced: seq<LootStoreItem>,
    equalChanced: seq<LootStoreItem>,
    hasConditionalEqualChancedItem: bool)

  datatype LootTemplate = LootTemplate(entries: seq<LootStoreItem>, groups: seq<LootGroup>)

  /** The reference store: templates by id. */
  type Store = map<nat, LootTemplate>

  /** What the templates ask of the world: team conditions, drop rates, items that start a quest. */
  datatype Rules = Rules(
    teamAllows: nat -> bool,
    crossFaction: bool,
    rate: LootStoreItem -> real,
    startsQuest: nat -> bool)

  /** Any dice: percentages and choices by the number of the throw. */
  datatype Dice = Dice(percent: nat -> real, choice: nat -> nat)

  predicate AllowedForTeam(r: Rules, e: LootStoreItem) {
    e.conditionId == 0 || r.teamAllows(e.conditionId)
  }

  // ---------------------------------------------------------------------------
  // Loading
  // ---------------------------------------------------------------------------

  const EMPTY_GROUP := LootGroup([], [], false)

  function GroupWith(g: LootGroup, e: LootStoreItem): (r: LootGroup)
  {
    if e.chance != 0.0 then g.(explicitlyChanced := g.explicitlyChanced + [e])
    else LootGroup(
      g.explicitlyChanced,
      g.equalChanced + [e],
      g.hasConditionalEqualChancedItem || e.conditionId != 0)
  }

  function Resized(gs: seq<LootGroup>, n: nat): (r: seq<LootGroup>)
    ensures |gs| <= n ==> |r| == n
    decreases n - |gs|
  {
    if n <= |gs| then gs else Resized(gs + [EMPTY_GROUP], n)
  }

  /** Plain entries with a group go into the group, everything else stays a single entry. */
  function AddEntry(t: LootTemplate, e: LootStoreItem): (r: LootTemplate)
  {
    if e.group > 0 && e.mincountOrRef > 0 then
      var gs := if e.group >= |t.groups| then Resized(t.groups, e.group) else t.groups;
      t.(groups := gs[e.group - 1 := GroupWith(gs[e.group - 1], e)])
    else t.(entries := t.entries + [e])
  }

  /** The entries of a group. */
  ghost function GroupContent(g: LootGroup): multiset<LootStoreItem> {
    multiset(g.explicitlyChanced) + multiset(g.equalChanced)
  }

  ghost function GroupsContent(gs: seq<LootGroup>): multiset<LootStoreItem> {
    if gs == [] then multiset{} else GroupContent(gs[0]) + GroupsContent(gs[1..])
  }

  /** All entries of a template, wherever they are kept. */
  ghost function Content(t: LootTemplate): multiset<LootStoreItem> {
    multiset(t.entries) + GroupsContent(t.groups)
  }

  /** What loading promises: only plain entries of their own group in groups, sorted by kind of chance. */
  ghost predicate WellFormed(t: LootTemplate) {
    && (forall e :: e in t.entries ==> e.group == 0 || e.mincountOrRef <= 0)
    && (forall i :: 0 <= i < |t.groups| ==> WellFormedGroup(t.groups[i], i + 1))
  }

  ghost predicate WellFormedGroup(g: LootGroup, number: nat) {
    && (forall e :: e in g.explicitlyChanced ==> e.chance != 0.0 && e.mincountOrRef > 0 && e.group == number)
    && (forall e :: e in g.equalChanced ==> e.chance == 0.0 && e.mincountOrRef > 0 && e.group == number)
    && (g.hasConditionalEqualChancedItem <==> exists e :: e in g.equalChanced && e.conditionId != 0)
  }

  lemma {:induction false} ReplacingGroupAdds(gs: seq<LootGroup>, k: nat, g: LootGroup, e: LootStoreItem)
    requires k < |gs| && GroupContent(g) == GroupContent(gs[k]) + multiset{e}
    ensures GroupsContent(gs[k := g]) == GroupsContent(gs) + multiset{e}
    decreases |gs|
  {
    if k == 0 {
      assert gs[0 := g][1..] == gs[1..];
    } else {
      assert gs[k := g][1..] == gs[1..][k - 1 := g];
      ReplacingGroupAdds(gs[1..], k - 1, g, e);
    }
  }

  lemma {:induction false} EmptyGroupAddsNothing(gs: seq<LootGroup>)
    ensures GroupsContent(gs + [EMPTY_GROUP]) == GroupsContent(gs)
  {
    if gs == [] {
      assert GroupsContent([EMPTY_GROUP]) == GroupContent(EMPTY_GROUP) + GroupsContent([]);
    } else {
      assert (gs + [EMPTY_GROUP])[1..] == gs[1..] + [EMPTY_GROUP];
      EmptyGroupAddsNothing(gs[1..]);
    }
  }

  lemma {:induction false} ResizingAddsNothing(gs: seq<LootGroup>, n: nat)
    ensures GroupsContent(Resized(gs, n)) == GroupsContent(gs)
    ensures gs <= Resized(gs, n)
    ensures forall i :: |gs| <= i < |Resized(gs, n)| ==> Resized(gs, n)[i] == EMPTY_GROUP
    decreases n - |gs|
  {
    if |gs| < n {
      EmptyGroupAddsNothing(gs);
      ResizingAddsNothing(gs + [EMPTY_GROUP], n);
    }
  }

  /** Loading keeps every entry exactly once. */
  lemma AddEntryKeepsContent(t: LootTemplate, e: LootStoreItem)
    ensures Content(AddEntry(t, e)) == Content(t) + multiset{e}
  {
    hide GroupContent, GroupWith, GroupsContent;
    if e.group > 0 && e.mincountOrRef > 0 {
      var gs := if e.group >= |t.groups| then Resized(t.groups, e.group) else t.groups;
      ResizingAddsNothing(t.groups, e.group);
      var k := e.group - 1;
      GroupWithAdds(gs[k], e);
      ReplacingGroupAdds(gs, k, GroupWith(gs[k], e), e);
    }
  }

  lemma GroupWithAdds(g: LootGroup, e: LootStoreItem)
    ensures GroupContent(GroupWith(g, e)) == GroupContent(g) + multiset{e}
  {
  }

  /** Loading keeps the template well formed. */
  lemma AddEntryKeepsWellFormed(t: LootTemplate, e: LootStoreItem)
    requires WellFormed(t)
    ensures WellFormed(AddEntry(t, e))
  {
    if e.group > 0 && e.mincountOrRef > 0 {
      hide WellFormedGroup, GroupWith, Resized;
      var gs := if e.group >= |t.groups| then Resized(t.groups, e.group) else t.groups;
      ResizedWellFormed(t.groups, e.group);
      GroupWithWellFormed(gs[e.group - 1], e, e.group);
    }
  }

  lemma ResizedWellFormed(gs: seq<LootGroup>, n: nat)
    requires forall i :: 0 <= i < |gs| ==> WellFormedGroup(gs[i], i + 1)
    ensures forall i :: 0 <= i < |Resized(gs, n)| ==> WellFormedGroup(Resized(gs, n)[i], i + 1)
  {
    hide *;
    ResizingAddsNothing(gs, n);
    forall i | 0 <= i < |Resized(gs, n)|
      ensures WellFormedGroup(Resized(gs, n)[i], i + 1)
    {
      EmptyGroupWellFormed(i + 1);
      if i < |gs| {
        assert Resized(gs, n)[i] == gs[i];
      }
    }
  }

  lemma EmptyGroupWellFormed(number: nat)
    ensures WellFormedGroup(EMPTY_GROUP, number)
  {
  }

  lemma GroupWithWellFormed(g: LootGroup, e: LootStoreItem, number: nat)
    requires WellFormedGroup(g, number) && e.mincountOrRef > 0 && e.group == number
    ensures WellFormedGroup(GroupWith(g, e), number)
  {
    var r := GroupWith(g, e);
    if e.chance == 0.0 {
      assert e in r.equalChanced;
      assert forall x :: x in r.equalChanced <==> x in g.equalChanced || x == e;
    }
  }

  // ---------------------------------------------------------------------------
  // Rolling
  // ---------------------------------------------------------------------------

  /** Does the entry take its chance? Returns the next throw as well. */
  function RollEntry(r: Rules, e: LootStoreItem, d: Dice, pos: nat): (res: (bool, nat))
  {
    if e.chance >= 100.0 then (true, pos) else (d.percent(pos) < e.chance * r.rate(e), pos + 1)
  }

  /** The first allowed entry that uses up the roll, or that always drops. */
  function ExplicitRoll(r: Rules, es: seq<LootStoreItem>, roll: real): (res: Option<LootStoreItem>)
    ensures res.Some? ==> res.value in es
    decreases |es|
  {
    if es == [] then None
    else if !AllowedForTeam(r, es[0]) then ExplicitRoll(r, es[1..], roll)
    else if es[0].chance >= 100.0 || roll - es[0].chance < 0.0 then Some(es[0])
    else ExplicitRoll(r, es[1..], roll - es[0].chance)
  }

  /** The entries the team is allowed to get. */
  function AllowedOnly(r: Rules, es: seq<LootStoreItem>): (res: seq<LootStoreItem>)
    ensures forall e :: e in res <==> e in es && AllowedForTeam(r, e)
    decreases |es|
  {
    if es == [] then []
    else
      var rest := AllowedOnly(r, es[..|es| - 1]);
      if AllowedForTeam(r, es[|es| - 1]) then rest + [es[|es| - 1]] else rest
  }

  function EqualRoll(r: Rules, g: LootGroup, d: Dice, pos: nat): (res: (Option<LootStoreItem>, nat))
    ensures res.0.Some? ==> res.0.value in g.equalChanced
  {
    var candidates :=
      if !g.hasConditionalEqualChancedItem || r.crossFaction then g.equalChanced else AllowedOnly(r, g.equalChanced);
    if candidates == [] then (None, pos)
    else (Some(candidates[d.choice(pos) % |candidates|]), pos + 1)
  }

  /** The item a group drops, if any. */
  function GroupRoll(r: Rules, g: LootGroup, d: Dice, pos: nat): (res: (Option<LootStoreItem>, nat))
    ensures res.0.Some? ==> InGroup(g, res.0.value)
  {
    if g.explicitlyChanced == [] then EqualRoll(r, g, d, pos)
    else
      var e := ExplicitRoll(r, g.explicitlyChanced, d.percent(pos));
      if e.Some? then (e, pos + 1) else EqualRoll(r, g, d, pos + 1)
  }

  predicate InGroup(g: LootGroup, e: LootStoreItem) {
    e in g.explicitlyChanced || e in g.equalChanced
  }

  lemma ExplicitStep(r: Rules, es: seq<LootStoreItem>, i: nat, roll: real)
    requires i <= |es|
    ensures i == |es| ==> ExplicitRoll(r, es[i..], roll).None?
    ensures i < |es| ==>
              var rest := ExplicitRoll(r, es[i + 1..], if AllowedForTeam(r, es[i]) then roll - es[i].chance else roll);
              ExplicitRoll(r, es[i..], roll) ==
              if AllowedForTeam(r, es[i]) && (es[i].chance >= 100.0 || roll - es[i].chance < 0.0) then Some(es[i]) else rest
  {
    hide AllowedForTeam;
    if i < |es| {
      assert es[i..][0] == es[i] && es[i..][1..] == es[i + 1..];
    }
  }

  lemma AllowedStep(r: Rules, es: seq<LootStoreItem>, i: nat)
    requires i < |es|
    ensures AllowedOnly(r, es[..i + 1]) == AllowedOnly(r, es[..i]) + if AllowedForTeam(r, es[i]) then [es[i]] else []
  {
    hide AllowedForTeam;
    assert es[..i + 1][..i] == es[..i];
  }

  /** The loop that takes each chance off the roll until it is used up. */
  method Roll(r: Rules, g: LootGroup, d: Dice, pos0: nat) returns (item: Option<LootStoreItem>, pos: nat)
    ensures (item, pos) == GroupRoll(r, g, d, pos0)
  {
    assert AllowedOnly(r, g.equalChanced[..0]) == [];
    hide ExplicitRoll, AllowedOnly, AllowedForTeam;
    pos := pos0;
    if |g.explicitlyChanced| != 0 {
      var roll := d.percent(pos);
      pos := pos + 1;
      for i := 0 to |g.explicitlyChanced|
        invariant pos == pos0 + 1
        invariant ExplicitRoll(r, g.explicitlyChanced, d.percent(pos0)) == ExplicitRoll(r, g.explicitlyChanced[i..], roll)
      {
        ExplicitStep(r, g.explicitlyChanced, i, roll);
        var e := g.explicitlyChanced[i];
        if AllowedForTeam(r, e) {
          if e.chance >= 100.0 {
            return Some(e), pos;
          }
          roll := roll - e.chance;
          if roll < 0.0 {
            return Some(e), pos;
          }
        }
      }
      ExplicitStep(r, g.explicitlyChanced, |g.explicitlyChanced|, roll);
    }
    if |g.equalChanced| != 0 {
      if !g.hasConditionalEqualChancedItem || r.crossFaction {
        return Some(g.equalChanced[d.choice(pos) % |g.equalChanced|]), pos + 1;
      }
      var ok := [];
      for i := 0 to |g.equalChanced|
        invariant ok == AllowedOnly(r, g.equalChanced[..i])
      {
        AllowedStep(r, g.equalChanced, i);
        if AllowedForTeam(r, g.equalChanced[i]) {
          ok := ok + [g.equalChanced[i]];
        }
      }
      assert g.equalChanced[..|g.equalChanced|] == g.equalChanced;
      if |ok| != 0 {
        return Some(ok[d.choice(pos) % |ok|]), pos + 1;
      }
    }
    return None, pos;
  }

  /** The chances of the allowed entries taken together. */
  function AllowedChance(r: Rules, es: seq<LootStoreItem>): (c: real)
  {
    if es == [] then 0.0 else (if AllowedForTeam(r, es[0]) then es[0].chance else 0.0) + AllowedChance(r, es[1..])
  }

  /** An explicitly chanced item drops exactly when the roll stays below the allowed chances. */
  lemma {:induction false} ExplicitRollIff(r: Rules, es: seq<LootStoreItem>, roll: real)
    requires (forall e :: e in es ==> 0.0 <= e.chance) && 0.0 <= roll < 100.0
    ensures ExplicitRoll(r, es, roll).Some? <==> roll < AllowedChance(r, es)
    ensures 0.0 <= AllowedChance(r, es)
    decreases |es|
  {
    if es != [] {
      var e := es[0];
      assert forall x :: x in es[1..] ==> x in es;
      AllowedChanceRises(r, es[1..]);
      if AllowedForTeam(r, e) && e.chance < 100.0 && roll - e.chance >= 0.0 {
        ExplicitRollIff(r, es[1..], roll - e.chance);
      } else if !AllowedForTeam(r, e) {
        ExplicitRollIff(r, es[1..], roll);
      }
    }
  }

  lemma {:induction false} AllowedChanceRises(r: Rules, es: seq<LootStoreItem>)
    requires forall e :: e in es ==> 0.0 <= e.chance
    ensures 0.0 <= AllowedChance(r, es)
  {
    if es != [] {
      AllowedChanceRises(r, es[1..]);
    }
  }

  lemma {:induction false} ExplicitRollAllowed(r: Rules, es: seq<LootStoreItem>, roll: real)
    ensures var i := ExplicitRoll(r, es, roll); i.Some? ==> AllowedForTeam(r, i.value)
    decreases |es|
  {
    if es != [] {
      ExplicitRollAllowed(r, es[1..], roll);
      ExplicitRollAllowed(r, es[1..], roll - es[0].chance);
    }
  }

  /** For the loot of one faction a group drops only what that faction is allowed to get. */
  lemma GroupRollAllowed(r: Rules, g: LootGroup, group: nat, d: Dice, pos: nat)
    requires WellFormedGroup(g, group) && !r.crossFaction
    ensures var i := GroupRoll(r, g, d, pos).0; i.Some? ==> AllowedForTeam(r, i.value)
  {
    ExplicitRollAllowed(r, g.explicitlyChanced, d.percent(pos));
    hide ExplicitRoll;
    forall q | EqualRoll(r, g, d, q).0.Some?
      ensures AllowedForTeam(r, EqualRoll(r, g, d, q).0.value)
    {
      var c := if !g.hasConditionalEqualChancedItem then g.equalChanced else AllowedOnly(r, g.equalChanced);
      assert EqualRoll(r, g, d, q).0.value == c[d.choice(q) % |c|];
      assert EqualRoll(r, g, d, q).0.value in c;
    }
  }

  /** Percentages as the server draws them. */
  ghost predicate Fair(d: Dice) {
    forall n: nat :: 0.0 <= d.percent(n) < 100.0
  }

  /**
   Exactly when a group never drops what is not allowed: the loot belongs to one faction, or no
   roll gets past the explicit chances, or everything behind them is allowed.
   */
  lemma OnlyAllowedDropsIff(r: Rules, g: LootGroup, group: nat)
    requires WellFormedGroup(g, group) && forall e :: e in g.explicitlyChanced ==> 0.0 <= e.chance
    ensures (forall d, pos: nat :: Fair(d) && GroupRoll(r, g, d, pos).0.Some? ==>
               AllowedForTeam(r, GroupRoll(r, g, d, pos).0.value)) <==>
            || !r.crossFaction
            || AllowedChance(r, g.explicitlyChanced) >= 100.0
            || forall e :: e in g.equalChanced ==> AllowedForTeam(r, e)
  {
    hide ExplicitRoll, AllowedChance, AllowedForTeam;
    forall d, pos: nat | Fair(d) && GroupRoll(r, g, d, pos).0.Some?
      ensures !r.crossFaction || AllowedChance(r, g.explicitlyChanced) >= 100.0 ||
              (forall e :: e in g.equalChanced ==> AllowedForTeam(r, e)) ==>
                AllowedForTeam(r, GroupRoll(r, g, d, pos).0.value)
    {
      ExplicitRollIff(r, g.explicitlyChanced, d.percent(pos));
      ExplicitRollAllowed(r, g.explicitlyChanced, d.percent(pos));
      NoChance(r);
      if !r.crossFaction {
        GroupRollAllowed(r, g, group, d, pos);
      }
    }
    if r.crossFaction && AllowedChance(r, g.explicitlyChanced) < 100.0 {
      if e :| e in g.equalChanced && !AllowedForTeam(r, e) {
        var d := ForbiddenDrops(r, g, e);
        assert Fair(d) && GroupRoll(r, g, d, 0).0 == Some(e);
      }
    }
  }

  lemma NoChance(r: Rules)
    ensures AllowedChance(r, []) == 0.0
  {
  }

  /** Dice that get past the explicit chances and pick a given entry of a cross-faction loot. */
  lemma ForbiddenDrops(r: Rules, g: LootGroup, e: LootStoreItem) returns (d: Dice)
    requires r.crossFaction && e in g.equalChanced && AllowedChance(r, g.explicitlyChanced) < 100.0
    requires forall x :: x in g.explicitlyChanced ==> 0.0 <= x.chance
    ensures Fair(d) && GroupRoll(r, g, d, 0).0 == Some(e)
  {
    hide ExplicitRoll, AllowedForTeam;
    var k: nat :| k < |g.equalChanced| && g.equalChanced[k] == e;
    AllowedChanceRises(r, g.explicitlyChanced);
    var roll := AllowedChance(r, g.explicitlyChanced);
    d := Dice(n => roll, n => k);
    ExplicitRollIff(r, g.explicitlyChanced, roll);
    hide AllowedChance;
  }

  // ---------------------------------------------------------------------------
  // Processing
  // ---------------------------------------------------------------------------

  /** The whole-template references of `t` lead to templates of lower rank, so that `level` bounds the nesting. */
  ghost predicate Below(refs: Store, rank: nat -> nat, t: LootTemplate, level: nat) {
    && level >= 1
    && forall k :: 0 <= k < |t.entries| ==>
         var e := t.entries[k];
         e.IsReference() && e.group == 0 && e.Target() in refs ==> rank(e.Target()) + 1 < level
  }

  /** No template refers to itself through other templates. References to a single group do not matter. */
  ghost predicate Acyclic(refs: Store, rank: nat -> nat) {
    forall id :: id in refs ==> Below(refs, rank, refs[id], rank(id) + 1)
  }

  /** The store items a template hands to the loot, in order, and the next throw. */
  ghost function Drops(refs: Store, rank: nat -> nat, r: Rules, d: Dice, t: LootTemplate, group: nat, level: nat, pos: nat)
    : (res: (seq<LootStoreItem>, nat))
    requires Acyclic(refs, rank) && (group == 0 ==> Below(refs, rank, t, level))
    decreases level, 2, 0
  {
    if group != 0 then
      if group > |t.groups| then ([], pos) else GroupDrops(r, d, t.groups[group - 1], pos)
    else
      var (es, p) := EntryDrops(refs, rank, r, d, t, |t.entries|, level, pos);
      var (gs, q) := GroupsDrops(r, d, t.groups, |t.groups|, p);
      (es + gs, q)
  }

  function GroupDrops(r: Rules, d: Dice, g: LootGroup, pos: nat): (res: (seq<LootStoreItem>, nat))
  {
    var (e, p) := GroupRoll(r, g, d, pos);
    (if e.Some? then [e.value] else [], p)
  }

  /** The drops of the first `n` groups. */
  function GroupsDrops(r: Rules, d: Dice, gs: seq<LootGroup>, n: nat, pos: nat): (res: (seq<LootStoreItem>, nat))
    requires n <= |gs|
  {
    if n == 0 then ([], pos)
    else
      var (es, p) := GroupsDrops(r, d, gs, n - 1, pos);
      var (fs, q) := GroupDrops(r, d, gs[n - 1], p);
      (es + fs, q)
  }

  /** The drops of the first `n` entries. */
  ghost function EntryDrops(refs: Store, rank: nat -> nat, r: Rules, d: Dice, t: LootTemplate, n: nat, level: nat, pos: nat)
    : (res: (seq<LootStoreItem>, nat))
    requires Acyclic(refs, rank) && Below(refs, rank, t, level) && n <= |t.entries|
    decreases level, 1, n
  {
    if n == 0 then ([], pos)
    else
      var (es, p) := EntryDrops(refs, rank, r, d, t, n - 1, level, pos);
      var e := t.entries[n - 1];
      var (taken, q) := RollEntry(r, e, d, p);
      if !taken then (es, q)
      else if e.IsReference() then
        if e.Target() !in refs then (es, q)
        else
          var (fs, s) := RepeatedDrops(refs, rank, r, d, e.Target(), e.group, e.maxcount, q);
          (es + fs, s)
      else (es + [e], q)
  }

  /** The level at which template `id` is processed for a reference with this group. */
  function RefLevel(rank: nat -> nat, id: nat, group: nat): (level: nat) {
    if group == 0 then rank(id) + 1 else 0
  }

  /** The drops of `n` rounds of a referenced template. */
  ghost function RepeatedDrops(refs: Store, rank: nat -> nat, r: Rules, d: Dice, id: nat, group: nat, n: nat, pos: nat)
    : (res: (seq<LootStoreItem>, nat))
    requires Acyclic(refs, rank) && id in refs
    decreases RefLevel(rank, id, group), 3, n
  {
    if n == 0 then ([], pos)
    else
      var (es, p) := RepeatedDrops(refs, rank, r, d, id, group, n - 1, pos);
      var (fs, q) := Drops(refs, rank, r, d, refs[id], group, RefLevel(rank, id, group), p);
      (es + fs, q)
  }

  // ---------------------------------------------------------------------------
  // Reachability and quest drops
  // ---------------------------------------------------------------------------

  /** Following the references at the given entry positions leads from the template to entry `e`. */
  ghost predicate ReachVia(refs: Store, t: LootTemplate, group: nat, path: seq<nat>, e: LootStoreItem)
    decreases |path|
  {
    if group != 0 then
      path == [] && group <= |t.groups| && InGroup(t.groups[group - 1], e)
    else if path == [] then
      || (e in t.entries && !e.IsReference())
      || (exists i :: 0 <= i < |t.groups| && InGroup(t.groups[i], e))
    else
      && path[0] < |t.entries|
      && t.entries[path[0]].IsReference()
      && t.entries[path[0]].Target() in refs
      && ReachVia(refs, refs[t.entries[path[0]].Target()], t.entries[path[0]].group, path[1..], e)
  }

  /** Whatever the dice, only entries reachable from the template drop. */
  lemma {:induction false} DropsAreReachable(
      refs: Store, rank: nat -> nat, r: Rules, d: Dice, t: LootTemplate, group: nat, level: nat, pos: nat,
      e: LootStoreItem) returns (path: seq<nat>)
    requires Acyclic(refs, rank) && (group == 0 ==> Below(refs, rank, t, level))
    requires e in Drops(refs, rank, r, d, t, group, level, pos).0
    ensures ReachVia(refs, t, group, path, e)
    decreases level, 2, 0
  {
    path := [];
    if group == 0 {
      var (es, p) := EntryDrops(refs, rank, r, d, t, |t.entries|, level, pos);
      if e in es {
        path := EntryDropsAreReachable(refs, rank, r, d, t, |t.entries|, level, pos, e);
      } else {
        GroupsDropsAreReachable(r, d, t.groups, |t.groups|, p, e);
      }
    }
  }

  lemma {:induction false} GroupsDropsAreReachable(r: Rules, d: Dice, gs: seq<LootGroup>, n: nat, pos: nat, e: LootStoreItem)
    requires n <= |gs| && e in GroupsDrops(r, d, gs, n, pos).0
    ensures exists i :: 0 <= i < n && InGroup(gs[i], e)
  {
    if e in GroupsDrops(r, d, gs, n - 1, pos).0 {
      GroupsDropsAreReachable(r, d, gs, n - 1, pos, e);
    } else {
      assert InGroup(gs[n - 1], e);
    }
  }

  lemma {:induction false} EntryDropsAreReachable(
      refs: Store, rank: nat -> nat, r: Rules, d: Dice, t: LootTemplate, n: nat, level: nat, pos: nat,
      e: LootStoreItem) returns (path: seq<nat>)
    requires Acyclic(refs, rank) && Below(refs, rank, t, level) && n <= |t.entries|
    requires e in EntryDrops(refs, rank, r, d, t, n, level, pos).0
    ensures ReachVia(refs, t, 0, path, e)
    decreases level, 1, n
  {
    var (es, p) := EntryDrops(refs, rank, r, d, t, n - 1, level, pos);
    if e in es {
      path := EntryDropsAreReachable(refs, rank, r, d, t, n - 1, level, pos, e);
    } else {
      var x := t.entries[n - 1];
      if x.IsReference() {
        var q := RollEntry(r, x, d, p).1;
        var rest := RepeatedDropsAreReachable(refs, rank, r, d, x.Target(), x.group, x.maxcount, q, e);
        path := [n - 1] + rest;
        assert path[1..] == rest;
      } else {
        path := [];
      }
    }
  }

  lemma {:induction false} RepeatedDropsAreReachable(
      refs: Store, rank: nat -> nat, r: Rules, d: Dice, id: nat, group: nat, n: nat, pos: nat,
      e: LootStoreItem) returns (path: seq<nat>)
    requires Acyclic(refs, rank) && id in refs
    requires e in RepeatedDrops(refs, rank, r, d, id, group, n, pos).0
    ensures ReachVia(refs, refs[id], group, path, e)
    decreases RefLevel(rank, id, group), 3, n
  {
    var (es, p) := RepeatedDrops(refs, rank, r, d, id, group, n - 1, pos);
    if e in es {
      path := RepeatedDropsAreReachable(refs, rank, r, d, id, group, n - 1, pos, e);
    } else {
      path := DropsAreReachable(refs, rank, r, d, refs[id], group, RefLevel(rank, id, group), p, e);
    }
  }

  /** An entry that only drops for a quest or that starts one. */
  predicate IsQuestEntry(r: Rules, e: LootStoreItem) {
    e.needsQuest || r.startsQuest(e.itemid)
  }

  predicate GroupHasQuestDrop(r: Rules, g: LootGroup) {
    || (exists i :: 0 <= i < |g.explicitlyChanced| && IsQuestEntry(r, g.explicitlyChanced[i]))
    || (exists i :: 0 <= i < |g.equalChanced| && IsQuestEntry(r, g.equalChanced[i]))
  }

  /** True if the template includes a quest drop, looking references up in `refs`. */
  ghost predicate HasQuestDrop(refs: Store, rank: nat -> nat, r: Rules, t: LootTemplate, group: nat, level: nat)
    requires Acyclic(refs, rank) && (group == 0 ==> Below(refs, rank, t, level))
    decreases level, 1, 0
  {
    if group != 0 then
      group <= |t.groups| && GroupHasQuestDrop(r, t.groups[group - 1])
    else
      || EntriesHaveQuestDrop(refs, rank, r, t, 0, level)
      || (exists i :: 0 <= i < |t.groups| && GroupHasQuestDrop(r, t.groups[i]))
  }

  /** True if an entry from position `k` on includes a quest drop. */
  ghost predicate EntriesHaveQuestDrop(refs: Store, rank: nat -> nat, r: Rules, t: LootTemplate, k: nat, level: nat)
    requires Acyclic(refs, rank) && Below(refs, rank, t, level) && k <= |t.entries|
    decreases level, 0, |t.entries| - k
  {
    if k == |t.entries| then false
    else
      var e := t.entries[k];
      if e.IsReference() then
        || (e.Target() in refs &&
            HasQuestDrop(refs, rank, r, refs[e.Target()], e.group, RefLevel(rank, e.Target(), e.group)))
        || EntriesHaveQuestDrop(refs, rank, r, t, k + 1, level)
      else
        IsQuestEntry(r, e) || EntriesHaveQuestDrop(refs, rank, r, t, k + 1, level)
  }

  /** A reported quest drop is a reachable quest entry. */
  lemma {:induction false} QuestDropIsReachable(refs: Store, rank: nat -> nat, r: Rules, t: LootTemplate, group: nat, level: nat)
    returns (path: seq<nat>, e: LootStoreItem)
    requires Acyclic(refs, rank) && (group == 0 ==> Below(refs, rank, t, level))
    requires HasQuestDrop(refs, rank, r, t, group, level)
    ensures ReachVia(refs, t, group, path, e) && IsQuestEntry(r, e)
    decreases level, 1, 0
  {
    path := [];
    if group != 0 {
      e := QuestEntryOfGroup(r, t.groups[group - 1]);
    } else if EntriesHaveQuestDrop(refs, rank, r, t, 0, level) {
      path, e := EntryQuestDropIsReachable(refs, rank, r, t, 0, level);
    } else {
      var i :| 0 <= i < |t.groups| && GroupHasQuestDrop(r, t.groups[i]);
      e := QuestEntryOfGroup(r, t.groups[i]);
    }
  }

  lemma QuestEntryOfGroup(r: Rules, g: LootGroup) returns (e: LootStoreItem)
    requires GroupHasQuestDrop(r, g)
    ensures InGroup(g, e) && IsQuestEntry(r, e)
  {
    if i :| 0 <= i < |g.explicitlyChanced| && IsQuestEntry(r, g.explicitlyChanced[i]) {
      e := g.explicitlyChanced[i];
    } else {
      var i :| 0 <= i < |g.equalChanced| && IsQuestEntry(r, g.equalChanced[i]);
      e := g.equalChanced[i];
    }
  }

  lemma {:induction false} EntryQuestDropIsReachable(refs: Store, rank: nat -> nat, r: Rules, t: LootTemplate, k: nat, level: nat)
    returns (path: seq<nat>, e: LootStoreItem)
    requires Acyclic(refs, rank) && Below(refs, rank, t, level) && k <= |t.entries|
    requires EntriesHaveQuestDrop(refs, rank, r, t, k, level)
    ensures ReachVia(refs, t, 0, path, e) && IsQuestEntry(r, e)
    decreases level, 0, |t.entries| - k
  {
    var x := t.entries[k];
    if x.IsReference() && x.Target() in refs &&
       HasQuestDrop(refs, rank, r, refs[x.Target()], x.group, RefLevel(rank, x.Target(), x.group)) {
      var rest;
      rest, e := QuestDropIsReachable(refs, rank, r, refs[x.Target()], x.group, RefLevel(rank, x.Target(), x.group));
      path := [k] + rest;
      assert path[1..] == rest;
    } else if !x.IsReference() && IsQuestEntry(r, x) {
      path, e := [], x;
    } else {
      path, e := EntryQuestDropIsReachable(refs, rank, r, t, k + 1, level);
    }
  }

  /** A reachable quest entry is reported. */
  lemma {:induction false} ReachableQuestDropIsFound(
      refs: Store, rank: nat -> nat, r: Rules, t: LootTemplate, group: nat, level: nat, path: seq<nat>, e: LootStoreItem)
    requires Acyclic(refs, rank) && (group == 0 ==> Below(refs, rank, t, level))
    requires ReachVia(refs, t, group, path, e) && IsQuestEntry(r, e)
    ensures HasQuestDrop(refs, rank, r, t, group, level)
    decreases |path|
  {
    if group != 0 {
      GroupQuestEntryIsFound(r, t.groups[group - 1], e);
    } else if path == [] {
      if e in t.entries && !e.IsReference() {
        var k :| 0 <= k < |t.entries| && t.entries[k] == e;
        EntryQuestDropIsFound(refs, rank, r, t, k, level, 0);
      } else {
        var i :| 0 <= i < |t.groups| && InGroup(t.groups[i], e);
        GroupQuestEntryIsFound(r, t.groups[i], e);
      }
    } else {
      var x := t.entries[path[0]];
      ReachableQuestDropIsFound(refs, rank, r, refs[x.Target()], x.group, RefLevel(rank, x.Target(), x.group), path[1..], e);
      EntryQuestDropIsFound(refs, rank, r, t, path[0], level, 0);
    }
  }

  lemma GroupQuestEntryIsFound(r: Rules, g: LootGroup, e: LootStoreItem)
    requires InGroup(g, e) && IsQuestEntry(r, e)
    ensures GroupHasQuestDrop(r, g)
  {
  }

  /** A quest drop at one entry is found from every earlier position. */
  lemma {:induction false} EntryQuestDropIsFound(
      refs: Store, rank: nat -> nat, r: Rules, t: LootTemplate, k: nat, level: nat, from: nat)
    requires Acyclic(refs, rank) && Below(refs, rank, t, level) && from <= k < |t.entries|
    requires var x := t.entries[k];
             if x.IsReference() then
               x.Target() in refs &&
               HasQuestDrop(refs, rank, r, refs[x.Target()], x.group, RefLevel(rank, x.Target(), x.group))
             else IsQuestEntry(r, x)
    ensures EntriesHaveQuestDrop(refs, rank, r, t, from, level)
    decreases k - from
  {
    if from < k {
      EntryQuestDropIsFound(refs, rank, r, t, k, level, from + 1);
    }
  }

  ghost predicate ReachesQuestEntry(
      refs: Store, r: Rules, t: LootTemplate, group: nat, path: seq<nat>, e: LootStoreItem)
  {
    ReachVia(refs, t, group, path, e) && IsQuestEntry(r, e)
  }

  /** The quest-drop test is exact: it holds iff some reachable entry is a quest entry. */
  lemma HasQuestDropIff(refs: Store, rank: nat -> nat, r: Rules, t: LootTemplate, group: nat, level: nat)
    requires Acyclic(refs, rank) && (group == 0 ==> Below(refs, rank, t, level))
    ensures HasQuestDrop(refs, rank, r, t, group, level) <==>
            exists path, e :: ReachesQuestEntry(refs, r, t, group, path, e)
  {
    if HasQuestDrop(refs, rank, r, t, group, level) {
      var path, e := QuestDropIsReachable(refs, rank, r, t, group, level);
      assert ReachesQuestEntry(refs, r, t, group, path, e);
    }
    if path, e :| ReachesQuestEntry(refs, r, t, group, path, e) {
      ReachableQuestDropIsFound(refs, rank, r, t, group, level, path, e);
    }
  }

  /** A template without quest drops never drops a quest item, whatever the dice. */
  lemma NoQuestDropWithoutQuestEntry(
      refs: Store, rank: nat -> nat, r: Rules, d: Dice, t: LootTemplate, group: nat, level: nat, pos: nat)
    requires Acyclic(refs, rank) && (group == 0 ==> Below(refs, rank, t, level))
    requires !HasQuestDrop(refs, rank, r, t, group, level)
    ensures forall e :: e in Drops(refs, rank, r, d, t, group, level, pos).0 ==> !IsQuestEntry(r, e)
  {
    forall e | e in Drops(refs, rank, r, d, t, group, level, pos).0
      ensures !IsQuestEntry(r, e)
    {
      var path := DropsAreReachable(refs, rank, r, d, t, group, level, pos, e);
      assert ReachesQuestEntry(refs, r, t, group, path, e) <==> IsQuestEntry(r, e);
      HasQuestDropIff(refs, rank, r, t, group, level);
    }
  }

  /**
   HaveQuestLootFor looks references up in its own store, but drops come from the reference
   store: a store that differs from it can report no quest drop although a quest item drops.
   */
  lemma OwnStoreMissesQuestDrop(r: Rules, d: Dice) returns (own: Store, refs: Store, t: LootTemplate, rank: nat -> nat)
    ensures Acyclic(own, rank) && Acyclic(refs, rank)
    ensures 7 in own && own[7] == t && Below(own, rank, t, 2) && Below(refs, rank, t, 2)
    ensures !HasQuestDrop(own, rank, r, t, 0, 2)
    ensures exists e :: e in Drops(refs, rank, r, d, t, 0, 2, 0).0 && e.needsQuest
  {
    var quest := LootStoreItem(1, 100.0, 1, 0, true, 1, 0);
    var toQuest := LootStoreItem(0, 100.0, -1, 0, false, 1, 0);
    t := LootTemplate([toQuest], []);
    own, refs := map[7 := t], map[1 := LootTemplate([quest], [])];
    rank := id => 0;
    var rs := refs[1];
    assert EntryDrops(refs, rank, r, d, rs, 1, 1, 0).0 == [quest] by {
      assert EntryDrops(refs, rank, r, d, rs, 0, 1, 0) == ([], 0);
    }
    assert Drops(refs, rank, r, d, rs, 0, 1, 0).0 == [quest];
    assert RepeatedDrops(refs, rank, r, d, 1, 0, 0, 0) == ([], 0);
    assert RepeatedDrops(refs, rank, r, d, 1, 0, 1, 0).0 == [quest];
    assert EntryDrops(refs, rank, r, d, t, 0, 2, 0) == ([], 0);
    assert EntryDrops(refs, rank, r, d, t, 1, 2, 0).0 == [quest];
    assert quest in Drops(refs, rank, r, d, t, 0, 2, 0).0;
    assert !EntriesHaveQuestDrop(own, rank, r, t, 1, 2);
  }
}
