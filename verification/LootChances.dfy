/**
 What the chances of a template mean: which entries drop on which throws, which entry of a group
 is picked, and that everything that takes its chance does drop.
 */
module LootChances {
  import opened Options
  import opened LootTemplates

  // ---------------------------------------------------------------------------
  // Plain templates
  // ---------------------------------------------------------------------------

  /** The number of throws that the first `k` entries take: those of 100 percent need none. */
  function Throws(es: seq<LootStoreItem>, k: nat): (n: nat)
    requires k <= |es|
  {
    if k == 0 then 0 else Throws(es, k - 1) + if es[k - 1].chance < 100.0 then 1 else 0
  }

  /** Entry `k` drops: it always does, or its own throw lies below its chance times the rate. */
  predicate Falls(r: Rules, d: Dice, es: seq<LootStoreItem>, pos: nat, k: nat)
    requires k < |es|
  {
    es[k].chance >= 100.0 || d.percent(pos + Throws(es, k)) < es[k].chance * r.rate(es[k])
  }

  /** The entries among the first `n` that drop, in order. */
  function Fallen(r: Rules, d: Dice, es: seq<LootStoreItem>, pos: nat, n: nat): (fs: seq<LootStoreItem>)
    requires n <= |es|
  {
    if n == 0 then []
    else Fallen(r, d, es, pos, n - 1) + if Falls(r, d, es, pos, n - 1) then [es[n - 1]] else []
  }

  predicate OnlyPlain(t: LootTemplate) {
    t.groups == [] && forall e :: e in t.entries ==> 0 <= e.mincountOrRef
  }

  lemma {:induction false} PlainEntriesDrop(
      refs: Store, rank: nat -> nat, r: Rules, d: Dice, t: LootTemplate, n: nat, level: nat, pos: nat)
    requires Acyclic(refs, rank) && Below(refs, rank, t, level) && OnlyPlain(t) && n <= |t.entries|
    ensures EntryDrops(refs, rank, r, d, t, n, level, pos) == (Fallen(r, d, t.entries, pos, n), pos + Throws(t.entries, n))
    decreases n
  {
    hide Acyclic, Below;
    if n == 0 {
      NoEntries(refs, rank, r, d, t, level, pos);
    } else {
      PlainEntriesDrop(refs, rank, r, d, t, n - 1, level, pos);
      assert t.entries[n - 1] in t.entries;
      var fs := Fallen(r, d, t.entries, pos, n - 1);
      assert fs + [] == fs;
    }
  }

  lemma {:induction false} FallenIff(r: Rules, d: Dice, es: seq<LootStoreItem>, pos: nat, n: nat, e: LootStoreItem)
    requires n <= |es|
    ensures e in Fallen(r, d, es, pos, n) <==> exists k :: 0 <= k < n && es[k] == e && Falls(r, d, es, pos, k)
    decreases n
  {
    hide Falls;
    if n > 0 {
      FallenIff(r, d, es, pos, n - 1, e);
      assert es[n - 1] == e && Falls(r, d, es, pos, n - 1) ==> e in Fallen(r, d, es, pos, n);
    }
  }

  /** A template of single plain entries drops exactly those that take their chance, in order. */
  lemma PlainTemplateDrops(refs: Store, rank: nat -> nat, r: Rules, d: Dice, t: LootTemplate, level: nat, pos: nat, e: LootStoreItem)
    requires Acyclic(refs, rank) && Below(refs, rank, t, level) && OnlyPlain(t)
    ensures Drops(refs, rank, r, d, t, 0, level, pos).0 == Fallen(r, d, t.entries, pos, |t.entries|)
    ensures e in Drops(refs, rank, r, d, t, 0, level, pos).0 <==>
            exists k :: 0 <= k < |t.entries| && t.entries[k] == e && Falls(r, d, t.entries, pos, k)
  {
    PlainEntriesDrop(refs, rank, r, d, t, |t.entries|, level, pos);
    FallenIff(r, d, t.entries, pos, |t.entries|, e);
    hide Acyclic, Below, Falls, EntryDrops;
  }

  /** With fair dice an entry whose chance times rate is not positive never drops, unless the chance is 100. */
  lemma NoChanceNoDrop(r: Rules, d: Dice, es: seq<LootStoreItem>, pos: nat, k: nat)
    requires Fair(d) && k < |es| && es[k].chance < 100.0 && es[k].chance * r.rate(es[k]) <= 0.0
    ensures !Falls(r, d, es, pos, k)
  {
  }

  lemma {:induction false} ThrowsBefore(es: seq<LootStoreItem>, fs: seq<LootStoreItem>, k: nat)
    requires k <= |es| && k <= |fs| && es[..k] == fs[..k]
    ensures Throws(es, k) == Throws(fs, k)
    decreases k
  {
    if k > 0 {
      assert es[..k][..k - 1] == es[..k - 1] && fs[..k][..k - 1] == fs[..k - 1];
      assert es[k - 1] == es[..k][k - 1] && fs[k - 1] == fs[..k][k - 1];
      ThrowsBefore(es, fs, k - 1);
    }
  }

  /** With the same throws an entry that dropped drops with any larger chance as well. */
  lemma MoreChanceStillDrops(r: Rules, d: Dice, es: seq<LootStoreItem>, pos: nat, k: nat, e: LootStoreItem)
    requires k < |es| && Falls(r, d, es, pos, k)
    requires es[k].chance <= e.chance && 0.0 <= r.rate(es[k]) <= r.rate(e) && 0.0 <= e.chance
    ensures Falls(r, d, es[k := e], pos, k)
  {
    var fs := es[k := e];
    assert es[..k] == fs[..k];
    ThrowsBefore(es, fs, k);
    Larger(es[k].chance, e.chance, r.rate(es[k]), r.rate(e));
  }

  lemma Larger(a: real, b: real, x: real, y: real)
    requires a <= b && 0.0 <= x <= y && 0.0 <= b
    ensures a * x <= b * y
  {
    assert a * x <= b * x;
    assert b * x <= b * y;
  }

  // ---------------------------------------------------------------------------
  // Any template
  // ---------------------------------------------------------------------------

  /** Entry `k` takes its chance when its turn comes. */
  ghost predicate Takes(refs: Store, rank: nat -> nat, r: Rules, d: Dice, t: LootTemplate, k: nat, level: nat, pos: nat)
    requires Acyclic(refs, rank) && Below(refs, rank, t, level) && k < |t.entries|
  {
    t.entries[k].chance >= 100.0 ||
    d.percent(EntryDrops(refs, rank, r, d, t, k, level, pos).1) < t.entries[k].chance * r.rate(t.entries[k])
  }

  /** The throw at which the rounds of reference `k` begin. */
  ghost function Behind(refs: Store, rank: nat -> nat, r: Rules, d: Dice, t: LootTemplate, k: nat, level: nat, pos: nat): (p: nat)
    requires Acyclic(refs, rank) && Below(refs, rank, t, level) && k < |t.entries|
  {
    EntryDrops(refs, rank, r, d, t, k, level, pos).1 + if t.entries[k].chance >= 100.0 then 0 else 1
  }

  /** What entry `k` brings: itself, or the drops of one of the rounds of its reference. */
  ghost predicate Brings(
      refs: Store, rank: nat -> nat, r: Rules, d: Dice, t: LootTemplate, k: nat, level: nat, pos: nat, e: LootStoreItem)
    requires Acyclic(refs, rank) && Below(refs, rank, t, level) && k < |t.entries|
  {
    var x := t.entries[k];
    if !x.IsReference() then e == x
    else
      x.Target() in refs &&
      exists i :: 0 <= i < x.maxcount && InRound(refs, rank, r, d, x, i, Behind(refs, rank, r, d, t, k, level, pos), e)
  }

  /** Round `i` of a reference, processed with the throws behind the rounds before it, drops the entry. */
  ghost predicate InRound(refs: Store, rank: nat -> nat, r: Rules, d: Dice, x: LootStoreItem, i: nat, pos: nat, e: LootStoreItem)
    requires Acyclic(refs, rank) && x.IsReference() && x.Target() in refs
  {
    var id := x.Target();
    e in Drops(refs, rank, r, d, refs[id], x.group, RefLevel(rank, id, x.group),
               RepeatedDrops(refs, rank, r, d, id, x.group, i, pos).1).0
  }

  lemma {:induction false} RoundsDrop(refs: Store, rank: nat -> nat, r: Rules, d: Dice, x: LootStoreItem, n: nat, pos: nat, e: LootStoreItem)
    requires Acyclic(refs, rank) && x.IsReference() && x.Target() in refs
    ensures e in RepeatedDrops(refs, rank, r, d, x.Target(), x.group, n, pos).0 <==>
            exists i :: 0 <= i < n && InRound(refs, rank, r, d, x, i, pos, e)
    decreases n
  {
    hide Acyclic, Drops;
    if n > 0 {
      RoundsDrop(refs, rank, r, d, x, n - 1, pos, e);
      assert InRound(refs, rank, r, d, x, n - 1, pos, e) ==>
             e in RepeatedDrops(refs, rank, r, d, x.Target(), x.group, n, pos).0;
    }
  }

  lemma EntryStep(refs: Store, rank: nat -> nat, r: Rules, d: Dice, t: LootTemplate, k: nat, level: nat, pos: nat, e: LootStoreItem)
    requires Acyclic(refs, rank) && Below(refs, rank, t, level) && k < |t.entries|
    ensures e in EntryDrops(refs, rank, r, d, t, k + 1, level, pos).0 <==>
            || e in EntryDrops(refs, rank, r, d, t, k, level, pos).0
            || (Takes(refs, rank, r, d, t, k, level, pos) && Brings(refs, rank, r, d, t, k, level, pos, e))
  {
    hide Acyclic, Below, InRound, RepeatedDrops;
    var x := t.entries[k];
    if x.IsReference() && x.Target() in refs {
      RoundsDrop(refs, rank, r, d, x, x.maxcount, Behind(refs, rank, r, d, t, k, level, pos), e);
    }
  }

  lemma {:induction false} EntriesDropIff(
      refs: Store, rank: nat -> nat, r: Rules, d: Dice, t: LootTemplate, n: nat, level: nat, pos: nat, e: LootStoreItem)
    requires Acyclic(refs, rank) && Below(refs, rank, t, level) && n <= |t.entries|
    ensures e in EntryDrops(refs, rank, r, d, t, n, level, pos).0 <==>
            exists k :: 0 <= k < n && Takes(refs, rank, r, d, t, k, level, pos) && Brings(refs, rank, r, d, t, k, level, pos, e)
    decreases n
  {
    hide Acyclic, Below, Takes, Brings;
    if n == 0 {
      NoEntries(refs, rank, r, d, t, level, pos);
    } else {
      hide EntryDrops;
      EntriesDropIff(refs, rank, r, d, t, n - 1, level, pos, e);
      EntryStep(refs, rank, r, d, t, n - 1, level, pos, e);
    }
  }

  lemma NoEntries(refs: Store, rank: nat -> nat, r: Rules, d: Dice, t: LootTemplate, level: nat, pos: nat)
    requires Acyclic(refs, rank) && Below(refs, rank, t, level)
    ensures EntryDrops(refs, rank, r, d, t, 0, level, pos) == ([], pos)
  {
  }

  /** Group `i` of the template drops the entry, with the throws behind the groups before it. */
  ghost predicate GroupBrings(r: Rules, d: Dice, gs: seq<LootGroup>, i: nat, pos: nat, e: LootStoreItem)
    requires i < |gs|
  {
    GroupRoll(r, gs[i], d, GroupsDrops(r, d, gs, i, pos).1).0 == Some(e)
  }

  lemma {:induction false} GroupsDropIff(r: Rules, d: Dice, gs: seq<LootGroup>, n: nat, pos: nat, e: LootStoreItem)
    requires n <= |gs|
    ensures e in GroupsDrops(r, d, gs, n, pos).0 <==> exists i :: 0 <= i < n && GroupBrings(r, d, gs, i, pos, e)
    decreases n
  {
    hide GroupRoll;
    if n > 0 {
      GroupsDropIff(r, d, gs, n - 1, pos, e);
      assert GroupBrings(r, d, gs, n - 1, pos, e) ==> e in GroupsDrops(r, d, gs, n, pos).0;
    }
  }

  /**
   What drops from a template: exactly what some entry that takes its chance brings, a reference in
   every one of its rounds, and what the groups pick.
   */
  lemma DropsIff(refs: Store, rank: nat -> nat, r: Rules, d: Dice, t: LootTemplate, level: nat, pos: nat, e: LootStoreItem)
    requires Acyclic(refs, rank) && Below(refs, rank, t, level)
    ensures e in Drops(refs, rank, r, d, t, 0, level, pos).0 <==>
            || (exists k :: 0 <= k < |t.entries| &&
                 Takes(refs, rank, r, d, t, k, level, pos) && Brings(refs, rank, r, d, t, k, level, pos, e))
            || (exists i :: 0 <= i < |t.groups| &&
                 GroupBrings(r, d, t.groups, i, EntryDrops(refs, rank, r, d, t, |t.entries|, level, pos).1, e))
  {
    EntriesDropIff(refs, rank, r, d, t, |t.entries|, level, pos, e);
    GroupsDropIff(r, d, t.groups, |t.groups|, EntryDrops(refs, rank, r, d, t, |t.entries|, level, pos).1, e);
    hide Acyclic, Below, Takes, Brings, GroupBrings, EntryDrops, GroupsDrops;
  }

  /** A reference to one group drops what that group picks, and nothing when there is no such group. */
  lemma GroupReferenceDrops(refs: Store, rank: nat -> nat, r: Rules, d: Dice, t: LootTemplate, group: nat, level: nat, pos: nat)
    requires Acyclic(refs, rank) && group > 0
    ensures var fs := Drops(refs, rank, r, d, t, group, level, pos).0;
            if group <= |t.groups| && GroupRoll(r, t.groups[group - 1], d, pos).0.Some?
            then fs == [GroupRoll(r, t.groups[group - 1], d, pos).0.value] else fs == []
  {
    hide GroupRoll, Acyclic;
  }

  // ---------------------------------------------------------------------------
  // The pick of a group
  // ---------------------------------------------------------------------------

  predicate NoNegative(es: seq<LootStoreItem>) {
    forall e :: e in es ==> 0.0 <= e.chance
  }

  /** The roll lies in the share of entry `k`, behind the allowed chances of the entries before it. */
  predicate Hits(r: Rules, es: seq<LootStoreItem>, roll: real, k: nat)
    requires k < |es|
  {
    && AllowedForTeam(r, es[k])
    && AllowedChance(r, es[..k]) <= roll
    && (es[k].chance >= 100.0 || roll < AllowedChance(r, es[..k]) + es[k].chance)
    && forall i :: 0 <= i < k ==> !AllowedForTeam(r, es[i]) || es[i].chance < 100.0
  }

  lemma AllowedFirst(r: Rules, es: seq<LootStoreItem>, k: nat)
    requires 1 <= k <= |es|
    ensures AllowedChance(r, es[..k]) ==
            (if AllowedForTeam(r, es[0]) then es[0].chance else 0.0) + AllowedChance(r, es[1..][..k - 1])
  {
    assert es[..k][1..] == es[1..][..k - 1];
  }

  lemma NothingAllowed(r: Rules, es: seq<LootStoreItem>)
    ensures AllowedChance(r, es[..0]) == 0.0
  {
  }

  lemma AllowedNotNegative(r: Rules, es: seq<LootStoreItem>, k: nat)
    requires NoNegative(es) && k <= |es|
    ensures 0.0 <= AllowedChance(r, es[..k])
    decreases |es|
  {
    if k > 0 {
      assert es[0] in es && forall e :: e in es[1..] ==> e in es;
      AllowedFirst(r, es, k);
      AllowedNotNegative(r, es[1..], k - 1);
    } else {
      NothingAllowed(r, es);
    }
  }

  lemma HitsLater(r: Rules, es: seq<LootStoreItem>, roll: real, k: nat)
    requires 1 <= k < |es| && NoNegative(es)
    ensures var e := es[0];
            Hits(r, es, roll, k) <==>
            if !AllowedForTeam(r, e) then Hits(r, es[1..], roll, k - 1)
            else e.chance < 100.0 && Hits(r, es[1..], roll - e.chance, k - 1)
  {
    hide AllowedChance, AllowedForTeam;
    AllowedFirst(r, es, k);
    var rest := es[1..];
    assert forall i :: 1 <= i < |es| ==> es[i] == rest[i - 1];
    assert forall i :: 0 <= i < |rest| ==> rest[i] == es[i + 1];
  }

  lemma HitsFirst(r: Rules, es: seq<LootStoreItem>, roll: real)
    requires es != [] && 0.0 <= roll
    ensures Hits(r, es, roll, 0) <==> AllowedForTeam(r, es[0]) && (es[0].chance >= 100.0 || roll < es[0].chance)
  {
    NothingAllowed(r, es);
    hide AllowedChance, AllowedForTeam;
  }

  /** An entry whose share the roll hits is the one that is picked. */
  lemma {:induction false} HitIsPicked(r: Rules, es: seq<LootStoreItem>, roll: real, k: nat)
    requires NoNegative(es) && 0.0 <= roll && k < |es| && Hits(r, es, roll, k)
    ensures ExplicitRoll(r, es, roll) == Some(es[k])
    decreases |es|
  {
    hide AllowedForTeam, Hits, AllowedChance;
    assert forall e :: e in es[1..] ==> e in es;
    assert es[0] in es;
    if k == 0 {
      HitsFirst(r, es, roll);
    } else {
      HitsLater(r, es, roll, k);
      assert es[k] == es[1..][k - 1];
      if AllowedForTeam(r, es[0]) {
        LaterIsBehind(r, es, roll, k);
        HitIsPicked(r, es[1..], roll - es[0].chance, k - 1);
      } else {
        HitIsPicked(r, es[1..], roll, k - 1);
      }
    }
  }

  lemma LaterIsBehind(r: Rules, es: seq<LootStoreItem>, roll: real, k: nat)
    requires NoNegative(es) && 1 <= k < |es| && Hits(r, es, roll, k) && AllowedForTeam(r, es[0])
    ensures es[0].chance <= roll
  {
    assert forall e :: e in es[1..] ==> e in es;
    AllowedFirst(r, es, k);
    AllowedNotNegative(r, es[1..], k - 1);
  }

  /** Whatever is picked was hit: an entry of a group drops exactly on the rolls in its share. */
  lemma {:induction false} PickedIsHit(r: Rules, es: seq<LootStoreItem>, roll: real) returns (k: nat)
    requires NoNegative(es) && 0.0 <= roll && ExplicitRoll(r, es, roll).Some?
    ensures k < |es| && Hits(r, es, roll, k) && ExplicitRoll(r, es, roll) == Some(es[k])
    decreases |es|
  {
    hide AllowedForTeam, Hits, AllowedChance;
    assert forall e :: e in es[1..] ==> e in es;
    HitsFirst(r, es, roll);
    if AllowedForTeam(r, es[0]) && (es[0].chance >= 100.0 || roll < es[0].chance) {
      k := 0;
    } else {
      var i := PickedIsHit(r, es[1..], if AllowedForTeam(r, es[0]) then roll - es[0].chance else roll);
      k := i + 1;
      HitsLater(r, es, roll, k);
      assert es[k] == es[1..][i];
    }
  }

  /** Without a pick among the explicit chances every entry of equal chance has its turn: the choice names it. */
  lemma EqualPick(r: Rules, g: LootGroup, group: nat, d: Dice, pos: nat, k: nat)
    requires WellFormedGroup(g, group) && g.explicitlyChanced == [] && k < |g.equalChanced|
    requires r.crossFaction || forall e :: e in g.equalChanced ==> e.conditionId == 0
    requires d.choice(pos) == k
    ensures GroupRoll(r, g, d, pos) == (Some(g.equalChanced[k]), pos + 1)
  {
  }

  /** With conditions the choice is among the allowed entries, in their order. */
  lemma EqualPickAllowed(r: Rules, g: LootGroup, group: nat, d: Dice, pos: nat, k: nat)
    requires WellFormedGroup(g, group) && g.explicitlyChanced == [] && !r.crossFaction
    requires k < |g.equalChanced| && AllowedForTeam(r, g.equalChanced[k])
    requires d.choice(pos) == |AllowedOnly(r, g.equalChanced[..k])|
    ensures GroupRoll(r, g, d, pos) == (Some(g.equalChanced[k]), pos + 1)
  {
    AllowedAt(r, g.equalChanced, k);
    if !g.hasConditionalEqualChancedItem {
      Unconditional(r, g, group);
      AllAllowed(r, g.equalChanced[..k]);
    }
    hide AllowedOnly, AllowedForTeam, WellFormedGroup;
    PickedByChoice(r, g, d, pos);
  }

  lemma Unconditional(r: Rules, g: LootGroup, group: nat)
    requires WellFormedGroup(g, group) && !g.hasConditionalEqualChancedItem
    ensures forall e :: e in g.equalChanced ==> AllowedForTeam(r, e)
  {
  }

  lemma PickedByChoice(r: Rules, g: LootGroup, d: Dice, pos: nat)
    requires g.explicitlyChanced == [] && !r.crossFaction
    ensures var c := if g.hasConditionalEqualChancedItem then AllowedOnly(r, g.equalChanced) else g.equalChanced;
            d.choice(pos) < |c| ==> GroupRoll(r, g, d, pos) == (Some(c[d.choice(pos)]), pos + 1)
  {
    hide AllowedOnly, ExplicitRoll;
    var c := if g.hasConditionalEqualChancedItem then AllowedOnly(r, g.equalChanced) else g.equalChanced;
    if d.choice(pos) < |c| {
      SmallChoice(d.choice(pos), |c|);
      assert EqualRoll(r, g, d, pos) == (Some(c[d.choice(pos)]), pos + 1);
    }
  }

  lemma SmallChoice(x: nat, n: nat)
    requires x < n
    ensures x % n == x
  {
  }

  lemma {:induction false} AllowedAt(r: Rules, es: seq<LootStoreItem>, k: nat)
    requires k < |es| && AllowedForTeam(r, es[k])
    ensures var n := |AllowedOnly(r, es[..k])|; n < |AllowedOnly(r, es)| && AllowedOnly(r, es)[n] == es[k]
    decreases |es|
  {
    if k < |es| - 1 {
      AllowedAt(r, es[..|es| - 1], k);
      assert es[..|es| - 1][..k] == es[..k];
    }
  }

  lemma {:induction false} AllAllowed(r: Rules, es: seq<LootStoreItem>)
    requires forall e :: e in es ==> AllowedForTeam(r, e)
    ensures AllowedOnly(r, es) == es
    decreases |es|
  {
    if es != [] {
      AllAllowed(r, es[..|es| - 1]);
    }
  }
}
