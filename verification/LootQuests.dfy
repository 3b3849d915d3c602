/**
 The quest-drop test asked with another store than the one that drops come from: when the answer
 is right for every reference store, and when two stores give the same answer.
 */
module LootQuests {
  import opened LootTemplates

  predicate HasReference(t: LootTemplate) {
    exists k :: 0 <= k < |t.entries| && t.entries[k].IsReference()
  }

  /** The test with store `own` finds every quest drop of the template, whatever the reference store. */
  ghost predicate NeverMisses(own: Store, rank: nat -> nat, level: nat, r: Rules, t: LootTemplate)
    requires Acyclic(own, rank) && Below(own, rank, t, level)
  {
    forall refs: Store, rank': nat -> nat, level': nat :: Acyclic(refs, rank') && Below(refs, rank', t, level') ==>
      HasQuestDrop(refs, rank', r, t, 0, level') ==> HasQuestDrop(own, rank, r, t, 0, level)
  }

  /** Without references the store plays no part. */
  lemma NoReferenceSameAnswer(
      own: Store, rank: nat -> nat, level: nat, refs: Store, rank': nat -> nat, level': nat, r: Rules, t: LootTemplate)
    requires Acyclic(own, rank) && Below(own, rank, t, level) && Acyclic(refs, rank') && Below(refs, rank', t, level')
    requires !HasReference(t)
    ensures HasQuestDrop(own, rank, r, t, 0, level) == HasQuestDrop(refs, rank', r, t, 0, level')
  {
    NoReferenceSameEntries(own, rank, level, refs, rank', level', r, t, 0);
  }

  lemma {:induction false} NoReferenceSameEntries(
      own: Store, rank: nat -> nat, level: nat, refs: Store, rank': nat -> nat, level': nat, r: Rules, t: LootTemplate,
      k: nat)
    requires Acyclic(own, rank) && Below(own, rank, t, level) && Acyclic(refs, rank') && Below(refs, rank', t, level')
    requires !HasReference(t) && k <= |t.entries|
    ensures EntriesHaveQuestDrop(own, rank, r, t, k, level) == EntriesHaveQuestDrop(refs, rank', r, t, k, level')
    decreases |t.entries| - k
  {
    hide Acyclic, Below;
    if k < |t.entries| {
      NoReferenceSameEntries(own, rank, level, refs, rank', level', r, t, k + 1);
    }
  }

  const QUEST_ENTRY := LootStoreItem(1, 100.0, 1, 0, true, 1, 0)

  /** A template without references that has a quest drop both as a whole and in group `group`. */
  function QuestTemplate(group: nat): (t: LootTemplate)
  {
    LootTemplate([QUEST_ENTRY], seq(group, i => LootGroup([QUEST_ENTRY], [], false)))
  }

  /** For any reference there is a reference store in which it leads to a quest drop. */
  lemma ReferenceCanDropQuest(r: Rules, t: LootTemplate, k: nat) returns (refs: Store, rank: nat -> nat)
    requires k < |t.entries| && t.entries[k].IsReference()
    ensures Acyclic(refs, rank) && Below(refs, rank, t, 2) && HasQuestDrop(refs, rank, r, t, 0, 2)
  {
    var e := t.entries[k];
    var q := QuestTemplate(e.group);
    refs, rank := map[e.Target() := q], id => 0;
    assert IsQuestEntry(r, QUEST_ENTRY);
    if e.group == 0 {
      EntryQuestDropIsFound(refs, rank, r, q, 0, 1, 0);
    } else {
      GroupQuestEntryIsFound(r, q.groups[e.group - 1], QUEST_ENTRY);
    }
    hide Acyclic, Below;
    assert HasQuestDrop(refs, rank, r, q, e.group, RefLevel(rank, e.Target(), e.group));
    EntryQuestDropIsFound(refs, rank, r, t, k, 2, 0);
  }

  /**
   The test asked with a template's own store is right for every reference store exactly when it
   answers yes, or the template has no reference.
   */
  lemma OwnStoreNeverMissesIff(own: Store, rank: nat -> nat, level: nat, r: Rules, t: LootTemplate)
    requires Acyclic(own, rank) && Below(own, rank, t, level)
    ensures NeverMisses(own, rank, level, r, t) <==> HasQuestDrop(own, rank, r, t, 0, level) || !HasReference(t)
  {
    hide HasQuestDrop, Acyclic, Below;
    if !HasReference(t) {
      forall refs: Store, rank': nat -> nat, level': nat | Acyclic(refs, rank') && Below(refs, rank', t, level')
        ensures HasQuestDrop(refs, rank', r, t, 0, level') ==> HasQuestDrop(own, rank, r, t, 0, level)
      {
        NoReferenceSameAnswer(own, rank, level, refs, rank', level', r, t);
      }
    } else {
      var k :| 0 <= k < |t.entries| && t.entries[k].IsReference();
      var refs, rank' := ReferenceCanDropQuest(r, t, k);
    }
  }

  /** Following the references at the given entry positions leads from the template to the id. */
  ghost predicate Leads(refs: Store, t: LootTemplate, path: seq<nat>, id: nat)
    decreases |path|
  {
    && path != [] && path[0] < |t.entries| && t.entries[path[0]].IsReference()
    && var e := t.entries[path[0]];
       if |path| == 1 then e.Target() == id
       else e.group == 0 && e.Target() in refs && Leads(refs, refs[e.Target()], path[1..], id)
  }

  /** The stores agree on every id that references lead to. */
  ghost predicate AgreeFrom(own: Store, refs: Store, t: LootTemplate) {
    forall path, id :: Leads(own, t, path, id) ==> (id in own <==> id in refs) && (id in own ==> own[id] == refs[id])
  }

  lemma AgreeFurther(own: Store, refs: Store, t: LootTemplate, k: nat)
    requires AgreeFrom(own, refs, t) && k < |t.entries| && t.entries[k].IsReference()
    ensures var id := t.entries[k].Target();
            && (id in own <==> id in refs)
            && (id in own ==> own[id] == refs[id] && (t.entries[k].group == 0 ==> AgreeFrom(own, refs, own[id])))
  {
    var id := t.entries[k].Target();
    assert Leads(own, t, [k], id);
    if id in own && t.entries[k].group == 0 {
      forall path, x | Leads(own, own[id], path, x)
        ensures (x in own <==> x in refs) && (x in own ==> own[x] == refs[x])
      {
        assert ([k] + path)[1..] == path;
        assert Leads(own, t, [k] + path, x);
      }
    }
  }

  lemma {:induction false} ReachSame(own: Store, refs: Store, t: LootTemplate, group: nat, path: seq<nat>, e: LootStoreItem)
    requires group == 0 ==> AgreeFrom(own, refs, t)
    ensures ReachVia(own, t, group, path, e) == ReachVia(refs, t, group, path, e)
    decreases |path|
  {
    hide AgreeFrom;
    if group == 0 && path != [] && path[0] < |t.entries| && t.entries[path[0]].IsReference() {
      AgreeFurther(own, refs, t, path[0]);
      var x := t.entries[path[0]];
      if x.Target() in own {
        ReachSame(own, refs, own[x.Target()], x.group, path[1..], e);
      }
    }
  }

  /** Stores that agree wherever the template's references lead give the same answer. */
  lemma AgreeingStoresSameAnswer(
      own: Store, rank: nat -> nat, level: nat, refs: Store, rank': nat -> nat, level': nat, r: Rules, t: LootTemplate)
    requires Acyclic(own, rank) && Below(own, rank, t, level) && Acyclic(refs, rank') && Below(refs, rank', t, level')
    requires AgreeFrom(own, refs, t)
    ensures HasQuestDrop(own, rank, r, t, 0, level) == HasQuestDrop(refs, rank', r, t, 0, level')
  {
    hide HasQuestDrop, Acyclic, Below, AgreeFrom, ReachVia;
    HasQuestDropIff(own, rank, r, t, 0, level);
    HasQuestDropIff(refs, rank', r, t, 0, level');
    forall path, e
      ensures ReachesQuestEntry(own, r, t, 0, path, e) == ReachesQuestEntry(refs, r, t, 0, path, e)
    {
      ReachSame(own, refs, t, 0, path, e);
    }
  }
}
