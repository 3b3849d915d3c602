/**
 Which objects a condition needs: the parameter each kind of leaf asks for, the test whether a
 condition can do without a player, and what that test is worth once flags swap the objects.
 */
module ConditionTargets {
  import opened Options
  import opened Integers
  import opened Conditions

  // ---------------------------------------------------------------------------
  // Requirements
  // ---------------------------------------------------------------------------

  datatype ObjectKind = WorldObject | GameObject | Unit | Creature | Player

  /** The objects that must be there. */
  datatype Requirement =
    | NoObject
    | Target(kind: ObjectKind)
    | Source(kind: ObjectKind)
    | AnyObject
    | MapOrObject
    | BothSides(kind: ObjectKind)

  /** What the leaf with this code asks for; loading drops leaves with codes above 60. */
  function Required(code: nat): (r: Requirement)
  {
    match code
    case 1 | 6 | 15 | 40 | 41 | 42 | 43 | 46 | 60 => Target(Unit)
    case 2 | 3 | 5 | 7 | 8 | 9 | 10 | 14 | 17 | 19 | 22 | 23 | 29 | 30 | 45 | 51 => Target(Player)
    case 4 => AnyObject
    case 13 | 32 => Source(Unit)
    case 16 | 31 | 52 => Source(WorldObject)
    case 18 | 33 | 34 | 35 | 36 | 47 | 50 | 59 => MapOrObject
    case 20 | 21 | 27 | 28 | 39 | 54 | 56 => Target(WorldObject)
    case 37 | 38 | 44 => BothSides(WorldObject)
    case 48 | 49 | 55 => Target(GameObject)
    case 57 | 58 => Source(Creature)
    case _ => NoObject
  }

  /** What is around an evaluation: the kinds of objects, whether there is a map, and the outcomes of leaves. */
  datatype World = World(isKind: (nat, ObjectKind) -> bool, hasMap: bool, outcome: (nat, Scene) -> bool)
  {
    predicate Has(o: Option<nat>, k: ObjectKind) {
      o.Some? && (k.WorldObject? || isKind(o.value, k))
    }

    predicate Given(r: Requirement, s: Scene) {
      match r
      case NoObject => true
      case Target(k) => Has(s.target, k)
      case Source(k) => Has(s.source, k)
      case AnyObject => s.source.Some? || s.target.Some?
      case MapOrObject => hasMap || s.source.Some? || s.target.Some?
      case BothSides(k) => Has(s.source, k) && Has(s.target, k)
    }

    function Says(store: Store): (f: Facts)
    {
      Facts((id, s) => id in store && store[id].kind.Leaf? ==> Given(Required(store[id].kind.code), s), outcome)
    }
  }

  /** Does the requirement ask for the target, or for the source when the two have been swapped? */
  predicate Needs(r: Requirement, swapped: bool) {
    r.BothSides? || if swapped then r.Source? else r.Target?
  }

  /** Beside a source, the check asks for the target exactly when there is a need; otherwise the target plays no part. */
  lemma NeedsIff(w: World, r: Requirement, swapped: bool, source: nat)
    ensures Needs(r, swapped) ==> !w.Given(r, Scene(None, Some(source)).Swapped(swapped))
    ensures !Needs(r, swapped) ==> forall a, b ::
              w.Given(r, Scene(a, Some(source)).Swapped(swapped)) == w.Given(r, Scene(b, Some(source)).Swapped(swapped))
  {
  }

  /**
   By the codes of the leaves: those that ask for a target, those that ask for a source, those
   content with either, and the kind of object it has to be; all others ask for nothing.
   */
  lemma LeavesAsk(w: World, code: nat, s: Scene)
    ensures w.Given(Required(code), s) <==>
            && (code in {1, 6, 15, 40, 41, 42, 43, 46, 60} ==> w.Has(s.target, Unit))
            && (code in {2, 3, 5, 7, 8, 9, 10, 14, 17, 19, 22, 23, 29, 30, 45, 51} ==> w.Has(s.target, Player))
            && (code in {48, 49, 55} ==> w.Has(s.target, GameObject))
            && (code in {20, 21, 27, 28, 37, 38, 39, 44, 54, 56} ==> s.target.Some?)
            && (code in {13, 32} ==> w.Has(s.source, Unit))
            && (code in {57, 58} ==> w.Has(s.source, Creature))
            && (code in {16, 31, 37, 38, 44, 52} ==> s.source.Some?)
            && (code == 4 || (code in {18, 33, 34, 35, 36, 47, 50, 59} && !w.hasMap) ==> s.source.Some? || s.target.Some?)
  {
  }

  // ---------------------------------------------------------------------------
  // The test
  // ---------------------------------------------------------------------------

  /** The leaf's requirement is one of those that are listed; a player as source is not. */
  predicate Free(code: nat) {
    match Required(code)
    case NoObject => true
    case Source(k) => !k.Player?
    case AnyObject => true
    case MapOrObject => true
    case Target(_) => false
    case BothSides(_) => false
  }

  predicate CanBeUsedWithoutPlayer(store: Store, id: nat): (usable: bool)
    requires WellFounded(store)
    ensures usable ==> id in store
    decreases id
  {
    if id !in store then false
    else
      var e := store[id];
      if !Combines(e.kind) then e.kind.Leaf? ==> Free(e.kind.code)
      else
        OperandsBelow(store, id);
        && CanBeUsedWithoutPlayer(store, U32(e.value1))
        && (e.kind.Not? || CanBeUsedWithoutPlayer(store, U32(e.value2)))
  }

  /** No kind of leaf asks for a player as source, so the list is complete for swaps that cancel out. */
  lemma FreeIff(code: nat)
    ensures Free(code) <==> !Needs(Required(code), false)
  {
    assert Required(code) != Source(Player);
  }

  // ---------------------------------------------------------------------------
  // What a condition needs
  // ---------------------------------------------------------------------------

  /** A leaf that is looked at asks for the target, all swaps on the way to it counted. */
  predicate NeedsTarget(store: Store, id: nat, swapped: bool)
    requires WellFounded(store) && id in store
    decreases id
  {
    var e := store[id];
    assert Below(store, id, Operands(e));
    if e.kind.Leaf? then Needs(Required(e.kind.code), swapped != e.swap)
    else exists r :: r in Operands(e) && NeedsTarget(store, r, swapped != e.swap)
  }

  /** The outcomes of the leaves that are looked at do not depend on the target. */
  ghost predicate OutcomesIgnoreTarget(store: Store, w: World, id: nat, swapped: bool, source: Option<nat>)
    requires WellFounded(store) && id in store
    decreases id
  {
    var e := store[id];
    var p := swapped != e.swap;
    assert Below(store, id, Operands(e));
    if e.kind.Leaf? then
      forall a, b :: w.outcome(id, Scene(a, source).Swapped(p)) == w.outcome(id, Scene(b, source).Swapped(p))
    else forall r :: r in Operands(e) ==> OutcomesIgnoreTarget(store, w, r, p, source)
  }

  lemma PartsIgnore(store: Store, w: World, id: nat, swapped: bool, source: Option<nat>, r: nat)
    requires WellFounded(store) && id in store && r in Operands(store[id])
    requires !NeedsTarget(store, id, swapped) && OutcomesIgnoreTarget(store, w, id, swapped, source)
    ensures r < id && r in store
    ensures var p := swapped != store[id].swap;
            !NeedsTarget(store, r, p) && OutcomesIgnoreTarget(store, w, r, p, source)
  {
    hide Operands, Needs, Required;
    assert Below(store, id, Operands(store[id]));
    assert !store[id].kind.Leaf? by {
      assert store[id].kind.Leaf? ==> Operands(store[id]) == [] by {
        LeafHasNoOperands(store[id]);
      }
    }
  }

  lemma LeafHasNoOperands(e: Entry)
    ensures e.kind.Leaf? ==> Operands(e) == []
  {
  }

  lemma LeafIgnores(store: Store, w: World, id: nat, swapped: bool, source: nat, a: Option<nat>, b: Option<nat>)
    requires WellFounded(store) && id in store && !Combines(store[id].kind)
    requires !NeedsTarget(store, id, swapped) && OutcomesIgnoreTarget(store, w, id, swapped, Some(source))
    ensures Meets(store, w.Says(store), id, Scene(a, Some(source)).Swapped(swapped)) ==
            Meets(store, w.Says(store), id, Scene(b, Some(source)).Swapped(swapped))
  {
    hide Operands, Needs, Required, World.Given, WellFounded;
    var e := store[id];
    SwapTwice(Scene(a, Some(source)), swapped, e.swap);
    SwapTwice(Scene(b, Some(source)), swapped, e.swap);
    if e.kind.Leaf? {
      NeedsIff(w, Required(e.kind.code), swapped != e.swap, source);
    }
  }

  /** A condition that needs no target means the same for every target, and for none. */
  lemma {:induction false} TargetPlaysNoPart(
    store: Store, w: World, id: nat, swapped: bool, source: nat, a: Option<nat>, b: Option<nat>)
    requires WellFounded(store) && id in store
    requires !NeedsTarget(store, id, swapped) && OutcomesIgnoreTarget(store, w, id, swapped, Some(source))
    ensures Meets(store, w.Says(store), id, Scene(a, Some(source)).Swapped(swapped)) ==
            Meets(store, w.Says(store), id, Scene(b, Some(source)).Swapped(swapped))
    decreases id
  {
    var e := store[id];
    if !Combines(e.kind) {
      LeafIgnores(store, w, id, swapped, source, a, b);
    } else {
      hide *;
      var p := swapped != e.swap;
      OperandsBelow(store, id);
      OperandsListed(e);
      forall r | r in Operands(e)
        ensures r in store
        ensures Meets(store, w.Says(store), r, Scene(a, Some(source)).Swapped(p)) ==
                Meets(store, w.Says(store), r, Scene(b, Some(source)).Swapped(p))
      {
        PartsIgnore(store, w, id, swapped, Some(source), r);
        TargetPlaysNoPart(store, w, r, p, source, a, b);
      }
      SwapTwice(Scene(a, Some(source)), swapped, e.swap);
      SwapTwice(Scene(b, Some(source)), swapped, e.swap);
      SameParts(store, w.Says(store), id, Scene(a, Some(source)).Swapped(swapped), Scene(b, Some(source)).Swapped(swapped));
    }
  }

  /** A combination of operands that mean the same means the same. */
  lemma SameParts(store: Store, facts: Facts, id: nat, s: Scene, t: Scene)
    requires WellFounded(store) && id in store && Combines(store[id].kind)
    requires var e := store[id];
             forall r :: r in Operands(e) ==>
               r in store && Meets(store, facts, r, s.Swapped(e.swap)) == Meets(store, facts, r, t.Swapped(e.swap))
    ensures Meets(store, facts, id, s) == Meets(store, facts, id, t)
  {
    hide Operands, Meets, U32, WellFounded;
    MeetsMeans(store, facts, id, s);
    MeetsMeans(store, facts, id, t);
    OperandsListed(store[id]);
  }

  /** A leaf that needs the target is never met without one, and that is what the server asks for. */
  lemma NeededLeafFails(store: Store, w: World, id: nat, source: nat)
    requires WellFounded(store) && id in store && store[id].kind.Leaf? && NeedsTarget(store, id, false)
    ensures !Meets(store, w.Says(store), id, Scene(None, Some(source)))
  {
    NeedsIff(w, Required(store[id].kind.code), store[id].swap, source);
    hide Required, Needs, World.Given;
  }

  // ---------------------------------------------------------------------------
  // What the test is worth
  // ---------------------------------------------------------------------------

  /** Entry `y` is reached from `id` through first and second values only; its operands, or the leaf, see `q`. */
  predicate Straight(store: Store, id: nat, swapped: bool, y: nat, q: bool)
    requires WellFounded(store) && id in store
    decreases id
  {
    MainsAndExtras(store, id);
    var p := swapped != store[id].swap;
    (id == y && p == q) || exists r :: r in Mains(store[id]) && Straight(store, r, p, y, q)
  }

  /** A leaf reached that way needs the target after swaps that come to `q`. */
  ghost predicate LeafNeeds(store: Store, id: nat, swapped: bool, q: bool)
    requires WellFounded(store) && id in store
  {
    exists y :: y in store && store[y].kind.Leaf? && Straight(store, id, swapped, y, q) && Needs(Required(store[y].kind.code), q)
  }

  /** An optional operand on the way needs the target. */
  ghost predicate ExtraNeeds(store: Store, id: nat, swapped: bool)
    requires WellFounded(store) && id in store
  {
    exists y, x, q :: ExtraNeedsAt(store, id, swapped, y, x, q)
  }

  predicate ExtraNeedsAt(store: Store, id: nat, swapped: bool, y: nat, x: nat, q: bool)
    requires WellFounded(store) && id in store
  {
    y in store && x in store && Straight(store, id, swapped, y, q) && x in Extras(store[y]) && NeedsTarget(store, x, q)
  }

  lemma NeedsTargetStep(store: Store, id: nat, swapped: bool)
    requires WellFounded(store) && id in store && Combines(store[id].kind)
    ensures var e := store[id];
            var p := swapped != e.swap;
            && Below(store, id, Mains(e)) && Below(store, id, Extras(e))
            && (NeedsTarget(store, id, swapped) <==>
                || (exists r :: r in Mains(e) && NeedsTarget(store, r, p))
                || (exists x :: x in Extras(e) && NeedsTarget(store, x, p)))
  {
    hide U32, Operands, WellFounded, Mains, Extras, Needs, Required;
    MainsAndExtras(store, id);
    var e := store[id];
    var p := swapped != e.swap;
    assert NeedsTarget(store, id, swapped) <==> exists r :: r in Operands(e) && NeedsTarget(store, r, p);
    forall r | r in Mains(e) || r in Extras(e)
      ensures r in store && r in Operands(e)
    {
    }
  }

  lemma LeafNeedsStep(store: Store, id: nat, swapped: bool, q: bool)
    requires WellFounded(store) && id in store && Combines(store[id].kind)
    ensures var e := store[id];
            && Below(store, id, Mains(e))
            && (LeafNeeds(store, id, swapped, q) <==> exists r :: r in Mains(e) && LeafNeeds(store, r, swapped != e.swap, q))
  {
    hide Mains, WellFounded, Needs, Required;
    MainsAndExtras(store, id);
    var e := store[id];
    var p := swapped != e.swap;
    if LeafNeeds(store, id, swapped, q) {
      var y :| y in store && store[y].kind.Leaf? && Straight(store, id, swapped, y, q) && Needs(Required(store[y].kind.code), q);
      var r :| r in Mains(e) && Straight(store, r, p, y, q);
      assert LeafNeeds(store, r, p, q);
    }
    if r :| r in Mains(e) && LeafNeeds(store, r, p, q) {
      var y :| y in store && store[y].kind.Leaf? && Straight(store, r, p, y, q) && Needs(Required(store[y].kind.code), q);
      assert Straight(store, id, swapped, y, q);
    }
  }

  lemma ExtraNeedsStep(store: Store, id: nat, swapped: bool)
    requires WellFounded(store) && id in store
    ensures var e := store[id];
            var p := swapped != e.swap;
            && Below(store, id, Mains(e)) && Below(store, id, Extras(e))
            && (ExtraNeeds(store, id, swapped) <==>
                || (exists x :: x in Extras(e) && NeedsTarget(store, x, p))
                || (exists r :: r in Mains(e) && ExtraNeeds(store, r, p)))
  {
    hide Extras, NeedsTarget, WellFounded, Mains;
    MainsAndExtras(store, id);
    var e := store[id];
    var p := swapped != e.swap;
    if ExtraNeeds(store, id, swapped) {
      var y, x, q :| ExtraNeedsAt(store, id, swapped, y, x, q);
      if !(y == id && q == p) {
        var r :| r in Mains(e) && Straight(store, r, p, y, q);
        assert ExtraNeedsAt(store, r, p, y, x, q);
      }
    }
    if x :| x in Extras(e) && NeedsTarget(store, x, p) {
      assert Straight(store, id, swapped, id, p);
      assert ExtraNeedsAt(store, id, swapped, id, x, p);
    }
    if r :| r in Mains(e) && ExtraNeeds(store, r, p) {
      var y, x, q :| ExtraNeedsAt(store, r, p, y, x, q);
      assert Straight(store, id, swapped, y, q);
      assert ExtraNeedsAt(store, id, swapped, y, x, q);
    }
  }

  lemma UsableStep(store: Store, id: nat)
    requires WellFounded(store) && id in store && Combines(store[id].kind)
    ensures var e := store[id];
            && Below(store, id, Mains(e))
            && (CanBeUsedWithoutPlayer(store, id) <==> forall r :: r in Mains(e) ==> CanBeUsedWithoutPlayer(store, r))
  {
    hide U32, WellFounded, Operands, Extras;
    OperandsBelow(store, id);
    MainsAndExtras(store, id);
    var e := store[id];
    assert Mains(e)[0] in Mains(e) && Mains(e)[|Mains(e)| - 1] in Mains(e);
  }

  lemma BelowAt(store: Store, id: nat, ids: seq<nat>, r: nat)
    requires Below(store, id, ids) && r in ids
    ensures r < id && r in store
  {
  }

  lemma OneEntry(store: Store, id: nat, swapped: bool, q: bool)
    requires WellFounded(store) && id in store && !Combines(store[id].kind)
    ensures var e := store[id];
            var p := swapped != e.swap;
            && !ExtraNeeds(store, id, swapped)
            && (NeedsTarget(store, id, swapped) <==> e.kind.Leaf? && Needs(Required(e.kind.code), p))
            && (LeafNeeds(store, id, swapped, q) <==> e.kind.Leaf? && p == q && Needs(Required(e.kind.code), p))
            && (CanBeUsedWithoutPlayer(store, id) <==> !(e.kind.Leaf? && Needs(Required(e.kind.code), false)))
  {
    hide WellFounded, Needs, Required;
    var e := store[id];
    NoExtrasOf(e);
    LeafHasNoOperands(e);
    assert e.kind.Nothing? ==> Operands(e) == [];
    assert Mains(e) == [];
    if e.kind.Leaf? {
      FreeIff(e.kind.code);
      assert Straight(store, id, swapped, id, swapped != e.swap);
    }
  }

  /** A condition needs the target exactly when a leaf does that the test looks at, or an optional operand that it does not. */
  lemma {:induction false} NeedsTargetIff(store: Store, id: nat, swapped: bool)
    requires WellFounded(store) && id in store
    ensures NeedsTarget(store, id, swapped) <==>
            LeafNeeds(store, id, swapped, false) || LeafNeeds(store, id, swapped, true) || ExtraNeeds(store, id, swapped)
    decreases id
  {
    var e := store[id];
    if Combines(e.kind) {
      hide *;
      NeedsTargetStep(store, id, swapped);
      LeafNeedsStep(store, id, swapped, false);
      LeafNeedsStep(store, id, swapped, true);
      ExtraNeedsStep(store, id, swapped);
      var p := swapped != e.swap;
      forall r | r in Mains(e)
        ensures r in store
        ensures NeedsTarget(store, r, p) <==>
                LeafNeeds(store, r, p, false) || LeafNeeds(store, r, p, true) || ExtraNeeds(store, r, p)
      {
        BelowAt(store, id, Mains(e), r);
        NeedsTargetIff(store, r, p);
      }
    } else {
      OneEntry(store, id, swapped, false);
      OneEntry(store, id, swapped, true);
    }
  }

  /** What the test permits has no need in a leaf whose swaps cancel out. */
  lemma {:induction false} PermittedLeaves(store: Store, id: nat, swapped: bool)
    requires WellFounded(store) && id in store && CanBeUsedWithoutPlayer(store, id)
    ensures !LeafNeeds(store, id, swapped, false)
    decreases id
  {
    var e := store[id];
    if Combines(e.kind) {
      hide *;
      LeafNeedsStep(store, id, swapped, false);
      UsableStep(store, id);
      forall r | r in Mains(e)
        ensures r in store && !LeafNeeds(store, r, swapped != e.swap, false)
      {
        BelowAt(store, id, Mains(e), r);
        PermittedLeaves(store, r, swapped != e.swap);
      }
    } else {
      OneEntry(store, id, swapped, false);
    }
  }

  /**
   What the answer is worth. A permission is wrong exactly when a leaf that the test looks at asks
   for the target once the flags on its way have swapped the two, or an optional operand on the way
   needs the target. A refusal is right exactly when one of these holds, or a leaf whose swaps
   cancel out asks for the target.
   */
  lemma UsableIff(store: Store, id: nat)
    requires WellFounded(store) && id in store
    ensures CanBeUsedWithoutPlayer(store, id) ==>
              (NeedsTarget(store, id, false) <==> LeafNeeds(store, id, false, true) || ExtraNeeds(store, id, false))
    ensures !CanBeUsedWithoutPlayer(store, id) ==>
              (NeedsTarget(store, id, false) <==>
               LeafNeeds(store, id, false, false) || LeafNeeds(store, id, false, true) || ExtraNeeds(store, id, false))
  {
    hide *;
    NeedsTargetIff(store, id, false);
    if CanBeUsedWithoutPlayer(store, id) {
      PermittedLeaves(store, id, false);
    }
  }

  /** No entry reached through first and second values swaps. */
  ghost predicate Unswapped(store: Store, id: nat)
    requires WellFounded(store) && id in store
  {
    forall y, q :: y in store && Straight(store, id, false, y, q) ==> !store[y].swap
  }

  lemma UnswappedPart(store: Store, id: nat, r: nat)
    requires WellFounded(store) && id in store && Unswapped(store, id) && r in Mains(store[id])
    ensures r < id && r in store && !store[id].swap && Unswapped(store, r)
  {
    hide WellFounded, Mains;
    MainsAndExtras(store, id);
    assert Straight(store, id, false, id, store[id].swap);
    forall y, q | y in store && Straight(store, r, false, y, q)
      ensures !store[y].swap
    {
      assert Straight(store, id, false, y, q);
    }
  }

  lemma {:induction false} UnswappedLeaves(store: Store, id: nat)
    requires WellFounded(store) && id in store && Unswapped(store, id)
    ensures !LeafNeeds(store, id, false, true)
    ensures !CanBeUsedWithoutPlayer(store, id) ==> LeafNeeds(store, id, false, false)
    decreases id
  {
    var e := store[id];
    if Combines(e.kind) {
      hide *;
      LeafNeedsStep(store, id, false, false);
      LeafNeedsStep(store, id, false, true);
      UsableStep(store, id);
      forall r | r in Mains(e)
        ensures r in store && !e.swap && !LeafNeeds(store, r, false, true)
        ensures !CanBeUsedWithoutPlayer(store, r) ==> LeafNeeds(store, r, false, false)
      {
        UnswappedPart(store, id, r);
        UnswappedLeaves(store, r);
      }
      MainsNotEmpty(e);
    } else {
      assert Straight(store, id, false, id, e.swap);
      OneEntry(store, id, false, false);
      OneEntry(store, id, false, true);
    }
  }

  lemma MainsNotEmpty(e: Entry)
    requires Combines(e.kind)
    ensures U32(e.value1) in Mains(e)
  {
    hide U32;
    assert Mains(e)[0] in Mains(e);
  }

  /** Without swaps a refusal is always right, and a permission is wrong only for an optional operand. */
  lemma UsableWithoutSwaps(store: Store, id: nat)
    requires WellFounded(store) && id in store && Unswapped(store, id)
    ensures !CanBeUsedWithoutPlayer(store, id) ==> NeedsTarget(store, id, false)
    ensures CanBeUsedWithoutPlayer(store, id) ==> (NeedsTarget(store, id, false) <==> ExtraNeeds(store, id, false))
  {
    hide *;
    UsableIff(store, id);
    UnswappedLeaves(store, id);
  }

  // ---------------------------------------------------------------------------
  // Wrong answers
  // ---------------------------------------------------------------------------

  function OneLeaf(code: nat): (store: Store)
  {
    map[1 := EMPTY.(kind := Leaf(code), swap := true)]
  }

  lemma OneLeafWellFounded(code: nat)
    ensures WellFounded(OneLeaf(code))
  {
    LeafHasNoOperands(OneLeaf(code)[1]);
  }

  /** A swapped leaf that asks for a unit as source is permitted, and never met without a target. */
  lemma SwappedSourceOverlooked(w: World, source: nat, target: nat)
    requires w.isKind(target, Unit) && w.outcome(1, Scene(Some(source), Some(target)))
    ensures var store := OneLeaf(13);
            && WellFounded(store) && CanBeUsedWithoutPlayer(store, 1) && NeedsTarget(store, 1, false)
            && !Meets(store, w.Says(store), 1, Scene(None, Some(source)))
            && Meets(store, w.Says(store), 1, Scene(Some(target), Some(source)))
  {
    OneLeafWellFounded(13);
  }

  /** A swapped leaf that asks for a unit as target is refused, and can be met without a target. */
  lemma SwappedTargetRefused(w: World, source: nat)
    requires w.isKind(source, Unit) && w.outcome(1, Scene(Some(source), None))
    ensures var store := OneLeaf(1);
            && WellFounded(store) && !CanBeUsedWithoutPlayer(store, 1) && !NeedsTarget(store, 1, false)
            && Meets(store, w.Says(store), 1, Scene(None, Some(source)))
  {
    OneLeafWellFounded(1);
  }

  const WITH_EXTRA: Store := map[1 := EMPTY, 2 := EMPTY.(kind := Leaf(7)), 3 := Entry(And, 1, 1, 2, 0, false, false)]

  /** An optional operand that needs a target is overlooked: the permitted condition is never met without one. */
  lemma ExtraOverlooked(w: World, source: nat)
    ensures WellFounded(WITH_EXTRA) && CanBeUsedWithoutPlayer(WITH_EXTRA, 3) && NeedsTarget(WITH_EXTRA, 3, false)
    ensures !Meets(WITH_EXTRA, w.Says(WITH_EXTRA), 3, Scene(None, Some(source)))
  {
    var store := WITH_EXTRA;
    assert Operands(store[1]) == [] && Operands(store[2]) == [] && Operands(store[3]) == [1, 1, 2];
    assert WellFounded(store);
    assert NeedsTarget(store, 2, false);
    assert 2 in Operands(store[3]);
    assert CanBeUsedWithoutPlayer(store, 1);
    assert !Meets(store, w.Says(store), 2, Scene(None, Some(source)));
  }
}
