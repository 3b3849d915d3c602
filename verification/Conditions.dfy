/**
 Conditions: entries of a store that combine other entries by their ids, the checks made when
 the store is loaded, and what a condition means.
 */
module Conditions {
  import opened Options
  import opened Integers

  // ---------------------------------------------------------------------------
  // Entries
  // ---------------------------------------------------------------------------

  /** The kinds that combine others, the empty condition, and those that look at the world. */
  datatype Kind = Not | Or | And | Nothing | Leaf(code: nat)

  /** The values are signed in the entry and read as uint32 ids. */
  datatype Entry = Entry(
    kind: Kind, value1: int, value2: int, value3: int, value4: int, reverse: bool, swap: bool)

  /** The empty condition, always met. */
  const EMPTY := Entry(Nothing, 0, 0, 0, 0, false, false)

  type Store = map<nat, Entry>

  predicate Combines(k: Kind) {
    k.Not? || k.Or? || k.And?
  }

  /** The ids of an optional operand. */
  function Extra(value: int): (ids: seq<nat>)
  {
    if value == 0 then [] else [U32(value)]
  }

  function Extras(e: Entry): (ids: seq<nat>)
  {
    if Combines(e.kind) then Extra(e.value3) + Extra(e.value4) else []
  }

  function Operands(e: Entry): (ids: seq<nat>)
  {
    match e.kind
    case Not => [U32(e.value1)] + Extras(e)
    case Or => [U32(e.value1), U32(e.value2)] + Extras(e)
    case And => [U32(e.value1), U32(e.value2)] + Extras(e)
    case Nothing => []
    case Leaf(_) => []
  }

  /** The ids are lower than `id` and have entries. */
  predicate Below(store: Store, id: nat, ids: seq<nat>) {
    forall r :: r in ids ==> r < id && r in store
  }

  /** Every operand has an entry with a lower id. */
  predicate WellFounded(store: Store) {
    forall id :: id in store ==> Below(store, id, Operands(store[id]))
  }

  // ---------------------------------------------------------------------------
  // Meaning
  // ---------------------------------------------------------------------------

  /** The objects that a condition looks at. */
  datatype Scene = Scene(target: Option<nat>, source: Option<nat>)
  {
    function Swapped(swap: bool): (s: Scene) {
      if swap then Scene(source, target) else this
    }
  }

  /** What the world says about leaf entries: whether their objects are there, and their outcome. */
  datatype Facts = Facts(present: (nat, Scene) -> bool, inner: (nat, Scene) -> bool)

  predicate Meets(store: Store, facts: Facts, id: nat, scene: Scene)
    requires WellFounded(store) && id in store
    decreases id, 1
  {
    var e := store[id];
    var s := scene.Swapped(e.swap);
    if e.kind.Leaf? && !facts.present(id, s) then false
    else
      var result := Evaluate(store, facts, id, s);
      if e.reverse then !result else result
  }

  predicate Evaluate(store: Store, facts: Facts, id: nat, scene: Scene)
    requires WellFounded(store) && id in store
    decreases id, 0
  {
    var e := store[id];
    assert Below(store, id, Operands(e));
    match e.kind
    case Not =>
      if e.value3 != 0 && Meets(store, facts, U32(e.value3), scene) then true
      else if e.value4 != 0 && Meets(store, facts, U32(e.value4), scene) then true
      else !Meets(store, facts, U32(e.value1), scene)
    case Or =>
      if e.value3 != 0 && Meets(store, facts, U32(e.value3), scene) then true
      else if e.value4 != 0 && Meets(store, facts, U32(e.value4), scene) then true
      else Meets(store, facts, U32(e.value1), scene) || Meets(store, facts, U32(e.value2), scene)
    case And =>
      var extra := e.value3 == 0 || Meets(store, facts, U32(e.value3), scene);
      var extra' := if e.value4 == 0 then extra else extra && Meets(store, facts, U32(e.value4), scene);
      extra' && Meets(store, facts, U32(e.value1), scene) && Meets(store, facts, U32(e.value2), scene)
    case Nothing => true
    case Leaf(_) => facts.inner(id, scene)
  }

  /** Formulas without negation, over positive and negative literals. */
  datatype Formula =
    | Yes
    | No
    | Present(id: nat, swapped: bool, positive: bool)
    | Inner(id: nat, swapped: bool, positive: bool)
    | Both(left: Formula, right: Formula)
    | Either(left: Formula, right: Formula)

  predicate Holds(f: Formula, facts: Facts, scene: Scene) {
    match f
    case Yes => true
    case No => false
    case Present(id, swapped, positive) => facts.present(id, scene.Swapped(swapped)) == positive
    case Inner(id, swapped, positive) => facts.inner(id, scene.Swapped(swapped)) == positive
    case Both(l, r) => Holds(l, facts, scene) && Holds(r, facts, scene)
    case Either(l, r) => Holds(l, facts, scene) || Holds(r, facts, scene)
  }

  function Joined(all: bool, l: Formula, r: Formula): (f: Formula)
  {
    if all then Both(l, r) else Either(l, r)
  }

  function Constant(b: bool): (f: Formula)
  {
    if b then Yes else No
  }

  /** The condition, or its negation, as a formula: flags and negations move down to the literals. */
  function NormalForm(store: Store, id: nat, swapped: bool, negated: bool): (f: Formula)
    requires WellFounded(store) && id in store
    decreases id, 1
  {
    var e := store[id];
    var s, n := swapped != e.swap, negated != e.reverse;
    assert Below(store, id, Operands(e));
    match e.kind
    case Not => Joined(n, OptionalForm(store, id, e, s, n, n), NormalForm(store, U32(e.value1), s, !n))
    case Or =>
      Joined(n, OptionalForm(store, id, e, s, n, n),
             Joined(n, NormalForm(store, U32(e.value1), s, n), NormalForm(store, U32(e.value2), s, n)))
    case And =>
      Joined(!n, OptionalForm(store, id, e, s, n, !n),
             Joined(!n, NormalForm(store, U32(e.value1), s, n), NormalForm(store, U32(e.value2), s, n)))
    case Nothing => Constant(!n)
    case Leaf(_) => Joined(!negated, Present(id, s, !negated), Inner(id, s, !n))
  }

  /** The optional operands, joined by and or by or; an absent one leaves the others alone. */
  function OptionalForm(store: Store, id: nat, e: Entry, s: bool, n: bool, all: bool): (f: Formula)
    requires WellFounded(store) && id in store && e == store[id] && Combines(e.kind)
    decreases id, 0
  {
    assert Below(store, id, Operands(e));
    Joined(all,
           if e.value3 == 0 then Constant(all) else NormalForm(store, U32(e.value3), s, n),
           if e.value4 == 0 then Constant(all) else NormalForm(store, U32(e.value4), s, n))
  }

  /** Every operand of an entry is lower and there. */
  predicate OperandsHere(store: Store, id: nat) {
    id in store ==>
      var e := store[id];
      && U32(e.value1) < id && U32(e.value1) in store
      && (!e.kind.Not? ==> U32(e.value2) < id && U32(e.value2) in store)
      && (e.value3 != 0 ==> U32(e.value3) < id && U32(e.value3) in store)
      && (e.value4 != 0 ==> U32(e.value4) < id && U32(e.value4) in store)
  }

  /** Where the operands of a combination are. */
  lemma OperandsBelow(store: Store, id: nat)
    requires WellFounded(store) && id in store && Combines(store[id].kind)
    ensures OperandsHere(store, id)
  {
    hide U32, Operands;
    var e := store[id];
    assert Below(store, id, Operands(e));
    OperandsListed(e);
  }

  lemma OperandsListed(e: Entry)
    requires Combines(e.kind)
    ensures U32(e.value1) in Operands(e)
    ensures !e.kind.Not? ==> U32(e.value2) in Operands(e)
    ensures e.value3 != 0 ==> U32(e.value3) in Operands(e)
    ensures e.value4 != 0 ==> U32(e.value4) in Operands(e)
  {
    hide U32;
    var ids := Operands(e);
    assert ids[0] in ids;
    if !e.kind.Not? {
      assert ids[1] in ids;
    }
    ExtrasListed(e);
    hide Extras;
    assert forall r :: r in Extras(e) ==> r in ids;
  }

  lemma ExtrasListed(e: Entry)
    requires Combines(e.kind)
    ensures e.value3 != 0 ==> U32(e.value3) in Extras(e)
    ensures e.value4 != 0 ==> U32(e.value4) in Extras(e)
  {
    hide U32;
    var ids := Extras(e);
    if e.value3 != 0 {
      assert ids[0] in ids;
    }
    if e.value4 != 0 {
      assert ids[|ids| - 1] in ids;
    }
  }

  lemma SwapTwice(scene: Scene, a: bool, b: bool)
    ensures scene.Swapped(a).Swapped(b) == scene.Swapped(a != b)
  {
  }

  lemma OptionalFormMeans(store: Store, facts: Facts, id: nat, s: bool, n: bool, all: bool, scene: Scene)
    requires WellFounded(store) && id in store && Combines(store[id].kind)
    ensures var e := store[id];
            && OperandsHere(store, id)
            && Holds(OptionalForm(store, id, e, s, n, all), facts, scene) ==
               var h3 := if e.value3 == 0 then all else Holds(NormalForm(store, U32(e.value3), s, n), facts, scene);
               var h4 := if e.value4 == 0 then all else Holds(NormalForm(store, U32(e.value4), s, n), facts, scene);
               if all then h3 && h4 else h3 || h4
  {
    OperandsBelow(store, id);
    hide NormalForm, U32, Below, Operands;
  }

  /** The formula of a combination from those of its operands. */
  lemma FormMeans(store: Store, facts: Facts, id: nat, scene: Scene, swapped: bool, negated: bool)
    requires WellFounded(store) && id in store && Combines(store[id].kind)
    ensures OperandsHere(store, id)
    ensures var e := store[id];
            var s, n := swapped != e.swap, negated != e.reverse;
            var all := if e.kind.And? then !n else n;
            var h1 := Holds(NormalForm(store, U32(e.value1), s, e.kind.Not? != n), facts, scene);
            var h2 := if e.kind.Not? then all else Holds(NormalForm(store, U32(e.value2), s, n), facts, scene);
            var h3 := if e.value3 == 0 then all else Holds(NormalForm(store, U32(e.value3), s, n), facts, scene);
            var h4 := if e.value4 == 0 then all else Holds(NormalForm(store, U32(e.value4), s, n), facts, scene);
            Holds(NormalForm(store, id, swapped, negated), facts, scene) ==
            if all then h1 && h2 && h3 && h4 else h1 || h2 || h3 || h4
  {
    hide U32, Below, Operands, WellFounded, OptionalForm;
    OperandsBelow(store, id);
    var e := store[id];
    var n := negated != e.reverse;
    OptionalFormMeans(store, facts, id, swapped != e.swap, n, if e.kind.And? then !n else n, scene);
  }

  /** What a combination means, given what its operands mean. */
  lemma MeetsMeans(store: Store, facts: Facts, id: nat, scene: Scene)
    requires WellFounded(store) && id in store && Combines(store[id].kind)
    ensures OperandsHere(store, id)
    ensures var e, s, and := store[id], scene.Swapped(store[id].swap), store[id].kind.And?;
            var m1 := e.kind.Not? != Meets(store, facts, U32(e.value1), s);
            var m2 := if e.kind.Not? then false else Meets(store, facts, U32(e.value2), s);
            var m3 := if e.value3 == 0 then and else Meets(store, facts, U32(e.value3), s);
            var m4 := if e.value4 == 0 then and else Meets(store, facts, U32(e.value4), s);
            Meets(store, facts, id, scene) == (e.reverse != if and then m1 && m2 && m3 && m4 else m1 || m2 || m3 || m4)
  {
    OperandsBelow(store, id);
    hide U32, Below, Operands;
  }

  /** The operands that are always there. */
  function Mains(e: Entry): (ids: seq<nat>)
  {
    if !Combines(e.kind) then [] else if e.kind.Not? then [U32(e.value1)] else [U32(e.value1), U32(e.value2)]
  }

  lemma OperandsAre(e: Entry)
    ensures Operands(e) == Mains(e) + Extras(e)
  {
    hide Extras, U32;
    if !Combines(e.kind) {
      NoExtrasOf(e);
    }
  }

  lemma MainsAndExtras(store: Store, id: nat)
    requires WellFounded(store) && id in store
    ensures var e := store[id];
            && Below(store, id, Mains(e)) && Below(store, id, Extras(e))
            && forall r :: r in Operands(e) <==> r in Mains(e) || r in Extras(e)
  {
    hide Operands, Mains, Extras;
    var e := store[id];
    OperandsAre(e);
    assert Below(store, id, Operands(e));
    forall r
      ensures r in Operands(e) <==> r in Mains(e) || r in Extras(e)
    {
      assert r in Operands(e) <==> r in Mains(e) + Extras(e);
    }
  }

  lemma NoExtrasOf(e: Entry)
    requires !Combines(e.kind)
    ensures Extras(e) == []
  {
  }

  /** One of the optional operands is met. */
  predicate SomeExtraMet(store: Store, facts: Facts, id: nat, scene: Scene)
    requires WellFounded(store) && id in store
  {
    MainsAndExtras(store, id);
    exists x :: x in Extras(store[id]) && Meets(store, facts, x, scene)
  }

  /** NOT is the opposite of its first condition except when that one and an optional one are both met. */
  lemma NotIsOppositeIff(store: Store, facts: Facts, id: nat, scene: Scene)
    requires WellFounded(store) && id in store && store[id].kind.Not?
    ensures OperandsHere(store, id)
    ensures var e, s := store[id], scene.Swapped(store[id].swap);
            Meets(store, facts, id, scene) == (e.reverse != !Meets(store, facts, U32(e.value1), s)) <==>
            !(Meets(store, facts, U32(e.value1), s) && SomeExtraMet(store, facts, id, s))
  {
    MeetsMeans(store, facts, id, scene);
    MainsAndExtras(store, id);
    ExtrasListed(store[id]);
    hide U32, Meets, WellFounded, Operands, Mains;
  }

  /** A condition means its formula, whatever the order of evaluation and the early returns. */
  lemma {:induction false} MeetsIsNormalForm(
    store: Store, facts: Facts, id: nat, scene: Scene, swapped: bool, negated: bool)
    requires WellFounded(store) && id in store
    ensures Holds(NormalForm(store, id, swapped, negated), facts, scene) ==
            (Meets(store, facts, id, scene.Swapped(swapped)) != negated)
    decreases id
  {
    var e := store[id];
    var s, n := swapped != e.swap, negated != e.reverse;
    if !Combines(e.kind) {
      LeafIsNormalForm(store, facts, id, scene, swapped, negated);
    } else {
      hide U32, Below, Operands, WellFounded, NormalForm, Meets, Holds;
      SwapTwice(scene, swapped, e.swap);
      FormMeans(store, facts, id, scene, swapped, negated);
      MeetsMeans(store, facts, id, scene.Swapped(swapped));
      MeetsIsNormalForm(store, facts, U32(e.value1), scene, s, e.kind.Not? != n);
      if !e.kind.Not? {
        MeetsIsNormalForm(store, facts, U32(e.value2), scene, s, n);
      }
      if e.value3 != 0 {
        MeetsIsNormalForm(store, facts, U32(e.value3), scene, s, n);
      }
      if e.value4 != 0 {
        MeetsIsNormalForm(store, facts, U32(e.value4), scene, s, n);
      }
    }
  }

  lemma LeafIsNormalForm(store: Store, facts: Facts, id: nat, scene: Scene, swapped: bool, negated: bool)
    requires WellFounded(store) && id in store && !Combines(store[id].kind)
    ensures Holds(NormalForm(store, id, swapped, negated), facts, scene) ==
            (Meets(store, facts, id, scene.Swapped(swapped)) != negated)
  {
    hide U32, Below, Operands, WellFounded;
    SwapTwice(scene, swapped, store[id].swap);
  }

  // ---------------------------------------------------------------------------
  // Loading
  // ---------------------------------------------------------------------------

  /** What the check of a leaf's own values decides. */
  datatype Verdict = Keep | Disable | Drop

  /** A leaf with pointless values becomes the empty condition with the opposite result. */
  function Disabled(e: Entry): (d: Entry)
  {
    e.(kind := Nothing, reverse := !e.reverse)
  }

  /** The operands that the check looks at; the optional ones of NOT are not among them. */
  function CheckedOperands(e: Entry): (ids: seq<nat>)
  {
    if e.kind.Not? then [U32(e.value1)] else Operands(e)
  }

  function Verified(store: Store, id: nat, verdicts: nat -> Verdict): (s: Store)
  {
    if id !in store then store
    else
      var e := store[id];
      if !Below(store, id, CheckedOperands(e)) || (e.kind.Leaf? && verdicts(id).Drop?) then store - {id}
      else if e.kind.Leaf? && verdicts(id).Disable? then store[id := Disabled(e)]
      else store
  }

  /** The store after the entries below `n` have been looked at. */
  function Loaded(store: Store, verdicts: nat -> Verdict, n: nat): (s: Store)
  {
    if n == 0 then store else Verified(Loaded(store, verdicts, n - 1), n - 1, verdicts)
  }

  class ConditionStorage {
    var entries: Store

    constructor (entries: Store)
      ensures this.entries == entries
    {
      this.entries := entries;
    }

    /** Looks at one entry; a leaf may be disabled. */
    method IsValid(id: nat, verdict: Verdict) returns (ok: bool)
      requires id in entries
      modifies this
      ensures var e := old(entries)[id];
              && (ok <==> Below(old(entries), id, CheckedOperands(e)) && (e.kind.Leaf? ==> !verdict.Drop?))
              && entries == if e.kind.Leaf? && verdict.Disable? then old(entries)[id := Disabled(e)] else old(entries)
    {
      var e := entries[id];
      match e.kind {
        case Not =>
          assert CheckedOperands(e)[0] in CheckedOperands(e);
          return U32(e.value1) < id && U32(e.value1) in entries;
        case Or =>
          ok := CheckOperands(id, e);
        case And =>
          ok := CheckOperands(id, e);
        case Nothing =>
          return true;
        case Leaf(_) =>
          if verdict.Disable? {
            entries := entries[id := Disabled(e)];
          }
          return !verdict.Drop?;
      }
    }

    method CheckOperands(id: nat, e: Entry) returns (ok: bool)
      requires e.kind.And? || e.kind.Or?
      ensures ok <==> Below(entries, id, Operands(e))
    {
      var ids := Operands(e);
      if U32(e.value1) >= id || U32(e.value2) >= id {
        assert ids[0] in ids && ids[1] in ids;
        return false;
      }
      if U32(e.value1) !in entries || U32(e.value2) !in entries {
        assert ids[0] in ids && ids[1] in ids;
        return false;
      }
      if e.value3 != 0 && (U32(e.value3) >= id || U32(e.value3) !in entries) {
        assert ids[2] in ids;
        return false;
      }
      if e.value4 != 0 && (U32(e.value4) >= id || U32(e.value4) !in entries) {
        assert ids[|ids| - 1] in ids;
        return false;
      }
      return true;
    }

    /** Looks at all entries in the order of their ids and erases the invalid ones. */
    method LoadConditions(max: nat, verdicts: nat -> Verdict)
      modifies this
      ensures entries == Loaded(old(entries), verdicts, max)
    {
      hide CheckedOperands, Disabled, Below;
      for i := 0 to max
        invariant entries == Loaded(old(entries), verdicts, i)
      {
        if i in entries {
          ghost var before := entries;
          var ok := IsValid(i, verdicts(i));
          if !ok {
            assert entries - {i} == before - {i};
            entries := entries - {i};
          }
        }
      }
    }
  }

  /** Looking at one entry changes no other. */
  lemma VerifiedOthers(store: Store, id: nat, verdicts: nat -> Verdict, j: nat)
    requires j != id
    ensures var s := Verified(store, id, verdicts);
            (j in s <==> j in store) && (j in store ==> s[j] == store[j])
  {
  }

  /** An entry is as it was when its turn came, before that as it was at first. */
  lemma {:induction false} LoadedOthers(store: Store, verdicts: nat -> Verdict, m: nat, n: nat, j: nat)
    requires m <= n && (j < m || n <= j)
    ensures var a, b := Loaded(store, verdicts, m), Loaded(store, verdicts, n);
            (j in a <==> j in b) && (j in a ==> a[j] == b[j])
    decreases n
  {
    hide Verified;
    if m < n {
      LoadedOthers(store, verdicts, m, n - 1, j);
      VerifiedOthers(Loaded(store, verdicts, n - 1), n - 1, verdicts, j);
    }
  }

  /**
   Which entries are left: leaves that are not dropped, and combinations whose checked operands are
   lower and are left too.
   */
  lemma LoadedIff(store: Store, verdicts: nat -> Verdict, max: nat, id: nat)
    requires id < max
    ensures var s := Loaded(store, verdicts, max);
            && (id in s <==> id in store && !(store[id].kind.Leaf? && verdicts(id).Drop?)
                               && Below(s, id, CheckedOperands(store[id])))
            && (id in s ==> s[id] == if store[id].kind.Leaf? && verdicts(id).Disable? then Disabled(store[id]) else store[id])
  {
    hide CheckedOperands, Loaded, Disabled;
    var before, after, s := Loaded(store, verdicts, id), Loaded(store, verdicts, id + 1), Loaded(store, verdicts, max);
    LoadedStep(store, verdicts, id);
    LoadedOthers(store, verdicts, 0, id, id);
    LoadedOthers(store, verdicts, id + 1, max, id);
    LoadedZero(store, verdicts);
    forall r: nat | r < id
      ensures r in before <==> r in s
    {
      LoadedOthers(store, verdicts, id, max, r);
    }
  }

  lemma LoadedStep(store: Store, verdicts: nat -> Verdict, n: nat)
    ensures Loaded(store, verdicts, n + 1) == Verified(Loaded(store, verdicts, n), n, verdicts)
  {
  }

  lemma LoadedZero(store: Store, verdicts: nat -> Verdict)
    ensures Loaded(store, verdicts, 0) == store
  {
  }

  lemma {:induction false} LoadedSubset(store: Store, verdicts: nat -> Verdict, n: nat)
    ensures Loaded(store, verdicts, n).Keys <= store.Keys
  {
    if n > 0 {
      LoadedSubset(store, verdicts, n - 1);
    }
  }

  /** The operands that the check of NOT leaves out are in order. */
  predicate NotExtrasBelow(store: Store) {
    forall id :: id in store && store[id].kind.Not? ==> Below(store, id, Extras(store[id]))
  }

  /**
   After loading every operand is lower and present, which is enough for an evaluation to end,
   exactly when the optional operands of NOT entries happen to be.
   */
  lemma LoadedWellFoundedIff(store: Store, verdicts: nat -> Verdict, max: nat)
    requires forall id :: id in store ==> id < max
    ensures var s := Loaded(store, verdicts, max); WellFounded(s) <==> NotExtrasBelow(s)
  {
    hide Loaded;
    var s := Loaded(store, verdicts, max);
    LoadedSubset(store, verdicts, max);
    forall id | id in s
      ensures Below(s, id, CheckedOperands(s[id]))
    {
      LoadedIff(store, verdicts, max, id);
    }
    hide Extras, Verified;
    forall id | id in s
      ensures Below(s, id, Operands(s[id])) <==> (s[id].kind.Not? ==> Below(s, id, Extras(s[id])))
    {
      OperandsSplit(s, id, s[id]);
    }
  }

  lemma OperandsSplit(store: Store, id: nat, e: Entry)
    requires Below(store, id, CheckedOperands(e))
    ensures Below(store, id, Operands(e)) <==> (e.kind.Not? ==> Below(store, id, Extras(e)))
  {
    hide Extras, U32;
    if e.kind.Not? {
      var ids := [U32(e.value1)];
      assert ids[0] in ids;
      assert forall r :: r in Operands(e) <==> r in ids || r in Extras(e);
    }
  }

  /** A NOT entry whose third value is its own id passes the check. */
  lemma SelfReferencePasses(verdicts: nat -> Verdict)
    ensures var store := map[1 := EMPTY, 2 := Entry(Not, 1, 0, 2, 0, false, false)];
            Loaded(store, verdicts, 3) == store && !WellFounded(store)
  {
    var store: Store := map[1 := EMPTY, 2 := Entry(Not, 1, 0, 2, 0, false, false)];
    assert Verified(store, 0, verdicts) == Verified(store, 1, verdicts) == Verified(store, 2, verdicts) == store;
    LoadedZero(store, verdicts);
    LoadedStep(store, verdicts, 0);
    LoadedStep(store, verdicts, 1);
    LoadedStep(store, verdicts, 2);
    assert Operands(store[2]) == [1, 2];
    assert 2 in Operands(store[2]);
  }

  // ---------------------------------------------------------------------------
  // Disabled leaves
  // ---------------------------------------------------------------------------

  /** The same facts except that the outcome of leaf `d` is false. */
  function Falsified(facts: Facts, d: nat): (f: Facts)
  {
    Facts(facts.present, (id: nat, scene) => id != d && facts.inner(id, scene))
  }

  /** A leaf whose result is not reversed, or whose objects are there from either side. */
  predicate Harmless(store: Store, facts: Facts, d: nat, scene: Scene)
    requires d in store
  {
    !store[d].reverse || (facts.present(d, scene) && facts.present(d, scene.Swapped(true)))
  }

  lemma DisabledWellFounded(store: Store, d: nat)
    requires WellFounded(store) && d in store
    ensures WellFounded(store[d := Disabled(store[d])])
  {
    hide Operands;
    assert Operands(Disabled(store[d])) == [] by {
      NoOperands(Disabled(store[d]));
    }
  }

  lemma NoOperands(e: Entry)
    requires e.kind.Nothing?
    ensures Operands(e) == []
  {
  }

  /** A disabled leaf means what a false outcome means exactly when it is not reversed or its objects are there. */
  lemma DisabledLeafIff(store: Store, facts: Facts, d: nat, scene: Scene)
    requires WellFounded(store) && d in store && store[d].kind.Leaf?
    ensures WellFounded(store[d := Disabled(store[d])])
    ensures Meets(store[d := Disabled(store[d])], facts, d, scene) == Meets(store, Falsified(facts, d), d, scene)
            <==> !store[d].reverse || facts.present(d, scene.Swapped(store[d].swap))
  {
    DisabledWellFounded(store, d);
  }

  /** Then it does so anywhere in the graph. */
  lemma {:induction false} DisabledMeansFalse(store: Store, facts: Facts, d: nat, id: nat, scene: Scene)
    requires WellFounded(store) && d in store && store[d].kind.Leaf? && id in store && Harmless(store, facts, d, scene)
    ensures WellFounded(store[d := Disabled(store[d])])
    ensures Meets(store[d := Disabled(store[d])], facts, id, scene) == Meets(store, Falsified(facts, d), id, scene)
    decreases id
  {
    hide U32, Below, Operands, WellFounded;
    DisabledWellFounded(store, d);
    if id == d {
      DisabledLeafIff(store, facts, d, scene);
    } else {
      var e, s := store[id], scene.Swapped(store[id].swap);
      if Combines(e.kind) {
        OperandsBelow(store, id);
        DisabledMeansFalse(store, facts, d, U32(e.value1), s);
        if !e.kind.Not? {
          DisabledMeansFalse(store, facts, d, U32(e.value2), s);
        }
        if e.value3 != 0 {
          DisabledMeansFalse(store, facts, d, U32(e.value3), s);
        }
        if e.value4 != 0 {
          DisabledMeansFalse(store, facts, d, U32(e.value4), s);
        }
      }
    }
  }
}
