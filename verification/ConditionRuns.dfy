/**
 Evaluation of a condition on any store, well founded or not: it is followed step by step with a
 bound on its depth, so that it can end with a result, meet an absent entry, or go on for ever.
 */
module ConditionRuns {
  import opened Options
  import opened Integers
  import opened Conditions

  /** An absent entry is a null pointer in the server. */
  datatype Outcome = Result(met: bool) | Absent | Unfinished

  /** The operands in the order in which they are evaluated. */
  function Order(e: Entry): (ids: seq<nat>)
  {
    Extras(e) + Mains(e)
  }

  /** What operand `k` says about the entry: NOT turns its last operand round. */
  function Says(e: Entry, k: nat, met: bool): (b: bool)
  {
    if e.kind.Not? && k == |Order(e)| - 1 then !met else met
  }

  /** Evaluation of an entry at most `fuel` entries deep. */
  function Run(store: Store, facts: Facts, id: nat, scene: Scene, fuel: nat): (o: Outcome)
    decreases fuel, 0, 0
  {
    if id !in store then Absent
    else if fuel == 0 then Unfinished
    else
      var e := store[id];
      var s := scene.Swapped(e.swap);
      if e.kind.Leaf? && !facts.present(id, s) then Result(false)
      else
        var o := if e.kind.Leaf? then Result(facts.inner(id, s))
                 else if e.kind.Nothing? then Result(true)
                 else RunFrom(store, facts, e, 0, s, fuel - 1);
        if o.Result? then Result(o.met != e.reverse) else o
  }

  /** Evaluation of the operands from number `k` on, until one decides. */
  function RunFrom(store: Store, facts: Facts, e: Entry, k: nat, scene: Scene, fuel: nat): (o: Outcome)
    decreases fuel, 1, |Order(e)| - k
  {
    if k >= |Order(e)| then Result(e.kind.And?)
    else
      var o := Run(store, facts, Order(e)[k], scene, fuel);
      if !o.Result? then o
      else if Says(e, k, o.met) != e.kind.And? then Result(Says(e, k, o.met))
      else RunFrom(store, facts, e, k + 1, scene, fuel)
  }

  ghost predicate Ends(store: Store, facts: Facts, id: nat, scene: Scene) {
    exists fuel: nat :: Run(store, facts, id, scene, fuel).Result?
  }

  /** More depth changes nothing but an unfinished evaluation. */
  lemma {:induction false} MoreFuel(store: Store, facts: Facts, id: nat, scene: Scene, fuel: nat, more: nat)
    requires fuel <= more && !Run(store, facts, id, scene, fuel).Unfinished?
    ensures Run(store, facts, id, scene, more) == Run(store, facts, id, scene, fuel)
    decreases fuel, 0, 0
  {
    hide Order, Says;
    if id in store && Combines(store[id].kind) {
      MoreFuelFrom(store, facts, store[id], 0, scene.Swapped(store[id].swap), fuel - 1, more - 1);
    }
  }

  lemma {:induction false} MoreFuelFrom(store: Store, facts: Facts, e: Entry, k: nat, scene: Scene, fuel: nat, more: nat)
    requires fuel <= more && !RunFrom(store, facts, e, k, scene, fuel).Unfinished?
    ensures RunFrom(store, facts, e, k, scene, more) == RunFrom(store, facts, e, k, scene, fuel)
    decreases fuel, 1, |Order(e)| - k
  {
    hide Order, Says;
    if k < |Order(e)| {
      MoreFuel(store, facts, Order(e)[k], scene, fuel, more);
      var o := Run(store, facts, Order(e)[k], scene, fuel);
      if o.Result? && Says(e, k, o.met) == e.kind.And? {
        MoreFuelFrom(store, facts, e, k + 1, scene, fuel, more);
      }
    }
  }

  /** Two finished evaluations of one entry agree. */
  lemma SameResult(store: Store, facts: Facts, id: nat, scene: Scene, f: nat, g: nat)
    requires Run(store, facts, id, scene, f).Result? && !Run(store, facts, id, scene, g).Unfinished?
    ensures Run(store, facts, id, scene, f) == Run(store, facts, id, scene, g)
  {
    hide Run;
    if f <= g {
      MoreFuel(store, facts, id, scene, f, g);
    } else {
      MoreFuel(store, facts, id, scene, g, f);
    }
  }

  // ---------------------------------------------------------------------------
  // On well-founded stores
  // ---------------------------------------------------------------------------

  lemma OrderBelow(store: Store, id: nat)
    requires WellFounded(store) && id in store
    ensures forall k :: 0 <= k < |Order(store[id])| ==> Order(store[id])[k] < id && Order(store[id])[k] in store
  {
    MainsAndExtras(store, id);
    hide Mains, Extras, WellFounded, Operands;
    var e := store[id];
    forall k | 0 <= k < |Order(e)|
      ensures Order(e)[k] < id && Order(e)[k] in store
    {
      assert Order(e)[k] in Extras(e) || Order(e)[k] in Mains(e);
    }
  }

  /** The result of the operands from number `k` on, when all of them are known. */
  predicate MeetsFrom(store: Store, facts: Facts, id: nat, k: nat, scene: Scene)
    requires WellFounded(store) && id in store
    decreases |Order(store[id])| - k
  {
    OrderBelow(store, id);
    var e := store[id];
    if k >= |Order(e)| then e.kind.And?
    else
      var b := Says(e, k, Meets(store, facts, Order(e)[k], scene));
      if e.kind.And? then b && MeetsFrom(store, facts, id, k + 1, scene) else b || MeetsFrom(store, facts, id, k + 1, scene)
  }

  lemma OrderIs(e: Entry)
    requires Combines(e.kind)
    ensures var ids, n := Order(e), |Extra(e.value3)| + |Extra(e.value4)|;
            && |ids| == n + (if e.kind.Not? then 1 else 2)
            && (e.value3 != 0 ==> ids[0] == U32(e.value3))
            && (e.value4 != 0 ==> ids[n - 1] == U32(e.value4))
            && ids[n] == U32(e.value1) && (!e.kind.Not? ==> ids[n + 1] == U32(e.value2))
  {
    hide U32;
  }

  lemma MeetsFromStep(store: Store, facts: Facts, id: nat, k: nat, scene: Scene)
    requires WellFounded(store) && id in store && k < |Order(store[id])|
    ensures Order(store[id])[k] in store
    ensures var e := store[id];
            var b := Says(e, k, Meets(store, facts, Order(e)[k], scene));
            MeetsFrom(store, facts, id, k, scene) ==
            if e.kind.And? then b && MeetsFrom(store, facts, id, k + 1, scene) else b || MeetsFrom(store, facts, id, k + 1, scene)
  {
    hide Order, Meets, WellFounded, Says;
    OrderBelow(store, id);
  }

  lemma MeetsFromEnd(store: Store, facts: Facts, id: nat, scene: Scene)
    requires WellFounded(store) && id in store
    ensures MeetsFrom(store, facts, id, |Order(store[id])|, scene) == store[id].kind.And?
  {
    hide Order, Meets, WellFounded, Says;
  }

  /** A combination means what its operands mean, taken in their order. */
  lemma MeetsIsMeetsFrom(store: Store, facts: Facts, id: nat, scene: Scene)
    requires WellFounded(store) && id in store && Combines(store[id].kind)
    ensures Meets(store, facts, id, scene) ==
            (store[id].reverse != MeetsFrom(store, facts, id, 0, scene.Swapped(store[id].swap)))
  {
    var e, s := store[id], scene.Swapped(store[id].swap);
    var n := |Extra(e.value3)| + |Extra(e.value4)|;
    MeetsMeans(store, facts, id, scene);
    OrderIs(e);
    hide Order, Meets, WellFounded, MeetsFrom, U32, Below, Operands;
    MeetsFromEnd(store, facts, id, s);
    MeetsFromStep(store, facts, id, n, s);
    if !e.kind.Not? {
      MeetsFromStep(store, facts, id, n + 1, s);
    }
    if e.value4 != 0 {
      MeetsFromStep(store, facts, id, n - 1, s);
    }
    if e.value3 != 0 {
      MeetsFromStep(store, facts, id, 0, s);
    }
  }

  lemma RunOfLeaf(store: Store, facts: Facts, id: nat, scene: Scene, fuel: nat)
    requires WellFounded(store) && id in store && !Combines(store[id].kind) && 0 < fuel
    ensures Run(store, facts, id, scene, fuel) == Result(Meets(store, facts, id, scene))
  {
    hide WellFounded, RunFrom;
  }

  lemma RunOfCombination(store: Store, facts: Facts, id: nat, scene: Scene, fuel: nat)
    requires id in store && Combines(store[id].kind) && 0 < fuel
    ensures var o := RunFrom(store, facts, store[id], 0, scene.Swapped(store[id].swap), fuel - 1);
            Run(store, facts, id, scene, fuel) == if o.Result? then Result(o.met != store[id].reverse) else o
  {
    hide RunFrom;
  }

  /** On a well-founded store every evaluation ends, with the meaning of the condition. */
  lemma {:induction false} RunIsMeets(store: Store, facts: Facts, id: nat, scene: Scene, fuel: nat)
    requires WellFounded(store) && id in store && id < fuel
    ensures Run(store, facts, id, scene, fuel) == Result(Meets(store, facts, id, scene))
    decreases fuel, 0, 0
  {
    hide *;
    if Combines(store[id].kind) {
      MeetsIsMeetsFrom(store, facts, id, scene);
      RunOfCombination(store, facts, id, scene, fuel);
      RunFromIsMeets(store, facts, id, 0, scene.Swapped(store[id].swap), fuel - 1);
    } else {
      RunOfLeaf(store, facts, id, scene, fuel);
    }
  }

  lemma {:induction false} RunFromIsMeets(store: Store, facts: Facts, id: nat, k: nat, scene: Scene, fuel: nat)
    requires WellFounded(store) && id in store && id <= fuel && k <= |Order(store[id])|
    ensures RunFrom(store, facts, store[id], k, scene, fuel) == Result(MeetsFrom(store, facts, id, k, scene))
    decreases fuel, 1, |Order(store[id])| - k
  {
    hide Order, Meets, WellFounded, MeetsFrom, Says;
    OrderBelow(store, id);
    if k == |Order(store[id])| {
      MeetsFromEnd(store, facts, id, scene);
    } else {
      MeetsFromStep(store, facts, id, k, scene);
      RunIsMeets(store, facts, Order(store[id])[k], scene, fuel);
      RunFromIsMeets(store, facts, id, k + 1, scene, fuel);
    }
  }

  // ---------------------------------------------------------------------------
  // When an evaluation ends
  // ---------------------------------------------------------------------------

  /** An entry being evaluated for a target and a source. */
  datatype Visit = Visit(id: nat, scene: Scene)

  /** Operand `k` ends without deciding. */
  ghost predicate Passes(store: Store, facts: Facts, e: Entry, k: nat, scene: Scene)
    requires k < |Order(e)|
  {
    exists fuel: nat :: PassesWith(store, facts, e, k, scene, fuel)
  }

  predicate PassesWith(store: Store, facts: Facts, e: Entry, k: nat, scene: Scene, fuel: nat)
    requires k < |Order(e)|
  {
    var o := Run(store, facts, Order(e)[k], scene, fuel);
    o.Result? && Says(e, k, o.met) == e.kind.And?
  }

  /** Evaluation gets as far as operand `k`. */
  ghost predicate Asked(store: Store, facts: Facts, e: Entry, k: nat, scene: Scene) {
    k < |Order(e)| && forall j: nat :: j < k ==> Passes(store, facts, e, j, scene)
  }

  /** Evaluating `v` asks for `w`, as operand `k`. */
  ghost predicate AsksAt(store: Store, facts: Facts, v: Visit, w: Visit, k: nat) {
    && v.id in store
    && var e := store[v.id];
       && Asked(store, facts, e, k, v.scene.Swapped(e.swap))
       && w == Visit(Order(e)[k], v.scene.Swapped(e.swap))
  }

  ghost predicate Asks(store: Store, facts: Facts, v: Visit, w: Visit) {
    exists k: nat :: AsksAt(store, facts, v, w, k)
  }

  /** Each visit asks for the next one. */
  ghost predicate IsPath(store: Store, facts: Facts, p: seq<Visit>) {
    p != [] && forall i :: 0 <= i < |p| - 1 ==> Asks(store, facts, p[i], p[i + 1])
  }

  /** The path ends at an absent entry, or where it has been before. */
  ghost predicate Stuck(store: Store, p: seq<Visit>) {
    p != [] && (p[|p| - 1].id !in store || exists i :: 0 <= i < |p| - 1 && p[i] == p[|p| - 1])
  }

  ghost predicate Trapped(store: Store, facts: Facts, v: Visit) {
    exists p :: p != [] && IsPath(store, facts, p) && p[0] == v && Stuck(store, p)
  }

  lemma {:induction false} RunFromReaches(store: Store, facts: Facts, e: Entry, j: nat, k: nat, scene: Scene, fuel: nat)
    requires j <= k && Asked(store, facts, e, k, scene) && RunFrom(store, facts, e, j, scene, fuel).Result?
    ensures RunFrom(store, facts, e, k, scene, fuel).Result? && Run(store, facts, Order(e)[k], scene, fuel).Result?
    decreases k - j
  {
    hide Order, Run, Says;
    if j < k {
      assert Passes(store, facts, e, j, scene);
      var f: nat :| PassesWith(store, facts, e, j, scene, f);
      SameResult(store, facts, Order(e)[j], scene, f, fuel);
      RunFromReaches(store, facts, e, j + 1, k, scene, fuel);
    }
  }

  /** What an evaluation that ends asks for ends one entry deeper. */
  lemma AskedEnds(store: Store, facts: Facts, v: Visit, w: Visit, fuel: nat)
    requires Asks(store, facts, v, w) && Run(store, facts, v.id, v.scene, fuel).Result?
    ensures fuel > 0 && Run(store, facts, w.id, w.scene, fuel - 1).Result?
  {
    var k: nat :| AsksAt(store, facts, v, w, k);
    var e := store[v.id];
    OrderEmpty(e);
    hide Order, Says;
    RunFromReaches(store, facts, e, 0, k, v.scene.Swapped(e.swap), fuel - 1);
  }

  lemma OrderEmpty(e: Entry)
    ensures !Combines(e.kind) ==> Order(e) == []
  {
  }

  lemma {:induction false} PathEnds(store: Store, facts: Facts, p: seq<Visit>, i: nat, fuel: nat)
    requires IsPath(store, facts, p) && i < |p| && Run(store, facts, p[0].id, p[0].scene, fuel).Result?
    ensures i <= fuel && Run(store, facts, p[i].id, p[i].scene, fuel - i).Result?
    decreases i
  {
    hide Run, Asks;
    if i > 0 {
      PathEnds(store, facts, p, i - 1, fuel);
      assert Asks(store, facts, p[i - 1], p[i - 1 + 1]);
      AskedEnds(store, facts, p[i - 1], p[i], fuel - (i - 1));
    }
  }

  /** The least depth at which an evaluation ends. */
  lemma {:induction false} LeastFuel(store: Store, facts: Facts, v: Visit, fuel: nat) returns (least: nat)
    requires Run(store, facts, v.id, v.scene, fuel).Result?
    ensures least <= fuel && Run(store, facts, v.id, v.scene, least).Result?
    ensures forall f: nat :: f < least ==> !Run(store, facts, v.id, v.scene, f).Result?
    decreases fuel
  {
    hide Run;
    if f: nat :| f < fuel && Run(store, facts, v.id, v.scene, f).Result? {
      least := LeastFuel(store, facts, v, f);
    } else {
      least := fuel;
    }
  }

  lemma TrappedNeverEnds(store: Store, facts: Facts, v: Visit)
    requires Trapped(store, facts, v)
    ensures !Ends(store, facts, v.id, v.scene)
  {
    hide Run, IsPath;
    var p :| p != [] && IsPath(store, facts, p) && p[0] == v && Stuck(store, p);
    var n := |p| - 1;
    forall fuel: nat
      ensures !Run(store, facts, v.id, v.scene, fuel).Result?
    {
      if Run(store, facts, v.id, v.scene, fuel).Result? {
        PathEnds(store, facts, p, n, fuel);
        ResultIsPresent(store, facts, p[n], fuel - n);
        var i :| 0 <= i < n && p[i] == p[n];
        PathEnds(store, facts, p, i, fuel);
        var least := LeastFuel(store, facts, p[i], fuel - i);
        PathTail(store, facts, p, i);
        PathEnds(store, facts, p[i..], n - i, least);
      }
    }
  }

  lemma PathTail(store: Store, facts: Facts, p: seq<Visit>, i: nat)
    requires IsPath(store, facts, p) && i < |p|
    ensures IsPath(store, facts, p[i..])
  {
    hide Asks;
    forall j | 0 <= j < |p[i..]| - 1
      ensures Asks(store, facts, p[i..][j], p[i..][j + 1])
    {
      assert Asks(store, facts, p[i + j], p[i + j + 1]);
    }
  }

  lemma ResultIsPresent(store: Store, facts: Facts, v: Visit, fuel: nat)
    requires Run(store, facts, v.id, v.scene, fuel).Result?
    ensures v.id in store
  {
  }

  /** All visits that an evaluation can make. */
  ghost function Visits(store: Store, scene: Scene): (s: set<Visit>)
  {
    (set id | id in store :: Visit(id, scene)) + (set id | id in store :: Visit(id, scene.Swapped(true)))
  }

  lemma AsksStays(store: Store, facts: Facts, v: Visit, w: Visit, scene: Scene)
    requires Asks(store, facts, v, w) && v in Visits(store, scene) && w.id in store
    ensures w in Visits(store, scene)
  {
    hide Asked, Order;
    var k: nat :| AsksAt(store, facts, v, w, k);
    assert w.scene == v.scene || w.scene == v.scene.Swapped(true);
    assert scene.Swapped(true).Swapped(true) == scene;
  }

  lemma {:induction false} DistinctFit<T>(p: seq<T>, s: set<T>)
    requires (forall i :: 0 <= i < |p| ==> p[i] in s) && forall i, j :: 0 <= i < j < |p| ==> p[i] != p[j]
    ensures |p| <= |s|
    decreases |p|
  {
    if p != [] {
      var n := |p| - 1;
      forall i | 0 <= i < n
        ensures p[..n][i] in s - {p[n]}
      {
      }
      DistinctFit(p[..n], s - {p[n]});
    }
  }

  /** A path without a trap, among the visits that can be made. */
  ghost predicate Open(store: Store, facts: Facts, p: seq<Visit>, scene: Scene) {
    && IsPath(store, facts, p)
    && (forall i :: 0 <= i < |p| ==> p[i] in Visits(store, scene))
    && (forall i, j :: 0 <= i < j < |p| ==> p[i] != p[j])
  }

  lemma OpenExtends(store: Store, facts: Facts, p: seq<Visit>, scene: Scene, w: Visit)
    requires Open(store, facts, p, scene) && Asks(store, facts, p[|p| - 1], w)
    requires !Trapped(store, facts, p[0])
    ensures Open(store, facts, p + [w], scene) && (p + [w])[0] == p[0]
  {
    hide Asks;
    var q := p + [w];
    forall i | 0 <= i < |q| - 1
      ensures Asks(store, facts, q[i], q[i + 1])
    {
      assert i < |p| - 1 ==> Asks(store, facts, p[i], p[i + 1]);
    }
    assert IsPath(store, facts, q);
    assert !Stuck(store, q);
    assert w.id in store;
    AsksStays(store, facts, p[|p| - 1], w, scene);
    forall i | 0 <= i < |p|
      ensures p[i] != w
    {
      assert q[i] == p[i];
    }
    hide Visits;
  }

  lemma {:induction false} OpenEnds(store: Store, facts: Facts, p: seq<Visit>, scene: Scene)
    requires Open(store, facts, p, scene) && !Trapped(store, facts, p[0])
    ensures Ends(store, facts, p[|p| - 1].id, p[|p| - 1].scene)
    decreases |Visits(store, scene)| - |p|, 1, 0
  {
    hide Trapped, Visits, Run;
    var v := p[|p| - 1];
    VisitPresent(store, v, scene);
    DistinctFit(p, Visits(store, scene));
    var e := store[v.id];
    if Combines(e.kind) {
      AskedFirst(store, facts, e, v.scene.Swapped(e.swap));
      var fuel := OperandsEnd(store, facts, p, scene, 0);
      RunEnds(store, facts, v, fuel);
    } else {
      LeafEnds(store, facts, v);
    }
  }

  lemma VisitPresent(store: Store, v: Visit, scene: Scene)
    requires v in Visits(store, scene)
    ensures v.id in store
  {
  }

  lemma AskedFirst(store: Store, facts: Facts, e: Entry, scene: Scene)
    requires Combines(e.kind)
    ensures Asked(store, facts, e, 0, scene)
  {
    OrderIs(e);
    hide Order;
  }

  lemma RunEnds(store: Store, facts: Facts, v: Visit, fuel: nat)
    requires v.id in store && Combines(store[v.id].kind)
    requires RunFrom(store, facts, store[v.id], 0, v.scene.Swapped(store[v.id].swap), fuel).Result?
    ensures Ends(store, facts, v.id, v.scene)
  {
    hide Order, RunFrom;
    assert Run(store, facts, v.id, v.scene, fuel + 1).Result?;
  }

  lemma LeafEnds(store: Store, facts: Facts, v: Visit)
    requires v.id in store && !Combines(store[v.id].kind)
    ensures Ends(store, facts, v.id, v.scene)
  {
    assert Run(store, facts, v.id, v.scene, 1).Result?;
  }

  /** From an operand that is asked for on, everything ends. */
  lemma {:induction false} OperandsEnd(store: Store, facts: Facts, p: seq<Visit>, scene: Scene, k: nat) returns (fuel: nat)
    requires Open(store, facts, p, scene) && !Trapped(store, facts, p[0]) && p[|p| - 1].id in store
    requires |p| <= |Visits(store, scene)|
    requires var v := p[|p| - 1]; Asked(store, facts, store[v.id], k, v.scene.Swapped(store[v.id].swap))
    ensures var v := p[|p| - 1];
            RunFrom(store, facts, store[v.id], k, v.scene.Swapped(store[v.id].swap), fuel).Result?
    decreases |Visits(store, scene)| - |p|, 0, |Order(store[p[|p| - 1].id])| - k
  {
    hide Trapped, Visits, Run, Order, Says, RunFrom;
    var v := p[|p| - 1];
    var e := store[v.id];
    var s := v.scene.Swapped(e.swap);
    var w := Visit(Order(e)[k], s);
    assert AsksAt(store, facts, v, w, k);
    OpenExtends(store, facts, p, scene, w);
    OpenFits(store, facts, p + [w], scene);
    OpenEnds(store, facts, p + [w], scene);
    var f: nat :| Run(store, facts, w.id, w.scene, f).Result?;
    var o := Run(store, facts, w.id, w.scene, f);
    if Says(e, k, o.met) != e.kind.And? {
      fuel := f;
      RunFromStep(store, facts, e, k, s, fuel);
    } else if k + 1 == |Order(e)| {
      fuel := f;
      RunFromStep(store, facts, e, k, s, fuel);
      RunFromEnd(store, facts, e, s, fuel);
    } else {
      assert PassesWith(store, facts, e, k, s, f);
      assert Asked(store, facts, e, k + 1, s);
      var g := OperandsEnd(store, facts, p, scene, k + 1);
      fuel := if f <= g then g else f;
      MoreFuel(store, facts, w.id, w.scene, f, fuel);
      MoreFuelFrom(store, facts, e, k + 1, s, g, fuel);
      RunFromStep(store, facts, e, k, s, fuel);
    }
  }

  lemma OpenFits(store: Store, facts: Facts, p: seq<Visit>, scene: Scene)
    requires Open(store, facts, p, scene)
    ensures |p| <= |Visits(store, scene)|
  {
    hide IsPath, Visits;
    DistinctFit(p, Visits(store, scene));
  }

  lemma RunFromStep(store: Store, facts: Facts, e: Entry, k: nat, scene: Scene, fuel: nat)
    requires k < |Order(e)| && Run(store, facts, Order(e)[k], scene, fuel).Result?
    ensures var b := Says(e, k, Run(store, facts, Order(e)[k], scene, fuel).met);
            RunFrom(store, facts, e, k, scene, fuel) ==
            if b != e.kind.And? then Result(b) else RunFrom(store, facts, e, k + 1, scene, fuel)
  {
    hide Order, Run, Says;
  }

  lemma RunFromEnd(store: Store, facts: Facts, e: Entry, scene: Scene, fuel: nat)
    ensures RunFrom(store, facts, e, |Order(e)|, scene, fuel) == Result(e.kind.And?)
  {
    hide Order, Run, Says;
  }

  lemma AbsentIsTrapped(store: Store, facts: Facts, v: Visit)
    ensures v.id !in store ==> Trapped(store, facts, v)
  {
    assert IsPath(store, facts, [v]);
    assert v.id !in store ==> Stuck(store, [v]);
  }

  /**
   Exactly when an evaluation ends, on any store: the operands it asks for lead neither to an absent
   entry nor back to an entry that is being evaluated for the same target and source.
   */
  lemma EndsIff(store: Store, facts: Facts, id: nat, scene: Scene)
    ensures Ends(store, facts, id, scene) <==> !Trapped(store, facts, Visit(id, scene))
  {
    hide Run;
    var v := Visit(id, scene);
    if Trapped(store, facts, v) {
      TrappedNeverEnds(store, facts, v);
    } else {
      AbsentIsTrapped(store, facts, v);
      assert IsPath(store, facts, [v]);
      assert [v][0] == v && v in Visits(store, scene);
      OpenEnds(store, facts, [v], scene);
    }
  }

  // ---------------------------------------------------------------------------
  // What the graph alone tells
  // ---------------------------------------------------------------------------

  /** Each entry is an operand of the one before it. */
  predicate IsOperandPath(store: Store, p: seq<nat>) {
    p != [] && forall i :: 0 <= i < |p| - 1 ==> p[i] in store && p[i + 1] in Operands(store[p[i]])
  }

  /** The path reaches an absent id or closes a cycle. */
  predicate Bad(store: Store, p: seq<nat>) {
    p != [] && (p[|p| - 1] !in store || exists i :: 0 <= i < |p| - 1 && p[i] == p[|p| - 1])
  }

  ghost predicate GraphTrap(store: Store, id: nat) {
    exists p :: p != [] && IsOperandPath(store, p) && p[0] == id && Bad(store, p)
  }

  function Ids(p: seq<Visit>): (ids: seq<nat>)
    ensures |ids| == |p| && forall i :: 0 <= i < |p| ==> ids[i] == p[i].id
  {
    seq(|p|, i requires 0 <= i < |p| => p[i].id)
  }

  /** Without a bad operand path every evaluation ends, whatever the facts. */
  lemma NoGraphTrapEnds(store: Store, facts: Facts, id: nat, scene: Scene)
    requires !GraphTrap(store, id)
    ensures Ends(store, facts, id, scene)
  {
    EndsIff(store, facts, id, scene);
    hide Ends, Run, GraphTrap, Trapped;
    if Trapped(store, facts, Visit(id, scene)) {
      TrapInGraph(store, facts, Visit(id, scene));
    }
  }

  lemma TrapInGraph(store: Store, facts: Facts, v: Visit)
    requires Trapped(store, facts, v)
    ensures GraphTrap(store, v.id)
  {
    var p :| p != [] && IsPath(store, facts, p) && p[0] == v && Stuck(store, p);
    OperandPath(store, facts, p);
    hide IsPath, IsOperandPath;
    if i :| 0 <= i < |p| - 1 && p[i] == p[|p| - 1] {
      assert Ids(p)[i] == Ids(p)[|p| - 1];
    }
    assert Bad(store, Ids(p));
  }

  lemma OperandPath(store: Store, facts: Facts, p: seq<Visit>)
    requires IsPath(store, facts, p)
    ensures IsOperandPath(store, Ids(p))
  {
    hide Passes, Ids, Operands, Order;
    var ids := Ids(p);
    forall i | 0 <= i < |ids| - 1
      ensures ids[i] in store && ids[i + 1] in Operands(store[ids[i]])
    {
      assert Asks(store, facts, p[i], p[i + 1]);
      var k: nat :| AsksAt(store, facts, p[i], p[i + 1], k);
      OrderOperands(store[p[i].id], k);
    }
  }

  lemma OrderOperands(e: Entry, k: nat)
    requires k < |Order(e)|
    ensures Order(e)[k] in Operands(e)
  {
    hide U32, Extra;
    assert Order(e)[k] in Extras(e) || Order(e)[k] in Mains(e);
  }

  /** The store of a NOT entry that refers to itself behind entry 1, which is always or never met. */
  function Guarded(reverse: bool): (store: Store)
  {
    map[1 := EMPTY.(reverse := reverse), 2 := Entry(Not, 1, 0, 1, 2, false, false)]
  }

  /**
   The graph alone does not decide: of two stores that loading leaves alone and that differ in one
   reverse flag, one always evaluates entry 2 and the other never does.
   */
  lemma GraphDoesNotDecide(verdicts: nat -> Verdict, facts: Facts, scene: Scene, reverse: bool)
    ensures Loaded(Guarded(reverse), verdicts, 3) == Guarded(reverse) && GraphTrap(Guarded(reverse), 2)
    ensures Ends(Guarded(reverse), facts, 2, scene) <==> !reverse
  {
    var store := Guarded(reverse);
    GuardedLoaded(verdicts, reverse);
    assert Operands(store[2]) == [1, 1, 2];
    assert 2 in Operands(store[2]);
    var p := [2, 2];
    assert IsOperandPath(store, p) && p[0] == p[|p| - 1];
    hide Loaded, Verified, Operands;
    GuardedOrder();
    hide Order;
    if !reverse {
      assert Run(store, facts, 1, scene, 1) == Result(true);
      assert RunFrom(store, facts, store[2], 0, scene, 1) == Result(true);
      assert Run(store, facts, 2, scene, 2).Result?;
    } else {
      forall fuel: nat
        ensures !Run(store, facts, 2, scene, fuel).Result?
      {
        GuardedNeverEnds(facts, scene, fuel);
      }
    }
  }

  lemma GuardedLoaded(verdicts: nat -> Verdict, reverse: bool)
    ensures Loaded(Guarded(reverse), verdicts, 3) == Guarded(reverse)
  {
    var store := Guarded(reverse);
    assert Verified(store, 0, verdicts) == Verified(store, 1, verdicts) == Verified(store, 2, verdicts) == store;
    LoadedZero(store, verdicts);
    LoadedStep(store, verdicts, 0);
    LoadedStep(store, verdicts, 1);
    LoadedStep(store, verdicts, 2);
  }

  lemma GuardedOrder()
    ensures Order(Entry(Not, 1, 0, 1, 2, false, false)) == [1, 2, 1]
  {
  }

  lemma {:induction false} GuardedNeverEnds(facts: Facts, scene: Scene, fuel: nat)
    ensures !Run(Guarded(true), facts, 2, scene, fuel).Result?
    decreases fuel
  {
    GuardedOrder();
    hide Order;
    var store := Guarded(true);
    if fuel > 1 {
      GuardedNeverEnds(facts, scene, fuel - 1);
      assert Run(store, facts, 1, scene, fuel - 1) == Result(false);
      assert RunFrom(store, facts, store[2], 0, scene, fuel - 1) == RunFrom(store, facts, store[2], 1, scene, fuel - 1);
    }
  }

  const SELF_REFERENCE: Store := map[1 := EMPTY, 2 := Entry(Not, 1, 0, 2, 0, false, false)]

  /** The NOT entry whose third value is its own id is never evaluated to an end. */
  lemma {:induction false} SelfReferenceNeverEnds(facts: Facts, scene: Scene, fuel: nat)
    ensures Run(SELF_REFERENCE, facts, 2, scene, fuel) == Unfinished
    decreases fuel
  {
    if fuel > 0 {
      assert Order(SELF_REFERENCE[2]) == [2, 1];
      SelfReferenceNeverEnds(facts, scene, fuel - 1);
    }
  }

  const UPWARD_REFERENCE: Store := map[1 := EMPTY, 2 := Entry(Not, 1, 0, 3, 0, false, false), 3 := EMPTY.(kind := Leaf(7))]

  /** A reference upwards violates the order of ids, and yet every evaluation ends. */
  lemma UpwardReferenceEnds(verdicts: nat -> Verdict, facts: Facts, scene: Scene)
    requires verdicts(3).Keep?
    ensures Loaded(UPWARD_REFERENCE, verdicts, 4) == UPWARD_REFERENCE && !NotExtrasBelow(UPWARD_REFERENCE)
    ensures Ends(UPWARD_REFERENCE, facts, 2, scene)
  {
    UpwardLoaded(verdicts);
    hide Loaded, Verified;
    var store := UPWARD_REFERENCE;
    assert Extras(store[2]) == [3] && 3 in Extras(store[2]);
    assert Order(store[2]) == [3, 1];
    assert Run(store, facts, 3, scene, 1).Result?;
    assert Run(store, facts, 1, scene, 1).Result?;
    assert RunFrom(store, facts, store[2], 1, scene, 1).Result?;
    assert RunFrom(store, facts, store[2], 0, scene, 1).Result?;
    assert Run(store, facts, 2, scene, 2).Result?;
  }

  lemma UpwardLoaded(verdicts: nat -> Verdict)
    requires verdicts(3).Keep?
    ensures Loaded(UPWARD_REFERENCE, verdicts, 4) == UPWARD_REFERENCE
  {
    var store := UPWARD_REFERENCE;
    assert Verified(store, 0, verdicts) == store;
    assert Verified(store, 1, verdicts) == store;
    assert Verified(store, 2, verdicts) == store;
    assert Verified(store, 3, verdicts) == store;
    LoadedZero(store, verdicts);
    LoadedStep(store, verdicts, 0);
    LoadedStep(store, verdicts, 1);
    LoadedStep(store, verdicts, 2);
    LoadedStep(store, verdicts, 3);
  }
}
