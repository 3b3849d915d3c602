/**
 Search for a free angle around an object: two directions walk past the used positions in
 turns, each trying small steps from the last angle it found. Angles are reals, the arc
 cosine is a parameter that is never negative.
 */
module PosSelector {
  import opened Options

  datatype Direction = Plus | Minus
  {
    function Sign(): (s: real) {
      if Plus? then 1.0 else -1.0
    }

    function Other(): (d: Direction) {
      if Plus? then Minus else Plus
    }
  }

  /** A used position: its absolute angle, the side it lies on, its size and distance. */
  datatype Node = Node(angle: real, side: Direction, size: real, dist: real)

  /** One direction of the walk: the used positions, the next one, and the small steps. */
  datatype Side = Side(used: seq<Node>, next: nat, smallAngle: real, smallOk: bool, smallNext: Option<Node>)
  {
    predicate AtEnd() {
      next >= |used|
    }

    function Remaining(): (n: nat) {
      if AtEnd() then 0 else |used| - next
    }
  }

  function Abs(x: real): (r: real)
    ensures 0.0 <= r
  {
    if x < 0.0 then -x else x
  }

  /** The constants of a search: pi, the small step, and how far a node keeps others away. */
  datatype Geometry = Geometry(pi: real, step: real, gap: Node -> real)
  {
    ghost predicate Valid() {
      pi > 0.0 && step > 0.0 && forall n :: gap(n) >= 0.0
    }

    /** May the angle be used in front of the next node? */
    predicate CheckAngle(n: Node, d: Direction, angle: real) {
      Abs(angle) + gap(n) <= if n.side != d then 2.0 * pi - n.angle else n.angle
    }
  }

  /** Position in an ordered list behind all nodes that are not larger. */
  function Inserted(list: seq<Node>, n: Node): (r: seq<Node>)
  {
    if list == [] || n.angle < list[0].angle then [n] + list else [list[0]] + Inserted(list[1..], n)
  }

  predicate Ordered(list: seq<Node>) {
    forall i, j :: 0 <= i < j < |list| ==> list[i].angle <= list[j].angle
  }

  lemma {:induction false} InsertedContent(list: seq<Node>, n: Node)
    ensures multiset(Inserted(list, n)) == multiset(list) + multiset{n}
  {
    if list != [] {
      assert list == [list[0]] + list[1..];
      InsertedContent(list[1..], n);
    }
  }

  /** A used position is added in order and nothing is lost. */
  lemma {:induction false} InsertedOrdered(list: seq<Node>, n: Node)
    requires Ordered(list)
    ensures Ordered(Inserted(list, n))
    ensures multiset(Inserted(list, n)) == multiset(list) + multiset{n}
  {
    InsertedContent(list, n);
    if list != [] && n.angle >= list[0].angle {
      var rest := list[1..];
      InsertedOrdered(rest, n);
      var r := Inserted(rest, n);
      forall i | 0 <= i < |r|
        ensures list[0].angle <= r[i].angle
      {
        InsertedMember(rest, n, r[i]);
      }
    }
  }

  lemma InsertedMember(list: seq<Node>, n: Node, x: Node)
    requires x in Inserted(list, n)
    ensures x == n || x in list
  {
    InsertedContent(list, n);
    assert x in multiset(Inserted(list, n));
  }

  class ObjectPosSelector {
    const geo: Geometry
    var plus: Side
    var minus: Side

    constructor (geo: Geometry)
      ensures this.geo == geo && plus == minus == Side([], 0, 0.0, false, None)
    {
      this.geo := geo;
      plus, minus := Side([], 0, 0.0, false, None), Side([], 0, 0.0, false, None);
    }

    function At(d: Direction): (s: Side)
      reads this
    {
      if d.Plus? then plus else minus
    }

    method Put(d: Direction, s: Side)
      modifies this
      ensures At(d) == s && At(d.Other()) == old(At(d.Other()))
    {
      if d.Plus? {
        plus := s;
      } else {
        minus := s;
      }
    }

    method AddUsedPos(size: real, angle: real, dist: real)
      modifies this
      ensures 0.0 <= angle ==>
                plus == old(plus).(used := Inserted(old(plus.used), Node(angle, Plus, size, dist))) && minus == old(minus)
      ensures angle < 0.0 ==>
                minus == old(minus).(used := Inserted(old(minus.used), Node(-angle, Minus, size, dist))) && plus == old(plus)
    {
      if angle >= 0.0 {
        plus := plus.(used := Inserted(plus.used, Node(angle, Plus, size, dist)));
      } else {
        minus := minus.(used := Inserted(minus.used, Node(-angle, Minus, size, dist)));
      }
    }

    /** The lists hold the positions of their own side, with absolute angles. */
    ghost predicate ListsValid()
      reads this
    {
      OnSide(plus.used, Plus) && OnSide(minus.used, Minus)
    }

    /** What holds from InitializeAngle on: each direction only moves away from zero. */
    ghost predicate Started()
      reads this
    {
      && geo.Valid() && ListsValid()
      && plus.smallAngle >= 0.0 && minus.smallAngle <= 0.0
    }

    method InitializeAngle()
      requires geo.Valid() && ListsValid()
      modifies this
      ensures Started()
      ensures plus == old(plus).(next := 0, smallAngle := 0.0, smallOk := true)
      ensures minus == old(minus).(next := 0, smallAngle := 0.0, smallOk := true)
      ensures Left() <= Bound(geo, |plus.used|, |minus.used|)
    {
      plus := plus.(next := 0, smallAngle := 0.0, smallOk := true);
      minus := minus.(next := 0, smallAngle := 0.0, smallOk := true);
      PotentialAtStart(geo, plus);
      PotentialAtStart(geo, minus);
    }

    /** The node after the next used one, or the last one of the other side. */
    function NextUsedPos(d: Direction): (n: Option<Node>)
      reads this
    {
      var k := At(d).next + if At(d).AtEnd() then 0 else 1;
      if k < |At(d).used| then Some(At(d).used[k])
      else if |At(d.Other()).used| != 0 then Some(At(d.Other()).used[|At(d.Other()).used| - 1])
      else None
    }

    /** Tries the angle right behind a used position. */
    method NextAngleFor(used: Node, d: Direction) returns (ok: bool, angle: real)
      requires Started() && !At(d).AtEnd() && used == At(d).used[At(d).next] && !At(d).smallOk
      modifies this
      ensures Started() && At(d.Other()) == old(At(d.Other()))
      ensures !ok ==> At(d) == old(At(d))
      ensures ok ==> At(d) == old(At(d)).(smallOk := true, smallAngle := angle, smallNext := old(NextUsedPos(d)))
      ensures angle == used.angle * used.side.Sign() + geo.gap(used) * d.Sign()
      ensures ok <==> Checked(geo, old(NextUsedPos(d)), d, angle)
    {
      angle := used.angle * used.side.Sign() + geo.gap(used) * d.Sign();
      assert geo.gap(used) >= 0.0;
      var nextNode := NextUsedPos(d);
      if nextNode.Some? {
        if !geo.CheckAngle(nextNode.value, d, angle) {
          Put(d, At(d).(smallOk := false));
          return false, angle;
        }
      }
      Put(d, At(d).(smallOk := true, smallAngle := angle, smallNext := nextNode));
      return true, angle;
    }

    /** Tries one small step further. */
    method NextSmallStepAngle(d: Direction) returns (ok: bool, angle: real)
      requires Started() && At(d).smallOk
      modifies this
      ensures Started() && At(d.Other()) == old(At(d.Other()))
      ensures !ok ==> At(d) == old(At(d)).(smallOk := false)
      ensures ok ==> At(d) == old(At(d)).(smallAngle := angle)
      ensures angle == old(At(d)).smallAngle + geo.step * d.Sign()
      ensures ok <==> Abs(angle) <= geo.pi && InFront(old(At(d)).smallNext, angle) && Checked(geo, old(At(d)).smallNext, d, angle)
    {
      angle := At(d).smallAngle + geo.step * d.Sign();
      if Abs(angle) > geo.pi {
        Put(d, At(d).(smallOk := false));
        return false, angle;
      }
      if At(d).smallNext.Some? {
        if Abs(angle) >= At(d).smallNext.value.angle {
          Put(d, At(d).(smallOk := false));
          return false, angle;
        }
        if !geo.CheckAngle(At(d).smallNext.value, d, angle) {
          Put(d, At(d).(smallOk := false));
          return false, angle;
        }
      }
      Put(d, At(d).(smallAngle := angle));
      return true, angle;
    }

    /** An upper bound on the angles still to come. */
    ghost function Left(): (n: nat)
      requires geo.Valid()
      reads this
    {
      Potential(geo, plus) + Potential(geo, minus)
    }

    /** Nothing to walk past and no small steps: the loops of the callers stop. */
    predicate Exhausted()
      reads this
    {
      plus.AtEnd() && minus.AtEnd() && !plus.smallOk && !minus.smallOk
    }

    /** The angle that direction `d` would try next. */
    ghost function Candidate(d: Direction): (angle: real)
      reads this
    {
      if At(d).smallOk || At(d).AtEnd() then At(d).smallAngle + geo.step * d.Sign()
      else
        var n := At(d).used[At(d).next];
        n.angle * n.side.Sign() + geo.gap(n) * d.Sign()
    }

    /** May direction `d` use that angle? */
    ghost predicate Permits(d: Direction)
      reads this
    {
      var angle := Candidate(d);
      if At(d).smallOk then
        Abs(angle) <= geo.pi && InFront(At(d).smallNext, angle) && Checked(geo, At(d).smallNext, d, angle)
      else Checked(geo, NextUsedPos(d), d, angle)
    }

    /** The direction whose turn it is: the one whose next used position is nearer, else one that takes small steps. */
    ghost function Turn(): (d: Option<Direction>)
      reads this
    {
      if !plus.AtEnd() && (minus.AtEnd() || plus.used[plus.next].angle <= minus.used[minus.next].angle) then Some(Plus)
      else if !minus.AtEnd() then Some(Minus)
      else if plus.smallOk && (!minus.smallOk || plus.smallAngle <= minus.smallAngle) then Some(Plus)
      else if minus.smallOk then Some(Minus)
      else None
    }

    /** No used position that is still ahead is nearer than the next one of direction `d`. */
    ghost predicate Nearest(d: Direction)
      reads this
    {
      forall e: Direction, k :: At(e).next <= k < |At(e).used| ==>
        !At(d).AtEnd() && At(d).used[At(d).next].angle <= At(e).used[k].angle
    }

    /** What the tried direction remembers after a success: the angle and the node in front of it. */
    twostate predicate Remembers(d: Direction, angle: real)
      reads this
    {
      At(d) == old(At(d)).(smallOk := true, smallAngle := angle,
                           smallNext := if old(At(d)).smallOk then old(At(d)).smallNext else old(NextUsedPos(d)))
    }

    /** One try in direction `d`, at a used position that is still ahead. */
    method TryAt(d: Direction) returns (ok: bool, angle: real)
      requires Started() && !At(d).AtEnd()
      modifies this
      ensures Started() && At(d.Other()) == old(At(d.Other())) && At(d).used == old(At(d).used)
      ensures ok ==> Potential(geo, At(d)) < old(Potential(geo, At(d))) && At(d).Remaining() == old(At(d).Remaining())
      ensures ok ==> Handed(angle, d)
      ensures angle == old(Candidate(d)) && (ok <==> old(Permits(d))) && (ok ==> Remembers(d, angle))
      ensures !ok ==> At(d) == old(At(d)).(next := old(At(d)).next + 1, smallOk := false)
      ensures !ok ==> Potential(geo, At(d)) <= old(Potential(geo, At(d))) && At(d).Remaining() + 1 == old(At(d).Remaining())
    {
      ghost var before := At(d);
      if At(d).smallOk {
        ok, angle := NextSmallStepAngle(d);
      } else {
        ok, angle := NextAngleFor(At(d).used[At(d).next], d);
      }
      if !ok {
        Put(d, At(d).(next := At(d).next + 1));
        PotentialFallsOnFail(geo, before);
      } else if before.smallOk {
        PotentialFallsOnSmallStep(geo, before, d, angle);
      } else {
        PotentialFallsOnNewAngle(geo, before, d, angle);
      }
    }

    /** One small step in direction `d` when no used position is ahead. */
    method TrySmallStep(d: Direction) returns (ok: bool, angle: real)
      requires Started() && At(d).AtEnd() && At(d).smallOk
      modifies this
      ensures Started() && At(d.Other()) == old(At(d.Other())) && At(d).used == old(At(d).used) && At(d).AtEnd()
      ensures ok ==> Potential(geo, At(d)) < old(Potential(geo, At(d)))
      ensures ok ==> Handed(angle, d)
      ensures angle == old(Candidate(d)) && (ok <==> old(Permits(d))) && (ok ==> Remembers(d, angle))
      ensures !ok ==> At(d) == old(At(d)).(smallOk := false)
    {
      ghost var before := At(d);
      ok, angle := NextSmallStepAngle(d);
      if ok {
        PotentialFallsOnSmallStep(geo, before, d, angle);
      }
    }

    /** An angle handed out for `d` lies on that side and passed the check against the recorded node. */
    ghost predicate Handed(angle: real, d: Direction)
      reads this
    {
      && angle * d.Sign() >= 0.0
      && At(d).smallOk && At(d).smallAngle == angle
      && Checked(geo, At(d).smallNext, d, angle)
    }

    /**
     The next possible angle. A success uses up part of a bounded supply; a failure uses up a
     used position, or a direction's small steps once no used position is left.
     */
    method NextPosibleAngle() returns (ok: bool, angle: real)
      requires Started()
      modifies this
      ensures Started() && plus.used == old(plus.used) && minus.used == old(minus.used)
      ensures Left() <= old(Left())
      ensures plus.Remaining() + minus.Remaining() <= old(plus.Remaining() + minus.Remaining())
      ensures ok ==> old(Turn()).Some? && Left() < old(Left()) && Handed(angle, old(Turn()).value)
      ensures old(Turn()).Some? ==>
                var d := old(Turn()).value;
                && At(d.Other()) == old(At(d.Other())) && angle == old(Candidate(d)) && (ok <==> old(Permits(d)))
                && if ok then Remembers(d, angle)
                   else At(d) == old(At(d)).(smallOk := false, next := old(At(d)).next + if old(At(d)).AtEnd() then 0 else 1)
      ensures old(Turn()).None? ==> !ok && plus == old(plus) && minus == old(minus)
      ensures old(Ordered(plus.used) && Ordered(minus.used) && Turn().Some?) ==> old(Nearest(Turn().value))
      ensures !ok && !old(Exhausted()) ==>
                || plus.Remaining() + minus.Remaining() < old(plus.Remaining() + minus.Remaining())
                || (&& plus.Remaining() + minus.Remaining() == old(plus.Remaining() + minus.Remaining()) == 0
                    && Flags(plus, minus) < old(Flags(plus, minus)))
    {
      if Ordered(plus.used) && Ordered(minus.used) && Turn().Some? {
        TurnIsNearest(this);
      }
      if !plus.AtEnd() && (minus.AtEnd() || plus.used[plus.next].angle <= minus.used[minus.next].angle) {
        ok, angle := TryAt(Plus);
      } else if !minus.AtEnd() {
        ok, angle := TryAt(Minus);
      } else {
        ok, angle := false, 0.0;
        if plus.smallOk && (!minus.smallOk || plus.smallAngle <= minus.smallAngle) {
          ok, angle := TrySmallStep(Plus);
        } else if minus.smallOk {
          ok, angle := TrySmallStep(Minus);
        }
      }
    }

    /** The next free angle, if there is one; it always returns. */
    method NextAngle() returns (found: bool, angle: real)
      requires Started()
      modifies this
      ensures Started() && plus.used == old(plus.used) && minus.used == old(minus.used)
      ensures found ==> Left() < old(Left()) && (Handed(angle, Plus) || Handed(angle, Minus))
      ensures !found ==> Exhausted() && Left() <= old(Left())
    {
      angle := 0.0;
      while !plus.AtEnd() || !minus.AtEnd() || plus.smallOk || minus.smallOk
        invariant Started() && plus.used == old(plus.used) && minus.used == old(minus.used)
        invariant Left() <= old(Left())
        decreases plus.Remaining() + minus.Remaining(), Flags(plus, minus)
      {
        var ok;
        ok, angle := NextPosibleAngle();
        if ok {
          return true, angle;
        }
      }
      return false, angle;
    }

    /** The next used angle: it skips free angles, of which there are finitely many, so it always returns. */
    method NextUsedAngle() returns (found: bool, angle: real)
      requires Started()
      modifies this
      ensures Started() && plus.used == old(plus.used) && minus.used == old(minus.used)
      ensures found ==> plus.Remaining() + minus.Remaining() < old(plus.Remaining() + minus.Remaining())
      ensures !found ==> plus.AtEnd() && minus.AtEnd()
    {
      hide Potential, Handed, OnSide, Geometry.Valid;
      angle := 0.0;
      while !plus.AtEnd() || !minus.AtEnd()
        invariant Started() && plus.used == old(plus.used) && minus.used == old(minus.used)
        invariant plus.Remaining() + minus.Remaining() <= old(plus.Remaining() + minus.Remaining())
        decreases Left()
      {
        var ok;
        ok, angle := NextPosibleAngle();
        if !ok {
          return true, angle;
        }
      }
      return false, angle;
    }

    /** The callers' loop when no angle suits them: it ends after a bounded number of angles. */
    method AllAngles() returns (angles: seq<real>)
      requires geo.Valid() && ListsValid()
      modifies this
      ensures |angles| <= Bound(geo, |old(plus.used)|, |old(minus.used)|)
      ensures Exhausted()
    {
      InitializeAngle();
      ghost var bound := Left();
      angles := [];
      var found, angle := NextAngle();
      while found
        invariant Started()
        invariant |angles| + Left() + (if found then 1 else 0) <= bound
        invariant !found ==> Exhausted()
        decreases Left(), found
      {
        angles := angles + [angle];
        found, angle := NextAngle();
      }
    }
  }

  predicate OnSide(list: seq<Node>, d: Direction) {
    forall i :: 0 <= i < |list| ==> list[i].side == d && list[i].angle >= 0.0
  }

  /** An angle that passed the check, if there is a node to check against. */
  predicate Checked(geo: Geometry, n: Option<Node>, d: Direction, angle: real) {
    n.Some? ==> geo.CheckAngle(n.value, d, angle)
  }

  /** A small step does not reach the node in front of it. */
  predicate InFront(n: Option<Node>, angle: real) {
    n.Some? ==> Abs(angle) < n.value.angle
  }

  /** How far ahead a used position lies in direction `d`, going round from zero. */
  function Ahead(geo: Geometry, n: Node, d: Direction): (x: real) {
    var x := n.angle * n.side.Sign() * d.Sign();
    if x < 0.0 then x + 2.0 * geo.pi else x
  }

  /** A node that permits an angle lies at least its own gap further ahead, be it on this side or the other. */
  lemma PermittedKeepsGap(geo: Geometry, n: Node, d: Direction, angle: real)
    requires 0.0 <= n.angle && (n.side != d ==> 0.0 < n.angle) && 0.0 <= angle * d.Sign()
    ensures geo.CheckAngle(n, d, angle) <==> angle * d.Sign() + geo.gap(n) <= Ahead(geo, n, d)
  {
  }

  /** The angle behind a used position keeps exactly the gap of that one, and at least that of the one in front. */
  lemma BothGapsKept(geo: Geometry, used: Node, next: Node, d: Direction, angle: real)
    requires used.side == d && 0.0 <= used.angle && 0.0 <= geo.gap(used)
    requires 0.0 <= next.angle && (next.side != d ==> 0.0 < next.angle)
    requires angle == used.angle * used.side.Sign() + geo.gap(used) * d.Sign() && Checked(geo, Some(next), d, angle)
    ensures angle * d.Sign() - Ahead(geo, used, d) == geo.gap(used)
    ensures Ahead(geo, next, d) - angle * d.Sign() >= geo.gap(next)
  {
    PermittedKeepsGap(geo, next, d, angle);
  }

  /** Behind a used position the walk to either side tries the angle that clears that position by its own gap. */
  lemma TriedBehindUsed(o: ObjectPosSelector, d: Direction)
    requires o.Started() && !o.At(d).AtEnd() && !o.At(d).smallOk
    ensures var used := o.At(d).used[o.At(d).next];
            && o.Candidate(d) == (if d.Plus? then used.angle + o.geo.gap(used) else -used.angle - o.geo.gap(used))
            && (o.Permits(d) <==> match o.NextUsedPos(d)
                                  case None => true
                                  case Some(front) =>
                                    used.angle + o.geo.gap(used) + o.geo.gap(front) <=
                                    if front.side == d then front.angle else 2.0 * o.geo.pi - front.angle)
  {
  }

  /** Small steps lead away from zero up to pi, before the recorded position and out of its gap. */
  lemma TriedSmallStep(o: ObjectPosSelector, d: Direction)
    requires o.Started() && o.At(d).smallOk
    ensures var further := (if d.Plus? then o.plus.smallAngle else -o.minus.smallAngle) + o.geo.step;
            && o.Candidate(d) == (if d.Plus? then further else -further)
            && (o.Permits(d) <==>
                && further <= o.geo.pi
                && match o.At(d).smallNext
                   case None => true
                   case Some(front) =>
                     && further < front.angle
                     && further + o.geo.gap(front) <= if front.side == d then front.angle else 2.0 * o.geo.pi - front.angle)
  {
  }

  /**
   Whose turn it is. While used positions are ahead, the nearer one, at a tie the positive side. Behind
   them the sides do not alternate: a side of small steps goes on until it ends, the negative one first,
   because angles and not distances are compared.
   */
  lemma TurnIs(o: ObjectPosSelector)
    requires o.Started()
    ensures o.plus.AtEnd() && !o.minus.AtEnd() ==> o.Turn() == Some(Minus)
    ensures !o.plus.AtEnd() && o.minus.AtEnd() ==> o.Turn() == Some(Plus)
    ensures !o.plus.AtEnd() && !o.minus.AtEnd() ==>
              (o.Turn() == Some(Minus) <==> o.minus.used[o.minus.next].angle < o.plus.used[o.plus.next].angle)
              && o.Turn().Some?
    ensures o.plus.AtEnd() && o.minus.AtEnd() ==>
              && (o.Turn().None? <==> !o.plus.smallOk && !o.minus.smallOk)
              && (o.Turn() == Some(Plus) <==>
                  o.plus.smallOk && (o.minus.smallOk ==> o.plus.smallAngle == 0.0 && o.minus.smallAngle == 0.0))
  {
  }

  /** A position goes behind all that are not larger and before the larger ones. */
  lemma {:induction false} InsertedBehindEqual(list: seq<Node>, n: Node) returns (k: nat)
    requires Ordered(list)
    ensures k <= |list| && Inserted(list, n) == list[..k] + [n] + list[k..]
    ensures forall i :: 0 <= i < |list| ==> (i < k <==> list[i].angle <= n.angle)
  {
    if list == [] || n.angle < list[0].angle {
      k := 0;
    } else {
      k := InsertedBehindEqual(list[1..], n);
      k := k + 1;
      assert list[..k] == [list[0]] + list[1..][..k - 1] && list[k..] == list[1..][k - 1..];
    }
  }

  /** The node in front is the nearest ahead of all behind the next used position, going round to the other side. */
  lemma NextUsedIsNearest(o: ObjectPosSelector, d: Direction, m: Node)
    requires o.ListsValid() && Ordered(o.plus.used) && Ordered(o.minus.used) && o.geo.pi > 0.0
    requires forall e: Direction, k :: 0 <= k < |o.At(e).used| ==> 0.0 < o.At(e).used[k].angle <= o.geo.pi
    requires !o.At(d).AtEnd()
    requires m in o.At(d).used[o.At(d).next + 1..] || m in o.At(d.Other()).used
    ensures o.NextUsedPos(d).Some? && Ahead(o.geo, o.NextUsedPos(d).value, d) <= Ahead(o.geo, m, d)
  {
    var here, there, k := o.At(d).used, o.At(d.Other()).used, o.At(d).next + 1;
    assert Ordered(here) && Ordered(there);
    assert OnSide(here, d) && OnSide(there, d.Other());
    assert forall i :: 0 <= i < |here| ==> 0.0 < here[i].angle <= o.geo.pi;
    assert forall i :: 0 <= i < |there| ==> 0.0 < there[i].angle <= o.geo.pi;
    NearestOfLists(o.geo, here, there, d, k, m);
  }

  /** The same on lists: here behind `k`, and there from the far end. */
  lemma NearestOfLists(geo: Geometry, here: seq<Node>, there: seq<Node>, d: Direction, k: nat, m: Node)
    requires Ordered(here) && Ordered(there) && OnSide(here, d) && OnSide(there, d.Other()) && k <= |here|
    requires forall i :: 0 <= i < |here| ==> 0.0 < here[i].angle <= geo.pi
    requires forall i :: 0 <= i < |there| ==> 0.0 < there[i].angle <= geo.pi
    requires m in here[k..] || m in there
    ensures k < |here| || there != []
    ensures Ahead(geo, if k < |here| then here[k] else there[|there| - 1], d) <= Ahead(geo, m, d)
  {
    OnSideAhead(geo, here, d, d);
    OnSideAhead(geo, there, d.Other(), d);
    hide Ahead, OnSide;
    if m in here[k..] {
      var i :| 0 <= i < |here[k..]| && here[k..][i] == m;
      assert here[k + i] == m;
    } else {
      var i :| 0 <= i < |there| && there[i] == m;
    }
  }

  lemma OnSideAhead(geo: Geometry, list: seq<Node>, side: Direction, d: Direction)
    requires OnSide(list, side) && forall k :: 0 <= k < |list| ==> 0.0 < list[k].angle
    ensures forall k :: 0 <= k < |list| ==>
              Ahead(geo, list[k], d) == if side == d then list[k].angle else 2.0 * geo.pi - list[k].angle
  {
  }

  /** With ordered lists the turn goes to the nearest used position of all that are still ahead. */
  lemma TurnIsNearest(o: ObjectPosSelector)
    requires Ordered(o.plus.used) && Ordered(o.minus.used) && o.Turn().Some?
    ensures o.Nearest(o.Turn().value)
  {
    var t := o.Turn().value;
    forall d: Direction, k | o.At(d).next <= k < |o.At(d).used|
      ensures !o.At(t).AtEnd() && o.At(t).used[o.At(t).next].angle <= o.At(d).used[k].angle
    {
    }
  }

  /** How many directions may still take small steps. */
  function Flags(plus: Side, minus: Side): (n: nat) {
    (if plus.smallOk then 1 else 0) + (if minus.smallOk then 1 else 0)
  }

  // ---------------------------------------------------------------------------
  // The supply of angles
  // ---------------------------------------------------------------------------

  /** Small steps that fit between the absolute angle and pi. */
  function StepsLeft(geo: Geometry, angle: real): (n: nat)
    requires geo.step > 0.0
  {
    if Abs(angle) > geo.pi then 0 else NatFloor((geo.pi - Abs(angle)) / geo.step)
  }

  function NatFloor(x: real): (n: nat)
  {
    if x < 0.0 then 0 else x.Floor
  }

  /** Angles a direction can still hand out. */
  ghost function Potential(geo: Geometry, s: Side): (n: nat)
    requires geo.Valid()
  {
    var most := StepsLeft(geo, 0.0);
    if s.AtEnd() then (if s.smallOk then StepsLeft(geo, s.smallAngle) else 0)
    else (s.Remaining() - 1) * (most + 1) + if s.smallOk then StepsLeft(geo, s.smallAngle) else most + 1
  }

  /** The used positions of both sides, at least one each, times the angles that fit behind one. */
  ghost function Bound(geo: Geometry, plus: nat, minus: nat): (n: nat)
    requires geo.Valid()
  {
    ((if plus == 0 then 1 else plus) + (if minus == 0 then 1 else minus)) * (StepsLeft(geo, 0.0) + 1) - 2
  }

  lemma FloorRises(x: real, y: real)
    requires x <= y
    ensures NatFloor(x) <= NatFloor(y)
  {
  }

  lemma FewerStepsFurtherOut(geo: Geometry, angle: real)
    requires geo.Valid()
    ensures StepsLeft(geo, angle) <= StepsLeft(geo, 0.0)
  {
    var a, b := geo.pi - Abs(angle), geo.pi;
    QuotientRises(a, b, geo.step);
    FloorRises(a / geo.step, b / geo.step);
  }

  lemma QuotientRises(a: real, b: real, d: real)
    requires a <= b && 0.0 < d
    ensures a / d <= b / d
  {
  }

  /** A small step uses up exactly one of the steps that fit. */
  lemma SmallStepUsesOne(geo: Geometry, angle: real, further: real)
    requires geo.Valid() && Abs(further) == Abs(angle) + geo.step && Abs(further) <= geo.pi
    ensures StepsLeft(geo, further) + 1 == StepsLeft(geo, angle)
  {
    var a := geo.pi - Abs(angle);
    Division(a, geo.step, a / geo.step);
    Division(a - geo.step, geo.step, a / geo.step - 1.0);
    assert a / geo.step >= 1.0;
  }

  /** Division is unique. */
  lemma Division(x: real, d: real, q: real)
    requires d > 0.0
    ensures q * d == x <==> q == x / d
  {
    assert (x / d) * d == x;
    if q * d == x {
      assert (q - x / d) * d == 0.0;
    }
  }

  lemma PotentialAtStart(geo: Geometry, s: Side)
    requires geo.Valid() && s.next == 0 && s.smallAngle == 0.0 && s.smallOk
    ensures Potential(geo, s) + 1 <= (if |s.used| == 0 then 1 else |s.used|) * (StepsLeft(geo, 0.0) + 1)
  {
  }

  lemma PotentialFallsOnFail(geo: Geometry, s: Side)
    requires geo.Valid() && !s.AtEnd()
    ensures Potential(geo, s.(next := s.next + 1, smallOk := false)) <= Potential(geo, s)
  {
    var most := StepsLeft(geo, 0.0);
    if s.Remaining() > 1 {
      assert (s.Remaining() - 2) * (most + 1) + (most + 1) == (s.Remaining() - 1) * (most + 1);
    }
  }

  lemma PotentialFallsOnSmallStep(geo: Geometry, s: Side, d: Direction, angle: real)
    requires geo.Valid() && s.smallOk && s.smallAngle * d.Sign() >= 0.0
    requires angle == s.smallAngle + geo.step * d.Sign() && Abs(angle) <= geo.pi
    ensures Potential(geo, s.(smallAngle := angle)) < Potential(geo, s)
  {
    SmallStepUsesOne(geo, s.smallAngle, angle);
  }

  lemma PotentialFallsOnNewAngle(geo: Geometry, s: Side, d: Direction, angle: real)
    requires geo.Valid() && !s.smallOk && !s.AtEnd()
    ensures forall n :: Potential(geo, s.(smallOk := true, smallAngle := angle, smallNext := n)) < Potential(geo, s)
  {
    FewerStepsFurtherOut(geo, angle);
  }
}
