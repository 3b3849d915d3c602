/**
 Weekly honor maintenance: the breakpoint curve built from a faction's standing list, the
 rank points earned on it, weekly decay, level caps and the ranks that points stand for.
 Points are reals, so float rounding is not modelled.
 */
module Honor {

  const FAKE_PVP_POOL: nat := 800
  const NEGATIVE_HONOR_RANK_COUNT: nat := 4
  const POSITIVE_HONOR_RANK_COUNT: nat := 15
  const HONOR_RANK_COUNT: nat := 19

  datatype HonorStanding = HonorStanding(guid: nat, cp: real)

  /** Sorted by falling contribution points, none negative. */
  predicate IsStandingList(list: seq<HonorStanding>) {
    && (forall i, j :: 0 <= i < j < |list| ==> list[i].cp >= list[j].cp)
    && (forall i :: 0 <= i < |list| ==> list[i].cp >= 0.0)
  }

  /** The curve: contribution points FX, rank points FY, standing positions BRK. */
  datatype HonorScores = HonorScores(FX: seq<real>, FY: seq<real>, BRK: seq<nat>)

  /** The contribution points at a position counted from 1, zero off the list. */
  function StandingCP(list: seq<HonorStanding>, position: nat): (cp: real)
  {
    if 1 <= position <= |list| then list[position - 1].cp else 0.0
  }

  method GetStandingCPByPosition(list: seq<HonorStanding>, position: nat) returns (cp: real)
    ensures cp == StandingCP(list, position)
  {
    var pos := 1;
    for i := 0 to |list|
      invariant pos == i + 1
      invariant i >= 1 ==> !(1 <= position <= i)
    {
      if pos == position {
        return list[i].cp;
      }
      pos := pos + 1;
    }
    return 0.0;
  }

  // ---------------------------------------------------------------------------
  // The curve
  // ---------------------------------------------------------------------------

  /** Share of the faction at or above each breakpoint. */
  const GROUPS: seq<real> := [
    1.000, 0.845, 0.697, 0.566, 0.436, 0.327, 0.228, 0.159, 0.100, 0.060, 0.035, 0.020, 0.008, 0.003]

  function Group(i: nat): (g: real)
    requires i < 14
    ensures 0.0 <= g
  {
    GROUPS[i]
  }

  /** The pool is never taken smaller than the fake player pool. */
  function Pool(size: nat): (n: nat)
    ensures n >= FAKE_PVP_POOL && n >= size
  {
    if size > FAKE_PVP_POOL then size else FAKE_PVP_POOL
  }

  function Breakpoint(group: real, size: nat): (p: nat)
    requires 0.0 <= group
  {
    (group * (Pool(size) as real) + 0.5).Floor
  }

  /** The standing position of breakpoint `i` in a list of `size` players. */
  function Position(size: nat, i: nat): (p: nat)
    requires i < 14
  {
    Breakpoint(Group(i), size)
  }

  /** Groups that lie at least 0.005 apart have different breakpoints. */
  lemma BreakpointsApart(a: real, b: real, size: nat)
    requires 0.0 <= a && a + 0.005 <= b
    ensures Breakpoint(a, size) < Breakpoint(b, size)
    ensures a >= 0.003 ==> Breakpoint(a, size) >= 2
  {
    var n := Pool(size) as real;
    assert (b - a) * n >= 0.005 * 800.0;
    assert b * n == a * n + (b - a) * n;
    if a >= 0.003 {
      assert a * n >= 0.003 * 800.0;
    }
  }

  /** Average contribution of the two players around a breakpoint, zero if the first has none. */
  function Score(list: seq<HonorStanding>, position: nat): (cp: real)
  {
    var first := StandingCP(list, position);
    if first == 0.0 then 0.0 else (first + StandingCP(list, position + 1)) / 2.0
  }

  /** A better position never has a lower score. */
  lemma ScoreFalls(list: seq<HonorStanding>, p: nat, q: nat)
    requires IsStandingList(list) && 1 <= p <= q
    ensures Score(list, p) >= Score(list, q) >= 0.0
    ensures 0 < |list| ==> Score(list, p) <= list[0].cp
    ensures Score(list, p) == 0.0 ==> Score(list, q) == 0.0
  {
    assert StandingCP(list, p) >= StandingCP(list, q) >= 0.0;
    assert StandingCP(list, p + 1) >= StandingCP(list, q + 1) >= 0.0;
    assert StandingCP(list, p) >= StandingCP(list, p + 1);
  }

  function RankPointsAt(i: nat): (y: real)
  {
    if i == 0 then 0.0
    else if i == 1 then 400.0
    else if i <= 13 then ((i - 1) * 1000) as real
    else 13000.0
  }

  /** The curve without the loop's special case for the top scorer. */
  function Curve(list: seq<HonorStanding>): (sc: HonorScores)
    requires 0 < |list|
  {
    var brk := seq(14, i requires 0 <= i < 14 => Position(|list|, i));
    var low := Score(list, brk[1]);
    HonorScores(
      seq(15, i requires 0 <= i < 15 =>
        if i == 0 then 0.0
        else if i <= 13 then Score(list, brk[i])
        else if low == 0.0 then 0.0 else list[0].cp),
      seq(15, i requires 0 <= i < 15 => RankPointsAt(i)),
      brk)
  }

  /** The breakpoints fall strictly and stay positive. */
  lemma BreakpointsFall(size: nat, i: nat, j: nat)
    requires i < j < 14
    ensures Position(size, i) > Position(size, j) >= 2
    decreases j - i
  {
    hide Breakpoint, Group;
    if i + 1 < j {
      BreakpointsFall(size, i, j - 1);
    }
    GroupsApart(j);
    BreakpointsApart(Group(j), Group(j - 1), size);
  }

  lemma GroupsApart(j: nat)
    requires 1 <= j < 14
    ensures 0.003 <= Group(j) && Group(j) + 0.005 <= Group(j - 1)
  {
  }

  /** What makes a curve usable: breakpoints falling, FX rising up to the last but one, FY rising. */
  predicate IsCurve(sc: HonorScores) {
    && |sc.FX| == 15 && |sc.FY| == 15 && |sc.BRK| == 14
    && (forall i :: 0 <= i < 14 ==> sc.BRK[i] > 0)
    && (forall i, j :: 0 <= i < j < 14 ==> sc.BRK[i] > sc.BRK[j])
    && (forall i, j :: 0 <= i < j < 14 ==> sc.FX[i] <= sc.FX[j])
    && sc.FX[0] == 0.0
    && (sc.FX[14] == 0.0 || sc.FX[13] <= sc.FX[14])
    && (forall i :: 0 <= i < 15 ==> sc.FY[i] == RankPointsAt(i))
  }

  /** The scores along the curve rise, and a zero score means zero scores below it. */
  lemma ScoresRise(list: seq<HonorStanding>, i: nat, j: nat)
    requires IsStandingList(list) && 0 < |list| && i < j <= 13
    ensures Curve(list).FX[i] <= Curve(list).FX[j]
    ensures Curve(list).FX[j] == 0.0 ==> Curve(list).FX[i] == 0.0
    ensures Curve(list).FX[j] <= list[0].cp
  {
    hide Position, Score, StandingCP, IsStandingList, RankPointsAt;
    BreakpointsFall(|list|, i, j);
    ScoreFalls(list, Position(|list|, j), Position(|list|, i));
  }

  /** The curve of every standing list is usable. */
  lemma CurveIsCurve(list: seq<HonorStanding>)
    requires IsStandingList(list) && 0 < |list|
    ensures IsCurve(Curve(list))
  {
    hide Position, Score, StandingCP, IsStandingList, RankPointsAt;
    var sc := Curve(list);
    forall i, j | 0 <= i < j < 14
      ensures sc.BRK[i] > sc.BRK[j] > 0
      ensures sc.FX[i] <= sc.FX[j]
    {
      BreakpointsFall(|list|, i, j);
      ScoresRise(list, i, j);
    }
    assert sc.BRK[0] > sc.BRK[13] > 0;
    ScoresRise(list, 12, 13);
  }

  /** Builds the curve; the alternative for the top scorer inside the loop never fires. */
  method GenerateScores(list: seq<HonorStanding>) returns (sc: HonorScores)
    requires IsStandingList(list) && 0 < |list|
    ensures sc == Curve(list) && IsCurve(sc)
  {
    hide Group, IsCurve, IsStandingList;
    CurveIsCurve(list);
    var brk := new nat[14](_ => 0);
    for i := 0 to 14
      invariant forall k :: 0 <= k < i ==> brk[k] == Position(|list|, k)
    {
      brk[i] := Breakpoint(Group(i), |list|);
    }
    var fy := RankPointsColumn();
    var fx := ContributionColumn(list, brk[..]);
    sc := HonorScores(fx, fy, brk[..]);
    assert sc == Curve(list);
  }

  /** The fixed rank points of the curve. */
  method RankPointsColumn() returns (column: seq<real>)
    ensures |column| == 15 && forall i :: 0 <= i < 15 ==> column[i] == RankPointsAt(i)
  {
    var fy := new real[15](_ => 0.0);
    fy[0] := 0.0;
    fy[1] := 400.0;
    for i := 2 to 14
      invariant forall k :: 0 <= k < i ==> fy[k] == RankPointsAt(k)
    {
      fy[i] := ((i - 1) * 1000) as real;
    }
    fy[14] := 13000.0;
    column := fy[..];
  }

  /** The contribution points found around the breakpoints. */
  method ContributionColumn(list: seq<HonorStanding>, brk: seq<nat>) returns (column: seq<real>)
    requires IsStandingList(list) && 0 < |list|
    requires brk == Curve(list).BRK
    ensures column == Curve(list).FX
  {
    hide IsStandingList, Position, RankPointsAt;
    ghost var goal := Curve(list).FX;
    var fx := new real[15](_ => 0.0);
    fx[0] := 0.0;
    var topScore, top := list[0].cp, false;
    for i := 1 to 14
      invariant forall k :: 0 <= k < i ==> fx[k] == goal[k]
      invariant top <==> 1 < i && goal[1] == 0.0
    {
      var honor := TwoPlayers(list, brk[i]);
      fx[i] := if honor != 0.0 then honor / 2.0 else 0.0;
      if 1 < i {
        ScoresRise(list, 1, i);
      }
      if !top && honor == 0.0 {
        assert fx[i - 1] == 0.0;
        fx[i] := if fx[i - 1] != 0.0 then topScore else 0.0;
        top := true;
      }
    }
    fx[14] := if !top then topScore else 0.0;
    column := fx[..];
  }

  /** The summed contribution of the two players around a position. */
  method TwoPlayers(list: seq<HonorStanding>, position: nat) returns (honor: real)
    requires IsStandingList(list)
    ensures honor / 2.0 == Score(list, position) && (honor == 0.0 <==> Score(list, position) == 0.0)
  {
    honor := 0.0;
    var tempHonor := GetStandingCPByPosition(list, position);
    if tempHonor != 0.0 {
      honor := honor + tempHonor;
      tempHonor := GetStandingCPByPosition(list, position + 1);
      if tempHonor != 0.0 {
        honor := honor + tempHonor;
      }
    }
  }

  // ---------------------------------------------------------------------------
  // Earnings
  // ---------------------------------------------------------------------------

  /** The first index from `i` on whose FX exceeds `cp`, at most 14. */
  function Segment(sc: HonorScores, cp: real, i: nat): (k: nat)
    requires IsCurve(sc) && i <= 14
    ensures i <= k <= 14
    ensures forall j :: i <= j < k ==> sc.FX[j] <= cp
    ensures k < 14 ==> cp < sc.FX[k]
    decreases 14 - i
  {
    if i < 14 && sc.BRK[i] > 0 && sc.FX[i] <= cp then Segment(sc, cp, i + 1) else i
  }

  function Interpolated(x0: real, y0: real, x1: real, y1: real, cp: real): (y: real)
    requires x0 < x1
  {
    (y1 - y0) * (cp - x0) / (x1 - x0) + y0
  }

  /** The rank points a contribution earns. */
  function Earning(sc: HonorScores, cp: real): (rp: real)
    requires IsCurve(sc) && 0.0 <= cp
  {
    var i := Segment(sc, cp, 0);
    if sc.FX[i] > cp && cp >= sc.FX[i - 1] then
      Interpolated(sc.FX[i - 1], sc.FY[i - 1], sc.FX[i], sc.FY[i], cp)
    else sc.FY[i]
  }

  method CalculateRpEarning(cp: real, sc: HonorScores) returns (rp: real)
    requires IsCurve(sc) && 0.0 <= cp
    ensures rp == Earning(sc, cp)
  {
    hide Interpolated, RankPointsAt;
    var i := 0;
    while i < 14 && sc.BRK[i] > 0 && sc.FX[i] <= cp
      invariant i <= 14
      invariant Segment(sc, cp, i) == Segment(sc, cp, 0)
      invariant i == 0 ==> sc.FX[0] <= cp
    {
      i := i + 1;
    }
    if sc.FX[i] > cp && cp >= sc.FX[i - 1] {
      return Interpolated(sc.FX[i - 1], sc.FY[i - 1], sc.FX[i], sc.FY[i], cp);
    }
    return sc.FY[i];
  }

  lemma QuotientGrows(a: real, b: real, d: real)
    requires a <= b && 0.0 < d
    ensures a / d <= b / d
  {
  }

  /** Interpolation stays between its end points and rises. */
  lemma InterpolationRises(x0: real, y0: real, x1: real, y1: real, c: real, d: real)
    requires x0 <= c <= d < x1 && y0 <= y1
    ensures y0 <= Interpolated(x0, y0, x1, y1, c) <= Interpolated(x0, y0, x1, y1, d) <= y1
  {
    var dx, dy := x1 - x0, y1 - y0;
    assert 0.0 <= dy * (c - x0) <= dy * (d - x0) <= dy * dx by {
      assert dy * (d - c) >= 0.0;
      assert dy * (x1 - d) >= 0.0;
    }
    QuotientGrows(0.0, dy * (c - x0), dx);
    QuotientGrows(dy * (c - x0), dy * (d - x0), dx);
    QuotientGrows(dy * (d - x0), dy * dx, dx);
    assert dy * dx / dx == dy;
  }

  /** Earnings lie between the rank points of the segment they fall into. */
  lemma EarningInSegment(sc: HonorScores, cp: real)
    requires IsCurve(sc) && 0.0 <= cp
    ensures var i := Segment(sc, cp, 0);
            && 1 <= i
            && sc.FY[i - 1] <= Earning(sc, cp) <= sc.FY[i]
            && 0.0 <= Earning(sc, cp) <= 13000.0
  {
    var i := Segment(sc, cp, 0);
    if i < 14 || sc.FX[i] > cp {
      InterpolationRises(sc.FX[i - 1], sc.FY[i - 1], sc.FX[i], sc.FY[i], cp, cp);
    }
  }

  lemma SegmentsRise(sc: HonorScores, c: real, d: real)
    requires IsCurve(sc) && 0.0 <= c <= d
    ensures Segment(sc, c, 0) <= Segment(sc, d, 0)
  {
  }

  lemma RankPointsRise(i: nat, j: nat)
    requires i <= j
    ensures RankPointsAt(i) <= RankPointsAt(j)
  {
  }

  /** An earning as the interpolation over its segment, or the last rank points beyond the curve. */
  lemma EarningOver(sc: HonorScores, cp: real)
    requires IsCurve(sc) && 0.0 <= cp
    ensures var i := Segment(sc, cp, 0);
            && 1 <= i && sc.FY[i - 1] <= sc.FY[i]
            && if cp < sc.FX[i] then
                 && sc.FX[i - 1] <= cp
                 && Earning(sc, cp) == Interpolated(sc.FX[i - 1], sc.FY[i - 1], sc.FX[i], sc.FY[i], cp)
               else Earning(sc, cp) == sc.FY[i]
  {
    hide Interpolated;
    assert sc.FX[0] <= cp;
  }

  lemma RankPointsOfCurve(sc: HonorScores, i: nat, j: nat)
    requires IsCurve(sc) && i <= j <= 14
    ensures sc.FY[i] <= sc.FY[j]
  {
    RankPointsRise(i, j);
  }

  /** Who contributes more never earns less. */
  lemma EarningRises(sc: HonorScores, c: real, d: real)
    requires IsCurve(sc) && 0.0 <= c <= d
    ensures Earning(sc, c) <= Earning(sc, d)
  {
    var i, j := Segment(sc, c, 0), Segment(sc, d, 0);
    EarningInSegment(sc, c);
    EarningInSegment(sc, d);
    SegmentsRise(sc, c, d);
    EarningOver(sc, c);
    EarningOver(sc, d);
    if i < j {
      RankPointsOfCurve(sc, i, j - 1);
    }
    hide *;
    if i == j && d < sc.FX[i] {
      InterpolationRises(sc.FX[i - 1], sc.FY[i - 1], sc.FX[i], sc.FY[i], c, d);
    }
  }

  lemma SegmentAt(sc: HonorScores, k: nat, cp: real)
    requires IsCurve(sc) && k < 14 && sc.FX[k] <= cp < sc.FX[k + 1]
    ensures 0.0 <= cp && Segment(sc, cp, 0) == k + 1
  {
    hide Segment, RankPointsAt;
    assert forall j :: 0 <= j <= k ==> sc.FX[j] <= sc.FX[k];
  }

  /** The point (x, y) lies on the line through (x0, y0) and (x1, y1). */
  predicate OnLine(x0: real, y0: real, x1: real, y1: real, x: real, y: real) {
    (y - y0) * (x1 - x0) == (y1 - y0) * (x - x0)
  }

  lemma InterpolationOnLine(x0: real, y0: real, x1: real, y1: real, cp: real)
    requires x0 < x1
    ensures OnLine(x0, y0, x1, y1, cp, Interpolated(x0, y0, x1, y1, cp))
  {
    var n, d := (y1 - y0) * (cp - x0), x1 - x0;
    assert n / d * d == n;
  }

  /** Between two neighbouring points of the curve, earnings lie on the line through them. */
  lemma EarningOnChord(sc: HonorScores, k: nat, cp: real)
    requires IsCurve(sc) && k < 14 && sc.FX[k] <= cp < sc.FX[k + 1]
    ensures 0.0 <= cp
    ensures OnLine(sc.FX[k], sc.FY[k], sc.FX[k + 1], sc.FY[k + 1], cp, Earning(sc, cp))
  {
    hide OnLine, Interpolated, Segment;
    SegmentAt(sc, k, cp);
    InterpolationOnLine(sc.FX[k], sc.FY[k], sc.FX[k + 1], sc.FY[k + 1], cp);
  }

  /** Down the standings nobody earns more than the players above. */
  lemma EarningsFallDownTheStandings(list: seq<HonorStanding>, i: nat, j: nat)
    requires IsStandingList(list) && i <= j < |list|
    ensures IsCurve(Curve(list))
    ensures 13000.0 >= Earning(Curve(list), list[i].cp) >= Earning(Curve(list), list[j].cp) >= 0.0
  {
    assert 0.0 <= list[j].cp <= list[i].cp;
    hide IsStandingList, IsCurve, Curve, Earning;
    CurveIsCurve(list);
    EarningInSegment(Curve(list), list[i].cp);
    EarningInSegment(Curve(list), list[j].cp);
    EarningRises(Curve(list), list[j].cp, list[i].cp);
  }

  /** The top of the standings earns the full 13000 points, however short the list. */
  lemma TopScorerEarnsMost(list: seq<HonorStanding>)
    requires IsStandingList(list) && 0 < |list|
    ensures IsCurve(Curve(list)) && Earning(Curve(list), list[0].cp) == 13000.0
  {
    CurveIsCurve(list);
    var sc := Curve(list);
    var i := Segment(sc, list[0].cp, 0);
    if 0 < i < 14 {
      ScoresRise(list, 0, i);
    }
  }

  // ---------------------------------------------------------------------------
  // The curve in numbers
  // ---------------------------------------------------------------------------

  /** Thousandths of the faction at or above each breakpoint. */
  function Thousandths(i: nat): (n: nat) {
    match i
    case 0 => 1000
    case 1 => 845
    case 2 => 697
    case 3 => 566
    case 4 => 436
    case 5 => 327
    case 6 => 228
    case 7 => 159
    case 8 => 100
    case 9 => 60
    case 10 => 35
    case 11 => 20
    case 12 => 8
    case _ => 3
  }

  /** Each breakpoint is its share of the faction, taken as 800 players at least, rounded to the nearest place. */
  lemma BreakpointsAre(size: nat, i: nat)
    requires i < 14
    ensures Position(size, i) == (Thousandths(i) * (if size < 800 then 800 else size) + 500) / 1000
  {
    var n, m := Pool(size), Thousandths(i);
    GroupIs(i);
    assert n == if size < 800 then 800 else size;
    hide Group, Thousandths;
    Rounded(m, n);
  }

  lemma GroupIs(i: nat)
    requires i < 14
    ensures Group(i) == Thousandths(i) as real / 1000.0
  {
  }

  /** Rounding a share in thousandths is whole division. */
  lemma Rounded(m: nat, n: nat)
    ensures (m as real / 1000.0 * n as real + 0.5).Floor == (m * n + 500) / 1000
  {
    var x := m * n + 500;
    var q, r := x / 1000, x % 1000;
    assert x == 1000 * q + r;
    assert m as real / 1000.0 * n as real == (m * n) as real / 1000.0;
    assert (m * n) as real / 1000.0 + 0.5 == x as real / 1000.0;
    assert x as real / 1000.0 == q as real + r as real / 1000.0;
  }

  /** A score is the average of the players at and behind a place, counting none as zero. */
  lemma ScoreIsAverage(list: seq<HonorStanding>, place: nat)
    requires IsStandingList(list) && 1 <= place
    ensures place < |list| && list[place - 1].cp > 0.0 ==> 2.0 * Score(list, place) == list[place - 1].cp + list[place].cp
    ensures place == |list| ==> 2.0 * Score(list, place) == list[place - 1].cp
    ensures place > |list| || list[place - 1].cp == 0.0 ==> Score(list, place) == 0.0
  {
  }

  /** Who contributes what a breakpoint stands at earns its round number of points: 0, 400, 1000, 2000 and so on to 12000. */
  lemma EarningAtBreakpoint(list: seq<HonorStanding>, i: nat)
    requires IsStandingList(list) && 0 < |list| && i < 14
    requires Curve(list).FX[i] < Curve(list).FX[i + 1]
    ensures IsCurve(Curve(list)) && 0.0 <= Curve(list).FX[i]
    ensures Earning(Curve(list), Curve(list).FX[i]) ==
            if i == 0 then 0.0 else if i == 1 then 400.0 else ((i - 1) * 1000) as real
  {
    CurveIsCurve(list);
    var sc := Curve(list);
    hide Curve, Interpolated;
    SegmentAt(sc, i, sc.FX[i]);
    AtLowerEnd(sc.FX[i], sc.FY[i], sc.FX[i + 1], sc.FY[i + 1]);
  }

  lemma AtLowerEnd(x0: real, y0: real, x1: real, y1: real)
    requires x0 < x1
    ensures Interpolated(x0, y0, x1, y1, x0) == y0
  {
  }

  /** The curve is made of the scores at the breakpoints, with zero below and the first player's points on top. */
  lemma CurveIs(list: seq<HonorStanding>, i: nat)
    requires 0 < |list| && i < 15
    ensures |Curve(list).FX| == 15
    ensures Curve(list).FX[i] ==
            if i == 0 then 0.0
            else if i < 14 then Score(list, Position(|list|, i))
            else if Score(list, Position(|list|, 1)) == 0.0 then 0.0 else list[0].cp
  {
  }
}
