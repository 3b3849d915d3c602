/**
 Rank points from week to week: decay with its floors, level caps, the ranks points stand
 for, and the highest rank kept by the weekly flush.
 */
module HonorRanks {
  import opened Honor

  datatype WeeklyScore = WeeklyScore(
    level: nat,
    cp: real,
    oldRp: real,
    newRp: real,
    earning: real,
    standing: nat,
    highestRank: nat)

  datatype HonorRankInfo = HonorRankInfo(rank: nat, visualRank: int, maxRP: real, minRP: real, positive: bool)

  /** Points needed for each rank from visual rank 2 on. */
  const RANK_MIN_RP: seq<nat> := [
    2000, 5000, 10000, 15000, 20000, 25000, 30000, 35000, 40000, 45000, 50000, 55000, 60000]

  function Floor(x: real): (f: real)
    ensures f <= x < f + 1.0
  {
    x.Floor as real
  }

  function Min(a: real, b: real): (m: real)
  {
    if a <= b then a else b
  }

  /** Lowest points a player with this highest rank can decay to. */
  function RankFloor(highestRank: nat): (rp: real)
    requires highestRank <= 18
  {
    if highestRank > 1 + NEGATIVE_HONOR_RANK_COUNT then
      RANK_MIN_RP[highestRank - 2 - NEGATIVE_HONOR_RANK_COUNT] as real
    else 0.0
  }

  /** The change of rank points before the floor. */
  function Delta(rpEarning: real, oldRp: real): (d: real)
  {
    var decay := Floor(0.2 * oldRp + 0.5);
    var delta := rpEarning - decay;
    var halved := if delta < 0.0 then delta / 2.0 else delta;
    if halved < -2500.0 then -2500.0 else halved
  }

  function CalculateRpDecay(rpEarning: real, wk: WeeklyScore): (rp: real)
    requires wk.highestRank <= 18
  {
    var newRp := wk.oldRp + Delta(rpEarning, wk.oldRp);
    if wk.highestRank > 1 + NEGATIVE_HONOR_RANK_COUNT && newRp < RankFloor(wk.highestRank)
    then RankFloor(wk.highestRank) else newRp
  }

  function MaximumRpAtLevel(level: nat): (rp: real)
    ensures 6500.0 <= rp <= 65000.0
  {
    if level <= 29 then 6500.0
    else if 30 <= level <= 35 then (7150 + 975 * (level - 30)) as real
    else if 36 <= level <= 39 then (12025 + 1300 * (level - 35)) as real
    else if 40 <= level <= 43 then (17225 + 1625 * (level - 39)) as real
    else if 44 <= level <= 52 then (23725 + 2275 * (level - 43)) as real
    else if 53 <= level <= 60 then (44200 + 2600 * (level - 52)) as real
    else 65000.0
  }

  /**
   The size of a week: who earns less than a fifth of the points, rounded, loses half of what is
   missing, at most 2500 points; who earns more gains the difference.
   */
  lemma HalfOfWhatIsMissing(e: real, wk: WeeklyScore)
    requires wk.highestRank <= 5
    ensures var fifth := (wk.oldRp / 5.0 + 0.5).Floor as real;
            var rp := CalculateRpDecay(e, wk);
            && (e >= fifth ==> rp - wk.oldRp == e - fifth)
            && (e <= fifth ==> 2.0 * (wk.oldRp - rp) == Min(5000.0, fifth - e))
  {
    assert wk.oldRp / 5.0 == 0.2 * wk.oldRp;
  }

  /** A rank earned once sets a floor and changes nothing else. */
  lemma FloorTakesOver(e: real, wk: WeeklyScore)
    requires 6 <= wk.highestRank <= 18
    ensures var without := CalculateRpDecay(e, wk.(highestRank := 5));
            CalculateRpDecay(e, wk) == if without < RankFloor(wk.highestRank) then RankFloor(wk.highestRank) else without
  {
  }

  /** A player who earned no rank that sets a floor loses a tenth in an idle week, to within a quarter of a point. */
  lemma IdleWeekTakesATenth(wk: WeeklyScore)
    requires wk.highestRank <= 5 && 0.0 <= wk.oldRp <= 25000.0
    ensures -0.25 <= (wk.oldRp - CalculateRpDecay(0.0, wk)) - wk.oldRp / 10.0 <= 0.25
  {
    HalfOfWhatIsMissing(0.0, wk);
    var fifth := (wk.oldRp / 5.0 + 0.5).Floor;
    assert wk.oldRp / 5.0 + 0.5 <= 5000.5;
    assert fifth <= 5000;
  }

  /** The floors, by the highest rank: 2000 for rank 6, 5000 for rank 7, and 5000 more for each rank behind it. */
  lemma FloorsAre(h: nat)
    requires h <= 18
    ensures RankFloor(h) == if h <= 5 then 0.0 else if h == 6 then 2000.0 else ((h - 6) * 5000) as real
  {
  }

  /** What one more level adds to the level cap. */
  lemma LevelCapSteps(level: nat)
    ensures MaximumRpAtLevel(29) == 6500.0
    ensures MaximumRpAtLevel(level + 1) - MaximumRpAtLevel(level) ==
            if level < 29 || level >= 60 then 0.0
            else if level == 29 then 650.0
            else if level < 35 then 975.0
            else if level < 39 then 1300.0
            else if level < 43 then 1625.0
            else if level < 52 then 2275.0
            else 2600.0
  {
  }

  /** The decay step never takes more than 2500 points. */
  lemma DecayLosesAtMost2500(e: real, wk: WeeklyScore)
    requires wk.highestRank <= 18
    ensures CalculateRpDecay(e, wk) >= wk.oldRp - 2500.0
  {
  }

  /** Points stay between 0 and 65000, even before the level cap. */
  lemma DecayStaysInRange(e: real, wk: WeeklyScore)
    requires wk.highestRank <= 18 && 0.0 <= e <= 13000.0 && 0.0 <= wk.oldRp <= 65000.0
    ensures 0.0 <= CalculateRpDecay(e, wk) <= 65000.0
  {
    var r := wk.oldRp;
    var decay := Floor(0.2 * r + 0.5);
    if r < 2.5 {
      assert (0.2 * r + 0.5).Floor == 0;
    } else if r > 64997.5 {
      assert 13000.0 <= 0.2 * r + 0.5 < 13001.0;
      assert (0.2 * r + 0.5).Floor == 13000;
    }
    assert decay > 0.2 * r - 0.5;
    assert RankFloor(wk.highestRank) <= 60000.0;
  }

  /** Who earns more in a week is never left with less. */
  lemma EarningMoreKeepsMore(e: real, f: real, wk: WeeklyScore)
    requires wk.highestRank <= 18 && e <= f
    ensures CalculateRpDecay(e, wk) <= CalculateRpDecay(f, wk)
  {
  }

  /** Points settle at five times a whole weekly earning: below they grow, above they shrink. */
  lemma PointsSettleAtFiveEarnings(e: nat, wk: WeeklyScore)
    requires wk.highestRank <= 1 + NEGATIVE_HONOR_RANK_COUNT
    ensures var steady := 5.0 * e as real;
            && (CalculateRpDecay(e as real, wk) > wk.oldRp <==> wk.oldRp < steady - 2.5)
            && (CalculateRpDecay(e as real, wk) < wk.oldRp <==> wk.oldRp >= steady + 2.5)
  {
    var decay := (0.2 * wk.oldRp + 0.5).Floor;
    assert decay < e <==> 0.2 * wk.oldRp + 0.5 < e as real;
    assert decay > e <==> 0.2 * wk.oldRp + 0.5 >= e as real + 1.0;
  }

  /** Higher caps at higher levels. */
  lemma LevelCapRises(a: nat, b: nat)
    requires a <= b
    ensures MaximumRpAtLevel(a) <= MaximumRpAtLevel(b)
  {
  }

  // ---------------------------------------------------------------------------
  // Ranks
  // ---------------------------------------------------------------------------

  const NO_RANK := HonorRankInfo(0, 0, 2000.0, 0.0, true)

  /** The value an integer has after conversion to int8. */
  function Int8(x: int): (r: int)
    ensures -128 <= r < 128
    ensures -128 <= x < 128 ==> r == x
  {
    (x + 128) % 256 - 128
  }

  function CalculateRankInfo(prk: HonorRankInfo): (r: HonorRankInfo)
    ensures r.rank == prk.rank
  {
    if prk.rank == 0 then NO_RANK
    else
      var step := Int8(if prk.positive then prk.rank - NEGATIVE_HONOR_RANK_COUNT - 1 else prk.rank - NEGATIVE_HONOR_RANK_COUNT);
      var top := step as real * 5000.0;
      var maxRP := if top < 0.0 then -top else top;
      var minRP := if maxRP > 5000.0 then maxRP - 5000.0 else 2000.0;
      HonorRankInfo(
        prk.rank,
        Int8(if prk.rank > NEGATIVE_HONOR_RANK_COUNT then prk.rank - NEGATIVE_HONOR_RANK_COUNT else 0 - prk.rank),
        if prk.rank == 5 then 2000.0 else maxRP,
        if prk.rank == 5 then 0.0 else minRP,
        prk.positive)
  }

  /** The rank number of `rp` points. */
  function RankOf(rp: real): (rank: nat)
    ensures rank < HONOR_RANK_COUNT
  {
    if rp == 0.0 then 0
    else if rp > 0.0 then
      if rp < 2000.0 then NEGATIVE_HONOR_RANK_COUNT + 1
      else if rp > ((POSITIVE_HONOR_RANK_COUNT - 3) * 5000) as real then HONOR_RANK_COUNT - 1
      else
        assert 0 <= (rp / 5000.0).Floor <= 12;
        (rp / 5000.0).Floor + NEGATIVE_HONOR_RANK_COUNT + 1 + 1
    else
      if -rp < 2000.0 then NEGATIVE_HONOR_RANK_COUNT
      else if -rp > ((NEGATIVE_HONOR_RANK_COUNT - 1) * 5000) as real then 1
      else
        assert 0 <= (-rp / 5000.0).Floor <= 3;
        NEGATIVE_HONOR_RANK_COUNT - ((-rp / 5000.0).Floor + 1)
  }

  function CalculateRank(rp: real): (r: HonorRankInfo)
  {
    if rp == 0.0 then NO_RANK
    else CalculateRankInfo(NO_RANK.(positive := rp > 0.0, rank := RankOf(rp)))
  }

  /** The points of a positive rank lie within its limits. */
  lemma PointsWithinRankLimits(rp: real)
    requires 0.0 < rp <= 65000.0
    ensures var r := CalculateRank(rp);
            5 <= r.rank <= 18 && r.visualRank == r.rank - 4 && r.minRP <= rp <= r.maxRP
  {
    var q := (rp / 5000.0).Floor;
    assert q as real * 5000.0 <= rp < (q as real + 1.0) * 5000.0;
  }

  /** The ranks in numbers: 5 below 2000 points, 6 below 5000, then one more for every 5000, up to 18. */
  lemma RanksAre(rp: real)
    requires 0.0 < rp
    ensures CalculateRank(rp).rank ==
            if rp < 2000.0 then 5 else if rp < 5000.0 then 6 else if rp >= 60000.0 then 18 else (rp / 5000.0).Floor + 6
    ensures var r := CalculateRank(rp);
            && r.visualRank == r.rank - 4 && r.positive
            && r.minRP == (if r.rank == 5 then 0.0 else if r.rank == 6 then 2000.0 else ((r.rank - 6) * 5000) as real)
            && r.maxRP == (if r.rank == 5 then 2000.0 else ((r.rank - 5) * 5000) as real)
  {
    if 2000.0 <= rp < 65000.0 {
      var q := (rp / 5000.0).Floor;
      assert q as real * 5000.0 <= rp < (q as real + 1.0) * 5000.0;
    }
  }

  /** Points below zero: ranks 4 down to 1, shown as -4 to -1, with their limits; no points at all are no rank. */
  lemma DishonorRanksAre(rp: real)
    requires -15000.0 != rp <= 0.0
    ensures rp == 0.0 ==> CalculateRank(rp) == HonorRankInfo(0, 0, 2000.0, 0.0, true)
    ensures var d := -rp;
            var rank := if d < 2000.0 then 4 else if d < 5000.0 then 3 else if d < 10000.0 then 2 else 1;
            rp < 0.0 ==>
              CalculateRank(rp) == HonorRankInfo(rank, -rank, ((4 - rank) * 5000) as real,
                                                 if rank >= 3 then 2000.0 else if rank == 2 then 5000.0 else 10000.0, false)
  {
    if -15000.0 < rp <= -2000.0 {
      var q := (-rp / 5000.0).Floor;
      assert q as real * 5000.0 <= -rp < (q as real + 1.0) * 5000.0;
    }
  }

  /** More points never mean a lower rank. */
  lemma RankRises(a: real, b: real)
    requires 0.0 <= a <= b
    ensures CalculateRank(a).rank <= CalculateRank(b).rank
  {
    assert a / 5000.0 <= b / 5000.0;
  }

  /** The floor table is the lower limit of each rank, and reaching it is the same as reaching the rank. */
  lemma RankFloorIsRankLimit(h: nat, rp: real)
    requires 6 <= h <= 18 && 0.0 <= rp
    ensures CalculateRankInfo(NO_RANK.(rank := h)).minRP == RankFloor(h)
    ensures CalculateRank(rp).rank >= h <==> rp >= RankFloor(h)
  {
    assert RankFloor(h) == if h == 6 then 2000.0 else ((h - 6) * 5000) as real by {
      RankFloorValue(h);
    }
    var q := (rp / 5000.0).Floor;
    assert q as real * 5000.0 <= rp < (q as real + 1.0) * 5000.0;
  }

  lemma RankFloorValue(h: nat)
    requires 6 <= h <= 18
    ensures RankFloor(h) == if h == 6 then 2000.0 else ((h - 6) * 5000) as real
  {
  }

  /** Before the level cap a week never costs an earned rank. */
  lemma DecayKeepsRank(e: real, wk: WeeklyScore)
    requires 6 <= wk.highestRank <= 18
    ensures CalculateRank(CalculateRpDecay(e, wk)).rank >= wk.highestRank
  {
    RankFloorValue(wk.highestRank);
    RankFloorIsRankLimit(wk.highestRank, CalculateRpDecay(e, wk));
  }

  /** With the level cap the earned rank is kept exactly when the cap reaches the rank's lower limit. */
  lemma CappedDecayKeepsRankIff(e: real, wk: WeeklyScore)
    requires 6 <= wk.highestRank <= 18
    ensures CalculateRank(Min(MaximumRpAtLevel(wk.level), CalculateRpDecay(e, wk))).rank >= wk.highestRank
            <==> MaximumRpAtLevel(wk.level) >= RankFloor(wk.highestRank)
  {
    RankFloorValue(wk.highestRank);
    RankFloorIsRankLimit(wk.highestRank, Min(MaximumRpAtLevel(wk.level), CalculateRpDecay(e, wk)));
  }

  /** A general's rank does not survive a week at level 29. */
  lemma LevelCapCostsRank()
    ensures exists e: real, wk: WeeklyScore :: 0.0 <= e <= 13000.0 && 6 <= wk.highestRank <= 18 &&
              CalculateRank(wk.oldRp).rank == wk.highestRank &&
              CalculateRank(Min(MaximumRpAtLevel(wk.level), CalculateRpDecay(e, wk))).rank < wk.highestRank
  {
    var wk := WeeklyScore(29, 0.0, 61000.0, 0.0, 0.0, 0, 18);
    CappedDecayKeepsRankIff(13000.0, wk);
    assert MaximumRpAtLevel(wk.level) == 6500.0;
  }

  /** Rank 0 is the rank of no points, but also of exactly -15000. */
  lemma RankZeroIff(rp: real)
    ensures CalculateRank(rp).rank == 0 <==> rp == 0.0 || rp == -15000.0
  {
    if -15000.0 <= rp <= -2000.0 {
      var q := (-rp / 5000.0).Floor;
      assert q as real * 5000.0 <= -rp < (q as real + 1.0) * 5000.0;
    }
  }

  // ---------------------------------------------------------------------------
  // The weekly flush and runs of weeks
  // ---------------------------------------------------------------------------

  /** The highest rank the flush stores. */
  function FlushedRank(newRp: real, highestRank: nat): (rank: nat)
  {
    var current := CalculateRank(newRp);
    var highest := CalculateRankInfo(NO_RANK.(rank := highestRank));
    if current.visualRank > 0 && current.visualRank > highest.visualRank then current.rank else highest.rank
  }

  /** For points that are not negative the flush keeps the better of the two ranks. */
  lemma FlushKeepsBetterRank(newRp: real, highestRank: nat)
    requires 0.0 <= newRp && highestRank <= 18
    ensures FlushedRank(newRp, highestRank) ==
            if CalculateRank(newRp).rank > highestRank then CalculateRank(newRp).rank else highestRank
    ensures FlushedRank(newRp, highestRank) <= 18
  {
  }

  /** Points are stored with one decimal: `stored` is `rp` printed that way. */
  ghost predicate StoredAs(rp: real, stored: real) {
    && rp - 0.05 <= stored <= rp + 0.05
    && (10.0 * stored).Floor as real == 10.0 * stored
  }

  /** Rounding to one decimal does not cross a whole number. */
  lemma StoringKeepsWholeBounds(rp: real, stored: real, n: int)
    requires StoredAs(rp, stored)
    ensures rp <= n as real ==> stored <= n as real
    ensures n as real <= rp ==> n as real <= stored
  {
    var t := (10.0 * stored).Floor;
    assert 10.0 * stored == t as real;
    assert rp <= n as real ==> t as real <= (10 * n) as real + 0.5;
    assert n as real <= rp ==> (10 * n) as real - 0.5 <= t as real;
    assert rp <= n as real ==> t <= 10 * n;
    assert n as real <= rp ==> 10 * n <= t;
  }

  /** One maintenance for one player: what was earned, and the points the flush stored. */
  datatype Week =
    | Active(earning: real, level: nat, stored: real)
    | Inactive(stored: real)

  /** The points before they are stored. */
  function WeekPoints(rp: real, highestRank: nat, w: Week): (newRp: real)
    requires highestRank <= 18
  {
    var wk := WeeklyScore(if w.Active? then w.level else 0, 0.0, rp, 0.0, 0.0, 0, highestRank);
    match w
    case Active(earning, level, _) => Min(MaximumRpAtLevel(level), CalculateRpDecay(earning, wk))
    case Inactive(_) => CalculateRpDecay(0.0, wk)
  }

  ghost predicate IsWeek(rp: real, highestRank: nat, w: Week)
    requires highestRank <= 18
  {
    && (w.Active? ==> 0.0 <= w.earning <= 13000.0)
    && StoredAs(WeekPoints(rp, highestRank, w), w.stored)
  }

  /** Every week keeps the points within [0, 65000] and the highest rank at most 18 and never lowers it. */
  lemma WeekStaysInRange(rp: real, highestRank: nat, w: Week)
    requires 0.0 <= rp <= 65000.0 && highestRank <= 18 && IsWeek(rp, highestRank, w)
    ensures 0.0 <= WeekPoints(rp, highestRank, w) <= 65000.0 && 0.0 <= w.stored <= 65000.0
    ensures highestRank <= FlushedRank(WeekPoints(rp, highestRank, w), highestRank) <= 18
  {
    var wk := WeeklyScore(if w.Active? then w.level else 0, 0.0, rp, 0.0, 0.0, 0, highestRank);
    DecayStaysInRange(if w.Active? then w.earning else 0.0, wk);
    StoringKeepsWholeBounds(WeekPoints(rp, highestRank, w), w.stored, 65000);
    StoringKeepsWholeBounds(WeekPoints(rp, highestRank, w), w.stored, 0);
    FlushKeepsBetterRank(WeekPoints(rp, highestRank, w), highestRank);
  }

  /** A run of weeks, each starting from the points and the rank stored by the one before. */
  ghost predicate IsRun(rp: real, highestRank: nat, weeks: seq<Week>)
    requires 0.0 <= rp <= 65000.0 && highestRank <= 18
    decreases |weeks|
  {
    weeks == [] ||
    (&& IsWeek(rp, highestRank, weeks[0])
     && (WeekStaysInRange(rp, highestRank, weeks[0]);
         IsRun(weeks[0].stored, FlushedRank(WeekPoints(rp, highestRank, weeks[0]), highestRank), weeks[1..])))
  }

  /** The points stored at the end of a run. */
  function PointsAfter(rp: real, weeks: seq<Week>): (r: real)
  {
    if weeks == [] then rp else weeks[|weeks| - 1].stored
  }

  ghost function RankAfter(rp: real, highestRank: nat, weeks: seq<Week>): (rank: nat)
    requires 0.0 <= rp <= 65000.0 && highestRank <= 18 && IsRun(rp, highestRank, weeks)
    decreases |weeks|
  {
    if weeks == [] then highestRank
    else
      WeekStaysInRange(rp, highestRank, weeks[0]);
      RankAfter(weeks[0].stored, FlushedRank(WeekPoints(rp, highestRank, weeks[0]), highestRank), weeks[1..])
  }

  /** Over any number of weeks points stay in [0, 65000] and the highest rank only rises, up to 18. */
  lemma {:induction false} RunStaysInRange(rp: real, highestRank: nat, weeks: seq<Week>)
    requires 0.0 <= rp <= 65000.0 && highestRank <= 18 && IsRun(rp, highestRank, weeks)
    ensures 0.0 <= PointsAfter(rp, weeks) <= 65000.0
    ensures highestRank <= RankAfter(rp, highestRank, weeks) <= 18
    decreases |weeks|
  {
    hide IsWeek, FlushedRank, WeekPoints;
    if weeks != [] {
      WeekStaysInRange(rp, highestRank, weeks[0]);
      RunStaysInRange(weeks[0].stored, FlushedRank(WeekPoints(rp, highestRank, weeks[0]), highestRank), weeks[1..]);
    }
  }

  /** A run in which every level cap reaches the floor of rank `h` never drops below rank `h` once it was reached. */
  lemma {:induction false} RankKeptUnderCaps(rp: real, highestRank: nat, weeks: seq<Week>, h: nat)
    requires 6 <= h <= highestRank <= 18 && 0.0 <= rp <= 65000.0 && CalculateRank(rp).rank >= h
    requires IsRun(rp, highestRank, weeks)
    requires forall i :: 0 <= i < |weeks| && weeks[i].Active? ==> MaximumRpAtLevel(weeks[i].level) >= RankFloor(h)
    ensures CalculateRank(PointsAfter(rp, weeks)).rank >= h
    decreases |weeks|
  {
    hide IsWeek, FlushedRank, WeekPoints, CalculateRank;
    if weeks != [] {
      WeekStaysInRange(rp, highestRank, weeks[0]);
      WeekKeepsRank(rp, highestRank, weeks[0], h);
      RankKeptUnderCaps(weeks[0].stored, FlushedRank(WeekPoints(rp, highestRank, weeks[0]), highestRank), weeks[1..], h);
    }
  }

  lemma WeekKeepsRank(rp: real, highestRank: nat, w: Week, h: nat)
    requires 6 <= h <= highestRank <= 18 && 0.0 <= rp <= 65000.0 && IsWeek(rp, highestRank, w)
    requires w.Active? ==> MaximumRpAtLevel(w.level) >= RankFloor(h)
    ensures CalculateRank(w.stored).rank >= h
  {
    var newRp := WeekPoints(rp, highestRank, w);
    WeekStaysInRange(rp, highestRank, w);
    RankFloorValue(h);
    RankFloorValue(highestRank);
    assert newRp >= RankFloor(h);
    StoringKeepsWholeBounds(newRp, w.stored, if h == 6 then 2000 else (h - 6) * 5000);
    RankFloorIsRankLimit(h, w.stored);
  }

  /** Neither the points nor the floor of the highest rank lie above the level cap. */
  predicate UnderCap(rp: real, highestRank: nat, level: nat)
    requires highestRank <= 18
  {
    rp <= MaximumRpAtLevel(level) && (highestRank >= 6 ==> RankFloor(highestRank) <= MaximumRpAtLevel(level))
  }

  /** The points reach the floor of the highest rank. */
  predicate HoldsRank(rp: real, highestRank: nat)
    requires highestRank <= 18
  {
    highestRank >= 6 ==> RankFloor(highestRank) <= rp
  }

  function LevelAfter(level: nat, w: Week): (l: nat)
  {
    if w.Active? then w.level else level
  }

  /** Points under the cap stay under it, and so does the floor of the rank they earn. */
  lemma WeekStaysUnderCap(rp: real, highestRank: nat, level: nat, w: Week)
    requires 0.0 <= rp <= 65000.0 && highestRank <= 18 && IsWeek(rp, highestRank, w)
    requires UnderCap(rp, highestRank, level) && HoldsRank(rp, highestRank) && level <= LevelAfter(level, w)
    ensures FlushedRank(WeekPoints(rp, highestRank, w), highestRank) <= 18
    ensures var h := FlushedRank(WeekPoints(rp, highestRank, w), highestRank);
            UnderCap(w.stored, h, LevelAfter(level, w)) && HoldsRank(w.stored, h)
  {
    var newRp, cap := WeekPoints(rp, highestRank, w), MaximumRpAtLevel(LevelAfter(level, w));
    LevelCapRises(level, LevelAfter(level, w));
    PointsUnderCap(rp, highestRank, w, cap);
    var h := FlushedRank(newRp, highestRank);
    WeekStaysInRange(rp, highestRank, w);
    FlushKeepsBetterRank(newRp, highestRank);
    CapIsWhole(LevelAfter(level, w));
    hide WeekPoints, FlushedRank, IsWeek, MaximumRpAtLevel;
    StoringKeepsWholeBounds(newRp, w.stored, cap.Floor);
    if h >= 6 {
      RankFloorValue(h);
      if h > highestRank {
        RankFloorIsRankLimit(h, newRp);
      }
      hide CalculateRank;
      StoringKeepsWholeBounds(newRp, w.stored, RankFloor(h).Floor);
    }
  }

  lemma PointsUnderCap(rp: real, highestRank: nat, w: Week, cap: real)
    requires 0.0 <= rp <= cap && highestRank <= 18 && (highestRank >= 6 ==> RankFloor(highestRank) <= cap)
    requires w.Active? ==> cap == MaximumRpAtLevel(w.level)
    ensures WeekPoints(rp, highestRank, w) <= cap
    ensures highestRank >= 6 ==> RankFloor(highestRank) <= WeekPoints(rp, highestRank, w)
  {
    if w.Inactive? {
      assert Floor(0.2 * rp + 0.5) >= 0.0;
      hide MaximumRpAtLevel;
    }
  }

  lemma CapIsWhole(level: nat)
    ensures MaximumRpAtLevel(level).Floor as real == MaximumRpAtLevel(level)
  {
  }

  /** Levels never fall in the course of the weeks. */
  predicate LevelsRise(level: nat, weeks: seq<Week>) {
    && (forall i :: 0 <= i < |weeks| ==> level <= LevelAfter(level, weeks[i]))
    && (forall i, j :: 0 <= i < j < |weeks| && weeks[i].Active? && weeks[j].Active? ==> weeks[i].level <= weeks[j].level)
  }

  lemma LevelsRiseFurther(level: nat, weeks: seq<Week>)
    requires weeks != [] && LevelsRise(level, weeks)
    ensures level <= LevelAfter(level, weeks[0]) && LevelsRise(LevelAfter(level, weeks[0]), weeks[1..])
  {
    var rest := weeks[1..];
    forall i | 0 <= i < |rest|
      ensures rest[i] == weeks[i + 1]
    {
    }
  }

  /**
   No run of weeks in which the level does not fall ever costs an earned rank: the points stored
   at its end are worth the highest rank that was ever stored.
   */
  lemma {:induction false} RankNeverLost(rp: real, highestRank: nat, level: nat, weeks: seq<Week>)
    requires 0.0 <= rp <= 65000.0 && highestRank <= 18 && IsRun(rp, highestRank, weeks) && LevelsRise(level, weeks)
    requires UnderCap(rp, highestRank, level) && HoldsRank(rp, highestRank)
    ensures RankAfter(rp, highestRank, weeks) >= 6 ==>
              CalculateRank(PointsAfter(rp, weeks)).rank >= RankAfter(rp, highestRank, weeks)
    decreases |weeks|
  {
    if weeks == [] {
      if highestRank >= 6 {
        RankFloorIsRankLimit(highestRank, rp);
      }
    } else {
      hide IsWeek, FlushedRank, WeekPoints, CalculateRank, UnderCap, HoldsRank, LevelsRise;
      var w := weeks[0];
      WeekStaysInRange(rp, highestRank, w);
      LevelsRiseFurther(level, weeks);
      WeekStaysUnderCap(rp, highestRank, level, w);
      RankNeverLost(w.stored, FlushedRank(WeekPoints(rp, highestRank, w), highestRank), LevelAfter(level, w), weeks[1..]);
    }
  }

  /** A player who starts with nothing never loses a rank to the weekly maintenance. */
  lemma FreshRunsKeepRanks(highestRank: nat, level: nat, weeks: seq<Week>)
    requires highestRank <= 1 + NEGATIVE_HONOR_RANK_COUNT && IsRun(0.0, highestRank, weeks) && LevelsRise(level, weeks)
    ensures RankAfter(0.0, highestRank, weeks) >= 6 ==>
              CalculateRank(PointsAfter(0.0, weeks)).rank >= RankAfter(0.0, highestRank, weeks)
  {
    hide IsRun, RankAfter, LevelsRise, CalculateRank;
    RankNeverLost(0.0, highestRank, level, weeks);
  }

  /** A week costs a rank that the points are worth only when those points lie above the level cap. */
  lemma LossNeedsPointsAboveCap(e: real, wk: WeeklyScore)
    requires 6 <= wk.highestRank <= 18 && 0.0 <= wk.oldRp && CalculateRank(wk.oldRp).rank >= wk.highestRank
    requires CalculateRank(Min(MaximumRpAtLevel(wk.level), CalculateRpDecay(e, wk))).rank < wk.highestRank
    ensures MaximumRpAtLevel(wk.level) < RankFloor(wk.highestRank) <= wk.oldRp
  {
    CappedDecayKeepsRankIff(e, wk);
    RankFloorIsRankLimit(wk.highestRank, wk.oldRp);
  }

  // ---------------------------------------------------------------------------
  // The maintenancer
  // ---------------------------------------------------------------------------

  /** What one player's score becomes at a place of the standings. */
  function Distributed(ws: WeeklyScore, sc: HonorScores, place: nat): (r: WeeklyScore)
    requires IsCurve(sc) && 0.0 <= ws.cp && ws.highestRank <= 18
  {
    var earning := Earning(sc, ws.cp);
    ws.(earning := earning,
        newRp := Min(MaximumRpAtLevel(ws.level), CalculateRpDecay(earning, ws)),
        standing := place)
  }

  /** How many of the first `n` players of the list have a score. */
  function Scored(list: seq<HonorStanding>, n: nat, scores: set<nat>): (k: nat)
    requires n <= |list|
    ensures k <= n
  {
    if n == 0 then 0
    else Scored(list, n - 1, scores) + if list[n - 1].guid in scores then 1 else 0
  }

  predicate DistinctGuids(list: seq<HonorStanding>) {
    forall i, j :: 0 <= i < j < |list| ==> list[i].guid != list[j].guid
  }

  /** The scores fit the tables: contributions not negative, highest ranks at most 18. */
  predicate ScoresFit(scores: map<nat, WeeklyScore>) {
    forall g :: g in scores ==> 0.0 <= scores[g].cp && scores[g].highestRank <= 18
  }

  class HonorMaintenancer {
    var weeklyScores: map<nat, WeeklyScore>

    /** Gives every player of a faction's standings the points of the week. */
    method DistributeRankPoints(list: seq<HonorStanding>)
      requires IsStandingList(list) && DistinctGuids(list) && ScoresFit(weeklyScores)
      modifies this
      ensures weeklyScores.Keys == old(weeklyScores).Keys
      ensures forall g :: g in weeklyScores && (forall i :: 0 <= i < |list| ==> list[i].guid != g) ==>
                weeklyScores[g] == old(weeklyScores)[g]
      ensures 0 < |list| ==> IsCurve(Curve(list))
      ensures forall i :: 0 <= i < |list| && list[i].guid in weeklyScores ==>
                weeklyScores[list[i].guid] ==
                Distributed(old(weeklyScores)[list[i].guid], Curve(list), Scored(list, i, old(weeklyScores).Keys) + 1)
    {
      hide Distributed, IsCurve, Curve, IsStandingList;
      if |list| == 0 {
        return;
      }
      var scores := GenerateScores(list);
      var position := 1;
      for k := 0 to |list|
        invariant weeklyScores.Keys == old(weeklyScores).Keys
        invariant position == Scored(list, k, old(weeklyScores).Keys) + 1
        invariant forall g :: g in weeklyScores && (forall i :: 0 <= i < k ==> list[i].guid != g) ==>
                    weeklyScores[g] == old(weeklyScores)[g]
        invariant forall i :: 0 <= i < k && list[i].guid in weeklyScores ==>
                    weeklyScores[list[i].guid] ==
                    Distributed(old(weeklyScores)[list[i].guid], scores, Scored(list, i, old(weeklyScores).Keys) + 1)
      {
        var guid := list[k].guid;
        if guid in weeklyScores {
          assert weeklyScores[guid] == old(weeklyScores)[guid];
          var ws := DistributeTo(weeklyScores[guid], scores, position);
          weeklyScores := weeklyScores[guid := ws];
          position := position + 1;
        }
      }
    }

    /** The loop body: earning, decay, level restriction, standing. */
    method DistributeTo(score: WeeklyScore, scores: HonorScores, position: nat) returns (ws: WeeklyScore)
      requires IsCurve(scores) && 0.0 <= score.cp && score.highestRank <= 18
      ensures ws == Distributed(score, scores, position)
    {
      ws := score;
      var earning := CalculateRpEarning(ws.cp, scores);
      ws := ws.(earning := earning);
      ws := ws.(newRp := CalculateRpDecay(ws.earning, ws));
      ws := ws.(newRp := Min(MaximumRpAtLevel(ws.level), ws.newRp));
      ws := ws.(standing := position);
    }

    /** Lets the points of inactive players decay. */
    method InactiveDecayRankPoints(list: seq<HonorStanding>)
      requires DistinctGuids(list) && ScoresFit(weeklyScores)
      modifies this
      ensures weeklyScores.Keys == old(weeklyScores).Keys
      ensures forall g :: g in weeklyScores && (forall i :: 0 <= i < |list| ==> list[i].guid != g) ==>
                weeklyScores[g] == old(weeklyScores)[g]
      ensures forall i :: 0 <= i < |list| && list[i].guid in weeklyScores ==>
                var ws := old(weeklyScores)[list[i].guid];
                weeklyScores[list[i].guid] == ws.(newRp := CalculateRpDecay(0.0, ws))
    {
      for k := 0 to |list|
        invariant weeklyScores.Keys == old(weeklyScores).Keys
        invariant forall g :: g in weeklyScores && (forall i :: 0 <= i < k ==> list[i].guid != g) ==>
                    weeklyScores[g] == old(weeklyScores)[g]
        invariant forall i :: 0 <= i < k && list[i].guid in weeklyScores ==>
                    var ws := old(weeklyScores)[list[i].guid];
                    weeklyScores[list[i].guid] == ws.(newRp := CalculateRpDecay(0.0, ws))
      {
        var guid := list[k].guid;
        if guid in weeklyScores {
          var ws := weeklyScores[guid];
          assert ws == old(weeklyScores)[guid];
          weeklyScores := weeklyScores[guid := ws.(newRp := CalculateRpDecay(0.0, ws))];
        }
      }
    }

    /** The highest rank the flush stores for every player. */
    method FlushRankPoints() returns (ranks: map<nat, nat>)
      ensures ranks.Keys == weeklyScores.Keys
      ensures forall g :: g in ranks ==> ranks[g] == FlushedRank(weeklyScores[g].newRp, weeklyScores[g].highestRank)
    {
      ranks := map[];
      var rest := weeklyScores.Keys;
      while rest != {}
        invariant rest <= weeklyScores.Keys && ranks.Keys == weeklyScores.Keys - rest
        invariant forall g :: g in ranks ==> ranks[g] == FlushedRank(weeklyScores[g].newRp, weeklyScores[g].highestRank)
      {
        var g :| g in rest;
        var ws := weeklyScores[g];
        var current := CalculateRank(ws.newRp);
        var highest := CalculateRankInfo(NO_RANK.(rank := ws.highestRank));
        if current.visualRank > 0 && current.visualRank > highest.visualRank {
          highest := current;
        }
        ranks := ranks[g := highest.rank];
        rest := rest - {g};
      }
    }
  }

  /** When everybody on the list has a score, the standing is the position on the list. */
  lemma {:induction false} AllScored(list: seq<HonorStanding>, n: nat, scores: set<nat>)
    requires n <= |list| && forall i :: 0 <= i < n ==> list[i].guid in scores
    ensures Scored(list, n, scores) == n
  {
    if 0 < n {
      AllScored(list, n - 1, scores);
    }
  }

  /**
   After the distribution a better position means a better standing number and no lower
   earning, and everybody's new points are in range.
   */
  lemma DistributionFollowsStandings(list: seq<HonorStanding>, before: map<nat, WeeklyScore>, i: nat, j: nat)
    requires IsStandingList(list) && i < j < |list| && ScoresFit(before)
    requires forall k :: 0 <= k < |list| ==> list[k].guid in before && before[list[k].guid].cp == list[k].cp
    requires forall g :: g in before ==> 0.0 <= before[g].oldRp <= 65000.0
    ensures IsCurve(Curve(list))
    ensures var a := Distributed(before[list[i].guid], Curve(list), Scored(list, i, before.Keys) + 1);
            var b := Distributed(before[list[j].guid], Curve(list), Scored(list, j, before.Keys) + 1);
            && a.standing == i + 1 < b.standing == j + 1
            && a.earning >= b.earning
            && 0.0 <= a.newRp <= 65000.0 && 0.0 <= b.newRp <= 65000.0
  {
    hide IsStandingList, IsCurve, Curve, Earning, Scored, Distributed;
    EarningsFallDownTheStandings(list, i, j);
    AllScored(list, i, before.Keys);
    AllScored(list, j, before.Keys);
    DistributedInRange(before[list[i].guid], Curve(list), i + 1);
    DistributedInRange(before[list[j].guid], Curve(list), j + 1);
  }

  lemma DistributedInRange(ws: WeeklyScore, sc: HonorScores, place: nat)
    requires IsCurve(sc) && 0.0 <= ws.cp && ws.highestRank <= 18 && 0.0 <= ws.oldRp <= 65000.0
    ensures var r := Distributed(ws, sc, place);
            r.standing == place && r.earning == Earning(sc, ws.cp) && 0.0 <= r.newRp <= 65000.0
  {
    hide IsCurve, Earning, CalculateRpDecay;
    EarningInSegment(sc, ws.cp);
    DecayStaysInRange(Earning(sc, ws.cp), ws);
  }
}
