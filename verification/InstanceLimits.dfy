/** How many different instances an account may enter within an hour. */
module InstanceLimits {

  const HOUR: nat := 3600

  /** When an account last entered each instance, as far as it is remembered. */
  type EnterTimes = map<nat, nat>

  /** The instances that were last entered more than an hour ago. */
  function Stale(m: EnterTimes, now: nat): (s: set<nat>)
  {
    set id | id in m && m[id] + HOUR < now
  }

  lemma {:induction false} LeastExists(s: set<nat>)
    requires s != {}
    ensures exists x :: IsLeast(x, s)
    decreases |s|
  {
    var x :| x in s;
    if s != {x} {
      var rest := s - {x};
      LeastExists(rest);
      var y :| IsLeast(y, rest);
      assert forall z :: z in s ==> z == x || z in rest;
      assert IsLeast(if x <= y then x else y, s);
    } else {
      assert IsLeast(x, s);
    }
  }

  predicate IsLeast(x: nat, s: set<nat>) {
    x in s && forall y :: y in s ==> x <= y
  }

  ghost function Least(s: set<nat>): (x: nat)
    requires s != {}
    ensures IsLeast(x, s)
  {
    LeastExists(s);
    var x :| IsLeast(x, s);
    x
  }

  function Remembered(times: map<nat, EnterTimes>, account: nat): (m: EnterTimes)
  {
    if account in times then times[account] else map[]
  }

  /** Whether the account may enter, and what is forgotten: at most one instance, the first stale one. */
  ghost function Checked(times: map<nat, EnterTimes>, account: nat, instance: nat, max: nat, now: nat)
    : (r: (map<nat, EnterTimes>, bool))
  {
    if account !in times then (times, true)
    else
      var m := times[account];
      if instance in m || |m| < max then (times, true)
      else if Stale(m, now) == {} then (times, false)
      else (times[account := m - {Least(Stale(m, now))}], true)
  }

  function Added(times: map<nat, EnterTimes>, account: nat, instance: nat, time: nat): (r: map<nat, EnterTimes>)
  {
    times[account := Remembered(times, account)[instance := time]]
  }

  class AccountMgr {
    var instanceEnterTimes: map<nat, EnterTimes>

    constructor ()
      ensures instanceEnterTimes == map[]
    {
      instanceEnterTimes := map[];
    }

    /** Looks through the remembered instances in the order of their ids. */
    method CheckInstanceCount(account: nat, instance: nat, max: nat, now: nat) returns (ok: bool)
      modifies this
      ensures (instanceEnterTimes, ok) == Checked(old(instanceEnterTimes), account, instance, max, now)
    {
      if account !in instanceEnterTimes {
        return true;
      }
      var enterTimes := instanceEnterTimes[account];
      if instance in enterTimes {
        return true;
      }
      if |enterTimes| < max {
        return true;
      }
      var ids := enterTimes.Keys;
      while ids != {}
        invariant ids <= enterTimes.Keys && instanceEnterTimes == old(instanceEnterTimes)
        invariant Stale(enterTimes, now) <= ids
        decreases |ids|
      {
        LeastExists(ids);
        var id :| id in ids && IsLeast(id, ids);
        if enterTimes[id] + HOUR < now {
          assert IsLeast(id, Stale(enterTimes, now));
          instanceEnterTimes := instanceEnterTimes[account := enterTimes - {id}];
          return true;
        }
        ids := ids - {id};
      }
      return false;
    }

    method AddInstanceEnterTime(account: nat, instance: nat, enterTime: nat)
      modifies this
      ensures instanceEnterTimes == Added(old(instanceEnterTimes), account, instance, enterTime)
    {
      if account !in instanceEnterTimes {
        instanceEnterTimes := instanceEnterTimes[account := map[instance := enterTime]];
        return;
      }
      var enterTimes: EnterTimes := instanceEnterTimes[account][instance := enterTime];
      instanceEnterTimes := instanceEnterTimes[account := enterTimes];
    }
  }

  // ---------------------------------------------------------------------------
  // Runs
  // ---------------------------------------------------------------------------

  /** A check on its own, or a check and, if it allows it, the entry right after it. */
  datatype Op =
    | Check(account: nat, instance: nat, now: nat)
    | Enter(account: nat, asked: nat, instance: nat, now: nat, time: nat)

  datatype Visit = Visit(account: nat, instance: nat, time: nat)

  /** The remembered times, all entries so far, and the latest time. */
  datatype World = World(times: map<nat, EnterTimes>, visits: seq<Visit>, clock: nat)

  ghost function Step(w: World, op: Op, max: nat): (w': World)
  {
    match op
    case Check(a, i, now) => World(Checked(w.times, a, i, max, now).0, w.visits, now)
    case Enter(a, asked, i, now, time) =>
      var (times, ok) := Checked(w.times, a, asked, max, now);
      if ok then World(Added(times, a, i, time), w.visits + [Visit(a, i, time)], time)
      else World(times, w.visits, now)
  }

  /**
   Time does not go back, and the instance asked for is the one entered or, when no instance is
   bound yet, one that the account never entered.
   */
  ghost predicate Proper(w: World, op: Op) {
    && w.clock <= op.now
    && (op.Enter? ==>
          && op.now <= op.time
          && (op.asked == op.instance || forall v :: v in w.visits ==> v.account != op.account || v.instance != op.asked))
  }

  ghost function At(ops: seq<Op>, max: nat): (w: World)
  {
    if ops == [] then World(map[], [], 0) else Step(At(ops[..|ops| - 1], max), ops[|ops| - 1], max)
  }

  ghost predicate Run(ops: seq<Op>, max: nat) {
    forall n :: 0 <= n < |ops| ==> Proper(At(ops[..n], max), ops[n])
  }

  /** What is remembered are last entries, and an entry is forgotten only after an hour. */
  ghost predicate TimesOk(w: World, max: nat, a: nat) {
    var m := Remembered(w.times, a);
    && |m| <= max
    && (forall i :: i in m ==> Visit(a, i, m[i]) in w.visits)
    && (forall v :: v in w.visits && v.account == a ==>
          v.time <= w.clock && if v.instance in m then v.time <= m[v.instance] else v.time + HOUR < w.clock)
  }

  /** Forgetting a stale entry. */
  lemma CheckKeepsOk(w: World, max: nat, a: nat, account: nat, instance: nat, now: nat)
    requires TimesOk(w, max, a) && w.clock <= now
    ensures TimesOk(World(Checked(w.times, account, instance, max, now).0, w.visits, now), max, a)
  {
    hide Least, Stale;
    var m := Remembered(w.times, account);
    if a == account && account in w.times && instance !in m && |m| >= max && Stale(m, now) != {} {
      var id := Least(Stale(m, now));
      LeastStale(m, now);
      assert |(m - {id}).Keys| < |m.Keys| by {
        assert (m - {id}).Keys == m.Keys - {id};
      }
    }
  }

  lemma LeastStale(m: EnterTimes, now: nat)
    requires Stale(m, now) != {}
    ensures var id := Least(Stale(m, now)); id in m && m[id] + HOUR < now
  {
  }

  /** A check that allows leaves room for an instance that is not remembered. */
  lemma AllowedLeavesRoom(times: map<nat, EnterTimes>, account: nat, instance: nat, max: nat, now: nat)
    requires 0 < max && |Remembered(times, account)| <= max && Checked(times, account, instance, max, now).1
    ensures var m := Remembered(Checked(times, account, instance, max, now).0, account);
            |m| < max || (instance in m && m == Remembered(times, account) && |m| <= max)
  {
    hide Least, Stale;
    var m := Remembered(times, account);
    if account in times && instance !in m && |m| >= max {
      var id := Least(Stale(m, now));
      LeastStale(m, now);
      assert |(m - {id}).Keys| < |m.Keys| by {
        assert (m - {id}).Keys == m.Keys - {id};
      }
    }
  }

  lemma EntryCount(m: EnterTimes, instance: nat, time: nat)
    ensures |m[instance := time]| == if instance in m then |m| else |m| + 1
  {
    assert m[instance := time].Keys == m.Keys + {instance};
  }

  lemma AddKeepsOk(w: World, max: nat, a: nat, account: nat, instance: nat, time: nat)
    requires TimesOk(w, max, a) && w.clock <= time
    requires account == a ==> |Remembered(w.times, a)| < max || instance in Remembered(w.times, a)
    ensures TimesOk(World(Added(w.times, account, instance, time), w.visits + [Visit(account, instance, time)], time), max, a)
  {
    var m := Remembered(w.times, a);
    EntryCount(m, instance, time);
    var visits := w.visits + [Visit(account, instance, time)];
    assert forall v :: v in visits <==> v in w.visits || v == Visit(account, instance, time);
  }

  lemma StepKeepsOk(w: World, op: Op, max: nat, a: nat)
    requires 0 < max && TimesOk(w, max, a) && Proper(w, op)
    ensures TimesOk(Step(w, op, max), max, a)
  {
    match op
    case Check(account, i, now) =>
      hide TimesOk, Checked;
      CheckKeepsOk(w, max, a, account, i, now);
    case Enter(account, asked, i, now, time) =>
      var (times, ok) := Checked(w.times, account, asked, max, now);
      if ok && account == a {
        AllowedLeavesRoom(w.times, a, asked, max, now);
        if asked in Remembered(w.times, a) {
          AskedIsKnown(w, max, a, asked);
        }
      }
      hide TimesOk, Checked, Added;
      CheckKeepsOk(w, max, a, account, asked, now);
      if ok {
        AddKeepsOk(World(times, w.visits, now), max, a, account, i, time);
      }
  }

  lemma AskedIsKnown(w: World, max: nat, a: nat, asked: nat)
    requires TimesOk(w, max, a) && asked in Remembered(w.times, a)
    ensures exists v :: v in w.visits && v.account == a && v.instance == asked
  {
    assert Visit(a, asked, Remembered(w.times, a)[asked]) in w.visits;
  }

  lemma {:induction false} RunKeepsOk(ops: seq<Op>, max: nat, a: nat)
    requires 0 < max && Run(ops, max)
    ensures TimesOk(At(ops, max), max, a)
    decreases |ops|
  {
    hide TimesOk, Proper, Step;
    if ops == [] {
      EmptyOk(max, a);
    } else {
      RunPrefix(ops, max, |ops| - 1);
      RunKeepsOk(ops[..|ops| - 1], max, a);
      StepKeepsOk(At(ops[..|ops| - 1], max), ops[|ops| - 1], max, a);
    }
  }

  lemma EmptyOk(max: nat, a: nat)
    ensures TimesOk(At([], max), max, a)
  {
  }

  lemma RunPrefix(ops: seq<Op>, max: nat, n: nat)
    requires Run(ops, max) && n <= |ops|
    ensures Run(ops[..n], max)
  {
    hide Proper, At;
    forall k | 0 <= k < n
      ensures Proper(At(ops[..n][..k], max), ops[..n][k])
    {
      assert ops[..n][..k] == ops[..k];
    }
  }

  // ---------------------------------------------------------------------------
  // The limit
  // ---------------------------------------------------------------------------

  predicate InWindow(v: Visit, a: nat, start: nat) {
    v.account == a && start <= v.time <= start + 3600
  }

  /** The different instances that an account entered in the hour from `start`. */
  function Entered(visits: seq<Visit>, a: nat, start: nat): (s: set<nat>)
  {
    set v | v in visits && InWindow(v, a, start) :: v.instance
  }

  /** Entries of the last hour are all remembered. */
  lemma RecentAreRemembered(w: World, max: nat, a: nat, start: nat)
    requires TimesOk(w, max, a) && w.clock <= start + 3600
    ensures Entered(w.visits, a, start) <= Remembered(w.times, a).Keys
    ensures |Entered(w.visits, a, start)| <= |Remembered(w.times, a)| <= max
  {
    var m := Remembered(w.times, a);
    forall i | i in Entered(w.visits, a, start)
      ensures i in m
    {
      var v :| v in w.visits && InWindow(v, a, start) && v.instance == i;
    }
    SubsetSize(Entered(w.visits, a, start), m.Keys);
  }

  lemma {:induction false} SubsetSize(s: set<nat>, t: set<nat>)
    requires s <= t
    ensures |s| <= |t|
    ensures |s| == |t| ==> s == t
    decreases |s|
  {
    if s != {} {
      var x :| x in s;
      SubsetSize(s - {x}, t - {x});
      assert s == (s - {x}) + {x} && t == (t - {x}) + {x};
    }
  }

  /** In every hour of every run an account enters at most `max` different instances. */
  lemma {:induction false} HourlyLimit(ops: seq<Op>, max: nat, a: nat, start: nat)
    requires 0 < max && Run(ops, max)
    ensures |Entered(At(ops, max).visits, a, start)| <= max
    decreases |ops|
  {
    hide TimesOk, Proper, Checked, Entered;
    if ops == [] {
      NothingEntered(a, start);
    } else {
      var before, op := At(ops[..|ops| - 1], max), ops[|ops| - 1];
      RunPrefix(ops, max, |ops| - 1);
      HourlyLimit(ops[..|ops| - 1], max, a, start);
      RunKeepsOk(ops, max, a);
      var w := At(ops, max);
      if w.visits != before.visits {
        if InWindow(w.visits[|w.visits| - 1], a, start) {
          RecentAreRemembered(w, max, a, start);
        } else {
          NotEntered(before.visits, w.visits[|w.visits| - 1], a, start);
        }
      }
    }
  }

  lemma NothingEntered(a: nat, start: nat)
    ensures Entered([], a, start) == {}
  {
  }

  lemma NotEntered(visits: seq<Visit>, v: Visit, a: nat, start: nat)
    requires !InWindow(v, a, start)
    ensures Entered(visits + [v], a, start) == Entered(visits, a, start)
  {
    assert forall u :: u in visits + [v] <==> u in visits || u == v;
  }

  /**
   The limit is exact: entry to an instance is denied if and only if the account entered `max`
   different other instances in the last hour.
   */
  lemma DeniedIff(ops: seq<Op>, max: nat, a: nat, instance: nat, now: nat)
    requires 0 < max && Run(ops, max) && At(ops, max).clock <= now && 3600 <= now
    ensures var last := Entered(At(ops, max).visits, a, now - 3600);
            !Checked(At(ops, max).times, a, instance, max, now).1 <==> |last| == max && instance !in last
  {
    hide *;
    RunKeepsOk(ops, max, a);
    DeniedIffFull(At(ops, max), max, a, instance, now);
  }

  lemma DeniedIffFull(w: World, max: nat, a: nat, instance: nat, now: nat)
    requires 0 < max && TimesOk(w, max, a) && w.clock <= now && 3600 <= now
    ensures var last := Entered(w.visits, a, now - 3600);
            !Checked(w.times, a, instance, max, now).1 <==> |last| == max && instance !in last
  {
    var m, last := Remembered(w.times, a), Entered(w.visits, a, now - 3600);
    CheckedDenies(w.times, a, instance, max, now);
    RecentAreRemembered(w, max, a, now - 3600);
    hide TimesOk, Entered, Checked, Remembered;
    SubsetSize(last, m.Keys);
    if Stale(m, now) == {} {
      AllRecent(w, max, a, now);
      assert last == m.Keys;
      assert |last| == |m|;
    } else {
      StaleNotRecent(w, max, a, now);
      assert last != m.Keys;
      assert |last| < |m| <= max;
    }
  }

  /** What a denial means for what is remembered. */
  lemma CheckedDenies(times: map<nat, EnterTimes>, account: nat, instance: nat, max: nat, now: nat)
    requires 0 < max
    ensures var m := Remembered(times, account);
            !Checked(times, account, instance, max, now).1 <==> instance !in m && |m| >= max && Stale(m, now) == {}
  {
    hide Stale, Least;
  }

  lemma AllRecent(w: World, max: nat, a: nat, now: nat)
    requires TimesOk(w, max, a) && w.clock <= now && 3600 <= now && Stale(Remembered(w.times, a), now) == {}
    ensures Remembered(w.times, a).Keys <= Entered(w.visits, a, now - 3600)
  {
    var m := Remembered(w.times, a);
    forall i | i in m
      ensures i in Entered(w.visits, a, now - 3600)
    {
      assert i !in Stale(m, now);
      assert InWindow(Visit(a, i, m[i]), a, now - 3600);
    }
  }

  lemma StaleNotRecent(w: World, max: nat, a: nat, now: nat)
    requires TimesOk(w, max, a) && 3600 <= now && Stale(Remembered(w.times, a), now) != {}
    ensures exists i :: i in Remembered(w.times, a) && i !in Entered(w.visits, a, now - 3600)
  {
    var i :| i in Stale(Remembered(w.times, a), now);
    forall v | v in w.visits && InWindow(v, a, now - 3600)
      ensures v.instance != i
    {
    }
  }
}
