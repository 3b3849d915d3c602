/**
 64-bit object guids: a type tag, for some types a template entry, and a counter that the
 generator of the type hands out.
 */
module ObjectGuids {
  import opened Integers

  type uint8 = x: nat | x < 0x100
  type uint16 = x: nat | x < 0x1_0000
  type uint32 = x: nat | x < 0x1_0000_0000

  const BITS_24: nat := 0x100_0000
  const BITS_48: nat := 0x1_0000_0000_0000

  // ---------------------------------------------------------------------------
  // Bitwise or
  // ---------------------------------------------------------------------------

  function Or(a: nat, b: nat): (r: nat)
  {
    if a == 0 then b
    else if b == 0 then a
    else 2 * Or(a / 2, b / 2) + (if a % 2 == 1 || b % 2 == 1 then 1 else 0)
  }

  function Pow2(k: nat): (p: nat)
    ensures 0 < p
  {
    if k == 0 then 1 else 2 * Pow2(k - 1)
  }

  /** Numbers without common bits: the low one has at most `k` bits, the high one is shifted by `k`. */
  lemma {:induction false} OrDisjoint(a: nat, b: nat, k: nat)
    requires a < Pow2(k)
    ensures Or(a, b * Pow2(k)) == a + b * Pow2(k)
    decreases k
  {
    if k > 0 && a > 0 && b > 0 {
      var half := b * Pow2(k - 1);
      assert b * Pow2(k) == 2 * half;
      OrDisjoint(a / 2, b, k - 1);
    }
  }

  lemma Pow2Values()
    ensures Pow2(24) == BITS_24 && Pow2(48) == BITS_48
  {
    assert Pow2(12) == 0x1000;
    Pow2Sum(12, 12);
    Pow2Sum(24, 24);
  }

  lemma {:induction false} Pow2Sum(j: nat, k: nat)
    ensures Pow2(j + k) == Pow2(j) * Pow2(k)
    decreases k
  {
    if k > 0 {
      Pow2Sum(j, k - 1);
      assert Pow2(j + k) == 2 * Pow2(j + (k - 1)) && Pow2(k) == 2 * Pow2(k - 1);
      Doubled(Pow2(j), Pow2(k - 1));
    }
  }

  lemma Doubled(a: nat, b: nat)
    ensures a * (2 * b) == 2 * (a * b)
  {
  }

  // ---------------------------------------------------------------------------
  // Packing
  // ---------------------------------------------------------------------------

  const HIGHGUID_ITEM: uint16 := 0x4000
  const HIGHGUID_PLAYER: uint16 := 0x0000
  const HIGHGUID_DYNAMICOBJECT: uint16 := 0xF100
  const HIGHGUID_CORPSE: uint16 := 0xF101
  const HIGHGUID_MO_TRANSPORT: uint16 := 0x1FC0

  predicate HasEntry(high: uint16) {
    !(high == HIGHGUID_ITEM || high == HIGHGUID_PLAYER || high == HIGHGUID_DYNAMICOBJECT ||
      high == HIGHGUID_CORPSE || high == HIGHGUID_MO_TRANSPORT)
  }

  function WithEntry(high: uint16, entry: uint32, counter: uint32): (guid: nat)
  {
    if counter == 0 then 0 else Or(Or(counter, entry * BITS_24), high * BITS_48)
  }

  function WithoutEntry(high: uint16, counter: uint32): (guid: nat)
  {
    if counter == 0 then 0 else Or(counter, high * BITS_48)
  }

  function GetHigh(guid: nat): (high: uint16)
  {
    guid / BITS_48 % 0x1_0000
  }

  function GetEntry(guid: nat): (entry: uint32)
  {
    if HasEntry(GetHigh(guid)) then guid / BITS_24 % BITS_24 else 0
  }

  function GetCounter(guid: nat): (counter: uint32)
  {
    if HasEntry(GetHigh(guid)) then guid % BITS_24 else guid % U32_RANGE
  }

  function MaxCounter(high: uint16): (counter: uint32)
  {
    if HasEntry(high) then 0xFFFFFF else 0xFFFFFFFF
  }

  /** What a guid is made of; types without entry ignore it. */
  datatype Made = Made(high: uint16, entry: uint32, counter: uint32)

  function Raw(m: Made): (guid: nat)
  {
    if HasEntry(m.high) then WithEntry(m.high, m.entry, m.counter) else WithoutEntry(m.high, m.counter)
  }

  function Decoded(guid: nat): (m: Made)
  {
    Made(GetHigh(guid), GetEntry(guid), GetCounter(guid))
  }

  lemma EntryGuidIsSum(high: uint16, entry: uint32, counter: uint32)
    requires 0 < counter < BITS_24 && entry < BITS_24
    ensures WithEntry(high, entry, counter) == counter + entry * BITS_24 + high * BITS_48
  {
    hide Or, Pow2;
    Pow2Values();
    OrDisjoint(counter, entry, 24);
    OrDisjoint(counter + entry * BITS_24, high, 48);
  }

  lemma PlainGuidIsSum(high: uint16, counter: uint32)
    requires 0 < counter
    ensures WithoutEntry(high, counter) == counter + high * BITS_48
  {
    hide Or, Pow2;
    Pow2Values();
    OrDisjoint(counter, high, 48);
  }

  lemma SumDecodes(high: uint16, entry: nat, counter: nat)
    requires counter < BITS_24 && entry < BITS_24
    ensures var guid := counter + entry * BITS_24 + high * BITS_48;
            GetHigh(guid) == high && guid / BITS_24 % BITS_24 == entry && guid % BITS_24 == counter
  {
    hide HasEntry;
  }

  lemma CounterFits(guid: nat)
    requires HasEntry(GetHigh(guid))
    ensures GetCounter(guid) < BITS_24 && GetEntry(guid) < BITS_24
  {
    hide HasEntry, GetHigh;
  }

  /**
   The number itself: type in the highest 16 bits, then for most types 24 bits each of entry and
   counter; items, players, dynamic objects, corpses and ships count with 32 bits and have no entry.
   Without a counter there is no guid.
   */
  lemma GuidIs(high: uint16, entry: uint32, counter: uint32)
    ensures var plain := high == 0x4000 || high == 0 || high == 0xF100 || high == 0xF101 || high == 0x1FC0;
            && (plain ==> MaxCounter(high) == 0xFFFF_FFFF)
            && (!plain ==> MaxCounter(high) == 0xFF_FFFF)
            && (counter == 0 ==> Raw(Made(high, entry, counter)) == 0)
            && (plain && 0 < counter ==>
                Raw(Made(high, entry, counter)) == high * 0x1_0000_0000_0000 + counter)
            && (!plain && 0 < counter < 0x100_0000 && entry < 0x100_0000 ==>
                Raw(Made(high, entry, counter)) == high * 0x1_0000_0000_0000 + entry * 0x100_0000 + counter)
  {
    hide Or;
    if 0 < counter {
      PlainGuidIsSum(high, counter);
      if counter < BITS_24 && entry < BITS_24 {
        EntryGuidIsSum(high, entry, counter);
      }
    }
  }

  /** A guid with an entry decodes to its parts exactly when it has a counter and both numbers fit 24 bits. */
  lemma EntryGuidDecodesIff(high: uint16, entry: uint32, counter: uint32)
    requires HasEntry(high)
    ensures Decoded(WithEntry(high, entry, counter)) == Made(high, entry, counter)
            <==> counter != 0 && counter <= MaxCounter(high) && entry < BITS_24
  {
    var guid := WithEntry(high, entry, counter);
    if counter == 0 {
      assert GetHigh(guid) == HIGHGUID_PLAYER;
    } else {
      hide Or, HasEntry, GetHigh;
      if counter <= MaxCounter(high) && entry < BITS_24 {
        EntryGuidIsSum(high, entry, counter);
        SumDecodes(high, entry, counter);
      } else if GetHigh(guid) == high {
        CounterFits(guid);
      }
    }
  }

  /** A guid without entry keeps its parts except that a zero counter loses the type. */
  lemma PlainGuidDecodesIff(high: uint16, counter: uint32)
    requires !HasEntry(high)
    ensures Decoded(WithoutEntry(high, counter)) == Made(high, 0, counter)
            <==> counter != 0 || high == HIGHGUID_PLAYER
  {
    hide Or;
    if counter != 0 {
      PlainGuidIsSum(high, counter);
    }
  }

  /** A counter a generator may hand out, and an entry that the guid has room for. */
  predicate Fits(m: Made) {
    0 < m.counter <= MaxCounter(m.high) && (if HasEntry(m.high) then m.entry < BITS_24 else m.entry == 0)
  }

  lemma MadeGuidDecodes(m: Made)
    requires Fits(m)
    ensures Decoded(Raw(m)) == m
  {
    hide WithEntry, WithoutEntry, Decoded;
    if HasEntry(m.high) {
      EntryGuidDecodesIff(m.high, m.entry, m.counter);
    } else {
      PlainGuidDecodesIff(m.high, m.counter);
    }
  }

  /** Guids that fit never coincide, whatever their types. */
  lemma MadeGuidsDiffer(a: Made, b: Made)
    requires Fits(a) && Fits(b)
    ensures Raw(a) == Raw(b) <==> a == b
  {
    hide *;
    MadeGuidDecodes(a);
    MadeGuidDecodes(b);
  }

  // ---------------------------------------------------------------------------
  // Generating counters
  // ---------------------------------------------------------------------------

  const GENERATE_RANGE_SIZE: nat := 100

  /** The state of a generator; the overflow stop is requested but does not end the call. */
  datatype Generator = Generator(next: uint32, freed: seq<uint32>, stopped: bool)

  function Generated(high: uint16, g: Generator): (r: (Generator, uint32))
  {
    if g.freed != [] then (g.(freed := g.freed[1..]), g.freed[0])
    else (g.(next := U32(g.next + 1), stopped := g.stopped || g.next >= MaxCounter(high) - 1), g.next)
  }

  /** A block of numbers, taken from the end of the used ones even when freed numbers are left. */
  function RangeGenerated(high: uint16, g: Generator): (g': Generator)
  {
    g.(next := U32(g.next + GENERATE_RANGE_SIZE),
       stopped := g.stopped || g.next >= MaxCounter(high) - GENERATE_RANGE_SIZE)
  }

  class ObjectGuidGenerator {
    const high: uint16
    var nextGuid: uint32
    var freedGuids: seq<uint32>
    ghost var stopped: bool

    constructor (high: uint16, start: uint32)
      ensures this.high == high && State() == Generator(start, [], false)
    {
      this.high := high;
      nextGuid := start;
      freedGuids := [];
      stopped := false;
    }

    ghost function State(): (g: Generator)
      reads this
    {
      Generator(nextGuid, freedGuids, stopped)
    }

    method Generate() returns (id: uint32)
      modifies this
      ensures (State(), id) == Generated(high, old(State()))
    {
      if freedGuids != [] {
        id := freedGuids[0];
        freedGuids := freedGuids[1..];
        return;
      }
      if nextGuid >= MaxCounter(high) - 1 {
        stopped := true;
      }
      id := nextGuid;
      nextGuid := U32(nextGuid + 1);
    }

    method GenerateRange() returns (first: uint32, last: uint32)
      modifies this
      ensures State() == RangeGenerated(high, old(State()))
      ensures first == old(nextGuid) && last == nextGuid == (first + 100) % 0x1_0000_0000
      ensures stopped <==> old(stopped) || first >= MaxCounter(high) - 100
    {
      if nextGuid >= MaxCounter(high) - GENERATE_RANGE_SIZE {
        stopped := true;
      }
      first := nextGuid;
      nextGuid := U32(nextGuid + GENERATE_RANGE_SIZE);
      last := nextGuid;
    }

    method FreeGuid(guid: uint32)
      modifies this
      ensures State() == old(State()).(freed := old(freedGuids) + [guid])
    {
      freedGuids := freedGuids + [guid];
    }
  }

  /** So many draws in a row. */
  function Drawn(high: uint16, g: Generator, n: nat): (r: (Generator, seq<uint32>))
  {
    if n == 0 then (g, [])
    else
      var (g', ids) := Drawn(high, g, n - 1);
      (Generated(high, g').0, ids + [Generated(high, g').1])
  }

  /** The freed numbers first, oldest first, then the next ones; the stop is requested from the maximum less one on. */
  predicate InOrder(high: uint16, g: Generator, ids: seq<uint32>, g': Generator) {
    var n, f := |ids|, |g.freed|;
    && (forall k :: 0 <= k < n ==> ids[k] == if k < f then g.freed[k] else g.next + (k - f))
    && g'.freed == (if n <= f then g.freed[n..] else [])
    && g'.next == (if n <= f then g.next else g.next + (n - f))
    && (g'.stopped <==> g.stopped || (f < n && g.next + (n - f) >= MaxCounter(high)))
  }

  lemma OneMoreDrawn(high: uint16, g: Generator, ids: seq<uint32>, g': Generator)
    requires InOrder(high, g, ids, g') && g.next + |ids| + 1 < U32_RANGE
    ensures InOrder(high, g, ids + [Generated(high, g').1], Generated(high, g').0)
  {
    hide MaxCounter;
    if |ids| < |g.freed| {
      assert g'.freed[0] == g.freed[|ids|] && g'.freed[1..] == g.freed[|ids| + 1..];
    }
  }

  /** Any number of draws in a row. */
  lemma {:induction false} DrawnInOrder(high: uint16, g: Generator, n: nat)
    requires g.next + n < U32_RANGE
    ensures var (g', ids) := Drawn(high, g, n); |ids| == n && InOrder(high, g, ids, g')
  {
    if n > 0 {
      DrawnInOrder(high, g, n - 1);
      var (g', ids) := Drawn(high, g, n - 1);
      OneMoreDrawn(high, g, ids, g');
      hide InOrder, Generated;
    }
  }

  // ---------------------------------------------------------------------------
  // Runs
  // ---------------------------------------------------------------------------

  datatype Op = Generate | GenerateRange | Free(id: uint32)

  /** A generator and the counters in use. */
  datatype World = World(gen: Generator, live: iset<uint32>)

  predicate Between(first: uint32, id: uint32, last: uint32) {
    first <= id < last
  }

  /** The counters an operation hands out. */
  ghost function Issued(high: uint16, w: World, op: Op): (ids: iset<uint32>)
  {
    match op
    case Generate => iset{Generated(high, w.gen).1}
    case GenerateRange => iset id: uint32 | Between(w.gen.next, id, RangeGenerated(high, w.gen).next)
    case Free(_) => iset{}
  }

  ghost function Step(high: uint16, w: World, op: Op): (w': World)
  {
    match op
    case Generate => World(Generated(high, w.gen).0, w.live + Issued(high, w, op))
    case GenerateRange => World(RangeGenerated(high, w.gen), w.live + Issued(high, w, op))
    case Free(id) => World(w.gen.(freed := w.gen.freed + [id]), w.live - iset{id})
  }

  ghost function Run(high: uint16, w: World, ops: seq<Op>): (w': World)
  {
    if ops == [] then w else Step(high, Run(high, w, ops[..|ops| - 1]), ops[|ops| - 1])
  }

  /** Only counters in use are freed. */
  ghost predicate Behaves(high: uint16, w: World, ops: seq<Op>) {
    forall n :: 0 <= n < |ops| ==> ops[n].Free? ==> ops[n].id in Run(high, w, ops[..n]).live
  }

  /** Freed counters are different, not in use, and like those in use below the next one. */
  ghost predicate WorldOk(high: uint16, w: World) {
    && 0 < w.gen.next <= MaxCounter(high)
    && (forall id :: id in w.live ==> 0 < id < w.gen.next)
    && (forall i :: 0 <= i < |w.gen.freed| ==> 0 < w.gen.freed[i] < w.gen.next && w.gen.freed[i] !in w.live)
    && (forall i, j :: 0 <= i < j < |w.gen.freed| ==> w.gen.freed[i] != w.gen.freed[j])
  }

  /** Without overflow a step keeps the invariant and hands out counters that nobody uses. */
  lemma StepKeepsOk(high: uint16, w: World, op: Op)
    requires WorldOk(high, w) && !Step(high, w, op).gen.stopped && (op.Free? ==> op.id in w.live)
    ensures WorldOk(high, Step(high, w, op))
    ensures forall id :: id in Issued(high, w, op) ==> id !in w.live && 0 < id < MaxCounter(high)
  {
    hide HasEntry;
  }

  /** The invariant over whole runs without overflow. */
  lemma {:induction false} RunKeepsOk(high: uint16, w: World, ops: seq<Op>)
    requires WorldOk(high, w) && Behaves(high, w, ops) && !Run(high, w, ops).gen.stopped
    ensures WorldOk(high, Run(high, w, ops))
    decreases |ops|
  {
    hide WorldOk, MaxCounter;
    if ops != [] {
      var n := |ops| - 1;
      var before := Run(high, w, ops[..n]);
      PrefixBehaves(high, w, ops, n);
      RunKeepsOk(high, w, ops[..n]);
      StepKeepsOk(high, before, ops[n]);
    }
  }

  /** The stop request is never taken back, so a run without it has no prefix with it. */
  lemma {:induction false} PrefixBehaves(high: uint16, w: World, ops: seq<Op>, n: nat)
    requires n <= |ops| && Behaves(high, w, ops) && !Run(high, w, ops).gen.stopped
    ensures Behaves(high, w, ops[..n]) && !Run(high, w, ops[..n]).gen.stopped
    decreases |ops|
  {
    hide MaxCounter;
    forall m | 0 <= m < n && ops[..n][m].Free?
      ensures ops[..n][m].id in Run(high, w, ops[..n][..m]).live
    {
      assert ops[..n][..m] == ops[..m];
    }
    if n == |ops| {
      assert ops[..n] == ops;
    } else {
      var p := ops[..|ops| - 1];
      assert p[..n] == ops[..n];
      forall m | 0 <= m < |p| && p[m].Free?
        ensures p[m].id in Run(high, w, p[..m]).live
      {
        assert p[..m] == ops[..m];
      }
      PrefixBehaves(high, w, p, n);
    }
  }

  /** In a run without overflow no counter is handed out while in use, and all fit the type's guids. */
  lemma NoCounterTwice(high: uint16, w: World, ops: seq<Op>, n: nat, id: uint32)
    requires WorldOk(high, w) && Behaves(high, w, ops) && !Run(high, w, ops).gen.stopped
    requires n < |ops| && id in Issued(high, Run(high, w, ops[..n]), ops[n])
    ensures id !in Run(high, w, ops[..n]).live && id in Run(high, w, ops[..n + 1]).live
    ensures 0 < id < MaxCounter(high)
  {
    hide WorldOk, MaxCounter;
    PrefixBehaves(high, w, ops, n);
    PrefixBehaves(high, w, ops, n + 1);
    RunKeepsOk(high, w, ops[..n]);
    assert ops[..n + 1][..n] == ops[..n];
    StepKeepsOk(high, Run(high, w, ops[..n]), ops[n]);
  }

  /** A counter stays in use until it is freed. */
  lemma {:induction false} LiveUntilFreed(high: uint16, w: World, ops: seq<Op>, n: nat, m: nat, id: uint32)
    requires n <= m <= |ops| && id in Run(high, w, ops[..n]).live
    requires forall k :: n <= k < m ==> ops[k] != Free(id)
    ensures id in Run(high, w, ops[..m]).live
    decreases m
  {
    hide MaxCounter;
    if n < m {
      LiveUntilFreed(high, w, ops, n, m - 1, id);
      assert ops[..m][..m - 1] == ops[..m - 1];
    }
  }

  /** Between two times a counter is handed out, it was freed. */
  lemma ReissuedOnlyAfterFree(high: uint16, w: World, ops: seq<Op>, n: nat, m: nat, id: uint32)
    requires WorldOk(high, w) && Behaves(high, w, ops) && !Run(high, w, ops).gen.stopped
    requires n < m < |ops| && id in Issued(high, Run(high, w, ops[..n]), ops[n])
    requires id in Issued(high, Run(high, w, ops[..m]), ops[m])
    ensures exists k :: n < k < m && ops[k] == Free(id)
  {
    hide *;
    NoCounterTwice(high, w, ops, n, id);
    NoCounterTwice(high, w, ops, m, id);
    if forall k :: n + 1 <= k < m ==> ops[k] != Free(id) {
      LiveUntilFreed(high, w, ops, n + 1, m, id);
      assert false;
    }
  }

  /** Counters in use at the same time make guids that decode and never coincide. */
  lemma LiveGuidsDiffer(high: uint16, w: World, ops: seq<Op>, a: Made, b: Made)
    requires WorldOk(high, w) && Behaves(high, w, ops) && !Run(high, w, ops).gen.stopped
    requires a.high == b.high == high && a.counter in Run(high, w, ops).live && b.counter in Run(high, w, ops).live
    requires var max := if HasEntry(high) then BITS_24 - 1 else 0; a.entry <= max && b.entry <= max
    ensures Decoded(Raw(a)) == a && Decoded(Raw(b)) == b
    ensures a.counter != b.counter ==> Raw(a) != Raw(b)
  {
    hide Run, Raw, Decoded, Behaves;
    RunKeepsOk(high, w, ops);
    hide WorldOk;
    assert Fits(a) && Fits(b) by {
      assert WorldOk(high, Run(high, w, ops));
      LiveFits(high, Run(high, w, ops), a.counter);
      LiveFits(high, Run(high, w, ops), b.counter);
    }
    MadeGuidDecodes(a);
    MadeGuidDecodes(b);
  }

  lemma LiveFits(high: uint16, w: World, id: uint32)
    requires WorldOk(high, w) && id in w.live
    ensures 0 < id <= MaxCounter(high)
  {
    hide MaxCounter;
  }

  /** A caller that draws `n` counters one after the other. */
  function OnlyGenerate(n: nat): (ops: seq<Op>)
  {
    seq(n, i => Generate)
  }

  ghost function NthGenerated(high: uint16, w: World, i: nat): (id: uint32)
  {
    Generated(high, Run(high, w, OnlyGenerate(i)).gen).1
  }

  /** Counters drawn one after the other differ from each other and from those in use before. */
  lemma ConsecutiveCountersDiffer(high: uint16, w: World, n: nat, i: nat, j: nat)
    requires WorldOk(high, w) && !Run(high, w, OnlyGenerate(n)).gen.stopped && i < n && j < n
    ensures var id := NthGenerated(high, w, i);
            id !in w.live && 0 < id < MaxCounter(high) && (i < j ==> id != NthGenerated(high, w, j))
  {
    hide WorldOk, MaxCounter, Generated, Run;
    var ops := OnlyGenerate(n);
    assert ops[..i] == OnlyGenerate(i) && ops[..j] == OnlyGenerate(j) && ops[..0] == [];
    var id := NthGenerated(high, w, i);
    NoCounterTwice(high, w, ops, i, id);
    if id in w.live {
      NothingRun(high, w);
      LiveUntilFreed(high, w, ops, 0, i, id);
    }
    if i < j && id == NthGenerated(high, w, j) {
      ReissuedOnlyAfterFree(high, w, ops, i, j, id);
    }
  }

  lemma NothingRun(high: uint16, w: World)
    ensures Run(high, w, []) == w
  {
  }
}
