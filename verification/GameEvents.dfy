/**
 The game event scheduler: which events run at a given time, when that changes
 next, and the update that keeps the set of active events in step with it.
 Times are seconds, `occurence` and `length` are minutes.
 */
module GameEvents {
  import opened Integers

  const MINUTE: int := 60
  const DAY: int := 86400
  const MAX_CHECK_DELAY: nat := 86400
  const IN_MILLISECONDS: nat := 1000

  datatype GameEventData = GameEventData(
    start: int,
    end: int,
    occurence: nat,
    length: nat,
    hardcoded: bool,
    disabled: bool,
    leapDays: nat)
  {
    /** An event without a length is an unused slot of the table. */
    predicate IsValid() {
      length > 0
    }

    /** Seconds between two occurrences: a uint32 product. */
    function Period(): (p: nat)
      ensures p < U32_RANGE
    {
      U32(occurence * MINUTE)
    }

    /** Seconds one occurrence lasts: a uint32 product. */
    function Span(): (p: nat)
      ensures p < U32_RANGE
    {
      U32(length * MINUTE)
    }

    /**
     What is assumed of the table: no usable event divides by zero, an unused slot is never open,
     and only events with a length carry leap days. Loading gives leap days to yearly events only,
     but checks neither the period of an event nor the dates of an unused slot.
     */
    predicate WellFormed() {
      && (IsValid() ==> Period() > 0)
      && (Span() == 0 ==> leapDays == 0)
      && (Period() > 0 || end < start)
    }

    /** Seconds since the first start, leap days taken off. */
    function Elapsed(t: int): int {
      t - start - leapDays * DAY
    }
  }

  predicate CheckOneGameEvent(e: GameEventData, t: int)
    requires e.WellFormed()
  {
    && e.start <= t
    && t < e.end
    && Remainder(e.Elapsed(t), e.Period()) < e.Span()
  }

  function NextCheck(e: GameEventData, now: int): (delay: nat)
    requires e.WellFormed()
  {
    if e.end < now then MAX_CHECK_DELAY
    else if now < e.start then U32(e.start - now)
    else
      var r := Remainder(e.Elapsed(now), e.Period());
      var delay := U32(if r < e.Span() then e.Span() - r else e.Period() - r);
      if e.end < now + delay then U32(e.end - now) else delay
  }

  /** No transition is missed: the status holds until the announced next check. */
  lemma StatusConstantUntilNextCheck(e: GameEventData, now: int, t: int)
    requires e.WellFormed()
    requires now <= t < now + NextCheck(e, now)
    ensures CheckOneGameEvent(e, t) == CheckOneGameEvent(e, now)
  {
    if e.start <= now <= e.end {
      assert e.Elapsed(t) == e.Elapsed(now) + (t - now);
      WindowConstant(e.Elapsed(now), e.Period(), e.Span(), t - now);
    }
  }

  /** Inside the window the remainder stays below the span, outside it stays at or above it. */
  lemma WindowConstant(x: int, p: int, span: nat, d: nat)
    requires 0 < p
    requires x < 0 ==> 0 < span
    requires var r := Remainder(x, p); d < if r < span then span - r else p - r
    ensures Remainder(x, p) < span <==> Remainder(x + d, p) < span
  {
    var r := Remainder(x, p);
    if 0 <= x {
      if r + d <= p {
        RemainderStep(x, p, d);
      }
    } else if 0 <= x + d {
      LeapWindowEnds(x, p, d);
      if -x < p && x + d < p {
        Quotient(x + d, p, 0, x + d);
      }
    }
  }

  /** A negative remainder is the elapsed time itself, or whole periods above it. */
  lemma LeapWindowEnds(x: int, p: int, d: int)
    requires 0 < p && x < 0
    ensures -x < p ==> Remainder(x, p) == x
    ensures -x >= p ==> x + d <= Remainder(x, p) + d - p
  {
    var q, r := (-x) / p, (-x) % p;
    assert -x == q * p + r;
    if -x < p {
      Quotient(-x, p, 0, -x);
    } else {
      Scale(q, p);
    }
  }

  /** What decides whether the status really changes at the announced time. */
  predicate ChangesStatus(e: GameEventData, now: int)
    requires e.WellFormed()
  {
    if e.end <= now then false
    else if now < e.start then e.start < e.end
    else
      var r := Remainder(e.Elapsed(now), e.Period());
      if r < e.Span() then
        || e.end <= now + e.Span() - r
        || (e.Span() < e.Period() && 0 < e.Elapsed(now) + e.Period())
      else
        now + e.Period() - r < e.end
  }

  /** The announced time is exact: when delays fit uint32, it flips the status iff `ChangesStatus`. */
  lemma ExactNextCheck(e: GameEventData, now: int)
    requires e.WellFormed() && e.Span() > 0
    requires e.Span() + e.Period() < U32_RANGE && e.start - now < U32_RANGE
    ensures CheckOneGameEvent(e, now + NextCheck(e, now)) != CheckOneGameEvent(e, now)
            <==> ChangesStatus(e, now)
  {
    if e.start <= now < e.end {
      var x, p := e.Elapsed(now), e.Period();
      var r := Remainder(x, p);
      var d := if r < e.Span() then e.Span() - r else p - r;
      assert e.Elapsed(now + d) == x + d;
      if x < 0 {
        LeapWindowEnds(x, p, d);
        if -x < p && e.Span() < p {
          Quotient(e.Span(), p, 0, e.Span());
        }
      } else if r + d <= p {
        RemainderStep(x, p, d);
      }
    }
  }

  // ---------------------------------------------------------------------------
  // The manager
  // ---------------------------------------------------------------------------

  /** The manager's tables: events by id, the active ids, the ids of the hardcoded event list. */
  datatype MgrState = MgrState(events: seq<GameEventData>, active: set<nat>, hardcodedIds: set<nat>)
  {
    predicate IsValidEvent(id: nat) {
      id < |events| && events[id].IsValid()
    }

    predicate IsEnabled(id: nat) {
      IsValidEvent(id) && !events[id].disabled
    }

    /** The events whose status the schedule decides. */
    predicate Scheduled(id: nat) {
      1 <= id < |events| && !events[id].hardcoded && !events[id].disabled
    }

    /** Loading and every operation keep this: ids fit uint16, only usable events are active. */
    ghost predicate Valid() {
      && |events| < 0x1_0000
      && (forall id :: 0 <= id < |events| ==> events[id].WellFormed())
      && (forall id :: id in active ==> IsValidEvent(id))
    }
  }

  /** A call that a hardcoded event makes on the manager. */
  datatype Call =
    | Start(id: nat, overwrite: bool)
    | Stop(id: nat, overwrite: bool)
    | Enable(id: nat, enable: bool)

  /** One entry of the hardcoded list in one update: its id, the calls it makes, its next delay. */
  datatype HardcodedUpdate = HardcodedUpdate(eventId: nat, calls: seq<Call>, delay: nat)

  function Restarted(e: GameEventData, start: int): (r: GameEventData)
  {
    var e' := e.(start := start);
    if e'.end <= start then e'.(end := start + e.length) else e'
  }

  /** An overwriting start makes a usable event run at once. */
  lemma OverwrittenStartRuns(e: GameEventData, now: int)
    requires e.WellFormed() && e.IsValid() && e.Span() > 0
    ensures Restarted(e, now).WellFormed() && CheckOneGameEvent(Restarted(e, now), now)
  {
  }

  /** The end of an outdated event is set back too near: it then runs `length` seconds, not minutes. */
  lemma RestartedRunsSeconds(e: GameEventData, now: int, t: int)
    requires e.WellFormed() && e.IsValid() && e.length <= e.Span() && e.end <= now <= t
    ensures Restarted(e, now).WellFormed()
    ensures CheckOneGameEvent(Restarted(e, now), t) <==> t < now + e.length
  {
    var r := Restarted(e, now);
    RemainderAtMost(r.Elapsed(t), r.Period());
    hide Remainder, U32;
  }

  /**
   A restarted event runs for its whole length exactly when its end leaves room for it, or, being
   outdated, its length in minutes is no more than so many seconds.
   */
  lemma RestartedRunsSpanIff(e: GameEventData, now: int)
    requires e.WellFormed() && e.IsValid() && e.Span() > 0
    ensures Restarted(e, now).WellFormed()
    ensures (forall t :: now <= t < now + e.Span() ==> CheckOneGameEvent(Restarted(e, now), t)) <==>
            if e.end <= now then e.length >= e.Span() else e.end >= now + e.Span()
  {
    var r := Restarted(e, now);
    forall t | now <= t < now + e.Span()
      ensures CheckOneGameEvent(r, t) <==> t < r.end
    {
      RemainderAtMost(r.Elapsed(t), r.Period());
      hide Remainder, U32;
    }
    hide CheckOneGameEvent, Remainder, U32, GameEventData.Span;
    if forall t :: now <= t < now + e.Span() ==> CheckOneGameEvent(r, t) {
      assert CheckOneGameEvent(r, now + e.Span() - 1);
    }
  }

  /**
   An overwriting stop of an event that has not ended keeps it stopped exactly when it has no leap
   days and pauses between occurrences; otherwise the schedule starts it again at once.
   */
  lemma OverwrittenStopHoldsIff(e: GameEventData, now: int)
    requires e.WellFormed() && e.IsValid() && e.Span() > 0 && now < e.end
    ensures Restarted(e, now - e.Span()).WellFormed()
    ensures !CheckOneGameEvent(Restarted(e, now - e.Span()), now) <==> e.leapDays == 0 && e.Span() < e.Period()
  {
    var r := Restarted(e, now - e.Span());
    var x, p := r.Elapsed(now), r.Period();
    assert x == e.Span() - e.leapDays * DAY;
    if 0 <= x < p {
      Quotient(x, p, 0, x);
    } else if p <= x {
      assert x % p < p;
    }
  }

  /** StartEvent as a function of the tables. */
  function Started(s: MgrState, id: nat, overwrite: bool, now: int): (r: MgrState)
  {
    if !s.IsValidEvent(id) then s
    else
      var s' := s.(active := s.active + {id});
      if overwrite then s'.(events := s.events[id := Restarted(s.events[id], now)]) else s'
  }

  function Stopped(s: MgrState, id: nat, overwrite: bool, now: int): (r: MgrState)
  {
    if !s.IsValidEvent(id) then s
    else
      var s' := s.(active := s.active - {id});
      if overwrite then s'.(events := s.events[id := Restarted(s.events[id], now - s.events[id].Span())]) else s'
  }

  function Enabled(s: MgrState, id: nat, enable: bool, now: int): (r: MgrState)
  {
    if !s.IsValidEvent(id) || s.events[id].disabled == !enable then s
    else
      var s' := s.(events := s.events[id := s.events[id].(disabled := !enable)]);
      if id in s.active && id !in s.hardcodedIds then Stopped(s', id, true, now) else s'
  }

  function Called(s: MgrState, c: Call, now: int): (r: MgrState)
  {
    match c
    case Start(id, overwrite) => Started(s, id, overwrite, now)
    case Stop(id, overwrite) => Stopped(s, id, overwrite, now)
    case Enable(id, enable) => Enabled(s, id, enable, now)
  }

  function AllCalled(s: MgrState, cs: seq<Call>, now: int): (r: MgrState)
  {
    if cs == [] then s else Called(AllCalled(s, cs[..|cs| - 1], now), cs[|cs| - 1], now)
  }

  predicate SameShape(s: MgrState, t: MgrState) {
    && |s.events| == |t.events| && s.hardcodedIds == t.hardcodedIds
    && (forall id :: 0 <= id < |s.events| ==>
          && s.events[id].length == t.events[id].length
          && s.events[id].occurence == t.events[id].occurence
          && s.events[id].leapDays == t.events[id].leapDays
          && s.events[id].hardcoded == t.events[id].hardcoded)
  }

  lemma PatchKeepsValid(s: MgrState, id: nat, e: GameEventData, active: set<nat>)
    requires s.Valid() && s.IsValidEvent(id) && active <= s.active + {id}
    requires e.WellFormed() && e.length == s.events[id].length && e.hardcoded == s.events[id].hardcoded
    requires e.occurence == s.events[id].occurence && e.leapDays == s.events[id].leapDays
    ensures s.(events := s.events[id := e], active := active).Valid()
    ensures SameShape(s, s.(events := s.events[id := e], active := active))
  {
    hide GameEventData.WellFormed;
  }

  lemma StoppedKeepsValid(s: MgrState, id: nat, overwrite: bool, now: int)
    requires s.Valid()
    ensures Stopped(s, id, overwrite, now).Valid() && SameShape(s, Stopped(s, id, overwrite, now))
  {
    if s.IsValidEvent(id) {
      var e := s.events[id];
      PatchKeepsValid(s, id, if overwrite then Restarted(e, now - e.Span()) else e, s.active - {id});
      hide SameShape, MgrState.Valid;
      assert s.events[id := e] == s.events;
    }
  }

  /** The calls keep the tables valid and never touch the number, kind, length or period of events. */
  lemma CalledKeepsValid(s: MgrState, c: Call, now: int)
    requires s.Valid()
    ensures Called(s, c, now).Valid()
    ensures SameShape(s, Called(s, c, now))
  {
    if s.IsValidEvent(c.id) {
      var e := s.events[c.id];
      match c
      case Start(id, overwrite) =>
        PatchKeepsValid(s, id, if overwrite then Restarted(e, now) else e, s.active + {id});
        hide SameShape, MgrState.Valid;
        assert s.events[id := e] == s.events;
      case Stop(id, overwrite) =>
        StoppedKeepsValid(s, id, overwrite, now);
      case Enable(id, enable) =>
        var s' := s.(events := s.events[id := e.(disabled := !enable)]);
        PatchKeepsValid(s, id, e.(disabled := !enable), s.active);
        StoppedKeepsValid(s', id, true, now);
        ShapesCompose(s, s', Stopped(s', id, true, now));
        hide SameShape, MgrState.Valid, Stopped;
    }
  }

  lemma ShapesCompose(s: MgrState, t: MgrState, u: MgrState)
    requires SameShape(s, t) && SameShape(t, u)
    ensures SameShape(s, u)
  {
  }

  lemma {:induction false} AllCalledKeepsValid(s: MgrState, cs: seq<Call>, now: int)
    requires s.Valid()
    ensures AllCalled(s, cs, now).Valid()
    ensures SameShape(s, AllCalled(s, cs, now))
  {
    if cs != [] {
      AllCalledKeepsValid(s, cs[..|cs| - 1], now);
      CalledKeepsValid(AllCalled(s, cs[..|cs| - 1], now), cs[|cs| - 1], now);
    }
  }

  /** The tables and the smallest delay after the hardcoded events, in list order. */
  function HardcodedPhase(s: MgrState, hs: seq<HardcodedUpdate>, now: int): (r: (MgrState, nat))
    requires s.Valid()
    requires forall i :: 0 <= i < |hs| ==> hs[i].eventId < |s.events|
    ensures r.0.Valid() && SameShape(s, r.0)
  {
    if hs == [] then (s, MAX_CHECK_DELAY)
    else
      var (s', d) := HardcodedPhase(s, hs[..|hs| - 1], now);
      var h := hs[|hs| - 1];
      if s'.events[h.eventId].disabled then (s', d)
      else
        AllCalledKeepsValid(s', h.calls, now);
        (AllCalled(s', h.calls, now), if h.delay < d then h.delay else d)
  }

  /** The regular part of an update: the schedule decides for every scheduled event. */
  ghost function RegularPhase(s: MgrState, now: int): (r: MgrState)
    requires s.Valid()
  {
    s.(active := (set id | id in s.active && !s.Scheduled(id)) +
                 (set id: nat | 0 <= id < |s.events| && s.Scheduled(id) && CheckOneGameEvent(s.events[id], now)))
  }

  /** Whether an event is active after the regular part. */
  predicate ActiveAfter(s: MgrState, id: nat, now: int)
    requires s.Valid()
  {
    if s.Scheduled(id) then CheckOneGameEvent(s.events[id], now) else id in s.active
  }

  class GameEventMgr {
    var events: seq<GameEventData>
    var active: set<nat>
    var hardcodedIds: set<nat>

    ghost function State(): MgrState
      reads this
    {
      MgrState(events, active, hardcodedIds)
    }

    predicate IsValidEvent(id: nat)
      reads this
    {
      id < |events| && events[id].IsValid()
    }

    predicate IsActiveEvent(id: nat)
      reads this
    {
      id in active
    }

    predicate IsEnabled(id: nat)
      reads this
    {
      IsValidEvent(id) && !events[id].disabled
    }

    method StartEvent(id: nat, overwrite: bool, now: int)
      modifies this
      ensures State() == Started(old(State()), id, overwrite, now)
    {
      if !IsValidEvent(id) {
        return;
      }
      active := active + {id};
      if overwrite {
        events := events[id := events[id].(start := now)];
        if events[id].end <= events[id].start {
          events := events[id := events[id].(end := events[id].start + events[id].length)];
        }
      }
    }

    method StopEvent(id: nat, overwrite: bool, now: int)
      modifies this
      ensures State() == Stopped(old(State()), id, overwrite, now)
    {
      if !IsValidEvent(id) {
        return;
      }
      active := active - {id};
      if overwrite {
        events := events[id := events[id].(start := now - events[id].Span())];
        if events[id].end <= events[id].start {
          events := events[id := events[id].(end := events[id].start + events[id].length)];
        }
      }
    }

    method EnableEvent(id: nat, enable: bool, now: int)
      modifies this
      ensures State() == Enabled(old(State()), id, enable, now)
    {
      if !IsValidEvent(id) {
        return;
      }
      var disabled := !enable;
      if events[id].disabled == disabled {
        return;
      }
      events := events[id := events[id].(disabled := disabled)];
      if !IsActiveEvent(id) {
        return;
      }
      if id !in hardcodedIds {
        StopEvent(id, true, now);
      }
    }

    method MakeCalls(cs: seq<Call>, now: int)
      modifies this
      ensures State() == AllCalled(old(State()), cs, now)
    {
      for i := 0 to |cs|
        invariant State() == AllCalled(old(State()), cs[..i], now)
      {
        match cs[i] {
          case Start(id, overwrite) => StartEvent(id, overwrite, now);
          case Stop(id, overwrite) => StopEvent(id, overwrite, now);
          case Enable(id, enable) => EnableEvent(id, enable, now);
        }
        assert cs[..i + 1][..i] == cs[..i];
      }
      assert cs[..|cs|] == cs;
    }

    method UpdateHardcoded(hs: seq<HardcodedUpdate>, now: int) returns (next: nat)
      requires State().Valid()
      requires forall i :: 0 <= i < |hs| ==> hs[i].eventId < |events|
      modifies this
      ensures (State(), next) == HardcodedPhase(old(State()), hs, now)
    {
      next := MAX_CHECK_DELAY;
      for i := 0 to |hs|
        invariant (State(), next) == HardcodedPhase(old(State()), hs[..i], now)
      {
        assert hs[..i + 1][..i] == hs[..i];
        if !events[hs[i].eventId].disabled {
          AllCalledKeepsValid(State(), hs[i].calls, now);
          MakeCalls(hs[i].calls, now);
          if hs[i].delay < next {
            next := hs[i].delay;
          }
        }
      }
      assert hs[..|hs|] == hs;
    }

    /** Brings one scheduled event in step with the schedule. */
    method Follow(id: nat, now: int)
      requires State().Valid() && State().Scheduled(id)
      modifies this
      ensures State() == old(State()).(active :=
                if CheckOneGameEvent(old(events)[id], now) then old(active) + {id} else old(active) - {id})
    {
      if CheckOneGameEvent(events[id], now) {
        if !IsActiveEvent(id) {
          StartEvent(id, false, now);
        }
      } else if IsActiveEvent(id) {
        StopEvent(id, false, now);
      }
    }

    /** The loop over the regular events; `first` is the delay found so far. */
    method UpdateRegular(first: nat, now: int) returns (next: nat)
      requires State().Valid()
      modifies this
      ensures State() == RegularPhase(old(State()), now)
      ensures IsSmallestDelay(old(State()), first, now, next)
    {
      hide CheckOneGameEvent, NextCheck, RegularPhase;
      next := first;
      ghost var s := State();
      var id := 1;
      while id < |events|
        invariant 1 <= id
        invariant State() == s.(active := active)
        invariant ActiveUpTo(s, id, now, active)
        invariant IsSmallestDelayBelow(s, id, first, now, next)
      {
        ghost var before, found := active, next;
        if !events[id].hardcoded && !events[id].disabled {
          Follow(id, now);
          var calcDelay := NextCheck(events[id], now);
          if calcDelay < next {
            next := calcDelay;
          }
        }
        FollowedStep(s, id, now, before, active);
        SmallerDelay(s, id, first, now, found, next);
        id := id + 1;
      }
      FollowedAll(s, id, now, active);
    }

    /**
     One scheduler tick. Whatever the hardcoded events did first, every scheduled event ends up
     active exactly when the schedule says so and stays right until the announced time, and
     nothing else changes after the hardcoded part.
     */
    method Update(hs: seq<HardcodedUpdate>, now: int) returns (delayMs: nat)
      requires State().Valid()
      requires forall i :: 0 <= i < |hs| ==> hs[i].eventId < |events|
      modifies this
      ensures State().Valid()
      ensures State() == RegularPhase(HardcodedPhase(old(State()), hs, now).0, now)
      ensures delayMs % 1000 == 0 && 1000 <= delayMs
      ensures IsSmallestDelay(State(), HardcodedPhase(old(State()), hs, now).1, now, delayMs / 1000 - 1)
      ensures InStep(State(), now, delayMs / 1000 - 1)
    {
      var next := UpdateHardcoded(hs, now);
      ghost var mid := State();
      ghost var hardcodedDelay := next;
      next := UpdateRegular(next, now);
      RegularKeepsValid(mid, now);
      DelaysAgree(mid, State(), hardcodedDelay, now, next);
      StaysInStep(mid, hardcodedDelay, now, next);
      delayMs := (next + 1) * IN_MILLISECONDS;
    }
  }

  /** `d` is the minimum of a first delay and the next checks of all scheduled events. */
  ghost predicate IsSmallestDelay(s: MgrState, first: nat, now: int, d: int)
    requires s.Valid()
  {
    IsSmallestDelayBelow(s, |s.events|, first, now, d)
  }

  ghost predicate IsSmallestDelayBelow(s: MgrState, bound: nat, first: nat, now: int, d: int)
    requires s.Valid()
  {
    && d <= first
    && (forall id: nat :: id < bound && s.Scheduled(id) ==> d <= NextCheck(s.events[id], now))
    && (d == first || exists id: nat :: id < bound && s.Scheduled(id) && d == NextCheck(s.events[id], now))
  }

  /** The events below `bound` have been brought in step, the others are as before. */
  ghost predicate ActiveUpTo(s: MgrState, bound: nat, now: int, active: set<nat>)
    requires s.Valid()
  {
    && (forall id :: id in active ==> s.IsValidEvent(id))
    && (forall id: nat :: id in active <==> if id < bound then ActiveAfter(s, id, now) else id in s.active)
  }

  /** What the schedule asks for a scheduled event; the others stay. */
  ghost predicate Followed(s: MgrState, id: nat, now: int, before: set<nat>, after: set<nat>)
    requires s.Valid()
  {
    after == if !s.Scheduled(id) then before
             else if CheckOneGameEvent(s.events[id], now) then before + {id} else before - {id}
  }

  lemma FollowedStep(s: MgrState, id: nat, now: int, before: set<nat>, after: set<nat>)
    requires s.Valid() && ActiveUpTo(s, id, now, before) && Followed(s, id, now, before, after)
    ensures ActiveUpTo(s, id + 1, now, after)
  {
    assert s.Scheduled(id) && CheckOneGameEvent(s.events[id], now) ==> s.IsValidEvent(id);
    hide CheckOneGameEvent, MgrState.Valid, GameEventData.WellFormed;
  }

  lemma FollowedAll(s: MgrState, bound: nat, now: int, active: set<nat>)
    requires s.Valid() && |s.events| <= bound && ActiveUpTo(s, bound, now, active)
    ensures s.(active := active) == RegularPhase(s, now)
  {
    RegularKeepsValid(s, now);
    hide CheckOneGameEvent;
    var r := RegularPhase(s, now);
    assert active == r.active by {
      hide RegularPhase, MgrState.Valid, GameEventData.WellFormed;
      forall id: nat
        ensures id in active <==> id in r.active
      {
        assert bound <= id ==> !s.Scheduled(id);
      }
    }
  }

  /** The smaller of the delay so far and that of one more event. */
  lemma SmallerDelay(s: MgrState, id: nat, first: nat, now: int, found: int, next: int)
    requires s.Valid() && IsSmallestDelayBelow(s, id, first, now, found)
    requires next == if s.Scheduled(id) && NextCheck(s.events[id], now) < found then NextCheck(s.events[id], now) else found
    ensures IsSmallestDelayBelow(s, id + 1, first, now, next)
  {
    hide NextCheck, MgrState.Valid;
  }

  /** For the next `d` seconds exactly the events that should run are active. */
  ghost predicate InStep(s: MgrState, now: int, d: int)
    requires s.Valid()
  {
    forall id: nat, t :: s.Scheduled(id) && now <= t < now + d ==>
      (id in s.active <==> CheckOneGameEvent(s.events[id], t))
  }

  /** An event that should run is a usable one. */
  lemma RegularKeepsValid(s: MgrState, now: int)
    requires s.Valid()
    ensures RegularPhase(s, now).Valid()
    ensures forall id: nat :: RegularPhase(s, now).Scheduled(id) <==> s.Scheduled(id)
    ensures forall id: nat :: id in RegularPhase(s, now).active <==> ActiveAfter(s, id, now)
  {
  }

  lemma DelaysAgree(s: MgrState, t: MgrState, first: nat, now: int, d: int)
    requires s.Valid() && t.Valid() && s.events == t.events
    requires IsSmallestDelay(s, first, now, d)
    ensures IsSmallestDelay(t, first, now, d)
  {
    assert forall id: nat :: s.Scheduled(id) <==> t.Scheduled(id);
  }

  /** After the regular part the active set is right until the smallest next check. */
  lemma StaysInStep(s: MgrState, first: nat, now: int, d: int)
    requires s.Valid()
    requires IsSmallestDelay(s, first, now, d)
    ensures RegularPhase(s, now).Valid()
    ensures InStep(RegularPhase(s, now), now, d)
  {
    RegularKeepsValid(s, now);
    var r := RegularPhase(s, now);
    forall id: nat, t | r.Scheduled(id) && now <= t < now + d
      ensures id in r.active <==> CheckOneGameEvent(r.events[id], t)
    {
      assert s.Scheduled(id);
      StatusConstantUntilNextCheck(s.events[id], now, t);
    }
  }

  // ---------------------------------------------------------------------------
  // Updates at the announced times
  // ---------------------------------------------------------------------------

  /** One update of the manager: its time, the tables before and after, and the delay without its added second. */
  datatype UpdateRecord = UpdateRecord(now: int, before: MgrState, hs: seq<HardcodedUpdate>, after: MgrState, delay: nat)
  {
    /** What `GameEventMgr.Update` promises. */
    ghost predicate IsUpdate() {
      && before.Valid() && (forall i :: 0 <= i < |hs| ==> hs[i].eventId < |before.events|)
      && after.Valid() && after == RegularPhase(HardcodedPhase(before, hs, now).0, now)
      && IsSmallestDelay(after, HardcodedPhase(before, hs, now).1, now, delay)
    }
  }

  /** Each update starts from the tables the one before left, at the time that one announced. */
  ghost predicate IsUpdateRun(ks: seq<UpdateRecord>) {
    && (forall i :: 0 <= i < |ks| ==> ks[i].IsUpdate())
    && (forall i :: 0 <= i < |ks| - 1 ==>
          ks[i + 1].before == ks[i].after && ks[i + 1].now == ks[i].now + ks[i].delay + 1)
  }

  /** The event is active if and only if it should run. */
  predicate EventInStep(s: MgrState, id: nat, t: int)
    requires s.Scheduled(id) && s.events[id].WellFormed()
  {
    id in s.active <==> CheckOneGameEvent(s.events[id], t)
  }

  lemma UpdateInStep(k: UpdateRecord, id: nat, t: int)
    requires k.IsUpdate() && k.now <= t <= k.now + k.delay && k.after.Scheduled(id)
    ensures k.after.events[id].WellFormed()
    ensures t == k.now || t < k.now + k.delay ==> EventInStep(k.after, id, t)
    ensures k.now < t && CheckOneGameEvent(k.after.events[id], t) == CheckOneGameEvent(k.after.events[id], t - 1) ==>
              EventInStep(k.after, id, t)
  {
    var (m, first) := HardcodedPhase(k.before, k.hs, k.now);
    RegularKeepsValid(m, k.now);
    assert m.events == k.after.events;
    DelaysAgree(k.after, m, first, k.now, k.delay);
    StaysInStep(m, first, k.now, k.delay);
    assert m.Scheduled(id);
    hide CheckOneGameEvent, RegularPhase, HardcodedPhase, IsSmallestDelay;
  }

  /**
   Over a run of updates at the announced times every scheduled event is in step at every second,
   except at the last second before an update, and there only if its status changes at that second.
   */
  lemma {:induction false} RunStaysInStep(ks: seq<UpdateRecord>, t: int) returns (i: nat)
    requires IsUpdateRun(ks) && ks != [] && ks[0].now <= t <= ks[|ks| - 1].now + ks[|ks| - 1].delay
    ensures i < |ks| && ks[i].now <= t <= ks[i].now + ks[i].delay
    ensures forall id: nat :: ks[i].after.Scheduled(id) ==>
              && ks[i].after.events[id].WellFormed()
              && (EventInStep(ks[i].after, id, t) ||
                  (ks[i].now < t == ks[i].now + ks[i].delay &&
                   CheckOneGameEvent(ks[i].after.events[id], t) != CheckOneGameEvent(ks[i].after.events[id], t - 1)))
    decreases |ks|
  {
    hide CheckOneGameEvent, UpdateRecord.IsUpdate, EventInStep;
    var n := |ks| - 1;
    if ks[n].now <= t {
      i := n;
      forall id: nat | ks[i].after.Scheduled(id)
        ensures && ks[i].after.events[id].WellFormed()
                && (EventInStep(ks[i].after, id, t) ||
                    (ks[i].now < t == ks[i].now + ks[i].delay &&
                     CheckOneGameEvent(ks[i].after.events[id], t) != CheckOneGameEvent(ks[i].after.events[id], t - 1)))
      {
        UpdateInStep(ks[i], id, t);
      }
    } else {
      assert ks[n].now == ks[n - 1].now + ks[n - 1].delay + 1;
      i := RunStaysInStep(ks[..n], t);
    }
  }
}
