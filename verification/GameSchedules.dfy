/**
 What the schedule means in the fields of the event table, in minutes and days, and what the calls
 on the manager come to.
 */
module GameSchedules {
  import opened Integers
  import opened GameEvents

  /** The products of the table's minutes fit uint32. */
  predicate Fits(e: GameEventData) {
    e.occurence * 60 < 0x1_0000_0000 && e.length * 60 < 0x1_0000_0000
  }

  /** Time `t` lies in occurrence `k`, counted from 0: the first one begins behind the leap days. */
  predicate InOccurrence(e: GameEventData, t: int, k: nat) {
    var begin := e.start + e.leapDays * 86400 + k * (e.occurence * 60);
    begin <= t < begin + e.length * 60
  }

  /** The recurrence: from its first occurrence to its end an event runs exactly in its occurrences. */
  lemma RunsInOccurrences(e: GameEventData, t: int)
    requires e.WellFormed() && Fits(e)
    requires e.start <= t < e.end && e.start + e.leapDays * 86400 <= t
    ensures CheckOneGameEvent(e, t) <==> exists k: nat :: InOccurrence(e, t, k)
  {
    var p, x := e.occurence * 60, t - e.start - e.leapDays * 86400;
    var q, r := x / p, x % p;
    assert x == q * p + r;
    NotNegative(q, p, r);
    if CheckOneGameEvent(e, t) {
      assert InOccurrence(e, t, q);
    }
    if k: nat :| InOccurrence(e, t, k) {
      AtMostQuotient(x, p, k);
    }
  }

  lemma NotNegative(q: int, p: int, r: int)
    requires 0 < p && 0 <= r < p && 0 <= q * p + r
    ensures 0 <= q
  {
    if q < 0 {
      Scale(-q, p);
    }
  }

  /** The remainder is what is left behind the last multiple, so at most what is left behind an earlier one. */
  lemma AtMostQuotient(x: int, p: int, k: nat)
    requires 0 < p && k * p <= x
    ensures x % p <= x - k * p
  {
    var q, r := x / p, x % p;
    assert x == q * p + r;
    if q < k {
      Scale(k - q, p);
    } else if k < q {
      Scale(q - k, p);
    }
  }

  /** Between its start and the first occurrence, while the leap days last, an event runs all the time. */
  lemma RunsThroughLeapDays(e: GameEventData, t: int)
    requires e.WellFormed() && Fits(e) && 0 < e.length
    requires e.start <= t < e.end && t < e.start + e.leapDays * 86400
    ensures CheckOneGameEvent(e, t)
  {
  }

  /** Before its start and from its end on an event does not run. */
  lemma RunsOnlyBetween(e: GameEventData, t: int)
    requires e.WellFormed() && !(e.start <= t < e.end)
    ensures !CheckOneGameEvent(e, t)
  {
  }

  /** One period later the schedule says the same. */
  lemma SameOnePeriodLater(e: GameEventData, t: int)
    requires e.WellFormed() && Fits(e)
    requires e.start <= t && e.start + e.leapDays * 86400 <= t && t + e.occurence * 60 < e.end
    ensures CheckOneGameEvent(e, t) == CheckOneGameEvent(e, t + e.occurence * 60)
  {
    var p, x := e.occurence * 60, t - e.start - e.leapDays * 86400;
    if p > 0 {
      assert x == (x / p) * p + x % p;
      assert x + p == (x / p + 1) * p + x % p;
      Quotient(x + p, p, x / p + 1, x % p);
      assert e.Elapsed(t + p) == x + p;
    }
  }

  /** The next look at an outdated event is a day away; at one to come it is due at its start. */
  lemma DelayOutside(e: GameEventData, now: int)
    requires e.WellFormed()
    ensures e.end < now ==> NextCheck(e, now) == 86400
    ensures now < e.start && now <= e.end && e.start - now < 0x1_0000_0000 ==> now + NextCheck(e, now) == e.start
  {
  }

  // ---------------------------------------------------------------------------
  // Calls
  // ---------------------------------------------------------------------------

  /** The other events are as they were. */
  ghost predicate OthersSame(s: MgrState, r: MgrState, id: nat) {
    && |r.events| == |s.events| && r.hardcodedIds == s.hardcodedIds
    && (forall i: nat :: i != id ==> (i in r.active <==> i in s.active))
    && (forall i :: 0 <= i < |s.events| && i != id ==> r.events[i] == s.events[i])
  }

  /** A started event is active; its schedule lets it run only if the start overwrites it. */
  lemma StartDoes(s: MgrState, id: nat, overwrite: bool, now: int)
    requires s.Valid() && s.IsValidEvent(id) && s.events[id].Span() > 0
    ensures var r := Started(s, id, overwrite, now);
            && OthersSame(s, r, id) && id in r.active && r.events[id].WellFormed()
            && (if overwrite then CheckOneGameEvent(r.events[id], now) && r.events[id].start == now
                else r.events[id] == s.events[id])
  {
    OverwrittenStartRuns(s.events[id], now);
  }

  /**
   A stopped event is inactive; if the stop overwrites its schedule the last occurrence counts as
   just over, and the event runs again at once exactly if it has leap days or no pauses.
   */
  lemma StopDoes(s: MgrState, id: nat, overwrite: bool, now: int)
    requires s.Valid() && s.IsValidEvent(id) && Fits(s.events[id]) && now < s.events[id].end
    ensures var e, r := s.events[id], Stopped(s, id, overwrite, now);
            && OthersSame(s, r, id) && id !in r.active && r.events[id].WellFormed()
            && (if overwrite then
                  && r.events[id].start == now - e.length * 60
                  && (CheckOneGameEvent(r.events[id], now) <==> e.leapDays > 0 || e.length >= e.occurence)
                else r.events[id] == e)
  {
    OverwrittenStopHoldsIff(s.events[id], now);
  }

  /** Switching an event on or off starts nothing, and stops it if it is active and not of the hardcoded list. */
  lemma EnableDoes(s: MgrState, id: nat, enable: bool, now: int)
    requires s.Valid() && s.IsValidEvent(id) && Fits(s.events[id])
    ensures var e, r := s.events[id], Enabled(s, id, enable, now);
            var stays := id in s.active && (e.disabled == !enable || id in s.hardcodedIds);
            && OthersSame(s, r, id) && r.events[id].disabled == !enable
            && (id in r.active <==> stays)
            && r.events[id].start == if id in s.active && !stays then now - e.length * 60 else e.start
  {
  }

  /** The part of the hardcoded events: the first delay is a day, and each enabled one may shorten it. */
  lemma {:induction false} HardcodedDelay(s: MgrState, hs: seq<HardcodedUpdate>, now: int)
    requires s.Valid() && forall i :: 0 <= i < |hs| ==> hs[i].eventId < |s.events|
    ensures var d := HardcodedPhase(s, hs, now).1;
            && d <= 86400
            && (forall i :: 0 <= i < |hs| && EnabledAtTurn(s, hs, i, now) ==> d <= hs[i].delay)
            && (d == 86400 || exists i :: 0 <= i < |hs| && EnabledAtTurn(s, hs, i, now) && d == hs[i].delay)
  {
    hide MgrState.Valid, EnabledAtTurn, SameShape;
    if hs != [] {
      var n := |hs| - 1;
      HardcodedDelay(s, hs[..n], now);
      EarlierTurns(s, hs, now);
      DelayStep(s, hs, now);
      hide HardcodedPhase;
      var d := HardcodedPhase(s, hs[..n], now).1;
      if d != 86400 {
        var i :| 0 <= i < n && EnabledAtTurn(s, hs[..n], i, now) && d == hs[..n][i].delay;
        assert hs[i].delay == d && EnabledAtTurn(s, hs, i, now);
      }
    }
  }

  lemma EarlierTurns(s: MgrState, hs: seq<HardcodedUpdate>, now: int)
    requires s.Valid() && hs != [] && forall i :: 0 <= i < |hs| ==> hs[i].eventId < |s.events|
    ensures forall i :: 0 <= i < |hs| - 1 ==> EnabledAtTurn(s, hs, i, now) == EnabledAtTurn(s, hs[..|hs| - 1], i, now)
  {
    hide MgrState.Valid, SameShape, HardcodedPhase;
    forall i | 0 <= i < |hs| - 1
      ensures EnabledAtTurn(s, hs, i, now) == EnabledAtTurn(s, hs[..|hs| - 1], i, now)
    {
      assert hs[..i] == hs[..|hs| - 1][..i];
    }
  }

  lemma DelayStep(s: MgrState, hs: seq<HardcodedUpdate>, now: int)
    requires s.Valid() && hs != [] && forall i :: 0 <= i < |hs| ==> hs[i].eventId < |s.events|
    ensures var d, own := HardcodedPhase(s, hs[..|hs| - 1], now).1, hs[|hs| - 1].delay;
            HardcodedPhase(s, hs, now).1 == if EnabledAtTurn(s, hs, |hs| - 1, now) && own < d then own else d
  {
    hide MgrState.Valid, SameShape, AllCalled;
  }

  /** Hardcoded event `i` is enabled when its turn comes. */
  predicate EnabledAtTurn(s: MgrState, hs: seq<HardcodedUpdate>, i: nat, now: int)
    requires s.Valid() && i < |hs| && forall k :: 0 <= k < |hs| ==> hs[k].eventId < |s.events|
  {
    !HardcodedPhase(s, hs[..i], now).0.events[hs[i].eventId].disabled
  }

  /** The regular part of an update decides for every event but event 0, the hardcoded and the disabled ones. */
  lemma UpdateDecides(s: MgrState, now: int, id: nat)
    requires s.Valid()
    ensures id in RegularPhase(s, now).active <==>
            if 0 < id < |s.events| && !s.events[id].hardcoded && !s.events[id].disabled
            then CheckOneGameEvent(s.events[id], now) else id in s.active
    ensures RegularPhase(s, now).events == s.events && RegularPhase(s, now).hardcodedIds == s.hardcodedIds
  {
    hide CheckOneGameEvent;
  }
}
