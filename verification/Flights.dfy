/** The throttle against the number of lookups a client has in flight: asked and
    let in, but not yet ended. */
module Flights {
  import opened RateLimit
  import opened Throttle

  // ----------------------------------------------------------------- in flight

  /** A key's lookups in flight after a run. */
  function Flight(c: GuardConfig, g: Guard, steps: seq<Step>, key: string): int {
    if steps == [] then 0
    else
      var init := steps[..|steps| - 1];
      FlightStep(Run(c, g, init), Flight(c, g, init, key), steps[|steps| - 1], key)
  }

  function FlightStep(g: Guard, flight: int, s: Step, key: string): int {
    if s.key != key then flight
    else if !s.Ask? then flight - 1
    else if BlockedStep(g, key, s.at).1 then flight
    else flight + 1
  }

  /** Every miss and every end belongs to a lookup in flight, and there are never
      more than n of them. */
  ghost predicate AtMost(c: GuardConfig, g: Guard, steps: seq<Step>, key: string, n: nat) {
    steps == [] || (AtMost(c, g, steps[..|steps| - 1], key, n) && 0 <= Flight(c, g, steps, key) <= n)
  }

  /** The misses of a key up to the one before its last block was lifted. */
  function Before(c: GuardConfig, g: Guard, steps: seq<Step>, key: string): seq<int> {
    if steps == [] then []
    else
      var init, s := steps[..|steps| - 1], steps[|steps| - 1];
      if s.Ask? && s.key == key && Lifts(Run(c, g, init), key, s.at) then MissTimes(init, key)
      else Before(c, g, init, key)
  }

  lemma {:induction false} HistorySplits(c: GuardConfig, g: Guard, steps: seq<Step>, key: string)
    ensures MissTimes(steps, key) == Before(c, g, steps, key) + Since(c, g, steps, key)
  {
    if steps != [] { HistorySplits(c, g, steps[..|steps| - 1], key); }
  }

  // -------------------------------------------------------------- the invariant

  function Limit(c: GuardConfig): nat {
    if c.limit < 0 then 0 else c.limit
  }

  /** How many misses that still count a lifted block may drop. */
  function Droppable(c: GuardConfig, n: nat): nat
    requires n >= 1
  {
    if n - 1 <= Limit(c) then n - 1 else Limit(c)
  }

  /** What n lookups in flight may leave in any window. */
  function Bound(c: GuardConfig, n: nat): nat
    requires n >= 1
  {
    Limit(c) + n + Droppable(c, n)
  }

  /** Since a stored block's miss, at most the other lookups then in flight can
      have missed. */
  ghost predicate Leftover(c: GuardConfig, times: seq<int>, flight: int, n: nat) {
    forall i :: IsBlocker(c, times, i) ==> |times| - 1 - i + flight <= n - 1
  }

  /** The state of a key: `before` are the misses up to the last lifted block,
      `since` the ones after it. */
  ghost predicate Bounded(c: GuardConfig, g: Guard, key: string, before: seq<int>, since: seq<int>, flight: int,
                          n: nat, t: int)
    requires n >= 1
  {
    && Loyal(c, g, key, since, t) && Past(before + since, t) && 0 <= flight <= n
    && (key in g.blockedUntil ==> Leftover(c, since, flight, n))
    && CountIn(since, t - c.window, t) + flight <= Limit(c) + n
    && CountIn(before, t - c.window, t) <= Droppable(c, n)
    && TimesWithin(before + since, Bound(c, n), c.window)
  }

  lemma {:induction false} CountConcat(a: seq<int>, b: seq<int>, lo: int, hi: int)
    ensures CountIn(a + b, lo, hi) == CountIn(a, lo, hi) + CountIn(b, lo, hi)
  {
    if b == [] {
      assert a + b == a;
    } else {
      CountConcat(a, b[..|b| - 1], lo, hi);
      assert (a + b)[..|a + b| - 1] == a + b[..|b| - 1];
    }
  }

  /** A window that moves on loses times and gains none. */
  lemma CountAges(times: seq<int>, window: int, t: int, now: int)
    requires t <= now && forall i :: 0 <= i < |times| ==> times[i] <= t
    ensures CountIn(times, now - window, now) <= CountIn(times, t - window, t)
  {
    CountCut(times, now - window, now, t);
    CountMonotone(times, t - window, t, now - window, t);
  }

  /** At most the times after the i-th can lie in a window that begins with it. */
  lemma {:induction false} CountAfter(times: seq<int>, i: int, lo: int, hi: int)
    requires 0 <= i < |times| && forall j :: 0 <= j <= i ==> times[j] <= lo
    ensures CountIn(times, lo, hi) <= |times| - 1 - i
    decreases |times|
  {
    if i == |times| - 1 {
      CountNone(times, lo, hi);
    } else {
      CountAfter(times[..|times| - 1], i, lo, hi);
    }
  }

  /** A history that does not block leaves room for a miss. */
  lemma RoomWhenOpen(c: GuardConfig, times: seq<int>, now: int)
    requires Cooling(c) && Past(times, now) && !BlockedByTimes(c, times, now)
    ensures CountIn(times, now - c.window, now) <= Limit(c)
  {
    if CountIn(times, now - c.window, now) > Limit(c) {
      var last := times[|times| - 1];
      assert times[..|times|] == times;
      if last <= now - c.window {
        CountNone(times, now - c.window, now);
        assert false;
      }
      CountCut(times, now - c.window, now, last);
      CountMonotone(times, last - c.window, last, now - c.window, last);
      assert OverLimit(c, times, |times| - 1);
    }
  }

  /** A block outlasts the window of the miss that caused it. */
  ghost predicate Cooling(c: GuardConfig) {
    0 < c.window <= c.cooldown + 1
  }

  lemma PartsPast(before: seq<int>, since: seq<int>, t: int)
    requires Past(before + since, t)
    ensures forall i :: 0 <= i < |before| ==> before[i] <= t
    ensures forall i, j :: 0 <= i < |before| && 0 <= j < |since| ==> before[i] <= since[j]
  {
    var all := before + since;
    forall i | 0 <= i < |before| ensures before[i] <= t { assert before[i] == all[i]; }
    forall i, j | 0 <= i < |before| && 0 <= j < |since| ensures before[i] <= since[j] {
      assert before[i] == all[i] && since[j] == all[|before| + j];
    }
  }

  lemma BoundedLater(c: GuardConfig, g: Guard, key: string, before: seq<int>, since: seq<int>, flight: int, n: nat,
                     t: int, now: int)
    requires n >= 1 && Bounded(c, g, key, before, since, flight, n, t) && t <= now
    ensures Bounded(c, g, key, before, since, flight, n, now)
  {
    LoyalLater(c, g, key, since, t, now);
    PartsPast(before, since, t);
    CountAges(since, c.window, t, now);
    CountAges(before, c.window, t, now);
  }

  /** After the last over-limit miss the window never fills up again. */
  lemma CountAfterBlocker(c: GuardConfig, times: seq<int>, i: int, now: int)
    requires c.window > 0 && Past(times, now) && IsBlocker(c, times, i) && times[i] <= now - c.window
    ensures CountIn(times, now - c.window, now) <= Limit(c)
  {
    var last := times[|times| - 1];
    assert times[..|times|] == times;
    if last <= now - c.window {
      CountNone(times, now - c.window, now);
    } else {
      assert !OverLimit(c, times, |times| - 1);
      CountCut(times, now - c.window, now, last);
      CountMonotone(times, last - c.window, last, now - c.window, last);
    }
  }

  /** A question that ends a block drops at most n - 1 misses that still count, and
      never more than the limit. */
  lemma FewForgotten(c: GuardConfig, g: Guard, key: string, before: seq<int>, since: seq<int>, flight: int, n: nat,
                     now: int)
    requires n >= 1 && Bounded(c, g, key, before, since, flight, n, now) && Cooling(c) && Lifts(g, key, now)
    ensures CountIn(before + since, now - c.window, now) + flight <= n - 1
    ensures CountIn(before + since, now - c.window, now) <= Droppable(c, n)
  {
    var i :| IsBlocker(c, since, i) && g.blockedUntil[key] == since[i] + c.cooldown;
    PartsPast(before, since, now);
    CountNone(before, now - c.window, now);
    CountAfter(since, i, now - c.window, now);
    CountAfterBlocker(c, since, i, now);
    CountConcat(before, since, now - c.window, now);
  }

  lemma BoundedLift(c: GuardConfig, g: Guard, key: string, before: seq<int>, since: seq<int>, flight: int, n: nat,
                    now: int)
    requires n >= 1 && Bounded(c, g, key, before, since, flight, n, now) && Cooling(c) && Lifts(g, key, now) &&
             flight + 1 <= n
    ensures Bounded(c, BlockedStep(g, key, now).0, key, before + since, [], flight + 1, n, now)
  {
    LoyalLift(c, g, key, since, now, now);
    FewForgotten(c, g, key, before, since, flight, n, now);
    assert (before + since) + [] == before + since;
  }

  lemma BoundedAsk(c: GuardConfig, g: Guard, key: string, before: seq<int>, since: seq<int>, flight: int, n: nat,
                   now: int)
    requires n >= 1 && Bounded(c, g, key, before, since, flight, n, now) && Cooling(c) && key != "" &&
             !Lifts(g, key, now)
    requires 0 <= FlightStep(g, flight, Ask(key, now), key) <= n
    ensures
      var flight' := FlightStep(g, flight, Ask(key, now), key);
      Bounded(c, BlockedStep(g, key, now).0, key, before, since, flight', n, now)
  {
    LoyalAnswers(c, g, key, since, now, now);
    if !BlockedStep(g, key, now).1 { RoomWhenOpen(c, since, now); }
  }

  /** A lookup in flight finds room for its miss in every window. */
  lemma RoomInFlight(c: GuardConfig, all: seq<int>, dropped: int, kept: int, flight: int, n: nat, now: int)
    requires n >= 1 && flight >= 1 && Past(all, now) && TimesWithin(all, Bound(c, n), c.window)
    requires CountIn(all, now - c.window, now) == dropped + kept
    requires dropped <= Droppable(c, n) && kept + flight <= Limit(c) + n
    ensures TimesWithin(all + [now], Bound(c, n), c.window) && Past(all + [now], now)
  {
    AppendWithin(all, Bound(c, n), c.window, now);
    PastAppend(all, now);
  }

  lemma AppendLast(a: seq<int>, b: seq<int>, x: int)
    ensures a + (b + [x]) == a + b + [x]
  {
  }

  lemma PastAppend(times: seq<int>, now: int)
    requires Past(times, now)
    ensures Past(times + [now], now)
  {
  }

  lemma LeftoverMiss(c: GuardConfig, stored: bool, since: seq<int>, flight: int, n: nat, now: int)
    requires c.window > 0 && 1 <= flight <= n && (stored ==> Leftover(c, since, flight, n))
    requires stored || OverLimit(c, since + [now], |since|)
    ensures Leftover(c, since + [now], flight - 1, n)
  {
    OverAppend(c, since, now);
    var since' := since + [now];
    forall i | IsBlocker(c, since', i) ensures |since'| - 1 - i + (flight - 1) <= n - 1 {
      if i < |since| {
        assert !OverLimit(c, since', |since|);
        forall j | i < j < |since| ensures !OverLimit(c, since, j) { assert !OverLimit(c, since', j); }
        assert IsBlocker(c, since, i);
      }
    }
  }

  lemma BoundedMiss(c: GuardConfig, g: Guard, key: string, before: seq<int>, since: seq<int>, flight: int, n: nat,
                    now: int)
    requires n >= 1 && Bounded(c, g, key, before, since, flight, n, now) && Cooling(c) && key != "" && flight >= 1
    ensures Bounded(c, RecordMissStep(c, g, key, now), key, before, since + [now], flight - 1, n, now)
  {
    var g' := RecordMissStep(c, g, key, now);
    LoyalMiss(c, g, key, since, now, now);
    CountConcat(before, since, now - c.window, now);
    RoomInFlight(c, before + since, CountIn(before, now - c.window, now), CountIn(since, now - c.window, now), flight,
                 n,
                 now);
    AppendLast(before, since, now);
    assert (since + [now])[..|since|] == since;
    OverLast(c, since, now);
    if key in g'.blockedUntil { LeftoverMiss(c, key in g.blockedUntil, since, flight, n, now); }
  }

  lemma BoundedOther(c: GuardConfig, g: Guard, key: string, before: seq<int>, since: seq<int>, flight: int, n: nat,
                     s: Step)
    requires n >= 1 && Bounded(c, g, key, before, since, flight, n, s.at) && s.key != key
    ensures Bounded(c, StepOf(c, g, s), key, before, since, flight, n, s.at)
  {
    LoyalOther(c, g, key, since, s.at, s);
  }

  lemma BoundedStep(c: GuardConfig, g: Guard, key: string, before: seq<int>, since: seq<int>, flight: int, n: nat,
                    s: Step)
    requires n >= 1 && Bounded(c, g, key, before, since, flight, n, s.at) && Cooling(c) && key != ""
    requires 0 <= FlightStep(g, flight, s, key) <= n
    ensures
      var lifts := s.Ask? && s.key == key && Lifts(g, key, s.at);
      Bounded(c, StepOf(c, g, s), key, if lifts then before + since else before, SinceStep(g, since, s, key),
              FlightStep(g, flight, s, key), n, s.at)
  {
    if s.key != key {
      BoundedOther(c, g, key, before, since, flight, n, s);
    } else if s.Miss? {
      BoundedMiss(c, g, key, before, since, flight, n, s.at);
    } else if s.Ask? && Lifts(g, key, s.at) {
      BoundedLift(c, g, key, before, since, flight, n, s.at);
    } else if s.Ask? {
      BoundedAsk(c, g, key, before, since, flight, n, s.at);
    }
  }

  lemma EmptyBounded(c: GuardConfig, sweptAt: int, key: string, n: nat, t: int)
    requires n >= 1
    ensures Bounded(c, Empty(sweptAt), key, [], [], 0, n, t)
  {
    EmptyLoyal(c, sweptAt, key, t);
    var none: seq<int> := [];
    assert none + none == none;
  }

  lemma {:induction false} RunBounded(c: GuardConfig, sweptAt: int, steps: seq<Step>, t: int, key: string, n: nat)
    requires Cooling(c) && key != "" && n >= 1 && InOrder(steps, t) && AtMost(c, Empty(sweptAt), steps, key, n)
    ensures
      var g := Empty(sweptAt);
      Bounded(c, Run(c, g, steps), key, Before(c, g, steps, key), Since(c, g, steps, key),
              Flight(c, g, steps, key), n, EndOf(steps, t))
  {
    if steps == [] {
      EmptyBounded(c, sweptAt, key, n, t);
    } else {
      var g, init, s := Empty(sweptAt), steps[..|steps| - 1], steps[|steps| - 1];
      RunBounded(c, sweptAt, init, t, key, n);
      var g1, flight := Run(c, g, init), Flight(c, g, init, key);
      var before, since := Before(c, g, init, key), Since(c, g, init, key);
      BoundedLater(c, g1, key, before, since, flight, n, EndOf(init, t), s.at);
      BoundedStep(c, g1, key, before, since, flight, n, s);
      HistorySplits(c, g, init, key);
    }
  }

  /** Safety over all schedules: while a client never has more than n lookups in
      flight, no half-open interval of one window's length holds more than
      limit + n + min(n - 1, limit) of its misses. */
  lemma MissesBounded(c: GuardConfig, sweptAt: int, steps: seq<Step>, t: int, key: string, n: nat)
    requires Cooling(c) && key != "" && n >= 1 && InOrder(steps, t) && AtMost(c, Empty(sweptAt), steps, key, n)
    ensures TimesWithin(MissTimes(steps, key), Bound(c, n), c.window)
  {
    RunBounded(c, sweptAt, steps, t, key, n);
    HistorySplits(c, Empty(sweptAt), steps, key);
  }

  /** With the wired values: 61 misses a minute for one lookup at a time, 59 + 2n for
      up to 61 at a time, 120 + n for more. */
  lemma WiredMissesBounded(sweptAt: int, steps: seq<Step>, t: int, key: string, n: nat)
    requires key != "" && n >= 1 && InOrder(steps, t) && AtMost(WIRED, Empty(sweptAt), steps, key, n)
    ensures TimesWithin(MissTimes(steps, key), if n <= 61 then 59 + 2 * n else 120 + n, MINUTE)
  {
    MissesBounded(WIRED, sweptAt, steps, t, key, n);
  }

  /** A question that ends a block forgets at most min(n - 1, limit) misses. */
  lemma ForgetsAtMost(c: GuardConfig, sweptAt: int, steps: seq<Step>, t: int, key: string, n: nat, now: int)
    requires Cooling(c) && key != "" && n >= 1 && InOrder(steps, t) && AtMost(c, Empty(sweptAt), steps, key, n)
    requires EndOf(steps, t) <= now && Lifts(Run(c, Empty(sweptAt), steps), key, now)
    ensures CountIn(MissTimes(steps, key), now - c.window, now) <= Droppable(c, n)
    ensures |Prune(At(Run(c, Empty(sweptAt), steps).misses, key), now - c.window)| <= Droppable(c, n)
  {
    var g := Empty(sweptAt);
    var before, since, flight := Before(c, g, steps, key), Since(c, g, steps, key), Flight(c, g, steps, key);
    RunBounded(c, sweptAt, steps, t, key, n);
    BoundedLater(c, Run(c, g, steps), key, before, since, flight, n, EndOf(steps, t), now);
    FewForgotten(c, Run(c, g, steps), key, before, since, flight, n, now);
    HistorySplits(c, g, steps, key);
    MemoryCounts(At(Run(c, g, steps).misses, key), since, c.window, now);
    CountConcat(before, since, now - c.window, now);
  }
}
