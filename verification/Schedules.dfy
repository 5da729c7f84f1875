/** Schedules in which a client has several lookups in flight: when the throttle
    is exact, and that its bound on misses is the best possible. */
module Schedules {
  import opened RateLimit
  import opened Throttle
  import opened Flights

  // ------------------------------------------------------- one lookup at a time

  /** With one lookup in flight at most, no question forgets. */
  lemma {:induction false} OneAtATimeClean(c: GuardConfig, sweptAt: int, steps: seq<Step>, t: int, key: string)
    requires Cooling(c) && key != "" && InOrder(steps, t) && AtMost(c, Empty(sweptAt), steps, key, 1)
    ensures Clean(c, Empty(sweptAt), steps, key)
  {
    if steps != [] {
      var init, s := steps[..|steps| - 1], steps[|steps| - 1];
      OneAtATimeClean(c, sweptAt, init, t, key);
      if s.Ask? && s.key == key && Lifts(Run(c, Empty(sweptAt), init), key, s.at) {
        ForgetsAtMost(c, sweptAt, init, t, key, 1, s.at);
      }
    }
  }

  /** Exact in every schedule with at most n lookups of a client in flight, however
      the lookups of different clients interleave. */
  ghost predicate AlwaysExact(c: GuardConfig, n: nat) {
    forall sweptAt, steps, t, key | key != "" && InOrder(steps, t) && AtMost(c, Empty(sweptAt), steps, key, n) ::
      Exact(c, Empty(sweptAt), [], steps, key)
  }

  lemma OneAtATimeExact(c: GuardConfig)
    requires Cooling(c)
    ensures AlwaysExact(c, 1)
  {
    forall sweptAt, steps, t, key | key != "" && InOrder(steps, t) && AtMost(c, Empty(sweptAt), steps, key, 1)
      ensures Exact(c, Empty(sweptAt), [], steps, key)
    {
      OneAtATimeClean(c, sweptAt, steps, t, key);
      ThrottleExact(c, sweptAt, steps, t, key);
    }
  }

  // ------------------------------------------------------- building a schedule

  const KEY := "k"

  /** Where a schedule that begins at time 0 has got to by time now: the misses
      since the last lifted block, all misses, and the lookups in flight. */
  ghost predicate Stage(c: GuardConfig, steps: seq<Step>, n: nat, times: seq<int>, history: seq<int>, flight: nat,
                        now: int) {
    && Since(c, Empty(0), steps, KEY) == times && MissTimes(steps, KEY) == history
    && Flight(c, Empty(0), steps, KEY) == flight && AtMost(c, Empty(0), steps, KEY, n)
    && InOrder(steps, 0) && EndOf(steps, 0) <= now
  }

  /** The throttle lets the key in and has room for misses at now. */
  ghost predicate Open(c: GuardConfig, steps: seq<Step>, times: seq<int>, now: int, room: int) {
    KEY !in Run(c, Empty(0), steps).blockedUntil && CountIn(times, now - c.window, now) + room <= c.limit
  }

  ghost predicate BlockedTill(c: GuardConfig, steps: seq<Step>, until: int) {
    var blocked := Run(c, Empty(0), steps).blockedUntil;
    KEY in blocked && blocked[KEY] == until
  }

  lemma StageSnoc(c: GuardConfig, steps: seq<Step>, s: Step, n: nat, times: seq<int>, history: seq<int>, flight: nat)
    requires Stage(c, steps, n, times, history, flight, s.at) && s.key == KEY
    requires 0 <= FlightStep(Run(c, Empty(0), steps), flight, s, KEY) <= n
    ensures
      var g := Run(c, Empty(0), steps);
      Stage(c, steps + [s], n, SinceStep(g, times, s, KEY), if s.Miss? then history + [s.at] else history,
            FlightStep(g, flight, s, KEY), s.at)
    ensures Run(c, Empty(0), steps + [s]) == StepOf(c, Run(c, Empty(0), steps), s)
  {
    assert (steps + [s])[..|steps|] == steps;
  }

  lemma StageAsk(c: GuardConfig, steps: seq<Step>, n: nat, times: seq<int>, history: seq<int>, flight: nat, now: int)
    requires Stage(c, steps, n, times, history, flight, now) && flight < n &&
             KEY !in Run(c, Empty(0), steps).blockedUntil
    ensures Stage(c, steps + [Ask(KEY, now)], n, times, history, flight + 1, now)
    ensures Run(c, Empty(0), steps + [Ask(KEY, now)]) == Run(c, Empty(0), steps)
  {
    StageSnoc(c, steps, Ask(KEY, now), n, times, history, flight);
  }

  lemma StageMiss(c: GuardConfig, steps: seq<Step>, n: nat, times: seq<int>, history: seq<int>, flight: nat, now: int)
    requires Stage(c, steps, n, times, history, flight, now) && flight > 0
    ensures Stage(c, steps + [Miss(KEY, now)], n, times + [now], history + [now], flight - 1, now)
    ensures Run(c, Empty(0), steps + [Miss(KEY, now)]) == RecordMissStep(c, Run(c, Empty(0), steps), KEY, now)
  {
    StageSnoc(c, steps, Miss(KEY, now), n, times, history, flight);
  }

  lemma StageLift(c: GuardConfig, steps: seq<Step>, n: nat, times: seq<int>, history: seq<int>, flight: nat, now: int)
    requires Stage(c, steps, n, times, history, flight, now) && flight < n && Lifts(Run(c, Empty(0), steps), KEY, now)
    ensures Stage(c, steps + [Ask(KEY, now)], n, [], history, flight + 1, now)
    ensures KEY !in Run(c, Empty(0), steps + [Ask(KEY, now)]).blockedUntil
  {
    StageSnoc(c, steps, Ask(KEY, now), n, times, history, flight);
  }

  /** The stored blocks after a miss follow from the window's count. */
  lemma MissBlocks(c: GuardConfig, steps: seq<Step>, now: int)
    requires c.window > 0 && InOrder(steps, 0) && EndOf(steps, 0) <= now
    ensures
      var g := Run(c, Empty(0), steps);
      RecordMissStep(c, g, KEY, now).blockedUntil ==
      AfterMiss(c, GuardSweep(c, g, now).blockedUntil, KEY, Since(c, Empty(0), steps, KEY), now)
  {
    SinceLoyal(c, 0, steps, KEY, 0);
    LoyalMiss(c, Run(c, Empty(0), steps), KEY, Since(c, Empty(0), steps, KEY), EndOf(steps, 0), now);
  }

  lemma CountAppend(times: seq<int>, now: int, window: int)
    requires window > 0
    ensures CountIn(times + [now], now - window, now) == CountIn(times, now - window, now) + 1
  {
    assert (times + [now])[..|times|] == times;
  }

  lemma MissKeepsOpen(c: GuardConfig, steps: seq<Step>, times: seq<int>, now: int, room: int)
    requires c.window > 0 && InOrder(steps, 0) && EndOf(steps, 0) <= now && Since(c, Empty(0), steps, KEY) == times
    requires Open(c, steps, times, now, room) && room > 0
    ensures Open(c, steps + [Miss(KEY, now)], times + [now], now, room - 1)
  {
    MissBlocks(c, steps, now);
    RunSnoc(c, Empty(0), steps, Miss(KEY, now));
    CountAppend(times, now, c.window);
  }

  function Asks(pre: seq<Step>, now: int, d: nat): seq<Step> {
    if d == 0 then pre else Asks(pre, now, d - 1) + [Ask(KEY, now)]
  }

  function Volley(pre: seq<Step>, now: int, d: nat): seq<Step> {
    if d == 0 then pre else Volley(pre, now, d - 1) + [Miss(KEY, now)]
  }

  lemma {:induction false} StageAsks(c: GuardConfig, pre: seq<Step>, n: nat, times: seq<int>, history: seq<int>,
                                     flight: nat, now: int, d: nat)
    requires Stage(c, pre, n, times, history, flight, now) && flight + d <= n &&
             KEY !in Run(c, Empty(0), pre).blockedUntil
    ensures Stage(c, Asks(pre, now, d), n, times, history, flight + d, now)
    ensures Run(c, Empty(0), Asks(pre, now, d)) == Run(c, Empty(0), pre)
  {
    if d > 0 {
      StageAsks(c, pre, n, times, history, flight, now, d - 1);
      StageAsk(c, Asks(pre, now, d - 1), n, times, history, flight + d - 1, now);
    }
  }

  lemma {:induction false} StageVolley(c: GuardConfig, pre: seq<Step>, n: nat, times: seq<int>, history: seq<int>,
                                       flight: nat, now: int, d: nat)
    requires Stage(c, pre, n, times, history, flight, now) && d <= flight
    ensures Stage(c, Volley(pre, now, d), n, Extend(times, now, d), Extend(history, now, d), flight - d, now)
  {
    if d > 0 {
      StageVolley(c, pre, n, times, history, flight, now, d - 1);
      StageMiss(c, Volley(pre, now, d - 1), n, Extend(times, now, d - 1), Extend(history, now, d - 1),
                flight - (d - 1), now);
    }
  }

  /** A barrage within the limit is let in, each lookup after the miss before it. */
  lemma {:induction false} StageBarrage(c: GuardConfig, pre: seq<Step>, n: nat, times: seq<int>, history: seq<int>,
                                        flight: nat, now: int, d: nat, room: nat)
    requires Stage(c, pre, n, times, history, flight, now) && 0 < flight <= n && c.window > 0
    requires Open(c, pre, times, now, room) && d <= room
    ensures Stage(c, Barrage(pre, KEY, now, d), n, Extend(times, now, d), Extend(history, now, d), flight, now)
    ensures Open(c, Barrage(pre, KEY, now, d), Extend(times, now, d), now, room - d)
  {
    if d > 0 {
      StageBarrage(c, pre, n, times, history, flight, now, d - 1, room);
      var shorter := Barrage(pre, KEY, now, d - 1);
      StageRound(c, shorter, n, Extend(times, now, d - 1), Extend(history, now, d - 1), flight, now, room - (d - 1));
    }
  }

  lemma StageRound(c: GuardConfig, pre: seq<Step>, n: nat, times: seq<int>, history: seq<int>,
                   flight: nat, now: int, room: nat)
    requires Stage(c, pre, n, times, history, flight, now) && 0 < flight <= n && c.window > 0
    requires Open(c, pre, times, now, room) && room > 0
    ensures
      var steps := pre + [Miss(KEY, now)] + [Ask(KEY, now)];
      Stage(c, steps, n, times + [now], history + [now], flight, now) && Open(c, steps, times + [now], now, room - 1)
  {
    StageMiss(c, pre, n, times, history, flight, now);
    MissKeepsOpen(c, pre, times, now, room);
    StageAsk(c, pre + [Miss(KEY, now)], n, times + [now], history + [now], flight - 1, now);
  }

  // ----------------------------------------------------------- the worst case

  /** limit + 1 misses at 0, with n lookups in flight before the last of them. */
  function Filled(c: GuardConfig, n: nat): seq<Step>
    requires c.limit >= 0 && n > 0
  {
    Asks(Barrage([Ask(KEY, 0)], KEY, 0, c.limit), 0, n - 1) + [Miss(KEY, 0)]
  }

  /** How many of the others miss late: all, or as many as the limit lets pass. */
  function Lates(c: GuardConfig, n: nat): nat
    requires c.limit >= 0 && n > 0
  {
    if n - 1 <= c.limit then n - 1 else c.limit
  }

  /** Then late misses at the end of the block, and the question that ends it. */
  function Lifted(c: GuardConfig, n: nat): seq<Step>
    requires c.limit >= 0 && n > 0
  {
    Volley(Filled(c, n), c.cooldown, Lates(c, n)) + [Ask(KEY, c.cooldown + 1)]
  }

  /** Then limit misses one by one, questions until n lookups are in flight, and all
      of them missing together. */
  function Worst(c: GuardConfig, n: nat): seq<Step>
    requires c.limit >= 0 && n > 0
  {
    Volley(Asks(Again(c, n), c.cooldown + 1, Lates(c, n)), c.cooldown + 1, n)
  }

  function Again(c: GuardConfig, n: nat): seq<Step>
    requires c.limit >= 0 && n > 0
  {
    Barrage(Lifted(c, n), KEY, c.cooldown + 1, c.limit)
  }

  function Zeros(c: GuardConfig): seq<int>
    requires c.limit >= 0
  {
    Extend([], 0, c.limit + 1)
  }

  ghost predicate Usual(c: GuardConfig) {
    0 <= c.limit && 0 < c.window && 0 <= c.cooldown
  }

  /** Late misses, if any, come when the first ones have left the window. */
  ghost predicate Late(c: GuardConfig, n: nat) {
    n == 1 || (1 < n && c.window <= c.cooldown)
  }

  lemma FirstAsk(c: GuardConfig, n: nat)
    requires Usual(c) && n > 0
    ensures Stage(c, [Ask(KEY, 0)], n, [], [], 1, 0) && Open(c, [Ask(KEY, 0)], [], 0, c.limit)
  {
    var none: seq<Step> := [];
    assert Run(c, Empty(0), none) == Empty(0);
    StageAsk(c, none, n, [], [], 0, 0);
    assert none + [Ask(KEY, 0)] == [Ask(KEY, 0)];
  }

  /** A miss in a full window blocks. */
  lemma MissBlocksTill(c: GuardConfig, steps: seq<Step>, times: seq<int>, now: int)
    requires c.window > 0 && InOrder(steps, 0) && EndOf(steps, 0) <= now && Since(c, Empty(0), steps, KEY) == times
    requires CountIn(times, now - c.window, now) + 1 > c.limit
    ensures BlockedTill(c, steps + [Miss(KEY, now)], now + c.cooldown)
  {
    MissBlocks(c, steps, now);
    RunSnoc(c, Empty(0), steps, Miss(KEY, now));
  }

  /** A miss below the limit leaves a block that is not over as it is. */
  lemma MissKeepsBlock(c: GuardConfig, steps: seq<Step>, times: seq<int>, now: int, until: int)
    requires c.window > 0 && InOrder(steps, 0) && EndOf(steps, 0) <= now && Since(c, Empty(0), steps, KEY) == times
    requires CountIn(times, now - c.window, now) + 1 <= c.limit && BlockedTill(c, steps, until) && now <= until
    ensures BlockedTill(c, steps + [Miss(KEY, now)], until)
  {
    MissBlocks(c, steps, now);
    RunSnoc(c, Empty(0), steps, Miss(KEY, now));
  }

  lemma FilledStage(c: GuardConfig, n: nat)
    requires Usual(c) && n > 0
    ensures Stage(c, Filled(c, n), n, Zeros(c), Zeros(c), n - 1, 0) && BlockedTill(c, Filled(c, n), c.cooldown)
  {
    var pre, times := Barrage([Ask(KEY, 0)], KEY, 0, c.limit), Extend([], 0, c.limit);
    FirstAsk(c, n);
    StageBarrage(c, [Ask(KEY, 0)], n, [], [], 1, 0, c.limit, c.limit);
    ExtendCounts([], 0, c.limit, 0 - c.window);
    FilledLast(c, pre, n, times, 0);
  }

  /** n - 1 further lookups, and the miss that fills the window. */
  lemma FilledLast(c: GuardConfig, pre: seq<Step>, n: nat, times: seq<int>, now: int)
    requires Usual(c) && n > 0 && Stage(c, pre, n, times, times, 1, now) && KEY !in Run(c, Empty(0), pre).blockedUntil
    requires CountIn(times, now - c.window, now) == c.limit
    ensures
      var steps := Asks(pre, now, n - 1) + [Miss(KEY, now)];
      Stage(c, steps, n, times + [now], times + [now], n - 1, now) && BlockedTill(c, steps, now + c.cooldown)
  {
    StageAsks(c, pre, n, times, times, 1, now, n - 1);
    StageBlocks(c, Asks(pre, now, n - 1), n, times, times, n, now);
  }

  lemma StageBlocks(c: GuardConfig, steps: seq<Step>, n: nat, times: seq<int>, history: seq<int>, flight: nat, now: int)
    requires Stage(c, steps, n, times, history, flight, now) && flight > 0 && c.window > 0
    requires CountIn(times, now - c.window, now) + 1 > c.limit
    ensures Stage(c, steps + [Miss(KEY, now)], n, times + [now], history + [now], flight - 1, now)
    ensures BlockedTill(c, steps + [Miss(KEY, now)], now + c.cooldown)
  {
    StageMiss(c, steps, n, times, history, flight, now);
    MissBlocksTill(c, steps, times, now);
  }

  /** The key is blocked until now, all its misses are since the last block, and
      further ones have room. */
  ghost predicate LateStage(c: GuardConfig, steps: seq<Step>, n: nat, times: seq<int>, flight: nat, now: int,
                            room: int) {
    && Stage(c, steps, n, times, times, flight, now) && BlockedTill(c, steps, now)
    && CountIn(times, now - c.window, now) + room <= c.limit
  }

  lemma LateStep(c: GuardConfig, steps: seq<Step>, n: nat, times: seq<int>, flight: nat, now: int, room: int)
    requires c.window > 0 && flight > 0 && room > 0 && LateStage(c, steps, n, times, flight, now, room)
    ensures LateStage(c, steps + [Miss(KEY, now)], n, times + [now], flight - 1, now, room - 1)
  {
    StageMiss(c, steps, n, times, times, flight, now);
    MissKeepsBlock(c, steps, times, now, now);
    CountAppend(times, now, c.window);
  }

  /** Late misses below the limit leave the stored block as it is. */
  lemma {:induction false} LateMisses(c: GuardConfig, pre: seq<Step>, n: nat, times: seq<int>, flight: nat,
                                      now: int, room: int, d: nat)
    requires c.window > 0 && LateStage(c, pre, n, times, flight, now, room) && d <= flight && (d == 0 || d <= room)
    ensures LateStage(c, Volley(pre, now, d), n, Extend(times, now, d), flight - d, now, room - d)
  {
    if d > 0 {
      LateMisses(c, pre, n, times, flight, now, room, d - 1);
      LateStep(c, Volley(pre, now, d - 1), n, Extend(times, now, d - 1), flight - (d - 1), now, room - (d - 1));
    }
  }

  lemma {:induction false} ExtendAll(times: seq<int>, now: int, d: nat)
    ensures |Extend(times, now, d)| == |times| + d
    ensures forall i :: |times| <= i < |times| + d ==> Extend(times, now, d)[i] == now
    ensures Extend(times, now, d)[..|times|] == times
  {
    if d > 0 { ExtendAll(times, now, d - 1); }
  }

  /** The first misses count in a window iff it reaches back to before 0. */
  lemma ZerosOld(c: GuardConfig, lo: int, hi: int)
    requires Usual(c) && lo < hi && 0 <= hi
    ensures CountIn(Zeros(c), lo, hi) == if lo < 0 then c.limit + 1 else 0
  {
    ExtendAll([], 0, c.limit + 1);
    if lo < 0 {
      ExtendCounts([], 0, c.limit + 1, lo);
      CountCut(Zeros(c), lo, hi, 0);
    } else {
      CountNone(Zeros(c), lo, hi);
    }
  }

  /** All misses before the question that ends the block. */
  function LiftedTimes(c: GuardConfig, n: nat): seq<int>
    requires c.limit >= 0 && n > 0
  {
    Extend(Zeros(c), c.cooldown, Lates(c, n))
  }

  /** What is left of the limit when the late misses come. */
  function LateRoom(c: GuardConfig): int {
    if c.window <= c.cooldown then c.limit else -1
  }

  lemma LatesMissed(c: GuardConfig, n: nat)
    requires Usual(c) && n > 0 && Late(c, n)
    ensures
      var k := Lates(c, n);
      LateStage(c, Volley(Filled(c, n), c.cooldown, k), n, LiftedTimes(c, n), n - 1 - k, c.cooldown, LateRoom(c) - k)
  {
    FilledStage(c, n);
    ZerosOld(c, c.cooldown - c.window, c.cooldown);
    LateMisses(c, Filled(c, n), n, Zeros(c), n - 1, c.cooldown, LateRoom(c), Lates(c, n));
  }

  /** The question that ends the block, one instant after it. */
  lemma LiftStep(c: GuardConfig, pre: seq<Step>, n: nat, times: seq<int>, flight: nat, now: int)
    requires Usual(c) && flight < n && Stage(c, pre, n, times, times, flight, now) && BlockedTill(c, pre, now)
    ensures Stage(c, pre + [Ask(KEY, now + 1)], n, [], times, flight + 1, now + 1)
    ensures Open(c, pre + [Ask(KEY, now + 1)], [], now + 1, c.limit)
  {
    StageLift(c, pre, n, times, times, flight, now + 1);
  }

  lemma LiftedStage(c: GuardConfig, n: nat)
    requires Usual(c) && n > 0 && Late(c, n)
    ensures Stage(c, Lifted(c, n), n, [], LiftedTimes(c, n), n - Lates(c, n), c.cooldown + 1)
    ensures Open(c, Lifted(c, n), [], c.cooldown + 1, c.limit)
  {
    LatesMissed(c, n);
    var pre := Volley(Filled(c, n), c.cooldown, Lates(c, n));
    LiftStep(c, pre, n, LiftedTimes(c, n), n - 1 - Lates(c, n), c.cooldown);
  }

  /** How many misses the lifting question finds still in the window. */
  lemma LiftedCount(c: GuardConfig, n: nat)
    requires Usual(c) && n > 0 && Late(c, n)
    ensures
      CountIn(LiftedTimes(c, n), c.cooldown + 1 - c.window, c.cooldown + 1) ==
      (if c.cooldown + 1 < c.window then c.limit + 1 else 0) + (if c.window > 1 then Lates(c, n) else 0)
  {
    var lo, now := c.cooldown + 1 - c.window, c.cooldown + 1;
    ExtendCountsIn(Zeros(c), c.cooldown, Lates(c, n), lo, now);
    ZerosOld(c, lo, now);
  }

  lemma {:induction false} ExtendCountsIn(times: seq<int>, at: int, d: nat, lo: int, hi: int)
    ensures CountIn(Extend(times, at, d), lo, hi) == CountIn(times, lo, hi) + (if lo < at <= hi then d else 0)
  {
    if d > 0 {
      ExtendCountsIn(times, at, d - 1, lo, hi);
      CountConcat(Extend(times, at, d - 1), [at], lo, hi);
      assert CountIn([at], lo, hi) == (if lo < at <= hi then 1 else 0) by { CountOne(at, lo, hi); }
    }
  }

  lemma CountOne(at: int, lo: int, hi: int)
    ensures CountIn([at], lo, hi) == if lo < at <= hi then 1 else 0
  {
    assert [at][..0] == [];
  }

  /** A schedule in which the throttle is not exact, whenever the lifting question
      finds a miss still in the window. */
  lemma AgainInexact(c: GuardConfig, n: nat)
    requires Usual(c) && 1 <= c.limit && n > 0 && Late(c, n)
    requires c.cooldown + 1 < c.window || (n > 1 && c.window > 1)
    ensures !AlwaysExact(c, n)
  {
    LiftedStage(c, n);
    LiftedCount(c, n);
    AgainStage(c, n);
    LiftedInexact(c, Lifted(c, n), n, LiftedTimes(c, n), n - Lates(c, n), c.cooldown + 1);
  }

  lemma AgainStage(c: GuardConfig, n: nat)
    requires Usual(c) && n > 0 && Late(c, n)
    ensures
      var now := c.cooldown + 1;
      Stage(c, Again(c, n), n, Extend([], now, c.limit), Extend(LiftedTimes(c, n), now, c.limit),
            n - Lates(c, n), now) &&
      KEY !in Run(c, Empty(0), Again(c, n)).blockedUntil
  {
    LiftedStage(c, n);
    StageBarrage(c, Lifted(c, n), n, [], LiftedTimes(c, n), n - Lates(c, n), c.cooldown + 1, c.limit, c.limit);
  }

  lemma LiftedInexact(c: GuardConfig, pre: seq<Step>, n: nat, history: seq<int>, flight: nat, now: int)
    requires Usual(c) && 1 <= c.limit && Stage(c, pre, n, [], history, flight, now) && Open(c, pre, [], now, c.limit)
    requires CountIn(history, now - c.window, now) >= 1
    ensures !Exact(c, Empty(0), [], Barrage(pre, KEY, now, c.limit), KEY)
  {
    SinceLoyal(c, 0, pre, KEY, 0);
    LoyalLater(c, Run(c, Empty(0), pre), KEY, [], EndOf(pre, 0), now);
    assert [] + history == history;
    ForgottenLetIn(c, Empty(0), pre, KEY, [], now, c.limit);
  }

  /** The exact condition on the configuration, for lookups one at a time: the
      throttle answers as the complete history would iff a block lasts as long as
      the window. */
  lemma ExactIffCooling(c: GuardConfig)
    requires Usual(c) && 1 <= c.limit
    ensures AlwaysExact(c, 1) <==> c.window <= c.cooldown + 1
  {
    if c.window <= c.cooldown + 1 {
      OneAtATimeExact(c);
    } else {
      AgainInexact(c, 1);
    }
  }

  lemma {:induction false} AtMostMore(c: GuardConfig, g: Guard, steps: seq<Step>, key: string, n: nat, m: nat)
    requires AtMost(c, g, steps, key, n) && n <= m
    ensures AtMost(c, g, steps, key, m)
  {
    if steps != [] { AtMostMore(c, g, steps[..|steps| - 1], key, n, m); }
  }

  lemma AlwaysExactLess(c: GuardConfig, n: nat, m: nat)
    requires AlwaysExact(c, m) && n <= m
    ensures AlwaysExact(c, n)
  {
    forall sweptAt, steps, t, key | key != "" && InOrder(steps, t) && AtMost(c, Empty(sweptAt), steps, key, n)
      ensures Exact(c, Empty(sweptAt), [], steps, key)
    {
      AtMostMore(c, Empty(sweptAt), steps, key, n, m);
    }
  }

  /** The exact condition on the client: with a cooldown that covers the window the
      throttle is exact iff no client has two lookups in flight. */
  lemma ExactIffOneAtATime(c: GuardConfig, n: nat)
    requires Usual(c) && 1 <= c.limit && 1 < c.window <= c.cooldown && n > 0
    ensures AlwaysExact(c, n) <==> n == 1
  {
    OneAtATimeExact(c);
    if AlwaysExact(c, n) && n > 1 {
      AlwaysExactLess(c, 2, n);
      AgainInexact(c, 2);
    }
  }

  // -------------------------------------------------------------- the best bound

  /** The bound is attained: a schedule with n lookups in flight leaves exactly
      limit + n + min(n - 1, limit) misses in one window. */
  lemma BoundAttained(c: GuardConfig, n: nat)
    requires Usual(c) && 1 < c.window <= c.cooldown && n >= 1
    ensures InOrder(Worst(c, n), 0) && AtMost(c, Empty(0), Worst(c, n), KEY, n)
    ensures CountIn(MissTimes(Worst(c, n), KEY), c.cooldown + 1 - c.window, c.cooldown + 1) == Bound(c, n)
  {
    WorstStage(c, n);
    LiftedCount(c, n);
    WorstCount(LiftedTimes(c, n), c.cooldown + 1, c.limit, n, c.cooldown + 1 - c.window);
  }

  lemma WorstCount(times: seq<int>, now: int, one: nat, two: nat, lo: int)
    requires lo < now
    ensures CountIn(Extend(Extend(times, now, one), now, two), lo, now) == CountIn(times, lo, now) + one + two
  {
    ExtendCounts(times, now, one, lo);
    ExtendCounts(Extend(times, now, one), now, two, lo);
  }

  lemma WorstStage(c: GuardConfig, n: nat)
    requires Usual(c) && n > 0 && Late(c, n)
    ensures InOrder(Worst(c, n), 0) && AtMost(c, Empty(0), Worst(c, n), KEY, n)
    ensures
      var now := c.cooldown + 1;
      MissTimes(Worst(c, n), KEY) == Extend(Extend(LiftedTimes(c, n), now, c.limit), now, n)
  {
    var now := c.cooldown + 1;
    AgainStage(c, n);
    WorstEnd(c, Again(c, n), n, Extend([], now, c.limit), Extend(LiftedTimes(c, n), now, c.limit),
             n - Lates(c, n), now);
  }

  lemma WorstEnd(c: GuardConfig, pre: seq<Step>, n: nat, times: seq<int>, history: seq<int>, flight: nat, now: int)
    requires Stage(c, pre, n, times, history, flight, now) && flight <= n && KEY !in Run(c, Empty(0), pre).blockedUntil
    ensures
      var steps := Volley(Asks(pre, now, n - flight), now, n);
      InOrder(steps, 0) && AtMost(c, Empty(0), steps, KEY, n) && MissTimes(steps, KEY) == Extend(history, now, n)
  {
    StageAsks(c, pre, n, times, history, flight, now, n - flight);
    StageVolley(c, Asks(pre, now, n - flight), n, times, history, n, now, n);
  }

  /** In all schedules with at most n lookups of a client in flight, no window holds
      more than b of its misses. */
  ghost predicate AlwaysWithin(c: GuardConfig, n: nat, b: int) {
    forall sweptAt, steps, t, key | key != "" && InOrder(steps, t) && AtMost(c, Empty(sweptAt), steps, key, n) ::
      TimesWithin(MissTimes(steps, key), b, c.window)
  }

  lemma WithinMore(times: seq<int>, b: int, more: int, window: int)
    requires TimesWithin(times, b, window) && b <= more
    ensures TimesWithin(times, more, window)
  {
    forall s ensures IntervalHolds(times, s, more, window) {
      assert IntervalHolds(times, s, b, window);
    }
  }

  /** The best bound, for every number of lookups in flight: all schedules keep every
      window within b iff b is at least limit + n + min(n - 1, limit). */
  lemma WithinIff(c: GuardConfig, n: nat, b: int)
    requires Usual(c) && 1 < c.window <= c.cooldown && n >= 1
    ensures AlwaysWithin(c, n, b) <==> Bound(c, n) <= b
  {
    if Bound(c, n) <= b {
      forall sweptAt, steps, t, key | key != "" && InOrder(steps, t) && AtMost(c, Empty(sweptAt), steps, key, n)
        ensures TimesWithin(MissTimes(steps, key), b, c.window)
      {
        MissesBounded(c, sweptAt, steps, t, key, n);
        WithinMore(MissTimes(steps, key), Bound(c, n), b, c.window);
      }
    }
    if AlwaysWithin(c, n, b) {
      BoundAttained(c, n);
      assert TimesWithin(MissTimes(Worst(c, n), KEY), b, c.window);
      assert IntervalHolds(MissTimes(Worst(c, n), KEY), c.cooldown + 1 - c.window, b, c.window);
    }
  }

  /** The throttle's promise of at most limit + 1 misses in a window holds iff no
      client has two lookups in flight. */
  lemma PromiseIffOneAtATime(c: GuardConfig, n: nat)
    requires Usual(c) && 1 < c.window <= c.cooldown && n >= 1
    ensures AlwaysWithin(c, n, c.limit + 1) <==> n == 1
  {
    WithinIff(c, n, c.limit + 1);
  }

  // ------------------------------------------------------- many lookups at once

  /** However small the limit, n lookups let in at once leave n misses at once: a
      bound that does not grow with the lookups in flight is false. */
  lemma AtOnce(c: GuardConfig, n: nat)
    requires Usual(c) && n > 0
    ensures
      var steps := Volley(Asks([Ask(KEY, 0)], 0, n - 1), 0, n);
      InOrder(steps, 0) && AtMost(c, Empty(0), steps, KEY, n) && CountIn(MissTimes(steps, KEY), -c.window, 0) == n
  {
    FirstAsk(c, n);
    WorstEnd(c, [Ask(KEY, 0)], n, [], [], 1, 0);
    ExtendCounts([], 0, n, -c.window);
  }
}
