/** The resolver's anti-enumeration throttle: more than limit unknown-code
    answers inside the window block a client for cooldown. */
module Throttle {
  import opened Common
  import opened RateLimit

  datatype GuardConfig = GuardConfig(limit: int, window: int, cooldown: int)

  datatype Guard = Guard(misses: map<string, seq<int>>, blockedUntil: map<string, int>, lastSweep: int)

  const MINUTE := 60_000_000_000

  /** The values the application wires. */
  const WIRED := GuardConfig(60, MINUTE, MINUTE)

  function BlockedStep(g: Guard, key: string, now: int): (Guard, bool) {
    if key == "" || key !in g.blockedUntil then (g, false)
    else if now > g.blockedUntil[key] then
      (g.(blockedUntil := g.blockedUntil - {key}, misses := g.misses - {key}), false)
    else (g, true)
  }

  function GuardSweep(c: GuardConfig, g: Guard, now: int): Guard {
    if now - g.lastSweep < c.window then g
    else Guard(Swept(g.misses, now - c.window), Unexpired(g.blockedUntil, now), now)
  }

  function Unexpired(blockedUntil: map<string, int>, now: int): map<string, int> {
    map key | key in blockedUntil && now <= blockedUntil[key] :: blockedUntil[key]
  }

  function RecordMissStep(c: GuardConfig, g: Guard, key: string, now: int): Guard {
    if key == "" then g
    else
      var g := GuardSweep(c, g, now);
      var kept := Prune(At(g.misses, key), now - c.window) + [now];
      g.(misses := g.misses[key := kept],
         blockedUntil := if |kept| > c.limit then g.blockedUntil[key := now + c.cooldown] else g.blockedUntil)
  }

  class GuessThrottle {
    const config: GuardConfig
    var misses: map<string, seq<int>>
    var blockedUntil: map<string, int>
    var lastSweep: int

    ghost function View(): Guard
      reads this
    {
      Guard(misses, blockedUntil, lastSweep)
    }

    constructor (limit: int, window: int, cooldown: int)
      ensures config == GuardConfig(limit, window, cooldown) && View() == Guard(map[], map[], 0)
    {
      config := GuardConfig(limit, window, cooldown);
      misses, blockedUntil, lastSweep := map[], map[], 0;
    }

    method Blocked(key: string, now: int) returns (blocked: bool)
      modifies this
      ensures (View(), blocked) == BlockedStep(old(View()), key, now)
    {
      if key == "" || key !in blockedUntil { return false; }
      if now > blockedUntil[key] {
        blockedUntil := blockedUntil - {key};
        misses := misses - {key};
        return false;
      }
      return true;
    }

    method RecordMiss(key: string, now: int)
      modifies this
      ensures View() == RecordMissStep(config, old(View()), key, now)
    {
      if key == "" { return; }
      Sweep(now);
      var kept := PruneBefore(if key in misses then misses[key] else [], now - config.window);
      kept := kept + [now];
      misses := misses[key := kept];
      if |kept| > config.limit {
        blockedUntil := blockedUntil[key := now + config.cooldown];
      }
    }

    method Sweep(now: int)
      modifies this
      ensures View() == GuardSweep(config, old(View()), now)
    {
      if now - lastSweep < config.window { return; }
      lastSweep := now;
      misses := SweepSlices(misses, now - config.window);
      var todo := blockedUntil.Keys;
      ghost var before := blockedUntil;
      while todo != {}
        invariant todo <= blockedUntil.Keys
        invariant forall key :: key in blockedUntil ==> key in before && blockedUntil[key] == before[key]
        invariant forall key :: key in before && key !in todo ==>
          (key in blockedUntil <==> now <= before[key])
        invariant misses == Swept(old(misses), now - config.window) && lastSweep == now
        decreases |todo|
      {
        var key :| key in todo;
        if now > blockedUntil[key] {
          blockedUntil := blockedUntil - {key};
        }
        todo := todo - {key};
      }
    }
  }

  // ----------------------------------------------------------------- lookups

  /** One lookup of the resolver: it asks first and, only when not blocked,
      records a miss at a possibly later clock reading. */
  datatype Lookup = Lookup(key: string, askedAt: int, missAt: Option<int>)

  function Drive(c: GuardConfig, g: Guard, l: Lookup): (Guard, bool) {
    var (g, blocked) := BlockedStep(g, l.key, l.askedAt);
    if blocked || l.missAt.None? then (g, blocked)
    else (RecordMissStep(c, g, l.key, l.missAt.value), false)
  }

  /** The critical sections of lookups, which interleave freely: asking, recording
      a miss, and ending without one (a link was found, or a store failed). */
  datatype Step = Ask(key: string, at: int) | Miss(key: string, at: int) | Done(key: string, at: int)

  function StepOf(c: GuardConfig, g: Guard, s: Step): Guard {
    match s
    case Ask(key, at) => BlockedStep(g, key, at).0
    case Miss(key, at) => RecordMissStep(c, g, key, at)
    case Done(_, _) => g
  }

  function Run(c: GuardConfig, g: Guard, steps: seq<Step>): Guard {
    if steps == [] then g
    else StepOf(c, Run(c, g, steps[..|steps| - 1]), steps[|steps| - 1])
  }

  /** A lookup that nothing interrupts is its critical sections in a row. */
  lemma DriveIsSteps(c: GuardConfig, g: Guard, l: Lookup)
    ensures
      var (g', blocked) := Drive(c, g, l);
      var end := if l.missAt.Some? then Miss(l.key, l.missAt.value) else Done(l.key, l.askedAt);
      blocked == BlockedStep(g, l.key, l.askedAt).1 &&
      g' == Run(c, g, if blocked then [Ask(l.key, l.askedAt)] else [Ask(l.key, l.askedAt), end])
  {
    var asked := [Ask(l.key, l.askedAt)];
    var end := if l.missAt.Some? then Miss(l.key, l.missAt.value) else Done(l.key, l.askedAt);
    assert asked[..0] == [] && [Ask(l.key, l.askedAt), end][..1] == asked;
    assert Run(c, g, []) == g && Run(c, g, asked) == BlockedStep(g, l.key, l.askedAt).0;
  }

  /** The guard before anything happened; lastSweep is a time in the past. */
  function Empty(sweptAt: int): Guard {
    Guard(map[], map[], sweptAt)
  }

  /** The clock never runs backwards. */
  ghost predicate InOrder(steps: seq<Step>, t: int) {
    steps == [] || (InOrder(steps[..|steps| - 1], t) && EndOf(steps[..|steps| - 1], t) <= steps[|steps| - 1].at)
  }

  function EndOf(steps: seq<Step>, t: int): int {
    if steps == [] then t else steps[|steps| - 1].at
  }

  // ------------------------------------------------------------ full history

  /** All misses of a key, oldest first. */
  function MissTimes(steps: seq<Step>, key: string): seq<int> {
    if steps == [] then []
    else
      var last := steps[|steps| - 1];
      MissTimes(steps[..|steps| - 1], key) + (if last.Miss? && last.key == key then [last.at] else [])
  }

  /** The i-th miss was above the limit within its own window. */
  ghost predicate OverLimit(c: GuardConfig, times: seq<int>, i: int)
    requires 0 <= i < |times|
  {
    CountIn(times[..i + 1], times[i] - c.window, times[i]) > c.limit
  }

  /** What a throttle with this history, which never forgets, would answer: some
      miss no older than the cooldown was above the limit. */
  ghost predicate BlockedByTimes(c: GuardConfig, times: seq<int>, now: int) {
    exists i :: 0 <= i < |times| && now <= times[i] + c.cooldown && OverLimit(c, times, i)
  }

  /** Asking ends a block. */
  predicate Lifts(g: Guard, key: string, now: int) {
    key != "" && key in g.blockedUntil && now > g.blockedUntil[key]
  }

  /** Asking ends a block and drops misses that are still inside the window. */
  predicate Forgets(c: GuardConfig, g: Guard, key: string, now: int) {
    Lifts(g, key, now) && Prune(At(g.misses, key), now - c.window) != []
  }

  /** A key's history after a step: lifting a block starts it anew. */
  function SinceStep(g: Guard, times: seq<int>, s: Step, key: string): seq<int> {
    if s.key != key || s.Done? then times
    else if s.Miss? then times + [s.at]
    else if Lifts(g, key, s.at) then []
    else times
  }

  /** The misses of a key since its last block was lifted. */
  function Since(c: GuardConfig, g: Guard, steps: seq<Step>, key: string): seq<int> {
    if steps == [] then []
    else
      var init := steps[..|steps| - 1];
      SinceStep(Run(c, g, init), Since(c, g, init, key), steps[|steps| - 1], key)
  }

  // --------------------------------------------------- a guard and a history

  /** The over-limit miss that a stored block belongs to: the last one. */
  ghost predicate IsBlocker(c: GuardConfig, times: seq<int>, i: int) {
    0 <= i < |times| && OverLimit(c, times, i) && forall j :: i < j < |times| ==> !OverLimit(c, times, j)
  }

  /** Without a stored block every over-limit miss has cooled down. */
  ghost predicate BlockFits(c: GuardConfig, blockedUntil: map<string, int>, key: string, times: seq<int>, t: int) {
    if key in blockedUntil then
      exists i :: IsBlocker(c, times, i) && blockedUntil[key] == times[i] + c.cooldown
    else
      forall i :: 0 <= i < |times| && OverLimit(c, times, i) ==> t > times[i] + c.cooldown
  }

  ghost predicate Past(times: seq<int>, t: int) {
    Sorted(times) && forall i :: 0 <= i < |times| ==> times[i] <= t
  }

  /** The guard knows of the key all that matters of the history at time t. */
  ghost predicate Loyal(c: GuardConfig, g: Guard, key: string, times: seq<int>, t: int) {
    Past(times, t) && Memory(At(g.misses, key), times, c.window, t) && BlockFits(c, g.blockedUntil, key, times, t)
  }

  lemma EmptyLoyal(c: GuardConfig, sweptAt: int, key: string, t: int)
    ensures Loyal(c, Empty(sweptAt), key, [], t)
  {
    assert forall cutoff :: Agree([], [], cutoff);
  }

  lemma BlockerBefore(c: GuardConfig, times: seq<int>, i: int, j: int, t: int)
    requires Past(times, t) && IsBlocker(c, times, i) && 0 <= j < |times| && OverLimit(c, times, j)
    ensures times[j] <= times[i]
  {
    assert j <= i;
  }

  /** A loyal guard answers as the history does. */
  lemma LoyalAnswers(c: GuardConfig, g: Guard, key: string, times: seq<int>, t: int, now: int)
    requires Loyal(c, g, key, times, t) && t <= now && key != ""
    ensures BlockedStep(g, key, now).1 == BlockedByTimes(c, times, now)
  {
    if key in g.blockedUntil {
      var i :| IsBlocker(c, times, i) && g.blockedUntil[key] == times[i] + c.cooldown;
      forall j | 0 <= j < |times| && OverLimit(c, times, j) ensures times[j] <= times[i] {
        BlockerBefore(c, times, i, j, t);
      }
    }
  }

  lemma LoyalLater(c: GuardConfig, g: Guard, key: string, times: seq<int>, t: int, now: int)
    requires Loyal(c, g, key, times, t) && t <= now
    ensures Loyal(c, g, key, times, now)
  {
    PrunedMemory(At(g.misses, key), times, c.window, t, now);
  }

  lemma LoyalSwept(c: GuardConfig, g: Guard, key: string, times: seq<int>, t: int, now: int)
    requires Loyal(c, g, key, times, t) && t <= now
    ensures Loyal(c, GuardSweep(c, g, now), key, times, now)
  {
    LoyalLater(c, g, key, times, t, now);
    if now - g.lastSweep >= c.window {
      SweptAt(g.misses, now - c.window, key);
      PrunedMemory(At(g.misses, key), times, c.window, t, now);
      if key in g.blockedUntil && now > g.blockedUntil[key] { CooledDown(c, g, key, times, now); }
    }
  }

  /** Once a stored block is over, so is every over-limit miss. */
  lemma CooledDown(c: GuardConfig, g: Guard, key: string, times: seq<int>, now: int)
    requires Past(times, now) && key in g.blockedUntil && now > g.blockedUntil[key]
    requires BlockFits(c, g.blockedUntil, key, times, now)
    ensures forall i :: 0 <= i < |times| && OverLimit(c, times, i) ==> now > times[i] + c.cooldown
  {
    var i :| IsBlocker(c, times, i) && g.blockedUntil[key] == times[i] + c.cooldown;
    forall j | 0 <= j < |times| && OverLimit(c, times, j) ensures times[j] <= times[i] {
      BlockerBefore(c, times, i, j, now);
    }
  }

  /** Appending a miss: earlier misses are over the limit as before, and the new
      one is iff the window it ends already holds limit others. */
  lemma OverAppend(c: GuardConfig, times: seq<int>, now: int)
    requires c.window > 0
    ensures forall i :: 0 <= i < |times| ==> (OverLimit(c, times + [now], i) <==> OverLimit(c, times, i))
    ensures OverLimit(c, times + [now], |times|) <==> CountIn(times, now - c.window, now) + 1 > c.limit
  {
    forall i | 0 <= i < |times| ensures OverLimit(c, times + [now], i) <==> OverLimit(c, times, i) {
      assert (times + [now])[..i + 1] == times[..i + 1];
    }
    OverLast(c, times, now);
  }

  lemma OverLast(c: GuardConfig, times: seq<int>, now: int)
    requires c.window > 0
    ensures OverLimit(c, times + [now], |times|) <==> CountIn(times, now - c.window, now) + 1 > c.limit
  {
    var times' := times + [now];
    assert times'[..|times|] == times && times'[..|times| + 1] == times';
  }

  /** The stored blocks of a key after a miss of it. */
  function AfterMiss(c: GuardConfig, before: map<string, int>, key: string, times: seq<int>,
                     now: int): map<string, int> {
    if CountIn(times, now - c.window, now) + 1 > c.limit then before[key := now + c.cooldown] else before
  }

  lemma BlockFitsMiss(c: GuardConfig, before: map<string, int>, key: string, times: seq<int>, now: int)
    requires c.window > 0 && BlockFits(c, before, key, times, now)
    ensures BlockFits(c, AfterMiss(c, before, key, times, now), key, times + [now], now)
  {
    OverAppend(c, times, now);
    var times' := times + [now];
    if OverLimit(c, times', |times|) {
      assert IsBlocker(c, times', |times|);
    } else if key in before {
      var i :| IsBlocker(c, times, i) && before[key] == times[i] + c.cooldown;
      assert IsBlocker(c, times', i);
    }
  }

  lemma MemoryMiss(c: GuardConfig, slice: seq<int>, times: seq<int>, now: int)
    requires Memory(slice, times, c.window, now) && Past(times, now)
    ensures Memory(Prune(slice, now - c.window) + [now], times + [now], c.window, now)
    ensures |Prune(slice, now - c.window)| == CountIn(times, now - c.window, now)
  {
    PrunedMemory(slice, times, c.window, now, now);
    MemoryCounts(slice, times, c.window, now);
    AppendedMemory(Prune(slice, now - c.window), times, c.window, now);
  }

  lemma LoyalMiss(c: GuardConfig, g: Guard, key: string, times: seq<int>, t: int, now: int)
    requires Loyal(c, g, key, times, t) && t <= now && key != "" && c.window > 0
    ensures Loyal(c, RecordMissStep(c, g, key, now), key, times + [now], now)
    ensures RecordMissStep(c, g, key, now).blockedUntil ==
            AfterMiss(c, GuardSweep(c, g, now).blockedUntil, key, times, now)
  {
    var g1 := GuardSweep(c, g, now);
    LoyalSwept(c, g, key, times, t, now);
    MemoryMiss(c, At(g1.misses, key), times, now);
    BlockFitsMiss(c, g1.blockedUntil, key, times, now);
  }

  lemma LoyalOther(c: GuardConfig, g: Guard, key: string, times: seq<int>, t: int, s: Step)
    requires Loyal(c, g, key, times, t) && t <= s.at && s.key != key
    ensures Loyal(c, StepOf(c, g, s), key, times, s.at)
    ensures key in StepOf(c, g, s).blockedUntil ==>
      key in g.blockedUntil && StepOf(c, g, s).blockedUntil[key] == g.blockedUntil[key]
  {
    LoyalLater(c, g, key, times, t, s.at);
    LoyalSwept(c, g, key, times, t, s.at);
  }

  lemma {:induction false} PruneNone(times: seq<int>, cutoff: int)
    requires Prune(times, cutoff) == []
    ensures forall i :: 0 <= i < |times| ==> times[i] <= cutoff
  {
    if times != [] { PruneNone(times[1..], cutoff); }
  }

  /** Lifting a block leaves nothing, which is all of the history when no dropped
      miss is still inside the window. */
  lemma LoyalLift(c: GuardConfig, g: Guard, key: string, times: seq<int>, t: int, now: int)
    requires Loyal(c, g, key, times, t) && t <= now && Lifts(g, key, now)
    ensures Loyal(c, BlockedStep(g, key, now).0, key, [], now)
    ensures !Forgets(c, g, key, now) ==> Loyal(c, BlockedStep(g, key, now).0, key, times, now)
  {
    EmptyLoyal(c, 0, key, now);
    LoyalLater(c, g, key, times, t, now);
    CooledDown(c, g, key, times, now);
    if !Forgets(c, g, key, now) {
      assert Agree(At(g.misses, key), times, now - c.window);
      PruneNone(times, now - c.window);
      forall cutoff | cutoff >= now - c.window ensures Agree([], times, cutoff) {
        PruneAll(times, cutoff);
      }
    }
  }

  lemma LoyalAsk(c: GuardConfig, g: Guard, key: string, times: seq<int>, t: int, now: int)
    requires Loyal(c, g, key, times, t) && t <= now && !Lifts(g, key, now)
    ensures BlockedStep(g, key, now).0 == g && Loyal(c, g, key, times, now)
  {
    LoyalLater(c, g, key, times, t, now);
  }

  lemma LoyalStep(c: GuardConfig, g: Guard, key: string, times: seq<int>, t: int, s: Step)
    requires Loyal(c, g, key, times, t) && t <= s.at && key != "" && c.window > 0
    ensures Loyal(c, StepOf(c, g, s), key, SinceStep(g, times, s, key), s.at)
    ensures !(s.Ask? && s.key == key && Forgets(c, g, key, s.at)) ==>
      Loyal(c, StepOf(c, g, s), key, if s.Miss? && s.key == key then times + [s.at] else times, s.at)
  {
    if s.key != key {
      LoyalOther(c, g, key, times, t, s);
    } else {
      match s
      case Ask(_, at) =>
        if Lifts(g, key, at) { LoyalLift(c, g, key, times, t, at); } else { LoyalAsk(c, g, key, times, t, at); }
      case Miss(_, at) => LoyalMiss(c, g, key, times, t, at);
      case Done(_, at) => LoyalLater(c, g, key, times, t, at);
    }
  }

  // -------------------------------------------------------------- all schedules

  lemma {:induction false} SinceLoyal(c: GuardConfig, sweptAt: int, steps: seq<Step>, key: string, t: int)
    requires InOrder(steps, t) && key != "" && c.window > 0
    ensures Loyal(c, Run(c, Empty(sweptAt), steps), key, Since(c, Empty(sweptAt), steps, key), EndOf(steps, t))
  {
    EmptyLoyal(c, sweptAt, key, t);
    if steps != [] {
      var init := steps[..|steps| - 1];
      SinceLoyal(c, sweptAt, init, key, t);
      LoyalStep(c, Run(c, Empty(sweptAt), init), key, Since(c, Empty(sweptAt), init, key), EndOf(init, t),
                steps[|steps| - 1]);
    }
  }

  /** Refinement, for every schedule of every number of clients and lookups: the
      throttle answers as the complete history since the client's last lifted
      block would, whatever was swept and pruned. */
  lemma AnswersSinceLift(c: GuardConfig, sweptAt: int, steps: seq<Step>, t: int, key: string, now: int)
    requires InOrder(steps, t) && EndOf(steps, t) <= now && c.window > 0
    ensures BlockedStep(Run(c, Empty(sweptAt), steps), key, now).1 <==>
      key != "" && BlockedByTimes(c, Since(c, Empty(sweptAt), steps, key), now)
  {
    if key != "" {
      SinceLoyal(c, sweptAt, steps, key, t);
      LoyalAnswers(c, Run(c, Empty(sweptAt), steps), key, Since(c, Empty(sweptAt), steps, key), EndOf(steps, t), now);
    }
  }

  /** No question of the key in the run forgets. */
  ghost predicate Clean(c: GuardConfig, g: Guard, steps: seq<Step>, key: string) {
    steps == [] ||
    (var init, last := steps[..|steps| - 1], steps[|steps| - 1];
     Clean(c, g, init, key) && !(last.Ask? && last.key == key && Forgets(c, Run(c, g, init), key, last.at)))
  }

  /** Every question of the key in the run is answered as the full history would,
      which is `times` and then the misses of the run. */
  ghost predicate Exact(c: GuardConfig, g: Guard, times: seq<int>, steps: seq<Step>, key: string) {
    steps == [] ||
    (var init, last := steps[..|steps| - 1], steps[|steps| - 1];
     Exact(c, g, times, init, key) &&
     (last.Ask? && last.key == key ==>
       (BlockedStep(Run(c, g, init), key, last.at).1 <==> BlockedByTimes(c, times + MissTimes(init, key), last.at))))
  }

  lemma {:induction false} CleanLoyal(c: GuardConfig, g: Guard, times: seq<int>, t: int, steps: seq<Step>, key: string)
    requires Loyal(c, g, key, times, t) && key != "" && c.window > 0
    requires InOrder(steps, t) && Clean(c, g, steps, key)
    ensures Loyal(c, Run(c, g, steps), key, times + MissTimes(steps, key), EndOf(steps, t))
  {
    if steps == [] {
      assert times + [] == times;
    } else {
      var init, s := steps[..|steps| - 1], steps[|steps| - 1];
      CleanLoyal(c, g, times, t, init, key);
      LoyalStep(c, Run(c, g, init), key, times + MissTimes(init, key), EndOf(init, t), s);
      assert times + MissTimes(steps, key) ==
             if s.Miss? && s.key == key then times + MissTimes(init, key) + [s.at] else times + MissTimes(init, key);
    }
  }

  lemma {:induction false} CleanExact(c: GuardConfig, g: Guard, times: seq<int>, t: int, steps: seq<Step>, key: string)
    requires Loyal(c, g, key, times, t) && key != "" && c.window > 0
    requires InOrder(steps, t) && Clean(c, g, steps, key)
    ensures Exact(c, g, times, steps, key)
  {
    if steps != [] {
      var init, s := steps[..|steps| - 1], steps[|steps| - 1];
      CleanExact(c, g, times, t, init, key);
      CleanLoyal(c, g, times, t, init, key);
      if s.Ask? && s.key == key {
        LoyalAnswers(c, Run(c, g, init), key, times + MissTimes(init, key), EndOf(init, t), s.at);
      }
    }
  }

  /** Exactness over all schedules: as long as no lifted block drops a miss that is
      still inside the window, every answer is that of the complete history. */
  lemma ThrottleExact(c: GuardConfig, sweptAt: int, steps: seq<Step>, t: int, key: string)
    requires InOrder(steps, t) && key != "" && c.window > 0 && Clean(c, Empty(sweptAt), steps, key)
    ensures Exact(c, Empty(sweptAt), [], steps, key)
    ensures Loyal(c, Run(c, Empty(sweptAt), steps), key, MissTimes(steps, key), EndOf(steps, t))
  {
    EmptyLoyal(c, sweptAt, key, t);
    CleanExact(c, Empty(sweptAt), [], t, steps, key);
    CleanLoyal(c, Empty(sweptAt), [], t, steps, key);
    assert [] + MissTimes(steps, key) == MissTimes(steps, key);
  }

  // --------------------------------------------------- what forgetting costs

  /** The run with d further misses, each followed by a question. */
  function Barrage(pre: seq<Step>, key: string, now: int, d: nat): seq<Step>
    decreases d, 1
  {
    if d == 0 then pre else Misses(pre, key, now, d) + [Ask(key, now)]
  }

  /** A barrage up to its last question. */
  function Misses(pre: seq<Step>, key: string, now: int, d: nat): seq<Step>
    requires d > 0
    decreases d, 0
  {
    Barrage(pre, key, now, d - 1) + [Miss(key, now)]
  }

  function Extend(times: seq<int>, now: int, d: nat): seq<int> {
    if d == 0 then times else Extend(times, now, d - 1) + [now]
  }

  lemma RunSnoc(c: GuardConfig, g: Guard, steps: seq<Step>, s: Step)
    ensures Run(c, g, steps + [s]) == StepOf(c, Run(c, g, steps), s)
  {
    assert (steps + [s])[..|steps|] == steps;
  }

  lemma MissSnoc(steps: seq<Step>, s: Step, key: string)
    ensures MissTimes(steps + [s], key) == MissTimes(steps, key) + (if s.Miss? && s.key == key then [s.at] else [])
  {
    assert (steps + [s])[..|steps|] == steps;
  }

  lemma CleanSnoc(c: GuardConfig, g: Guard, steps: seq<Step>, s: Step, key: string)
    ensures Clean(c, g, steps + [s], key) <==>
      Clean(c, g, steps, key) && !(s.Ask? && s.key == key && Forgets(c, Run(c, g, steps), key, s.at))
  {
    assert (steps + [s])[..|steps|] == steps;
  }

  lemma OrderSnoc(steps: seq<Step>, s: Step, t: int)
    ensures InOrder(steps + [s], t) <==> InOrder(steps, t) && EndOf(steps, t) <= s.at
    ensures EndOf(steps + [s], t) == s.at
  {
    assert (steps + [s])[..|steps|] == steps;
  }

  /** The guard is loyal to the history and lets the key in with room to spare. */
  ghost predicate Roomy(c: GuardConfig, g: Guard, key: string, times: seq<int>, now: int, room: int) {
    Loyal(c, g, key, times, now) && key !in g.blockedUntil && CountIn(times, now - c.window, now) + room <= c.limit
  }

  lemma RoomyMiss(c: GuardConfig, g: Guard, key: string, times: seq<int>, now: int, room: int)
    requires Roomy(c, g, key, times, now, room) && room >= 1 && key != "" && c.window > 0
    ensures Roomy(c, RecordMissStep(c, g, key, now), key, times + [now], now, room - 1)
  {
    LoyalMiss(c, g, key, times, now, now);
    assert (times + [now])[..|times|] == times;
  }

  lemma RoomyRound(c: GuardConfig, g: Guard, pre: seq<Step>, key: string, times: seq<int>, now: int, room: int)
    requires Roomy(c, Run(c, g, pre), key, times, now, room) && room >= 1 && key != "" && c.window > 0
    ensures
      var missed := pre + [Miss(key, now)];
      Roomy(c, Run(c, g, missed), key, times + [now], now, room - 1) &&
      Run(c, g, missed + [Ask(key, now)]) == Run(c, g, missed)
  {
    RoomyMiss(c, Run(c, g, pre), key, times, now, room);
    RunSnoc(c, g, pre, Miss(key, now));
    RunSnoc(c, g, pre + [Miss(key, now)], Ask(key, now));
  }

  /** A barrage within the room is let in to the end. */
  lemma {:induction false} BarrageLetIn(c: GuardConfig, g: Guard, pre: seq<Step>, key: string, times: seq<int>,
                                        now: int, d: nat, room: int)
    requires Roomy(c, Run(c, g, pre), key, times, now, room) && d <= room && key != "" && c.window > 0
    ensures Roomy(c, Run(c, g, Barrage(pre, key, now, d)), key, Extend(times, now, d), now, room - d)
    ensures d > 0 ==> Run(c, g, Misses(pre, key, now, d)) == Run(c, g, Barrage(pre, key, now, d))
  {
    if d > 0 {
      BarrageLetIn(c, g, pre, key, times, now, d - 1, room);
      RoomyRound(c, g, Barrage(pre, key, now, d - 1), key, Extend(times, now, d - 1), now, room - (d - 1));
    }
  }

  lemma {:induction false} BarrageMisses(pre: seq<Step>, key: string, now: int, d: nat)
    ensures MissTimes(Barrage(pre, key, now, d), key) == Extend(MissTimes(pre, key), now, d)
    ensures d > 0 ==> MissTimes(Misses(pre, key, now, d), key) == Extend(MissTimes(pre, key), now, d)
  {
    if d > 0 {
      BarrageMisses(pre, key, now, d - 1);
      MissSnoc(Barrage(pre, key, now, d - 1), Miss(key, now), key);
      MissSnoc(Misses(pre, key, now, d), Ask(key, now), key);
    }
  }

  lemma {:induction false} BarrageInOrder(pre: seq<Step>, key: string, now: int, d: nat, t: int)
    requires InOrder(pre, t) && EndOf(pre, t) <= now
    ensures InOrder(Barrage(pre, key, now, d), t) && EndOf(Barrage(pre, key, now, d), t) <= now
  {
    if d > 0 {
      BarrageInOrder(pre, key, now, d - 1, t);
      OrderSnoc(Barrage(pre, key, now, d - 1), Miss(key, now), t);
      OrderSnoc(Misses(pre, key, now, d), Ask(key, now), t);
    }
  }

  lemma {:induction false} BarrageClean(c: GuardConfig, g: Guard, pre: seq<Step>, key: string, times: seq<int>,
                                        now: int, d: nat, room: int)
    requires Roomy(c, Run(c, g, pre), key, times, now, room) && d <= room && key != "" && c.window > 0
    requires Clean(c, g, pre, key)
    ensures Clean(c, g, Barrage(pre, key, now, d), key)
  {
    if d > 0 {
      BarrageClean(c, g, pre, key, times, now, d - 1, room);
      BarrageLetIn(c, g, pre, key, times, now, d, room);
      CleanSnoc(c, g, Barrage(pre, key, now, d - 1), Miss(key, now), key);
      CleanSnoc(c, g, Misses(pre, key, now, d), Ask(key, now), key);
    }
  }

  // -------------------------------------------------------- exactly when exact

  lemma {:induction false} ExtendCounts(times: seq<int>, now: int, d: nat, lo: int)
    requires lo < now
    ensures CountIn(Extend(times, now, d), lo, now) == CountIn(times, lo, now) + d
    ensures |Extend(times, now, d)| == |times| + d && (d > 0 ==> Extend(times, now, d)[|times| + d - 1] == now)
  {
    if d > 0 {
      ExtendCounts(times, now, d - 1, lo);
      assert Extend(times, now, d)[..|times| + d - 1] == Extend(times, now, d - 1);
    }
  }

  lemma {:induction false} ExtendConcat(a: seq<int>, b: seq<int>, now: int, d: nat)
    ensures a + Extend(b, now, d) == Extend(a + b, now, d)
  {
    if d > 0 {
      ExtendConcat(a, b, now, d - 1);
      assert a + Extend(b, now, d) == a + Extend(b, now, d - 1) + [now];
    }
  }

  /** With more than limit misses in the window the history blocks. */
  lemma FullWindowBlocks(c: GuardConfig, times: seq<int>, now: int, d: nat)
    requires c.window > 0 && c.cooldown >= 0 && d >= 1 && CountIn(times, now - c.window, now) + d > c.limit
    ensures BlockedByTimes(c, Extend(times, now, d), now)
  {
    ExtendCounts(times, now, d, now - c.window);
    var all := Extend(times, now, d);
    assert all[..|all|] == all;
    assert OverLimit(c, all, |all| - 1);
  }

  lemma ExactSnoc(c: GuardConfig, g: Guard, times: seq<int>, steps: seq<Step>, s: Step, key: string)
    ensures Exact(c, g, times, steps + [s], key) <==>
      Exact(c, g, times, steps, key) &&
      (s.Ask? && s.key == key ==>
        (BlockedStep(Run(c, g, steps), key, s.at).1 <==> BlockedByTimes(c, times + MissTimes(steps, key), s.at)))
  {
    assert (steps + [s])[..|steps|] == steps;
  }

  /** After a question that forgets, a barrage of as many misses as the window has
      room for is let in to the end, while the history blocks. */
  lemma ForgottenLetIn(c: GuardConfig, g: Guard, pre: seq<Step>, key: string, times: seq<int>, now: int, d: nat)
    requires Roomy(c, Run(c, g, pre), key, [], now, c.limit)
    requires key != "" && c.window > 0 && c.cooldown >= 0 && 1 <= d <= c.limit
    requires CountIn(times + MissTimes(pre, key), now - c.window, now) + d > c.limit
    ensures !Exact(c, g, times, Barrage(pre, key, now, d), key)
  {
    BarrageMisses(pre, key, now, d);
    ExtendConcat(times, MissTimes(pre, key), now, d);
    FullWindowBlocks(c, times + MissTimes(pre, key), now, d);
    BarrageLetIn(c, g, pre, key, [], now, d, c.limit);
    ExactSnoc(c, g, times, Misses(pre, key, now, d), Ask(key, now), key);
  }

  /** Whatever comes after time now without forgetting is answered exactly. */
  ghost predicate ExactAfter(c: GuardConfig, g: Guard, times: seq<int>, key: string, now: int) {
    forall steps :: InOrder(steps, now) && Clean(c, g, steps, key) ==> Exact(c, g, times, steps, key)
  }

  /** The exact condition, question by question: after a question the throttle goes
      on to answer as the complete history would if and only if the question did
      not lift a block with a miss still inside the window. */
  lemma ExactIffRemembered(c: GuardConfig, g: Guard, key: string, times: seq<int>, t: int, now: int)
    requires Loyal(c, g, key, times, t) && t <= now && key != ""
    requires 1 <= c.limit && 0 < c.window && 0 <= c.cooldown
    ensures ExactAfter(c, BlockedStep(g, key, now).0, times, key, now) <==> !Forgets(c, g, key, now)
  {
    var g' := BlockedStep(g, key, now).0;
    if !Forgets(c, g, key, now) {
      LoyalStep(c, g, key, times, t, Ask(key, now));
      forall steps | InOrder(steps, now) && Clean(c, g', steps, key) ensures Exact(c, g', times, steps, key) {
        CleanExact(c, g', times, now, steps, key);
      }
    } else {
      LoyalLift(c, g, key, times, t, now);
      LoyalLater(c, g, key, times, t, now);
      MemoryCounts(At(g.misses, key), times, c.window, now);
      var j := CountIn(times, now - c.window, now);
      var d := if j > c.limit then 1 else c.limit + 1 - j;
      var steps := Barrage([], key, now, d);
      assert Run(c, g', []) == g' && times + MissTimes([], key) == times;
      ForgottenLetIn(c, g', [], key, times, now, d);
      BarrageClean(c, g', [], key, [], now, d, c.limit);
      BarrageInOrder([], key, now, d, now);
    }
  }
}
