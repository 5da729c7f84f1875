/** Which requests the throttle counts, over runs: the resolver's requests against the
    misses that the throttle's own results are about. */
module Lookups {
  import opened Common
  import opened Tables
  import opened Services
  import opened RateLimit
  import opened Throttle
  import opened Flights
  import opened Schedules
  import opened Resolver
  import Clicks

  // --------------------------------------------------------------- one request

  /** What a request does to the throttle: a blocked one nothing but the question, a
      let-in one that reaches a link nothing more, and a let-in one that reaches none
      exactly one miss. */
  ghost predicate Counts(c: Config, gc: GuardConfig, g: Guard, db: Db, req: Request, g': Guard, blocked: bool) {
    var (asked, stopped) := BlockedStep(g, req.visitor.ip, req.askedAt);
    blocked == stopped &&
    g' == if stopped || Reached(c, db, req).Ok? then asked else RecordMissStep(gc, asked, req.visitor.ip, req.missAt)
  }

  /** Every request that reaches no link is answered 404, whatever the reason. */
  lemma UnreachedIsNotFound(c: Config, db: Db, req: Request)
    ensures Reached(c, db, req).Err? ==> Reached(c, db, req).error == NotFound
  {
  }

  lemma VisitCounts(c: Config, gc: GuardConfig, w: World, req: Request)
    requires w.guard.Some?
    ensures
      var (w', r) := Resolve(c, gc, w, req);
      w'.guard.Some? &&
      Counts(c, gc, w.guard.value, w.db, req, w'.guard.value, r == Err(TooManyRequests)) &&
      (r == Err(TooManyRequests) ==> w'.db == w.db) &&
      (r != Err(TooManyRequests) && Reached(c, w.db, req).Err? ==> r == Err(NotFound) && w'.db == w.db)
  {
    UnreachedIsNotFound(c, w.db, req);
  }

  lemma PeekCounts(c: Config, gc: GuardConfig, w: World, req: Request)
    requires w.guard.Some?
    ensures
      var (w', r) := PreviewLink(c, gc, w, req);
      w'.guard.Some? && w'.db == w.db &&
      Counts(c, gc, w.guard.value, w.db, req, w'.guard.value, r == Err(TooManyRequests)) &&
      (r != Err(TooManyRequests) ==> (r.Ok? <==> Reached(c, w.db, req).Ok?) && (r.Err? ==> r == Err(NotFound)))
  {
    UnreachedIsNotFound(c, w.db, req);
  }

  /** Without a throttle nobody is ever told to slow down. */
  lemma UnthrottledCounts(c: Config, gc: GuardConfig, w: World, req: Request)
    requires w.guard.None?
    ensures Resolve(c, gc, w, req).0.guard.None? && Resolve(c, gc, w, req).1 != Err(TooManyRequests)
    ensures PreviewLink(c, gc, w, req).0.guard.None? && PreviewLink(c, gc, w, req).1 != Err(TooManyRequests)
  {
    UnreachedIsNotFound(c, w.db, req);
  }

  // --------------------------------------------------------------------- runs

  predicate IsLookup(s: Clicks.Step) {
    s.Visit? || s.Peek?
  }

  ghost function Refused(c: Config, gc: GuardConfig, w: World, s: Clicks.Step): bool
    requires IsLookup(s)
  {
    if s.Visit? then Resolve(c, gc, w, s.req).1 == Err(TooManyRequests)
    else PreviewLink(c, gc, w, s.req).1 == Err(TooManyRequests)
  }

  /** The misses of a client in a run: the clock readings of its requests, visits and
      previews, that were let in and reached no link. */
  ghost function MissesOf(c: Config, gc: GuardConfig, w: World, steps: seq<Clicks.Step>, ip: string): seq<int>
    decreases |steps|
  {
    if steps == [] then []
    else
      var s := steps[0];
      (if IsLookup(s) && s.req.visitor.ip == ip && !Refused(c, gc, w, s) && Reached(c, w.db, s.req).Err?
       then [s.req.missAt] else []) +
      MissesOf(c, gc, Clicks.After(c, gc, w, s), steps[1..], ip)
  }

  /** The throttle's steps behind one step of the run. */
  ghost function TraceOf(c: Config, gc: GuardConfig, w: World, s: Clicks.Step): seq<Throttle.Step> {
    if !IsLookup(s) then []
    else
      var ip := s.req.visitor.ip;
      [Ask(ip, s.req.askedAt)] +
      (if Refused(c, gc, w, s) then []
       else if Reached(c, w.db, s.req).Ok? then [Done(ip, s.req.askedAt)]
       else [Miss(ip, s.req.missAt)])
  }

  ghost function Trace(c: Config, gc: GuardConfig, w: World, steps: seq<Clicks.Step>): seq<Throttle.Step>
    decreases |steps|
  {
    if steps == [] then [] else TraceOf(c, gc, w, steps[0]) + Trace(c, gc, Clicks.After(c, gc, w, steps[0]), steps[1..])
  }

  /** The clock never runs backwards, within a request or from one to the next,
      between t and end. */
  ghost predicate Timely(steps: seq<Clicks.Step>, t: int, end: int)
    decreases |steps|
  {
    if steps == [] then t <= end
    else if !IsLookup(steps[0]) then Timely(steps[1..], t, end)
    else t <= steps[0].req.askedAt <= steps[0].req.missAt && Timely(steps[1..], steps[0].req.missAt, end)
  }

  /** The throttle's history so far: its steps, and the guard they have led to. */
  ghost predicate Traced(gc: GuardConfig, sweptAt: int, ts: seq<Throttle.Step>, t: int, ip: string, w: World) {
    w.guard == Some(Run(gc, Empty(sweptAt), ts)) && InOrder(ts, t) &&
    AtMost(gc, Empty(sweptAt), ts, ip, 1) && Flight(gc, Empty(sweptAt), ts, ip) == 0
  }

  lemma StepsSnoc(gc: GuardConfig, g: Guard, ts: seq<Throttle.Step>, s: Throttle.Step, ip: string)
    ensures Run(gc, g, ts + [s]) == StepOf(gc, Run(gc, g, ts), s)
    ensures Flight(gc, g, ts + [s], ip) == FlightStep(Run(gc, g, ts), Flight(gc, g, ts, ip), s, ip)
    ensures AtMost(gc, g, ts + [s], ip, 1) <==> AtMost(gc, g, ts, ip, 1) && 0 <= Flight(gc, g, ts + [s], ip) <= 1
  {
    assert (ts + [s])[..|ts|] == ts;
  }

  /** A request's throttle steps, one after the other. */
  lemma RequestTraced(c: Config, gc: GuardConfig, sweptAt: int, ts: seq<Throttle.Step>, t: int, ip: string,
                      db: Db, g: Guard, req: Request, g': Guard, blocked: bool)
    requires g == Run(gc, Empty(sweptAt), ts) && InOrder(ts, t) && EndOf(ts, t) <= req.askedAt <= req.missAt
    requires AtMost(gc, Empty(sweptAt), ts, ip, 1) && Flight(gc, Empty(sweptAt), ts, ip) == 0
    requires Counts(c, gc, g, db, req, g', blocked)
    ensures
      var key := req.visitor.ip;
      var more := [Ask(key, req.askedAt)] + (if blocked then [] else if Reached(c, db, req).Ok?
                                             then [Done(key, req.askedAt)] else [Miss(key, req.missAt)]);
      g' == Run(gc, Empty(sweptAt), ts + more) && InOrder(ts + more, t) && EndOf(ts + more, t) <= req.missAt &&
      AtMost(gc, Empty(sweptAt), ts + more, ip, 1) && Flight(gc, Empty(sweptAt), ts + more, ip) == 0
  {
    var key, none := req.visitor.ip, [];
    var ask := Ask(key, req.askedAt);
    StepsSnoc(gc, Empty(sweptAt), ts, ask, ip);
    OrderSnoc(ts, ask, t);
    if blocked {
      assert [ask] + none == [ask];
    } else {
      var end := if Reached(c, db, req).Ok? then Done(key, req.askedAt) else Miss(key, req.missAt);
      StepsSnoc(gc, Empty(sweptAt), ts + [ask], end, ip);
      OrderSnoc(ts + [ask], end, t);
      assert ts + ([ask] + [end]) == ts + [ask] + [end];
    }
  }

  lemma StepTraced(c: Config, gc: GuardConfig, sweptAt: int, ts: seq<Throttle.Step>, t: int, ip: string,
                   w: World, s: Clicks.Step)
    requires Traced(gc, sweptAt, ts, t, ip, w)
    requires IsLookup(s) ==> EndOf(ts, t) <= s.req.askedAt <= s.req.missAt
    ensures
      var ts' := ts + TraceOf(c, gc, w, s);
      Traced(gc, sweptAt, ts', t, ip, Clicks.After(c, gc, w, s)) &&
      (IsLookup(s) ==> EndOf(ts', t) <= s.req.missAt) && (!IsLookup(s) ==> ts' == ts)
  {
    if s.Visit? {
      VisitCounts(c, gc, w, s.req);
      RequestTraced(c, gc, sweptAt, ts, t, ip, w.db, w.guard.value, s.req,
                    Resolve(c, gc, w, s.req).0.guard.value, Refused(c, gc, w, s));
    } else if s.Peek? {
      PeekCounts(c, gc, w, s.req);
      RequestTraced(c, gc, sweptAt, ts, t, ip, w.db, w.guard.value, s.req,
                    PreviewLink(c, gc, w, s.req).0.guard.value, Refused(c, gc, w, s));
    } else {
      assert ts + [] == ts;
    }
  }

  /** One step further: the history, the world and the clock after it. */
  lemma NextTraced(c: Config, gc: GuardConfig, sweptAt: int, ts: seq<Throttle.Step>, t: int, ip: string,
                   w: World, steps: seq<Clicks.Step>, now: int, end: int)
    returns (ts': seq<Throttle.Step>, w': World, now': int)
    requires steps != [] && Traced(gc, sweptAt, ts, t, ip, w) && EndOf(ts, t) <= now && Timely(steps, now, end)
    ensures Traced(gc, sweptAt, ts', t, ip, w') && EndOf(ts', t) <= now' && Timely(steps[1..], now', end)
    ensures ts' + Trace(c, gc, w', steps[1..]) == ts + Trace(c, gc, w, steps)
    ensures Clicks.RunSteps(c, gc, w, steps) == Clicks.RunSteps(c, gc, w', steps[1..])
  {
    var s, more := steps[0], TraceOf(c, gc, w, steps[0]);
    ts', w', now' := ts + more, Clicks.After(c, gc, w, s), if IsLookup(s) then s.req.missAt else now;
    StepTraced(c, gc, sweptAt, ts, t, ip, w, s);
    Associates(ts, more, Trace(c, gc, w', steps[1..]));
  }

  lemma Associates<T>(a: seq<T>, b: seq<T>, c: seq<T>)
    ensures a + (b + c) == a + b + c
  {
  }

  lemma {:induction false} RunTraced(c: Config, gc: GuardConfig, sweptAt: int, ts: seq<Throttle.Step>, t: int,
                                     ip: string, w: World, steps: seq<Clicks.Step>, now: int, end: int)
    requires Traced(gc, sweptAt, ts, t, ip, w) && EndOf(ts, t) <= now && Timely(steps, now, end)
    ensures Traced(gc, sweptAt, ts + Trace(c, gc, w, steps), t, ip, Clicks.RunSteps(c, gc, w, steps))
    ensures EndOf(ts + Trace(c, gc, w, steps), t) <= end
    decreases |steps|
  {
    if steps == [] {
      assert ts + Trace(c, gc, w, steps) == ts;
    } else {
      var ts', w', now' := NextTraced(c, gc, sweptAt, ts, t, ip, w, steps, now, end);
      RunTraced(c, gc, sweptAt, ts', t, ip, w', steps[1..], now', end);
    }
  }

  lemma {:induction false} MissesConcat(a: seq<Throttle.Step>, b: seq<Throttle.Step>, ip: string)
    ensures MissTimes(a + b, ip) == MissTimes(a, ip) + MissTimes(b, ip)
  {
    if b == [] {
      assert a + b == a;
    } else {
      MissesConcat(a, b[..|b| - 1], ip);
      assert (a + b)[..|a + b| - 1] == a + b[..|b| - 1];
    }
  }

  lemma TraceMisses(c: Config, gc: GuardConfig, w: World, s: Clicks.Step, ip: string)
    ensures
      MissTimes(TraceOf(c, gc, w, s), ip) ==
      if IsLookup(s) && s.req.visitor.ip == ip && !Refused(c, gc, w, s) && Reached(c, w.db, s.req).Err?
      then [s.req.missAt] else []
  {
    if IsLookup(s) {
      var ask := [Ask(s.req.visitor.ip, s.req.askedAt)];
      assert ask[..0] == [];
      if !Refused(c, gc, w, s) {
        var end := if Reached(c, w.db, s.req).Ok? then Done(s.req.visitor.ip, s.req.askedAt)
                   else Miss(s.req.visitor.ip, s.req.missAt);
        MissSnoc(ask, end, ip);
      }
    }
  }

  /** The throttle has recorded exactly the misses of the run. */
  lemma {:induction false} RunMisses(c: Config, gc: GuardConfig, w: World, steps: seq<Clicks.Step>, ip: string)
    ensures MissTimes(Trace(c, gc, w, steps), ip) == MissesOf(c, gc, w, steps, ip)
    decreases |steps|
  {
    if steps != [] {
      var w' := Clicks.After(c, gc, w, steps[0]);
      TraceMisses(c, gc, w, steps[0], ip);
      RunMisses(c, gc, w', steps[1..], ip);
      MissesConcat(TraceOf(c, gc, w, steps[0]), Trace(c, gc, w', steps[1..]), ip);
    }
  }

  // ------------------------------------------------------------- who is refused

  /** A client that has left these misses, in a run of calls, visits and previews over
      an empty throttle, asks again at s and finds the world so. */
  ghost predicate Asks(c: Config, gc: GuardConfig, start: World, steps: seq<Clicks.Step>, t: int, s: Clicks.Step,
                       times: seq<int>, world: World) {
    (exists sweptAt: int :: start.guard == Some(Empty(sweptAt))) && IsLookup(s) && s.req.visitor.ip != "" &&
    Timely(steps, t, s.req.askedAt) && times == MissesOf(c, gc, start, steps, s.req.visitor.ip) &&
    world == Clicks.RunSteps(c, gc, start, steps)
  }

  /** Over every run from an empty throttle: a client's next request is refused if and
      only if one of its misses, none older than the cooldown, was above the limit
      within its own window, where its misses are its let-in requests that reached no
      link. */
  lemma RefusedIff(c: Config, gc: GuardConfig, start: World, steps: seq<Clicks.Step>, t: int, s: Clicks.Step,
                   times: seq<int>, world: World)
    requires Cooling(gc) && Asks(c, gc, start, steps, t, s, times, world)
    ensures Refused(c, gc, world, s) <==> BlockedByTimes(gc, times, s.req.askedAt)
  {
    TraceBlocks(c, gc, start, steps, t, s, times, world);
    if s.Visit? { VisitCounts(c, gc, world, s.req); } else { PeekCounts(c, gc, world, s.req); }
  }

  /** The guard that the run leaves blocks as its misses say. */
  lemma TraceBlocks(c: Config, gc: GuardConfig, start: World, steps: seq<Clicks.Step>, t: int, s: Clicks.Step,
                    times: seq<int>, world: World)
    requires Cooling(gc) && Asks(c, gc, start, steps, t, s, times, world)
    ensures world.guard.Some?
    ensures BlockedStep(world.guard.value, s.req.visitor.ip, s.req.askedAt).1 <==>
            BlockedByTimes(gc, times, s.req.askedAt)
  {
    var ip, none := s.req.visitor.ip, [];
    var sweptAt: int :| start.guard == Some(Empty(sweptAt));
    var ts := Trace(c, gc, start, steps);
    assert Run(gc, Empty(sweptAt), none) == Empty(sweptAt) && none + ts == ts;
    RunTraced(c, gc, sweptAt, none, t, ip, start, steps, t, s.req.askedAt);
    RunMisses(c, gc, start, steps, ip);
    OneAtATimeClean(gc, sweptAt, ts, t, ip);
    ThrottleExact(gc, sweptAt, ts, t, ip);
    LoyalAnswers(gc, Run(gc, Empty(sweptAt), ts), ip, times, EndOf(ts, t), s.req.askedAt);
  }

  /** Every request of the client reaches a link. */
  ghost predicate AllReach(c: Config, gc: GuardConfig, w: World, steps: seq<Clicks.Step>, ip: string)
    decreases |steps|
  {
    steps == [] ||
    ((IsLookup(steps[0]) && steps[0].req.visitor.ip == ip ==> Reached(c, w.db, steps[0].req).Ok?) &&
     AllReach(c, gc, Clicks.After(c, gc, w, steps[0]), steps[1..], ip))
  }

  lemma {:induction false} NoMisses(c: Config, gc: GuardConfig, w: World, steps: seq<Clicks.Step>, ip: string)
    requires AllReach(c, gc, w, steps, ip)
    ensures MissesOf(c, gc, w, steps, ip) == []
    decreases |steps|
  {
    if steps != [] { NoMisses(c, gc, Clicks.After(c, gc, w, steps[0]), steps[1..], ip); }
  }

  /** A client that asks only for links it may reach is never refused. */
  lemma HonestNeverRefused(c: Config, gc: GuardConfig, start: World, steps: seq<Clicks.Step>, t: int, s: Clicks.Step,
                           times: seq<int>, world: World)
    requires Cooling(gc) && Asks(c, gc, start, steps, t, s, times, world)
    requires AllReach(c, gc, start, steps, s.req.visitor.ip)
    ensures !Refused(c, gc, world, s)
  {
    NoMisses(c, gc, start, steps, s.req.visitor.ip);
    RefusedIff(c, gc, start, steps, t, s, times, world);
  }

  /** More than limit misses in one window block for the cooldown. */
  lemma OverLimitBlocks(gc: GuardConfig, times: seq<int>, now: int)
    requires times != [] && now <= times[|times| - 1] + gc.cooldown
    requires CountIn(times, times[|times| - 1] - gc.window, times[|times| - 1]) > gc.limit
    ensures BlockedByTimes(gc, times, now)
  {
    assert times[..|times|] == times;
    assert OverLimit(gc, times, |times| - 1);
  }

  /** More than limit unknown codes in one window: the client's next request is answered
      429, found or not, until the cooldown after the last of them is over. */
  lemma GuesserRefused(c: Config, gc: GuardConfig, start: World, steps: seq<Clicks.Step>, t: int, s: Clicks.Step,
                       times: seq<int>, world: World)
    requires Cooling(gc) && Asks(c, gc, start, steps, t, s, times, world)
    requires times != [] && s.req.askedAt <= times[|times| - 1] + gc.cooldown
    requires CountIn(times, times[|times| - 1] - gc.window, times[|times| - 1]) > gc.limit
    ensures Refused(c, gc, world, s)
  {
    OverLimitBlocks(gc, times, s.req.askedAt);
    RefusedIff(c, gc, start, steps, t, s, times, world);
  }
}
