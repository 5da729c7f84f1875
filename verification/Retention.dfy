/** How much the two limiters keep: what they store is never older than two windows,
    over every run, however many clients come and go. */
module Retention {
  import opened RateLimit
  import opened Throttle

  ghost predicate Within(times: seq<int>, lo: int, hi: int) {
    times != [] && Sorted(times) && forall i :: 0 <= i < |times| ==> lo < times[i] <= hi
  }

  /** Every stored slice is in order, not empty and after lo. */
  ghost predicate Recent(slices: map<string, seq<int>>, lo: int, hi: int) {
    forall key | key in slices :: Within(slices[key], lo, hi)
  }

  lemma {:induction false} PruneWithin(times: seq<int>, lo: int, hi: int, cutoff: int)
    requires times == [] || Within(times, lo, hi)
    ensures Prune(times, cutoff) == [] || Within(Prune(times, cutoff), if lo < cutoff then cutoff else lo, hi)
  {
    if times != [] && times[0] <= cutoff { PruneWithin(times[1..], lo, hi, cutoff); }
  }

  lemma WithinLater(times: seq<int>, lo: int, hi: int, now: int)
    requires (times == [] || Within(times, lo, hi)) && lo < now && hi <= now
    ensures Within(times + [now], lo, now) && (times != [] ==> Within(times, lo, now))
  {
  }

  lemma SweptRecent(slices: map<string, seq<int>>, lo: int, hi: int, cutoff: int)
    requires Recent(slices, lo, hi) && lo <= cutoff
    ensures Recent(Swept(slices, cutoff), cutoff, hi)
  {
    forall key | key in Swept(slices, cutoff) ensures Within(Swept(slices, cutoff)[key], cutoff, hi) {
      PruneWithin(slices[key], lo, hi, cutoff);
    }
  }

  // ---------------------------------------------------------- sliding window

  ghost function WindowAfter(c: WindowConfig, w: Window, calls: seq<Call>): Window
    decreases |calls|
  {
    if calls == [] then w else WindowAfter(c, AllowStep(c, w, calls[0].key, calls[0].at).0, calls[1..])
  }

  lemma SlicesTouched(slices: map<string, seq<int>>, lo: int, hi: int, key: string, times: seq<int>, now: int)
    requires Recent(slices, lo, hi) && hi <= now && Within(times, lo, now)
    ensures Recent(slices[key := times], lo, now)
  {
    var after := slices[key := times];
    forall k | k in after ensures Within(after[k], lo, now) {
      if k != key { assert Within(slices[k], lo, hi); }
    }
  }

  lemma AllowKeeps(c: WindowConfig, w: Window, key: string, t: int, now: int)
    requires c.window > 0 && c.limit >= 1 && t <= now && Recent(w.hits, w.lastSweep - c.window, t) && w.lastSweep <= now
    ensures
      var w' := AllowStep(c, w, key, now).0;
      Recent(w'.hits, w'.lastSweep - c.window, now) && w'.lastSweep <= now &&
      (key != "" ==> now - c.window < w'.lastSweep)
  {
    var w1 := WindowSweep(c, w, now);
    if now - w.lastSweep >= c.window { SweptRecent(w.hits, w.lastSweep - c.window, t, now - c.window); }
    var lo := w1.lastSweep - c.window;
    var slice := At(w1.hits, key);
    PruneWithin(slice, lo, t, now - c.window);
    var kept := Prune(slice, now - c.window);
    WithinLater(kept, lo, t, now);
    SlicesTouched(w1.hits, lo, t, key, kept + [now], now);
    if kept != [] { SlicesTouched(w1.hits, lo, t, key, kept, now); }
    if key == "" {
      forall k | k in w.hits ensures Within(w.hits[k], w.lastSweep - c.window, now) { }
    }
  }

  lemma {:induction false} RunKeepsRecent(c: WindowConfig, w: Window, t: int, calls: seq<Call>)
    requires c.window > 0 && c.limit >= 1 && Recent(w.hits, w.lastSweep - c.window, t) && w.lastSweep <= t
    requires Monotone(calls) && forall i :: 0 <= i < |calls| ==> t <= calls[i].at
    ensures
      var end, at := WindowAfter(c, w, calls), if calls == [] then t else calls[|calls| - 1].at;
      Recent(end.hits, end.lastSweep - c.window, at) && end.lastSweep <= at
    decreases |calls|
  {
    if calls != [] {
      AllowKeeps(c, w, calls[0].key, t, calls[0].at);
      RunKeepsRecent(c, AllowStep(c, w, calls[0].key, calls[0].at).0, calls[0].at, calls[1..]);
    }
  }

  /** After a named call of any run, the sliding window stores for each key it stores at
      all an allowed event, and none that is two windows old. */
  lemma WindowForgetsOld(c: WindowConfig, calls: seq<Call>, sweptAt: int, last: Call)
    requires c.window > 0 && c.limit >= 1 && Monotone(calls + [last]) && last.key != ""
    requires forall i :: 0 <= i < |calls| ==> sweptAt <= calls[i].at
    requires sweptAt <= last.at
    ensures
      var end := AllowStep(c, WindowAfter(c, Window(map[], sweptAt), calls), last.key, last.at).0;
      Recent(end.hits, last.at - 2 * c.window, last.at)
  {
    var all := calls + [last];
    assert all[|calls|] == last && forall i :: 0 <= i < |calls| ==> all[i] == calls[i];
    var w := WindowAfter(c, Window(map[], sweptAt), calls);
    var t := if calls == [] then sweptAt else calls[|calls| - 1].at;
    RunKeepsRecent(c, Window(map[], sweptAt), sweptAt, calls);
    AllowKeeps(c, w, last.key, t, last.at);
    var end := AllowStep(c, w, last.key, last.at).0;
    forall key | key in end.hits ensures Within(end.hits[key], last.at - 2 * c.window, last.at) {
      assert Within(end.hits[key], end.lastSweep - c.window, last.at);
    }
  }

  // ---------------------------------------------------------------- throttle

  /** What the throttle stores: recent misses, and blocks not over when last swept. */
  ghost predicate Tidy(c: GuardConfig, g: Guard, t: int) {
    g.lastSweep <= t && Recent(g.misses, g.lastSweep - c.window, t) &&
    forall key :: key in g.blockedUntil ==> g.lastSweep <= g.blockedUntil[key]
  }

  lemma MissKeepsTidy(c: GuardConfig, g: Guard, key: string, t: int, now: int)
    requires c.window > 0 && c.cooldown >= 0 && t <= now && Tidy(c, g, t)
    ensures
      var g' := RecordMissStep(c, g, key, now);
      Tidy(c, g', now) && (key != "" ==> now - c.window < g'.lastSweep)
  {
    var g1 := GuardSweep(c, g, now);
    if now - g.lastSweep >= c.window { SweptRecent(g.misses, g.lastSweep - c.window, t, now - c.window); }
    var lo := g1.lastSweep - c.window;
    var slice := At(g1.misses, key);
    PruneWithin(slice, lo, t, now - c.window);
    var kept := Prune(slice, now - c.window);
    WithinLater(kept, lo, t, now);
    SlicesTouched(g1.misses, lo, t, key, kept + [now], now);
    if key == "" { TidyLater(c, g, t, now); }
  }

  lemma TidyLater(c: GuardConfig, g: Guard, t: int, now: int)
    requires Tidy(c, g, t) && t <= now
    ensures Tidy(c, g, now)
  {
    forall k | k in g.misses ensures Within(g.misses[k], g.lastSweep - c.window, now) {
      assert Within(g.misses[k], g.lastSweep - c.window, t);
    }
  }

  lemma StepKeepsTidy(c: GuardConfig, g: Guard, t: int, s: Step)
    requires c.window > 0 && c.cooldown >= 0 && t <= s.at && Tidy(c, g, t)
    ensures Tidy(c, StepOf(c, g, s), s.at)
  {
    TidyLater(c, g, t, s.at);
    if s.Miss? { MissKeepsTidy(c, g, s.key, t, s.at); }
  }

  lemma {:induction false} RunKeepsTidy(c: GuardConfig, sweptAt: int, steps: seq<Step>)
    requires c.window > 0 && c.cooldown >= 0 && InOrder(steps, sweptAt)
    ensures Tidy(c, Run(c, Empty(sweptAt), steps), EndOf(steps, sweptAt))
  {
    if steps != [] {
      var init := steps[..|steps| - 1];
      RunKeepsTidy(c, sweptAt, init);
      StepKeepsTidy(c, Run(c, Empty(sweptAt), init), EndOf(init, sweptAt), steps[|steps| - 1]);
    }
  }

  /** After a recorded miss of any schedule, the throttle stores no miss that is two
      windows old and no block that has been over for a window, of any client. */
  lemma ThrottleForgetsOld(c: GuardConfig, sweptAt: int, steps: seq<Step>, key: string, now: int)
    requires c.window > 0 && c.cooldown >= 0 && InOrder(steps, sweptAt) && EndOf(steps, sweptAt) <= now && key != ""
    ensures
      var g := RecordMissStep(c, Run(c, Empty(sweptAt), steps), key, now);
      Recent(g.misses, now - 2 * c.window, now) &&
      forall k :: k in g.blockedUntil ==> now - c.window < g.blockedUntil[k]
  {
    var before := Run(c, Empty(sweptAt), steps);
    RunKeepsTidy(c, sweptAt, steps);
    MissKeepsTidy(c, before, key, EndOf(steps, sweptAt), now);
    var g := RecordMissStep(c, before, key, now);
    forall k | k in g.misses ensures Within(g.misses[k], now - 2 * c.window, now) {
      assert Within(g.misses[k], g.lastSweep - c.window, now);
    }
  }
}
