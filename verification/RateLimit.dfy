/** The two in-memory limiters. Times are integers and every operation takes
    the clock reading it would make; the clock never runs backwards. */
module RateLimit {

  datatype Event = Event(key: string, at: int)

  // ---------------------------------------------------------------- history

  /** The times at which the log mentions a key, oldest first. */
  function Times(log: seq<Event>, key: string): seq<int> {
    if log == [] then []
    else
      var last := log[|log| - 1];
      Times(log[..|log| - 1], key) + (if last.key == key then [last.at] else [])
  }

  /** How many of the times lie in the half-open interval (lo, hi]. */
  function CountIn(times: seq<int>, lo: int, hi: int): nat {
    if times == [] then 0
    else
      var last := times[|times| - 1];
      CountIn(times[..|times| - 1], lo, hi) + (if lo < last <= hi then 1 else 0)
  }

  ghost predicate Sorted(times: seq<int>) {
    forall i, j :: 0 <= i < j < |times| ==> times[i] <= times[j]
  }

  /** The log is in order and no entry is later than t. */
  ghost predicate History(log: seq<Event>, t: int) {
    && (forall i, j :: 0 <= i < j < |log| ==> log[i].at <= log[j].at)
    && (forall i :: 0 <= i < |log| ==> log[i].at <= t)
  }

  lemma TimesAppend(log: seq<Event>, e: Event, key: string)
    ensures Times(log + [e], key) == if e.key == key then Times(log, key) + [e.at] else Times(log, key)
  {
    assert (log + [e])[..|log|] == log;
  }

  lemma {:induction false} TimesSorted(log: seq<Event>, key: string, t: int)
    requires History(log, t)
    ensures Sorted(Times(log, key))
    ensures forall i :: 0 <= i < |Times(log, key)| ==> Times(log, key)[i] <= t
  {
    if log != [] {
      TimesSorted(log[..|log| - 1], key, log[|log| - 1].at);
    }
  }

  lemma {:induction false} CountMonotone(times: seq<int>, lo: int, hi: int, lo': int, hi': int)
    requires lo <= lo' && hi' <= hi
    ensures CountIn(times, lo', hi') <= CountIn(times, lo, hi)
  {
    if times != [] { CountMonotone(times[..|times| - 1], lo, hi, lo', hi'); }
  }

  lemma {:induction false} CountNone(times: seq<int>, lo: int, hi: int)
    requires forall i :: 0 <= i < |times| ==> !(lo < times[i] <= hi)
    ensures CountIn(times, lo, hi) == 0
  {
    if times != [] { CountNone(times[..|times| - 1], lo, hi); }
  }

  /** Cutting the interval at the last time at or before hi loses nothing. */
  lemma {:induction false} CountCut(times: seq<int>, lo: int, hi: int, hi': int)
    requires hi' <= hi
    requires forall i :: 0 <= i < |times| ==> times[i] <= hi'
    ensures CountIn(times, lo, hi) == CountIn(times, lo, hi')
  {
    if times != [] { CountCut(times[..|times| - 1], lo, hi, hi'); }
  }

  // ---------------------------------------------------------------- pruning

  /** The slice without its leading times at or before the cutoff. */
  function Prune(times: seq<int>, cutoff: int): seq<int> {
    if times != [] && times[0] <= cutoff then Prune(times[1..], cutoff) else times
  }

  method PruneBefore(times: seq<int>, cutoff: int) returns (kept: seq<int>)
    ensures kept == Prune(times, cutoff)
  {
    var i := 0;
    while i < |times| && times[i] <= cutoff
      invariant 0 <= i <= |times|
      invariant Prune(times, cutoff) == Prune(times[i..], cutoff)
    {
      assert times[i..][1..] == times[i + 1..];
      i := i + 1;
    }
    kept := times[i..];
  }

  lemma {:induction false} PruneTwice(times: seq<int>, c: int, d: int)
    requires c <= d
    ensures Prune(Prune(times, c), d) == Prune(times, d)
  {
    if times != [] && times[0] <= c { PruneTwice(times[1..], c, d); }
  }

  lemma {:induction false} PruneAppend(times: seq<int>, t: int, c: int)
    requires t > c
    ensures Prune(times + [t], c) == Prune(times, c) + [t]
  {
    if times == [] {
    } else if times[0] <= c {
      assert (times + [t])[1..] == times[1..] + [t];
      PruneAppend(times[1..], t, c);
    }
  }

  lemma {:induction false} PruneAll(times: seq<int>, c: int)
    requires forall i :: 0 <= i < |times| ==> times[i] <= c
    ensures Prune(times, c) == []
  {
    if times != [] { PruneAll(times[1..], c); }
  }

  /** On a sorted slice pruning keeps exactly the times after the cutoff. */
  lemma {:induction false} PruneCounts(times: seq<int>, lo: int, hi: int)
    requires Sorted(times)
    requires forall i :: 0 <= i < |times| ==> times[i] <= hi
    ensures |Prune(times, lo)| == CountIn(times, lo, hi)
  {
    if times == [] {
    } else {
      var init, last := times[..|times| - 1], times[|times| - 1];
      PruneCounts(init, lo, hi);
      assert times == init + [last];
      if last > lo {
        PruneAppend(init, last, lo);
      } else {
        PruneAll(times, lo);
        PruneAll(init, lo);
      }
    }
  }

  /** sweep's pass over a map of time slices: prune each, drop the empty ones. */
  function Swept(slices: map<string, seq<int>>, cutoff: int): map<string, seq<int>> {
    map key | key in slices && Prune(slices[key], cutoff) != [] :: Prune(slices[key], cutoff)
  }

  function At(slices: map<string, seq<int>>, key: string): seq<int> {
    if key in slices then slices[key] else []
  }

  lemma SweptAt(slices: map<string, seq<int>>, cutoff: int, key: string)
    ensures At(Swept(slices, cutoff), key) == Prune(At(slices, key), cutoff)
  {
  }

  method SweepSlices(slices: map<string, seq<int>>, cutoff: int) returns (swept: map<string, seq<int>>)
    ensures swept == Swept(slices, cutoff)
  {
    swept := slices;
    var todo := slices.Keys;
    while todo != {}
      invariant todo <= slices.Keys
      invariant forall key :: key in swept ==> key in slices
      invariant forall key :: key in todo ==> key in swept && swept[key] == slices[key]
      invariant forall key :: key in slices && key !in todo ==>
        (key in swept <==> Prune(slices[key], cutoff) != []) &&
        (key in swept ==> swept[key] == Prune(slices[key], cutoff))
      decreases |todo|
    {
      var key :| key in todo;
      var kept := PruneBefore(swept[key], cutoff);
      if kept == [] {
        swept := swept - {key};
      } else {
        swept := swept[key := kept];
      }
      todo := todo - {key};
    }
  }

  // ---------------------------------------------------------- sliding window

  datatype Window = Window(hits: map<string, seq<int>>, lastSweep: int)

  datatype WindowConfig = WindowConfig(limit: int, window: int)

  function WindowSweep(c: WindowConfig, w: Window, now: int): Window {
    if now - w.lastSweep < c.window then w
    else Window(Swept(w.hits, now - c.window), now)
  }

  function AllowStep(c: WindowConfig, w: Window, key: string, now: int): (Window, bool) {
    if key == "" then (w, true)
    else
      var w := WindowSweep(c, w, now);
      var kept := Prune(At(w.hits, key), now - c.window);
      if |kept| >= c.limit then (w.(hits := w.hits[key := kept]), false)
      else (w.(hits := w.hits[key := kept + [now]]), true)
  }

  class SlidingWindow {
    const config: WindowConfig
    var hits: map<string, seq<int>>
    var lastSweep: int

    ghost function View(): Window
      reads this
    {
      Window(hits, lastSweep)
    }

    constructor (limit: int, window: int)
      ensures config == WindowConfig(limit, window) && View() == Window(map[], 0)
    {
      config := WindowConfig(limit, window);
      hits, lastSweep := map[], 0;
    }

    method Allow(key: string, now: int) returns (ok: bool)
      modifies this
      ensures (View(), ok) == AllowStep(config, old(View()), key, now)
    {
      if key == "" { return true; }
      Sweep(now);
      var kept := PruneBefore(if key in hits then hits[key] else [], now - config.window);
      if |kept| >= config.limit {
        hits := hits[key := kept];
        return false;
      }
      hits := hits[key := kept + [now]];
      return true;
    }

    method Sweep(now: int)
      modifies this
      ensures View() == WindowSweep(config, old(View()), now)
    {
      if now - lastSweep < config.window { return; }
      lastSweep := now;
      hits := SweepSlices(hits, now - config.window);
    }
  }

  datatype Call = Call(key: string, at: int)

  /** The answer a limiter that never forgets would give. */
  ghost predicate AllowedByLog(c: WindowConfig, log: seq<Event>, call: Call) {
    call.key == "" || CountIn(Times(log, call.key), call.at - c.window, call.at) < c.limit
  }

  ghost function LogAfter(c: WindowConfig, log: seq<Event>, call: Call): seq<Event> {
    if call.key != "" && AllowedByLog(c, log, call) then log + [Event(call.key, call.at)] else log
  }

  ghost function LogRun(c: WindowConfig, log: seq<Event>, calls: seq<Call>): (seq<Event>, seq<bool>)
    decreases |calls|
  {
    if calls == [] then (log, [])
    else
      var (rest, answers) := LogRun(c, LogAfter(c, log, calls[0]), calls[1..]);
      (rest, [AllowedByLog(c, log, calls[0])] + answers)
  }

  function WindowRun(c: WindowConfig, w: Window, calls: seq<Call>): seq<bool>
    decreases |calls|
  {
    if calls == [] then []
    else
      var (w', ok) := AllowStep(c, w, calls[0].key, calls[0].at);
      [ok] + WindowRun(c, w', calls[1..])
  }

  ghost predicate Monotone(calls: seq<Call>) {
    forall i, j :: 0 <= i < j < |calls| ==> calls[i].at <= calls[j].at
  }

  ghost predicate Agree(a: seq<int>, b: seq<int>, cutoff: int) {
    Prune(a, cutoff) == Prune(b, cutoff)
  }

  /** What pruning and sweeping may forget of a key: only times no later question
      at or after t can see. */
  ghost predicate Memory(slice: seq<int>, times: seq<int>, window: int, t: int) {
    forall cutoff | cutoff >= t - window :: Agree(slice, times, cutoff)
  }

  ghost predicate Remembers(slices: map<string, seq<int>>, log: seq<Event>, window: int, t: int) {
    forall key | key != "" :: Memory(At(slices, key), Times(log, key), window, t)
  }

  lemma PrunedMemory(slice: seq<int>, times: seq<int>, window: int, t: int, now: int)
    requires Memory(slice, times, window, t) && t <= now
    ensures Memory(Prune(slice, now - window), times, window, now)
    ensures Memory(slice, times, window, now)
  {
    var kept := Prune(slice, now - window);
    forall cutoff | cutoff >= now - window ensures Agree(kept, times, cutoff) {
      assert Agree(slice, times, cutoff);
      PruneTwice(slice, now - window, cutoff);
    }
  }

  lemma AppendedMemory(slice: seq<int>, times: seq<int>, window: int, now: int)
    requires Memory(slice, times, window, now)
    ensures Memory(slice + [now], times + [now], window, now)
  {
    forall cutoff | cutoff >= now - window ensures Agree(slice + [now], times + [now], cutoff) {
      assert Agree(slice, times, cutoff);
      PruneSplit(slice, now, cutoff);
      PruneSplit(times, now, cutoff);
    }
  }

  /** The size of a faithful memory's pruned slice is the count in the history. */
  lemma MemoryCounts(slice: seq<int>, times: seq<int>, window: int, now: int)
    requires Memory(slice, times, window, now) && Sorted(times)
    requires forall i :: 0 <= i < |times| ==> times[i] <= now
    ensures |Prune(slice, now - window)| == CountIn(times, now - window, now)
  {
    assert Agree(slice, times, now - window);
    PruneCounts(times, now - window, now);
  }

  lemma SweepRemembers(slices: map<string, seq<int>>, log: seq<Event>, window: int, t: int, now: int)
    requires Remembers(slices, log, window, t) && t <= now
    ensures Remembers(Swept(slices, now - window), log, window, now)
    ensures Remembers(slices, log, window, now)
  {
    var swept := Swept(slices, now - window);
    forall key | key != ""
      ensures Memory(At(swept, key), Times(log, key), window, now) &&
              Memory(At(slices, key), Times(log, key), window, now)
    {
      SweptAt(slices, now - window, key);
      PrunedMemory(At(slices, key), Times(log, key), window, t, now);
    }
  }

  /** Replacing a key's slice by its pruned slice, or by that plus the event
      that the log records as well, keeps the memory faithful. */
  lemma TouchRemembers(slices: map<string, seq<int>>, log: seq<Event>, window: int, key: string, now: int, record: bool)
    requires Remembers(slices, log, window, now) && key != ""
    ensures record ==>
      Remembers(slices[key := Prune(At(slices, key), now - window) + [now]], log + [Event(key, now)], window, now)
    ensures !record ==> Remembers(slices[key := Prune(At(slices, key), now - window)], log, window, now)
  {
    var kept := Prune(At(slices, key), now - window);
    assert Memory(At(slices, key), Times(log, key), window, now);
    PrunedMemory(At(slices, key), Times(log, key), window, now, now);
    if record {
      AppendedMemory(kept, Times(log, key), window, now);
      var log' := log + [Event(key, now)];
      forall k | k != "" ensures Memory(At(slices[key := kept + [now]], k), Times(log', k), window, now) {
        TimesAppend(log, Event(key, now), k);
        assert Memory(At(slices, k), Times(log, k), window, now);
      }
    } else {
      forall k | k != "" ensures Memory(At(slices[key := kept], k), Times(log, k), window, now) {
        assert Memory(At(slices, k), Times(log, k), window, now);
      }
    }
  }

  lemma {:induction false} PruneSplit(a: seq<int>, t: int, cutoff: int)
    ensures Prune(a + [t], cutoff) == if Prune(a, cutoff) == [] then Prune([t], cutoff) else Prune(a, cutoff) + [t]
  {
    if a == [] {
      assert a + [t] == [t];
    } else if a[0] <= cutoff {
      assert (a + [t])[1..] == a[1..] + [t];
      PruneSplit(a[1..], t, cutoff);
    }
  }

  lemma WindowSweepRemembers(c: WindowConfig, w: Window, log: seq<Event>, t: int, now: int)
    requires Remembers(w.hits, log, c.window, t) && t <= now
    ensures Remembers(WindowSweep(c, w, now).hits, log, c.window, now)
  {
    SweepRemembers(w.hits, log, c.window, t, now);
  }

  lemma AllowFollowsLog(c: WindowConfig, w: Window, log: seq<Event>, t: int, call: Call)
    requires Remembers(w.hits, log, c.window, t) && History(log, t) && t <= call.at
    ensures AllowStep(c, w, call.key, call.at).1 == AllowedByLog(c, log, call)
    ensures Remembers(AllowStep(c, w, call.key, call.at).0.hits, LogAfter(c, log, call), c.window, call.at)
    ensures History(LogAfter(c, log, call), call.at)
  {
    var now := call.at;
    WindowSweepRemembers(c, w, log, t, now);
    if call.key != "" {
      var w1 := WindowSweep(c, w, now);
      TimesSorted(log, call.key, t);
      MemoryCounts(At(w1.hits, call.key), Times(log, call.key), c.window, now);
      TouchRemembers(w1.hits, log, c.window, call.key, now, AllowedByLog(c, log, call));
    } else {
      SweepRemembers(w.hits, log, c.window, t, now);
    }
  }

  /** Refinement: from an empty limiter, every answer of every run equals the
      answer computed from the complete log of allowed events. */
  lemma {:induction false} WindowRunIsLogRun(c: WindowConfig, w: Window, log: seq<Event>, t: int, calls: seq<Call>)
    requires Remembers(w.hits, log, c.window, t) && History(log, t)
    requires Monotone(calls) && (calls != [] ==> t <= calls[0].at)
    ensures WindowRun(c, w, calls) == LogRun(c, log, calls).1
    decreases |calls|
  {
    if calls != [] {
      AllowFollowsLog(c, w, log, t, calls[0]);
      var (w', ok) := AllowStep(c, w, calls[0].key, calls[0].at);
      WindowRunIsLogRun(c, w', LogAfter(c, log, calls[0]), calls[0].at, calls[1..]);
    }
  }

  lemma SlidingWindowExact(c: WindowConfig, calls: seq<Call>, sweptAt: int)
    requires Monotone(calls)
    ensures WindowRun(c, Window(map[], sweptAt), calls) == LogRun(c, [], calls).1
  {
    var t := if calls == [] then 0 else calls[0].at;
    WindowRunIsLogRun(c, Window(map[], sweptAt), [], t, calls);
  }

  /** No half-open interval of one window's length holds more than limit of the
      times. */
  ghost predicate TimesWithin(times: seq<int>, limit: int, window: int) {
    forall s :: IntervalHolds(times, s, limit, window)
  }

  ghost predicate IntervalHolds(times: seq<int>, s: int, limit: int, window: int) {
    CountIn(times, s, s + window) <= limit
  }

  ghost predicate WithinLimit(log: seq<Event>, limit: int, window: int) {
    forall key | key != "" :: TimesWithin(Times(log, key), limit, window)
  }

  lemma AppendWithin(times: seq<int>, limit: int, window: int, now: int)
    requires TimesWithin(times, limit, window) && CountIn(times, now - window, now) < limit
    requires forall i :: 0 <= i < |times| ==> times[i] <= now
    ensures TimesWithin(times + [now], limit, window)
  {
    forall s ensures IntervalHolds(times + [now], s, limit, window) {
      assert IntervalHolds(times, s, limit, window);
      assert (times + [now])[..|times|] == times;
      if s < now <= s + window {
        CountCut(times, s, s + window, now);
        CountMonotone(times, now - window, now, s, now);
      }
    }
  }

  lemma RecordWithinLimit(log: seq<Event>, limit: int, window: int, e: Event)
    requires WithinLimit(log, limit, window) && History(log, e.at)
    requires e.key != "" && CountIn(Times(log, e.key), e.at - window, e.at) < limit
    ensures WithinLimit(log + [e], limit, window)
  {
    TimesAppend(log, e, e.key);
    TimesSorted(log, e.key, e.at);
    AppendWithin(Times(log, e.key), limit, window, e.at);
    forall key | key != "" ensures TimesWithin(Times(log + [e], key), limit, window) {
      TimesAppend(log, e, key);
      assert TimesWithin(Times(log, key), limit, window);
    }
  }

  /** Safety over whole runs: in the log of any run every interval of length
      window holds at most limit allowed events of each key. */
  lemma {:induction false} LogRunWithinLimit(c: WindowConfig, log: seq<Event>, t: int, calls: seq<Call>)
    requires WithinLimit(log, if c.limit < 0 then 0 else c.limit, c.window)
    requires History(log, t)
    requires Monotone(calls) && (calls != [] ==> t <= calls[0].at)
    ensures WithinLimit(LogRun(c, log, calls).0, if c.limit < 0 then 0 else c.limit, c.window)
    decreases |calls|
  {
    if calls != [] {
      var call := calls[0];
      if call.key != "" && AllowedByLog(c, log, call) {
        RecordWithinLimit(log, c.limit, c.window, Event(call.key, call.at));
      }
      LogRunWithinLimit(c, LogAfter(c, log, call), call.at, calls[1..]);
    }
  }
}
