/**
 * `guardGlobalBudget` of the k6 load tests: a fixed-window counter that sleeps into a fresh window when it
 * comes within five requests of the global limit. Proved here: what that gives for sliding windows.
 */
module BudgetGuard {

  const SAFETY_MARGIN := 5

  /** `config.rateLimits.global`, with `windowSec * 1000` as `windowMs`. */
  datatype Config = Config(max: int, windowMs: nat)

  /** The two `Date.now()` readings of one call; the second only counts when the call sleeps. */
  datatype Reading = Reading(nowMs: int, wokeMs: int)

  datatype State = State(count: nat, windowStartMs: int)

  function Max(a: int, b: int): int
  {
    if a >= b then a else b
  }

  function Rolled(cfg: Config, s: State, nowMs: int): State
  {
    if nowMs - s.windowStartMs > cfg.windowMs then State(0, nowMs) else s
  }

  predicate Sleeps(cfg: Config, s: State, nowMs: int)
  {
    Rolled(cfg, s, nowMs).count >= cfg.max - SAFETY_MARGIN
  }

  function WaitMs(cfg: Config, s: State, nowMs: int): nat
  {
    if Sleeps(cfg, s, nowMs) then Max(0, cfg.windowMs - (nowMs - Rolled(cfg, s, nowMs).windowStartMs)) + 1000 else 0
  }

  function Next(cfg: Config, s: State, r: Reading): State
  {
    if Sleeps(cfg, s, r.nowMs) then State(1, r.wokeMs)
    else Rolled(cfg, s, r.nowMs).(count := Rolled(cfg, s, r.nowMs).count + 1)
  }

  function PassTime(cfg: Config, s: State, r: Reading): int
  {
    if Sleeps(cfg, s, r.nowMs) then r.wokeMs else r.nowMs
  }

  /** The clock never runs backwards, and `sleep(ms)` returns no sooner than `ms` later. */
  predicate ClockAllows(cfg: Config, s: State, clockMs: int, r: Reading)
  {
    clockMs <= r.nowMs && r.nowMs + WaitMs(cfg, s, r.nowMs) <= r.wokeMs
  }

  // ------------------------------------------------------------------ the history of a guard

  /** One time the guard let its caller go on, and the window it was counted in. */
  datatype Pass = Pass(timeMs: int, window: int)

  datatype History = History(state: State, starts: seq<int>, passes: seq<Pass>, clockMs: int)

  function Started(startMs: int): History
  {
    History(State(0, startMs), [startMs], [], startMs)
  }

  function Extended(cfg: Config, h: History, r: Reading): History
  {
    var next := Next(cfg, h.state, r);
    var starts :=
      if Sleeps(cfg, h.state, r.nowMs) then h.starts + [r.wokeMs]
      else if Rolled(cfg, h.state, r.nowMs) != h.state then h.starts + [r.nowMs]
      else h.starts;
    var time := PassTime(cfg, h.state, r);
    History(next, starts, h.passes + [Pass(time, |starts| - 1)], time)
  }

  /** How many passes one window can hold: the budget, and one more than nothing when the budget is empty. */
  function Cap(cfg: Config): nat
  {
    Max(1, cfg.max - SAFETY_MARGIN)
  }

  function CountWindow(passes: seq<Pass>, window: int): nat
  {
    if passes == [] then 0
    else CountWindow(passes[..|passes| - 1], window) + (if passes[|passes| - 1].window == window then 1 else 0)
  }

  /** Passes in the closed span from `fromMs` to `fromMs + lengthMs`. */
  function CountSpan(passes: seq<Pass>, fromMs: int, lengthMs: nat): nat
  {
    if passes == [] then 0
    else CountSpan(passes[..|passes| - 1], fromMs, lengthMs)
         + (if fromMs <= passes[|passes| - 1].timeMs <= fromMs + lengthMs then 1 else 0)
  }

  ghost predicate StartsApart(cfg: Config, starts: seq<int>)
  {
    forall i, j :: 0 <= i < j < |starts| ==> starts[j] - starts[i] > cfg.windowMs
  }

  /** A pass lies between the start of its window and the start of the next. */
  ghost predicate PlacedPass(p: Pass, starts: seq<int>, clockMs: int)
  {
    && 0 <= p.window < |starts|
    && starts[p.window] <= p.timeMs <= clockMs
    && (p.window + 1 < |starts| ==> p.timeMs <= starts[p.window + 1])
  }

  ghost predicate Placed(passes: seq<Pass>, starts: seq<int>, clockMs: int)
  {
    forall k :: 0 <= k < |passes| ==> PlacedPass(passes[k], starts, clockMs)
  }

  ghost predicate PassesPlaced(h: History)
  {
    Placed(h.passes, h.starts, h.clockMs)
  }

  ghost predicate Counted(cfg: Config, h: History)
  {
    && (forall w :: 0 <= w < |h.starts| ==> CountWindow(h.passes, w) <= Cap(cfg))
    && h.state.count == CountWindow(h.passes, |h.starts| - 1)
  }

  ghost predicate Consistent(cfg: Config, h: History)
  {
    && |h.starts| >= 1
    && h.starts[|h.starts| - 1] == h.state.windowStartMs <= h.clockMs
    && StartsApart(cfg, h.starts)
    && PassesPlaced(h)
    && Counted(cfg, h)
  }

  lemma {:induction false} NoPassYet(passes: seq<Pass>, window: int)
    requires forall k :: 0 <= k < |passes| ==> passes[k].window < window
    ensures CountWindow(passes, window) == 0
  {
    if passes != [] {
      NoPassYet(passes[..|passes| - 1], window);
    }
  }

  lemma CountSnoc(passes: seq<Pass>, p: Pass, window: int)
    ensures CountWindow(passes + [p], window) == CountWindow(passes, window) + (if p.window == window then 1 else 0)
  {
    assert (passes + [p])[..|passes|] == passes;
  }

  /** A new window starts more than one window length after every earlier one. */
  lemma NewStart(cfg: Config, h: History, r: Reading)
    requires Consistent(cfg, h) && ClockAllows(cfg, h.state, h.clockMs, r)
    ensures var next := Extended(cfg, h, r);
            next.starts == h.starts
            || (|next.starts| == |h.starts| + 1 && next.starts[..|h.starts|] == h.starts
                && next.starts[|h.starts|] == next.clockMs == next.state.windowStartMs
                && next.clockMs - h.state.windowStartMs > cfg.windowMs)
    ensures StartsApart(cfg, Extended(cfg, h, r).starts)
  {
  }

  lemma PlacedSnoc(passes: seq<Pass>, starts: seq<int>, clockMs: int, starts': seq<int>, clockMs': int)
    requires |starts| >= 1 && Placed(passes, starts, clockMs) && clockMs <= clockMs'
    requires starts' == starts || starts' == starts + [clockMs']
    requires starts'[|starts'| - 1] <= clockMs'
    ensures Placed(passes + [Pass(clockMs', |starts'| - 1)], starts', clockMs')
  {
    forall k | 0 <= k < |passes|
      ensures PlacedPass(passes[k], starts', clockMs')
    {
      assert PlacedPass(passes[k], starts, clockMs);
    }
  }

  lemma ExtendedIsPlaced(cfg: Config, h: History, r: Reading)
    requires Consistent(cfg, h) && ClockAllows(cfg, h.state, h.clockMs, r)
    ensures PassesPlaced(Extended(cfg, h, r))
  {
    NewStart(cfg, h, r);
    var next := Extended(cfg, h, r);
    PlacedSnoc(h.passes, h.starts, h.clockMs, next.starts, next.clockMs);
  }

  lemma ExtendedIsCounted(cfg: Config, h: History, r: Reading)
    requires |h.starts| >= 1 && PassesPlaced(h) && Counted(cfg, h)
    ensures Counted(cfg, Extended(cfg, h, r))
  {
    var next := Extended(cfg, h, r);
    var p := next.passes[|h.passes|];
    NoPassYet(h.passes, |h.starts|);
    forall w | 0 <= w < |next.starts|
      ensures CountWindow(next.passes, w) <= Cap(cfg)
      ensures w == |next.starts| - 1 ==> next.state.count == CountWindow(next.passes, w)
    {
      CountSnoc(h.passes, p, w);
      assert w < |h.starts| ==> CountWindow(h.passes, w) <= Cap(cfg);
    }
  }

  lemma ExtendedIsConsistent(cfg: Config, h: History, r: Reading)
    requires Consistent(cfg, h) && ClockAllows(cfg, h.state, h.clockMs, r)
    ensures Consistent(cfg, Extended(cfg, h, r))
  {
    NewStart(cfg, h, r);
    ExtendedIsPlaced(cfg, h, r);
    ExtendedIsCounted(cfg, h, r);
  }

  // ------------------------------------------------------------------ the sliding-window bound

  lemma {:induction false} SpanWithinTwoWindows(passes: seq<Pass>, fromMs: int, lengthMs: nat, first: int)
    requires forall k :: 0 <= k < |passes| && fromMs <= passes[k].timeMs <= fromMs + lengthMs
                         ==> passes[k].window == first || passes[k].window == first + 1
    ensures CountSpan(passes, fromMs, lengthMs) <= CountWindow(passes, first) + CountWindow(passes, first + 1)
  {
    if passes != [] {
      SpanWithinTwoWindows(passes[..|passes| - 1], fromMs, lengthMs, first);
    }
  }

  lemma {:induction false} EmptySpan(passes: seq<Pass>, fromMs: int, lengthMs: nat)
    requires forall k :: 0 <= k < |passes| ==> !(fromMs <= passes[k].timeMs <= fromMs + lengthMs)
    ensures CountSpan(passes, fromMs, lengthMs) == 0
  {
    if passes != [] {
      EmptySpan(passes[..|passes| - 1], fromMs, lengthMs);
    }
  }

  /** Two passes at most one window length apart were counted in the same window or in neighbouring ones. */
  lemma NearPassesShareTwoWindows(cfg: Config, h: History, k: nat, m: nat)
    requires Consistent(cfg, h) && k < |h.passes| && m < |h.passes|
    requires h.passes[m].timeMs - h.passes[k].timeMs <= cfg.windowMs
    ensures h.passes[m].window <= h.passes[k].window + 1
  {
  }

  ghost predicate InSpan(passes: seq<Pass>, k: int, fromMs: int, lengthMs: nat)
  {
    0 <= k < |passes| && fromMs <= passes[k].timeMs <= fromMs + lengthMs
  }

  /** The first window any pass of a span was counted in. */
  lemma EarliestWindow(passes: seq<Pass>, fromMs: int, lengthMs: nat, n: nat) returns (k: int)
    requires n <= |passes| && exists i :: 0 <= i < n && InSpan(passes, i, fromMs, lengthMs)
    ensures 0 <= k < n && InSpan(passes, k, fromMs, lengthMs)
    ensures forall i :: 0 <= i < n && InSpan(passes, i, fromMs, lengthMs) ==> passes[k].window <= passes[i].window
  {
    if n > 0 && exists i :: 0 <= i < n - 1 && InSpan(passes, i, fromMs, lengthMs) {
      k := EarliestWindow(passes, fromMs, lengthMs, n - 1);
      if InSpan(passes, n - 1, fromMs, lengthMs) && passes[n - 1].window < passes[k].window {
        k := n - 1;
      }
    } else {
      k := n - 1;
    }
  }

  /** The passes of a span of one window length were counted in the earliest of their windows or in the next. */
  lemma SpanFromEarliest(cfg: Config, h: History, fromMs: int, k: int)
    requires Consistent(cfg, h) && InSpan(h.passes, k, fromMs, cfg.windowMs)
    requires forall i :: 0 <= i < |h.passes| && InSpan(h.passes, i, fromMs, cfg.windowMs)
                         ==> h.passes[k].window <= h.passes[i].window
    ensures var first := h.passes[k].window;
            CountSpan(h.passes, fromMs, cfg.windowMs) <= CountWindow(h.passes, first) + CountWindow(h.passes, first + 1)
  {
    hide Consistent, CountSpan, CountWindow;
    var first := h.passes[k].window;
    forall i | 0 <= i < |h.passes| && fromMs <= h.passes[i].timeMs <= fromMs + cfg.windowMs
      ensures h.passes[i].window == first || h.passes[i].window == first + 1
    {
      assert InSpan(h.passes, i, fromMs, cfg.windowMs);
      NearPassesShareTwoWindows(cfg, h, k, i);
    }
    SpanWithinTwoWindows(h.passes, fromMs, cfg.windowMs, first);
  }

  lemma WindowWithinCap(cfg: Config, h: History, window: int)
    requires Consistent(cfg, h) && window >= 0
    ensures CountWindow(h.passes, window) <= Cap(cfg)
  {
    hide StartsApart;
    if window >= |h.starts| {
      forall k | 0 <= k < |h.passes|
        ensures h.passes[k].window < window
      {
        assert PlacedPass(h.passes[k], h.starts, h.clockMs);
      }
      NoPassYet(h.passes, window);
    }
  }

  lemma PassesHaveWindows(cfg: Config, h: History, k: int)
    requires Consistent(cfg, h) && 0 <= k < |h.passes|
    ensures h.passes[k].window >= 0
  {
    assert PlacedPass(h.passes[k], h.starts, h.clockMs);
  }

  /** No time span of one window length ever holds more than twice the budget of one window. */
  lemma SlidingWindowBound(cfg: Config, h: History, fromMs: int)
    requires Consistent(cfg, h)
    ensures CountSpan(h.passes, fromMs, cfg.windowMs) <= 2 * Cap(cfg)
  {
    hide Consistent, CountSpan, CountWindow, Cap;
    if exists i :: 0 <= i < |h.passes| && InSpan(h.passes, i, fromMs, cfg.windowMs) {
      var k := EarliestWindow(h.passes, fromMs, cfg.windowMs, |h.passes|);
      PassesHaveWindows(cfg, h, k);
      SpanFromEarliest(cfg, h, fromMs, k);
      WindowWithinCap(cfg, h, h.passes[k].window);
      WindowWithinCap(cfg, h, h.passes[k].window + 1);
    } else {
      forall k | 0 <= k < |h.passes|
        ensures !(fromMs <= h.passes[k].timeMs <= fromMs + cfg.windowMs)
      {
        assert !InSpan(h.passes, k, fromMs, cfg.windowMs);
      }
      EmptySpan(h.passes, fromMs, cfg.windowMs);
    }
  }

  // ------------------------------------------------------------------ the bound is reached

  function Run(cfg: Config, h: History, readings: seq<Reading>): History
  {
    if readings == [] then h
    else Extended(cfg, Run(cfg, h, readings[..|readings| - 1]), readings[|readings| - 1])
  }

  ghost predicate ClockAllowsRun(cfg: Config, h: History, readings: seq<Reading>)
  {
    forall k :: 0 <= k < |readings| ==>
      ClockAllows(cfg, Run(cfg, h, readings[..k]).state, Run(cfg, h, readings[..k]).clockMs, readings[k])
  }

  lemma {:induction false} RunIsConsistent(cfg: Config, startMs: int, readings: seq<Reading>)
    requires ClockAllowsRun(cfg, Started(startMs), readings)
    ensures Consistent(cfg, Run(cfg, Started(startMs), readings))
  {
    if readings != [] {
      var n := |readings| - 1;
      forall k | 0 <= k < n
        ensures readings[..n][..k] == readings[..k]
      {
      }
      RunIsConsistent(cfg, startMs, readings[..n]);
      ExtendedIsConsistent(cfg, Run(cfg, Started(startMs), readings[..n]), readings[n]);
    }
  }

  /** Over every run of calls: the counter, the window starts and every sliding window stay bounded. */
  lemma EveryRunIsBounded(cfg: Config, startMs: int, readings: seq<Reading>, fromMs: int)
    requires ClockAllowsRun(cfg, Started(startMs), readings)
    ensures var h := Run(cfg, Started(startMs), readings);
            && (cfg.max > SAFETY_MARGIN ==> h.state.count <= cfg.max - SAFETY_MARGIN)
            && StartsApart(cfg, h.starts)
            && CountSpan(h.passes, fromMs, cfg.windowMs) <= 2 * Cap(cfg)
  {
    RunIsConsistent(cfg, startMs, readings);
    SlidingWindowBound(cfg, Run(cfg, Started(startMs), readings), fromMs);
  }

  /** The counter stays within the budget after every call exactly when the budget is not empty. */
  lemma CounterWithinBudgetExactly(cfg: Config)
    ensures cfg.max > SAFETY_MARGIN
            <==> forall s: State, r: Reading :: s.count <= Max(0, cfg.max - SAFETY_MARGIN)
                                                ==> Next(cfg, s, r).count <= cfg.max - SAFETY_MARGIN
  {
    if cfg.max <= SAFETY_MARGIN {
      var s, r := State(0, 0), Reading(0, 0);
      assert Next(cfg, s, r).count == 1;
    }
  }

  /** A burst at the end of one window, then a burst as soon as the guard wakes into the next. */
  function BurstReading(cfg: Config, k: nat): Reading
  {
    if k < Cap(cfg) then Reading(cfg.windowMs, cfg.windowMs)
    else if k == Cap(cfg) then Reading(cfg.windowMs, cfg.windowMs + 1000)
    else Reading(cfg.windowMs + 1000, cfg.windowMs + 1000)
  }

  function Burst(cfg: Config, n: nat): seq<Reading>
  {
    seq(n, k requires 0 <= k < n => BurstReading(cfg, k))
  }

  predicate AtBurst(cfg: Config, n: nat, h: History)
  {
    && h.state == (if n <= Cap(cfg) then State(n, 0) else State(n - Cap(cfg), cfg.windowMs + 1000))
    && h.clockMs == (if n == 0 then 0 else if n <= Cap(cfg) then cfg.windowMs else cfg.windowMs + 1000)
  }

  /** The state and the clock after one more call, and when that call passed. */
  lemma BurstStep(cfg: Config, n: nat, h: History)
    requires cfg.max > SAFETY_MARGIN && n < 2 * Cap(cfg) && AtBurst(cfg, n, h)
    ensures ClockAllows(cfg, h.state, h.clockMs, BurstReading(cfg, n))
    ensures var after := Extended(cfg, h, BurstReading(cfg, n));
            && AtBurst(cfg, n + 1, after)
            && after.passes == h.passes + [Pass(after.clockMs, |after.starts| - 1)]
            && cfg.windowMs <= after.clockMs <= cfg.windowMs + 1000
  {
  }

  lemma RunSnoc(cfg: Config, h: History, readings: seq<Reading>, r: Reading)
    ensures Run(cfg, h, readings + [r]) == Extended(cfg, Run(cfg, h, readings), r)
    ensures ClockAllowsRun(cfg, h, readings)
            && ClockAllows(cfg, Run(cfg, h, readings).state, Run(cfg, h, readings).clockMs, r)
            ==> ClockAllowsRun(cfg, h, readings + [r])
  {
    var all := readings + [r];
    assert all[..|readings|] == readings;
    forall k | 0 <= k < |readings|
      ensures all[..k] == readings[..k] && all[k] == readings[k]
    {
    }
  }

  lemma SpanSnoc(passes: seq<Pass>, p: Pass, fromMs: int, lengthMs: nat)
    ensures CountSpan(passes + [p], fromMs, lengthMs)
         == CountSpan(passes, fromMs, lengthMs) + (if fromMs <= p.timeMs <= fromMs + lengthMs then 1 else 0)
  {
    assert (passes + [p])[..|passes|] == passes;
  }

  /** The first `n` calls of the burst all pass, within one window length. */
  ghost predicate BurstPasses(cfg: Config, n: nat)
  {
    var h := Run(cfg, Started(0), Burst(cfg, n));
    && ClockAllowsRun(cfg, Started(0), Burst(cfg, n))
    && AtBurst(cfg, n, h)
    && CountSpan(h.passes, cfg.windowMs, cfg.windowMs) == n
  }

  lemma BurstStarts(cfg: Config)
    ensures BurstPasses(cfg, 0)
  {
    assert Burst(cfg, 0) == [];
  }

  lemma BurstContinues(cfg: Config, n: nat)
    requires cfg.max > SAFETY_MARGIN && n < 2 * Cap(cfg) && cfg.windowMs >= 1000 && BurstPasses(cfg, n)
    ensures BurstPasses(cfg, n + 1)
  {
    hide Run, Burst, AtBurst, Extended, CountSpan, ClockAllows, ClockAllowsRun, BurstReading, Cap, Started;
    var before := Run(cfg, Started(0), Burst(cfg, n));
    var r := BurstReading(cfg, n);
    var after := Extended(cfg, before, r);
    BurstGrows(cfg, n);
    BurstStep(cfg, n, before);
    RunSnoc(cfg, Started(0), Burst(cfg, n), r);
    SpanSnoc(before.passes, Pass(after.clockMs, |after.starts| - 1), cfg.windowMs, cfg.windowMs);
  }

  lemma {:induction false} BurstRun(cfg: Config, n: nat)
    requires cfg.max > SAFETY_MARGIN && n <= 2 * Cap(cfg) && cfg.windowMs >= 1000
    ensures BurstPasses(cfg, n)
  {
    hide BurstPasses, Cap;
    if n > 0 {
      BurstRun(cfg, n - 1);
      BurstContinues(cfg, n - 1);
    } else {
      BurstStarts(cfg);
    }
  }

  lemma BurstGrows(cfg: Config, n: nat)
    ensures Burst(cfg, n + 1) == Burst(cfg, n) + [BurstReading(cfg, n)]
  {
  }

  /** The bound is attained: some run puts twice the budget into one window length. */
  lemma SlidingWindowBoundIsTight(cfg: Config)
    requires cfg.max > SAFETY_MARGIN && cfg.windowMs >= 1000
    ensures exists readings: seq<Reading> ::
              && ClockAllowsRun(cfg, Started(0), readings)
              && CountSpan(Run(cfg, Started(0), readings).passes, cfg.windowMs, cfg.windowMs)
                 == 2 * (cfg.max - SAFETY_MARGIN)
  {
    BurstRun(cfg, 2 * Cap(cfg));
  }

  // ------------------------------------------------------------------ the guard itself

  class GlobalBudget {
    const cfg: Config
    var count: nat
    var windowStartMs: int
    ghost var history: History

    ghost predicate Valid()
      reads this
    {
      Consistent(cfg, history) && history.state == State(count, windowStartMs)
    }

    constructor (cfg: Config, loadedMs: int)
      ensures Valid() && this.cfg == cfg && history == Started(loadedMs)
    {
      this.cfg := cfg;
      count, windowStartMs := 0, loadedMs;
      history := Started(loadedMs);
    }

    /**
     * One call; `nowMs` and `wokeMs` are what `Date.now()` returns on entry and after a sleep, and `sleptMs` is how
     * long the sleep is asked to be. Within five of the limit it sleeps to the end of the window and a second more.
     */
    method Guard(nowMs: int, wokeMs: int) returns (sleptMs: nat)
      requires Valid() && ClockAllows(cfg, State(count, windowStartMs), history.clockMs, Reading(nowMs, wokeMs))
      modifies this
      ensures Valid()
      ensures history == Extended(cfg, old(history), Reading(nowMs, wokeMs))
      ensures var rolls := nowMs - old(windowStartMs) > cfg.windowMs;
              var counted, since := if rolls then 0 else old(count), if rolls then nowMs else old(windowStartMs);
              if counted >= cfg.max - 5 then
                count == 1 && windowStartMs == wokeMs
                && sleptMs == (if since + cfg.windowMs > nowMs then since + cfg.windowMs - nowMs else 0) + 1000
              else count == counted + 1 && windowStartMs == since && sleptMs == 0
      ensures cfg.max > 5 ==> 1 <= count <= cfg.max - 5
      ensures windowStartMs != old(windowStartMs) ==> windowStartMs - old(windowStartMs) > cfg.windowMs
    {
      ghost var before := history;
      ExtendedIsConsistent(cfg, before, Reading(nowMs, wokeMs));
      NewStart(cfg, before, Reading(nowMs, wokeMs));
      if nowMs - windowStartMs > cfg.windowMs {
        count, windowStartMs := 0, nowMs;
      }
      sleptMs := 0;
      if count >= cfg.max - SAFETY_MARGIN {
        sleptMs := Max(0, cfg.windowMs - (nowMs - windowStartMs)) + 1000;
        count, windowStartMs := 0, wokeMs;
      }
      count := count + 1;
      history := Extended(cfg, before, Reading(nowMs, wokeMs));
    }
  }
}
