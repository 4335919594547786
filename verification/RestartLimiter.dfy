/** The start-rate limiter of automatic restarts (src/manager.rs). */
module RestartLimiter {
  import opened Basics

  const DEFAULT_BURST: nat := 5
  const DEFAULT_INTERVAL_NS: nat := 10_000_000_000

  /** StartLimitBurst= and StartLimitIntervalSec= of the unit, if set. */
  datatype Config = Config(burst: Option<U32>, intervalNs: Option<nat>)

  /** The start of the current window, zero for none, and the starts in it. */
  datatype Limiter = Limiter(window: I64, count: U32)

  const FRESH := Limiter(0, 0)

  function Burst(c: Config): U32 {
    if c.burst.Some? then c.burst.value else DEFAULT_BURST
  }

  function Interval(c: Config): nat {
    if c.intervalNs.Some? then c.intervalNs.value else DEFAULT_INTERVAL_NS
  }

  function IntervalNs(c: Config): I64 {
    if Interval(c) > I64_MAX then I64_MAX else Interval(c)
  }

  predicate Limits(c: Config) {
    Burst(c) > 0 && Interval(c) > 0
  }

  function Next(count: U32): U32 {
    if count == U32_MAX then U32_MAX else count + 1
  }

  /** The window in force for a start at `now`. */
  function Open(c: Config, l: Limiter, now: I64): Limiter {
    if l.window == 0 || SaturatingSub(now, l.window) >= IntervalNs(c) then Limiter(now, 0) else l
  }

  predicate Grants(c: Config, l: Limiter, now: I64) {
    !Limits(c) || Next(Open(c, l, now).count) <= Burst(c)
  }

  function Step(c: Config, l: Limiter, now: I64): Limiter {
    if !Limits(c) then l
    else
      var o := Open(c, l, now);
      if Grants(c, l, now) then o.(count := Next(o.count)) else o
  }

  class UnitRecord {
    var state: UnitState
    var result: string
    var restartCount: U32
    var lastStartNs: I64
    var windowNs: I64
    var startCount: U32
    var watchdogTriggered: bool
    var exitCode: int
    var exitStatus: int

    constructor ()
      ensures AsLimiter() == FRESH && restartCount == 0 && state == Inactive && result == "success"
      ensures lastStartNs == 0 && !watchdogTriggered && exitCode == 0 && exitStatus == 0
    {
      state, result, restartCount, lastStartNs, windowNs, startCount := Inactive, "success", 0, 0, 0, 0;
      watchdogTriggered, exitCode, exitStatus := false, 0, 0;
    }

    function AsLimiter(): Limiter
      reads this
    {
      Limiter(windowNs, startCount)
    }

    /** `requested`: the unit is a service whose Restart= asks for a restart.
        `delay`: the configured delay of the n-th restart. */
    method AutomaticRestartAt(c: Config, requested: bool, delay: U32 -> nat, now: I64) returns (r: Option<nat>)
      modifies this`state, this`result, this`restartCount, this`windowNs, this`startCount
      ensures r == if requested && Grants(c, old(AsLimiter()), now) then Some(delay(Next(old(restartCount)))) else None
      ensures AsLimiter() == if requested then Step(c, old(AsLimiter()), now) else old(AsLimiter())
      ensures restartCount == if r.Some? then Next(old(restartCount)) else old(restartCount)
      ensures if requested && r.None? then state == UnitFailed && result == "start-limit-hit"
              else state == old(state) && result == old(result)
    {
      if !requested {
        return None;
      }
      var nextRestart := Next(restartCount);
      var burst, interval := Burst(c), Interval(c);
      if burst > 0 && interval > 0 {
        if windowNs == 0 || SaturatingSub(now, windowNs) >= IntervalNs(c) {
          windowNs := now;
          startCount := 0;
        }
        var nextStart := Next(startCount);
        if nextStart > burst {
          state := UnitFailed;
          result := "start-limit-hit";
          return None;
        }
        startCount := nextStart;
      }
      restartCount := nextRestart;
      return Some(delay(nextRestart));
    }

    method ResetFailed()
      modifies this
      ensures AsLimiter() == FRESH && restartCount == 0 && result == "success"
      ensures lastStartNs == 0 && !watchdogTriggered && exitCode == 0 && exitStatus == 0
      ensures state == if old(state).UnitFailed? || old(state).Maintenance? then Inactive else old(state)
    {
      if state.UnitFailed? || state.Maintenance? {
        state := Inactive;
      }
      restartCount, lastStartNs, windowNs, startCount, result := 0, 0, 0, 0, "success";
      watchdogTriggered, exitCode, exitStatus := false, 0, 0;
    }
  }

  // ---- whole runs ----

  function After(c: Config, l: Limiter, times: seq<I64>): Limiter
    decreases |times|
  {
    if times == [] then l else After(c, Step(c, l, times[0]), times[1..])
  }

  function Granted(c: Config, l: Limiter, times: seq<I64>): nat
    decreases |times|
  {
    if times == [] then 0
    else (if Grants(c, l, times[0]) then 1 else 0) + Granted(c, Step(c, l, times[0]), times[1..])
  }

  predicate Nondecreasing(times: seq<I64>) {
    forall i, j :: 0 <= i < j < |times| ==> times[i] <= times[j]
  }

  predicate NonZero(times: seq<I64>) {
    forall i :: 0 <= i < |times| ==> times[i] != 0
  }

  /** The record's grants over any run are those of the limiter. */
  method AutomaticRestarts(record: UnitRecord, c: Config, delay: U32 -> nat, times: seq<I64>) returns (granted: nat)
    modifies record
    ensures granted == Granted(c, old(record.AsLimiter()), times)
    ensures record.AsLimiter() == After(c, old(record.AsLimiter()), times)
  {
    hide Grants, Step;
    granted := 0;
    var i := 0;
    while i < |times|
      invariant i <= |times|
      invariant Granted(c, old(record.AsLimiter()), times) == granted + Granted(c, record.AsLimiter(), times[i..])
      invariant After(c, old(record.AsLimiter()), times) == After(c, record.AsLimiter(), times[i..])
    {
      assert times[i..][1..] == times[i + 1..];
      var r := record.AutomaticRestartAt(c, true, delay, times[i]);
      if r.Some? {
        granted := granted + 1;
      }
      i := i + 1;
    }
  }

  /** The saturating difference decides like the true one. */
  lemma SaturationIsHarmless(c: Config, now: I64, window: I64)
    ensures SaturatingSub(now, window) >= IntervalNs(c) <==> now - window >= IntervalNs(c)
  {
  }

  /** A limiter that has been used at nonzero times up to `now`. */
  predicate Used(c: Config, l: Limiter, now: int) {
    if l.window == 0 then l.count == 0 else 1 <= l.count <= Burst(c) && l.window <= now
  }

  lemma StepUsed(c: Config, l: Limiter, now: I64)
    requires Limits(c) && Used(c, l, now) && now != 0
    ensures Used(c, Step(c, l, now), now)
  {
  }

  lemma {:induction false} RunUsed(c: Config, l: Limiter, times: seq<I64>, now: int)
    requires Limits(c) && NonZero(times) && Nondecreasing(times)
    requires Used(c, l, if times == [] then now else times[0])
    requires times != [] ==> times[|times| - 1] <= now
    ensures Used(c, After(c, l, times), now)
    decreases |times|
  {
    if times != [] {
      StepUsed(c, l, times[0]);
      RunUsed(c, Step(c, l, times[0]), times[1..], now);
    }
  }

  /** One window grants at most `burst` starts. */
  lemma {:induction false} WindowBound(c: Config, l: Limiter, times: seq<I64>)
    requires Limits(c) && Burst(c) < U32_MAX && l.window != 0 && l.count <= Burst(c)
    requires forall i :: 0 <= i < |times| ==> times[i] - l.window < IntervalNs(c)
    ensures Granted(c, l, times) <= Burst(c) - l.count
    decreases |times|
  {
    if times != [] {
      SaturationIsHarmless(c, times[0], l.window);
      WindowBound(c, Step(c, l, times[0]), times[1..]);
    }
  }

  /** A span shorter than the interval meets at most two windows, and all of the
      first only when it meets no second. */
  lemma {:induction false} ShortSpanBound(c: Config, l: Limiter, times: seq<I64>)
    requires Limits(c) && Burst(c) < U32_MAX && NonZero(times) && Nondecreasing(times) && times != []
    requires Used(c, l, times[0]) && times[|times| - 1] - times[0] < IntervalNs(c)
    ensures Granted(c, l, times) <= 2 * Burst(c) - (if l.window == 0 then 1 else l.count)
    decreases |times|
  {
    var now := times[0];
    var next := Step(c, l, now);
    SaturationIsHarmless(c, now, l.window);
    StepUsed(c, l, now);
    if l.window == 0 || now - l.window >= IntervalNs(c) {
      forall i | 0 <= i < |times[1..]|
        ensures times[1..][i] - next.window < IntervalNs(c)
      {
        assert times[1..][i] == times[i + 1] <= times[|times| - 1];
      }
      WindowBound(c, next, times[1..]);
    } else if |times| > 1 {
      ShortSpanBound(c, next, times[1..]);
    }
  }

  /** The most restarts that fit into a span shorter than the interval: all of one
      window when only one instant is that short, otherwise all but the first of a
      window and all of the next. */
  function Peak(c: Config): int {
    if IntervalNs(c) == 1 then Burst(c) else 2 * Burst(c) - 1
  }

  /** Within one instant no second window opens. */
  lemma InstantBound(c: Config, l: Limiter, times: seq<I64>)
    requires Limits(c) && Burst(c) < U32_MAX && NonZero(times) && times != []
    requires Used(c, l, times[0]) && forall i :: 0 <= i < |times| ==> times[i] == times[0]
    ensures Granted(c, l, times) <= Burst(c)
  {
    var now := times[0];
    SaturationIsHarmless(c, now, l.window);
    StepUsed(c, l, now);
    if l.window == 0 || now - l.window >= IntervalNs(c) {
      WindowBound(c, Step(c, l, now), times[1..]);
    } else {
      WindowBound(c, l, times);
    }
  }

  /** Over any run from a fresh record, with any number of starts asked for at
      nonzero, nondecreasing times: no span shorter than the interval sees more
      restarts than `Peak`. */
  lemma SpanBound(c: Config, times: seq<I64>, a: nat, b: nat)
    requires Limits(c) && Burst(c) < U32_MAX && NonZero(times) && Nondecreasing(times)
    requires a <= b < |times| && (times[b] as int) - times[a] < IntervalNs(c)
    ensures Granted(c, After(c, FRESH, times[..a]), times[a..b + 1]) <= Peak(c)
  {
    RunUsed(c, FRESH, times[..a], times[a]);
    var span := times[a..b + 1];
    if IntervalNs(c) == 1 {
      InstantBound(c, After(c, FRESH, times[..a]), span);
    } else {
      ShortSpanBound(c, After(c, FRESH, times[..a]), span);
    }
  }

  /** A unit that sets nothing gets at most nine restarts in less than ten seconds. */
  lemma DefaultBound(times: seq<I64>, a: nat, b: nat)
    requires NonZero(times) && Nondecreasing(times)
    requires a <= b < |times| && (times[b] as int) - times[a] < DEFAULT_INTERVAL_NS
    ensures Granted(Config(None, None), After(Config(None, None), FRESH, times[..a]), times[a..b + 1]) <= 9
  {
    SpanBound(Config(None, None), times, a, b);
  }

  // ---- the bound is tight ----

  function Repeat(t: I64, n: nat): (times: seq<I64>)
    ensures |times| == n && forall i :: 0 <= i < n ==> times[i] == t
  {
    if n == 0 then [] else [t] + Repeat(t, n - 1)
  }

  lemma {:induction false} GrantedConcat(c: Config, l: Limiter, s: seq<I64>, t: seq<I64>)
    ensures Granted(c, l, s + t) == Granted(c, l, s) + Granted(c, After(c, l, s), t)
    decreases |s|
  {
    if s == [] {
      assert s + t == t;
    } else {
      assert (s + t)[1..] == s[1..] + t;
      GrantedConcat(c, Step(c, l, s[0]), s[1..], t);
    }
  }

  /** As long as the window has room, every start at `t` is granted. */
  lemma {:induction false} RoomGrants(c: Config, l: Limiter, t: I64, n: nat)
    requires Limits(c) && l.window != 0 && t - l.window < IntervalNs(c) && l.count + n <= Burst(c)
    ensures Granted(c, l, Repeat(t, n)) == n && After(c, l, Repeat(t, n)) == l.(count := l.count + n)
    decreases n
  {
    if n > 0 {
      assert Repeat(t, n)[1..] == Repeat(t, n - 1);
      RoomGrants(c, l.(count := l.count + 1), t, n - 1);
    }
  }

  /** When the busiest run starts: the interval after it ends within the clock. */
  function FirstStart(c: Config): I64 {
    if IntervalNs(c) == I64_MAX then -1 else 1
  }

  /** One start in a first window, the rest of its burst just before it ends, and
      a full burst right after; or one burst at one instant. */
  function Warmup(c: Config): seq<I64> {
    if IntervalNs(c) == 1 then [] else [FirstStart(c)]
  }

  function Busy(c: Config): seq<I64>
    requires Limits(c)
  {
    if IntervalNs(c) == 1 then Repeat(1, Burst(c))
    else
      var end: I64 := FirstStart(c) + IntervalNs(c);
      Repeat(end - 1, Burst(c) - 1) + Repeat(end, Burst(c))
  }

  /** The bound is reached, for every burst and interval, by a run of nonzero,
      nondecreasing times. */
  lemma SpanBoundIsTight(c: Config)
    requires Limits(c)
    ensures Granted(c, After(c, FRESH, Warmup(c)), Busy(c)) == Peak(c)
    ensures NonZero(Warmup(c) + Busy(c)) && Nondecreasing(Warmup(c) + Busy(c))
    ensures Busy(c) != [] && (Busy(c)[|Busy(c)| - 1] as int) - Busy(c)[0] < IntervalNs(c)
  {
    hide Granted, After, Step, NonZero, Nondecreasing, Repeat;
    BusyTimes(c);
    if IntervalNs(c) == 1 {
      InstantGrants(c);
    } else {
      var start := FirstStart(c);
      StartWindow(c, start);
      BusyGrants(c, start, start + IntervalNs(c));
    }
  }

  lemma BusyTimes(c: Config)
    requires Limits(c)
    ensures NonZero(Warmup(c) + Busy(c)) && Nondecreasing(Warmup(c) + Busy(c))
    ensures Busy(c) != [] && (Busy(c)[|Busy(c)| - 1] as int) - Busy(c)[0] < IntervalNs(c)
  {
    hide Repeat;
    var burst := Burst(c);
    if IntervalNs(c) > 1 {
      var end: I64 := FirstStart(c) + IntervalNs(c);
      var all := Warmup(c) + Busy(c);
      assert forall i :: 0 <= i < |all| ==> all[i] == if i == 0 then FirstStart(c) else if i < burst then end - 1 else end;
    }
  }

  lemma StartWindow(c: Config, start: I64)
    requires Limits(c) && start != 0
    ensures After(c, FRESH, [start]) == Limiter(start, 1)
  {
    assert Step(c, FRESH, start) == Limiter(start, 1);
  }

  lemma InstantGrants(c: Config)
    requires Limits(c)
    ensures Granted(c, After(c, FRESH, []), Repeat(1, Burst(c))) == Burst(c)
  {
    assert Step(c, FRESH, 1) == Limiter(1, 1);
    assert Repeat(1, Burst(c))[1..] == Repeat(1, Burst(c) - 1);
    RoomGrants(c, Limiter(1, 1), 1, Burst(c) - 1);
  }

  lemma BusyGrants(c: Config, start: I64, end: I64)
    requires Limits(c) && IntervalNs(c) >= 2 && start != 0 && end == start + IntervalNs(c) && end != 0
    ensures Granted(c, Limiter(start, 1), Repeat(end - 1, Burst(c) - 1) + Repeat(end, Burst(c))) == 2 * Burst(c) - 1
  {
    var burst := Burst(c);
    var first, full := Limiter(start, 1), Limiter(start, burst);
    RoomGrants(c, first, end - 1, burst - 1);
    GrantedConcat(c, first, Repeat(end - 1, burst - 1), Repeat(end, burst));
    assert Repeat(end, burst)[1..] == Repeat(end, burst - 1);
    SaturationIsHarmless(c, end, start);
    assert Step(c, full, end) == Limiter(end, 1);
    RoomGrants(c, Limiter(end, 1), end, burst - 1);
  }

  // ---- when there is a bound at all ----

  lemma {:induction false} GrantsAll(c: Config, l: Limiter, t: I64, n: nat)
    requires !Limits(c) || Burst(c) == U32_MAX || (t == 0 && l.window == 0)
    ensures Granted(c, l, Repeat(t, n)) == n
    decreases n
  {
    if n > 0 {
      assert Repeat(t, n)[1..] == Repeat(t, n - 1);
      GrantsAll(c, Step(c, l, t), t, n - 1);
    }
  }

  ghost predicate AtMost(c: Config, t: I64, bound: nat) {
    forall n: nat :: Granted(c, FRESH, Repeat(t, n)) <= bound
  }

  /** Restarts at one instant are bounded, by `burst`, exactly when a burst and an
      interval are set, the burst is not the largest counter value, at which the
      counter saturates, and the instant is not zero, which the limiter takes for
      "no window". */
  lemma BoundedIff(c: Config, t: I64)
    ensures (exists bound :: AtMost(c, t, bound)) <==> Limits(c) && Burst(c) < U32_MAX && t != 0
    ensures Limits(c) && Burst(c) < U32_MAX && t != 0 ==> AtMost(c, t, Burst(c))
  {
    if Limits(c) && Burst(c) < U32_MAX && t != 0 {
      forall n: nat
        ensures Granted(c, FRESH, Repeat(t, n)) <= Burst(c)
      {
        if n > 0 {
          assert Repeat(t, n)[1..] == Repeat(t, n - 1);
          WindowBound(c, Limiter(t, 1), Repeat(t, n - 1));
        }
      }
      assert AtMost(c, t, Burst(c));
    } else {
      forall bound: nat
        ensures !AtMost(c, t, bound)
      {
        GrantsAll(c, FRESH, t, bound + 1);
        assert Granted(c, FRESH, Repeat(t, bound + 1)) > bound;
      }
    }
  }
}
