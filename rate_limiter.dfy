/**
 * The adaptive rate limiter: a delay between requests that grows on 429 and
 * 5xx replies and shrinks after a full window of fast successes, a backoff
 * deadline set by 429 ("Too Many Requests", section 4 of RFC 6585), an error
 * counter and a bounded window of recent latencies. The clock is a parameter
 * ("now") and `wait` returns the time it would sleep instead of sleeping.
 */
module RateLimiting {
  import opened Wrappers

  /** The limits fixed at construction. */
  datatype Limits = Limits(minDelay: real, maxDelay: real, windowSize: nat)

  /** The mutable part of the limiter. */
  datatype LimiterState = LimiterState(
    currentDelay: real,
    errorCount: nat,
    backoffUntil: real,
    lastRequestTime: real,
    responseTimes: seq<real>)

  function MinReal(a: real, b: real): real { if a <= b then a else b }
  function MaxReal(a: real, b: real): real { if a >= b then a else b }

  function Pow2(n: nat): (r: nat)
    ensures r >= 1
  {
    if n == 0 then 1 else 2 * Pow2(n - 1)
  }

  function Sum(s: seq<real>): real {
    if s == [] then 0.0 else Sum(s[..|s| - 1]) + s[|s| - 1]
  }

  /** Python's `x or default` on a float argument: `None` and `0.0` fall back. */
  function OrDefault(arg: Option<real>, default: real): real {
    if arg.Some? && arg.value != 0.0 then arg.value else default
  }

  /** The state right after construction. */
  function InitialState(lim: Limits): (s: LimiterState)
    ensures s.currentDelay == lim.minDelay && s.errorCount == 0 && s.responseTimes == []
  {
    LimiterState(lim.minDelay, 0, 0.0, 0.0, [])
  }

  // ---------------------------------------------------------------------------
  // The latency window
  // ---------------------------------------------------------------------------

  /** `deque(maxlen=size).append(x)`: append, dropping the oldest entry when full. */
  function PushWindow(w: seq<real>, x: real, size: nat): (r: seq<real>)
    requires size >= 1 && |w| <= size
  {
    if |w| == size then w[1..] + [x] else w + [x]
  }

  /** The window keeps the newest `size` latencies, ending with the one just recorded. */
  lemma PushWindowKeepsLatest(w: seq<real>, x: real, size: nat)
    requires size >= 1 && |w| <= size
    ensures var r := PushWindow(w, x, size);
      |r| == (if |w| == size then size else |w| + 1)
      && r == (w + [x])[|w| + 1 - |r|..]
      && r[|r| - 1] == x
  {
    var r := PushWindow(w, x, size);
    var full := w + [x];
    if |w| == size {
      assert r == w[1..] + [x];
      assert full[1..] == w[1..] + [x];
    } else {
      assert r == full && full[0..] == full;
    }
  }

  // ---------------------------------------------------------------------------
  // Reactions to a response
  // ---------------------------------------------------------------------------

  /** `_handle_rate_limit` at time `now`. */
  function AfterRateLimit(s: LimiterState, lim: Limits, now: real): (r: LimiterState)
    ensures r.errorCount == s.errorCount + 1
    ensures r.backoffUntil == now + BackoffSeconds(r.errorCount) as real
    ensures r.currentDelay == MinReal(lim.maxDelay, 2.0 * s.currentDelay)
    ensures r.lastRequestTime == s.lastRequestTime && r.responseTimes == s.responseTimes
  {
    var count := s.errorCount + 1;
    s.(errorCount := count,
       backoffUntil := now + BackoffSeconds(count) as real,
       currentDelay := MinReal(lim.maxDelay, s.currentDelay * 2.0))
  }

  /** The backoff after the `count`-th consecutive error: `min(60, 2 ** count)` seconds. */
  function BackoffSeconds(count: nat): (b: nat)
    ensures 1 <= b <= 60
    ensures b == 60 || b == Pow2(count)
  {
    if Pow2(count) < 60 then Pow2(count) else 60
  }

  /** `_handle_error` (a 5xx reply). */
  function AfterError(s: LimiterState, lim: Limits): (r: LimiterState)
    ensures r.errorCount == s.errorCount + 1
    ensures r.currentDelay == MinReal(lim.maxDelay, 1.5 * s.currentDelay)
    ensures r.backoffUntil == s.backoffUntil && r.lastRequestTime == s.lastRequestTime
    ensures r.responseTimes == s.responseTimes
  {
    s.(errorCount := s.errorCount + 1, currentDelay := MinReal(lim.maxDelay, s.currentDelay * 1.5))
  }

  /** The speed-up condition of `_handle_success`, on the updated window and counter. */
  predicate SpeedUp(w: seq<real>, errorCount: nat, windowSize: nat) {
    |w| >= windowSize && |w| > 0 && Sum(w) / (|w| as real) < 1000.0 && errorCount == 0
  }

  /** `_handle_success(latency)`. */
  function AfterSuccess(s: LimiterState, lim: Limits, latency: real): (r: LimiterState)
    requires lim.windowSize >= 1 && |s.responseTimes| <= lim.windowSize
    ensures r.responseTimes == PushWindow(s.responseTimes, latency, lim.windowSize)
    ensures r.errorCount == if s.errorCount == 0 then 0 else s.errorCount - 1
    ensures r.currentDelay ==
      if SpeedUp(r.responseTimes, r.errorCount, lim.windowSize)
      then MaxReal(lim.minDelay, 0.9 * s.currentDelay) else s.currentDelay
    ensures r.backoffUntil == s.backoffUntil && r.lastRequestTime == s.lastRequestTime
  {
    var w := PushWindow(s.responseTimes, latency, lim.windowSize);
    var count := if s.errorCount >= 1 then s.errorCount - 1 else 0;
    var delay := if |w| >= lim.windowSize && Sum(w) / (|w| as real) < 1000.0 && count == 0
                 then MaxReal(lim.minDelay, s.currentDelay * 0.9) else s.currentDelay;
    s.(responseTimes := w, errorCount := count, currentDelay := delay)
  }

  /** `record_response(status, latency)` at time `now`. */
  function AfterResponse(s: LimiterState, lim: Limits, status: int, latency: real, now: real): LimiterState
    requires lim.windowSize >= 1 && |s.responseTimes| <= lim.windowSize
  {
    if status == 429 then AfterRateLimit(s, lim, now)
    else if status >= 500 then AfterError(s, lim)
    else if status < 400 then AfterSuccess(s, lim, latency)
    else s
  }

  /** The wait before the next request and the state that `wait()` leaves, at time `now`. */
  function WaitSpec(s: LimiterState, now: real): (LimiterState, real)
  {
    var waitTime :=
      if now < s.backoffUntil then s.backoffUntil - now
      else if now - s.lastRequestTime < s.currentDelay then s.currentDelay - (now - s.lastRequestTime)
      else 0.0;
    (s.(lastRequestTime := now + waitTime), waitTime)
  }

  /** `stats["avg_response_time"]`: the window mean, or 0 for an empty window. */
  function AverageResponseTime(w: seq<real>): real {
    if w == [] then 0.0 else Sum(w) / (|w| as real)
  }

  /** The three numbers of `stats`. */
  datatype LimiterStats = LimiterStats(currentDelay: real, errorCount: int, avgResponseTime: real)

  function StatsOf(s: LimiterState): (r: LimiterStats)
    ensures r.currentDelay == s.currentDelay && r.errorCount == s.errorCount
    ensures r.avgResponseTime == AverageResponseTime(s.responseTimes)
  {
    LimiterStats(s.currentDelay, s.errorCount, AverageResponseTime(s.responseTimes))
  }

  // ---------------------------------------------------------------------------
  // Properties
  // ---------------------------------------------------------------------------

  /** The invariant `record_response` keeps: the delay within its bounds and the window within its size. */
  predicate Bounded(s: LimiterState, lim: Limits) {
    lim.windowSize >= 1 && |s.responseTimes| <= lim.windowSize
    && (0.0 <= lim.minDelay <= lim.maxDelay ==> lim.minDelay <= s.currentDelay <= lim.maxDelay)
  }

  lemma InitialBounded(lim: Limits)
    requires lim.windowSize >= 1
    ensures Bounded(InitialState(lim), lim)
  {
  }

  lemma AfterResponseBounded(s: LimiterState, lim: Limits, status: int, latency: real, now: real)
    requires Bounded(s, lim)
    ensures Bounded(AfterResponse(s, lim, status, latency, now), lim)
  {
    if status == 429 {
      RateLimitBounded(s, lim, now);
    } else if status >= 500 {
      ErrorBounded(s, lim);
    } else if status < 400 {
      SuccessBounded(s, lim, latency);
    }
  }

  lemma RateLimitBounded(s: LimiterState, lim: Limits, now: real)
    requires Bounded(s, lim)
    ensures Bounded(AfterRateLimit(s, lim, now), lim)
  {
  }

  lemma ErrorBounded(s: LimiterState, lim: Limits)
    requires Bounded(s, lim)
    ensures Bounded(AfterError(s, lim), lim)
  {
  }

  lemma SuccessBounded(s: LimiterState, lim: Limits, latency: real)
    requires Bounded(s, lim)
    ensures Bounded(AfterSuccess(s, lim, latency), lim)
  {
    PushWindowKeepsLatest(s.responseTimes, latency, lim.windowSize);
  }

  /** A sequence of responses, each with its latency and the time it arrived. */
  datatype Event = Event(status: int, latency: real, now: real)

  function RecordAll(s: LimiterState, lim: Limits, events: seq<Event>): LimiterState
    requires Bounded(s, lim)
    decreases |events|
  {
    if events == [] then s
    else
      AfterResponseBounded(s, lim, events[0].status, events[0].latency, events[0].now);
      RecordAll(AfterResponse(s, lim, events[0].status, events[0].latency, events[0].now), lim, events[1..])
  }

  /** After any sequence of responses the delay stays within `[min_delay, max_delay]` and the window within its size. */
  lemma {:induction false} RecordAllBounded(s: LimiterState, lim: Limits, events: seq<Event>)
    requires Bounded(s, lim)
    ensures Bounded(RecordAll(s, lim, events), lim)
    decreases |events|
  {
    if events != [] {
      var e := events[0];
      AfterResponseBounded(s, lim, e.status, e.latency, e.now);
      RecordAllBounded(AfterResponse(s, lim, e.status, e.latency, e.now), lim, events[1..]);
    }
  }

  /** The bounds need a non-negative minimum: doubling a negative delay leaves the range. */
  lemma NegativeMinimumEscapes()
    ensures var lim := Limits(-1.0, 5.0, 10);
      !(lim.minDelay <= AfterResponse(InitialState(lim), lim, 429, 0.0, 0.0).currentDelay)
  {
  }

  /** Client errors other than 429 leave the limiter exactly as it was. */
  lemma ClientErrorIgnored(s: LimiterState, lim: Limits, status: int, latency: real, now: real)
    requires lim.windowSize >= 1 && |s.responseTimes| <= lim.windowSize
    requires 400 <= status < 500 && status != 429
    ensures AfterResponse(s, lim, status, latency, now) == s
  {
  }

  /** Two 429s in a row from a fresh limiter back off 2 and then 4 seconds from the time of each reply. */
  lemma TwoRateLimitsBackOff(lim: Limits, t1: real, t2: real)
    requires lim.windowSize >= 1
    ensures var s1 := AfterResponse(InitialState(lim), lim, 429, 0.0, t1);
      var s2 := AfterResponse(s1, lim, 429, 0.0, t2);
      s1.backoffUntil == t1 + 2.0 && s2.backoffUntil == t2 + 4.0 && s2.errorCount == 2
  {
    assert Pow2(1) == 2;
    assert Pow2(2) == 4;
  }

  /** The backoff doubles with each consecutive error until it reaches its 60-second cap, from the sixth error on. */
  lemma {:induction false} BackoffCapped(count: nat)
    ensures count >= 6 ==> BackoffSeconds(count) == 60
    ensures count <= 5 ==> BackoffSeconds(count) == Pow2(count) < 60
  {
    if count >= 6 {
      PowGrows(count);
    } else {
      assert Pow2(5) == 32;
      PowMonotone(count, 5);
    }
  }

  lemma {:induction false} PowGrows(n: nat)
    requires n >= 6
    ensures Pow2(n) >= 64
  {
    if n > 6 {
      PowGrows(n - 1);
    } else {
      assert Pow2(6) == 64;
    }
  }

  lemma {:induction false} PowMonotone(a: nat, b: nat)
    requires a <= b
    ensures Pow2(a) <= Pow2(b)
    decreases b - a
  {
    if a < b {
      PowMonotone(a, b - 1);
    }
  }

  /**
   * `wait()` never waits a negative time; the next request goes out no earlier
   * than the backoff deadline and, outside a backoff, no earlier than the
   * current delay after the previous one; and it waits no longer than one of
   * those two constraints demands.
   */
  lemma WaitRespectsLimits(s: LimiterState, now: real)
    ensures var (s', w) := WaitSpec(s, now);
      w >= 0.0
      && s'.lastRequestTime == now + w
      && now + w >= s.backoffUntil
      && (now >= s.backoffUntil ==> now + w >= s.lastRequestTime + s.currentDelay)
      && (w == 0.0 || now + w == s.backoffUntil || now + w == s.lastRequestTime + s.currentDelay)
      && s'.(lastRequestTime := s.lastRequestTime) == s
  {
  }

  /** The mean latency lies between the smallest and largest latency of the window. */
  lemma {:induction false} SumBounds(w: seq<real>, lo: real, hi: real)
    requires forall i :: 0 <= i < |w| ==> lo <= w[i] <= hi
    ensures (|w| as real) * lo <= Sum(w) <= (|w| as real) * hi
    decreases |w|
  {
    if w != [] {
      SumBounds(w[..|w| - 1], lo, hi);
    }
  }

  lemma AverageWithinLatencies(w: seq<real>, lo: real, hi: real)
    requires w != []
    requires forall i :: 0 <= i < |w| ==> lo <= w[i] <= hi
    ensures lo <= AverageResponseTime(w) <= hi
  {
    SumBounds(w, lo, hi);
    var n := |w| as real;
    var a := Sum(w) / n;
    assert Sum(w) == a * n;
  }

  // ---------------------------------------------------------------------------
  // The limiter object
  // ---------------------------------------------------------------------------

  class RateLimiter {
    const minDelay: real
    const maxDelay: real
    const windowSize: nat
    var currentDelay: real
    var errorCount: nat
    var lastRequestTime: real
    var backoffUntil: real
    var responseTimes: seq<real>

    function Lim(): Limits {
      Limits(minDelay, maxDelay, windowSize)
    }

    function State(): LimiterState
      reads this
    {
      LimiterState(currentDelay, errorCount, backoffUntil, lastRequestTime, responseTimes)
    }

    ghost predicate Valid()
      reads this
    {
      Bounded(State(), Lim())
    }

    /**
     * `RateLimiter(min_delay, max_delay, window_size)`; an absent or zero bound
     * falls back to the configured one. A window size below 1 is refused (see README).
     */
    constructor (minDelayArg: Option<real>, maxDelayArg: Option<real>, windowSize: nat,
                 configuredMin: real, configuredMax: real)
      requires windowSize >= 1
      ensures Valid()
      ensures minDelay == OrDefault(minDelayArg, configuredMin)
      ensures maxDelay == OrDefault(maxDelayArg, configuredMax)
      ensures this.windowSize == windowSize
      ensures State() == InitialState(Lim())
    {
      minDelay := OrDefault(minDelayArg, configuredMin);
      maxDelay := OrDefault(maxDelayArg, configuredMax);
      this.windowSize := windowSize;
      currentDelay := OrDefault(minDelayArg, configuredMin);
      errorCount := 0;
      lastRequestTime := 0.0;
      backoffUntil := 0.0;
      responseTimes := [];
    }

    /** `wait()` at time `now`: returns the time it sleeps and books the next request slot. */
    method Wait(now: real) returns (waitTime: real)
      requires Valid()
      modifies this
      ensures Valid()
      ensures (State(), waitTime) == WaitSpec(old(State()), now)
    {
      waitTime := 0.0;
      if now < backoffUntil {
        waitTime := backoffUntil - now;
      } else {
        var elapsed := now - lastRequestTime;
        if elapsed < currentDelay {
          waitTime := currentDelay - elapsed;
        }
      }
      lastRequestTime := now + waitTime;
    }

    /** `record_response(status, latency)` for a reply that arrived at time `now`. */
    method RecordResponse(status: int, latency: real, now: real)
      requires Valid()
      modifies this
      ensures Valid()
      ensures State() == AfterResponse(old(State()), Lim(), status, latency, now)
    {
      AfterResponseBounded(State(), Lim(), status, latency, now);
      if status == 429 {
        HandleRateLimit(now);
      } else if status >= 500 {
        HandleError();
      } else if status < 400 {
        HandleSuccess(latency);
      }
    }

    method HandleRateLimit(now: real)
      requires Valid()
      modifies this
      ensures State() == AfterRateLimit(old(State()), Lim(), now)
    {
      errorCount := errorCount + 1;
      var backoffTime := if Pow2(errorCount) < 60 then Pow2(errorCount) else 60;
      backoffUntil := now + backoffTime as real;
      currentDelay := MinReal(maxDelay, currentDelay * 2.0);
    }

    method HandleError()
      requires Valid()
      modifies this
      ensures State() == AfterError(old(State()), Lim())
    {
      errorCount := errorCount + 1;
      currentDelay := MinReal(maxDelay, currentDelay * 1.5);
    }

    method HandleSuccess(latency: real)
      requires Valid()
      modifies this
      ensures State() == AfterSuccess(old(State()), Lim(), latency)
    {
      responseTimes := PushWindow(responseTimes, latency, windowSize);
      errorCount := if errorCount >= 1 then errorCount - 1 else 0;
      if |responseTimes| >= windowSize {
        var avgTime := Sum(responseTimes) / (|responseTimes| as real);
        if avgTime < 1000.0 && errorCount == 0 {
          currentDelay := MaxReal(minDelay, currentDelay * 0.9);
        }
      }
    }

    /** The `stats` property. */
    function Stats(): (r: LimiterStats)
      reads this
      ensures r == StatsOf(State())
    {
      LimiterStats(currentDelay, errorCount, AverageResponseTime(responseTimes))
    }
  }
}
