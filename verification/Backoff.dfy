/** reconnectDelayLocked (src/wsclient.go) over the reals. */
module Backoff {

  const MIN_INTERVAL_MS := 250
  const MAX_DELAY_MS := 30000.0
  const JITTER_MS := 1000

  function Growth(n: nat): (g: real)
    ensures g >= 1.0
  {
    if n == 0 then 1.0 else 1.5 * Growth(n - 1)
  }

  function Interval(configuredMs: int): (ms: int)
    ensures ms >= MIN_INTERVAL_MS
  {
    if configuredMs < MIN_INTERVAL_MS then MIN_INTERVAL_MS else configuredMs
  }

  /** The interval after n increases by half. */
  function Grown(configuredMs: int, n: nat): real {
    Interval(configuredMs) as real * Growth(n)
  }

  /** The delay before jitter of the given attempt, in milliseconds. */
  function BaseDelay(configuredMs: int, attempt: nat): real
    requires attempt >= 1
  {
    var d := Grown(configuredMs, attempt - 1);
    if d <= MAX_DELAY_MS then d else MAX_DELAY_MS
  }

  /** With jitter, cut to whole milliseconds. */
  function Delay(configuredMs: int, attempt: nat, jitter: nat): int
    requires attempt >= 1 && jitter < JITTER_MS
  {
    (BaseDelay(configuredMs, attempt) + jitter as real).Floor
  }

  lemma ScaleMonotone(a: real, x: real, y: real)
    requires a >= 0.0 && x <= y
    ensures a * x <= a * y
  {
  }

  lemma {:induction false} GrowthMonotone(m: nat, n: nat)
    requires m <= n
    ensures Growth(m) <= Growth(n)
    decreases n
  {
    if m < n {
      GrowthMonotone(m, n - 1);
    }
  }

  lemma GrownMonotone(configuredMs: int, m: nat, n: nat)
    requires m <= n
    ensures Interval(configuredMs) as real <= Grown(configuredMs, m) <= Grown(configuredMs, n)
  {
    GrowthMonotone(m, n);
    var i := Interval(configuredMs) as real;
    ScaleMonotone(i, 1.0, Growth(m));
    ScaleMonotone(i, Growth(m), Growth(n));
  }

  lemma GrownNext(configuredMs: int, n: nat)
    ensures Grown(configuredMs, n + 1) == 1.5 * Grown(configuredMs, n)
  {
    var i, g := Interval(configuredMs) as real, Growth(n);
    assert Growth(n + 1) == 1.5 * g;
    assert i * (1.5 * g) == 1.5 * (i * g);
  }

  /** The delay before jitter never decreases from one attempt to the next. */
  lemma DelaysGrow(configuredMs: int, m: nat, n: nat)
    requires 1 <= m <= n
    ensures BaseDelay(configuredMs, m) <= BaseDelay(configuredMs, n)
  {
    GrownMonotone(configuredMs, m - 1, n - 1);
  }

  function Power(x: real, n: nat): real {
    if n == 0 then 1.0 else x * Power(x, n - 1)
  }

  lemma {:induction false} GrowthIsPower(n: nat)
    ensures Growth(n) == Power(1.5, n)
  {
    if n > 0 {
      GrowthIsPower(n - 1);
    }
  }

  lemma FloorOfSum(x: real, n: int)
    ensures (x + n as real).Floor == x.Floor + n
  {
    var f := x.Floor;
    assert (f + n) as real == f as real + n as real;
  }

  /** The wait is the configured interval, at least 250 ms, times 1.5 for each earlier attempt, at most 30 s, cut to
      whole milliseconds, plus the jitter. */
  lemma DelayIsExact(configuredMs: int, attempt: nat, jitter: nat)
    requires attempt >= 1 && jitter < 1000
    ensures var interval := if configuredMs < 250 then 250 else configuredMs;
            var d := interval as real * Power(1.5, attempt - 1);
            Delay(configuredMs, attempt, jitter) == (if d <= 30000.0 then d else 30000.0).Floor + jitter
  {
    GrowthIsPower(attempt - 1);
    FloorOfSum(BaseDelay(configuredMs, attempt), jitter);
  }

  /** Every wait is at least the interval, clamped from below to 250 ms and from above to 30 s, and under 31 s. */
  lemma DelayBounds(configuredMs: int, attempt: nat, jitter: nat)
    requires attempt >= 1 && jitter < 1000
    ensures var interval := if configuredMs < 250 then 250 else configuredMs;
            (if interval <= 30000 then interval else 30000) <= Delay(configuredMs, attempt, jitter) <= 30999
  {
    GrownMonotone(configuredMs, attempt - 1, attempt - 1);
  }

  lemma GrowthOfTwelve()
    ensures 120.0 <= Growth(12) && Growth(11) < 120.0
  {
    assert Growth(3) == 3.375;
    assert Growth(6) == 3.375 * 3.375 by { assert Growth(4) == 1.5 * 3.375; }
    assert Growth(9) == 3.375 * 3.375 * 3.375 by { assert Growth(7) == 1.5 * Growth(6); }
    assert Growth(11) == 2.25 * Growth(9) by { assert Growth(10) == 1.5 * Growth(9); }
  }

  /** From attempt 13 on the delay before jitter is 30 s for every configured interval; with the smallest interval it is
      not before. */
  lemma SaturatedFromThirteen(configuredMs: int, attempt: nat)
    requires attempt >= 1
    ensures attempt >= 13 ==> BaseDelay(configuredMs, attempt) == MAX_DELAY_MS
    ensures configuredMs <= MIN_INTERVAL_MS ==> (BaseDelay(configuredMs, attempt) == MAX_DELAY_MS <==> attempt >= 13)
  {
    GrowthOfTwelve();
    ScaleMonotone(Interval(configuredMs) as real, 120.0, Growth(12));
    if attempt >= 13 {
      GrownMonotone(configuredMs, 12, attempt - 1);
    } else {
      GrownMonotone(configuredMs, attempt - 1, 11);
    }
  }

  /** The waits of the first |jitters| attempts. */
  function TotalWait(configuredMs: int, jitters: seq<nat>): int
    requires forall k :: 0 <= k < |jitters| ==> jitters[k] < JITTER_MS
  {
    if jitters == [] then 0
    else TotalWait(configuredMs, jitters[..|jitters| - 1])
         + Delay(configuredMs, |jitters|, jitters[|jitters| - 1])
  }

  /** While unsaturated the waits grow like a geometric series: n of them last 2 * (I * 1.5^n - I) ms, less one
      millisecond each for truncation and plus at most 999 each for jitter. */
  lemma {:induction false} WaitsAreGeometric(configuredMs: int, jitters: seq<nat>)
    requires forall k :: 0 <= k < |jitters| ==> jitters[k] < JITTER_MS
    requires jitters != [] ==> Grown(configuredMs, |jitters| - 1) <= MAX_DELAY_MS
    ensures var n := |jitters|;
            var series := 2.0 * (Grown(configuredMs, n) - Interval(configuredMs) as real);
            series - n as real <= TotalWait(configuredMs, jitters) as real <= series + (999 * n) as real
    decreases |jitters|
  {
    if jitters != [] {
      var n := |jitters|;
      if n > 1 {
        GrownMonotone(configuredMs, n - 2, n - 1);
      }
      WaitsAreGeometric(configuredMs, jitters[..n - 1]);
      GrownNext(configuredMs, n - 1);
    }
  }
}
