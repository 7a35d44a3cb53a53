/** The column computations behind the quality checks. In the source each is a
    vectorised pandas expression over the whole frame; here each is a function
    over the batch, with the facts the checks rely on proved about it. */
module BarMetrics {
  import opened Bars

  // ---------------------------------------------------------------- accuracy

  /** A bar whose quoted spread `ask - bid` is negative. A bar with either
      quote absent yields NaN, and `NaN < 0` is false, so it never counts. */
  predicate NegativeSpread(b: Bar) {
    b.bid.Some? && b.ask.Some? && b.ask.value - b.bid.value < 0.0
  }

  /** The number of bars with a negative quoted spread. */
  function NegativeSpreadCount(bars: seq<Bar>): (k: nat)
    ensures k <= |bars|
    ensures k == 0 <==> forall i :: 0 <= i < |bars| ==> !NegativeSpread(bars[i])
    ensures k == |bars| <==> forall i :: 0 <= i < |bars| ==> NegativeSpread(bars[i])
  {
    if bars == [] then 0
    else (if NegativeSpread(bars[0]) then 1 else 0) + NegativeSpreadCount(bars[1..])
  }

  /** For 0 <= k <= n and n > 0, the share k/n lies in [0, 1] and is 0 only for k = 0. */
  lemma ShareInUnit(k: nat, n: nat)
    requires k <= n && n > 0
    ensures 0.0 <= k as real / n as real <= 1.0
    ensures k as real / n as real == 0.0 <==> k == 0
    ensures k as real / n as real == 1.0 <==> k == n
  {
    var q := k as real / n as real;
    assert q * n as real == k as real;
  }

  /** The accuracy percentage: 100 less the share of bars with a negative
      spread, as a percentage of the batch. */
  function AccuracyPct(bars: seq<Bar>): (pct: real)
    requires |bars| > 0
    ensures 0.0 <= pct <= 100.0
    ensures pct == 100.0 <==> forall i :: 0 <= i < |bars| ==> !NegativeSpread(bars[i])
    ensures pct == 0.0 <==> forall i :: 0 <= i < |bars| ==> NegativeSpread(bars[i])
  {
    ShareInUnit(NegativeSpreadCount(bars), |bars|);
    100.0 - (NegativeSpreadCount(bars) as real / |bars| as real) * 100.0
  }

  /** The accuracy threshold 99.9 is met exactly when at most one bar in a
      thousand has a negative spread; so a batch of fewer than 1000 bars
      passes only when none has. */
  lemma AccuracyThreshold(bars: seq<Bar>)
    requires |bars| > 0
    ensures AccuracyPct(bars) >= 99.9 <==> 1000 * NegativeSpreadCount(bars) <= |bars|
    ensures |bars| < 1000 ==>
      (AccuracyPct(bars) >= 99.9 <==> forall i :: 0 <= i < |bars| ==> !NegativeSpread(bars[i]))
  {
    ShareThreshold(NegativeSpreadCount(bars), |bars|);
  }

  /** The arithmetic behind AccuracyThreshold: 100 - 100 k/n >= 99.9 iff 1000 k <= n. */
  lemma ShareThreshold(k: nat, n: nat)
    requires n > 0
    ensures 100.0 - (k as real / n as real) * 100.0 >= 99.9 <==> 1000 * k <= n
  {
    QuotientTimes(k as real, n as real);
    QuotientBound(k as real / n as real, k as real, n as real, 0.001);
    assert (1000 * k) as real == 1000.0 * k as real;
  }

  /** The arithmetic behind the uptime threshold: 100 (n - g)/n >= 99.99 iff 10000 g <= n. */
  lemma UptimeShareThreshold(g: nat, n: nat)
    requires g <= n && n > 0
    ensures ((n - g) as real / n as real) * 100.0 >= 99.99 <==> 10000 * g <= n
  {
    var a, b := (n - g) as real, n as real;
    QuotientTimes(a, b);
    QuotientBound(a / b, a, b, 0.9999);
    assert (10000 * g) as real == 10000.0 * g as real;
  }

  /** Dividing and multiplying back by a positive number is the identity. */
  lemma QuotientTimes(a: real, b: real)
    requires b > 0.0
    ensures (a / b) * b == a
  {
  }

  /** A quotient q of a by b > 0 lies below a bound t exactly when a lies
      below t * b. */
  lemma QuotientBound(q: real, a: real, b: real, t: real)
    requires b > 0.0 && q * b == a
    ensures q <= t <==> a <= t * b
    ensures t <= q <==> t * b <= a
  {
    ScaleByPositive(q, t, b);
    ScaleByPositive(t, q, b);
  }

  /** Multiplying both sides by a positive factor keeps an inequality. */
  lemma ScaleByPositive(x: real, y: real, c: real)
    requires c > 0.0
    ensures x <= y <==> x * c <= y * c
  {
    if x <= y {
      assert (y - x) * c >= 0.0;
    } else {
      assert (x - y) * c > 0.0;
    }
  }

  /** One negative spread among ten bars gives accuracy 90, which fails 99.9. */
  lemma OneInTenAccuracy(bars: seq<Bar>)
    requires |bars| == 10 && NegativeSpreadCount(bars) == 1
    ensures AccuracyPct(bars) == 90.0
    ensures AccuracyPct(bars) < 99.9
  {
  }

  // ------------------------------------------------------------- reliability

  /** A step between consecutive bars of more than 60 seconds. */
  predicate IsGap(prev: Bar, next: Bar) {
    next.time - prev.time > 60
  }

  /** The number of large gaps between consecutive bars. The
      first row's difference is NaT and a negative difference is not > 60, so
      neither the first row nor a step back in time counts. */
  function GapCount(bars: seq<Bar>): (g: nat)
    ensures |bars| > 0 ==> g <= |bars| - 1
    ensures g == 0 <==> forall i :: 0 < i < |bars| ==> !IsGap(bars[i - 1], bars[i])
  {
    if |bars| < 2 then 0
    else (if IsGap(bars[0], bars[1]) then 1 else 0) + GapCount(bars[1..])
  }

  /** The uptime percentage: the share of bars not preceded by a large gap,
      as a percentage of the batch. */
  function UptimePct(bars: seq<Bar>): (pct: real)
    requires |bars| > 0
    ensures 0.0 < pct <= 100.0
    ensures pct == 100.0 <==> GapCount(bars) == 0
  {
    ShareInUnit(|bars| - GapCount(bars), |bars|);
    ((|bars| - GapCount(bars)) as real / |bars| as real) * 100.0
  }

  /** With the default 99.99 threshold, reliability passes exactly when at
      most one step in ten thousand is a large gap; so a batch of fewer than
      10000 bars passes only when it has no large gap at all. */
  lemma UptimeThreshold(bars: seq<Bar>)
    requires |bars| > 0
    ensures UptimePct(bars) >= 99.99 <==> 10000 * GapCount(bars) <= |bars|
    ensures |bars| < 10000 ==> (UptimePct(bars) >= 99.99 <==> GapCount(bars) == 0)
  {
    var g, n := GapCount(bars), |bars|;
    var share := ((n - g) as real / n as real) * 100.0;
    assert UptimePct(bars) == share;
    UptimeShareThreshold(g, n);
    assert share >= 99.99 <==> 10000 * g <= n;
  }

  /** A hundred bars with one large gap have 99% uptime, below 99.99. */
  lemma OneGapInHundredUptime(bars: seq<Bar>)
    requires |bars| == 100 && GapCount(bars) == 1
    ensures UptimePct(bars) == 99.0
    ensures UptimePct(bars) < 99.99
  {
  }

  // ------------------------------------------------------------- consistency

  /** The frame's monotonic-time flag: each bar is no earlier than the
      one before it (pandas' check is not strict). */
  predicate TimeMonotonic(bars: seq<Bar>) {
    forall i :: 0 < i < |bars| ==> bars[i - 1].time <= bars[i].time
  }

  /** The whole batch is sorted by time: every earlier row is no later. */
  ghost predicate SortedByTime(bars: seq<Bar>) {
    forall i, j :: 0 <= i <= j < |bars| ==> bars[i].time <= bars[j].time
  }

  /** The adjacent-pairs check that pandas performs decides sortedness. */
  lemma {:induction false} MonotonicIffSorted(bars: seq<Bar>)
    ensures TimeMonotonic(bars) <==> SortedByTime(bars)
  {
    if TimeMonotonic(bars) && |bars| > 1 {
      MonotonicIffSorted(bars[1..]);
      assert SortedByTime(bars[1..]);
      forall i, j | 0 <= i <= j < |bars| ensures bars[i].time <= bars[j].time {
        if 0 < i {
          assert bars[i].time == bars[1..][i - 1].time && bars[j].time == bars[1..][j - 1].time;
        } else if 0 < j {
          assert bars[1].time <= bars[j].time by {
            assert bars[1].time == bars[1..][0].time && bars[j].time == bars[1..][j - 1].time;
          }
        }
      }
    }
  }

  /** The larger of two prices. */
  function Max(a: real, b: real): (m: real)
    ensures m >= a && m >= b && (m == a || m == b)
  {
    if a >= b then a else b
  }

  /** The smaller of two prices. */
  function Min(a: real, b: real): (m: real)
    ensures m <= a && m <= b && (m == a || m == b)
  {
    if a <= b then a else b
  }

  /** One bar's prices are ordered: the high is at least the larger of open
      and close, and the low at most the smaller. */
  predicate PriceOrdered(b: Bar) {
    b.high >= Max(b.open, b.close) && b.low <= Min(b.open, b.close)
  }

  /** The first of the two comparisons holds on every row: each high is at
      least the larger of open and close. */
  predicate HighsOrdered(bars: seq<Bar>) {
    forall i :: 0 <= i < |bars| ==> bars[i].high >= Max(bars[i].open, bars[i].close)
  }

  /** Both price comparisons hold on every row. */
  predicate PriceOrder(bars: seq<Bar>) {
    forall i :: 0 <= i < |bars| ==> PriceOrdered(bars[i])
  }

  /** A price-ordered bar has open and close inside its [low, high] range. */
  lemma PriceOrderedRange(b: Bar)
    requires PriceOrdered(b)
    ensures b.low <= b.open <= b.high && b.low <= b.close <= b.high
  {
  }

  // --------------------------------------------- time span and its relations

  /** The time from the first bar to the last, in seconds; negative when the
      batch is out of order. */
  function Duration(bars: seq<Bar>): (d: int)
    requires |bars| > 0
  {
    bars[|bars| - 1].time - bars[0].time
  }

  /** Time-ordered bars without a large gap span at most 60 seconds per step. */
  lemma {:induction false} NoGapsBoundSpan(bars: seq<Bar>)
    requires |bars| > 0 && TimeMonotonic(bars) && GapCount(bars) == 0
    ensures 0 <= Duration(bars) <= 60 * (|bars| - 1)
  {
    if |bars| > 1 {
      assert TimeMonotonic(bars[1..]);
      assert !IsGap(bars[0], bars[1]);
      NoGapsBoundSpan(bars[1..]);
    }
  }

  /** In time-ordered bars each large gap is longer than 60 seconds, so the
      gaps alone account for more than 60 seconds of the span each. */
  lemma {:induction false} GapsBoundedBySpan(bars: seq<Bar>)
    requires |bars| > 0 && TimeMonotonic(bars)
    ensures 61 * GapCount(bars) <= Duration(bars)
  {
    if |bars| > 1 {
      assert TimeMonotonic(bars[1..]);
      GapsBoundedBySpan(bars[1..]);
    }
  }

  // ------------------------------------------------------------- scalability

  /** The span floored at one second: the divisor of the throughput. */
  function FlooredDuration(bars: seq<Bar>): (d: int)
    requires |bars| > 0
    ensures d >= 1 && d >= Duration(bars)
    ensures d == Duration(bars) || d == 1
  {
    if Duration(bars) > 1 then Duration(bars) else 1
  }

  /** Throughput: bars per second of the floored span. It is defined for every non-empty
      batch, including one spanning zero or negative time, and never above
      the number of bars. */
  function Tps(bars: seq<Bar>): (tps: real)
    requires |bars| > 0
    ensures 0.0 < tps <= |bars| as real
    ensures tps == |bars| as real <==> Duration(bars) <= 1
  {
    var d := FlooredDuration(bars) as real;
    assert (|bars| as real / d) * d == |bars| as real;
    |bars| as real / d
  }

  /** The throughput meets a positive minimum exactly when the batch holds at
      least that many bars per (floored) second of span. */
  lemma TpsThreshold(bars: seq<Bar>, minTps: real)
    requires |bars| > 0
    ensures Tps(bars) >= minTps <==> |bars| as real >= minTps * FlooredDuration(bars) as real
  {
    var d := FlooredDuration(bars) as real;
    var t := Tps(bars);
    assert t * d == |bars| as real;
    if t >= minTps {
      assert t * d >= minTps * d;
    } else {
      assert t * d < minTps * d;
    }
  }
}
