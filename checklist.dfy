/** The data-quality checklist: eight checks over one batch of bars, each
    storing its own entry in the checker's `results`, the run over all of
    them, and the pass count of the report. */
module Checklist {
  import opened Bars
  import opened BarMetrics
  import opened Columns

  /** The entry a check stores under its key. Every entry carries `passed`;
      the other fields are the observed values and the thresholds used. */
  datatype CheckResult =
    | TimelinessResult(passed: bool, value: real, threshold: real)
    | AccuracyResult(passed: bool, value: real, threshold: real)
    | CompletenessResult(passed: bool, missing: seq<string>)
    | ConsistencyResult(passed: bool, timeMono: bool, priceOrder: bool)
    | ReliabilityResult(passed: bool, uptimePct: real, gaps: nat)
    | SecurityResult(passed: bool, tlsOk: bool)
    | ScalabilityResult(passed: bool, tps: real, threshold: real)
    | MonitoringResult(passed: bool, dashboard: string)

  /** The eight checks. */
  datatype Check =
    | Timeliness | Accuracy | Completeness | Consistency
    | Reliability | Security | Scalability | Monitoring

  /** The checks in the order `run_all_checks` lists them. */
  const Checks: seq<Check> :=
    [Timeliness, Accuracy, Completeness, Consistency, Reliability, Security, Scalability, Monitoring]

  /** The key of `results` each check writes. */
  function Key(c: Check): (k: string) {
    match c
    case Timeliness => "Timeliness"
    case Accuracy => "Accuracy"
    case Completeness => "Completeness"
    case Consistency => "Consistency"
    case Reliability => "Reliability"
    case Security => "Security"
    case Scalability => "Scalability"
    case Monitoring => "Monitoring"
  }

  /** All the keys the checks write. */
  const CheckKeys: set<string> :=
    {"Timeliness", "Accuracy", "Completeness", "Consistency",
     "Reliability", "Security", "Scalability", "Monitoring"}

  /** Where a check stands in `Checks`. */
  function Position(c: Check): (p: nat) {
    match c
    case Timeliness => 0
    case Accuracy => 1
    case Completeness => 2
    case Consistency => 3
    case Reliability => 4
    case Security => 5
    case Scalability => 6
    case Monitoring => 7
  }

  /** Every check is listed once, and the checks write eight distinct keys. */
  lemma ChecksListed()
    ensures forall c :: Position(c) < |Checks| && Checks[Position(c)] == c
    ensures forall i, j :: 0 <= i < j < |Checks| ==> Key(Checks[i]) != Key(Checks[j])
    ensures forall c :: Key(c) in CheckKeys
    ensures forall k :: k in CheckKeys ==> exists c :: Key(c) == k
    ensures |CheckKeys| == |Checks|
  {
    KeysCovered();
    CheckKeysCount();
  }

  /** Eight distinct key literals. */
  lemma CheckKeysCount()
    ensures |CheckKeys| == |Checks|
  {
  }

  /** Every key of the report belongs to some check. */
  lemma KeysCovered()
    ensures forall k :: k in CheckKeys ==> exists c :: Key(c) == k
  {
    forall k | k in CheckKeys ensures exists c :: Key(c) == k {
      if k == "Timeliness" { assert Key(Timeliness) == k; }
      else if k == "Accuracy" { assert Key(Accuracy) == k; }
      else if k == "Completeness" { assert Key(Completeness) == k; }
      else if k == "Consistency" { assert Key(Consistency) == k; }
      else if k == "Reliability" { assert Key(Reliability) == k; }
      else if k == "Security" { assert Key(Security) == k; }
      else if k == "Scalability" { assert Key(Scalability) == k; }
      else { assert Key(Monitoring) == k; }
    }
  }

  /** The check an entry belongs to. */
  function KindOf(r: CheckResult): (c: Check) {
    match r
    case TimelinessResult(_, _, _) => Timeliness
    case AccuracyResult(_, _, _) => Accuracy
    case CompletenessResult(_, _) => Completeness
    case ConsistencyResult(_, _, _) => Consistency
    case ReliabilityResult(_, _, _) => Reliability
    case SecurityResult(_, _) => Security
    case ScalabilityResult(_, _, _) => Scalability
    case MonitoringResult(_, _) => Monitoring
  }

  // Default thresholds and fixed values of the checks.
  const LatencyThresholdMs: real := 100.0
  const AccuracyThresholdPct: real := 99.9
  const UptimeThresholdPct: real := 99.99
  const MinTicksPerSec: real := 1.0
  const Dashboard: string := "http://localhost:8000"

  // ------------------------------------------------ what each check stores

  /** Timeliness looks at the latency of the last bar only. */
  function TimelinessOf(df: Frame, thresholdMs: real): (r: CheckResult)
    requires |df.bars| > 0
    ensures r.TimelinessResult? && r.threshold == thresholdMs
    ensures r.value == df.bars[|df.bars| - 1].latencyMs
    ensures r.passed <==> r.value <= thresholdMs
  {
    var latest := Last(df.bars).latencyMs;
    TimelinessResult(latest <= thresholdMs, latest, thresholdMs)
  }

  /** Two batches with the same last bar get the same timeliness entry. */
  lemma TimelinessLastBarOnly(df: Frame, other: Frame, thresholdMs: real)
    requires |df.bars| > 0 && |other.bars| > 0
    requires Last(df.bars) == Last(other.bars)
    ensures TimelinessOf(df, thresholdMs) == TimelinessOf(other, thresholdMs)
  {
  }

  function AccuracyOf(df: Frame): (r: CheckResult)
    requires |df.bars| > 0
    ensures r.AccuracyResult? && r.threshold == AccuracyThresholdPct
    ensures 0.0 <= r.value <= 100.0
    ensures r.value == 100.0 <==> forall i :: 0 <= i < |df.bars| ==> !NegativeSpread(df.bars[i])
    ensures r.passed <==> 1000 * NegativeSpreadCount(df.bars) <= |df.bars|
  {
    AccuracyThreshold(df.bars);
    var accuracy := AccuracyPct(df.bars);
    AccuracyResult(accuracy >= AccuracyThresholdPct, accuracy, AccuracyThresholdPct)
  }

  function CompletenessOf(df: Frame): (r: CheckResult)
    ensures r.CompletenessResult? && r.missing == MissingFields(df)
    ensures r.passed <==> Clean(df)
  {
    var missing := MissingFields(df);
    CompletenessResult(|missing| == 0, missing)
  }

  function ConsistencyOf(df: Frame): (r: CheckResult)
    ensures r.ConsistencyResult?
    ensures r.timeMono <==> SortedByTime(df.bars)
    ensures r.priceOrder <==> forall i :: 0 <= i < |df.bars| ==>
      df.bars[i].low <= df.bars[i].open <= df.bars[i].high &&
      df.bars[i].low <= df.bars[i].close <= df.bars[i].high
    ensures r.passed <==> r.timeMono && r.priceOrder
  {
    MonotonicIffSorted(df.bars);
    var timeMono := TimeMonotonic(df.bars);
    var priceOrder := PriceOrder(df.bars);
    ConsistencyResult(timeMono && priceOrder, timeMono, priceOrder)
  }

  function ReliabilityOf(df: Frame, uptimeThreshold: real): (r: CheckResult)
    requires |df.bars| > 0
    ensures r.ReliabilityResult? && r.gaps == GapCount(df.bars)
    ensures r.gaps <= |df.bars| - 1
    ensures 0.0 < r.uptimePct <= 100.0
    ensures r.uptimePct == 100.0 <==> forall i :: 0 < i < |df.bars| ==> !IsGap(df.bars[i - 1], df.bars[i])
    ensures r.passed <==> r.uptimePct >= uptimeThreshold
  {
    var uptime := UptimePct(df.bars);
    ReliabilityResult(uptime >= uptimeThreshold, uptime, GapCount(df.bars))
  }

  /** The security entry; its outcome is that of the TLS probe alone. */
  function SecurityOf(tlsOk: bool): (r: CheckResult)
    ensures r.SecurityResult? && r.tlsOk == tlsOk
    ensures r.passed == tlsOk
  {
    SecurityResult(tlsOk, tlsOk)
  }

  function ScalabilityOf(df: Frame, minTicksPerSec: real): (r: CheckResult)
    requires |df.bars| > 0
    ensures r.ScalabilityResult? && r.threshold == minTicksPerSec
    ensures 0.0 < r.tps <= |df.bars| as real
    ensures r.passed <==> |df.bars| as real >= minTicksPerSec * FlooredDuration(df.bars) as real
  {
    TpsThreshold(df.bars, minTicksPerSec);
    var tps := Tps(df.bars);
    ScalabilityResult(tps >= minTicksPerSec, tps, minTicksPerSec)
  }

  function MonitoringOf(): (r: CheckResult)
    ensures r.MonitoringResult? && r.passed
  {
    MonitoringResult(true, Dashboard)
  }

  /** When each check passes under its default thresholds, stated on the
      batch itself: the last bar is at most 100 ms old; at most one bar in a
      thousand has a negative spread; every required column is present and
      null-free; the bars are sorted by time and each bar's open and close
      lie within its low-high range; at most one step in ten thousand is a
      gap of more than 60 seconds; the TLS probe succeeded; the batch holds
      at least one bar per second of its (floored) span; monitoring always. */
  ghost predicate Requirement(c: Check, df: Frame, tlsOk: bool)
    requires |df.bars| > 0
  {
    match c
    case Timeliness => Last(df.bars).latencyMs <= 100.0
    case Accuracy => 1000 * NegativeSpreadCount(df.bars) <= |df.bars|
    case Completeness => Clean(df)
    case Consistency =>
      SortedByTime(df.bars) &&
      forall i :: 0 <= i < |df.bars| ==>
        df.bars[i].low <= df.bars[i].open <= df.bars[i].high &&
        df.bars[i].low <= df.bars[i].close <= df.bars[i].high
    case Reliability => 10000 * GapCount(df.bars) <= |df.bars|
    case Security => tlsOk
    case Scalability => |df.bars| >= FlooredDuration(df.bars)
    case Monitoring => true
  }

  /** The entry check `c` stores when run with its default thresholds;
      `tlsOk` is the outcome of the security check's TLS probe. */
  function Evaluate(c: Check, df: Frame, tlsOk: bool): (r: CheckResult)
    requires |df.bars| > 0
    ensures KindOf(r) == c
  {
    match c
    case Timeliness => TimelinessOf(df, LatencyThresholdMs)
    case Accuracy => AccuracyOf(df)
    case Completeness => CompletenessOf(df)
    case Consistency => ConsistencyOf(df)
    case Reliability => UptimeThreshold(df.bars); ReliabilityOf(df, UptimeThresholdPct)
    case Security => SecurityOf(tlsOk)
    case Scalability => ScalabilityOf(df, MinTicksPerSec)
    case Monitoring => MonitoringOf()
  }

  /** Each check, under its default thresholds, passes exactly when its
      requirement on the batch holds. */
  lemma EvaluateMeetsRequirement(c: Check, df: Frame, tlsOk: bool)
    requires |df.bars| > 0
    ensures Evaluate(c, df, tlsOk).passed <==> Requirement(c, df, tlsOk)
  {
    if c == Reliability {
      UptimeThreshold(df.bars);
    }
  }

  /** How many of `verdicts` are true, summed over the list in order. */
  function CountTrue(verdicts: seq<bool>): (k: nat)
    ensures k <= |verdicts|
    ensures k == |verdicts| <==> forall i :: 0 <= i < |verdicts| ==> verdicts[i]
  {
    if verdicts == [] then 0
    else
      var init := verdicts[..|verdicts| - 1];
      assert forall i :: 0 <= i < |init| ==> init[i] == verdicts[i];
      CountTrue(init) + (if verdicts[|verdicts| - 1] then 1 else 0)
  }

  /** The verdicts of the checks `cs`, in order. */
  function VerdictsOf(cs: seq<Check>, df: Frame, tlsOk: bool): (verdicts: seq<bool>)
    requires |df.bars| > 0
    ensures |verdicts| == |cs|
    ensures forall i :: 0 <= i < |cs| ==> verdicts[i] == Evaluate(cs[i], df, tlsOk).passed
  {
    seq(|cs|, i requires 0 <= i < |cs| => Evaluate(cs[i], df, tlsOk).passed)
  }

  /** How many of the checks `cs` pass, summed over the list in order. */
  function PassCount(cs: seq<Check>, df: Frame, tlsOk: bool): (k: nat)
    requires |df.bars| > 0
    ensures k <= |cs|
    ensures k == |cs| <==> forall i :: 0 <= i < |cs| ==> Evaluate(cs[i], df, tlsOk).passed
  {
    CountTrue(VerdictsOf(cs, df, tlsOk))
  }

  /** The count reaches eight exactly when every check's requirement holds. */
  lemma AllPassIff(df: Frame, tlsOk: bool)
    requires |df.bars| > 0
    ensures PassCount(Checks, df, tlsOk) == |Checks| <==> forall c :: Requirement(c, df, tlsOk)
  {
    ChecksListed();
    if PassCount(Checks, df, tlsOk) == |Checks| {
      forall c ensures Requirement(c, df, tlsOk) {
        assert Evaluate(Checks[Position(c)], df, tlsOk).passed;
        EvaluateMeetsRequirement(c, df, tlsOk);
      }
    } else {
      var i :| 0 <= i < |Checks| && !Evaluate(Checks[i], df, tlsOk).passed;
      EvaluateMeetsRequirement(Checks[i], df, tlsOk);
    }
  }

  /** The number of entries in `m` that passed, as `print_report` sums them. */
  function PassedKeys(m: map<string, CheckResult>): (passed: set<string>) {
    set k | k in m && m[k].passed
  }

  /** The overall verdict of the report is true exactly when the
      pass count equals the number of entries. */
  lemma {:induction false} AllPassedIffCountFull(m: map<string, CheckResult>)
    ensures PassedKeys(m) <= m.Keys && |PassedKeys(m)| <= |m|
    ensures (forall k :: k in m ==> m[k].passed) <==> |PassedKeys(m)| == |m|
  {
    var p := PassedKeys(m);
    SubsetCard(p, m.Keys);
    if exists k :: k in m && !m[k].passed {
      var k :| k in m && !m[k].passed;
      assert p <= m.Keys - {k};
      SubsetCard(p, m.Keys - {k});
    } else {
      assert p == m.Keys;
    }
  }

  lemma {:induction false} SubsetCard(a: set<string>, b: set<string>)
    requires a <= b
    ensures |a| <= |b|
  {
    assert b == a + (b - a);
  }

  /** A report over the entries of one full run: it has eight entries, and
      its verdict is the run's verdict. */
  lemma FullReportAgrees(m: map<string, CheckResult>, df: Frame, tlsOk: bool)
    requires |df.bars| > 0
    requires m.Keys == CheckKeys
    requires forall c :: m[Key(c)] == Evaluate(c, df, tlsOk)
    ensures |m| == |Checks|
    ensures (forall k :: k in m ==> m[k].passed) <==> PassCount(Checks, df, tlsOk) == |Checks|
  {
    ChecksListed();
    if forall k :: k in m ==> m[k].passed {
      forall i | 0 <= i < |Checks| ensures Evaluate(Checks[i], df, tlsOk).passed {
        assert m[Key(Checks[i])] == Evaluate(Checks[i], df, tlsOk);
      }
    } else {
      var k :| k in m && !m[k].passed;
      var c :| Key(c) == k;
      assert !Evaluate(Checks[Position(c)], df, tlsOk).passed;
    }
  }

  /** The entries after running the checks `cs` in order on `m`. */
  function Recorded(m: map<string, CheckResult>, cs: seq<Check>, df: Frame, tlsOk: bool): (after: map<string, CheckResult>)
    requires |df.bars| > 0
  {
    if cs == [] then m
    else Recorded(m, cs[..|cs| - 1], df, tlsOk)[Key(cs[|cs| - 1]) := Evaluate(cs[|cs| - 1], df, tlsOk)]
  }

  /** The keys the checks `cs` write. */
  function KeysOf(cs: seq<Check>): (ks: set<string>) {
    if cs == [] then {} else KeysOf(cs[..|cs| - 1]) + {Key(cs[|cs| - 1])}
  }

  /** Running checks adds exactly their keys. */
  lemma {:induction false} RecordedKeys(m: map<string, CheckResult>, cs: seq<Check>, df: Frame, tlsOk: bool)
    requires |df.bars| > 0
    ensures Recorded(m, cs, df, tlsOk).Keys == m.Keys + KeysOf(cs)
  {
    if cs != [] {
      RecordedKeys(m, cs[..|cs| - 1], df, tlsOk);
    }
  }

  /** When the keys of `cs` are distinct, each check's entry is the one it stored. */
  lemma {:induction false} RecordedAt(m: map<string, CheckResult>, cs: seq<Check>, df: Frame, tlsOk: bool, i: nat)
    requires |df.bars| > 0
    requires forall i, j :: 0 <= i < j < |cs| ==> Key(cs[i]) != Key(cs[j])
    requires i < |cs|
    ensures Key(cs[i]) in Recorded(m, cs, df, tlsOk)
    ensures Recorded(m, cs, df, tlsOk)[Key(cs[i])] == Evaluate(cs[i], df, tlsOk)
  {
    if i < |cs| - 1 {
      var init := cs[..|cs| - 1];
      assert init[i] == cs[i];
      RecordedAt(m, init, df, tlsOk, i);
    }
  }

  /** A key no check in `cs` writes keeps its entry. */
  lemma {:induction false} RecordedElsewhere(m: map<string, CheckResult>, cs: seq<Check>, df: Frame, tlsOk: bool, k: string)
    requires |df.bars| > 0
    requires k in m && k !in KeysOf(cs)
    ensures k in Recorded(m, cs, df, tlsOk) && Recorded(m, cs, df, tlsOk)[k] == m[k]
  {
    if cs != [] {
      RecordedElsewhere(m, cs[..|cs| - 1], df, tlsOk, k);
    }
  }

  /** The completeness check, the one that feeds the missing-fields counter,
      is the third in the list and appears there once. */
  lemma CompletenessListedOnce(i: nat)
    requires i < |Checks|
    ensures Checks[i] == Completeness <==> i == 2
  {
  }

  /** How much running the checks `cs` adds to the missing-fields counter. */
  function MissingAdded(cs: seq<Check>, missing: nat): (added: nat) {
    if cs == [] then 0
    else MissingAdded(cs[..|cs| - 1], missing) + (if cs[|cs| - 1] == Completeness then missing else 0)
  }

  /** Extending the run by the next check of the list extends each fold by
      that check's contribution. */
  lemma FoldsStep(start: map<string, CheckResult>, i: nat, df: Frame, tlsOk: bool, missing: nat)
    requires |df.bars| > 0 && i < |Checks|
    ensures PassCount(Checks[..i + 1], df, tlsOk)
      == PassCount(Checks[..i], df, tlsOk) + (if Evaluate(Checks[i], df, tlsOk).passed then 1 else 0)
    ensures Recorded(start, Checks[..i + 1], df, tlsOk)
      == Recorded(start, Checks[..i], df, tlsOk)[Key(Checks[i]) := Evaluate(Checks[i], df, tlsOk)]
    ensures MissingAdded(Checks[..i + 1], missing)
      == MissingAdded(Checks[..i], missing) + (if Checks[i] == Completeness then missing else 0)
  {
    var prefix := Checks[..i + 1];
    assert prefix[..|prefix| - 1] == Checks[..i] && prefix[|prefix| - 1] == Checks[i];
    PassCountStep(prefix, df, tlsOk);
    RecordedStep(start, prefix, df, tlsOk);
  }

  /** PassCount of a non-empty list, unfolded once. */
  lemma PassCountStep(cs: seq<Check>, df: Frame, tlsOk: bool)
    requires |df.bars| > 0 && cs != []
    ensures PassCount(cs, df, tlsOk)
      == PassCount(cs[..|cs| - 1], df, tlsOk) + (if Evaluate(cs[|cs| - 1], df, tlsOk).passed then 1 else 0)
  {
    var verdicts := VerdictsOf(cs, df, tlsOk);
    assert verdicts[..|verdicts| - 1] == VerdictsOf(cs[..|cs| - 1], df, tlsOk);
  }

  /** Recorded of a non-empty list, unfolded once. */
  lemma RecordedStep(start: map<string, CheckResult>, cs: seq<Check>, df: Frame, tlsOk: bool)
    requires |df.bars| > 0 && cs != []
    ensures Recorded(start, cs, df, tlsOk)
      == Recorded(start, cs[..|cs| - 1], df, tlsOk)[Key(cs[|cs| - 1]) := Evaluate(cs[|cs| - 1], df, tlsOk)]
  {
  }

  /** A full run feeds the counter once, with the number of missing fields. */
  lemma MissingAddedOnce(missing: nat)
    ensures MissingAdded(Checks, missing) == missing
  {
    var added := 0;
    for n := 0 to |Checks|
      invariant added == MissingAdded(Checks[..n], missing)
      invariant added == if n > 2 then missing else 0
    {
      assert Checks[..n + 1][..n] == Checks[..n];
      CompletenessListedOnce(n);
      added := added + if Checks[n] == Completeness then missing else 0;
    }
    assert Checks[..|Checks|] == Checks;
  }

  /** The checks of a full run write exactly the eight keys. */
  lemma KeysOfChecks()
    ensures KeysOf(Checks) == CheckKeys
  {
    var ks := KeysOf(Checks[..0]);
    assert ks == {};
    for n := 0 to |Checks|
      invariant ks == KeysOf(Checks[..n])
      invariant ks == set j | 0 <= j < n :: Key(Checks[j])
    {
      assert Checks[..n + 1][..n] == Checks[..n];
      ks := ks + {Key(Checks[n])};
    }
    assert Checks[..|Checks|] == Checks;
    ChecksListed();
    forall k | k in CheckKeys ensures k in ks {
      var c :| Key(c) == k;
      assert Checks[Position(c)] == c;
    }
  }

  /** A full run records all eight entries and touches no other key. */
  lemma RunAllRecordsEveryCheck(m: map<string, CheckResult>, after: map<string, CheckResult>, df: Frame, tlsOk: bool)
    requires |df.bars| > 0 && after == Recorded(m, Checks, df, tlsOk)
    ensures after.Keys == m.Keys + CheckKeys
    ensures forall c :: Key(c) in after && after[Key(c)] == Evaluate(c, df, tlsOk)
    ensures forall k :: k in m && k !in CheckKeys ==> k in after && after[k] == m[k]
  {
    ChecksListed();
    RecordedKeys(m, Checks, df, tlsOk);
    KeysOfChecks();
    forall c ensures Recorded(m, Checks, df, tlsOk)[Key(c)] == Evaluate(c, df, tlsOk) {
      RecordedAt(m, Checks, df, tlsOk, Position(c));
    }
    forall k | k in m && k !in CheckKeys ensures Recorded(m, Checks, df, tlsOk)[k] == m[k] {
      RecordedElsewhere(m, Checks, df, tlsOk, k);
    }
  }

  // ------------------------------------------------------------ the checker

  /** `DataQualityChecker`: its `results` dictionary, updated in place by each
      check, and the value of the missing-fields counter it feeds. */
  class DataQualityChecker {
    var results: map<string, CheckResult>
    ghost var missingCount: nat

    constructor ()
      ensures results == map[] && missingCount == 0
    {
      results := map[];
      missingCount := 0;
    }

    method CheckTimeliness(df: Frame, thresholdMs: real) returns (passed: bool)
      requires |df.bars| > 0
      modifies this
      ensures results == old(results)["Timeliness" := TimelinessOf(df, thresholdMs)]
      ensures passed == results["Timeliness"].passed
      ensures missingCount == old(missingCount)
    {
      var latest := df.bars[|df.bars| - 1].latencyMs;
      passed := latest <= thresholdMs;
      results := results["Timeliness" := TimelinessResult(passed, latest, thresholdMs)];
    }

    method CheckAccuracy(df: Frame) returns (passed: bool)
      requires |df.bars| > 0
      modifies this
      ensures results == old(results)["Accuracy" := AccuracyOf(df)]
      ensures passed == results["Accuracy"].passed
      ensures missingCount == old(missingCount)
    {
      var accuracy := AccuracyPct(df.bars);
      passed := accuracy >= AccuracyThresholdPct;
      results := results["Accuracy" := AccuracyResult(passed, accuracy, AccuracyThresholdPct)];
    }

    method CheckCompleteness(df: Frame) returns (passed: bool)
      modifies this
      ensures results == old(results)["Completeness" := CompletenessOf(df)]
      ensures passed == results["Completeness"].passed
      ensures missingCount == old(missingCount) + |MissingFields(df)|
    {
      var missing := MissingFields(df);
      passed := |missing| == 0;
      results := results["Completeness" := CompletenessResult(passed, missing)];
      if |missing| > 0 {
        missingCount := missingCount + |missing|;
      }
    }

    method CheckConsistency(df: Frame) returns (passed: bool)
      modifies this
      ensures results == old(results)["Consistency" := ConsistencyOf(df)]
      ensures passed == results["Consistency"].passed
      ensures missingCount == old(missingCount)
    {
      var timeMono := TimeMonotonic(df.bars);
      var priceOrder := PriceOrder(df.bars);
      passed := timeMono && priceOrder;
      results := results["Consistency" := ConsistencyResult(passed, timeMono, priceOrder)];
    }

    method CheckReliability(df: Frame, uptimeThreshold: real) returns (passed: bool)
      requires |df.bars| > 0
      modifies this
      ensures results == old(results)["Reliability" := ReliabilityOf(df, uptimeThreshold)]
      ensures passed == results["Reliability"].passed
      ensures missingCount == old(missingCount)
    {
      var gapCount := GapCount(df.bars);
      var uptimePct := UptimePct(df.bars);
      passed := uptimePct >= uptimeThreshold;
      results := results["Reliability" := ReliabilityResult(passed, uptimePct, gapCount)];
    }

    /** `tlsOk` is whether the TLS handshake with the broker's host succeeded. */
    method CheckSecurity(tlsOk: bool) returns (passed: bool)
      modifies this
      ensures results == old(results)["Security" := SecurityOf(tlsOk)]
      ensures passed == results["Security"].passed
      ensures missingCount == old(missingCount)
    {
      passed := tlsOk;
      results := results["Security" := SecurityResult(passed, passed)];
    }

    method CheckScalability(df: Frame, minTicksPerSec: real) returns (passed: bool)
      requires |df.bars| > 0
      modifies this
      ensures results == old(results)["Scalability" := ScalabilityOf(df, minTicksPerSec)]
      ensures passed == results["Scalability"].passed
      ensures missingCount == old(missingCount)
    {
      var tps := Tps(df.bars);
      passed := tps >= minTicksPerSec;
      results := results["Scalability" := ScalabilityResult(passed, tps, minTicksPerSec)];
    }

    method CheckMonitoring() returns (passed: bool)
      modifies this
      ensures results == old(results)["Monitoring" := MonitoringOf()]
      ensures passed
      ensures missingCount == old(missingCount)
    {
      passed := true;
      results := results["Monitoring" := MonitoringResult(passed, Dashboard)];
    }

    /** One element of the `checks` list, called with its default thresholds. */
    method RunCheck(c: Check, df: Frame, tlsOk: bool) returns (passed: bool)
      requires |df.bars| > 0
      modifies this
      ensures results == old(results)[Key(c) := Evaluate(c, df, tlsOk)]
      ensures passed == Evaluate(c, df, tlsOk).passed
      ensures missingCount == old(missingCount) + (if c == Completeness then |MissingFields(df)| else 0)
    {
      match c
      case Timeliness => passed := CheckTimeliness(df, LatencyThresholdMs);
      case Accuracy => passed := CheckAccuracy(df);
      case Completeness => passed := CheckCompleteness(df);
      case Consistency => passed := CheckConsistency(df);
      case Reliability => passed := CheckReliability(df, UptimeThresholdPct);
      case Security => passed := CheckSecurity(tlsOk);
      case Scalability => passed := CheckScalability(df, MinTicksPerSec);
      case Monitoring => passed := CheckMonitoring();
    }

    /** One turn of the run: the `i`-th check of the list, counted if it passed. */
    method RunStep(i: nat, df: Frame, tlsOk: bool, passedCount: nat, ghost start: map<string, CheckResult>, ghost counted: nat)
      returns (newCount: nat)
      requires |df.bars| > 0 && i < |Checks|
      requires passedCount == PassCount(Checks[..i], df, tlsOk)
      requires results == Recorded(start, Checks[..i], df, tlsOk)
      requires missingCount == counted + MissingAdded(Checks[..i], |MissingFields(df)|)
      modifies this
      ensures newCount == PassCount(Checks[..i + 1], df, tlsOk)
      ensures results == Recorded(start, Checks[..i + 1], df, tlsOk)
      ensures missingCount == counted + MissingAdded(Checks[..i + 1], |MissingFields(df)|)
    {
      var passed := RunCheck(Checks[i], df, tlsOk);
      newCount := passedCount + (if passed then 1 else 0);
      FoldsStep(start, i, df, tlsOk, |MissingFields(df)|);
    }

    /** The loop of the run: every check of the list in order, with no early
        exit, counting those that pass. */
    method RunChecks(df: Frame, tlsOk: bool) returns (passedCount: nat)
      requires |df.bars| > 0
      modifies this
      ensures passedCount == PassCount(Checks, df, tlsOk)
      ensures results == Recorded(old(results), Checks, df, tlsOk)
      ensures missingCount == old(missingCount) + MissingAdded(Checks, |MissingFields(df)|)
    {
      passedCount := 0;
      var i := 0;
      while i < |Checks|
        invariant 0 <= i <= |Checks|
        invariant passedCount == PassCount(Checks[..i], df, tlsOk)
        invariant results == Recorded(old(results), Checks[..i], df, tlsOk)
        invariant missingCount == old(missingCount) + MissingAdded(Checks[..i], |MissingFields(df)|)
      {
        passedCount := RunStep(i, df, tlsOk, passedCount, old(results), old(missingCount));
        i := i + 1;
      }
      assert Checks[..i] == Checks;
    }

    /** Runs every check in order, with no early exit, and reports whether
        all of them passed. */
    method RunAllChecks(df: Frame, tlsOk: bool) returns (allPassed: bool)
      requires |df.bars| > 0
      modifies this
      ensures allPassed <==> PassCount(Checks, df, tlsOk) == |Checks|
      ensures allPassed <==> forall c :: Requirement(c, df, tlsOk)
      ensures results.Keys == old(results).Keys + CheckKeys
      ensures forall c :: Key(c) in results && results[Key(c)] == Evaluate(c, df, tlsOk)
      ensures forall k :: k in old(results) && k !in CheckKeys ==> k in results && results[k] == old(results)[k]
      ensures missingCount == old(missingCount) + |MissingFields(df)|
    {
      var passedCount := RunChecks(df, tlsOk);
      AllPassIff(df, tlsOk);
      MissingAddedOnce(|MissingFields(df)|);
      RunAllRecordsEveryCheck(old(results), results, df, tlsOk);
      allPassed := passedCount == |Checks|;
    }

    /** `print_report`'s summary: whether every stored entry passed, and how
        many did. */
    method Report() returns (allPassed: bool, passedCount: nat)
      ensures allPassed <==> forall k :: k in results ==> results[k].passed
      ensures passedCount == |PassedKeys(results)| && passedCount <= |results|
      ensures allPassed <==> passedCount == |results|
    {
      allPassed, passedCount := true, 0;
      var pending := results.Keys;
      while pending != {}
        invariant pending <= results.Keys
        invariant allPassed <==> forall k :: k in results && k !in pending ==> results[k].passed
        invariant passedCount == |set k | k in results && k !in pending && results[k].passed|
        decreases pending
      {
        var k :| k in pending;
        ghost var before := set k' | k' in results && k' !in pending && results[k'].passed;
        if results[k].passed {
          passedCount := passedCount + 1;
          assert (set k' | k' in results && k' !in pending - {k} && results[k'].passed) == before + {k};
        } else {
          allPassed := false;
          assert (set k' | k' in results && k' !in pending - {k} && results[k'].passed) == before;
        }
        pending := pending - {k};
      }
      assert (set k | k in results && k !in pending && results[k].passed) == PassedKeys(results);
      AllPassedIffCountFull(results);
    }
  }

  // ------------------------------------------------- the call as written

  /** How a Python call ends: a returned value, a `TypeError`, or a
      `KeyError` naming a column. */
  datatype Call<T> = Returns(value: T) | RaisesTypeError | RaisesKeyError(column: string)

  /** The arguments each check method requires besides `self`: exactly one,
      the frame, for all but the monitoring check, which requires none. Any
      other parameters have defaults. */
  function ArgCount(c: Check): (n: nat)
    ensures n <= 1
    ensures n == 0 <==> c == Monitoring
  {
    if c == Monitoring then 0 else 1
  }

  /** The frame columns a check indexes by name, in the order it reads them.
      Timeliness reads `latency_ms`; accuracy reads `ask`, then `bid`;
      completeness's null scan reads every required column; consistency reads
      `time`, `high`, `open` and `close`, and reads `low` (with `open` and
      `close` again) only when the high comparison held on every row, since
      the `and` between the two comparisons short-circuits; reliability and
      scalability read `time`; security and monitoring read none. */
  function Lookups(c: Check, df: Frame): (cols: seq<string>)
    ensures forall col :: col in cols ==> col in Required || col in ExtraLookups
    ensures cols == [] <==> c == Security || c == Monitoring
  {
    match c
    case Timeliness => ["latency_ms"]
    case Accuracy => ["ask", "bid"]
    case Completeness => Required
    case Consistency =>
      ["time", "high", "open", "close"] + (if HighsOrdered(df.bars) then ["low", "open", "close"] else [])
    case Reliability => ["time"]
    case Security => []
    case Scalability => ["time"]
    case Monitoring => []
  }

  /** The columns the checks read besides the required ones: the latency
      column the fetch adds and the two quote columns. */
  const ExtraLookups: set<string> := {"latency_ms", "ask", "bid"}

  /** Calling a check with the frame as its one argument. A method that
      declares no parameter raises `TypeError`; otherwise the first column it
      indexes that the frame lacks raises `KeyError`, and a check whose
      lookups all succeed returns its verdict. */
  function CallWithFrame(c: Check, df: Frame, tlsOk: bool): (r: Call<bool>)
    requires |df.bars| > 0
    ensures r.RaisesTypeError? <==> ArgCount(c) == 0
    ensures r.RaisesKeyError? <==> ArgCount(c) == 1 && FirstAbsent(Lookups(c, df), df.columns).Some?
    ensures r.RaisesKeyError? ==> FirstAbsent(Lookups(c, df), df.columns) == Some(r.column)
    ensures r.Returns? ==> r.value == Evaluate(c, df, tlsOk).passed
  {
    if ArgCount(c) == 0 then RaisesTypeError
    else if c == Completeness then
      NullScanRaisesAtFirstAbsentName(Required, df);
      match MissingAsWritten(df)
      case KeyError(col) => RaisesKeyError(col)
      case Found(missing) =>
        AsWrittenAgreesWhenPresent(df);
        Returns(|missing| == 0)
    else
      match FirstAbsent(Lookups(c, df), df.columns)
      case Some(col) => RaisesKeyError(col)
      case None => Returns(Evaluate(c, df, tlsOk).passed)
  }

  /** Consistency on a frame without `low`: the column is indexed only when
      every high passed its comparison; otherwise the short-circuited `and`
      makes `price_order`, and so the verdict, false without raising. */
  lemma ConsistencyReadsLowLast(df: Frame, tlsOk: bool)
    requires |df.bars| > 0
    requires "time" in df.columns && "high" in df.columns && "open" in df.columns && "close" in df.columns
    requires "low" !in df.columns
    ensures CallWithFrame(Consistency, df, tlsOk)
      == if HighsOrdered(df.bars) then RaisesKeyError("low") else Returns(false)
  {
    var cols := Lookups(Consistency, df);
    if HighsOrdered(df.bars) {
      FirstAbsentIsFirst(cols, df.columns, 4);
    } else {
      var k :| 0 <= k < |df.bars| && df.bars[k].high < Max(df.bars[k].open, df.bars[k].close);
      assert !PriceOrdered(df.bars[k]);
    }
  }

  /** The generator sum over the outcomes of the calls, in order: the first
      exception ends it; otherwise it counts the calls that returned true. */
  function SumCalls(calls: seq<Call<bool>>): (r: Call<nat>)
    ensures r.Returns? <==> forall i :: 0 <= i < |calls| ==> calls[i].Returns?
    ensures r.Returns? ==> r.value <= |calls|
  {
    if calls == [] then Returns(0)
    else
      var init := calls[..|calls| - 1];
      assert forall i :: 0 <= i < |init| ==> init[i] == calls[i];
      match SumCalls(init)
      case RaisesTypeError => RaisesTypeError
      case RaisesKeyError(col) => RaisesKeyError(col)
      case Returns(k) =>
        match calls[|calls| - 1]
        case RaisesTypeError => RaisesTypeError
        case RaisesKeyError(col) => RaisesKeyError(col)
        case Returns(p) => Returns(k + if p then 1 else 0)
  }

  /** Once a prefix of the calls has raised, the sum ends with that exception. */
  lemma {:induction false} SumCallsStopsAtRaise(calls: seq<Call<bool>>, j: nat)
    requires j <= |calls| && !SumCalls(calls[..j]).Returns?
    ensures SumCalls(calls) == SumCalls(calls[..j])
    decreases |calls|
  {
    if j < |calls| {
      var init := calls[..|calls| - 1];
      assert init[..j] == calls[..j];
      SumCallsStopsAtRaise(init, j);
    } else {
      assert calls[..j] == calls;
    }
  }

  /** When every call before the `j`-th returns and the `j`-th raises, the
      sum ends with that exception. */
  lemma SumCallsFirstRaise(calls: seq<Call<bool>>, j: nat)
    requires j < |calls| && !calls[j].Returns?
    requires forall i :: 0 <= i < j ==> calls[i].Returns?
    ensures calls[j].RaisesTypeError? ==> SumCalls(calls) == RaisesTypeError
    ensures calls[j].RaisesKeyError? ==> SumCalls(calls) == RaisesKeyError(calls[j].column)
  {
    var prefix := calls[..j + 1];
    assert prefix[..|prefix| - 1] == calls[..j] && prefix[|prefix| - 1] == calls[j];
    assert SumCalls(calls[..j]).Returns?;
    SumCallsStopsAtRaise(calls, j + 1);
  }

  /** The outcomes of calling each check of `cs` with the frame, in order. */
  function CallsOf(cs: seq<Check>, df: Frame, tlsOk: bool): (calls: seq<Call<bool>>)
    requires |df.bars| > 0
    ensures |calls| == |cs|
    ensures forall i :: 0 <= i < |cs| ==> calls[i] == CallWithFrame(cs[i], df, tlsOk)
  {
    seq(|cs|, i requires 0 <= i < |cs| => CallWithFrame(cs[i], df, tlsOk))
  }

  /** The generator sum as written: it calls the checks in order, and the
      first exception ends the sum. */
  function SumAsWritten(cs: seq<Check>, df: Frame, tlsOk: bool): (r: Call<nat>)
    requires |df.bars| > 0
    ensures r.Returns? <==> forall i :: 0 <= i < |cs| ==> CallWithFrame(cs[i], df, tlsOk).Returns?
  {
    SumCalls(CallsOf(cs, df, tlsOk))
  }

  /** When the sum as written returns, its value is the pass count. */
  lemma {:induction false} SumAsWrittenCounts(cs: seq<Check>, df: Frame, tlsOk: bool)
    requires |df.bars| > 0
    ensures SumAsWritten(cs, df, tlsOk).Returns? ==> SumAsWritten(cs, df, tlsOk).value == PassCount(cs, df, tlsOk)
  {
    if cs != [] && SumAsWritten(cs, df, tlsOk).Returns? {
      var init := cs[..|cs| - 1];
      var calls := CallsOf(cs, df, tlsOk);
      assert calls[..|calls| - 1] == CallsOf(init, df, tlsOk);
      assert calls[|calls| - 1] == CallWithFrame(cs[|cs| - 1], df, tlsOk);
      SumAsWrittenCounts(init, df, tlsOk);
      PassCountStep(cs, df, tlsOk);
    }
  }

  /** Once a prefix of the list has raised, the sum ends with that exception. */
  lemma FirstRaiseEndsSum(cs: seq<Check>, df: Frame, tlsOk: bool, j: nat)
    requires |df.bars| > 0
    requires j <= |cs| && !SumAsWritten(cs[..j], df, tlsOk).Returns?
    ensures SumAsWritten(cs, df, tlsOk) == SumAsWritten(cs[..j], df, tlsOk)
  {
    var calls := CallsOf(cs, df, tlsOk);
    assert calls[..j] == CallsOf(cs[..j], df, tlsOk);
    SumCallsStopsAtRaise(calls, j);
  }

  /** The run over all checks as written. */
  function RunAllChecksAsWritten(df: Frame, tlsOk: bool): (r: Call<bool>)
    requires |df.bars| > 0
    ensures r.Returns? <==> forall i :: 0 <= i < |Checks| ==> CallWithFrame(Checks[i], df, tlsOk).Returns?
    ensures r.Returns? ==> (r.value <==> PassCount(Checks, df, tlsOk) == |Checks|)
  {
    SumAsWrittenCounts(Checks, df, tlsOk);
    match SumAsWritten(Checks, df, tlsOk)
    case RaisesTypeError => RaisesTypeError
    case RaisesKeyError(col) => RaisesKeyError(col)
    case Returns(k) => Returns(k == |Checks|)
  }

  /** When every check before the `j`-th returns and the `j`-th raises, the
      run ends with that exception. */
  lemma RunEndsAtFirstRaise(df: Frame, tlsOk: bool, j: nat)
    requires |df.bars| > 0 && j < |Checks|
    requires forall i :: 0 <= i < j ==> CallWithFrame(Checks[i], df, tlsOk).Returns?
    requires !CallWithFrame(Checks[j], df, tlsOk).Returns?
    ensures CallWithFrame(Checks[j], df, tlsOk).RaisesTypeError? ==> RunAllChecksAsWritten(df, tlsOk) == RaisesTypeError
    ensures CallWithFrame(Checks[j], df, tlsOk).RaisesKeyError? ==>
      RunAllChecksAsWritten(df, tlsOk) == RaisesKeyError(CallWithFrame(Checks[j], df, tlsOk).column)
  {
    SumCallsFirstRaise(CallsOf(Checks, df, tlsOk), j);
  }

  /** A check that takes the frame, on a frame holding every column it
      indexes, returns. */
  lemma CallReturns(c: Check, df: Frame, tlsOk: bool)
    requires |df.bars| > 0 && c != Monitoring
    requires forall col :: col in Lookups(c, df) ==> col in df.columns
    ensures CallWithFrame(c, df, tlsOk).Returns?
  {
  }

  /** The accuracy check indexes `ask` before `bid`. */
  lemma AccuracyRaises(df: Frame, tlsOk: bool)
    requires |df.bars| > 0 && ("ask" !in df.columns || "bid" !in df.columns)
    ensures CallWithFrame(Checks[1], df, tlsOk)
      == RaisesKeyError(if "ask" !in df.columns then "ask" else "bid")
  {
    assert Checks[1] == Accuracy && Lookups(Accuracy, df) == ["ask", "bid"];
  }

  /** With `latency_ms`, `ask` and `bid` present, the first two calls return. */
  lemma FirstTwoCallsReturn(df: Frame, tlsOk: bool)
    requires |df.bars| > 0 && ExtraLookups <= df.columns
    ensures forall i :: 0 <= i < 2 ==> CallWithFrame(Checks[i], df, tlsOk).Returns?
  {
    CallReturns(Timeliness, df, tlsOk);
    CallReturns(Accuracy, df, tlsOk);
  }

  /** The completeness check's null scan raises for the first absent
      required column. */
  lemma CompletenessRaises(df: Frame, tlsOk: bool)
    requires |df.bars| > 0 && !HasRequired(df)
    ensures CallWithFrame(Checks[2], df, tlsOk) == RaisesKeyError(MissingAsWritten(df).column)
  {
    assert Checks[2] == Completeness;
  }

  /** The first call indexes `latency_ms`. */
  lemma RaisesAtLatency(df: Frame, tlsOk: bool)
    requires |df.bars| > 0 && "latency_ms" !in df.columns
    ensures RunAllChecksAsWritten(df, tlsOk) == RaisesKeyError("latency_ms")
  {
    assert CallWithFrame(Timeliness, df, tlsOk) == RaisesKeyError("latency_ms");
    RunEndsAtFirstRaise(df, tlsOk, 0);
  }

  /** The second call indexes `ask`, then `bid`. */
  lemma RaisesAtQuotes(df: Frame, tlsOk: bool)
    requires |df.bars| > 0 && "latency_ms" in df.columns
    requires "ask" !in df.columns || "bid" !in df.columns
    ensures RunAllChecksAsWritten(df, tlsOk)
      == RaisesKeyError(if "ask" !in df.columns then "ask" else "bid")
  {
    CallReturns(Checks[0], df, tlsOk);
    AccuracyRaises(df, tlsOk);
    RunEndsAtFirstRaise(df, tlsOk, 1);
  }

  /** With the quote columns present, the third call's null scan raises for
      the first absent required column. */
  lemma RaisesAtRequired(df: Frame, tlsOk: bool)
    requires |df.bars| > 0 && ExtraLookups <= df.columns && !HasRequired(df)
    ensures RunAllChecksAsWritten(df, tlsOk) == RaisesKeyError(MissingAsWritten(df).column)
  {
    FirstTwoCallsReturn(df, tlsOk);
    CompletenessRaises(df, tlsOk);
    RunEndsAtFirstRaise(df, tlsOk, 2);
  }

  /** With every column the checks read present, the first seven calls
      return and the eighth raises `TypeError`. */
  lemma RaisesAtMonitoring(df: Frame, tlsOk: bool)
    requires |df.bars| > 0 && ExtraLookups <= df.columns && HasRequired(df)
    ensures RunAllChecksAsWritten(df, tlsOk) == RaisesTypeError
  {
    forall i | 0 <= i < 7 ensures CallWithFrame(Checks[i], df, tlsOk).Returns? {
      CallReturns(Checks[i], df, tlsOk);
    }
    RunEndsAtFirstRaise(df, tlsOk, 7);
  }

  /** As written, the run never returns a verdict. The first call indexes
      `latency_ms` and the second `ask` and `bid`, so a frame lacking one of
      them raises `KeyError` there. Past those, a frame lacking a required
      column raises `KeyError` for the first absent one at the third call
      (completeness); a frame with all of them reaches the eighth call
      (monitoring, handed the frame), which raises `TypeError`. */
  lemma RunAllChecksAsWrittenRaises(df: Frame, tlsOk: bool)
    requires |df.bars| > 0
    ensures !RunAllChecksAsWritten(df, tlsOk).Returns?
    ensures "latency_ms" !in df.columns ==> RunAllChecksAsWritten(df, tlsOk) == RaisesKeyError("latency_ms")
    ensures "latency_ms" in df.columns && "ask" !in df.columns ==>
      RunAllChecksAsWritten(df, tlsOk) == RaisesKeyError("ask")
    ensures "latency_ms" in df.columns && "ask" in df.columns && "bid" !in df.columns ==>
      RunAllChecksAsWritten(df, tlsOk) == RaisesKeyError("bid")
    ensures ExtraLookups <= df.columns && !HasRequired(df) ==>
      RunAllChecksAsWritten(df, tlsOk) == RaisesKeyError(MissingAsWritten(df).column)
    ensures ExtraLookups <= df.columns && HasRequired(df) ==>
      RunAllChecksAsWritten(df, tlsOk) == RaisesTypeError
  {
    if "latency_ms" !in df.columns {
      RaisesAtLatency(df, tlsOk);
    } else if "ask" !in df.columns || "bid" !in df.columns {
      RaisesAtQuotes(df, tlsOk);
    } else if !HasRequired(df) {
      RaisesAtRequired(df, tlsOk);
    } else {
      RaisesAtMonitoring(df, tlsOk);
    }
  }

  /** The columns of the frame the fetch builds: the eight fields of the
      MetaTrader 5 rates records plus the added `latency_ms`. */
  const FetchedColumns: set<string> :=
    {"time", "open", "high", "low", "close", "tick_volume", "spread", "real_volume", "latency_ms"}

  /** The frame the fetch builds has no quote columns, so, as written, the
      accuracy check raises `KeyError('ask')` and the run ends at its second
      call; where the quotes are absent, the intended accuracy check finds no
      negative spread and passes with 100. */
  lemma FetchedFrameRaisesAtAsk(df: Frame, tlsOk: bool)
    requires |df.bars| > 0 && df.columns == FetchedColumns
    ensures CallWithFrame(Accuracy, df, tlsOk) == RaisesKeyError("ask")
    ensures RunAllChecksAsWritten(df, tlsOk) == RaisesKeyError("ask")
    ensures (forall i :: 0 <= i < |df.bars| ==> df.bars[i].ask.None?) ==>
      AccuracyOf(df).value == 100.0 && AccuracyOf(df).passed
  {
    assert "ask" !in df.columns && "latency_ms" in df.columns;
    AccuracyRaises(df, tlsOk);
    assert Checks[1] == Accuracy;
    RaisesAtQuotes(df, tlsOk);
  }
}
