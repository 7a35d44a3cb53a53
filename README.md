# Data quality checklist, modelled in Dafny

This project models the data-quality checklist that audits a batch of
MetaTrader 5 price bars. It also models the native tick validator that sits
beside the checklist.

`DataQualityChecker` runs eight checks over one batch: timeliness,
accuracy, completeness, consistency, reliability, security, scalability and
monitoring. Each check reaches a verdict, stores an entry under its own key
of the checker's `results` dictionary and returns the verdict. Timeliness,
accuracy, reliability and scalability compare a column-wise statistic with a
threshold. Completeness lists the missing fields, consistency checks time
order and price order, security takes the outcome of a TLS probe, and
monitoring always passes. `run_all_checks` is meant to run the
eight checks in order with no early exit and report whether all of them
passed. As written it never returns a verdict (see Findings). The model
keeps the intended run and models the one as written beside it.
`print_report` prints the overall verdict and the pass count.

`validate_tick` is exported from a C++ library. It accepts a tick whose bid
is positive, whose ask is above the bid and whose spread in points is
positive.

Layout:

- `bars.dfy` (`Bars`): a bar, and a frame made of its rows, its column names
  and the columns that hold a null.
- `bar_metrics.dfy` (`BarMetrics`): the statistics, written as functions
  over the batch:
  - the negative-spread count and the accuracy percentage;
  - the large-gap count and the uptime percentage;
  - time monotonicity and price order;
  - the floored duration and the throughput.

  Each threshold comparison is proved equivalent to a plain statement about
  the bars.
- `columns.dfy` (`Columns`): the completeness check's list of missing
  fields, both as written and as intended.
- `checklist.dfy` (`Checklist`): the entry each check stores, and the class
  `DataQualityChecker`. The class has the `results` map and the value of the
  missing-fields counter, with one method per check, the full run and the
  report summary. Beside it, the run as written: which columns each check
  indexes, where a lookup raises `KeyError`, and where the call to the
  monitoring check raises `TypeError`.
- `tick_validator.dfy` (`TickValidator`): `validate_tick` and its relation
  to the accuracy check.

Time is whole seconds since the epoch. Prices are reals. A null cell is an
absent `bid`/`ask` on a bar, or a column named in the frame's set of
columns that hold a null.

The model follows the code in these places:

- The completeness check's missing list is a list, not a set. It holds the
  required columns absent from the frame, then the required columns holding
  a null, each part in the order of the required list. As written, the
  first part is never returned non-empty, because the null scan raises
  first (see Findings). The model's checker computes the intended list.
- `run_all_checks` returns only the verdict. The entries stay in `results`.
- Time monotonicity is non-strict: equal timestamps are in order.

## Model

| member | source | states |
|---|---|---|
| BarMetrics.NegativeSpreadCount | Price_info/data_quality_validator.py:60-61 | The count is at most the batch size. It is 0 iff no bar has both quotes with `ask - bid < 0`, and equals the size iff every bar does. |
| BarMetrics.AccuracyPct | Price_info/data_quality_validator.py:62 | Accuracy lies in [0, 100]. It is 100 iff no bar has a negative spread, and 0 iff every bar has one. |
| BarMetrics.AccuracyThreshold | Price_info/data_quality_validator.py:62-63 | `accuracy >= 99.9` iff at most one bar in a thousand has a negative spread. A batch under 1000 bars passes iff none has. |
| BarMetrics.OneInTenAccuracy | Price_info/data_quality_validator.py:62-63 | One negative spread in ten bars gives accuracy 90, which fails the 99.9 threshold. |
| BarMetrics.GapCount | Price_info/data_quality_validator.py:89-90 | The gap count is at most n - 1. It is 0 iff no adjacent pair is more than 60 s apart. |
| BarMetrics.UptimePct | Price_info/data_quality_validator.py:91 | Uptime lies in (0, 100]. It is 100 iff there are no large gaps. |
| BarMetrics.UptimeThreshold | Price_info/data_quality_validator.py:87-92 | `uptime >= 99.99` iff 10000 * gaps <= n. A batch under 10000 bars passes iff it has no large gap. |
| BarMetrics.OneGapInHundredUptime | Price_info/data_quality_validator.py:91-92 | One gap in a hundred bars gives uptime 99, which fails 99.99. |
| BarMetrics.MonotonicIffSorted | Price_info/data_quality_validator.py:80 | The adjacent-pair non-decreasing check holds iff the whole batch is sorted by time. |
| BarMetrics.NoGapsBoundSpan | Price_info/data_quality_validator.py:89-90 | A time-ordered batch with no large gap spans between 0 and 60 * (n - 1) seconds. |
| BarMetrics.GapsBoundedBySpan | Price_info/data_quality_validator.py:89-90 | In a time-ordered batch, 61 * gaps is at most the span in seconds. |
| BarMetrics.FlooredDuration | Price_info/data_quality_validator.py:110-111 | The divisor is at least 1 and at least the span, and it is either the span or 1. |
| BarMetrics.Tps | Price_info/data_quality_validator.py:111 | Throughput is positive and at most n, including for a zero or negative span. It equals n iff the span is at most 1 s. |
| BarMetrics.TpsThreshold | Price_info/data_quality_validator.py:111-112 | `tps >= min` iff n >= min * max(span, 1). |
| Columns.Absent | Price_info/data_quality_validator.py:70 | The result is an order-preserving sub-list of the required names. It holds exactly those absent from the frame, and it is empty iff all are present. |
| Columns.Nulled | Price_info/data_quality_validator.py:71 | The result is an order-preserving sub-list holding exactly the present columns that hold a null. It is empty iff there are none. |
| Columns.AbsentNulledFit | Price_info/data_quality_validator.py:70-71 | The two lists have no name in common. Together they are no longer than the list of names, and for a duplicate-free list their concatenation names each column once. |
| Columns.MissingFields | Price_info/data_quality_validator.py:69-71 | Intended missing list: at most 8 names, each required and absent or null, each named once. It is empty iff the frame is clean. |
| Columns.MissingCount | Price_info/data_quality_validator.py:69-75 | The length of the missing list, by which the counter grows, is the number of required columns that are absent or hold a null. |
| Columns.DropOneColumn | Price_info/data_quality_validator.py:69-72 | Removing one required column from a clean frame makes the missing list exactly that column. |
| Columns.NullScanAsWritten | Price_info/data_quality_validator.py:71 | The null scan as written raises `KeyError` iff some listed column is absent, and the error names an absent column. |
| Columns.MissingAsWritten | Price_info/data_quality_validator.py:70-71 | The missing list as written raises iff a required column is absent, and it names an absent required column. |
| Columns.AsWrittenAgreesWhenPresent | Price_info/data_quality_validator.py:70-71 | With every required column present, the code's list equals the intended one, and the absent part is empty. |
| Columns.FirstAbsent | Price_info/data_quality_validator.py:71 | The result is absent iff every listed name is present. Otherwise it is a listed name missing from the frame, and every name before it is present. |
| Columns.NullScanRaisesAtFirstAbsentName | Price_info/data_quality_validator.py:71 | When the null scan raises, the column it names is the first absent one of the list. |
| Columns.NullScanRaisesAtFirstAbsent | Price_info/data_quality_validator.py:71 | The scan raises for the first absent column in list order. |
| Columns.MissingColumnRaises | Price_info/data_quality_validator.py:70-71 | A clean frame without `spread` raises `KeyError('spread')` as written. The intended list is `["spread"]`. |
| Checklist.ChecksListed | Price_info/data_quality_validator.py:123-132 | Each of the eight checks is listed once. Their eight keys are distinct and are exactly the report keys. |
| Checklist.TimelinessOf | Price_info/data_quality_validator.py:51-54 | The value is the last bar's latency, the threshold is the given one, and the check passes iff latency <= threshold. |
| Checklist.TimelinessLastBarOnly | Price_info/data_quality_validator.py:52-53 | Batches with the same last bar get the same timeliness entry. |
| Checklist.AccuracyOf | Price_info/data_quality_validator.py:58-64 | The threshold is 99.9 and the value lies in [0, 100]. The value is 100 iff no negative spread. The check passes iff 1000 * invalid <= n. |
| Checklist.CompletenessOf | Price_info/data_quality_validator.py:68-73 | The stored list is the missing list, and the check passes iff the frame is clean. |
| Checklist.ConsistencyOf | Price_info/data_quality_validator.py:78-84 | `time_mono` iff sorted by time. `price_order` iff every bar has open and close within [low, high]. The check passes iff both hold. |
| Checklist.ReliabilityOf | Price_info/data_quality_validator.py:87-93 | The stored gaps are the gap count, at most n - 1. Uptime lies in (0, 100] and is 100 iff there are no gaps. The check passes iff uptime >= threshold. |
| Checklist.SecurityOf | Price_info/data_quality_validator.py:99-106 | The verdict and the stored `tls_ok` are both the outcome of the TLS probe. |
| Checklist.ScalabilityOf | Price_info/data_quality_validator.py:109-113 | The threshold is the given minimum, and 0 < tps <= n. The check passes iff n >= min * max(span, 1). |
| Checklist.MonitoringOf | Price_info/data_quality_validator.py:116-119 | Monitoring always passes. |
| Checklist.Evaluate | Price_info/data_quality_validator.py:122-133 | Each check under its default thresholds stores its own kind of entry. |
| Checklist.EvaluateMeetsRequirement | Price_info/data_quality_validator.py:51-119 | Each check passes iff its requirement, stated on the batch itself, holds. |
| Checklist.CountTrue | Price_info/data_quality_validator.py:133 | The number of true verdicts is at most the number of verdicts, and equals it iff every verdict is true. |
| Checklist.PassCount | Price_info/data_quality_validator.py:133 | The pass count is at most the number of checks, and it is full iff every check passed. |
| Checklist.PassCountStep | Price_info/data_quality_validator.py:133 | Adding one check to the list adds one to the pass count iff that check passes. |
| Checklist.AllPassIff | Price_info/data_quality_validator.py:133-135 | The count reaches 8 iff all eight requirements hold. |
| Checklist.AllPassedIffCountFull | Price_info/data_quality_validator.py:141-142 | The passed keys are a subset of the entries. All entries pass iff the passed count equals the number of entries. |
| Checklist.FullReportAgrees | Price_info/data_quality_validator.py:133-142 | On the entries of a full run, the report has 8 entries. Its verdict equals the run's verdict. |
| Checklist.RecordedKeys | Price_info/data_quality_validator.py:133 | Running a list of checks adds exactly their keys to the map. |
| Checklist.RecordedAt | Price_info/data_quality_validator.py:133 | When the checks have distinct keys, each check's key holds its own entry after the run. |
| Checklist.RecordedElsewhere | Price_info/data_quality_validator.py:133 | An entry under a key that no check writes is kept. |
| Checklist.MissingAddedOnce | Price_info/data_quality_validator.py:74-75 | One full run feeds the missing-fields counter once, with the number of missing fields. |
| Checklist.KeysOfChecks | Price_info/data_quality_validator.py:123-133 | The checks of a full run write exactly the eight report keys. |
| Checklist.RunAllRecordsEveryCheck | Price_info/data_quality_validator.py:122-133 | After a full run, the keys are the old ones plus the eight, each check's key holds its entry, and other keys are unchanged. |
| Checklist.DataQualityChecker.constructor | Price_info/data_quality_validator.py:42-43 | Both the results and the counter start empty. |
| Checklist.DataQualityChecker.CheckTimeliness | Price_info/data_quality_validator.py:51-56 | Only the `Timeliness` key is written, with the timeliness entry. The return value equals the stored verdict, and the counter is unchanged. |
| Checklist.DataQualityChecker.CheckAccuracy | Price_info/data_quality_validator.py:58-66 | Only the `Accuracy` key is written. The return value equals the stored verdict, and the counter is unchanged. |
| Checklist.DataQualityChecker.CheckCompleteness | Price_info/data_quality_validator.py:68-76 | Only the `Completeness` key is written. The return value equals the stored verdict, and the counter grows by exactly the number of missing fields. |
| Checklist.DataQualityChecker.CheckConsistency | Price_info/data_quality_validator.py:78-85 | Only the `Consistency` key is written, with both sub-flags. The return value equals the stored verdict. |
| Checklist.DataQualityChecker.CheckReliability | Price_info/data_quality_validator.py:87-94 | Only the `Reliability` key is written. The return value equals the stored verdict. |
| Checklist.DataQualityChecker.CheckSecurity | Price_info/data_quality_validator.py:96-107 | Only the `Security` key is written. The verdict is the TLS probe's outcome. |
| Checklist.DataQualityChecker.CheckScalability | Price_info/data_quality_validator.py:109-114 | Only the `Scalability` key is written. The return value equals the stored verdict. |
| Checklist.DataQualityChecker.CheckMonitoring | Price_info/data_quality_validator.py:116-120 | Only the `Monitoring` key is written. It always returns true. |
| Checklist.DataQualityChecker.RunCheck | Price_info/data_quality_validator.py:123-133 | One element of the check list writes its own key, returns its verdict, and feeds the counter only for completeness. |
| Checklist.DataQualityChecker.RunStep | Price_info/data_quality_validator.py:133 | One turn of the generator extends the pass count, the entries and the counter by the next check. |
| Checklist.DataQualityChecker.RunChecks | Price_info/data_quality_validator.py:123-133 | The loop over the eight checks, with no early exit: the pass count, every check's entry, the other keys kept, and the counter fed as completeness runs. |
| Checklist.DataQualityChecker.RunAllChecks | Price_info/data_quality_validator.py:122-135 | All eight checks run, and the verdict is true iff the count is 8 iff every requirement holds. Every check's entry is recorded, other keys are kept, and the counter grows by the missing-field count. |
| Checklist.DataQualityChecker.Report | Price_info/data_quality_validator.py:137-142 | `all_passed` iff every entry passed iff the passed count equals the number of entries. The passed count is at most that number. |
| Checklist.ArgCount | Price_info/data_quality_validator.py:116-133 | Every check method requires exactly one argument besides `self`, the frame; any others have defaults (lines 51, 58, 87, 109). `check_monitoring` requires none. |
| Checklist.Lookups | Price_info/data_quality_validator.py:52-110 | The columns a check indexes, in reading order, are required columns or `latency_ms`, `ask` and `bid`. The list is empty exactly for the security and monitoring checks, which index no column. |
| Checklist.CallWithFrame | Price_info/data_quality_validator.py:52-133 | Calling a check with the frame raises `TypeError` iff the method takes no frame (monitoring). Otherwise it raises `KeyError` iff a column the check indexes is absent, naming the first such column in the order the check reads them: `latency_ms` (line 52); `ask` then `bid` (line 60); the required columns (line 71); `time`, `high`, `open`, `close`, then `low` (lines 80-82); `time` (lines 89, 110). When every lookup succeeds it returns that check's verdict. |
| Checklist.ConsistencyReadsLowLast | Price_info/data_quality_validator.py:81-82 | On a frame without `low`, the consistency call raises `KeyError('low')` iff every high passed its comparison. Otherwise the short-circuited `and` gives the verdict false without raising. |
| Checklist.SumCalls | Price_info/data_quality_validator.py:133 | The generator sum over call outcomes returns iff every call returns, and its value is then at most the number of calls. |
| Checklist.SumCallsStopsAtRaise | Price_info/data_quality_validator.py:133 | Once a prefix of the calls raises, the whole sum ends with that exception. |
| Checklist.SumCallsFirstRaise | Price_info/data_quality_validator.py:133 | When the calls before one all return and that one raises, the sum raises the same `TypeError` or `KeyError`. |
| Checklist.SumAsWritten | Price_info/data_quality_validator.py:133 | The sum as written returns iff every call with the frame returns. |
| Checklist.SumAsWrittenCounts | Price_info/data_quality_validator.py:133 | When the sum as written returns, it equals the pass count. |
| Checklist.FirstRaiseEndsSum | Price_info/data_quality_validator.py:133 | Once a call raises, the sum ends with that exception; later checks never run. |
| Checklist.RunAllChecksAsWritten | Price_info/data_quality_validator.py:122-135 | As written, the run returns iff every call with the frame returns. When it returns, it is true iff all passed. |
| Checklist.RunEndsAtFirstRaise | Price_info/data_quality_validator.py:122-133 | When the checks before one all return and that one raises, the run raises the same exception. |
| Checklist.CallReturns | Price_info/data_quality_validator.py:51-114 | A check that takes the frame returns when every column it indexes is present. |
| Checklist.AccuracyRaises | Price_info/data_quality_validator.py:60 | Without `ask` or `bid`, the accuracy call raises `KeyError` for `ask` if it is absent and otherwise for `bid`. |
| Checklist.FirstTwoCallsReturn | Price_info/data_quality_validator.py:51-64 | With `latency_ms`, `ask` and `bid` present, the timeliness and accuracy calls return. |
| Checklist.CompletenessRaises | Price_info/data_quality_validator.py:70-71 | Without some required column, the completeness call raises `KeyError` for the column the null scan names. |
| Checklist.RaisesAtLatency | Price_info/data_quality_validator.py:52 | On a frame without `latency_ms`, the run raises `KeyError('latency_ms')` at the first call. |
| Checklist.RaisesAtQuotes | Price_info/data_quality_validator.py:60 | On a frame with `latency_ms` but without `ask` or `bid`, the run raises `KeyError` at the second call, for `ask` if it is absent and otherwise for `bid`. |
| Checklist.RaisesAtRequired | Price_info/data_quality_validator.py:71 | On a frame with `latency_ms`, `ask` and `bid` but lacking a required column, the run raises `KeyError` at the third call, naming the column the null scan names. |
| Checklist.RaisesAtMonitoring | Price_info/data_quality_validator.py:116-133 | On a frame with every column the checks read, the first seven calls return and the eighth raises `TypeError`. |
| Checklist.RunAllChecksAsWrittenRaises | Price_info/data_quality_validator.py:122-135 | As written, the run never returns. It raises `KeyError` for `latency_ms`, then `ask`, then `bid` when absent. With those present, it raises `KeyError` for the first absent required column at the completeness call. With every required column too, it raises `TypeError` at the monitoring call. |
| Checklist.FetchedFrameRaisesAtAsk | Price_info/data_quality_validator.py:58-60 | The frame the fetch builds has the eight rates columns and `latency_ms` only. On it the accuracy call raises `KeyError('ask')`, and so does the whole run. Where no bar has a quote, the intended accuracy entry is 100 and passes. |
| TickValidator.ValidateTick | DLL/Source/data_validator.cpp:4-6 | An accepted tick has a positive ask and a positive quoted spread. A tick with a non-positive spread, equal quotes or a non-positive bid is rejected. |
| TickValidator.AcceptedExactly | DLL/Source/data_validator.cpp:5 | A tick is accepted iff bid > 0, ask - bid > 0 and spread > 0. |
| TickValidator.TimeIgnored | DLL/Source/data_validator.cpp:4-5 | The verdict does not depend on the `time` argument. |
| TickValidator.NegativeSpreadRejected | DLL/Source/data_validator.cpp:5 | A bar that the accuracy check counts as invalid is rejected by the validator. |
| TickValidator.ValidTicksKeepAccuracy | DLL/Source/data_validator.cpp:5 | A batch whose quotes all pass the validator has no negative spread and accuracy 100. |

## Left out

- `initialize_mt5`, `collect_realtime_data` and the `__main__` block (Price_info/data_quality_validator.py:17-38, 153-169) are broker-session and data-fetch I/O. The per-bar latency reads the wall clock, so it is given data on each bar.
- The Prometheus gauges, `start_http_server` and the `.set` calls are not modelled. They are an external metrics sink. The `.inc` of the missing-fields counter is modelled as the ghost field `missingCount`.
- Checklist.DataQualityChecker.CheckSecurity: the SHA-256 integrity hash and its stored prefix are not modelled. The TLS handshake with the broker's host is network I/O, so its outcome is the parameter `tlsOk`.
- Checklist.DataQualityChecker.Report: only the overall verdict and the pass count are modelled. The printed banner, the fixed `/8` denominator and the per-entry lines in insertion order are left out. `results` is a map, so insertion order is not kept.
- The `tolerance` parameter of `check_accuracy` is never read, so it is omitted.
- Checklist.AccuracyOf and Checklist.DataQualityChecker.CheckAccuracy read the quotes of each bar, which may be absent, and never look at the frame's column set. A batch whose bars carry no quotes gets accuracy 100 (Checklist.FetchedFrameRaisesAtAsk). On a frame without `ask` or `bid` columns the source raises `KeyError` instead; that behaviour is modelled by Checklist.CallWithFrame (see Findings).
- Checklist.CallWithFrame: the `KeyError` of the list lookup of `open` and `close` (line 81) names the first absent one of the two. Pandas' message names every absent column of the list; only which lookup raises is modelled.
- An empty batch makes the checks raise `IndexError` or divide by zero. The checks that read rows require a non-empty batch; the fetch only builds non-empty frames.
- IEEE doubles and NaN are not modelled. Prices are reals, times are whole seconds, and an absent quote stands for NaN, so comparisons with it are false. `validate_tick` takes reals, so a NaN argument is not modelled.
- Checklist.ScalabilityOf: the span is in whole seconds, so a sub-second span is not modelled.
- `DllMain` (DLL/Source/data_validator.cpp:8-10) is Windows loader glue.
- Checklist.DataQualityChecker.RunAllChecks calls `check_monitoring` without the frame, as the intended behaviour. The as-written call is modelled separately; see Findings.
- Checklist.CompletenessOf, Checklist.DataQualityChecker.CheckCompleteness and Checklist.DataQualityChecker.RunAllChecks (through Checklist.Evaluate) return the intended missing list on a frame lacking a required column, and CheckCompleteness grows the counter by its length. There the source raises `KeyError` at Price_info/data_quality_validator.py:71. The raising behaviour is modelled by Columns.MissingAsWritten and Checklist.CallWithFrame, not by the class.
- Checklist.Evaluate and the methods of Checklist.DataQualityChecker return a verdict on a frame lacking any column a check indexes (`latency_ms`, `ask`, `bid` or a required column). There the source raises `KeyError` at Price_info/data_quality_validator.py:52, 60, 71, 80-82, 89 or 110. The raising behaviour is modelled by Checklist.CallWithFrame and Checklist.RunAllChecksAsWritten, not by the class.

## Findings

| source | as written | input that shows it | evidently intended | confidence | as-written member | corrected member |
|---|---|---|---|---|---|---|
| Price_info/data_quality_validator.py:71 | The null scan indexes `df[col]` for every required column, including those the previous line found absent, so it raises `KeyError`. | A frame that is clean except that it has no `spread` column. | The check fails and stores `missing == ["spread"]`. | high; not executed | Columns.MissingColumnRaises | Columns.DropOneColumn |
| Price_info/data_quality_validator.py:133 | `check(df)` passes the frame to `check_monitoring`, which declares no parameter besides `self`, so the sum raises `TypeError` after the seven other checks have run. | A non-empty batch whose frame has every required column and also `latency_ms`, `ask` and `bid` columns. A frame lacking one of those raises `KeyError` first; the frame the program builds lacks `ask` and raises at line 60 (next row). | Monitoring runs without the frame, and the run returns whether all eight passed. | high; not executed | Checklist.RunAllChecksAsWrittenRaises | Checklist.DataQualityChecker.RunAllChecks |
| Price_info/data_quality_validator.py:60 | The accuracy check indexes `ask` and `bid`, but the frame built from the MetaTrader 5 rates records (lines 31-37) has neither column, so `check_accuracy` raises `KeyError('ask')` and the program's own run ends at its second check. | The frame `collect_realtime_data` returns: the eight rates columns plus `latency_ms`. | The accuracy check runs on the bars it has; bars without quotes count as having no negative spread, so accuracy is 100 and the check passes. | medium; not executed | Checklist.FetchedFrameRaisesAtAsk | Checklist.AccuracyOf |
