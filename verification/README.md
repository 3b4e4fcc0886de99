# Tera, Jamaica and Maica rate managers — a Dafny model

This project models three ns-3 Wi-Fi rate-adaptation managers: Tera, Jamaica and Maica.
Each manager keeps a per-rate statistics table and a per-station record. From the station's
reports it picks the rate index for the next data frame:

- data frame acknowledged, failed or finally dropped;
- RTS failed or finally failed.

All three managers share the following machinery:

- The retry fold (`UpdateRetry`).
- The lazy table build (`CheckInit`, `RateInit`).
- The transmit-time list (`GetCalcTxTime`, `AddCalcTxTime`).
- The fallback ladder on data failures.
- A periodic statistics cycle (`UpdateStats`). For each rate it computes:
  - a success probability on a 0..18000 fixed-point scale;
  - its EWMA;
  - a throughput;
  - an adjusted retry budget.

  It then ranks the rates by repeated strict-`<` argmax scans.

The managers differ in the decision rule, `CheckRate`:

- **Tera** compares the current rate's throughput with a smoothed history. It probes upwards (one step, or a doubling after repeated confirmed probes). It reverts a probe that did not pay off and damps oscillation.
- **Jamaica** and **Maica** use a credit/threshold hysteresis. Jamaica runs it after each first-attempt success, after a data failure below the fallback ladder, and at the end of each statistics cycle; it tunes its observation window between 10 and 30. Maica uses a fixed window and makes no decision on the success path.

Layout:

- `rate_stats.dfy` (module `RateStats`): the table entry, the fixed-point formulas, the refresh and rebuild loops over the table array, the transmit-time lookup, the argmax scans and the fallback ladder.
- `credit.dfy` (module `Credit`): the station record that Jamaica and Maica share (their sources declare identical structs), the credit decision and the five-deep ranking.
- `tera.dfy`, `jamaica.dfy`, `maica.dfy`: one manager class each. The class owns:
  - the table as an `array`;
  - `nsupported`;
  - the transmit-time list;
  - the parameters;
  - one station record.

  Each handler is a method whose `ensures` gives the new station and table in terms of specification functions. The lemmas beside them prove what the source promises about those functions.

Time is an integer number of microseconds, passed as `now`. The number of rates the station supports (the source's `GetNSupported`) is the parameter `count` of the handlers that build the table.

## Model

| member | source | states |
|---|---|---|
| RateStats.SuccessProb | src/wifi/model/tera-wifi-manager.cc:419 | The probability is success/attempt rounded down on the 18000 scale: p·attempt ≤ success·18000 < (p+1)·attempt. It is at most 18000 when successes do not exceed attempts, exactly 18000 when every attempt succeeded, and 0 with no success. |
| RateStats.Ewma | src/wifi/model/tera-wifi-manager.cc:427 | The weighted average lies between its two inputs, so an EWMA of probabilities stays within [0, 18000]. Weight 0 yields the new sample and weight 100 the old average. |
| RateStats.TxTimeOrOneSecond | src/wifi/model/tera-wifi-manager.cc:403-406 | The divisor of the throughput formula is never zero. It equals the transmit time whenever that is non-zero. |
| RateStats.Throughput | src/wifi/model/tera-wifi-manager.cc:432 | The throughput times the divisor never exceeds ewma·10^6. A zero transmit time gives the EWMA itself, a transmit time above one second gives 0, and a zero EWMA gives 0. |
| RateStats.AdjustedRetry | src/wifi/model/tera-wifi-manager.cc:443-464 | The retry budget is always at least 1. Above 95% or below 10% it is at most 2 and at most half the retry count (or 1). In between it is the retry count, raised to 1 if zero. |
| RateStats.RecordSuccess | src/wifi/model/tera-wifi-manager.cc:292-297 | An acknowledged frame adds one success and 1 + retry attempts and changes no other field, so successes ≤ attempts is kept. |
| RateStats.RecordFailure | src/wifi/model/tera-wifi-manager.cc:318 | A dropped frame adds its retries to the attempts and changes no other field, so successes ≤ attempts is kept. |
| RateStats.RefreshEntry | src/wifi/model/tera-wifi-manager.cc:413-464 | One refresh of an entry. The window moves to prev* and is zeroed. When something was attempted: the probability is the window's success ratio, the EWMA blends it with the old EWMA by the weight and lies between the two, the throughput is that EWMA over the perfect transmit time, and the history grows by the window. Otherwise probability, EWMA, throughput and history are untouched. The retry budget is recomputed from the new EWMA (≥ 1, ≤ 2 at the extremes), and the scale bounds are preserved. |
| RateStats.EwmaRestartsEachCycle | src/wifi/model/tera-wifi-manager.cc:427 | The table is rebuilt after every cycle, so on a settled entry the EWMA weighs 0 as history. It equals prob·(100−w)/100 and never exceeds the window probability. |
| RateStats.Refreshed | src/wifi/model/tera-wifi-manager.cc:396-465 | The refreshed table has the same length, and each entry is that entry refreshed. |
| RateStats.RefreshTable | src/wifi/model/tera-wifi-manager.cc:396-465 | The in-place loop leaves the array equal to the refreshed old contents. |
| RateStats.FreshTable | src/wifi/model/tera-wifi-manager.cc:681-695 | The rebuilt table has n entries. Entry i has all counters, probabilities, histories and throughput at zero, both retry budgets at 1, and the transmit time of mode i. |
| RateStats.ResetTable | src/wifi/model/tera-wifi-manager.cc:677-696 | The in-place RateInit loop leaves the array equal to the rebuilt table. |
| RateStats.FreshTableSettled | src/wifi/model/tera-wifi-manager.cc:681-695 | A rebuilt table satisfies the between-cycles invariant in every entry. |
| RateStats.CalcTxTime | src/wifi/model/tera-wifi-manager.cc:141-149 | The lookup yields the time of the first list entry for the mode, and 0 when the list has none. |
| RateStats.GetCalcTxTime | src/wifi/model/tera-wifi-manager.cc:138-150 | The linear search returns exactly the first-match time. |
| RateStats.AddCalcTxTime | src/wifi/model/tera-wifi-manager.cc:153-156 | The append keeps the old list as a prefix and leaves the lookup of every other mode unchanged. A mode added for the first time is then found with its time. |
| RateStats.ScanMax | src/wifi/model/jamaica-wifi-manager.cc:453-469 | A strict-`<` scan that skips the excluded indices reports 0 when every other value is 0. Otherwise it reports the smallest non-excluded index holding the largest non-excluded value. |
| RateStats.MaxIndexExcluding | src/wifi/model/jamaica-wifi-manager.cc:474-481 | The ranking loop returns exactly the scan's report. |
| RateStats.SecondNotAboveFirst | src/wifi/model/tera-wifi-manager.cc:469-506 | The runner-up's throughput never exceeds the best one's. |
| RateStats.ScanMaxAntitone | src/wifi/model/jamaica-wifi-manager.cc:483-517 | Excluding more indices never makes a scan report a larger value. |
| RateStats.Fallback | src/wifi/model/tera-wifi-manager.cc:260-270 | The fallback ladder never raises the rate. Beyond 6 long retries it gives the slowest rate, at 5 or 6 exactly one step down (floored at 0), below 5 no change. |
| Credit.Restore | src/wifi/model/jamaica-wifi-manager.cc:271-275 | With a retry flagged and a non-zero current rate, the restore sets the transmit rate to the current rate and clears the flag. Otherwise it is the identity, and it clears the flag whenever it changes anything. |
| Credit.NewStation | src/wifi/model/jamaica-wifi-manager.cc:143-167 | A created station is uninitialized, with no retry flagged. Every rate, ranking slot, counter, credit and packet count is 0, and the first refresh is due one period after creation. |
| Credit.FoldRetries | src/wifi/model/jamaica-wifi-manager.cc:320-325 | retry becomes shortRetry + longRetry, both are zeroed, and nothing else changes. |
| Credit.Succeeded | src/wifi/model/jamaica-wifi-manager.cc:271-291 | A success on an initialized station: one more ok and one more packet, retries folded, current rate cleared, and the flagged rate restored if a retry was flagged. Every other field, errors and credit included, is unchanged. |
| Credit.FinallyFailed | src/wifi/model/jamaica-wifi-manager.cc:304-314 | A dropped frame: one more error, retries folded, current rate cleared, and the flagged rate restored if a retry was flagged. Every other field, ok and packets included, is unchanged. |
| Credit.CheckRate | src/wifi/model/jamaica-wifi-manager.cc:540-616 | The step-by-step decision equals the decision rule CreditCheck. It keeps the rate a valid index and leaves current rate equal to transmit rate. |
| Credit.CheckRateInRange | src/wifi/model/jamaica-wifi-manager.cc:604-615 | For every station with a valid rate, the decided rate is a valid index and becomes the current rate. |
| Credit.CreditGrowsByAtMostOne | src/wifi/model/jamaica-wifi-manager.cc:588-591 | Credit grows by at most one per decision, and only for a full window whose errors are within 30% of the successes. |
| Credit.CheckRateResets | src/wifi/model/jamaica-wifi-manager.cc:604-615 | A rate change clears ok, err, retry and credit. An unchanged rate clears ok, err and retry on a full window and keeps the earned credit. A window that is not full changes the rate by at most a raise and leaves the counters of an unchanged rate alone. |
| Credit.CheckRateSteps | src/wifi/model/jamaica-wifi-manager.cc:552-602 | The rate rises by at most one step, and only once credit reaches the raise threshold. It falls by more than three steps only through the 3/4 cut: a full window, errors above the threshold and above the successes, rate ≥ 4. |
| Credit.CleanWindowNeverLowers | src/wifi/model/jamaica-wifi-manager.cc:552-591 | A full window with errors within the threshold and no more retries than successes never lowers the rate. |
| Credit.DataFailure | src/wifi/model/jamaica-wifi-manager.cc:245-259 | A data failure keeps the rate valid. From the 5th long retry on it applies the fallback ladder and nothing else. Before that it hands the station, with one more long retry, to the credit decision. |
| Credit.RankStation | src/wifi/model/jamaica-wifi-manager.cc:449-524 | The five ranking loops and the probability scan compute the ranking specification. Every reported index is valid. |
| Credit.RankOrdered | src/wifi/model/jamaica-wifi-manager.cc:449-524 | Each of the five slots is the strict scan that excludes the earlier picks, and the best-probability slot is the plain scan. The throughputs reported slot by slot never increase. |
| Credit.RaiseToBest | src/wifi/model/jamaica-wifi-manager.cc:526-529 | The transmit rate becomes the larger of itself and the best-throughput index. Nothing else changes. |
| Credit.RankAndDecide | src/wifi/model/jamaica-wifi-manager.cc:449-533 | The station side of a statistics cycle is the ranking, then the raise to the best rate, then the credit decision. The resulting rate is a valid index equal to the current rate, and the timers and initialized flag are kept. |
| Tera.NewStation | src/wifi/model/tera-wifi-manager.cc:159-188 | A created station is uninitialized, with no probe and no retry flagged. Every rate, ranking slot, counter, credit, packet count and throughput is 0, and both timers are one period after creation. |
| Tera.DataFailure | src/wifi/model/tera-wifi-manager.cc:250-270 | A data failure adds one long retry and sets the rate to the fallback ladder's value for the new retry count, which never raises it. Nothing else changes, and no rate decision is made. |
| Tera.RepeatedFailures | src/wifi/model/tera-wifi-manager.cc:240-271 | Over k failures without a retry fold the long-retry count grows by k and the rate never rises. It is unchanged while the count stays below 5. It is 0 once the count passes 6, so seven failures from a folded station reach rate 0. |
| Tera.Restore | src/wifi/model/tera-wifi-manager.cc:279-283 | With a retry flagged and a non-zero current rate, the restore sets the transmit rate to the current rate and clears the flag. Otherwise it is the identity, and it clears the flag whenever it changes anything. |
| Tera.EvaluateProbe | src/wifi/model/tera-wifi-manager.cc:547-587 | The cycle after a probe reverts exactly when the probed throughput fell below the history and a previous rate exists: back to that rate, one more oscillation, consecutive cleared, the long interval after an additive probe and the short one after a doubling. A probe that is not reverted but beat the previous throughput is confirmed: one more consecutive success and the short interval re-armed. In every other case nothing changes. |
| Tera.Decide | src/wifi/model/tera-wifi-manager.cc:606-654 | The ratio rule keeps the rate valid and touches only the damping counters and the probe flag. Throughput ≥ history clears the successive count; with no oscillation and a faster rate available it starts a probe one step up (additive) or at the doubled rate capped at the top (multiplicative); otherwise the rate is kept. Conversely, a rise needs throughput ≥ history and no oscillation. Ratio in [0.75, 0.9]: one step down, consecutive and oscillation cleared, everything else (successive count, probe flag) kept. Below 0.75: a 3/4 cut on the first such cycle and a step down later. Between 0.9 and 1: the rate is kept. |
| Tera.Commit | src/wifi/model/tera-wifi-manager.cc:661-671 | The proposed rate becomes the transmit and settled rate, and the last throughput and rate are recorded. A changed rate clears ok, err, retry and credit. No other field changes. |
| Tera.ProbeCheckInRange | src/wifi/model/tera-wifi-manager.cc:526-672 | The decision keeps every rate index valid and the transmit rate at most the settled rate. A decided cycle leaves them equal. The interval is kept or set to one of its two values. |
| Tera.ProbeEvaluation | src/wifi/model/tera-wifi-manager.cc:547-587 | With a probe pending, the cycle only judges it: the flag is cleared and no new probe starts. The rate reverts exactly when the probed throughput fell below the history, with one more oscillation, consecutive cleared and the matching interval. A kept probe that beat the previous throughput adds one consecutive success and re-arms the short interval. In every other case only the probe flag and the multiplicative flag change. The window counters and the history are untouched. |
| Tera.StepUpOnlyWhenCalm | src/wifi/model/tera-wifi-manager.cc:606-628 | The rate rises above the settled rate only when no probe was pending, no oscillation is recorded and throughput ≥ the updated, non-zero history. The rise starts a probe and is at most one step, or at most a doubling after repeated confirmed probes. |
| Tera.StepUpWhenCalm | src/wifi/model/tera-wifi-manager.cc:606-628 | The converse: with no probe pending, no oscillation, a faster rate available and throughput ≥ the updated, non-zero history, the cycle starts a probe at one step up, or after repeated confirmed probes at the doubled rate capped at the top rate, and records the old settled rate and its throughput for the next evaluation. |
| Tera.LossZones | src/wifi/model/tera-wifi-manager.cc:590-654 | Ratio in [0.75, 0.9]: one step down, consecutive and oscillation cleared, the successive count kept and no probe started. Below 0.75: the 3/4 cut on the first loss cycle and one step down after. Ratio in (0.9, 1): the rate is kept. Zero history: no decision. |
| Tera.ProbeThenRevert | src/wifi/model/tera-wifi-manager.cc:547-628 | Example on five rates. At rate 2 with history 1000, throughput 1200 probes rate 3. The next cycle sees 900 there and returns to rate 2 with one oscillation and the long interval. |
| Tera.DecideRate | src/wifi/model/tera-wifi-manager.cc:606-654 | The source's branch-by-branch update of the proposed rate and counters computes the ratio rule. |
| Tera.RankStation | src/wifi/model/tera-wifi-manager.cc:469-506 | The ranking loops compute the best and second-best throughput and the best probability. Every index reported is valid. |
| Tera.RankOrdered | src/wifi/model/tera-wifi-manager.cc:469-506 | The best slot is the smallest index of maximal throughput (0 if all are zero). The second is the same scan excluding it and never has a larger throughput. The probability slot is the scan over the EWMAs. |
| Tera.RunProbeCheck | src/wifi/model/tera-wifi-manager.cc:526-672 | The source's step-by-step CheckRate computes the decision specification. |
| Tera.TeraManager.constructor | src/wifi/model/tera-wifi-manager.cc:117-120 | A new manager has no table (nsupported 0) and holds its parameters and a freshly created station. |
| Tera.TeraManager.AddCalcTxTime | src/wifi/model/tera-wifi-manager.cc:153-156 | The list gains the pair and nothing else changes. |
| Tera.TeraManager.RateInit | src/wifi/model/tera-wifi-manager.cc:677-696 | Every entry is rebuilt from the transmit-time list. |
| Tera.TeraManager.CheckInit | src/wifi/model/tera-wifi-manager.cc:191-207 | The table is built, fresh and with `count` entries, only on the first report with more than one supported rate, which also marks the station initialized. Any other call changes nothing. The manager invariant is kept. |
| Tera.TeraManager.RtsFailed | src/wifi/model/tera-wifi-manager.cc:217-223 | One more short retry, and nothing else changes. |
| Tera.TeraManager.UpdateRetry | src/wifi/model/tera-wifi-manager.cc:325-330 | retry becomes shortRetry + longRetry, both are zeroed, and nothing else changes. |
| Tera.TeraManager.FinalRtsFailed | src/wifi/model/tera-wifi-manager.cc:232-237 | The retries are folded, one more error is counted, and the table is untouched. |
| Tera.TeraManager.DataFailed | src/wifi/model/tera-wifi-manager.cc:240-271 | Without a table, nothing happens beyond the build attempt. Otherwise it adds one long retry and applies the fallback ladder, with no rate decision. The invariant is kept. |
| Tera.TeraManager.DataOk | src/wifi/model/tera-wifi-manager.cc:274-301 | On an initialized station the transmit rate's entry gains one success and 1 + retry attempts, the retries are folded, and ok and the packet count go up by one. Otherwise only the restore and the build attempt happen. The invariant, including successes ≤ attempts per entry, is kept. |
| Tera.TeraManager.FinalDataFailed | src/wifi/model/tera-wifi-manager.cc:304-322 | The folded retries are added to the transmit rate's attempts, one error is counted, and the invariant is kept. |
| Tera.TeraManager.CheckRate | src/wifi/model/tera-wifi-manager.cc:526-672 | The station and the manager's adaptive interval become the decision specification's result on the table's throughput column. |
| Tera.TeraManager.UpdateStats | src/wifi/model/tera-wifi-manager.cc:378-523 | Before the deadline, or without a table, nothing changes (the deadline is not advanced). Otherwise the deadline moves one period past `now`, the refreshed table is ranked and the probe/ratio rule applied, and the table is rebuilt; the new station and interval are the cycle's result (StatsCycle). The invariant is kept. |
| Tera.TeraManager.UpdateAdaptiveTimeInterval | src/wifi/model/tera-wifi-manager.cc:363-373 | Once the adaptive interval has elapsed, the timer is re-armed from `now` and the oscillation count is cleared. Before that, nothing changes. |
| Tera.TeraManager.DoGetDataMode | src/wifi/model/tera-wifi-manager.cc:333-346 | The answer is the station's transmit rate: a valid table index once initialized, 0 with an empty table otherwise. The new station, interval and table are exactly those of building the table when possible, then one statistics cycle at `now`, then the adaptive-interval timer (re-armed, with the oscillations forgotten, once it has elapsed). |
| Tera.TeraManager.DoGetRtsMode | src/wifi/model/tera-wifi-manager.cc:349-355 | RTS frames always go at rate 0. |
| Jamaica.ThresholdAfterFailure | src/wifi/model/jamaica-wifi-manager.cc:228-229 | The widened window stays a 32-bit value. |
| Jamaica.ThresholdAfterSuccess | src/wifi/model/jamaica-wifi-manager.cc:268-269 | The narrowed window stays a 32-bit value. |
| Jamaica.ThresholdBand | src/wifi/model/jamaica-wifi-manager.cc:228-269 | A window in [10, 30] stays there. A failure widens by one below 30 and a success narrows by one above 10. Outside the band the unsigned arithmetic shows: a success on window 0 jumps to 4294967295, and a failure there wraps back to 0. |
| Jamaica.ThresholdAfterSuccesses | src/wifi/model/jamaica-wifi-manager.cc:268-269 | After a run of successes the window is still a 32-bit value. |
| Jamaica.ThresholdAfterFailures | src/wifi/model/jamaica-wifi-manager.cc:228-229 | After a run of failures the window is still a 32-bit value. |
| Jamaica.ThresholdRuns | src/wifi/model/jamaica-wifi-manager.cc:228-269 | From a window in [10, 30], k successes give max(10, t−k) and k failures give min(30, t+k). |
| Jamaica.CountingStep | src/wifi/model/jamaica-wifi-manager.cc:263-295 | On a quiet station, a success that leaves the window short only counts. |
| Jamaica.WindowStep | src/wifi/model/jamaica-wifi-manager.cc:263-295 | The success that fills the window earns one credit, and at the raise threshold one step up with the credit spent. |
| Jamaica.PartialWindow | src/wifi/model/jamaica-wifi-manager.cc:263-295 | Fewer successes than the window only count: the rate and credit are unchanged. |
| Jamaica.FullWindow | src/wifi/model/jamaica-wifi-manager.cc:263-295 | A full window of successes gives one credit or a raise, and the station is again quiet. |
| Jamaica.CreditPerWindow | src/wifi/model/jamaica-wifi-manager.cc:540-616 | Clean successes build credit at one per full window, and the rate holds meanwhile. |
| Jamaica.SuccessRunHolds | src/wifi/model/jamaica-wifi-manager.cc:540-616 | Fewer than (raise − credit)·window clean successes never change the rate. |
| Jamaica.SuccessRunRaises | src/wifi/model/jamaica-wifi-manager.cc:540-616 | Exactly (raise − credit)·window clean successes raise the rate by one step if a faster rate exists. The credit is spent and the station is quiet. |
| Jamaica.HundredSuccessesRaiseOnce | src/wifi/model/jamaica-wifi-manager.cc:588-602 | Example with both thresholds at 10, at rate 0 of four. Ten successes earn one credit and keep the rate. Ninety-nine keep the rate. The hundredth raises it to 1. |
| Jamaica.StartRateAsWrittenOutOfRange | src/wifi/model/jamaica-wifi-manager.cc:336 | As written, a station whose table could not be built gets start rate 4294967295, which indexes none of its rates. |
| Jamaica.JamaicaManager.constructor | src/wifi/model/jamaica-wifi-manager.cc:101-104 | A new manager has no table (nsupported 0) and holds its parameters, its initial window and a freshly created station. |
| Jamaica.JamaicaManager.AddCalcTxTime | src/wifi/model/jamaica-wifi-manager.cc:137-140 | The list gains the pair and nothing else changes. |
| Jamaica.JamaicaManager.RateInit | src/wifi/model/jamaica-wifi-manager.cc:621-640 | Every entry is rebuilt from the transmit-time list. |
| Jamaica.JamaicaManager.CheckInit | src/wifi/model/jamaica-wifi-manager.cc:170-182 | The table is built with `count` fresh entries only on the first report with more than one supported rate, which marks the station initialized. Any other call changes nothing. |
| Jamaica.JamaicaManager.CheckRate | src/wifi/model/jamaica-wifi-manager.cc:540-616 | The station becomes the credit decision with the current window. The invariant is kept. |
| Jamaica.JamaicaManager.RtsFailed | src/wifi/model/jamaica-wifi-manager.cc:192-198 | One more short retry, and nothing else changes. |
| Jamaica.JamaicaManager.UpdateRetry | src/wifi/model/jamaica-wifi-manager.cc:320-325 | The retry fold, and nothing else changes. |
| Jamaica.JamaicaManager.FinalRtsFailed | src/wifi/model/jamaica-wifi-manager.cc:207-212 | The retries are folded and one more error is counted. |
| Jamaica.JamaicaManager.DataFailed | src/wifi/model/jamaica-wifi-manager.cc:215-260 | Without a table, nothing beyond the build attempt, and the window is unchanged. Otherwise the window widens and the station gets one more long retry, then the ladder or the credit decision with the widened window. |
| Jamaica.JamaicaManager.CountSuccess | src/wifi/model/jamaica-wifi-manager.cc:284-291 | The transmit rate's entry gains one success and 1 + retry attempts, the retries are folded, and ok and the packet count go up by one. The invariant is kept. |
| Jamaica.JamaicaManager.DataOk | src/wifi/model/jamaica-wifi-manager.cc:263-295 | The window narrows on every report. On an initialized station, the success is recorded in the table and the station is counted, then the credit decision runs with the narrowed window. Otherwise only the restore and the cleared current rate apply. |
| Jamaica.JamaicaManager.FinalDataFailed | src/wifi/model/jamaica-wifi-manager.cc:298-317 | The folded retries are added to the transmit rate's attempts and one error is counted. There is no decision, and the window is unchanged. |
| Jamaica.JamaicaManager.UpdateStats | src/wifi/model/jamaica-wifi-manager.cc:359-537 | Before the deadline, or without a table, nothing changes. Otherwise the deadline moves, then the table is refreshed, ranked five deep, the rate raised to the best one, the credit decision made, and the table rebuilt. |
| Jamaica.JamaicaManager.DoGetDataMode | src/wifi/model/jamaica-wifi-manager.cc:328-341 | The answer is the transmit rate, a valid index once initialized. The new station and table are exactly those of building the table when possible, starting a freshly built table at the fastest rate, count − 1, then one statistics cycle at `now` (refresh, five-deep ranking, raise to the best rate, credit decision, rebuild) or nothing before the deadline. |
| Jamaica.JamaicaManager.DoGetRtsMode | src/wifi/model/jamaica-wifi-manager.cc:344-350 | RTS frames always go at rate 0. |
| Maica.SuccessesOnlyCount | src/wifi/model/maica-wifi-manager.cc:252-279 | Without a decision on the success path, any run of k successes from a quiet station only adds k to ok and to the packet count. The rate, the credit and the errors stay. |
| Maica.StartRate | src/wifi/model/maica-wifi-manager.cc:319-322 | The start rate is a valid index above 0, exactly the middle of the table: 2r ≤ n ≤ 2r + 1, that is r = n/2 rounded down. |
| Maica.MaicaManager.constructor | src/wifi/model/maica-wifi-manager.cc:101-104 | A new manager has no table (nsupported 0) and holds its parameters and a freshly created station. |
| Maica.MaicaManager.AddCalcTxTime | src/wifi/model/maica-wifi-manager.cc:137-140 | The list gains the pair and nothing else changes. |
| Maica.MaicaManager.RateInit | src/wifi/model/maica-wifi-manager.cc:601-620 | Every entry is rebuilt from the transmit-time list. |
| Maica.MaicaManager.CheckInit | src/wifi/model/maica-wifi-manager.cc:170-182 | The table is built with `count` fresh entries only on the first report with more than one supported rate. Any other call changes nothing. |
| Maica.MaicaManager.CheckRate | src/wifi/model/maica-wifi-manager.cc:526-596 | The station becomes the credit decision with the fixed window. The invariant is kept. |
| Maica.MaicaManager.RtsFailed | src/wifi/model/maica-wifi-manager.cc:192-198 | One more short retry, and nothing else changes. |
| Maica.MaicaManager.UpdateRetry | src/wifi/model/maica-wifi-manager.cc:303-308 | The retry fold, and nothing else changes. |
| Maica.MaicaManager.FinalRtsFailed | src/wifi/model/maica-wifi-manager.cc:207-212 | The retries are folded and one more error is counted. |
| Maica.MaicaManager.DataFailed | src/wifi/model/maica-wifi-manager.cc:215-249 | Without a table, nothing beyond the build attempt. Otherwise one more long retry, then the ladder or the credit decision. The window never changes. |
| Maica.MaicaManager.DataOk | src/wifi/model/maica-wifi-manager.cc:252-279 | On an initialized station, the success is recorded in the transmit rate's entry and the station only counts it, with no rate decision. The invariant, successes ≤ attempts included, is kept. |
| Maica.MaicaManager.FinalDataFailed | src/wifi/model/maica-wifi-manager.cc:282-300 | The folded retries are added to the transmit rate's attempts and one error is counted. |
| Maica.MaicaManager.UpdateStats | src/wifi/model/maica-wifi-manager.cc:345-523 | Before the deadline, or without a table, nothing changes. Otherwise the deadline moves, then the table is refreshed, ranked, the rate raised to the best one, the credit decision made, and the table rebuilt. |
| Maica.MaicaManager.DoGetDataMode | src/wifi/model/maica-wifi-manager.cc:311-327 | The answer is the transmit rate, a valid index once initialized. The new station and table are exactly those of building the table when possible, starting a freshly built table in the middle, at count/2, then one statistics cycle at `now` (refresh, ranking, raise to the best rate, credit decision, rebuild) or nothing before the deadline. |
| Maica.MaicaManager.DoGetRtsMode | src/wifi/model/maica-wifi-manager.cc:330-336 | RTS frames always go at rate 0. |

## Left out

- The configuration is not modelled: type registration, the attribute defaults and `SetupPhy`. The PHY's mode list and computed durations enter as the transmit-time list. Mode i is rate index i: the base class's `GetSupported` is not part of this model.
- `GetNSupported` is the parameter `count`. `Simulator::Now` is the parameter `now`.
- Logging, the `std::cout` tracing in `CheckRate` and `PrintTable` are left out, as are the handlers that do nothing (`DoReportRxOk`, `DoReportRtsOk`, `IsLowLatency`).
- Each manager drives one station. In the source, the table, `nsupported`, Jamaica's window and Tera's adaptive interval belong to the manager and are shared by all its stations.
- Counters are unbounded naturals. The sources' 32-bit wrap-around is written out only where it changes behaviour: Jamaica's window and the start rate of its first request.
- The flag-raising branch of `DoReportDataFailed` (`longRetry <= 0` right after an increment) is omitted. It is unreachable without a 2^32 wrap, so no handler sets the retry flag. The restore branches are modelled, but from a created station they never fire.
- The EWMA weights (`m_ewmaLevel`, Tera's `m_ewmaLevelHist`) are doubles in the source and integer percentages here.
- Tera's throughput ratio `delta` is a double. Here it is compared by cross-multiplication (tp ≥ hist, 10·tp ≤ 9·hist, 4·tp ≥ 3·hist). That agrees with the double comparisons for 32-bit operands.
- Tera's `m_ok` and `m_ossilate` are not set when a station is created. The model starts them at 0.
- The credit/threshold `errorThres` is described as 30% of the successes. The code computes `ok*3/10` in integer arithmetic before it becomes a double, and the model follows the code.
- RateStats.CalcTxTime and RateStats.GetCalcTxTime return 0 for a mode that has no entry in the list. The source asserts (`NS_ASSERT (false)`) in that case and returns 0 only when assertions are compiled out.
- FinalDataFailed (all three managers) requires an initialized station, because the source indexes the table without checking.
- Jamaica.SuccessRun and the lemmas about it fix the window at `addThr`. In the manager, every success also narrows Jamaica's window until it reaches 10, so these lemmas describe runs once the window has settled at its floor.
- Credit.RankOrdered shows only that the throughputs the scans report are non-increasing, not the values at the reported indices. Once every remaining throughput is 0, a scan reports index 0 even if an earlier slot already took it, so the value at a later slot's index can exceed the one before.
- One might expect ten clean successes at rate 0 (both thresholds 10) to lift the rate to 1. The code awards one credit per full window, not one per success, so it takes a hundred (Jamaica.HundredSuccessesRaiseOnce). The model follows the code.

## Findings

| source | as written | input that shows it | evidently intended | confidence | as-written member | corrected member |
|---|---|---|---|---|---|---|
| src/wifi/model/jamaica-wifi-manager.cc:336 | The first data request sets the rate to `m_nsupported - 1` whether or not `CheckInit` built a table. | A station that reports at most one supported rate: `m_nsupported` stays 0 and the unsigned subtraction gives rate 4294967295, which is then used as a mode index. | Set the start rate only when a table exists (`nsupported > 1`), as the Maica manager does. | not executed | Jamaica.StartRateAsWrittenOutOfRange | Jamaica.JamaicaManager.DoGetDataMode |
