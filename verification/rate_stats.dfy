/** The per-rate statistics table shared by the Tera, Jamaica and Maica rate managers:
    one RateInfo entry per supported rate index, the fixed-point formulas of the periodic
    statistics refresh, the table build, the transmit-time lookup and the throughput ranking. */
module RateStats {

  /** A success probability is a fixed-point number on this scale: 18000 stands for 100%. */
  const ProbScale: nat := 18000
  /** Above this EWMA probability (95%) the retry budget is halved and capped. */
  const HighProb: nat := 17100
  /** Below this EWMA probability (10%) the retry budget is halved and capped. */
  const LowProb: nat := 1800
  /** One second in microseconds: the numerator of the throughput formula, and the
      stand-in transmit time for a rate whose time rounds to zero microseconds. */
  const OneSecond: nat := 1000000

  function Min(a: nat, b: nat): nat { if a <= b then a else b }
  function Max(a: nat, b: nat): nat { if a <= b then b else a }

  /** One entry of the rate table. Times are whole microseconds. */
  datatype RateInfo = RateInfo(
    numRateAttempt: nat,      // attempts in the current window (retries included)
    numRateSuccess: nat,      // successes in the current window
    prob: nat,                // success probability of the last window, 0..18000
    ewmaProb: nat,            // exponentially weighted probability, 0..18000
    prevNumRateAttempt: nat,
    prevNumRateSuccess: nat,
    successHist: nat,
    attemptHist: nat,
    throughput: nat,
    perfectTxTime: nat,       // transmit time of a reference frame at this rate
    retryCount: nat,
    adjustedRetryCount: nat)

  /** One (time, mode) pair of the manager's transmit-time list; mode i is rate index i. */
  datatype TxTimeEntry = TxTimeEntry(time: nat, mode: nat)

  // ---------------------------------------------------------------- formulas

  /** success/attempt on the 0..18000 scale, rounded down. */
  function SuccessProb(success: nat, attempt: nat): (p: nat)
    requires attempt > 0
    ensures p * attempt <= success * ProbScale < (p + 1) * attempt
    ensures success <= attempt ==> p <= ProbScale
    ensures success == attempt ==> p == ProbScale
    ensures success == 0 ==> p == 0
  {
    ProbBounds(success, attempt);
    success * ProbScale / attempt
  }

  lemma ProbBounds(success: nat, attempt: nat)
    requires attempt > 0
    ensures var p := success * ProbScale / attempt;
            && p * attempt <= success * ProbScale < (p + 1) * attempt
            && (success <= attempt ==> p <= ProbScale)
            && (success == attempt ==> p == ProbScale)
  {
    var a := success * ProbScale;
    var p := a / attempt;
    DivBounds(a, attempt);
    if success <= attempt {
      MulMono(ProbScale, success, attempt);
      MulCancel(p, ProbScale, attempt);
      if success == attempt {
        MulCancelStrict(ProbScale, p + 1, attempt);
      }
    }
  }

  lemma DivBounds(a: nat, b: nat)
    requires b > 0
    ensures (a / b) * b <= a < (a / b + 1) * b
  {
  }

  /** Weighted average rounded down: `weight` percent goes to `avg`, the rest to `sample`. */
  function Ewma(sample: nat, avg: nat, weight: nat): (e: nat)
    requires weight <= 100
    ensures Min(sample, avg) <= e <= Max(sample, avg)
    ensures weight == 0 ==> e == sample
    ensures weight == 100 ==> e == avg
  {
    EwmaBounds(sample, avg, weight);
    (sample * (100 - weight) + avg * weight) / 100
  }

  lemma EwmaBounds(sample: nat, avg: nat, weight: nat)
    requires weight <= 100
    ensures var e := (sample * (100 - weight) + avg * weight) / 100;
            Min(sample, avg) <= e <= Max(sample, avg)
  {
    var lo, hi := Min(sample, avg), Max(sample, avg);
    var total := sample * (100 - weight) + avg * weight;
    MulMono(100 - weight, lo, sample);
    MulMono(100 - weight, sample, hi);
    MulMono(weight, lo, avg);
    MulMono(weight, avg, hi);
    assert lo * (100 - weight) + lo * weight == lo * 100;
    assert hi * (100 - weight) + hi * weight == hi * 100;
    DivBounds(total, 100);
  }

  /** The transmit time the throughput formula divides by: zero stands in as one second. */
  function TxTimeOrOneSecond(us: nat): (d: nat)
    ensures d > 0 && (us > 0 ==> d == us)
  {
    if us == 0 then OneSecond else us
  }

  /** ewma * (1000000 / txTime), in integer arithmetic. */
  function Throughput(ewma: nat, txTimeUs: nat): (tp: nat)
    ensures tp * TxTimeOrOneSecond(txTimeUs) <= ewma * OneSecond
    ensures txTimeUs == 0 ==> tp == ewma
    ensures txTimeUs > OneSecond ==> tp == 0
    ensures ewma == 0 ==> tp == 0
  {
    var d := TxTimeOrOneSecond(txTimeUs);
    var q := OneSecond / d;
    DivBounds(OneSecond, d);
    assert ewma * q * d <= ewma * OneSecond by {
      assert q * d <= OneSecond;
      MulMono(ewma, q * d, OneSecond);
    }
    ewma * q
  }

  lemma MulMono(a: nat, x: nat, y: nat)
    requires x <= y
    ensures a * x <= a * y
  {
  }

  lemma MulCancel(a: nat, b: nat, c: nat)
    requires c > 0 && a * c <= b * c
    ensures a <= b
  {
    if b < a {
      MulMono(c, b + 1, a);
    }
  }

  lemma MulCancelStrict(a: nat, b: nat, c: nat)
    requires a * c < b * c
    ensures a < b
  {
    if b <= a {
      MulMono(c, b, a);
    }
  }

  /** The retry budget: halved and capped at 2 at the probability extremes, never below 1. */
  function AdjustedRetry(ewma: nat, retryCount: nat): (r: nat)
    ensures r >= 1
    ensures ewma > HighProb || ewma < LowProb ==> r <= 2 && (r == 1 || r <= retryCount / 2)
    ensures LowProb <= ewma <= HighProb ==> r == Max(retryCount, 1)
  {
    var adjusted := if ewma > HighProb || ewma < LowProb then Min(retryCount / 2, 2) else retryCount;
    if adjusted == 0 then 1 else adjusted
  }

  // ---------------------------------------------------------------- entries

  /** Window counters consistent and probabilities on scale. */
  predicate Bounded(e: RateInfo)
  {
    e.numRateSuccess <= e.numRateAttempt && e.prob <= ProbScale && e.ewmaProb <= ProbScale
  }

  /** What the table build writes into entry i: everything zero, budgets 1. */
  function FreshEntry(txTime: nat): RateInfo
  {
    RateInfo(0, 0, 0, 0, 0, 0, 0, 0, 0, txTime, 1, 1)
  }

  /** The state of an entry between two statistics refreshes: only the window counters
      have moved since the last build, and successes never exceed attempts. */
  predicate Settled(e: RateInfo)
  {
    && e.numRateSuccess <= e.numRateAttempt
    && e.(numRateAttempt := 0, numRateSuccess := 0) == FreshEntry(e.perfectTxTime)
  }

  /** A data success at this rate: one more success and one more attempt for the
      frame, plus the retries it needed. */
  function RecordSuccess(e: RateInfo, retry: nat): (r: RateInfo)
    ensures r.numRateSuccess == e.numRateSuccess + 1 && r.numRateAttempt == e.numRateAttempt + 1 + retry
    ensures r.(numRateSuccess := e.numRateSuccess, numRateAttempt := e.numRateAttempt) == e
    ensures Settled(e) ==> Settled(r)
  {
    e.(numRateSuccess := e.numRateSuccess + 1, numRateAttempt := e.numRateAttempt + 1 + retry)
  }

  /** A final data failure at this rate: the retries spent are attempts without success. */
  function RecordFailure(e: RateInfo, retry: nat): (r: RateInfo)
    ensures r.numRateAttempt == e.numRateAttempt + retry && r.(numRateAttempt := e.numRateAttempt) == e
    ensures Settled(e) ==> Settled(r)
  {
    e.(numRateAttempt := e.numRateAttempt + retry)
  }

  /** One iteration of the refresh loop: fold the window into probability, EWMA,
      throughput and history, move the window to prev*, zero it, adjust the retry budget. */
  function RefreshEntry(e: RateInfo, weight: nat): (r: RateInfo)
    requires weight <= 100
    ensures r.numRateAttempt == 0 && r.numRateSuccess == 0
    ensures r.prevNumRateAttempt == e.numRateAttempt && r.prevNumRateSuccess == e.numRateSuccess
    ensures e.numRateAttempt > 0 ==> r.successHist == e.successHist + e.numRateSuccess
    ensures e.numRateAttempt > 0 ==> r.attemptHist == e.attemptHist + e.numRateAttempt
    ensures r.perfectTxTime == e.perfectTxTime && r.retryCount == e.retryCount
    ensures e.numRateAttempt == 0 ==> r.prob == e.prob && r.ewmaProb == e.ewmaProb && r.throughput == e.throughput
    ensures e.numRateAttempt == 0 ==> r.successHist == e.successHist && r.attemptHist == e.attemptHist
    ensures e.numRateAttempt > 0 ==> Min(r.prob, e.ewmaProb) <= r.ewmaProb <= Max(r.prob, e.ewmaProb)
    ensures e.numRateAttempt > 0 ==> r.throughput * TxTimeOrOneSecond(e.perfectTxTime) <= r.ewmaProb * OneSecond
    ensures e.numRateAttempt > 0 ==>
              && r.prob == SuccessProb(e.numRateSuccess, e.numRateAttempt)
              && r.ewmaProb == Ewma(r.prob, e.ewmaProb, weight)
              && r.throughput == Throughput(r.ewmaProb, e.perfectTxTime)
    ensures r.adjustedRetryCount == AdjustedRetry(r.ewmaProb, r.retryCount)
    ensures r.adjustedRetryCount >= 1
    ensures r.ewmaProb > HighProb || r.ewmaProb < LowProb ==> r.adjustedRetryCount <= 2
    ensures Bounded(e) ==> Bounded(r)
  {
    var folded :=
      if e.numRateAttempt > 0 then
        var p := SuccessProb(e.numRateSuccess, e.numRateAttempt);
        var ewma := Ewma(p, e.ewmaProb, weight);
        e.(prob := p,
           successHist := e.successHist + e.numRateSuccess,
           attemptHist := e.attemptHist + e.numRateAttempt,
           ewmaProb := ewma,
           throughput := Throughput(ewma, e.perfectTxTime))
      else
        e;
    var moved := folded.(prevNumRateAttempt := e.numRateAttempt,
                         prevNumRateSuccess := e.numRateSuccess,
                         numRateSuccess := 0,
                         numRateAttempt := 0);
    moved.(adjustedRetryCount := AdjustedRetry(moved.ewmaProb, moved.retryCount))
  }

  /** Because the table is rebuilt at the end of every refresh, the EWMA of a settled entry
      gives the history weight to 0: the new EWMA is the window probability scaled by
      (100 - weight)%, and it never exceeds the window probability. */
  lemma EwmaRestartsEachCycle(e: RateInfo, weight: nat)
    requires weight <= 100 && Settled(e) && e.numRateAttempt > 0
    ensures var p := SuccessProb(e.numRateSuccess, e.numRateAttempt);
            RefreshEntry(e, weight).ewmaProb == p * (100 - weight) / 100 <= p
  {
  }

  // ---------------------------------------------------------------- table loops

  function Refreshed(t: seq<RateInfo>, weight: nat): (r: seq<RateInfo>)
    requires weight <= 100
    ensures |r| == |t|
    ensures forall i :: 0 <= i < |t| ==> r[i] == RefreshEntry(t[i], weight)
  {
    seq(|t|, i requires 0 <= i < |t| => RefreshEntry(t[i], weight))
  }

  /** The refresh loop of UpdateStats, applied in place to every entry. */
  method RefreshTable(table: array<RateInfo>, weight: nat)
    requires weight <= 100
    modifies table
    ensures table[..] == Refreshed(old(table[..]), weight)
  {
    for i := 0 to table.Length
      invariant forall k :: 0 <= k < i ==> table[k] == RefreshEntry(old(table[k]), weight)
      invariant forall k :: i <= k < table.Length ==> table[k] == old(table[k])
    {
      table[i] := RefreshEntry(table[i], weight);
    }
  }

  /** The table RateInit leaves behind: entry i fresh, with the transmit time of mode i. */
  function FreshTable(times: seq<TxTimeEntry>, n: nat): (r: seq<RateInfo>)
    ensures |r| == n
    ensures forall i :: 0 <= i < n ==> r[i] == FreshEntry(CalcTxTime(times, i))
  {
    seq(n, i requires 0 <= i < n => FreshEntry(CalcTxTime(times, i)))
  }

  /** RateInit: rewrite every entry in place, looking up each rate's transmit time. */
  method ResetTable(table: array<RateInfo>, times: seq<TxTimeEntry>)
    modifies table
    ensures table[..] == FreshTable(times, table.Length)
  {
    for i := 0 to table.Length
      invariant forall k :: 0 <= k < i ==> table[k] == FreshEntry(CalcTxTime(times, k))
    {
      var t := GetCalcTxTime(times, i);
      table[i] := FreshEntry(t);
    }
  }

  /** Every entry of the table is settled. */
  predicate AllSettled(t: seq<RateInfo>)
  {
    forall i :: 0 <= i < |t| ==> Settled(t[i])
  }

  lemma FreshTableSettled(times: seq<TxTimeEntry>, n: nat)
    ensures AllSettled(FreshTable(times, n))
  {
  }

  /** Replacing one entry of a settled table by a settled entry keeps it settled. */
  lemma ReplaceSettled(t: seq<RateInfo>, i: nat, e: RateInfo)
    requires AllSettled(t) && i < |t| && Settled(e)
    ensures AllSettled(t[i := e])
  {
  }

  // ---------------------------------------------------------------- transmit-time lookup

  /** Entry k is the first entry of the list for this mode. */
  ghost predicate FirstMatch(times: seq<TxTimeEntry>, mode: nat, k: int)
  {
    0 <= k < |times| && times[k].mode == mode && forall j :: 0 <= j < k ==> times[j].mode != mode
  }

  /** The time of the first entry for the mode; 0 when the list has none (the source
      asserts in that case and returns zero seconds). */
  function CalcTxTime(times: seq<TxTimeEntry>, mode: nat): (t: nat)
    ensures (forall k :: 0 <= k < |times| ==> times[k].mode != mode) ==> t == 0
    ensures forall k :: FirstMatch(times, mode, k) ==> t == times[k].time
  {
    if times == [] then 0
    else if times[0].mode == mode then times[0].time
    else
      var rest := CalcTxTime(times[1..], mode);
      assert forall k :: FirstMatch(times, mode, k) ==> k >= 1 && FirstMatch(times[1..], mode, k - 1) by {
        forall k | FirstMatch(times, mode, k)
          ensures k >= 1 && FirstMatch(times[1..], mode, k - 1)
        {
          assert times[0].mode != mode;
          forall j | 0 <= j < k - 1 ensures times[1..][j].mode != mode {
            assert times[1..][j] == times[j + 1];
          }
        }
      }
      rest
  }

  /** GetCalcTxTime: linear search of the list. */
  method GetCalcTxTime(times: seq<TxTimeEntry>, mode: nat) returns (t: nat)
    ensures t == CalcTxTime(times, mode)
  {
    var i := 0;
    while i < |times|
      invariant 0 <= i <= |times|
      invariant CalcTxTime(times[i..], mode) == CalcTxTime(times, mode)
    {
      assert times[i..][0] == times[i] && times[i..][1..] == times[i + 1..];
      if times[i].mode == mode {
        return times[i].time;
      }
      i := i + 1;
    }
    t := 0;
  }

  /** AddCalcTxTime: append a (time, mode) pair. */
  function AddCalcTxTime(times: seq<TxTimeEntry>, mode: nat, time: nat): (r: seq<TxTimeEntry>)
    ensures |r| == |times| + 1 && r[..|times|] == times
    ensures forall m :: m != mode ==> CalcTxTime(r, m) == CalcTxTime(times, m)
    ensures (forall k :: 0 <= k < |times| ==> times[k].mode != mode) ==> CalcTxTime(r, mode) == time
  {
    var r := times + [TxTimeEntry(time, mode)];
    assert forall k :: 0 <= k < |times| ==> r[k] == times[k];
    forall m | m != mode ensures CalcTxTime(r, m) == CalcTxTime(times, m) {
      AppendOtherMode(times, TxTimeEntry(time, mode), m);
    }
    assert FirstMatch(r, mode, |times|) ==> CalcTxTime(r, mode) == time;
    r
  }

  lemma {:induction false} AppendOtherMode(times: seq<TxTimeEntry>, x: TxTimeEntry, m: nat)
    requires x.mode != m
    ensures CalcTxTime(times + [x], m) == CalcTxTime(times, m)
  {
    if times != [] {
      assert (times + [x])[1..] == times[1..] + [x];
      AppendOtherMode(times[1..], x, m);
    }
  }

  // ---------------------------------------------------------------- ranking

  function Throughputs(t: seq<RateInfo>): (r: seq<nat>)
    ensures |r| == |t| && forall i :: 0 <= i < |t| ==> r[i] == t[i].throughput
  {
    seq(|t|, i requires 0 <= i < |t| => t[i].throughput)
  }

  function EwmaProbs(t: seq<RateInfo>): (r: seq<nat>)
    ensures |r| == |t| && forall i :: 0 <= i < |t| ==> r[i] == t[i].ewmaProb
  {
    seq(|t|, i requires 0 <= i < |t| => t[i].ewmaProb)
  }

  /** What a left-to-right scan with a strict `<` reports: 0 when every value outside `ex`
      is 0, else the smallest index outside `ex` holding the largest such value. */
  ghost predicate IsScanMax(vals: seq<nat>, ex: set<nat>, r: nat)
  {
    if forall j :: 0 <= j < |vals| && j !in ex ==> vals[j] == 0 then r == 0
    else
      && r < |vals| && r !in ex && vals[r] > 0
      && (forall j :: 0 <= j < |vals| && j !in ex ==> vals[j] <= vals[r])
      && (forall j :: 0 <= j < r && j !in ex ==> vals[j] < vals[r])
  }

  /** The best value the scan has seen when it reports r (0 for the default report). */
  function Seen(vals: seq<nat>, ex: set<nat>, r: nat): nat
  {
    if r < |vals| && r !in ex then vals[r] else 0
  }

  /** The scan's report, defined on prefixes. */
  function ScanMax(vals: seq<nat>, ex: set<nat>): (r: nat)
    ensures IsScanMax(vals, ex, r)
    ensures |vals| > 0 ==> r < |vals|
    decreases |vals|
  {
    if |vals| == 0 then 0
    else
      var k := |vals| - 1;
      var prefix := vals[..k];
      var r0 := ScanMax(prefix, ex);
      assert forall j :: 0 <= j < k ==> vals[j] == prefix[j];
      if k !in ex && Seen(prefix, ex, r0) < vals[k] then k else r0
  }

  /** One ranking loop of UpdateStats: scan all indices except those in `ex`. */
  method MaxIndexExcluding(vals: seq<nat>, ex: set<nat>) returns (r: nat)
    ensures r == ScanMax(vals, ex)
  {
    var best: nat := 0;
    r := 0;
    for i := 0 to |vals|
      invariant r == ScanMax(vals[..i], ex) && best == Seen(vals[..i], ex, r)
    {
      assert vals[..i + 1][..i] == vals[..i];
      if i !in ex && best < vals[i] {
        r := i;
        best := vals[i];
      }
    }
    assert vals[..|vals|] == vals;
  }

  /** The runner-up never beats the best: the value at the second report is at most the
      value at the first. */
  lemma SecondNotAboveFirst(vals: seq<nat>)
    requires |vals| > 0
    ensures var m1 := ScanMax(vals, {});
            vals[ScanMax(vals, {m1})] <= vals[m1]
  {
    var m1 := ScanMax(vals, {});
    var m2 := ScanMax(vals, {m1});
    if forall j :: 0 <= j < |vals| && j !in {} ==> vals[j] == 0 {
      assert vals[m2] == 0;
    } else {
      assert 0 <= m2 < |vals| && m2 !in {};
    }
  }

  /** Excluding more indices never makes the scan report a larger value. */
  lemma ScanMaxAntitone(vals: seq<nat>, ex: set<nat>, ex2: set<nat>)
    requires ex <= ex2
    ensures Seen(vals, ex2, ScanMax(vals, ex2)) <= Seen(vals, ex, ScanMax(vals, ex))
  {
    var r1 := ScanMax(vals, ex);
    var r2 := ScanMax(vals, ex2);
    if Seen(vals, ex2, r2) > 0 {
      assert r2 < |vals| && r2 !in ex2 && r2 !in ex && vals[r2] > 0;
      assert !(forall j :: 0 <= j < |vals| && j !in ex ==> vals[j] == 0);
    }
  }

  // ---------------------------------------------------------------- retry fallback

  /** One step towards the slowest rate, stopping at index 0. */
  function StepDown(rate: nat): nat
  {
    if rate > 0 then rate - 1 else 0
  }

  /** The rate left by a data failure's fallback ladder, given the incremented long-retry
      count: beyond 6 retries the slowest rate, at 5 or 6 one step down, otherwise unchanged. */
  function Fallback(longRetry: nat, txrate: nat): (r: nat)
    ensures r <= txrate
    ensures longRetry > 6 ==> r == 0
    ensures longRetry < 5 ==> r == txrate
    ensures longRetry <= 6 ==> r + 1 >= txrate
    ensures 5 <= longRetry <= 6 ==> r == StepDown(txrate)
  {
    if longRetry > 6 then 0
    else if longRetry >= 5 then (if txrate > 0 then txrate - 1 else txrate)
    else txrate
  }

  /** `f` applied `k` times. */
  function Iterate<T>(f: T -> T, x: T, k: nat): T
  {
    if k == 0 then x else f(Iterate(f, x, k - 1))
  }

  lemma {:induction false} IterateSplit<T>(f: T -> T, x: T, a: nat, b: nat)
    ensures Iterate(f, x, a + b) == Iterate(f, Iterate(f, x, a), b)
  {
    if b > 0 {
      IterateSplit(f, x, a, b - 1);
    }
  }
}
