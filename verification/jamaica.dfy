/** The Jamaica manager: the credit/threshold rule run after each first-attempt success,
    after a data failure below the fallback ladder, and at the end of each statistics
    cycle, with an
    observation window (`addCreditThreshold`) that widens on failures and narrows on
    successes between 10 and 30, and a first data request at the fastest rate. One
    manager drives one station. */
module Jamaica {
  import opened RateStats
  import opened Credit

  /** Largest value of the source's 32-bit unsigned counters. */
  const UintMax: nat := 0xFFFF_FFFF

  /** A value reduced to 32 unsigned bits, as the source's arithmetic on `uint32_t` does. */
  function Wrap32(x: int): (r: nat)
    ensures r <= UintMax
    ensures 0 <= x <= UintMax ==> r == x
  {
    x % (UintMax + 1)
  }

  // ---------------------------------------------------------------- window auto-tuning

  /** DataFailed widens the window by one while the widened window is at most 30. */
  function ThresholdAfterFailure(t: nat): (r: nat)
    requires t <= UintMax
    ensures r <= UintMax
  {
    if Wrap32(t + 1) <= 30 then Wrap32(t + 1) else t
  }

  /** DataOk narrows the window by one while the narrowed window is at least 10. The
      subtraction is unsigned: a window of 0 becomes 4294967295. */
  function ThresholdAfterSuccess(t: nat): (r: nat)
    requires t <= UintMax
    ensures r <= UintMax
  {
    if Wrap32(t - 1) >= 10 then Wrap32(t - 1) else t
  }

  /** A window in [10, 30] stays there: each failure widens it by one up to 30, each
      success narrows it by one down to 10. Outside the band the unsigned arithmetic
      shows: a window of 0 jumps to the largest value on a success and back to 0 on the
      next failure. */
  lemma ThresholdBand(t: nat)
    requires t <= UintMax
    ensures 10 <= t <= 30 ==> 10 <= ThresholdAfterFailure(t) <= 30 && 10 <= ThresholdAfterSuccess(t) <= 30
    ensures t < 30 ==> ThresholdAfterFailure(t) == t + 1
    ensures 10 < t ==> ThresholdAfterSuccess(t) == t - 1
    ensures 30 <= t < UintMax ==> ThresholdAfterFailure(t) == t
    ensures 1 <= t <= 10 ==> ThresholdAfterSuccess(t) == t
    ensures ThresholdAfterSuccess(0) == UintMax && ThresholdAfterFailure(UintMax) == 0
  {
  }

  /** The window after `k` successes in a row. */
  function ThresholdAfterSuccesses(t: nat, k: nat): (r: nat)
    requires t <= UintMax
    ensures r <= UintMax
  {
    if k == 0 then t else ThresholdAfterSuccess(ThresholdAfterSuccesses(t, k - 1))
  }

  /** The window after `k` failures in a row. */
  function ThresholdAfterFailures(t: nat, k: nat): (r: nat)
    requires t <= UintMax
    ensures r <= UintMax
  {
    if k == 0 then t else ThresholdAfterFailure(ThresholdAfterFailures(t, k - 1))
  }

  /** From a window in [10, 30], a run of successes narrows it to max(10, t - k) and a run
      of failures widens it to min(30, t + k). */
  lemma {:induction false} ThresholdRuns(t: nat, k: nat)
    requires 10 <= t <= 30
    ensures ThresholdAfterSuccesses(t, k) == (if t - k >= 10 then t - k else 10)
    ensures ThresholdAfterFailures(t, k) == (if t + k <= 30 then t + k else 30)
  {
    if k > 0 {
      ThresholdRuns(t, k - 1);
    }
  }

  // ---------------------------------------------------------------- runs of successes

  /** A quiet station after `j` successes that did not fill the window. */
  function Counted(b: CreditStation, j: nat): CreditStation
  {
    b.(ok := j, packetCount := b.packetCount + j)
  }

  /** One first-attempt success as DataOk handles it on an initialized station: the
      success is counted, then CheckRate runs. */
  function SuccessStep(st: CreditStation, n: nat, addThr: nat, raiseThr: nat): CreditStation
  {
    CreditCheck(Succeeded(st), n, addThr, raiseThr)
  }

  /** The station after `k` first-attempt successes, with the window fixed at `addThr`
      (as it is once it has narrowed to 10). */
  function SuccessRun(st: CreditStation, k: nat, n: nat, addThr: nat, raiseThr: nat): CreditStation
  {
    Iterate(s => SuccessStep(s, n, addThr, raiseThr), st, k)
  }

  lemma SuccessRunSplit(st: CreditStation, a: nat, b: nat, n: nat, addThr: nat, raiseThr: nat)
    ensures SuccessRun(st, a + b, n, addThr, raiseThr)
            == SuccessRun(SuccessRun(st, a, n, addThr, raiseThr), b, n, addThr, raiseThr)
  {
    IterateSplit(s => SuccessStep(s, n, addThr, raiseThr), st, a, b);
  }

  /** What one full window of successes does to a quiet station: one more credit, or, when
      that reaches the raise threshold, one step up (if there is a faster rate) and the
      credit spent. */
  function AfterWindow(st: CreditStation, n: nat, addThr: nat, raiseThr: nat): CreditStation
  {
    var c := st.credit + 1;
    var pc := st.packetCount + addThr;
    if c >= raiseThr then
      var rate := if st.txrate + 1 < n then st.txrate + 1 else st.txrate;
      st.(txrate := rate, currentRate := rate, credit := 0, packetCount := pc)
    else st.(credit := c, packetCount := pc)
  }

  lemma SucceededQuiet(b: CreditStation, j: nat)
    requires Quiet(b)
    ensures Succeeded(Counted(b, j)) == Counted(b, j + 1).(currentRate := 0)
  {
  }

  /** A success that leaves the window short only counts. */
  lemma CountingStep(b: CreditStation, j: nat, n: nat, addThr: nat, raiseThr: nat)
    requires Quiet(b) && b.credit < raiseThr && j + 1 < addThr
    ensures SuccessStep(Counted(b, j), n, addThr, raiseThr) == Counted(b, j + 1)
  {
    SucceededQuiet(b, j);
    var s := Counted(b, j + 1).(currentRate := 0);
    assert !Enough(s, addThr);
    assert Lowered(s, addThr) == s.txrate;
    assert Credited(s, addThr) == s.credit;
  }

  /** The success that fills the window earns the credit, and possibly the raise. */
  lemma WindowStep(b: CreditStation, n: nat, addThr: nat, raiseThr: nat)
    requires Quiet(b) && b.credit < raiseThr && addThr >= 1
    ensures SuccessStep(Counted(b, addThr - 1), n, addThr, raiseThr) == AfterWindow(b, n, addThr, raiseThr)
  {
    SucceededQuiet(b, addThr - 1);
    var s := Counted(b, addThr).(currentRate := 0);
    assert Enough(s, addThr);
    assert Lowered(s, addThr) == s.txrate;
    assert Credited(s, addThr) == s.credit + 1;
  }

  /** Successes short of a full window only count. */
  lemma {:induction false} PartialWindow(st: CreditStation, j: nat, n: nat, addThr: nat, raiseThr: nat)
    requires Quiet(st) && st.credit < raiseThr && j < addThr
    ensures SuccessRun(st, j, n, addThr, raiseThr) == Counted(st, j)
  {
    if j > 0 {
      PartialWindow(st, j - 1, n, addThr, raiseThr);
      CountingStep(st, j - 1, n, addThr, raiseThr);
    }
  }

  /** A full window of successes yields AfterWindow, again a quiet station. */
  lemma FullWindow(st: CreditStation, n: nat, addThr: nat, raiseThr: nat)
    requires Quiet(st) && st.credit < raiseThr && addThr >= 1
    ensures SuccessRun(st, addThr, n, addThr, raiseThr) == AfterWindow(st, n, addThr, raiseThr)
    ensures Quiet(AfterWindow(st, n, addThr, raiseThr))
  {
    PartialWindow(st, addThr - 1, n, addThr, raiseThr);
    WindowStep(st, n, addThr, raiseThr);
  }

  /** Credit builds by one per full window, and the rate holds meanwhile. */
  lemma {:induction false} CreditPerWindow(st: CreditStation, w: nat, n: nat, addThr: nat, raiseThr: nat)
    requires Quiet(st) && addThr >= 1 && st.credit + w < raiseThr
    ensures SuccessRun(st, w * addThr, n, addThr, raiseThr)
            == st.(credit := st.credit + w, packetCount := st.packetCount + w * addThr)
  {
    if w > 0 {
      var k := (w - 1) * addThr;
      assert w * addThr == k + addThr;
      CreditPerWindow(st, w - 1, n, addThr, raiseThr);
      SuccessRunSplit(st, k, addThr, n, addThr, raiseThr);
      var mid := st.(credit := st.credit + (w - 1), packetCount := st.packetCount + k);
      assert SuccessRun(st, k, n, addThr, raiseThr) == mid;
      assert SuccessRun(st, w * addThr, n, addThr, raiseThr) == SuccessRun(mid, addThr, n, addThr, raiseThr);
      FullWindow(mid, n, addThr, raiseThr);
      assert AfterWindow(mid, n, addThr, raiseThr)
          == st.(credit := st.credit + w, packetCount := st.packetCount + w * addThr);
    }
  }

  /** `k` successes are `k / addThr` whole windows and a remainder. */
  lemma WindowsBefore(k: nat, addThr: nat, need: nat)
    requires addThr >= 1 && k < need * addThr
    ensures k / addThr < need && k == (k / addThr) * addThr + k % addThr && k % addThr < addThr
  {
    var w := k / addThr;
    if w >= need {
      MulMono(addThr, need, w);
      assert false;
    }
  }

  lemma LastWindow(need: nat, addThr: nat)
    requires need >= 1
    ensures need * addThr == (need - 1) * addThr + addThr
  {
  }

  /** Before the credit can reach the raise threshold, a run of clean successes never
      changes the rate. */
  lemma SuccessRunHolds(st: CreditStation, k: nat, n: nat, addThr: nat, raiseThr: nat)
    requires Quiet(st) && addThr >= 1 && st.credit < raiseThr
    requires k < (raiseThr - st.credit) * addThr
    ensures SuccessRun(st, k, n, addThr, raiseThr).txrate == st.txrate
  {
    WindowsBefore(k, addThr, raiseThr - st.credit);
    var w := k / addThr;
    var j := k % addThr;
    CreditPerWindow(st, w, n, addThr, raiseThr);
    SuccessRunSplit(st, w * addThr, j, n, addThr, raiseThr);
    PartialWindow(st.(credit := st.credit + w, packetCount := st.packetCount + w * addThr), j, n, addThr, raiseThr);
  }

  /** The success that completes the last window the credit needs raises the rate one
      step (if there is a faster rate), spends the credit and leaves the station quiet. */
  lemma SuccessRunRaises(st: CreditStation, k: nat, n: nat, addThr: nat, raiseThr: nat)
    requires Quiet(st) && addThr >= 1 && st.credit < raiseThr
    requires k == (raiseThr - st.credit) * addThr
    ensures var r := SuccessRun(st, k, n, addThr, raiseThr);
            && r.txrate == (if st.txrate + 1 < n then st.txrate + 1 else st.txrate)
            && Quiet(r) && r.credit == 0
  {
    var need := raiseThr - st.credit;
    var before := (need - 1) * addThr;
    CreditPerWindow(st, need - 1, n, addThr, raiseThr);
    LastWindow(need, addThr);
    SuccessRunSplit(st, before, addThr, n, addThr, raiseThr);
    var mid := st.(credit := st.credit + (need - 1), packetCount := st.packetCount + before);
    assert SuccessRun(st, before, n, addThr, raiseThr) == mid;
    FullWindow(mid, n, addThr, raiseThr);
  }

  /** Clean successes from a quiet station at rate 0 of four, both thresholds at 10: ten
      successes earn a single credit and keep the rate; it takes a hundred to reach
      rate 1. */
  lemma HundredSuccessesRaiseOnce(st: CreditStation)
    requires Quiet(st) && st.txrate == 0 && st.credit == 0
    ensures SuccessRun(st, 10, 4, 10, 10).txrate == 0 && SuccessRun(st, 10, 4, 10, 10).credit == 1
    ensures SuccessRun(st, 99, 4, 10, 10).txrate == 0
    ensures SuccessRun(st, 100, 4, 10, 10).txrate == 1 && SuccessRun(st, 100, 4, 10, 10).credit == 0
  {
    CreditPerWindow(st, 1, 4, 10, 10);
    SuccessRunHolds(st, 99, 4, 10, 10);
    SuccessRunRaises(st, 100, 4, 10, 10);
  }

  // ---------------------------------------------------------------- first data request

  /** The first request's rate as the source computes it: the largest index, by unsigned
      subtraction, whether or not a table was built. */
  function StartRateAsWritten(nsupported: nat): nat
    requires nsupported <= UintMax
  {
    Wrap32(nsupported - 1)
  }

  /** When no table could be built (the station reports at most one rate, so the manager's
      `nsupported` is still 0), the as-written start rate is 4294967295: the mode asked for
      right away is not one of the station's `count` rates, and a table built later for
      `count` rates cannot be indexed by it either. */
  lemma StartRateAsWrittenOutOfRange(count: nat)
    requires count <= UintMax
    ensures StartRateAsWritten(0) == UintMax
    ensures !(StartRateAsWritten(0) < count)
  {
  }

  // ---------------------------------------------------------------- manager

  class JamaicaManager {
    var table: array<RateInfo>
    var nsupported: nat
    var calcTxTime: seq<TxTimeEntry>
    const updateStats: nat
    const ewmaLevel: nat
    var addCreditThreshold: nat
    const raiseThreshold: nat
    var sta: CreditStation

    /** One table entry per supported rate, settled between refreshes; an initialized
        station has at least two rates and both its rates index the table; the window
        is a 32-bit value. */
    ghost predicate Valid()
      reads this, table
    {
      && table.Length == nsupported
      && ewmaLevel <= 100
      && addCreditThreshold <= UintMax
      && (sta.initialized ==>
            && nsupported > 1
            && sta.txrate < nsupported && sta.currentRate < nsupported
            && AllSettled(table[..]))
      && (!sta.initialized ==> nsupported == 0 && sta.txrate == 0 && sta.currentRate == 0)
    }

    ghost function InitStation(count: nat): CreditStation
      reads this
    {
      if !sta.initialized && count > 1 then sta.(initialized := true) else sta
    }

    ghost function InitTable(count: nat): seq<RateInfo>
      reads this, table
    {
      if !sta.initialized && count > 1 then FreshTable(calcTxTime, count) else table[..]
    }

    /** The station once a first request has built the table and set the start rate. */
    ghost function StartStation(count: nat): CreditStation
      reads this
    {
      if !sta.initialized && count > 1 then sta.(initialized := true, txrate := count - 1) else sta
    }

    /** The manager with no table yet and its one station just created at `now`. */
    constructor (now: nat, calcTxTime: seq<TxTimeEntry>, updateStats: nat, ewmaLevel: nat,
                 addCreditThreshold: nat, raiseThreshold: nat)
      requires ewmaLevel <= 100 && addCreditThreshold <= UintMax
      ensures Valid() && fresh(table)
      ensures nsupported == 0 && this.calcTxTime == calcTxTime && this.updateStats == updateStats
      ensures this.ewmaLevel == ewmaLevel && this.addCreditThreshold == addCreditThreshold
      ensures this.raiseThreshold == raiseThreshold
      ensures sta == NewStation(now + updateStats)
    {
      table := new RateInfo[0];
      nsupported := 0;
      this.calcTxTime := calcTxTime;
      this.updateStats := updateStats;
      this.ewmaLevel := ewmaLevel;
      this.addCreditThreshold := addCreditThreshold;
      this.raiseThreshold := raiseThreshold;
      sta := NewStation(now + updateStats);
    }

    /** Records the transmission time of one more mode. */
    method AddCalcTxTime(mode: nat, time: nat)
      modifies this
      ensures calcTxTime == RateStats.AddCalcTxTime(old(calcTxTime), mode, time)
      ensures table == old(table) && nsupported == old(nsupported) && sta == old(sta)
      ensures addCreditThreshold == old(addCreditThreshold)
    {
      calcTxTime := RateStats.AddCalcTxTime(calcTxTime, mode, time);
    }

    /** Rebuilds every entry from the transmission-time list. */
    method RateInit()
      modifies table
      ensures table[..] == FreshTable(calcTxTime, table.Length)
    {
      ResetTable(table, calcTxTime);
    }

    /** Builds the table on the first report that finds more than one supported rate. */
    method CheckInit(count: nat)
      requires Valid()
      modifies this
      ensures Valid()
      ensures sta == old(InitStation(count)) && table[..] == old(InitTable(count))
      ensures old(sta.initialized) || count <= 1 ==> table == old(table) && nsupported == old(nsupported)
      ensures !old(sta.initialized) && count > 1 ==> fresh(table) && nsupported == count
      ensures calcTxTime == old(calcTxTime) && addCreditThreshold == old(addCreditThreshold)
    {
      if !sta.initialized && count > 1 {
        nsupported := count;
        table := new RateInfo[count];
        RateInit();
        FreshTableSettled(calcTxTime, count);
        sta := sta.(initialized := true);
      }
    }

    /** The credit/threshold decision with the current window. */
    method CheckRate()
      requires Valid() && sta.initialized
      modifies this
      ensures Valid()
      ensures sta == CreditCheck(old(sta), nsupported, addCreditThreshold, raiseThreshold)
      ensures table == old(table) && nsupported == old(nsupported) && calcTxTime == old(calcTxTime)
      ensures addCreditThreshold == old(addCreditThreshold)
    {
      sta := Credit.CheckRate(sta, nsupported, addCreditThreshold, raiseThreshold);
    }

    method RtsFailed()
      modifies this
      ensures sta == old(sta).(shortRetry := old(sta.shortRetry) + 1)
      ensures table == old(table) && nsupported == old(nsupported) && calcTxTime == old(calcTxTime)
      ensures addCreditThreshold == old(addCreditThreshold)
    {
      sta := sta.(shortRetry := sta.shortRetry + 1);
    }

    /** Folds the retries of the frame just resolved into `retry`. */
    method UpdateRetry()
      modifies this
      ensures sta == FoldRetries(old(sta))
      ensures table == old(table) && nsupported == old(nsupported) && calcTxTime == old(calcTxTime)
      ensures addCreditThreshold == old(addCreditThreshold)
    {
      sta := sta.(retry := sta.shortRetry + sta.longRetry, shortRetry := 0, longRetry := 0);
    }

    method FinalRtsFailed()
      requires Valid()
      modifies this
      ensures Valid()
      ensures sta == FoldRetries(old(sta)).(err := old(sta.err) + 1)
      ensures table == old(table) && nsupported == old(nsupported) && calcTxTime == old(calcTxTime)
      ensures addCreditThreshold == old(addCreditThreshold)
    {
      UpdateRetry();
      sta := sta.(err := sta.err + 1);
    }

    /** A data frame failed: nothing while no table can be built; otherwise one more long
        retry, a wider window, and the fallback ladder or the credit decision. */
    method DataFailed(count: nat)
      requires Valid()
      modifies this
      ensures Valid()
      ensures var s := old(InitStation(count));
              if s.initialized then
                && addCreditThreshold == ThresholdAfterFailure(old(addCreditThreshold))
                && sta == DataFailure(s, nsupported, addCreditThreshold, raiseThreshold)
              else sta == s && addCreditThreshold == old(addCreditThreshold)
      ensures table[..] == old(InitTable(count)) && calcTxTime == old(calcTxTime)
    {
      CheckInit(count);
      if !sta.initialized {
        return;
      }
      sta := sta.(longRetry := sta.longRetry + 1);
      addCreditThreshold := ThresholdAfterFailure(addCreditThreshold);
      if sta.longRetry > 6 {
        sta := sta.(txrate := 0);
      } else if sta.longRetry >= 5 {
        if sta.txrate > 0 {
          sta := sta.(txrate := sta.txrate - 1);
        }
      } else {
        CheckRate();
      }
    }

    /** The bookkeeping of an acknowledged frame on an initialized station: the success
        and its retries on the current rate's entry, one more success and one more
        packet for the station. */
    method CountSuccess()
      requires Valid() && sta.initialized
      modifies this, table
      ensures table == old(table) && nsupported == old(nsupported) && calcTxTime == old(calcTxTime)
      ensures addCreditThreshold == old(addCreditThreshold)
      ensures Valid()
      ensures var s := old(sta);
              var retry := s.shortRetry + s.longRetry;
              && sta == s.(retry := retry, shortRetry := 0, longRetry := 0, ok := s.ok + 1, packetCount := s.packetCount + 1)
              && table[..] == old(table[..])[s.txrate := RecordSuccess(old(table[s.txrate]), retry)]
    {
      var s := sta;
      var retry := s.shortRetry + s.longRetry;
      ghost var before := table[..];
      table[s.txrate] := RecordSuccess(table[s.txrate], retry);
      assert table[..] == before[s.txrate := RecordSuccess(before[s.txrate], retry)];
      ReplaceSettled(before, s.txrate, RecordSuccess(before[s.txrate], retry));
      sta := s.(retry := retry, shortRetry := 0, longRetry := 0, ok := s.ok + 1, packetCount := s.packetCount + 1);
    }

    /** A data frame was acknowledged: a narrower window, the success and its retries on
        the current rate's entry, and the credit decision. */
    method DataOk(count: nat)
      requires Valid()
      modifies this, table
      ensures calcTxTime == old(calcTxTime)
      ensures addCreditThreshold == ThresholdAfterSuccess(old(addCreditThreshold))
      ensures Valid()
      ensures var s := old(InitStation(count));
              var t := old(InitTable(count));
              if s.initialized then
                var done := Succeeded(s);
                && done.txrate < |t|
                && sta == CreditCheck(done, nsupported, addCreditThreshold, raiseThreshold)
                && table[..] == t[done.txrate := RecordSuccess(t[done.txrate], s.shortRetry + s.longRetry)]
              else sta == Restore(s).(currentRate := 0) && table[..] == t
    {
      ghost var s0 := InitStation(count);
      addCreditThreshold := ThresholdAfterSuccess(addCreditThreshold);
      var s := sta;
      if s.currentRate > 0 && s.isRetry {
        s := s.(txrate := s.currentRate, isRetry := false);
      }
      sta := s.(currentRate := 0);
      CheckInit(count);
      if !sta.initialized {
        return;
      }
      CountSuccess();
      assert sta == Succeeded(s0);
      CheckRate();
    }

    /** A data frame was dropped: its retries are attempts without success at the current
        rate and one more error is counted. The source indexes the table without an
        initialization check, hence the precondition. */
    method FinalDataFailed()
      requires Valid() && sta.initialized
      modifies this, table
      ensures Valid()
      ensures var s := FinallyFailed(old(sta));
              && sta == s
              && table[..] == old(table[..])[s.txrate := RecordFailure(old(table[s.txrate]), s.retry)]
      ensures table == old(table) && calcTxTime == old(calcTxTime) && addCreditThreshold == old(addCreditThreshold)
    {
      if sta.currentRate > 0 && sta.isRetry {
        sta := sta.(txrate := sta.currentRate, isRetry := false);
      }
      sta := sta.(currentRate := 0);
      UpdateRetry();
      var e := table[sta.txrate];
      table[sta.txrate] := e.(numRateAttempt := e.numRateAttempt + sta.retry);
      sta := sta.(err := sta.err + 1);
    }

    /** The statistics cycle: once the deadline has passed on an initialized station,
        refresh every entry, rank five rates, raise the rate to the best one, decide, and
        rebuild the table. */
    method UpdateStats(now: nat)
      requires Valid()
      modifies this, table
      ensures Valid()
      ensures table == old(table) && nsupported == old(nsupported) && calcTxTime == old(calcTxTime)
      ensures addCreditThreshold == old(addCreditThreshold)
      ensures now < old(sta.nextStatsUpdate) || !old(sta.initialized) ==>
                sta == old(sta) && table[..] == old(table[..])
      ensures now >= old(sta.nextStatsUpdate) && old(sta.initialized) ==>
                var t := Refreshed(old(table[..]), ewmaLevel);
                var ranked := RaiseToBest(Rank(old(sta).(nextStatsUpdate := now + updateStats), t));
                && sta == CreditCheck(ranked, nsupported, addCreditThreshold, raiseThreshold)
                && table[..] == FreshTable(calcTxTime, nsupported)
    {
      if now < sta.nextStatsUpdate {
        return;
      }
      if !sta.initialized {
        return;
      }
      var s := sta.(nextStatsUpdate := now + updateStats);
      RefreshTable(table, ewmaLevel);
      sta := RankAndDecide(s, table[..], addCreditThreshold, raiseThreshold);
      RateInit();
      FreshTableSettled(calcTxTime, nsupported);
    }

    /** The rate for the next data frame. The first request builds the table if it can
        and starts at the fastest rate; the start rate is only set when a table was built
        (see StartRateAsWritten for the source's unguarded version). Then the statistics
        cycle runs and the transmit rate is answered. */
    method DoGetDataMode(count: nat, now: nat) returns (rate: nat)
      requires Valid()
      modifies this, table
      ensures Valid()
      ensures rate == sta.txrate && sta.initialized == (old(sta.initialized) || count > 1)
      ensures sta.initialized ==> rate < nsupported == table.Length
      ensures !sta.initialized ==> rate == 0 && table.Length == 0
      ensures !old(sta.initialized) && count > 1 && now < old(sta.nextStatsUpdate) ==> rate == count - 1
      ensures calcTxTime == old(calcTxTime) && addCreditThreshold == old(addCreditThreshold)
      ensures var s := old(StartStation(count));
              var t := old(InitTable(count));
              if now >= s.nextStatsUpdate && s.initialized then
                var ranked := RaiseToBest(Rank(s.(nextStatsUpdate := now + updateStats), Refreshed(t, ewmaLevel)));
                && sta == CreditCheck(ranked, nsupported, addCreditThreshold, raiseThreshold)
                && table[..] == FreshTable(calcTxTime, nsupported)
              else sta == s && table[..] == t
    {
      ghost var s := StartStation(count);
      ghost var t := InitTable(count);
      if !sta.initialized {
        CheckInit(count);
        if nsupported > 1 {
          sta := sta.(txrate := nsupported - 1);
        }
      }
      assert sta == s && table[..] == t;
      UpdateStats(now);
      rate := sta.txrate;
    }

    /** RTS frames always go at the slowest rate. */
    method DoGetRtsMode() returns (rate: nat)
      ensures rate == 0
    {
      rate := 0;
    }
  }
}
