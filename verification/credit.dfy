/** The credit/threshold machinery common to the Jamaica and Maica managers: their station
    record (the two sources declare identical structs), the decision rule of CheckRate, and
    the five-deep throughput ranking of UpdateStats. */
module Credit {
  import opened RateStats

  /** Per-station state of a credit/threshold manager. Times are microseconds. */
  datatype CreditStation = CreditStation(
    nextStatsUpdate: nat,
    maxTpRate: nat, maxTpRate2: nat, maxTpRate3: nat, maxTpRate4: nat, maxTpRate5: nat,
    maxProbRate: nat,
    currentRate: nat,
    shortRetry: nat, longRetry: nat, retry: nat,
    err: nat,
    txrate: nat,          // rate index of the next data frame
    credit: nat,
    ok: nat,
    isRetry: bool,
    initialized: bool,
    packetCount: nat)

  /** DoCreateStation: every counter and index 0, not initialized, first refresh due at
      `nextStatsUpdate`. */
  function NewStation(nextStatsUpdate: nat): (st: CreditStation)
    ensures st.nextStatsUpdate == nextStatsUpdate && !st.initialized && !st.isRetry
    ensures st.txrate == 0 && st.currentRate == 0 && st.credit == 0
    ensures st.ok == 0 && st.err == 0 && st.retry == 0 && st.shortRetry == 0 && st.longRetry == 0
    ensures st.packetCount == 0 && st.maxProbRate == 0
    ensures st.maxTpRate == 0 && st.maxTpRate2 == 0 && st.maxTpRate3 == 0 && st.maxTpRate4 == 0 && st.maxTpRate5 == 0
  {
    CreditStation(nextStatsUpdate, 0, 0, 0, 0, 0, 0, 0, 0, 0, 0, 0, 0, 0, 0, false, false, 0)
  }

  /** UpdateRetry: the retries of the frame just resolved become `retry`. */
  function FoldRetries(st: CreditStation): (r: CreditStation)
    ensures r.retry == st.shortRetry + st.longRetry && r.shortRetry == 0 && r.longRetry == 0
    ensures r.(retry := st.retry, shortRetry := st.shortRetry, longRetry := st.longRetry) == st
  {
    st.(retry := st.shortRetry + st.longRetry, shortRetry := 0, longRetry := 0)
  }

  /** The rate restore that DataOk and FinalDataFailed perform when a retry is flagged. */
  function Restore(st: CreditStation): (r: CreditStation)
    ensures !r.isRetry || r == st
    ensures !st.isRetry ==> r == st
    ensures st.isRetry && st.currentRate > 0 ==> r == st.(txrate := st.currentRate, isRetry := false)
  {
    if st.currentRate > 0 && st.isRetry then st.(txrate := st.currentRate, isRetry := false) else st
  }

  /** The station side of a data success on an initialized station, before any rate
      decision: the retry restore, the cleared current rate, the retry fold, one more
      success and one more packet. */
  function Succeeded(st: CreditStation): (r: CreditStation)
    ensures r.ok == st.ok + 1 && r.err == st.err && r.packetCount == st.packetCount + 1
    ensures r.retry == st.shortRetry + st.longRetry && r.shortRetry == 0 && r.longRetry == 0
    ensures r.currentRate == 0 && r.isRetry == (st.isRetry && st.currentRate == 0) && r.credit == st.credit
    ensures r.txrate == (if st.currentRate > 0 && st.isRetry then st.currentRate else st.txrate)
    ensures r.(ok := st.ok, packetCount := st.packetCount, retry := st.retry, shortRetry := st.shortRetry,
               longRetry := st.longRetry, currentRate := st.currentRate, isRetry := st.isRetry, txrate := st.txrate) == st
  {
    var s := FoldRetries(Restore(st).(currentRate := 0));
    s.(ok := s.ok + 1, packetCount := s.packetCount + 1)
  }

  /** The station side of a final data failure: the retry restore, the cleared current
      rate, the retry fold and one more error. */
  function FinallyFailed(st: CreditStation): (r: CreditStation)
    ensures r.err == st.err + 1 && r.ok == st.ok && r.packetCount == st.packetCount
    ensures r.retry == st.shortRetry + st.longRetry && r.shortRetry == 0 && r.longRetry == 0
    ensures r.currentRate == 0 && r.isRetry == (st.isRetry && st.currentRate == 0) && r.credit == st.credit
    ensures r.txrate == (if st.currentRate > 0 && st.isRetry then st.currentRate else st.txrate)
    ensures r.(err := st.err, retry := st.retry, shortRetry := st.shortRetry, longRetry := st.longRetry,
               currentRate := st.currentRate, isRetry := st.isRetry, txrate := st.txrate) == st
  {
    var s := FoldRetries(Restore(st).(currentRate := 0));
    s.(err := s.err + 1)
  }

  /** No frame in flight: counters cleared, no retry flagged, current rate settled. */
  predicate Quiet(st: CreditStation)
  {
    && st.ok == 0 && st.err == 0 && st.retry == 0 && st.shortRetry == 0 && st.longRetry == 0
    && !st.isRetry && st.currentRate == st.txrate
  }

  // ------------------------------------------------------------------ decision rule

  /** The window is full: enough frames have resolved since the counters were last cleared. */
  predicate Enough(st: CreditStation, addThr: nat)
  {
    st.ok + st.err >= addThr
  }

  /** Errors tolerated in a window of `ok` successes: 30%, rounded down. */
  function ErrorThreshold(ok: nat): nat
  {
    ok * 3 / 10
  }

  /** The first three stages of CheckRate: independent one-step decreases for a window
      with only losses, with more retries than successes, and with errors above the
      threshold; the last one adds a 3/4 cut when errors also outnumber successes. */
  function Lowered(st: CreditStation, addThr: nat): nat
  {
    var enough := Enough(st, addThr);
    var r1 := if enough && st.err > 0 && st.ok == 0 then StepDown(st.txrate) else st.txrate;
    var r2 := if enough && st.ok < st.retry then StepDown(r1) else r1;
    if !(enough && st.err > ErrorThreshold(st.ok)) then r2
    else if st.ok < st.err && StepDown(r2) >= 4 then StepDown(r2) * 3 / 4
    else StepDown(r2)
  }

  /** The credit after the down-steps (any of them clears it) and the award of one credit
      for a full window whose errors are within the threshold. */
  function Credited(st: CreditStation, addThr: nat): nat
  {
    var enough := Enough(st, addThr);
    var penalised := enough && ((st.err > 0 && st.ok == 0) || st.ok < st.retry || st.err > ErrorThreshold(st.ok));
    var c1 := if penalised then 0 else st.credit;
    if enough && st.err <= ErrorThreshold(st.ok) then c1 + 1 else c1
  }

  /** The outcome of CheckRate: the down-steps, the credit award, a one-step raise (and
      a cleared credit) once credit reaches `raiseThr`, then the commit: a changed rate
      clears the whole window, an unchanged rate clears it only when it was full. */
  function CreditCheck(st: CreditStation, n: nat, addThr: nat, raiseThr: nat): CreditStation
  {
    var r3 := Lowered(st, addThr);
    var c2 := Credited(st, addThr);
    var raise := c2 >= raiseThr;
    var c3 := if raise then 0 else c2;
    var r4 := if raise && r3 + 1 < n then r3 + 1 else r3;
    var committed :=
      if r4 != st.txrate then st.(txrate := r4, ok := 0, err := 0, retry := 0, credit := 0)
      else if Enough(st, addThr) then st.(ok := 0, err := 0, retry := 0, credit := c3)
      else st.(credit := c3);
    committed.(currentRate := committed.txrate)
  }

  /** CheckRate, step by step on the station's fields as the source does it. */
  method CheckRate(st: CreditStation, n: nat, addThr: nat, raiseThr: nat) returns (r: CreditStation)
    ensures r == CreditCheck(st, n, addThr, raiseThr)
    ensures st.txrate < n ==> r.txrate < n
    ensures r.currentRate == r.txrate
  {
    var errorThres := st.ok * 3 / 10;
    var enough := st.ok + st.err >= addThr;
    var nrate := st.txrate;
    var credit := st.credit;
    if enough && st.err > 0 && st.ok == 0 {
      if nrate > 0 {
        nrate := nrate - 1;
      }
      credit := 0;
    }
    if enough && st.ok < st.retry {
      if nrate > 0 {
        nrate := nrate - 1;
      }
      credit := 0;
    }
    if enough && st.err > errorThres {
      if nrate > 0 {
        nrate := nrate - 1;
      }
      if enough && st.ok < st.err {
        if nrate >= 4 {
          nrate := nrate * 3 / 4;
        }
      }
      credit := 0;
    }
    assert nrate == Lowered(st, addThr);
    if enough && st.err <= errorThres {
      credit := credit + 1;
    }
    assert credit == Credited(st, addThr);
    if credit >= raiseThr {
      credit := 0;
      if nrate + 1 < n {
        nrate := nrate + 1;
      }
    }
    if nrate != st.txrate {
      r := st.(txrate := nrate, ok := 0, err := 0, retry := 0, credit := 0);
    } else if enough {
      r := st.(ok := 0, err := 0, retry := 0, credit := credit);
    } else {
      r := st.(credit := credit);
    }
    r := r.(currentRate := r.txrate);
  }

  /** The chosen rate stays a valid index and becomes the current rate. */
  lemma CheckRateInRange(st: CreditStation, n: nat, addThr: nat, raiseThr: nat)
    requires st.txrate < n
    ensures var r := CreditCheck(st, n, addThr, raiseThr);
            r.txrate < n && r.currentRate == r.txrate
  {
  }

  /** Credit grows by at most one per call, and only for a full window whose errors are
      within the 30% threshold. */
  lemma CreditGrowsByAtMostOne(st: CreditStation, n: nat, addThr: nat, raiseThr: nat)
    ensures var r := CreditCheck(st, n, addThr, raiseThr);
            && r.credit <= st.credit + 1
            && (r.credit > st.credit ==> Enough(st, addThr) && st.err <= ErrorThreshold(st.ok))
  {
  }

  /** Counter resets: a rate change clears ok, err, retry and credit; an unchanged rate
      clears ok, err and retry when the window is full and keeps the (possibly credited)
      credit; a window that is not full leaves ok, err and retry alone. */
  lemma CheckRateResets(st: CreditStation, n: nat, addThr: nat, raiseThr: nat)
    ensures var r := CreditCheck(st, n, addThr, raiseThr);
            && (r.txrate != st.txrate ==> r.ok == 0 && r.err == 0 && r.retry == 0 && r.credit == 0)
            && (r.txrate == st.txrate && Enough(st, addThr) ==> r.ok == 0 && r.err == 0 && r.retry == 0)
            && ((r.txrate == st.txrate && Enough(st, addThr) && st.err <= ErrorThreshold(st.ok) &&
                 st.ok >= st.retry && st.credit + 1 < raiseThr) ==> r.credit == st.credit + 1)
            && (!Enough(st, addThr) ==> r.txrate == st.txrate || r.txrate == st.txrate + 1)
            && (r.txrate == st.txrate && !Enough(st, addThr) ==> r.ok == st.ok && r.err == st.err && r.retry == st.retry)
  {
  }

  /** The rate rises by at most one step, and only when the credit reached the raise
      threshold; it falls by more than three steps only through the 3/4 cut, which needs
      a full window with errors above the threshold and above the successes. */
  lemma CheckRateSteps(st: CreditStation, n: nat, addThr: nat, raiseThr: nat)
    ensures var r := CreditCheck(st, n, addThr, raiseThr);
            && r.txrate <= st.txrate + 1
            && (r.txrate > st.txrate ==> st.credit + 1 >= raiseThr)
            && (r.txrate + 3 < st.txrate ==>
                  Enough(st, addThr) && st.err > ErrorThreshold(st.ok) && st.ok < st.err && st.txrate >= 4)
  {
  }

  /** A full window with no retries and errors within the threshold never lowers the rate. */
  lemma CleanWindowNeverLowers(st: CreditStation, n: nat, addThr: nat, raiseThr: nat)
    requires Enough(st, addThr) && st.err <= ErrorThreshold(st.ok) && st.ok >= st.retry
    ensures CreditCheck(st, n, addThr, raiseThr).txrate >= st.txrate
  {
  }

  /** A data failure on an initialized station: one more long retry, then the fallback
      ladder, which leaves the decision to CheckRate for the first four retries. */
  function DataFailure(st: CreditStation, n: nat, addThr: nat, raiseThr: nat): (r: CreditStation)
    ensures st.txrate < n ==> r.txrate < n
    ensures st.longRetry + 1 >= 5 ==>
              r == st.(longRetry := st.longRetry + 1, txrate := Fallback(st.longRetry + 1, st.txrate))
    ensures st.longRetry + 1 < 5 ==>
              r == CreditCheck(st.(longRetry := st.longRetry + 1), n, addThr, raiseThr)
  {
    var f := st.(longRetry := st.longRetry + 1);
    if f.longRetry > 6 then f.(txrate := 0)
    else if f.longRetry >= 5 then f.(txrate := StepDown(f.txrate))
    else CreditCheck(f, n, addThr, raiseThr)
  }

  // ------------------------------------------------------------------ ranking

  /** The top-five throughput ranking and the best-probability index of UpdateStats, each
      a strict-`<` scan excluding the indices already chosen. */
  function Rank(st: CreditStation, t: seq<RateInfo>): CreditStation
  {
    var tps := Throughputs(t);
    var m1 := ScanMax(tps, {});
    var m2 := ScanMax(tps, {m1});
    var m3 := ScanMax(tps, {m1, m2});
    var m4 := ScanMax(tps, {m1, m2, m3});
    var m5 := ScanMax(tps, {m1, m2, m3, m4});
    st.(maxTpRate := m1, maxTpRate2 := m2, maxTpRate3 := m3, maxTpRate4 := m4, maxTpRate5 := m5,
        maxProbRate := ScanMax(EwmaProbs(t), {}))
  }

  /** The five ranking loops and the best-probability scan. */
  method RankStation(st: CreditStation, t: seq<RateInfo>) returns (r: CreditStation)
    ensures r == Rank(st, t)
    ensures |t| > 0 ==> && r.maxTpRate < |t| && r.maxTpRate2 < |t| && r.maxTpRate3 < |t|
                        && r.maxTpRate4 < |t| && r.maxTpRate5 < |t| && r.maxProbRate < |t|
  {
    var tps := Throughputs(t);
    var m1 := MaxIndexExcluding(tps, {});
    var mp := MaxIndexExcluding(EwmaProbs(t), {});
    var m2 := MaxIndexExcluding(tps, {m1});
    var m3 := MaxIndexExcluding(tps, {m1, m2});
    var m4 := MaxIndexExcluding(tps, {m1, m2, m3});
    var m5 := MaxIndexExcluding(tps, {m1, m2, m3, m4});
    r := st.(maxTpRate := m1, maxTpRate2 := m2, maxTpRate3 := m3, maxTpRate4 := m4, maxTpRate5 := m5,
             maxProbRate := mp);
  }

  /** Each ranking slot is the scan it is meant to be, and the throughputs the five scans
      report never increase from one slot to the next. */
  lemma RankOrdered(st: CreditStation, t: seq<RateInfo>)
    ensures var r := Rank(st, t);
            var tps := Throughputs(t);
            && IsScanMax(tps, {}, r.maxTpRate)
            && IsScanMax(tps, {r.maxTpRate}, r.maxTpRate2)
            && IsScanMax(tps, {r.maxTpRate, r.maxTpRate2}, r.maxTpRate3)
            && IsScanMax(tps, {r.maxTpRate, r.maxTpRate2, r.maxTpRate3}, r.maxTpRate4)
            && IsScanMax(tps, {r.maxTpRate, r.maxTpRate2, r.maxTpRate3, r.maxTpRate4}, r.maxTpRate5)
            && IsScanMax(EwmaProbs(t), {}, r.maxProbRate)
            && Seen(tps, {r.maxTpRate}, r.maxTpRate2) <= Seen(tps, {}, r.maxTpRate)
            && Seen(tps, {r.maxTpRate, r.maxTpRate2}, r.maxTpRate3) <= Seen(tps, {r.maxTpRate}, r.maxTpRate2)
            && Seen(tps, {r.maxTpRate, r.maxTpRate2, r.maxTpRate3}, r.maxTpRate4)
                 <= Seen(tps, {r.maxTpRate, r.maxTpRate2}, r.maxTpRate3)
            && Seen(tps, {r.maxTpRate, r.maxTpRate2, r.maxTpRate3, r.maxTpRate4}, r.maxTpRate5)
                 <= Seen(tps, {r.maxTpRate, r.maxTpRate2, r.maxTpRate3}, r.maxTpRate4)
  {
    var r := Rank(st, t);
    var tps := Throughputs(t);
    ScanMaxAntitone(tps, {}, {r.maxTpRate});
    ScanMaxAntitone(tps, {r.maxTpRate}, {r.maxTpRate, r.maxTpRate2});
    ScanMaxAntitone(tps, {r.maxTpRate, r.maxTpRate2}, {r.maxTpRate, r.maxTpRate2, r.maxTpRate3});
    ScanMaxAntitone(tps, {r.maxTpRate, r.maxTpRate2, r.maxTpRate3},
                    {r.maxTpRate, r.maxTpRate2, r.maxTpRate3, r.maxTpRate4});
  }

  /** UpdateStats raises the rate to the best-throughput index when that is faster. */
  function RaiseToBest(st: CreditStation): (r: CreditStation)
    ensures r.txrate == Max(st.txrate, st.maxTpRate)
    ensures r.(txrate := st.txrate) == st
  {
    if st.maxTpRate > st.txrate then st.(txrate := st.maxTpRate) else st
  }

  /** The station side of a statistics cycle after the table refresh: the ranking, the
      raise to the best-throughput rate, and the credit decision. */
  method RankAndDecide(st: CreditStation, t: seq<RateInfo>, addThr: nat, raiseThr: nat) returns (r: CreditStation)
    requires st.txrate < |t|
    ensures r == CreditCheck(RaiseToBest(Rank(st, t)), |t|, addThr, raiseThr)
    ensures r.txrate < |t| && r.currentRate == r.txrate
    ensures r.initialized == st.initialized && r.nextStatsUpdate == st.nextStatsUpdate
  {
    var s := RankStation(st, t);
    if s.maxTpRate > s.txrate {
      s := s.(txrate := s.maxTpRate);
    }
    r := CheckRate(s, |t|, addThr, raiseThr);
  }
}
