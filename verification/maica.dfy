/** The Maica manager: the Jamaica rule without the success-side decision and with a fixed
    observation window. Successes are only counted; the credit decision runs after a
    failure that stays below the fallback ladder and once per statistics cycle. The first
    data request starts in the middle of the table. One manager drives one station. */
module Maica {
  import opened RateStats
  import opened Credit

  /** `k` acknowledged first-attempt data frames as DataOk records them. */
  function Successes(st: CreditStation, k: nat): CreditStation
  {
    Iterate(Succeeded, st, k)
  }

  /** Without a decision on the success path, any run of successes from a quiet station
      only counts: the rate, the credit and the error count stay as they were. */
  lemma {:induction false} SuccessesOnlyCount(st: CreditStation, k: nat)
    requires Quiet(st)
    ensures k > 0 ==> Successes(st, k)
                      == st.(ok := st.ok + k, packetCount := st.packetCount + k, currentRate := 0)
  {
    if k > 0 {
      assert Successes(st, k) == Succeeded(Successes(st, k - 1));
      if k > 1 {
        SuccessesOnlyCount(st, k - 1);
      }
    }
  }

  /** The middle of the table, where the first data request starts. */
  function StartRate(nsupported: nat): (r: nat)
    requires nsupported > 1
    ensures 0 < r < nsupported && 2 * r <= nsupported <= 2 * r + 1
  {
    nsupported / 2
  }

  class MaicaManager {
    var table: array<RateInfo>
    var nsupported: nat
    var calcTxTime: seq<TxTimeEntry>
    const updateStats: nat
    const ewmaLevel: nat
    const addCreditThreshold: nat
    const raiseThreshold: nat
    var sta: CreditStation

    /** One table entry per supported rate, settled between refreshes; an initialized
        station has at least two rates and both its rates index the table. */
    ghost predicate Valid()
      reads this, table
    {
      && table.Length == nsupported
      && ewmaLevel <= 100
      && (sta.initialized ==>
            && nsupported > 1
            && sta.txrate < nsupported && sta.currentRate < nsupported
            && AllSettled(table[..]))
      && (!sta.initialized ==> nsupported == 0 && sta.txrate == 0 && sta.currentRate == 0)
    }

    ghost function InitStation(count: nat): CreditStation
      reads this
    {
      if !sta.initialized && count > 1 then sta.(initialized := true) else sta
    }

    ghost function InitTable(count: nat): seq<RateInfo>
      reads this, table
    {
      if !sta.initialized && count > 1 then FreshTable(calcTxTime, count) else table[..]
    }

    /** The station once a first request has built the table and set the start rate. */
    ghost function StartStation(count: nat): CreditStation
      reads this
    {
      if !sta.initialized && count > 1 then sta.(initialized := true, txrate := StartRate(count)) else sta
    }

    /** The manager with no table yet and its one station just created at `now`. */
    constructor (now: nat, calcTxTime: seq<TxTimeEntry>, updateStats: nat, ewmaLevel: nat,
                 addCreditThreshold: nat, raiseThreshold: nat)
      requires ewmaLevel <= 100
      ensures Valid() && fresh(table)
      ensures nsupported == 0 && this.calcTxTime == calcTxTime && this.updateStats == updateStats
      ensures this.ewmaLevel == ewmaLevel && this.addCreditThreshold == addCreditThreshold
      ensures this.raiseThreshold == raiseThreshold
      ensures sta == NewStation(now + updateStats)
    {
      table := new RateInfo[0];
      nsupported := 0;
      this.calcTxTime := calcTxTime;
      this.updateStats := updateStats;
      this.ewmaLevel := ewmaLevel;
      this.addCreditThreshold := addCreditThreshold;
      this.raiseThreshold := raiseThreshold;
      sta := NewStation(now + updateStats);
    }

    /** Records the transmission time of one more mode. */
    method AddCalcTxTime(mode: nat, time: nat)
      modifies this
      ensures calcTxTime == RateStats.AddCalcTxTime(old(calcTxTime), mode, time)
      ensures table == old(table) && nsupported == old(nsupported) && sta == old(sta)
    {
      calcTxTime := RateStats.AddCalcTxTime(calcTxTime, mode, time);
    }

    /** Rebuilds every entry from the transmission-time list. */
    method RateInit()
      modifies table
      ensures table[..] == FreshTable(calcTxTime, table.Length)
    {
      ResetTable(table, calcTxTime);
    }

    /** Builds the table on the first report that finds more than one supported rate. */
    method CheckInit(count: nat)
      requires Valid()
      modifies this
      ensures Valid()
      ensures sta == old(InitStation(count)) && table[..] == old(InitTable(count))
      ensures old(sta.initialized) || count <= 1 ==> table == old(table) && nsupported == old(nsupported)
      ensures !old(sta.initialized) && count > 1 ==> fresh(table) && nsupported == count
      ensures calcTxTime == old(calcTxTime)
    {
      if !sta.initialized && count > 1 {
        nsupported := count;
        table := new RateInfo[count];
        RateInit();
        FreshTableSettled(calcTxTime, count);
        sta := sta.(initialized := true);
      }
    }

    /** The credit/threshold decision with the fixed window. */
    method CheckRate()
      requires Valid() && sta.initialized
      modifies this
      ensures Valid()
      ensures sta == CreditCheck(old(sta), nsupported, addCreditThreshold, raiseThreshold)
      ensures table == old(table) && nsupported == old(nsupported) && calcTxTime == old(calcTxTime)
    {
      sta := Credit.CheckRate(sta, nsupported, addCreditThreshold, raiseThreshold);
    }

    method RtsFailed()
      modifies this
      ensures sta == old(sta).(shortRetry := old(sta.shortRetry) + 1)
      ensures table == old(table) && nsupported == old(nsupported) && calcTxTime == old(calcTxTime)
    {
      sta := sta.(shortRetry := sta.shortRetry + 1);
    }

    /** Folds the retries of the frame just resolved into `retry`. */
    method UpdateRetry()
      modifies this
      ensures sta == FoldRetries(old(sta))
      ensures table == old(table) && nsupported == old(nsupported) && calcTxTime == old(calcTxTime)
    {
      sta := sta.(retry := sta.shortRetry + sta.longRetry, shortRetry := 0, longRetry := 0);
    }

    method FinalRtsFailed()
      requires Valid()
      modifies this
      ensures Valid()
      ensures sta == FoldRetries(old(sta)).(err := old(sta.err) + 1)
      ensures table == old(table) && nsupported == old(nsupported) && calcTxTime == old(calcTxTime)
    {
      UpdateRetry();
      sta := sta.(err := sta.err + 1);
    }

    /** A data frame failed: nothing while no table can be built; otherwise one more long
        retry and the fallback ladder or the credit decision. */
    method DataFailed(count: nat)
      requires Valid()
      modifies this
      ensures Valid()
      ensures var s := old(InitStation(count));
              sta == if s.initialized then DataFailure(s, nsupported, addCreditThreshold, raiseThreshold) else s
      ensures table[..] == old(InitTable(count)) && calcTxTime == old(calcTxTime)
    {
      CheckInit(count);
      if !sta.initialized {
        return;
      }
      sta := sta.(longRetry := sta.longRetry + 1);
      if sta.longRetry > 6 {
        sta := sta.(txrate := 0);
      } else if sta.longRetry >= 5 {
        if sta.txrate > 0 {
          sta := sta.(txrate := sta.txrate - 1);
        }
      } else {
        CheckRate();
      }
    }

    /** A data frame was acknowledged: the success and its retries on the current rate's
        entry, and no rate decision. */
    method DataOk(count: nat)
      requires Valid()
      modifies this, table
      ensures Valid()
      ensures var s := old(InitStation(count));
              var t := old(InitTable(count));
              if s.initialized then
                var done := Succeeded(s);
                && done.txrate < |t|
                && sta == done
                && table[..] == t[done.txrate := RecordSuccess(t[done.txrate], s.shortRetry + s.longRetry)]
              else sta == Restore(s).(currentRate := 0) && table[..] == t
      ensures calcTxTime == old(calcTxTime)
    {
      var s := sta;
      if s.currentRate > 0 && s.isRetry {
        s := s.(txrate := s.currentRate, isRetry := false);
      }
      sta := s.(currentRate := 0);
      CheckInit(count);
      if !sta.initialized {
        return;
      }
      s := sta;
      var retry := s.shortRetry + s.longRetry;
      ghost var before := table[..];
      table[s.txrate] := RecordSuccess(table[s.txrate], retry);
      assert table[..] == before[s.txrate := RecordSuccess(before[s.txrate], retry)];
      ReplaceSettled(before, s.txrate, RecordSuccess(before[s.txrate], retry));
      sta := s.(retry := retry, shortRetry := 0, longRetry := 0, ok := s.ok + 1, packetCount := s.packetCount + 1);
    }

    /** A data frame was dropped: its retries are attempts without success at the current
        rate and one more error is counted. The source indexes the table without an
        initialization check, hence the precondition. */
    method FinalDataFailed()
      requires Valid() && sta.initialized
      modifies this, table
      ensures Valid()
      ensures var s := FinallyFailed(old(sta));
              && sta == s
              && table[..] == old(table[..])[s.txrate := RecordFailure(old(table[s.txrate]), s.retry)]
      ensures table == old(table) && calcTxTime == old(calcTxTime)
    {
      if sta.currentRate > 0 && sta.isRetry {
        sta := sta.(txrate := sta.currentRate, isRetry := false);
      }
      sta := sta.(currentRate := 0);
      UpdateRetry();
      var e := table[sta.txrate];
      table[sta.txrate] := e.(numRateAttempt := e.numRateAttempt + sta.retry);
      sta := sta.(err := sta.err + 1);
    }

    /** The statistics cycle: once the deadline has passed on an initialized station,
        refresh every entry, rank five rates, raise the rate to the best one, decide, and
        rebuild the table. */
    method UpdateStats(now: nat)
      requires Valid()
      modifies this, table
      ensures table == old(table) && nsupported == old(nsupported) && calcTxTime == old(calcTxTime)
      ensures Valid()
      ensures now < old(sta.nextStatsUpdate) || !old(sta.initialized) ==>
                sta == old(sta) && table[..] == old(table[..])
      ensures now >= old(sta.nextStatsUpdate) && old(sta.initialized) ==>
                var t := Refreshed(old(table[..]), ewmaLevel);
                var ranked := RaiseToBest(Rank(old(sta).(nextStatsUpdate := now + updateStats), t));
                && sta == CreditCheck(ranked, nsupported, addCreditThreshold, raiseThreshold)
                && table[..] == FreshTable(calcTxTime, nsupported)
    {
      if now < sta.nextStatsUpdate {
        return;
      }
      if !sta.initialized {
        return;
      }
      var s := sta.(nextStatsUpdate := now + updateStats);
      RefreshTable(table, ewmaLevel);
      sta := RankAndDecide(s, table[..], addCreditThreshold, raiseThreshold);
      RateInit();
      FreshTableSettled(calcTxTime, nsupported);
    }

    /** The rate for the next data frame. The first request builds the table if it can
        and then starts in the middle of it; then the statistics cycle runs and the
        transmit rate is answered. */
    method DoGetDataMode(count: nat, now: nat) returns (rate: nat)
      requires Valid()
      modifies this, table
      ensures Valid()
      ensures rate == sta.txrate && sta.initialized == (old(sta.initialized) || count > 1)
      ensures sta.initialized ==> rate < nsupported == table.Length
      ensures !sta.initialized ==> rate == 0 && table.Length == 0
      ensures !old(sta.initialized) && count > 1 && now < old(sta.nextStatsUpdate) ==> rate == StartRate(count)
      ensures calcTxTime == old(calcTxTime)
      ensures var s := old(StartStation(count));
              var t := old(InitTable(count));
              if now >= s.nextStatsUpdate && s.initialized then
                var ranked := RaiseToBest(Rank(s.(nextStatsUpdate := now + updateStats), Refreshed(t, ewmaLevel)));
                && sta == CreditCheck(ranked, nsupported, addCreditThreshold, raiseThreshold)
                && table[..] == FreshTable(calcTxTime, nsupported)
              else sta == s && table[..] == t
    {
      ghost var s := StartStation(count);
      ghost var t := InitTable(count);
      if !sta.initialized {
        CheckInit(count);
        if nsupported > 1 {
          sta := sta.(txrate := StartRate(nsupported));
        }
      }
      assert sta == s && table[..] == t;
      UpdateStats(now);
      rate := sta.txrate;
    }

    /** RTS frames always go at the slowest rate. */
    method DoGetRtsMode() returns (rate: nat)
      ensures rate == 0
    {
      rate := 0;
    }
  }
}
