/** The Tera manager: per-rate statistics refreshed on a timer, and a rate decision that
    compares the current rate's throughput with a smoothed history, probes upwards
    (additively, or multiplicatively after repeated confirmed probes), reverts a probe that
    did not pay off and damps oscillation. One manager drives one station. */
module Tera {
  import opened RateStats

  /** The two values CheckRate gives the adaptive check interval, in microseconds. */
  const ShortInterval: nat := 100000
  const LongInterval: nat := 900000

  /** Per-station state. `ok` and `ossilate` start at 0. */
  datatype TeraStation = TeraStation(
    nextStatsUpdate: nat, nextTimeInterval: nat,
    maxTpRate: nat, maxTpRate2: nat, maxProbRate: nat,
    shortRetry: nat, longRetry: nat, retry: nat, err: nat,
    txrate: nat,       // rate of the next data frame
    curRate: nat,      // rate the last decision settled on
    lastRate: nat,     // rate before the last decision
    credit: nat, ok: nat,
    ossilate: nat,     // reverted probes since the interval timer last fired
    consecutive: nat,  // confirmed probes in a row
    successive: nat,   // heavy-loss cycles in a row
    curTp: nat, lastTp: nat, histTp: nat,
    isRetry: bool, initialized: bool, probing: bool, multiplicative: bool,
    packetCount: nat)

  /** DoCreateStation: everything 0 or false, both timers one interval ahead of `now`. */
  function NewStation(now: nat, updateStats: nat, updateTimeInterval: nat): (st: TeraStation)
    ensures st.nextStatsUpdate == now + updateStats && st.nextTimeInterval == now + updateTimeInterval
    ensures !st.initialized && !st.probing && !st.isRetry && !st.multiplicative
    ensures st.txrate == 0 && st.curRate == 0 && st.lastRate == 0
    ensures st.histTp == 0 && st.lastTp == 0 && st.ossilate == 0 && st.consecutive == 0 && st.successive == 0
    ensures st.ok == 0 && st.err == 0 && st.retry == 0 && st.shortRetry == 0 && st.longRetry == 0
    ensures st.credit == 0 && st.packetCount == 0 && st.curTp == 0
    ensures st.maxTpRate == 0 && st.maxTpRate2 == 0 && st.maxProbRate == 0
  {
    TeraStation(now + updateStats, now + updateTimeInterval, 0, 0, 0, 0, 0, 0, 0, 0, 0, 0,
                0, 0, 0, 0, 0, 0, 0, 0, false, false, false, false, 0)
  }

  /** A data failure on an initialized station: one more long retry, then the fallback
      ladder (no rate decision in this manager). */
  function DataFailure(st: TeraStation): (r: TeraStation)
    ensures r.longRetry == st.longRetry + 1 && r.txrate <= st.txrate
    ensures r.txrate == Fallback(r.longRetry, st.txrate)
    ensures r.(txrate := st.txrate, longRetry := st.longRetry) == st
  {
    st.(longRetry := st.longRetry + 1, txrate := Fallback(st.longRetry + 1, st.txrate))
  }

  /** `k` data failures in a row. */
  function DataFailures(st: TeraStation, k: nat): TeraStation
  {
    if k == 0 then st else DataFailure(DataFailures(st, k - 1))
  }

  /** Failures without an intervening retry fold keep lowering the rate: the long-retry
      count grows by one each time, at most one step is lost per failure until the sixth,
      and from the seventh on the station sits at the slowest rate. In particular seven
      failures from a folded station reach rate 0. */
  lemma {:induction false} RepeatedFailures(st: TeraStation, k: nat)
    ensures DataFailures(st, k).longRetry == st.longRetry + k
    ensures st.longRetry + k > 6 && k > 0 ==> DataFailures(st, k).txrate == 0
    ensures st.longRetry + k < 5 ==> DataFailures(st, k).txrate == st.txrate
    ensures DataFailures(st, k).txrate <= st.txrate
  {
    if k > 0 {
      RepeatedFailures(st, k - 1);
    }
  }

  /** The rate restore of DataOk and FinalDataFailed when a retry is flagged. No handler
      raises the flag, so from a created station this is the identity. */
  function Restore(st: TeraStation): (r: TeraStation)
    ensures !r.isRetry || r == st
    ensures !st.isRetry ==> r == st
    ensures st.isRetry && st.curRate > 0 ==> r == st.(txrate := st.curRate, isRetry := false)
  {
    if st.curRate > 0 && st.isRetry then st.(txrate := st.curRate, isRetry := false) else st
  }

  // ---------------------------------------------------------------- rate decision

  /** The station after CheckRate, and the new value of the manager's adaptive interval. */
  datatype Checked = Checked(sta: TeraStation, interval: nat)

  /** The cycle after a probe: a probe whose rate fell below the history is reverted to
      the previous rate (one more oscillation, a long check interval after an additive
      probe, a short one after a multiplicative probe); a probe that beat the previous
      throughput is confirmed; otherwise nothing. `tp` is the probed rate's throughput. */
  function EvaluateProbe(st: TeraStation, tp: nat, now: nat, interval: nat): (c: Checked)
    ensures var reverted := tp < st.histTp && st.lastRate != st.curRate;
            && (reverted ==> && c.sta == st.(consecutive := 0, txrate := st.lastRate, curRate := st.lastRate,
                                             ossilate := st.ossilate + 1, nextTimeInterval := now + c.interval)
                             && c.interval == (if st.multiplicative then ShortInterval else LongInterval))
            && (!reverted ==> && c.sta == st.(consecutive := c.sta.consecutive, nextTimeInterval := c.sta.nextTimeInterval)
                              && (c.interval == interval || c.interval == ShortInterval))
    ensures var reverted := tp < st.histTp && st.lastRate != st.curRate;
            !reverted && tp > st.lastTp && st.lastRate != st.curRate ==>
              c == Checked(st.(consecutive := st.consecutive + 1, nextTimeInterval := now + ShortInterval), ShortInterval)
    ensures var reverted := tp < st.histTp && st.lastRate != st.curRate;
            !reverted && !(tp > st.lastTp && st.lastRate != st.curRate) ==> c == Checked(st, interval)
  {
    if tp < st.histTp && st.lastRate != st.curRate then
      var iv := if st.multiplicative then ShortInterval else LongInterval;
      Checked(st.(consecutive := 0, txrate := st.lastRate, curRate := st.lastRate,
                  ossilate := st.ossilate + 1, nextTimeInterval := now + iv), iv)
    else if tp > st.lastTp && st.lastRate != st.curRate then
      Checked(st.(consecutive := st.consecutive + 1, nextTimeInterval := now + ShortInterval), ShortInterval)
    else
      Checked(st, interval)
  }

  /** The throughput-ratio rule on a cycle without a pending probe, with delta = tp/hist
      compared by cross-multiplication: delta >= 1 probes upwards unless oscillating,
      0.75 <= delta <= 0.9 steps down, delta < 0.75 cuts to 3/4 on the first such cycle
      and steps down on later ones, 0.9 < delta < 1 keeps the rate. Returns the proposed
      rate and the station with its damping counters updated. */
  function Decide(st: TeraStation, tp: nat, n: nat): (d: (nat, TeraStation))
    ensures st.curRate < n ==> d.0 < n
    ensures d.1 == st.(successive := d.1.successive, consecutive := d.1.consecutive,
                       ossilate := d.1.ossilate, probing := d.1.probing)
    ensures d.0 > st.curRate ==>
              && tp >= st.histTp && st.ossilate == 0 && d.1.probing
              && d.0 <= (if st.multiplicative then 2 * st.curRate else st.curRate + 1)
    ensures d.1.probing ==> st.probing || (d.0 >= st.curRate && tp >= st.histTp && st.ossilate == 0)
    ensures tp < st.histTp && 10 * tp <= 9 * st.histTp && 4 * tp >= 3 * st.histTp ==>
              d == (StepDown(st.curRate), st.(consecutive := 0, ossilate := 0))
    ensures 4 * tp < 3 * st.histTp ==>
              && d.1.successive == st.successive + 1 && d.1.consecutive == 0 && d.1.ossilate == 0
              && d.0 == (if st.successive == 0 then st.curRate * 3 / 4 else StepDown(st.curRate))
    ensures 9 * st.histTp < 10 * tp < 10 * st.histTp ==> d == (st.curRate, st)
    ensures tp >= st.histTp ==> d.1.successive == 0
    ensures tp >= st.histTp && st.ossilate == 0 && st.curRate + 1 < n ==>
              && d.1 == st.(successive := 0, probing := true)
              && d.0 == (if !st.multiplicative then st.curRate + 1
                         else if 2 * st.curRate < n then 2 * st.curRate else n - 1)
    ensures tp >= st.histTp && !(st.ossilate == 0 && st.curRate + 1 < n) ==> d == (st.curRate, st.(successive := 0))
  {
    var nrate := st.curRate;
    var hist := st.histTp;
    if tp >= hist then
      var s := st.(successive := 0);
      if nrate + 1 < n && st.ossilate == 0 then
        var up := if !st.multiplicative then nrate + 1
                  else if nrate + nrate < n then nrate + nrate else n - 1;
        (up, s.(probing := true))
      else (nrate, s)
    else if 10 * tp <= 9 * hist && 4 * tp >= 3 * hist then
      (StepDown(nrate), st.(consecutive := 0, ossilate := 0))
    else if 4 * tp < 3 * hist then
      var succ := st.successive + 1;
      var down := if nrate >= 1 && succ == 1 then nrate * 3 / 4
                  else if nrate > 0 && succ > 1 then nrate - 1 else nrate;
      (down, st.(successive := succ, consecutive := 0, ossilate := 0))
    else (nrate, st)
  }

  /** The end of a decided cycle: remember the throughput at the transmit rate and the
      settled rate, adopt the proposed rate (clearing the window counters if it differs
      from the transmit rate) and settle on it. */
  function Commit(s: TeraStation, nrate: nat, lastTp: nat, lastRate: nat): (r: TeraStation)
    ensures r.txrate == nrate && r.curRate == nrate && r.lastRate == lastRate && r.lastTp == lastTp
    ensures nrate != s.txrate ==> r.ok == 0 && r.err == 0 && r.retry == 0 && r.credit == 0
    ensures r.(txrate := s.txrate, curRate := s.curRate, lastRate := s.lastRate, lastTp := s.lastTp,
               ok := s.ok, err := s.err, retry := s.retry, credit := s.credit) == s
  {
    var s3 := s.(lastTp := lastTp, lastRate := lastRate);
    var s4 := if nrate != s.txrate then s3.(txrate := nrate, ok := 0, err := 0, retry := 0, credit := 0) else s3;
    s4.(curRate := s4.txrate)
  }

  /** CheckRate on throughputs `tps`, `n` supported rates, history weight `h` percent, at
      time `now` with the adaptive interval currently `interval`. */
  function ProbeCheck(st: TeraStation, tps: seq<nat>, n: nat, h: nat, now: nat, interval: nat): Checked
    requires h <= 100 && st.curRate < |tps| && st.txrate < |tps|
  {
    var s0 := st.(multiplicative := st.consecutive > 1);
    var tp := tps[st.curRate];
    if s0.probing then EvaluateProbe(s0.(probing := false), tp, now, interval)
    else
      var s1 := if st.ok + st.err > 0 then s0.(histTp := Ewma(st.histTp, tp, h)) else s0;
      if s1.histTp == 0 then Checked(s1, interval)
      else
        var d := Decide(s1, tp, n);
        Checked(Commit(d.1, d.0, tps[st.txrate], st.curRate), interval)
  }

  /** Indices stay valid and the transmit rate never exceeds the settled rate; a cycle that
      reaches a decision leaves transmit and settled rate equal; the interval is untouched
      or set to one of its two values; the retry flag and the initialized flag are kept. */
  lemma ProbeCheckInRange(st: TeraStation, tps: seq<nat>, n: nat, h: nat, now: nat, interval: nat)
    requires h <= 100 && |tps| == n
    requires st.txrate <= st.curRate < n && st.lastRate < n && (st.probing ==> st.lastRate <= st.curRate)
    ensures var c := ProbeCheck(st, tps, n, h, now, interval);
            && c.sta.txrate <= c.sta.curRate < n && c.sta.lastRate < n
            && (c.sta.probing ==> c.sta.lastRate <= c.sta.curRate)
            && (!st.probing && c.sta.histTp > 0 ==> c.sta.txrate == c.sta.curRate)
            && (c.interval == interval || c.interval == ShortInterval || c.interval == LongInterval)
            && c.sta.isRetry == st.isRetry && c.sta.initialized == st.initialized
  {
  }

  /** A cycle with a pending probe only judges it: the probe flag is cleared and no new
      probe starts, the rate either stays or returns to the rate before the probe, the
      reversal happens exactly when the probed throughput fell below the history, and it
      counts one more oscillation; the window counters are not touched. */
  lemma ProbeEvaluation(st: TeraStation, tps: seq<nat>, n: nat, h: nat, now: nat, interval: nat)
    requires h <= 100 && st.curRate < |tps| && st.txrate < |tps|
    requires st.probing
    ensures var c := ProbeCheck(st, tps, n, h, now, interval);
            var reverted := tps[st.curRate] < st.histTp && st.lastRate != st.curRate;
            && !c.sta.probing
            && c.sta.ok == st.ok && c.sta.err == st.err && c.sta.histTp == st.histTp
            && (reverted ==> c.sta.txrate == st.lastRate && c.sta.curRate == st.lastRate
                             && c.sta.ossilate == st.ossilate + 1 && c.sta.consecutive == 0
                             && c.interval == (if st.consecutive > 1 then ShortInterval else LongInterval)
                             && c.sta.nextTimeInterval == now + c.interval)
            && (!reverted ==> c.sta.txrate == st.txrate && c.sta.curRate == st.curRate && c.sta.ossilate == st.ossilate)
            && (!reverted && tps[st.curRate] > st.lastTp && st.lastRate != st.curRate ==>
                  && c.sta == st.(multiplicative := st.consecutive > 1, probing := false,
                                  consecutive := st.consecutive + 1, nextTimeInterval := now + ShortInterval)
                  && c.interval == ShortInterval)
            && (!reverted && !(tps[st.curRate] > st.lastTp && st.lastRate != st.curRate) ==>
                  c == Checked(st.(multiplicative := st.consecutive > 1, probing := false), interval))
  {
  }

  /** The rate rises above the settled rate only on a cycle without a pending probe, with
      throughput at least the (updated) history and no oscillation recorded; the rise
      starts a probe and is at most one step (additive) or a doubling (multiplicative). */
  lemma StepUpOnlyWhenCalm(st: TeraStation, tps: seq<nat>, n: nat, h: nat, now: nat, interval: nat)
    requires h <= 100 && |tps| == n && st.txrate <= st.curRate < n && st.lastRate < n
    requires st.probing ==> st.lastRate <= st.curRate
    ensures var c := ProbeCheck(st, tps, n, h, now, interval);
            c.sta.txrate > st.curRate ==>
              && !st.probing && st.ossilate == 0 && c.sta.probing
              && tps[st.curRate] >= c.sta.histTp > 0
              && c.sta.txrate <= (if st.consecutive > 1 then 2 * st.curRate else st.curRate + 1)
  {
  }

  /** The converse of StepUpOnlyWhenCalm: on a cycle without a pending probe, with no
      oscillation recorded, a rate above the settled one available, and throughput at
      least the (updated, nonzero) history, the cycle starts a probe at one step up
      (additive) or at the doubled rate capped at the top rate (multiplicative). */
  lemma StepUpWhenCalm(st: TeraStation, tps: seq<nat>, n: nat, h: nat, now: nat, interval: nat)
    requires h <= 100 && st.curRate < |tps| && st.txrate < |tps|
    requires !st.probing && st.ossilate == 0 && st.curRate + 1 < n
    ensures var c := ProbeCheck(st, tps, n, h, now, interval);
            var up := if st.consecutive <= 1 then st.curRate + 1
                      else if 2 * st.curRate < n then 2 * st.curRate else n - 1;
            tps[st.curRate] >= c.sta.histTp > 0 ==>
              && c.sta.probing && c.sta.successive == 0
              && c.sta.txrate == up && c.sta.curRate == up
              && c.sta.lastRate == st.curRate && c.sta.lastTp == tps[st.txrate]
              && c.interval == interval
  {
  }

  /** The three lower zones of the ratio rule, on a cycle that reaches a decision:
      a moderate loss steps down once and clears the damping counters, a heavy loss cuts to
      3/4 on its first cycle and steps down on later ones, and the dead zone keeps the
      rate. */
  lemma LossZones(st: TeraStation, tps: seq<nat>, n: nat, h: nat, now: nat, interval: nat)
    requires h <= 100 && |tps| == n && st.txrate <= st.curRate < n && st.lastRate < n
    requires !st.probing
    ensures var c := ProbeCheck(st, tps, n, h, now, interval);
            var tp := tps[st.curRate];
            var hist := c.sta.histTp;
            && (hist > 0 && tp < hist && 10 * tp <= 9 * hist && 4 * tp >= 3 * hist ==>
                  && c.sta.txrate == StepDown(st.curRate) && c.sta.consecutive == 0 && c.sta.ossilate == 0
                  && c.sta.successive == st.successive && !c.sta.probing)
            && (hist > 0 && 4 * tp < 3 * hist ==>
                  c.sta.successive == st.successive + 1 && c.sta.consecutive == 0 && c.sta.ossilate == 0
                  && c.sta.txrate == (if st.successive == 0 then st.curRate * 3 / 4 else StepDown(st.curRate)))
            && (hist > 0 && 9 * hist < 10 * tp < 10 * hist ==>
                  c.sta.txrate == st.curRate && c.sta.successive == st.successive && c.sta.ossilate == st.ossilate)
            && (hist == 0 ==> c.sta.txrate == st.txrate && c.sta.curRate == st.curRate)
  {
  }

  /** Probe and revert on five rates: settled at rate 2 with a history of 1000, a cycle
      at throughput 1200 probes rate 3; the next cycle sees 900 at rate 3, below the
      history, and returns to rate 2 with one oscillation and the long interval. */
  lemma ProbeThenRevert(now1: nat, now2: nat)
    ensures var st := NewStation(0, 100000, 100000).(initialized := true, txrate := 2, curRate := 2, histTp := 1000);
            var c1 := ProbeCheck(st, [0, 0, 1200, 0, 0], 5, 75, now1, 100000);
            var c2 := ProbeCheck(c1.sta, [0, 0, 0, 900, 0], 5, 75, now2, c1.interval);
            && c1.sta.txrate == 3 && c1.sta.curRate == 3 && c1.sta.probing && c1.sta.lastRate == 2
            && c2.sta.txrate == 2 && c2.sta.curRate == 2 && !c2.sta.probing
            && c2.sta.ossilate == 1 && c2.interval == LongInterval
  {
  }

  /** The delta branches of CheckRate, on the station's fields as the source updates them. */
  method DecideRate(st: TeraStation, tp: nat, n: nat) returns (nrate: nat, r: TeraStation)
    ensures (nrate, r) == Decide(st, tp, n)
  {
    nrate := st.curRate;
    r := st;
    if tp >= r.histTp {
      r := r.(successive := 0);
      if !r.multiplicative && nrate + 1 < n && r.ossilate == 0 {
        nrate := nrate + 1;
        r := r.(probing := true);
      } else if r.multiplicative && nrate + 1 < n && r.ossilate == 0 {
        if nrate + nrate < n {
          nrate := nrate + nrate;
        } else {
          nrate := n - 1;
        }
        r := r.(probing := true);
      }
    } else if 10 * tp <= 9 * r.histTp && 4 * tp >= 3 * r.histTp {
      if nrate > 0 {
        nrate := nrate - 1;
      }
      r := r.(consecutive := 0, ossilate := 0);
    } else if 4 * tp < 3 * r.histTp {
      r := r.(successive := r.successive + 1);
      if nrate >= 1 && r.successive == 1 {
        nrate := nrate * 3 / 4;
      } else if nrate > 0 && r.successive > 1 {
        nrate := nrate - 1;
      }
      r := r.(consecutive := 0, ossilate := 0);
    }
  }

  // ---------------------------------------------------------------- ranking

  /** The ranking of UpdateStats: best and second-best throughput, best probability. */
  function Rank(st: TeraStation, t: seq<RateInfo>): TeraStation
  {
    var tps := Throughputs(t);
    var m1 := ScanMax(tps, {});
    st.(maxTpRate := m1, maxTpRate2 := ScanMax(tps, {m1}), maxProbRate := ScanMax(EwmaProbs(t), {}))
  }

  /** The two ranking loops. */
  method RankStation(st: TeraStation, t: seq<RateInfo>) returns (r: TeraStation)
    ensures r == Rank(st, t)
    ensures |t| > 0 ==> r.maxTpRate < |t| && r.maxTpRate2 < |t| && r.maxProbRate < |t|
  {
    var tps := Throughputs(t);
    var m1 := MaxIndexExcluding(tps, {});
    var mp := MaxIndexExcluding(EwmaProbs(t), {});
    var m2 := MaxIndexExcluding(tps, {m1});
    r := st.(maxTpRate := m1, maxTpRate2 := m2, maxProbRate := mp);
  }

  /** Each ranking slot is the scan it is meant to be, and the runner-up's throughput
      never exceeds the best one's. */
  lemma RankOrdered(st: TeraStation, t: seq<RateInfo>)
    requires |t| > 0
    ensures var r := Rank(st, t);
            var tps := Throughputs(t);
            && IsScanMax(tps, {}, r.maxTpRate)
            && IsScanMax(tps, {r.maxTpRate}, r.maxTpRate2)
            && IsScanMax(EwmaProbs(t), {}, r.maxProbRate)
            && tps[r.maxTpRate2] <= tps[r.maxTpRate]
  {
    SecondNotAboveFirst(Throughputs(t));
  }

  /** CheckRate, step by step as the source does it, on the throughput column of the
      refreshed table. */
  method RunProbeCheck(st: TeraStation, tps: seq<nat>, n: nat, h: nat, now: nat, interval: nat) returns (c: Checked)
    requires h <= 100 && st.curRate < |tps| && st.txrate < |tps|
    ensures c == ProbeCheck(st, tps, n, h, now, interval)
  {
    var s := st;
    var iv := interval;
    var orate := s.curRate;
    var tp := tps[orate];
    s := s.(multiplicative := s.consecutive > 1);
    if s.probing {
      s := s.(probing := false);
      if tp < s.histTp && s.lastRate != orate {
        s := s.(consecutive := 0);
        if s.lastRate != s.txrate {
          s := s.(txrate := s.lastRate);
        }
        s := s.(curRate := s.txrate, ossilate := s.ossilate + 1);
        if !s.multiplicative {
          iv := LongInterval;
        } else {
          iv := ShortInterval;
        }
        s := s.(nextTimeInterval := now + iv);
      } else if tp > s.lastTp && s.lastRate != orate {
        s := s.(consecutive := s.consecutive + 1);
        iv := ShortInterval;
        s := s.(nextTimeInterval := now + iv);
      }
      return Checked(s, iv);
    }
    if s.ok + s.err > 0 {
      s := s.(histTp := Ewma(s.histTp, tp, h));
    }
    if s.histTp == 0 {
      return Checked(s, iv);
    }
    var nrate, decided := DecideRate(s, tp, n);
    s := decided.(lastTp := tps[s.txrate], lastRate := s.curRate);
    if nrate != s.txrate {
      s := s.(txrate := nrate, ok := 0, err := 0, retry := 0, credit := 0);
    }
    c := Checked(s.(curRate := s.txrate), iv);
  }

  // ---------------------------------------------------------------- manager

  class TeraManager {
    var table: array<RateInfo>
    var nsupported: nat
    var calcTxTime: seq<TxTimeEntry>
    const updateStats: nat
    var updateTimeInterval: nat
    const ewmaLevel: nat
    const ewmaLevelHist: nat
    var sta: TeraStation

    /** The table has one entry per supported rate and, between refreshes, only window
        counters on top of a fresh build; an initialized station has at least two rates,
        its rates index the table, its transmit rate is at most its settled rate, and a
        pending probe went upwards from the rate it would revert to. */
    ghost predicate Valid()
      reads this, table
    {
      && table.Length == nsupported
      && ewmaLevel <= 100 && ewmaLevelHist <= 100
      && (sta.initialized ==>
            && nsupported > 1
            && sta.txrate <= sta.curRate < nsupported && sta.lastRate < nsupported
            && (sta.probing ==> sta.lastRate <= sta.curRate)
            && AllSettled(table[..]))
      && (!sta.initialized ==> nsupported == 0 && sta.txrate == 0 && sta.curRate == 0 && sta.lastRate == 0)
    }

    /** The station and the table as CheckInit leaves them when `count` rates are supported. */
    ghost function InitStation(count: nat): TeraStation
      reads this
    {
      if !sta.initialized && count > 1 then sta.(initialized := true) else sta
    }

    ghost function InitTable(count: nat): seq<RateInfo>
      reads this, table
    {
      if !sta.initialized && count > 1 then FreshTable(calcTxTime, count) else table[..]
    }

    /** The station and adaptive interval one call of UpdateStats at `now` leaves behind,
        from station `st`, table `t` and interval `iv`. */
    ghost function StatsCycle(st: TeraStation, t: seq<RateInfo>, iv: nat, now: nat): Checked
      requires ewmaLevel <= 100 && ewmaLevelHist <= 100
      requires st.initialized ==> st.curRate < |t| && st.txrate < |t|
    {
      if now >= st.nextStatsUpdate && st.initialized then
        var r := Refreshed(t, ewmaLevel);
        ProbeCheck(Rank(st.(nextStatsUpdate := now + updateStats), r), Throughputs(r), |t|, ewmaLevelHist, now, iv)
      else Checked(st, iv)
    }

    /** The manager with no table yet and its one station just created at `now`. */
    constructor (now: nat, calcTxTime: seq<TxTimeEntry>, updateStats: nat, updateTimeInterval: nat,
                 ewmaLevel: nat, ewmaLevelHist: nat)
      requires ewmaLevel <= 100 && ewmaLevelHist <= 100
      ensures Valid() && fresh(table)
      ensures nsupported == 0 && this.calcTxTime == calcTxTime && this.updateStats == updateStats
      ensures this.updateTimeInterval == updateTimeInterval
      ensures this.ewmaLevel == ewmaLevel && this.ewmaLevelHist == ewmaLevelHist
      ensures sta == NewStation(now, updateStats, updateTimeInterval)
    {
      table := new RateInfo[0];
      nsupported := 0;
      this.calcTxTime := calcTxTime;
      this.updateStats := updateStats;
      this.updateTimeInterval := updateTimeInterval;
      this.ewmaLevel := ewmaLevel;
      this.ewmaLevelHist := ewmaLevelHist;
      sta := NewStation(now, updateStats, updateTimeInterval);
    }

    /** Records the transmission time of one more mode. */
    method AddCalcTxTime(mode: nat, time: nat)
      modifies this
      ensures calcTxTime == RateStats.AddCalcTxTime(old(calcTxTime), mode, time)
      ensures table == old(table) && nsupported == old(nsupported) && sta == old(sta)
      ensures updateTimeInterval == old(updateTimeInterval)
    {
      calcTxTime := RateStats.AddCalcTxTime(calcTxTime, mode, time);
    }

    /** Rebuilds every entry from the transmission-time list. */
    method RateInit()
      modifies table
      ensures table[..] == FreshTable(calcTxTime, table.Length)
    {
      ResetTable(table, calcTxTime);
    }

    /** Builds the table on the first report that finds more than one supported rate. */
    method CheckInit(count: nat)
      requires Valid()
      modifies this
      ensures Valid()
      ensures sta == old(InitStation(count)) && table[..] == old(InitTable(count))
      ensures old(sta.initialized) || count <= 1 ==> table == old(table) && nsupported == old(nsupported)
      ensures !old(sta.initialized) && count > 1 ==> fresh(table) && nsupported == count
      ensures calcTxTime == old(calcTxTime) && updateTimeInterval == old(updateTimeInterval)
    {
      if !sta.initialized && count > 1 {
        nsupported := count;
        table := new RateInfo[count];
        RateInit();
        FreshTableSettled(calcTxTime, count);
        sta := sta.(initialized := true);
      }
    }

    method RtsFailed()
      modifies this
      ensures sta == old(sta).(shortRetry := old(sta.shortRetry) + 1)
      ensures table == old(table) && nsupported == old(nsupported) && calcTxTime == old(calcTxTime)
      ensures updateTimeInterval == old(updateTimeInterval)
    {
      sta := sta.(shortRetry := sta.shortRetry + 1);
    }

    /** Folds the retries of the frame just resolved into `retry`. */
    method UpdateRetry()
      modifies this
      ensures sta == old(sta).(retry := old(sta.shortRetry + sta.longRetry), shortRetry := 0, longRetry := 0)
      ensures table == old(table) && nsupported == old(nsupported) && calcTxTime == old(calcTxTime)
      ensures updateTimeInterval == old(updateTimeInterval)
    {
      sta := sta.(retry := sta.shortRetry + sta.longRetry, shortRetry := 0, longRetry := 0);
    }

    method FinalRtsFailed()
      requires Valid()
      modifies this
      ensures Valid()
      ensures sta == old(sta).(retry := old(sta.shortRetry + sta.longRetry), shortRetry := 0, longRetry := 0,
                               err := old(sta.err) + 1)
      ensures table == old(table) && nsupported == old(nsupported) && calcTxTime == old(calcTxTime)
      ensures updateTimeInterval == old(updateTimeInterval)
    {
      UpdateRetry();
      sta := sta.(err := sta.err + 1);
    }

    /** A data frame failed: nothing while no table can be built, otherwise one more long
        retry and the fallback ladder. */
    method DataFailed(count: nat)
      requires Valid()
      modifies this
      ensures Valid()
      ensures var s := old(InitStation(count));
              sta == if s.initialized then DataFailure(s) else s
      ensures table[..] == old(InitTable(count))
      ensures calcTxTime == old(calcTxTime) && updateTimeInterval == old(updateTimeInterval)
    {
      CheckInit(count);
      if !sta.initialized {
        return;
      }
      sta := sta.(longRetry := sta.longRetry + 1);
      if sta.longRetry > 6 {
        sta := sta.(txrate := 0);
      } else if sta.longRetry >= 5 {
        if sta.txrate > 0 {
          sta := sta.(txrate := sta.txrate - 1);
        }
      }
    }

    /** A data frame was acknowledged: the success and its retries go to the current
        rate's entry, the retries are folded and one more success is counted. */
    method DataOk(count: nat)
      requires Valid()
      modifies this, table
      ensures Valid()
      ensures var s := Restore(old(InitStation(count)));
              var t := old(InitTable(count));
              if s.initialized then
                && s.txrate < |t|
                && sta == s.(retry := s.shortRetry + s.longRetry, shortRetry := 0, longRetry := 0,
                             ok := s.ok + 1, packetCount := s.packetCount + 1)
                && table[..] == t[s.txrate := RecordSuccess(t[s.txrate], s.shortRetry + s.longRetry)]
              else sta == s && table[..] == t
      ensures calcTxTime == old(calcTxTime) && updateTimeInterval == old(updateTimeInterval)
    {
      if sta.curRate > 0 && sta.isRetry {
        sta := sta.(txrate := sta.curRate, isRetry := false);
      }
      CheckInit(count);
      if !sta.initialized {
        return;
      }
      var s := sta;
      var retry := s.shortRetry + s.longRetry;
      ghost var before := table[..];
      table[s.txrate] := RecordSuccess(table[s.txrate], retry);
      assert table[..] == before[s.txrate := RecordSuccess(before[s.txrate], retry)];
      ReplaceSettled(before, s.txrate, RecordSuccess(before[s.txrate], retry));
      sta := s.(retry := retry, shortRetry := 0, longRetry := 0, ok := s.ok + 1, packetCount := s.packetCount + 1);
    }

    /** A data frame was dropped: its retries are attempts without success at the current
        rate, and one more error is counted. The source indexes the table without an
        initialization check, hence the precondition. */
    method FinalDataFailed()
      requires Valid() && sta.initialized
      modifies this, table
      ensures Valid()
      ensures var s := Restore(old(sta));
              && sta == s.(retry := s.shortRetry + s.longRetry, shortRetry := 0, longRetry := 0, err := s.err + 1)
              && table[..] == old(table[..])[s.txrate := RecordFailure(old(table[s.txrate]), s.shortRetry + s.longRetry)]
      ensures table == old(table) && calcTxTime == old(calcTxTime) && updateTimeInterval == old(updateTimeInterval)
    {
      if sta.curRate > 0 && sta.isRetry {
        sta := sta.(txrate := sta.curRate, isRetry := false);
      }
      UpdateRetry();
      var e := table[sta.txrate];
      table[sta.txrate] := e.(numRateAttempt := e.numRateAttempt + sta.retry);
      sta := sta.(err := sta.err + 1);
    }

    /** The rate decision, on the refreshed table. */
    method CheckRate(now: nat)
      requires table.Length == nsupported && ewmaLevelHist <= 100
      requires sta.txrate < nsupported && sta.curRate < nsupported
      modifies this
      ensures table == old(table) && nsupported == old(nsupported) && calcTxTime == old(calcTxTime)
      ensures var c := ProbeCheck(old(sta), old(Throughputs(table[..])), nsupported, ewmaLevelHist, now,
                                  old(updateTimeInterval));
              sta == c.sta && updateTimeInterval == c.interval
    {
      var c := RunProbeCheck(sta, Throughputs(table[..]), nsupported, ewmaLevelHist, now, updateTimeInterval);
      sta, updateTimeInterval := c.sta, c.interval;
    }

    /** The statistics cycle: once the deadline has passed on an initialized station,
        refresh every entry, rank the rates, decide, and rebuild the table. */
    method UpdateStats(now: nat)
      requires Valid()
      modifies this, table
      ensures Valid()
      ensures table == old(table) && nsupported == old(nsupported) && calcTxTime == old(calcTxTime)
      ensures now < old(sta.nextStatsUpdate) || !old(sta.initialized) ==>
                sta == old(sta) && table[..] == old(table[..]) && updateTimeInterval == old(updateTimeInterval)
      ensures now >= old(sta.nextStatsUpdate) && old(sta.initialized) ==>
                var t := Refreshed(old(table[..]), ewmaLevel);
                var c := ProbeCheck(Rank(old(sta).(nextStatsUpdate := now + updateStats), t), Throughputs(t),
                                    nsupported, ewmaLevelHist, now, old(updateTimeInterval));
                && sta == c.sta && updateTimeInterval == c.interval
                && table[..] == FreshTable(calcTxTime, nsupported)
      ensures Checked(sta, updateTimeInterval) == StatsCycle(old(sta), old(table[..]), old(updateTimeInterval), now)
    {
      if now < sta.nextStatsUpdate {
        return;
      }
      if !sta.initialized {
        return;
      }
      sta := sta.(nextStatsUpdate := now + updateStats);
      RefreshTable(table, ewmaLevel);
      ghost var t := table[..];
      sta := RankStation(sta, table[..]);
      ghost var c := ProbeCheck(sta, Throughputs(t), nsupported, ewmaLevelHist, now, updateTimeInterval);
      ProbeCheckInRange(sta, Throughputs(t), nsupported, ewmaLevelHist, now, updateTimeInterval);
      CheckRate(now);
      assert sta == c.sta && updateTimeInterval == c.interval;
      RateInit();
      FreshTableSettled(calcTxTime, nsupported);
    }

    /** When the adaptive interval has elapsed, re-arm it and forget the oscillations. */
    method UpdateAdaptiveTimeInterval(now: nat)
      requires Valid()
      modifies this
      ensures Valid()
      ensures now < old(sta.nextTimeInterval) ==> sta == old(sta)
      ensures now >= old(sta.nextTimeInterval) ==>
                sta == old(sta).(nextTimeInterval := now + updateTimeInterval, ossilate := 0)
      ensures table == old(table) && nsupported == old(nsupported) && calcTxTime == old(calcTxTime)
      ensures updateTimeInterval == old(updateTimeInterval)
    {
      if now < sta.nextTimeInterval {
        return;
      }
      sta := sta.(nextTimeInterval := now + updateTimeInterval, ossilate := 0);
    }

    /** The rate for the next data frame: build the table if possible, run the statistics
        cycle and the interval timer, and answer the transmit rate. */
    method DoGetDataMode(count: nat, now: nat) returns (rate: nat)
      requires Valid()
      modifies this, table
      ensures Valid()
      ensures rate == sta.txrate && sta.initialized == (old(sta.initialized) || count > 1)
      ensures sta.initialized ==> rate < nsupported == table.Length
      ensures !sta.initialized ==> rate == 0 && table.Length == 0
      ensures calcTxTime == old(calcTxTime)
      ensures var c := StatsCycle(old(InitStation(count)), old(InitTable(count)), old(updateTimeInterval), now);
              && updateTimeInterval == c.interval
              && sta == (if now < c.sta.nextTimeInterval then c.sta
                         else c.sta.(nextTimeInterval := now + c.interval, ossilate := 0))
      ensures var s := old(InitStation(count));
              table[..] == (if now >= s.nextStatsUpdate && s.initialized then FreshTable(calcTxTime, nsupported)
                            else old(InitTable(count)))
    {
      ghost var s := InitStation(count);
      ghost var t := InitTable(count);
      ghost var iv := updateTimeInterval;
      if !sta.initialized {
        CheckInit(count);
      }
      assert sta == s && table[..] == t && updateTimeInterval == iv;
      UpdateStats(now);
      UpdateAdaptiveTimeInterval(now);
      rate := sta.txrate;
    }

    /** RTS frames always go at the slowest rate. */
    method DoGetRtsMode() returns (rate: nat)
      ensures rate == 0
    {
      rate := 0;
    }
  }
}
