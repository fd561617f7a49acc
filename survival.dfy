/** The Monte Carlo survival simulator of `run_monte_carlo`: one trajectory per
    scenario, month by month and stream by stream, over a cash reserve.

    The pseudo-random generator is an input: `draws(k)` is what the k-th call
    to `random.random()` or `random.gauss(0, 1)` returns, so a uniform in [0, 1)
    or a standard normal. `random.gauss(mu, sigma)` is `mu + sigma * draws(k)`.
    Every operation threads the index of the next unused draw, which makes the
    draw order explicit and the run a deterministic function of its inputs.

    The model has two layers. `Months` says what each month would draw and
    earn if the trajectory kept going; `Ledger` folds those months into the
    reserve and the counters, stopping at the first insolvent month. A
    stopped trajectory draws nothing more, so its draw cursor is the one left
    by the last month it simulated. */
module Survival {
  import opened Sums
  import opened Rounding

  /** One entry of REVENUE_STREAMS (its informational `concentration_current` is not used). */
  datatype Stream = Stream(
    name: string,
    monthlyBase: real,
    monthlyUpside: real,
    probabilityActive: real,
    volatility: real)

  /** The two STOP_RULES thresholds the simulator reads. */
  datatype StopRules = StopRules(liquidityFloor: real, concentrationCap: real)

  type Draws = nat -> real

  const SimulationMonths: nat := 12
  const SimulationScenarios: nat := 1000
  const ExpenseMean: real := 5500.0
  const ExpenseStdDev: real := 500.0
  /** A trajectory goes on while the reserve is above this (credit runway). */
  const InsolvencyFloor: real := -20000.0

  function Max0(x: real): real
  {
    if x > 0.0 then x else 0.0
  }

  /** `min(month * 0.02, 0.15)`: the ramp-up of a dormant stream's activation chance. */
  function ActivationBoost(month: nat): real
  {
    var b := 0.02 * month as real;
    if b < 0.15 then b else 0.15
  }

  /** A stream is active in `month` when its uniform draw is below this. */
  function ActivationThreshold(s: Stream, month: nat): real
  {
    if s.monthlyBase > 0.0 then s.probabilityActive
    else s.probabilityActive + ActivationBoost(month)
  }

  /** Revenue of an active stream given its standard-normal draw `z`: never
      negative, at least the base when the upside is not below it, and exactly
      the base when there is no upside. */
  function StreamRevenue(s: Stream, z: real): (r: real)
    ensures r >= 0.0
    ensures 0.0 <= s.monthlyBase <= s.monthlyUpside ==> s.monthlyBase <= r
    ensures 0.0 <= s.monthlyBase == s.monthlyUpside ==> r == s.monthlyBase
  {
    var base := s.monthlyBase;
    var upside := s.monthlyUpside - base;
    var noise := 0.0 + s.volatility * z;
    Max0(base + upside * Max0(0.5 + noise))
  }

  /** The streams visited so far in one month: their unrounded revenues, the
      running `month_revenue`, the rounded `month_by_stream` values, and the
      next unused draw. */
  datatype StreamDraws = StreamDraws(revenues: seq<real>, total: real, byStream: seq<real>, cursor: nat)

  /** What visiting one stream gives: its revenue and the next unused draw. */
  datatype Outcome = Outcome(revenue: real, cursor: nat)

  /** Stream `s` in `month`, from draw `j` on: one uniform draw, then one
      normal draw for its noise only if it is active. */
  function VisitOne(s: Stream, month: nat, draws: Draws, j: nat): Outcome
  {
    if draws(j) < ActivationThreshold(s, month) then Outcome(StreamRevenue(s, draws(j + 1)), j + 2)
    else Outcome(0.0, j + 1)
  }

  /** Visits stream `s` after the streams summed up in `prev`. */
  function Visit(prev: StreamDraws, s: Stream, month: nat, draws: Draws): StreamDraws
  {
    var o := VisitOne(s, month, draws, prev.cursor);
    StreamDraws(prev.revenues + [o.revenue], prev.total + o.revenue, prev.byStream + [Round(o.revenue, 2)], o.cursor)
  }

  /** The streams `ss` visited in order in `month`, from draw `k` on. */
  function DrawStreams(ss: seq<Stream>, month: nat, draws: Draws, k: nat): StreamDraws
  {
    if ss == [] then StreamDraws([], 0.0, [], k)
    else Visit(DrawStreams(ss[..|ss| - 1], month, draws, k), ss[|ss| - 1], month, draws)
  }

  /** One revenue and one rounded figure per stream, and between one and two
      draws per stream. */
  lemma {:induction false} DrawStreamsShape(ss: seq<Stream>, month: nat, draws: Draws, k: nat)
    ensures |DrawStreams(ss, month, draws, k).revenues| == |ss|
    ensures |DrawStreams(ss, month, draws, k).byStream| == |ss|
    ensures k + |ss| <= DrawStreams(ss, month, draws, k).cursor <= k + 2 * |ss|
  {
    if ss != [] {
      DrawStreamsShape(ss[..|ss| - 1], month, draws, k);
    }
  }

  /** Visiting one more stream extends what the earlier streams drew. */
  lemma DrawStreamsPrefix(ss: seq<Stream>, i: nat, month: nat, draws: Draws, k: nat)
    requires i < |ss|
    ensures DrawStreams(ss[..i + 1], month, draws, k) == Visit(DrawStreams(ss[..i], month, draws, k), ss[i], month, draws)
  {
    assert ss[..i + 1][..i] == ss[..i];
  }

  /** A month's revenue is the sum of its streams' revenues, none of them
      negative, and `month_by_stream` holds each of them rounded to cents. */
  lemma {:induction false} DrawStreamsSums(ss: seq<Stream>, month: nat, draws: Draws, k: nat)
    ensures DrawStreams(ss, month, draws, k).total == Sum(DrawStreams(ss, month, draws, k).revenues)
    ensures |DrawStreams(ss, month, draws, k).revenues| == |ss| == |DrawStreams(ss, month, draws, k).byStream|
    ensures forall i :: 0 <= i < |ss| ==> DrawStreams(ss, month, draws, k).revenues[i] >= 0.0
    ensures forall i :: 0 <= i < |ss| ==>
      DrawStreams(ss, month, draws, k).byStream[i] == Round(DrawStreams(ss, month, draws, k).revenues[i], 2)
  {
    DrawStreamsShape(ss, month, draws, k);
    if ss != [] {
      var n := |ss| - 1;
      var prev := DrawStreams(ss[..n], month, draws, k);
      DrawStreamsSums(ss[..n], month, draws, k);
      var o := VisitOne(ss[n], month, draws, prev.cursor);
      var m := DrawStreams(ss, month, draws, k);
      assert m == StreamDraws(prev.revenues + [o.revenue], prev.total + o.revenue, prev.byStream + [Round(o.revenue, 2)], o.cursor);
      SumAppend(prev.revenues, o.revenue);
      forall i | 0 <= i < |ss|
        ensures m.revenues[i] >= 0.0 && m.byStream[i] == Round(m.revenues[i], 2)
      {
        if i < n {
          assert m.revenues[i] == prev.revenues[i] && m.byStream[i] == prev.byStream[i];
        }
      }
    }
  }

  /** What one simulated month contributes: its rounded per-stream revenues,
      its unrounded revenue and expense, and the next unused draw. */
  datatype Month = Month(byStream: seq<real>, revenue: real, expense: real, cursor: nat)

  /** Month `month`, from draw `k` on: the streams, then the expense draw. */
  function MonthOf(streams: seq<Stream>, month: nat, draws: Draws, k: nat): Month
  {
    var md := DrawStreams(streams, month, draws, k);
    Month(md.byStream, md.total, ExpenseMean + ExpenseStdDev * draws(md.cursor), md.cursor + 1)
  }

  /** The draw a month starting after the months `ms` begins with. */
  function NextDraw(ms: seq<Month>, k0: nat): nat
  {
    if ms == [] then k0 else ms[|ms| - 1].cursor
  }

  /** Months 1..m as they would go if the trajectory never stopped, from draw `k0` on. */
  function Months(streams: seq<Stream>, draws: Draws, k0: nat, m: nat): (ms: seq<Month>)
    ensures |ms| == m
  {
    if m == 0 then []
    else
      var prev := Months(streams, draws, k0, m - 1);
      prev + [MonthOf(streams, m, draws, NextDraw(prev, k0))]
  }

  /** The first `j` months of a longer horizon are the months of the shorter one. */
  lemma {:induction false} MonthsPrefix(streams: seq<Stream>, draws: Draws, k0: nat, m: nat, j: nat)
    requires j <= m
    ensures Months(streams, draws, k0, m)[..j] == Months(streams, draws, k0, j)
  {
    if j < m {
      MonthsPrefix(streams, draws, k0, m - 1, j);
      var ms := Months(streams, draws, k0, m);
      assert ms[..j] == ms[..m - 1][..j];
    } else {
      assert Months(streams, draws, k0, m)[..j] == Months(streams, draws, k0, m);
    }
  }

  /** Adds `b` to `a` element by element (the two have the same length in
      every trajectory; a missing element of `b` counts as zero). */
  function AddEach(a: seq<real>, b: seq<real>): (r: seq<real>)
    ensures |r| == |a|
  {
    seq(|a|, i requires 0 <= i < |a| => a[i] + (if i < |b| then b[i] else 0.0))
  }

  function RoundEach(s: seq<real>, d: nat): (r: seq<real>)
    ensures |r| == |s|
  {
    seq(|s|, i requires 0 <= i < |s| => Round(s[i], d))
  }

  function Zeros(n: nat): (r: seq<real>)
    ensures |r| == n
  {
    seq(n, _ => 0.0)
  }

  /** The source's accumulators for one trajectory. `streamTotals` holds the
      running sums of the rounded per-stream revenues that `stream_revenues`
      lists, one per stream. */
  datatype Trajectory = Trajectory(
    cash: real,
    monthsSurvived: nat,
    liquidityBreaches: nat,
    concentrationViolations: nat,
    monthlyTotals: seq<real>,
    streamTotals: seq<real>,
    cursor: nat,
    stopped: bool)

  function Initial(streamCount: nat, k0: nat): Trajectory
  {
    Trajectory(0.0, 0, 0, 0, [], Zeros(streamCount), k0, false)
  }

  /** Whether a month with these rounded per-stream revenues and this unrounded
      total breaks the concentration cap (only asked when the total is positive,
      which cannot happen without a stream). */
  function Concentrated(byStream: seq<real>, monthRevenue: real, cap: real): bool
  {
    if monthRevenue > 0.0 && |byStream| > 0 then Max(byStream) / monthRevenue > cap else false
  }

  /** One month of the trajectory. */
  function StepMonth(t: Trajectory, f: Month, rules: StopRules, month: nat): Trajectory
  {
    var cash := t.cash + (f.revenue - f.expense);
    Trajectory(
      cash,
      if cash > InsolvencyFloor then month else t.monthsSurvived,
      if cash < rules.liquidityFloor then t.liquidityBreaches + 1 else t.liquidityBreaches,
      if Concentrated(f.byStream, f.revenue, rules.concentrationCap) then t.concentrationViolations + 1
      else t.concentrationViolations,
      t.monthlyTotals + [Round(f.revenue, 2)],
      AddEach(t.streamTotals, f.byStream),
      f.cursor,
      !(cash > InsolvencyFloor))
  }

  /** A month applied to a trajectory that may have stopped already. */
  function Advance(t: Trajectory, f: Month, rules: StopRules, month: nat): Trajectory
  {
    if t.stopped then t else StepMonth(t, f, rules, month)
  }

  /** The trajectory of `n` streams over the months `ms`, from draw `k0` on;
      once stopped it no longer changes. */
  function Ledger(n: nat, rules: StopRules, k0: nat, ms: seq<Month>): Trajectory
  {
    if ms == [] then Initial(n, k0)
    else Advance(Ledger(n, rules, k0, ms[..|ms| - 1]), ms[|ms| - 1], rules, |ms|)
  }

  /** The trajectory after at most `m` months. */
  function Simulate(streams: seq<Stream>, rules: StopRules, draws: Draws, k0: nat, m: nat): Trajectory
  {
    Ledger(|streams|, rules, k0, Months(streams, draws, k0, m))
  }

  /** One element of the source's `results` list. */
  datatype ScenarioResult = ScenarioResult(
    scenarioId: nat,
    monthsSurvived: nat,
    finalCash: real,
    totalRevenue: real,
    avgMonthly: real,
    liquidityBreaches: nat,
    concentrationViolations: nat,
    streamTotals: seq<real>)

  /** `statistics.mean`: the exact average of a non-empty sequence. */
  function Mean(s: seq<real>): real
    requires |s| > 0
  {
    Sum(s) / |s| as real
  }

  function Summarize(id: nat, t: Trajectory): ScenarioResult
    requires |t.monthlyTotals| > 0
  {
    var total := Sum(t.monthlyTotals);
    ScenarioResult(
      id,
      t.monthsSurvived,
      Round(t.cash, 2),
      Round(total, 2),
      Round(Mean(t.monthlyTotals), 2),
      t.liquidityBreaches,
      t.concentrationViolations,
      RoundEach(t.streamTotals, 2))
  }

  // ---------------------------------------------------------------------
  // Properties of the draws

  lemma ActivationBoostBounds(month: nat, later: nat)
    requires month <= later
    ensures 0.0 <= ActivationBoost(month) <= ActivationBoost(later) <= 0.15
  {
  }

  /** A dormant (zero-base) stream's activation threshold never falls as the
      months pass and never exceeds its base probability plus 0.15; a stream
      with a positive base has a fixed threshold. */
  lemma ActivationThresholdRamp(s: Stream, month: nat, later: nat)
    requires month <= later
    ensures ActivationThreshold(s, month) <= ActivationThreshold(s, later) <= s.probabilityActive + 0.15
    ensures s.monthlyBase > 0.0 ==> ActivationThreshold(s, month) == s.probabilityActive
    ensures s.monthlyBase <= 0.0 && later >= 8 ==> ActivationThreshold(s, later) == s.probabilityActive + 0.15
  {
    ActivationBoostBounds(month, later);
  }

  /** After `m` months the trajectory has used, since draw `k0`, between one
      and two draws per stream in each month, plus one expense draw per month. */
  lemma {:induction false} MonthsDrawCount(streams: seq<Stream>, draws: Draws, k0: nat, m: nat)
    ensures var s := |streams|;
      k0 + m * (s + 1) <= NextDraw(Months(streams, draws, k0, m), k0) <= k0 + m * (2 * s + 1)
  {
    if m > 0 {
      MonthsDrawCount(streams, draws, k0, m - 1);
      var prev := Months(streams, draws, k0, m - 1);
      var k := NextDraw(prev, k0);
      var f := MonthOf(streams, m, draws, k);
      assert NextDraw(Months(streams, draws, k0, m), k0) == f.cursor;
      DrawStreamsShape(streams, m, draws, k);
      DrawCountStep(k0, m - 1, |streams|, k, f.cursor);
    }
  }

  /** The arithmetic step of `MonthsDrawCount`: one more month of between
      `s + 1` and `2 * s + 1` draws keeps the count within the bounds for
      one more month. */
  lemma DrawCountStep(k0: nat, i: nat, s: nat, k: nat, c: nat)
    requires k0 + i * (s + 1) <= k <= k0 + i * (2 * s + 1)
    requires k + s + 1 <= c <= k + 2 * s + 1
    ensures k0 + (i + 1) * (s + 1) <= c <= k0 + (i + 1) * (2 * s + 1)
  {
  }

  /** A month with one figure per each of `n` streams, none of them negative,
      and a non-negative revenue. */
  predicate NonNegativeMonth(f: Month, n: nat)
  {
    |f.byStream| == n && f.revenue >= 0.0 && forall s :: 0 <= s < n ==> f.byStream[s] >= 0.0
  }

  /** Every month of the horizon earns a non-negative revenue and has one
      non-negative rounded figure per stream. */
  lemma {:induction false} MonthsNonNegative(streams: seq<Stream>, draws: Draws, k0: nat, m: nat)
    ensures forall i :: 0 <= i < m ==> NonNegativeMonth(Months(streams, draws, k0, m)[i], |streams|)
  {
    if m > 0 {
      MonthsNonNegative(streams, draws, k0, m - 1);
      var prev := Months(streams, draws, k0, m - 1);
      var k := NextDraw(prev, k0);
      var ms := Months(streams, draws, k0, m);
      assert ms == prev + [MonthOf(streams, m, draws, k)];
      var md := DrawStreams(streams, m, draws, k);
      DrawStreamsSums(streams, m, draws, k);
      SumNonNegative(md.revenues);
      forall s | 0 <= s < |streams|
        ensures md.byStream[s] >= 0.0
      {
        RoundNonNegative(md.revenues[s], 2);
      }
      assert NonNegativeMonth(ms[m - 1], |streams|);
    }
  }

  // ---------------------------------------------------------------------
  // Properties of the ledger

  /** Once a trajectory has stopped, later months change nothing. */
  lemma {:induction false} StoppedStaysStopped(n: nat, rules: StopRules, k0: nat, ms: seq<Month>, j: nat)
    requires j <= |ms|
    requires Ledger(n, rules, k0, ms[..j]).stopped
    ensures Ledger(n, rules, k0, ms) == Ledger(n, rules, k0, ms[..j])
  {
    if j < |ms| {
      var ms' := ms[..|ms| - 1];
      assert ms'[..j] == ms[..j];
      StoppedStaysStopped(n, rules, k0, ms', j);
    } else {
      assert ms[..j] == ms;
    }
  }

  predicate Shaped(t: Trajectory, n: nat, ms: seq<Month>, k0: nat)
  {
    var sim := |t.monthlyTotals|;
    && |t.streamTotals| == n
    && sim <= |ms|
    && (t.stopped ==> sim >= 1 && t.monthsSurvived == sim - 1)
    && (!t.stopped ==> sim == |ms| && t.monthsSurvived == sim)
    && t.liquidityBreaches <= sim
    && t.concentrationViolations <= sim
    && t.cursor == NextDraw(ms[..sim], k0)
    && (forall i :: 0 <= i < sim ==> t.monthlyTotals[i] == Round(ms[i].revenue, 2))
  }

  /** The shape of a trajectory: `sim` months simulated, all of them survived
      unless it stopped, and then all but the last; counters that never exceed
      the simulated months; one rounded total per simulated month; and the draw
      cursor that the last simulated month left. */
  lemma {:induction false} LedgerShape(n: nat, rules: StopRules, k0: nat, ms: seq<Month>)
    ensures Shaped(Ledger(n, rules, k0, ms), n, ms, k0)
  {
    if ms != [] {
      var ms' := ms[..|ms| - 1];
      LedgerShape(n, rules, k0, ms');
      var t := Ledger(n, rules, k0, ms');
      var sim := |t.monthlyTotals|;
      assert ms'[..sim] == ms[..sim];
      if !t.stopped {
        assert ms[..sim + 1] == ms;
      }
    }
  }

  /** The net cash flow of the months `ms`: revenue minus expense, summed. */
  function Net(ms: seq<Month>): real
  {
    if ms == [] then 0.0 else Net(ms[..|ms| - 1]) + (ms[|ms| - 1].revenue - ms[|ms| - 1].expense)
  }

  /** The reserve of `t` is the net cash flow of its simulated months. */
  predicate CashIsNet(t: Trajectory, ms: seq<Month>)
  {
    |t.monthlyTotals| <= |ms| && t.cash == Net(ms[..|t.monthlyTotals|])
  }

  /** The reserve is the net cash flow of the simulated months, from zero. */
  lemma {:induction false} LedgerCash(n: nat, rules: StopRules, k0: nat, ms: seq<Month>)
    ensures CashIsNet(Ledger(n, rules, k0, ms), ms)
  {
    if ms != [] {
      var ms' := ms[..|ms| - 1];
      LedgerCash(n, rules, k0, ms');
      LedgerShape(n, rules, k0, ms');
      var t := Ledger(n, rules, k0, ms');
      assert ms'[..|t.monthlyTotals|] == ms[..|t.monthlyTotals|];
      if !t.stopped {
        assert |t.monthlyTotals| == |ms'|;
        assert ms[..|ms|] == ms;
      }
    }
  }

  /** The months of `ms` whose reserve at the end of the month, from zero,
      is below `floor`: month `j` (from 1) counts when `Net(ms[..j]) < floor`. */
  function Breaches(ms: seq<Month>, floor: real): nat
  {
    if ms == [] then 0 else Breaches(ms[..|ms| - 1], floor) + (if Net(ms) < floor then 1 else 0)
  }

  /** The months of `ms` in which one stream earned more than `cap` of the
      month's revenue. */
  function Violations(ms: seq<Month>, cap: real): nat
  {
    if ms == [] then 0
    else
      var f := ms[|ms| - 1];
      Violations(ms[..|ms| - 1], cap) + (if Concentrated(f.byStream, f.revenue, cap) then 1 else 0)
  }

  /** The counters of `t` count its simulated months, the last one included. */
  predicate CountersMatch(t: Trajectory, ms: seq<Month>, rules: StopRules)
  {
    && |t.monthlyTotals| <= |ms|
    && t.liquidityBreaches == Breaches(ms[..|t.monthlyTotals|], rules.liquidityFloor)
    && t.concentrationViolations == Violations(ms[..|t.monthlyTotals|], rules.concentrationCap)
  }

  /** `liquidity_breaches` counts the simulated months that ended below the
      liquidity floor and `concentration_violations` those over the
      concentration cap; both are updated before the survival check, so the
      month that stops the trajectory is counted too. */
  lemma {:induction false} LedgerCounters(n: nat, rules: StopRules, k0: nat, ms: seq<Month>)
    ensures CountersMatch(Ledger(n, rules, k0, ms), ms, rules)
  {
    if ms != [] {
      var ms' := ms[..|ms| - 1];
      LedgerCounters(n, rules, k0, ms');
      LedgerShape(n, rules, k0, ms');
      LedgerCash(n, rules, k0, ms');
      var t := Ledger(n, rules, k0, ms');
      var sim := |t.monthlyTotals|;
      assert ms'[..sim] == ms[..sim];
      if !t.stopped {
        assert sim == |ms'| && ms'[..sim] == ms';
        assert ms[..sim + 1] == ms;
        assert Ledger(n, rules, k0, ms).cash == Net(ms);
      }
    }
  }

  /** With a liquidity floor above the insolvency floor, as in the shipped
      rules, the month that stops a trajectory is always a breach. */
  lemma StoppingMonthIsBreach(n: nat, rules: StopRules, k0: nat, ms: seq<Month>)
    requires rules.liquidityFloor > InsolvencyFloor
    requires Ledger(n, rules, k0, ms).stopped
    ensures Ledger(n, rules, k0, ms).liquidityBreaches >= 1
  {
    LedgerCounters(n, rules, k0, ms);
    LedgerStopsAtFirstInsolvency(n, rules, k0, ms);
    LedgerShape(n, rules, k0, ms);
    var sim := |Ledger(n, rules, k0, ms).monthlyTotals|;
    assert Net(ms[..sim]) <= InsolvencyFloor;
  }

  /** `t` stopped at its first insolvent month: every earlier month ended
      above the floor, and it is stopped exactly when its last simulated month
      did not. */
  predicate StopsAtFirstInsolvency(t: Trajectory, ms: seq<Month>)
  {
    && |t.monthlyTotals| <= |ms|
    && (forall j :: 1 <= j < |t.monthlyTotals| ==> Net(ms[..j]) > InsolvencyFloor)
    && (|t.monthlyTotals| >= 1 ==> (t.stopped <==> Net(ms[..|t.monthlyTotals|]) <= InsolvencyFloor))
    && (|t.monthlyTotals| == 0 ==> !t.stopped)
  }

  /** A trajectory stops at the first month whose reserve is at or below the
      insolvency floor. */
  lemma {:induction false} LedgerStopsAtFirstInsolvency(n: nat, rules: StopRules, k0: nat, ms: seq<Month>)
    ensures StopsAtFirstInsolvency(Ledger(n, rules, k0, ms), ms)
  {
    if ms != [] {
      var ms' := ms[..|ms| - 1];
      LedgerStopsAtFirstInsolvency(n, rules, k0, ms');
      LedgerShape(n, rules, k0, ms');
      var t' := Ledger(n, rules, k0, ms');
      var sim := |t'.monthlyTotals|;
      forall j | 1 <= j <= sim
        ensures ms[..j] == ms'[..j]
      {
      }
      if !t'.stopped {
        LedgerCash(n, rules, k0, ms);
        assert sim == |ms'| && ms'[..sim] == ms';
        assert |Ledger(n, rules, k0, ms).monthlyTotals| == |ms|;
      }
    }
  }

  /** The sum of stream `s`'s rounded revenues over the months `ms`. */
  function StreamSum(ms: seq<Month>, s: nat): real
  {
    if ms == [] then 0.0
    else
      var f := ms[|ms| - 1];
      StreamSum(ms[..|ms| - 1], s) + (if s < |f.byStream| then f.byStream[s] else 0.0)
  }

  predicate TotalsMatch(t: Trajectory, ms: seq<Month>)
  {
    |t.monthlyTotals| <= |ms| &&
    forall s :: 0 <= s < |t.streamTotals| ==> t.streamTotals[s] == StreamSum(ms[..|t.monthlyTotals|], s)
  }

  /** Each stream total is the sum of that stream's rounded revenues over the
      simulated months. */
  lemma {:induction false} LedgerStreamTotals(n: nat, rules: StopRules, k0: nat, ms: seq<Month>)
    ensures TotalsMatch(Ledger(n, rules, k0, ms), ms)
  {
    if ms != [] {
      var ms' := ms[..|ms| - 1];
      LedgerStreamTotals(n, rules, k0, ms');
      LedgerShape(n, rules, k0, ms');
      var t := Ledger(n, rules, k0, ms');
      var sim := |t.monthlyTotals|;
      assert ms'[..sim] == ms[..sim];
      if !t.stopped {
        assert ms[..sim + 1] == ms;
      }
    }
  }

  predicate AllNonNegative(s: seq<real>)
  {
    forall i :: 0 <= i < |s| ==> s[i] >= 0.0
  }

  /** With non-negative month figures, every recorded total is non-negative. */
  lemma {:induction false} LedgerNonNegative(n: nat, rules: StopRules, k0: nat, ms: seq<Month>)
    requires forall i :: 0 <= i < |ms| ==> NonNegativeMonth(ms[i], n)
    ensures AllNonNegative(Ledger(n, rules, k0, ms).monthlyTotals)
    ensures AllNonNegative(Ledger(n, rules, k0, ms).streamTotals)
  {
    if ms != [] {
      var ms' := ms[..|ms| - 1];
      LedgerNonNegative(n, rules, k0, ms');
      var t := Ledger(n, rules, k0, ms');
      if !t.stopped {
        var f := ms[|ms| - 1];
        RoundNonNegative(f.revenue, 2);
        var t' := StepMonth(t, f, rules, |ms|);
        assert t'.monthlyTotals == t.monthlyTotals + [Round(f.revenue, 2)];
        forall s | 0 <= s < |t'.streamTotals|
          ensures t'.streamTotals[s] >= 0.0
        {
          if s < |f.byStream| {
            assert t'.streamTotals[s] == t.streamTotals[s] + f.byStream[s];
          }
        }
      }
    }
  }

  // ---------------------------------------------------------------------
  // The simulator

  /** The trajectory after `m` months is the one after `m - 1` months, taken
      one month further unless it has stopped. */
  lemma SimulateStep(streams: seq<Stream>, rules: StopRules, draws: Draws, k0: nat, m: nat)
    requires m >= 1
    ensures Simulate(streams, rules, draws, k0, m) ==
      Advance(Simulate(streams, rules, draws, k0, m - 1),
        MonthOf(streams, m, draws, NextDraw(Months(streams, draws, k0, m - 1), k0)), rules, m)
  {
    var ms := Months(streams, draws, k0, m);
    assert ms[..m - 1] == Months(streams, draws, k0, m - 1);
  }

  /** A stopped trajectory is final: a longer horizon gives the same one. */
  lemma SimulateStopped(streams: seq<Stream>, rules: StopRules, draws: Draws, k0: nat, m: nat, m': nat)
    requires m <= m'
    requires Simulate(streams, rules, draws, k0, m).stopped
    ensures Simulate(streams, rules, draws, k0, m') == Simulate(streams, rules, draws, k0, m)
  {
    MonthsPrefix(streams, draws, k0, m', m);
    StoppedStaysStopped(|streams|, rules, k0, Months(streams, draws, k0, m'), m);
  }

  /** A scenario over `m >= 1` months: at least one month simulated, at most
      `m` survived, counters within the simulated months, one total per
      stream, none of them negative, and between one and two draws per stream
      and month plus one per month. */
  lemma SimulateShape(streams: seq<Stream>, rules: StopRules, draws: Draws, k0: nat, m: nat)
    requires m >= 1
    ensures 1 <= |Simulate(streams, rules, draws, k0, m).monthlyTotals| <= m
    ensures Simulate(streams, rules, draws, k0, m).monthsSurvived <= m
    ensures Simulate(streams, rules, draws, k0, m).liquidityBreaches <= m
    ensures Simulate(streams, rules, draws, k0, m).concentrationViolations <= m
    ensures |Simulate(streams, rules, draws, k0, m).streamTotals| == |streams|
    ensures AllNonNegative(Simulate(streams, rules, draws, k0, m).monthlyTotals)
    ensures AllNonNegative(Simulate(streams, rules, draws, k0, m).streamTotals)
    ensures k0 + |streams| + 1 <= Simulate(streams, rules, draws, k0, m).cursor <= k0 + m * (2 * |streams| + 1)
  {
    var ms := Months(streams, draws, k0, m);
    var t := Ledger(|streams|, rules, k0, ms);
    LedgerShape(|streams|, rules, k0, ms);
    MonthsNonNegative(streams, draws, k0, m);
    LedgerNonNegative(|streams|, rules, k0, ms);
    var sim := |t.monthlyTotals|;
    MonthsPrefix(streams, draws, k0, m, sim);
    MonthsDrawCount(streams, draws, k0, sim);
    CursorBounds(k0, sim, m, |streams|, t.cursor);
  }

  /** The arithmetic step of `SimulateShape`: a run of `sim` months, at
      least one and at most the horizon, uses between one month's minimum
      and the horizon's maximum of draws. */
  lemma CursorBounds(k0: nat, sim: nat, m: nat, s: nat, c: nat)
    requires 1 <= sim <= m
    requires k0 + sim * (s + 1) <= c <= k0 + sim * (2 * s + 1)
    ensures k0 + s + 1 <= c <= k0 + m * (2 * s + 1)
  {
    assert sim * (2 * s + 1) <= m * (2 * s + 1);
  }

  /** One stream in one month: an activation draw, then, when the stream is
      active, a revenue draw. */
  method DrawStream(stream: Stream, month: nat, draws: Draws, j: nat) returns (revenue: real, next: nat)
    ensures Outcome(revenue, next) == VisitOne(stream, month, draws, j)
  {
    var isActive := draws(j) < ActivationThreshold(stream, month);
    next := j + 1;
    revenue := 0.0;
    if isActive {
      revenue := StreamRevenue(stream, draws(next));
      next := next + 1;
    }
  }

  /** The inner loop of one month: every stream in order, from draw `k` on,
      adding each rounded revenue to its stream's running total. */
  method DrawMonth(streams: seq<Stream>, month: nat, draws: Draws, k: nat, totals: seq<real>)
    returns (monthRevenue: real, byStream: seq<real>, next: nat, totals': seq<real>)
    requires |totals| == |streams|
    ensures monthRevenue == DrawStreams(streams, month, draws, k).total
    ensures byStream == DrawStreams(streams, month, draws, k).byStream
    ensures next == DrawStreams(streams, month, draws, k).cursor
    ensures totals' == AddEach(totals, byStream)
  {
    monthRevenue := 0.0;
    byStream := [];
    next := k;
    totals' := totals;
    ghost var revenues: seq<real> := [];
    var i := 0;
    while i < |streams|
      invariant 0 <= i <= |streams|
      invariant DrawStreams(streams[..i], month, draws, k) == StreamDraws(revenues, monthRevenue, byStream, next)
      invariant |byStream| == i && |totals'| == |streams|
      invariant forall j :: 0 <= j < i ==> totals'[j] == totals[j] + byStream[j]
      invariant forall j :: i <= j < |streams| ==> totals'[j] == totals[j]
    {
      DrawStreamsPrefix(streams, i, month, draws, k);
      var revenue;
      revenue, next := DrawStream(streams[i], month, draws, next);
      byStream := byStream + [Round(revenue, 2)];
      monthRevenue := monthRevenue + revenue;
      revenues := revenues + [revenue];
      totals' := totals'[i := totals'[i] + Round(revenue, 2)];
      i := i + 1;
    }
    assert streams[..|streams|] == streams;
  }

  /** Month `i + 1` of the horizon starts where the months before it left off. */
  lemma {:induction false} MonthsAt(streams: seq<Stream>, draws: Draws, k0: nat, m: nat, i: nat)
    requires i < m
    ensures Months(streams, draws, k0, m)[i] ==
      MonthOf(streams, i + 1, draws, NextDraw(Months(streams, draws, k0, m)[..i], k0))
  {
    MonthsPrefix(streams, draws, k0, m, i + 1);
    MonthsPrefix(streams, draws, k0, m, i);
    var ms := Months(streams, draws, k0, m);
    assert ms[..i + 1][i] == ms[i];
    assert ms[..i + 1][..i] == ms[..i];
  }

  /** One more month for the ledger. */
  lemma LedgerAppend(n: nat, rules: StopRules, k0: nat, ms: seq<Month>, f: Month)
    ensures Ledger(n, rules, k0, ms + [f]) == Advance(Ledger(n, rules, k0, ms), f, rules, |ms| + 1)
  {
    assert (ms + [f])[..|ms|] == ms;
  }

  /** A result built from a trajectory's figures is its summary. */
  lemma SummarizeFrom(id: nat, t: Trajectory, r: ScenarioResult)
    requires |t.monthlyTotals| > 0
    requires r.scenarioId == id && r.monthsSurvived == t.monthsSurvived
    requires r.finalCash == Round(t.cash, 2) && r.totalRevenue == Round(Sum(t.monthlyTotals), 2)
    requires r.avgMonthly == Round(Mean(t.monthlyTotals), 2)
    requires r.liquidityBreaches == t.liquidityBreaches && r.concentrationViolations == t.concentrationViolations
    requires r.streamTotals == RoundEach(t.streamTotals, 2)
    ensures r == Summarize(id, t)
  {
  }

  /** The body of the month loop: the streams, the expense draw, the reserve
      and the counters, as `StepMonth` takes the trajectory `t` one month on. */
  method PlayMonth(ghost t: Trajectory, streams: seq<Stream>, rules: StopRules, draws: Draws, month: nat,
                   cashReserve: real, liquidityBreaches: nat, concentrationViolations: nat,
                   monthlyTotals: seq<real>, streamTotals: seq<real>, k: nat)
    returns (cash': real, breaches': nat, violations': nat, totals': seq<real>, streamTotals': seq<real>, k': nat)
    requires t.cash == cashReserve && t.liquidityBreaches == liquidityBreaches
    requires t.concentrationViolations == concentrationViolations
    requires t.monthlyTotals == monthlyTotals && t.streamTotals == streamTotals && t.cursor == k
    requires |streamTotals| == |streams|
    ensures cash' == StepMonth(t, MonthOf(streams, month, draws, k), rules, month).cash
    ensures breaches' == StepMonth(t, MonthOf(streams, month, draws, k), rules, month).liquidityBreaches
    ensures violations' == StepMonth(t, MonthOf(streams, month, draws, k), rules, month).concentrationViolations
    ensures totals' == StepMonth(t, MonthOf(streams, month, draws, k), rules, month).monthlyTotals
    ensures streamTotals' == StepMonth(t, MonthOf(streams, month, draws, k), rules, month).streamTotals
    ensures k' == StepMonth(t, MonthOf(streams, month, draws, k), rules, month).cursor
  {
    ghost var f := MonthOf(streams, month, draws, k);
    var monthRevenue, byStream;
    monthRevenue, byStream, k', streamTotals' := DrawMonth(streams, month, draws, k, streamTotals);
    assert f.revenue == monthRevenue && f.byStream == byStream;

    var monthlyExpenses := ExpenseMean + ExpenseStdDev * draws(k');
    assert f.expense == monthlyExpenses && f.cursor == k' + 1;
    k' := k' + 1;
    cash' := cashReserve + (monthRevenue - monthlyExpenses);
    totals' := monthlyTotals + [Round(monthRevenue, 2)];

    breaches' := liquidityBreaches;
    if cash' < rules.liquidityFloor {
      breaches' := breaches' + 1;
    }
    violations' := concentrationViolations;
    if monthRevenue > 0.0 && |byStream| > 0 {
      var maxConcentration := Max(byStream) / monthRevenue;
      if maxConcentration > rules.concentrationCap {
        violations' := violations' + 1;
      }
    }
  }

  /** Month `month` taken by the ledger: the trajectory after it is the
      ledger of the first `month` months, and if it stopped, of all of them. */
  lemma LedgerStep(n: nat, rules: StopRules, k0: nat, ms: seq<Month>, month: nat, t: Trajectory)
    requires 1 <= month <= |ms|
    requires t == Ledger(n, rules, k0, ms[..month - 1]) && !t.stopped
    ensures StepMonth(t, ms[month - 1], rules, month) == Ledger(n, rules, k0, ms[..month])
    ensures NextDraw(ms[..month], k0) == ms[month - 1].cursor
    ensures StepMonth(t, ms[month - 1], rules, month).stopped ==>
      StepMonth(t, ms[month - 1], rules, month) == Ledger(n, rules, k0, ms)
  {
    LedgerAppend(n, rules, k0, ms[..month - 1], ms[month - 1]);
    assert ms[..month] == ms[..month - 1] + [ms[month - 1]];
    if StepMonth(t, ms[month - 1], rules, month).stopped {
      StoppedStaysStopped(n, rules, k0, ms, month);
    }
  }

  /** One scenario of `run_monte_carlo`: at most `months` months, from draw `k0` on. */
  method RunScenario(id: nat, streams: seq<Stream>, rules: StopRules, months: nat, draws: Draws, k0: nat)
    returns (result: ScenarioResult, cursor: nat)
    requires months >= 1
    ensures |Simulate(streams, rules, draws, k0, months).monthlyTotals| > 0
    ensures result == Summarize(id, Simulate(streams, rules, draws, k0, months))
    ensures cursor == Simulate(streams, rules, draws, k0, months).cursor
  {
    ghost var all := Months(streams, draws, k0, months);
    assert all[..months] == all;
    var cashReserve := 0.0;
    var monthsSurvived: nat := 0;
    var liquidityBreaches: nat := 0;
    var concentrationViolations: nat := 0;
    var monthlyTotals: seq<real> := [];
    var streamTotals: seq<real> := Zeros(|streams|);
    var k := k0;
    ghost var t := Ledger(|streams|, rules, k0, []);

    var month := 1;
    while month <= months
      invariant 1 <= month <= months + 1
      invariant t == Ledger(|streams|, rules, k0, all[..month - 1]) && !t.stopped
      invariant t.cash == cashReserve && t.monthsSurvived == monthsSurvived
      invariant t.liquidityBreaches == liquidityBreaches && t.concentrationViolations == concentrationViolations
      invariant t.monthlyTotals == monthlyTotals && t.streamTotals == streamTotals && t.cursor == k
      invariant |streamTotals| == |streams|
      invariant k == NextDraw(all[..month - 1], k0)
    {
      MonthsAt(streams, draws, k0, months, month - 1);
      LedgerStep(|streams|, rules, k0, all, month, t);
      cashReserve, liquidityBreaches, concentrationViolations, monthlyTotals, streamTotals, k :=
        PlayMonth(t, streams, rules, draws, month, cashReserve, liquidityBreaches, concentrationViolations,
          monthlyTotals, streamTotals, k);
      t := StepMonth(t, all[month - 1], rules, month);
      if cashReserve > InsolvencyFloor {
        monthsSurvived := month;
      } else {
        break;
      }
      month := month + 1;
    }
    SimulateShape(streams, rules, draws, k0, months);
    var totalRevenue := Sum(monthlyTotals);
    result := ScenarioResult(
      id,
      monthsSurvived,
      Round(cashReserve, 2),
      Round(totalRevenue, 2),
      Round(Mean(monthlyTotals), 2),
      liquidityBreaches,
      concentrationViolations,
      RoundEach(streamTotals, 2));
    SummarizeFrom(id, t, result);
    cursor := k;
  }

  // ---------------------------------------------------------------------
  // The scenarios

  /** What one scenario gives: its result and the next unused draw. */
  datatype Run = Run(result: ScenarioResult, cursor: nat)

  /** Scenario `id` over `months` months, its first draw being draw `k`. */
  function Scenario(streams: seq<Stream>, rules: StopRules, draws: Draws, months: nat, id: nat, k: nat): Run
    requires months >= 1
  {
    var t := Simulate(streams, rules, draws, k, months);
    SimulateShape(streams, rules, draws, k, months);
    Run(Summarize(id, t), t.cursor)
  }

  /** The results of the first `count` scenarios and the next unused draw. */
  datatype Batch = Batch(results: seq<ScenarioResult>, cursor: nat)

  /** `count` runs of `scenario`, the first from draw 0 and each later one
      from where the one before it left the generator. */
  function Runs(scenario: (nat, nat) -> Run, count: nat): Batch
  {
    if count == 0 then Batch([], 0)
    else
      var b := Runs(scenario, count - 1);
      var r := scenario(count - 1, b.cursor);
      Batch(b.results + [r.result], r.cursor)
  }

  function Scenarios(streams: seq<Stream>, rules: StopRules, draws: Draws, months: nat, count: nat): Batch
    requires months >= 1
  {
    Runs((id: nat, k: nat) => Scenario(streams, rules, draws, months, id, k), count)
  }

  /** Every scenario result of a batch: its own index as id, at most `months`
      months survived, counters within `months`, one total per stream, and
      no negative revenue figure. */
  predicate WellFormed(r: ScenarioResult, i: nat, n: nat, months: nat)
  {
    && r.scenarioId == i
    && r.monthsSurvived <= months
    && r.liquidityBreaches <= months
    && r.concentrationViolations <= months
    && r.totalRevenue >= 0.0
    && r.avgMonthly >= 0.0
    && |r.streamTotals| == n
    && AllNonNegative(r.streamTotals)
  }

  /** Rounding a sequence of non-negative values keeps them non-negative. */
  lemma RoundEachNonNegative(s: seq<real>, d: nat)
    requires AllNonNegative(s)
    ensures AllNonNegative(RoundEach(s, d))
  {
    forall i | 0 <= i < |s|
      ensures RoundEach(s, d)[i] >= 0.0
    {
      RoundNonNegative(s[i], d);
    }
  }

  /** A scenario's result is well formed, whatever draw it starts from. */
  lemma ScenarioWellFormed(streams: seq<Stream>, rules: StopRules, draws: Draws, months: nat, id: nat, k: nat)
    requires months >= 1
    ensures WellFormed(Scenario(streams, rules, draws, months, id, k).result, id, |streams|, months)
  {
    var t := Simulate(streams, rules, draws, k, months);
    SimulateShape(streams, rules, draws, k, months);
    SumNonNegative(t.monthlyTotals);
    RoundNonNegative(Sum(t.monthlyTotals), 2);
    DivMonotone(0.0, Sum(t.monthlyTotals), |t.monthlyTotals| as real);
    RoundNonNegative(Mean(t.monthlyTotals), 2);
    RoundEachNonNegative(t.streamTotals, 2);
  }

  lemma AppendWellFormed(rs: seq<ScenarioResult>, r: ScenarioResult, n: nat, months: nat)
    requires forall i :: 0 <= i < |rs| ==> WellFormed(rs[i], i, n, months)
    requires WellFormed(r, |rs|, n, months)
    ensures forall i :: 0 <= i < |rs| + 1 ==> WellFormed((rs + [r])[i], i, n, months)
  {
  }

  /** Runs of a scenario whose every result is well formed give `count`
      well-formed results, in scenario order. */
  lemma {:induction false} RunsShape(scenario: (nat, nat) -> Run, count: nat, n: nat, months: nat)
    requires forall id, k :: WellFormed(scenario(id, k).result, id, n, months)
    ensures |Runs(scenario, count).results| == count
    ensures forall i :: 0 <= i < count ==> WellFormed(Runs(scenario, count).results[i], i, n, months)
  {
    if count > 0 {
      RunsShape(scenario, count - 1, n, months);
      var b := Runs(scenario, count - 1);
      AppendWellFormed(b.results, scenario(count - 1, b.cursor).result, n, months);
    }
  }

  /** `count` scenarios give `count` well-formed results, in scenario order. */
  lemma ScenariosShape(streams: seq<Stream>, rules: StopRules, draws: Draws, months: nat, count: nat)
    requires months >= 1
    ensures |Scenarios(streams, rules, draws, months, count).results| == count
    ensures forall i :: 0 <= i < count ==>
      WellFormed(Scenarios(streams, rules, draws, months, count).results[i], i, |streams|, months)
  {
    var scenario := (id: nat, k: nat) => Scenario(streams, rules, draws, months, id, k);
    forall id, k
      ensures WellFormed(scenario(id, k).result, id, |streams|, months)
    {
      ScenarioWellFormed(streams, rules, draws, months, id, k);
    }
    RunsShape(scenario, count, |streams|, months);
  }

  /** One more scenario, from where the earlier ones left the generator. */
  lemma ScenariosStep(streams: seq<Stream>, rules: StopRules, draws: Draws, months: nat, count: nat)
    requires months >= 1
    ensures Scenarios(streams, rules, draws, months, count + 1).results ==
      Scenarios(streams, rules, draws, months, count).results +
      [Scenario(streams, rules, draws, months, count, Scenarios(streams, rules, draws, months, count).cursor).result]
    ensures Scenarios(streams, rules, draws, months, count + 1).cursor ==
      Scenario(streams, rules, draws, months, count, Scenarios(streams, rules, draws, months, count).cursor).cursor
  {
  }

  /** The scenario loop of `run_monte_carlo` over `count` scenarios of `months`
      months, the generator freshly seeded (draw 0 first). */
  method RunMonteCarlo(streams: seq<Stream>, rules: StopRules, draws: Draws, months: nat, count: nat)
    returns (results: seq<ScenarioResult>)
    requires months >= 1
    ensures results == Scenarios(streams, rules, draws, months, count).results
  {
    results := [];
    var k := 0;
    var scenarioId := 0;
    while scenarioId < count
      invariant scenarioId <= count
      invariant results == Scenarios(streams, rules, draws, months, scenarioId).results
      invariant k == Scenarios(streams, rules, draws, months, scenarioId).cursor
    {
      ScenariosStep(streams, rules, draws, months, scenarioId);
      var result;
      result, k := RunScenario(scenarioId, streams, rules, months, draws, k);
      results := results + [result];
      scenarioId := scenarioId + 1;
    }
  }

  /** The shipped configuration: 1000 scenarios of 12 months. */
  method RunShippedMonteCarlo(streams: seq<Stream>, rules: StopRules, draws: Draws)
    returns (results: seq<ScenarioResult>)
    ensures |results| == SimulationScenarios
    ensures forall i :: 0 <= i < |results| ==> WellFormed(results[i], i, |streams|, SimulationMonths)
  {
    results := RunMonteCarlo(streams, rules, draws, SimulationMonths, SimulationScenarios);
    ScenariosShape(streams, rules, draws, SimulationMonths, SimulationScenarios);
  }
}
