/** The figures `_format_monte_carlo_report` computes from the scenario
    results: the survival count and rate, the cash percentiles, the scenario
    clusters, the mean stop-rule counts and the stream contributions. The
    markdown they are printed into is not modelled. */
module SurvivalReport {
  import opened Sums
  import opened Rounding
  import opened StableSort
  import opened Survival

  // ---------------------------------------------------------------------
  // Survival count

  /** The horizon the report counts as surviving (a literal 12 in the report). */
  const FullYear: nat := 12

  /** The number of scenarios that survived the full year. */
  function Survivors(results: seq<ScenarioResult>): (c: nat)
    ensures c <= |results|
  {
    if results == [] then 0
    else Survivors(results[..|results| - 1]) + (if results[|results| - 1].monthsSurvived >= FullYear then 1 else 0)
  }

  /** Every scenario survived exactly when the count is the number of scenarios,
      and none did exactly when it is zero. */
  lemma {:induction false} SurvivorsAllOrNone(results: seq<ScenarioResult>)
    ensures Survivors(results) == |results| <==> forall i :: 0 <= i < |results| ==> results[i].monthsSurvived >= FullYear
    ensures Survivors(results) == 0 <==> forall i :: 0 <= i < |results| ==> results[i].monthsSurvived < FullYear
  {
    if results != [] {
      var rs := results[..|results| - 1];
      SurvivorsAllOrNone(rs);
      assert forall i :: 0 <= i < |rs| ==> rs[i] == results[i];
    }
  }

  /** The survival rate in percent. */
  function SurvivalRate(results: seq<ScenarioResult>): (rate: real)
    requires |results| > 0
    ensures 0.0 <= rate <= 100.0
  {
    var n := |results| as real;
    var c := Survivors(results) as real;
    assert c / n <= n / n;
    c / n * 100.0
  }

  // ---------------------------------------------------------------------
  // Percentiles

  function Identity(x: real): real
  {
    x
  }

  /** `sorted(values)`. */
  function Ascending(values: seq<real>): (r: seq<real>)
    ensures |r| == |values|
    ensures multiset(r) == multiset(values)
    ensures forall i, j :: 0 <= i <= j < |r| ==> r[i] <= r[j]
  {
    var r := Sort(values, Identity);
    assert SortedBy(r, Identity);
    r
  }

  /** `int(n * q)` for the quantile q = pct / 100. */
  function PercentileIndex(n: nat, pct: nat): nat
  {
    n * pct / 100
  }

  /** Every index is in range when there is at least one value, and a higher
      quantile never gives a lower index. */
  lemma PercentileIndexInRange(n: nat, pct: nat, pct': nat)
    requires n >= 1 && pct <= pct' < 100
    ensures PercentileIndex(n, pct) <= PercentileIndex(n, pct') < n
  {
    assert n * pct <= n * pct';
    assert n * pct' < n * 100;
  }

  /** The value at the quantile's index of the sorted values: one of the
      values, no smaller than the values sorted before it and no larger than
      those sorted after it. */
  function Percentile(values: seq<real>, pct: nat): (p: real)
    requires |values| > 0 && pct < 100
    ensures p in values
    ensures forall i :: 0 <= i < |values| && i <= PercentileIndex(|values|, pct) ==> Ascending(values)[i] <= p
    ensures forall i :: PercentileIndex(|values|, pct) <= i < |values| ==> p <= Ascending(values)[i]
  {
    PercentileIndexInRange(|values|, pct, pct);
    var a := Ascending(values);
    var k := PercentileIndex(|values|, pct);
    assert a[k] in multiset(a);
    assert a[k] in multiset(values);
    a[k]
  }

  /** A higher quantile never gives a lower percentile. */
  lemma PercentileMonotone(values: seq<real>, pct: nat, pct': nat)
    requires |values| > 0 && pct <= pct' < 100
    ensures Percentile(values, pct) <= Percentile(values, pct')
  {
    PercentileIndexInRange(|values|, pct, pct');
  }

  datatype CashPercentiles = CashPercentiles(p5: real, p25: real, p50: real, p75: real, p95: real)

  /** The final cash of every scenario, in scenario order. */
  function FinalCash(results: seq<ScenarioResult>): (r: seq<real>)
    ensures |r| == |results|
  {
    seq(|results|, i requires 0 <= i < |results| => results[i].finalCash)
  }

  function CashPercentilesOf(results: seq<ScenarioResult>): CashPercentiles
    requires |results| > 0
  {
    var v := FinalCash(results);
    CashPercentiles(Percentile(v, 5), Percentile(v, 25), Percentile(v, 50), Percentile(v, 75), Percentile(v, 95))
  }

  /** P5 <= P25 <= P50 <= P75 <= P95, each of them some scenario's final cash. */
  lemma CashPercentilesAscend(results: seq<ScenarioResult>)
    requires |results| > 0
    ensures var c := CashPercentilesOf(results);
      c.p5 <= c.p25 <= c.p50 <= c.p75 <= c.p95
    ensures var c := CashPercentilesOf(results);
      forall p :: p in [c.p5, c.p25, c.p50, c.p75, c.p95] ==> p in FinalCash(results)
  {
    var v := FinalCash(results);
    PercentileMonotone(v, 5, 25);
    PercentileMonotone(v, 25, 50);
    PercentileMonotone(v, 50, 75);
    PercentileMonotone(v, 75, 95);
  }

  /** `statistics.median`: the middle sorted value, or the mean of the two
      middle ones when the count is even; it lies between the least and the
      greatest value. */
  function Median(values: seq<real>): (m: real)
    requires |values| > 0
    ensures Ascending(values)[0] <= m <= Ascending(values)[|values| - 1]
  {
    var a := Ascending(values);
    var n := |values|;
    if n % 2 == 1 then a[n / 2] else (a[n / 2 - 1] + a[n / 2]) / 2.0
  }

  // ---------------------------------------------------------------------
  // Clusters

  predicate Catastrophic(cash: real) { cash < -10000.0 }
  predicate Struggling(cash: real) { -10000.0 <= cash < 0.0 }
  predicate Surviving(cash: real) { 0.0 <= cash < 50000.0 }
  predicate Thriving(cash: real) { cash >= 50000.0 }

  /** The number of scenarios whose final cash falls in `cluster`. */
  function ClusterCount(results: seq<ScenarioResult>, cluster: real -> bool): (c: nat)
    ensures c <= |results|
  {
    if results == [] then 0
    else ClusterCount(results[..|results| - 1], cluster) + (if cluster(results[|results| - 1].finalCash) then 1 else 0)
  }

  /** The four clusters split the scenarios: every scenario is in exactly one. */
  lemma {:induction false} ClustersPartition(results: seq<ScenarioResult>)
    ensures ClusterCount(results, Catastrophic) + ClusterCount(results, Struggling)
      + ClusterCount(results, Surviving) + ClusterCount(results, Thriving) == |results|
  {
    if results != [] {
      ClustersPartition(results[..|results| - 1]);
    }
  }

  /** The four cluster percentages add up to 100. */
  lemma ClusterSharesSum(results: seq<ScenarioResult>)
    requires |results| > 0
    ensures var n := |results| as real;
      ClusterCount(results, Catastrophic) as real / n * 100.0 + ClusterCount(results, Struggling) as real / n * 100.0
      + ClusterCount(results, Surviving) as real / n * 100.0 + ClusterCount(results, Thriving) as real / n * 100.0 == 100.0
  {
    ClustersPartition(results);
    FractionsSum(ClusterCount(results, Catastrophic) as real, ClusterCount(results, Struggling) as real,
      ClusterCount(results, Surviving) as real, ClusterCount(results, Thriving) as real, |results| as real);
  }

  lemma FractionsSum(a: real, b: real, c: real, d: real, n: real)
    requires n > 0.0 && a + b + c + d == n
    ensures a / n * 100.0 + b / n * 100.0 + c / n * 100.0 + d / n * 100.0 == 100.0
  {
    assert a / n + b / n + c / n + d / n == (a + b + c + d) / n;
  }

  // ---------------------------------------------------------------------
  // Stop-rule averages

  /** The mean of a non-empty sequence whose values all lie in [lo, hi] lies in [lo, hi]. */
  lemma MeanWithin(s: seq<real>, lo: real, hi: real)
    requires |s| > 0
    requires forall i :: 0 <= i < |s| ==> lo <= s[i] <= hi
    ensures lo <= Mean(s) <= hi
  {
    var n := |s| as real;
    SumBounded(s, hi);
    SumAtLeast(s, lo);
    assert Sum(s) / n <= (n * hi) / n;
    assert (n * lo) / n <= Sum(s) / n;
  }

  lemma MeanNonNegative(s: seq<real>)
    requires |s| > 0 && AllNonNegative(s)
    ensures Mean(s) >= 0.0
  {
    SumNonNegative(s);
    DivMonotone(0.0, Sum(s), |s| as real);
  }

  lemma {:induction false} SumAtLeast(s: seq<real>, bound: real)
    requires forall i :: 0 <= i < |s| ==> bound <= s[i]
    ensures |s| as real * bound <= Sum(s)
  {
    if s != [] {
      SumAtLeast(s[..|s| - 1], bound);
    }
  }

  function MonthsSurvivedOf(results: seq<ScenarioResult>): (r: seq<real>)
    ensures |r| == |results|
  {
    seq(|results|, i requires 0 <= i < |results| => results[i].monthsSurvived as real)
  }

  function BreachesOf(results: seq<ScenarioResult>): (r: seq<real>)
    ensures |r| == |results|
  {
    seq(|results|, i requires 0 <= i < |results| => results[i].liquidityBreaches as real)
  }

  function ViolationsOf(results: seq<ScenarioResult>): (r: seq<real>)
    ensures |r| == |results|
  {
    seq(|results|, i requires 0 <= i < |results| => results[i].concentrationViolations as real)
  }

  function AvgMonthlyOf(results: seq<ScenarioResult>): (r: seq<real>)
    ensures |r| == |results|
  {
    seq(|results|, i requires 0 <= i < |results| => results[i].avgMonthly)
  }

  function TotalRevenueOf(results: seq<ScenarioResult>): (r: seq<real>)
    ensures |r| == |results|
  {
    seq(|results|, i requires 0 <= i < |results| => results[i].totalRevenue)
  }

  /** How the report grades a mean count of months in violation. */
  datatype Assessment = Manageable | Warning | Critical

  function Assess(avg: real): Assessment
  {
    if avg > 9.0 then Critical else if avg > 6.0 then Warning else Manageable
  }

  function Severity(a: Assessment): nat
  {
    match a
    case Manageable => 0
    case Warning => 1
    case Critical => 2
  }

  /** More months in violation never earn a milder grade. */
  lemma AssessMonotone(x: real, y: real)
    requires x <= y
    ensures Severity(Assess(x)) <= Severity(Assess(y))
  {
  }

  // ---------------------------------------------------------------------
  // Stream contributions

  /** Every result lists the totals of the same `n` streams. */
  predicate Rectangular(results: seq<ScenarioResult>, n: nat)
  {
    forall i :: 0 <= i < |results| ==> |results[i].streamTotals| == n
  }

  /** The totals of stream `s` across the scenarios, in scenario order. */
  function Column(results: seq<ScenarioResult>, n: nat, s: nat): (c: seq<real>)
    requires Rectangular(results, n) && s < n
    ensures |c| == |results|
  {
    seq(|results|, i requires 0 <= i < |results| => results[i].streamTotals[s])
  }

  /** The loop that fills `stream_totals_agg`: one list per stream, each
      scenario's total appended to its stream's list. */
  method AggregateStreamTotals(results: seq<ScenarioResult>, n: nat) returns (agg: seq<seq<real>>)
    requires Rectangular(results, n)
    ensures |agg| == n
    ensures forall s :: 0 <= s < n ==> agg[s] == Column(results, n, s)
  {
    agg := seq(n, _ => []);
    var i := 0;
    while i < |results|
      invariant 0 <= i <= |results|
      invariant |agg| == n
      invariant forall s :: 0 <= s < n ==> agg[s] == Column(results[..i], n, s)
    {
      var s := 0;
      while s < n
        invariant 0 <= s <= n
        invariant |agg| == n
        invariant forall u :: 0 <= u < s ==> agg[u] == Column(results[..i + 1], n, u)
        invariant forall u :: s <= u < n ==> agg[u] == Column(results[..i], n, u)
      {
        assert Column(results[..i + 1], n, s) == Column(results[..i], n, s) + [results[i].streamTotals[s]];
        agg := agg[s := agg[s] + [results[i].streamTotals[s]]];
        s := s + 1;
      }
      i := i + 1;
    }
    assert results[..|results|] == results;
  }

  /** The mean total of each stream. */
  function StreamMeans(results: seq<ScenarioResult>, n: nat): (m: seq<real>)
    requires |results| > 0 && Rectangular(results, n)
    ensures |m| == n
  {
    seq(n, s requires 0 <= s < n => Mean(Column(results, n, s)))
  }

  /** Each stream's share of the summed means in percent, or 0 when that sum
      is not positive. */
  function Shares(means: seq<real>): (r: seq<real>)
    ensures |r| == |means|
  {
    var total := Sum(means);
    seq(|means|, s requires 0 <= s < |means| => if total > 0.0 then means[s] / total * 100.0 else 0.0)
  }

  /** With non-negative means every share lies in [0, 100]. */
  lemma SharesBounded(means: seq<real>)
    requires AllNonNegative(means)
    ensures forall s :: 0 <= s < |means| ==> 0.0 <= Shares(means)[s] <= 100.0
  {
    var total := Sum(means);
    forall s | 0 <= s < |means|
      ensures 0.0 <= Shares(means)[s] <= 100.0
    {
      if total > 0.0 {
        ElementAtMostSum(means, s);
        ShareAtMost100(means[s], total);
      }
    }
  }

  lemma ShareAtMost100(x: real, total: real)
    requires 0.0 <= x <= total && total > 0.0
    ensures 0.0 <= x / total * 100.0 <= 100.0
  {
    DivMonotone(x, total, total);
    DivOfScaled(1.0, total);
  }

  /** A non-negative sequence's sum is at least each of its elements. */
  lemma {:induction false} ElementAtMostSum(s: seq<real>, k: nat)
    requires AllNonNegative(s) && k < |s|
    ensures s[k] <= Sum(s)
  {
    var s' := s[..|s| - 1];
    assert AllNonNegative(s');
    SumNonNegative(s');
    if k < |s| - 1 {
      ElementAtMostSum(s', k);
    }
  }

  function Scale(s: seq<real>, c: real): (r: seq<real>)
    ensures |r| == |s|
  {
    seq(|s|, i requires 0 <= i < |s| => s[i] * c)
  }

  lemma {:induction false} SumScale(s: seq<real>, c: real)
    ensures Sum(Scale(s, c)) == Sum(s) * c
  {
    if s != [] {
      SumScale(s[..|s| - 1], c);
      SumScaleLast(s, c);
      Distribute(Sum(s[..|s| - 1]), s[|s| - 1], c);
    }
  }

  lemma {:induction false} SumScaleLast(s: seq<real>, c: real)
    requires s != []
    ensures Sum(Scale(s, c)) == Sum(Scale(s[..|s| - 1], c)) + s[|s| - 1] * c
    ensures Sum(s) == Sum(s[..|s| - 1]) + s[|s| - 1]
  {
    var s' := s[..|s| - 1];
    assert forall i :: 0 <= i < |s'| ==> Scale(s, c)[..|s| - 1][i] == Scale(s', c)[i];
    assert Scale(s, c)[..|s| - 1] == Scale(s', c);
  }

  lemma {:induction false} Distribute(a: real, b: real, c: real)
    ensures (a + b) * c == a * c + b * c
  {
  }

  /** When the means add up to something positive, the shares add up to 100. */
  lemma SharesSum(means: seq<real>)
    requires Sum(means) > 0.0
    ensures Sum(Shares(means)) == 100.0
  {
    var total := Sum(means);
    var c := 100.0 / total;
    forall s | 0 <= s < |means|
      ensures Shares(means)[s] == Scale(means, c)[s]
    {
      assert means[s] / total * 100.0 == means[s] * (100.0 / total);
    }
    assert Shares(means) == Scale(means, c);
    SumScale(means, c);
  }

  /** One row of the contribution table. */
  datatype Contribution = Contribution(stream: nat, avg: real, median: real, pct: real)

  function NegAvg(c: Contribution): real
  {
    -c.avg
  }

  /** The rows in stream order, before sorting. */
  function ContributionRows(results: seq<ScenarioResult>, n: nat): (rows: seq<Contribution>)
    requires |results| > 0 && Rectangular(results, n)
    ensures |rows| == n
  {
    var means := StreamMeans(results, n);
    var shares := Shares(means);
    seq(n, s requires 0 <= s < n => Contribution(s, means[s], Median(Column(results, n, s)), shares[s]))
  }

  /** The rows by decreasing mean (`reverse=True` keeps ties in stream order). */
  function Contributions(results: seq<ScenarioResult>, n: nat): (rows: seq<Contribution>)
    requires |results| > 0 && Rectangular(results, n)
    ensures |rows| == n
    ensures multiset(rows) == multiset(ContributionRows(results, n))
    ensures forall i, j :: 0 <= i < j < |rows| ==> rows[i].avg >= rows[j].avg
    ensures forall i, j :: 0 <= i < j < |rows| && rows[i].avg == rows[j].avg ==> rows[i].stream < rows[j].stream
  {
    var rows := Sort(ContributionRows(results, n), NegAvg);
    assert SortedBy(rows, NegAvg);
    assert forall i, j :: 0 <= i < j < |rows| ==> NegAvg(rows[i]) <= NegAvg(rows[j]);
    TiesInStreamOrder(ContributionRows(results, n));
    rows
  }

  function StreamRank(c: Contribution): int
  {
    c.stream
  }

  /** Sorting rows listed in stream order keeps rows with equal means in
      stream order. */
  lemma TiesInStreamOrder(unsorted: seq<Contribution>)
    requires forall s :: 0 <= s < |unsorted| ==> unsorted[s].stream == s
    ensures forall i, j :: 0 <= i < j < |Sort(unsorted, NegAvg)| && Sort(unsorted, NegAvg)[i].avg == Sort(unsorted, NegAvg)[j].avg ==>
      Sort(unsorted, NegAvg)[i].stream < Sort(unsorted, NegAvg)[j].stream
  {
    SortKeepsTieOrder(unsorted, NegAvg, StreamRank);
    var r := Sort(unsorted, NegAvg);
    assert forall i :: 0 <= i < |r| ==> NegAvg(r[i]) == -r[i].avg && StreamRank(r[i]) == r[i].stream;
  }

  // ---------------------------------------------------------------------
  // The report's figures

  datatype Figures = Figures(
    survivors: nat,
    survivalRate: real,
    avgMonthsSurvived: real,
    medianMonthlyRevenue: real,
    meanTotalRevenue: real,
    cash: CashPercentiles,
    avgBreaches: real,
    avgViolations: real,
    breachAssessment: Assessment,
    violationAssessment: Assessment,
    contributions: seq<Contribution>,
    catastrophic: nat,
    struggling: nat,
    surviving: nat,
    thriving: nat,
    failureProbability: real)

  function ReportFigures(results: seq<ScenarioResult>, n: nat): Figures
    requires |results| > 0 && Rectangular(results, n)
  {
    var avgBreaches := Mean(BreachesOf(results));
    var avgViolations := Mean(ViolationsOf(results));
    var rate := SurvivalRate(results);
    Figures(
      Survivors(results),
      rate,
      Mean(MonthsSurvivedOf(results)),
      Median(AvgMonthlyOf(results)),
      Mean(TotalRevenueOf(results)),
      CashPercentilesOf(results),
      avgBreaches,
      avgViolations,
      Assess(avgBreaches),
      Assess(avgViolations),
      Contributions(results, n),
      ClusterCount(results, Catastrophic),
      ClusterCount(results, Struggling),
      ClusterCount(results, Surviving),
      ClusterCount(results, Thriving),
      100.0 - rate)
  }

  /** For well-formed results over `months` months, the mean months survived
      and the mean months in breach of each stop rule lie in [0, months]. */
  lemma AveragesWithinHorizon(results: seq<ScenarioResult>, n: nat, months: nat)
    requires |results| > 0
    requires forall i :: 0 <= i < |results| ==> WellFormed(results[i], i, n, months)
    ensures 0.0 <= Mean(MonthsSurvivedOf(results)) <= months as real
    ensures 0.0 <= Mean(BreachesOf(results)) <= months as real
    ensures 0.0 <= Mean(ViolationsOf(results)) <= months as real
  {
    MeanWithin(MonthsSurvivedOf(results), 0.0, months as real);
    MeanWithin(BreachesOf(results), 0.0, months as real);
    MeanWithin(ViolationsOf(results), 0.0, months as real);
  }

  /** For well-formed results every stream's mean total is non-negative, so
      every contribution share lies in [0, 100]. */
  lemma ContributionSharesBounded(results: seq<ScenarioResult>, n: nat, months: nat)
    requires |results| > 0
    requires forall i :: 0 <= i < |results| ==> WellFormed(results[i], i, n, months)
    ensures Rectangular(results, n)
    ensures forall r :: r in Contributions(results, n) ==> 0.0 <= r.pct <= 100.0
  {
    assert Rectangular(results, n);
    var means := StreamMeans(results, n);
    forall s | 0 <= s < n
      ensures means[s] >= 0.0
    {
      var c := Column(results, n, s);
      assert forall i :: 0 <= i < |c| ==> c[i] == results[i].streamTotals[s];
      MeanNonNegative(c);
    }
    SharesBounded(means);
    var rows := ContributionRows(results, n);
    forall r | r in Contributions(results, n)
      ensures 0.0 <= r.pct <= 100.0
    {
      assert r in multiset(Contributions(results, n));
      var s :| 0 <= s < |rows| && rows[s] == r;
    }
  }
}
