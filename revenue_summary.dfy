/** The consolidated revenue summary (`build_summary`): the total, the
    revenue of each stream, each stream's share of the total, and the
    liquidity estimate, with streams listed highest value first. */
module RevenueSummary {
  import opened Sums
  import opened Rounding
  import opened StableSort
  import opened RevenueParse

  /** A stream name with its value, one entry of an insertion-ordered dict. */
  type Pair = (string, real)

  datatype Summary = Summary(totalRevenue: real, byStream: seq<Pair>, concentration: seq<Pair>, liquidityEstimate: real)

  function SourceOf(r: Record): string { r.source }
  function AmountOf(r: Record): real { r.amount }

  /** `sum(r["amount"] for r in revenues)`. */
  function Total(rs: seq<Record>): real
  {
    SumBy(rs, AmountOf)
  }

  /** The revenue of stream `k`: the amounts of its records, summed. */
  function StreamTotal(rs: seq<Record>, k: string): real
  {
    SumWhere(rs, SourceOf, k, AmountOf)
  }

  /** The sources in order of first appearance: the key order of
      `by_stream`. */
  function Streams(rs: seq<Record>): seq<string>
  {
    if rs == [] then []
    else
      var ks := Streams(rs[..|rs| - 1]);
      if rs[|rs| - 1].source in ks then ks else ks + [rs[|rs| - 1].source]
  }

  /** `by_stream` as the grouping loop leaves it. */
  function Grouped(rs: seq<Record>): (g: seq<Pair>)
    ensures |g| == |Streams(rs)|
  {
    var ks := Streams(rs);
    seq(|ks|, i requires 0 <= i < |ks| => (ks[i], StreamTotal(rs, ks[i])))
  }

  /** `concentration` before sorting: each stream's share of the total,
      rounded to 4 places, and nothing when the total is not positive. */
  function Concentration(rs: seq<Record>): seq<Pair>
  {
    var total := Total(rs);
    var g := Grouped(rs);
    if total > 0.0 then seq(|g|, i requires 0 <= i < |g| => (g[i].0, Round(g[i].1 / total, 4))) else []
  }

  /** The sort key of `sorted(..., key=lambda x: x[1], reverse=True)`: a
      stable sort on the negated value keeps equal values in their order,
      as Python's reversed sort does. */
  function NegValue(p: Pair): real { -p.1 }

  function RoundValues(ps: seq<Pair>, d: nat): (r: seq<Pair>)
    ensures |r| == |ps|
  {
    seq(|ps|, i requires 0 <= i < |ps| => (ps[i].0, Round(ps[i].1, d)))
  }

  /** `build_summary(revenues)`. */
  function Summarize(rs: seq<Record>): Summary
  {
    var total := Total(rs);
    Summary(Round(total, 2), RoundValues(Sort(Grouped(rs), NegValue), 2), Sort(Concentration(rs), NegValue), Round(total, 2))
  }

  method BuildSummary(rs: seq<Record>) returns (s: Summary)
    ensures s == Summarize(rs)
  {
    var total := Total(rs);
    var order: seq<string> := [];
    var totals: map<string, real> := map[];
    var i := 0;
    while i < |rs|
      invariant 0 <= i <= |rs|
      invariant order == Streams(rs[..i])
      invariant forall k :: k in totals <==> k in order
      invariant forall k :: k in totals ==> totals[k] == StreamTotal(rs[..i], k)
    {
      var r := rs[i];
      assert rs[..i + 1] == rs[..i] + [r];
      assert rs[..i + 1][..i] == rs[..i];
      forall k
        ensures StreamTotal(rs[..i + 1], k) == StreamTotal(rs[..i], k) + (if r.source == k then r.amount else 0.0)
      {
        SumWhereAppend(rs[..i], r, SourceOf, k, AmountOf);
      }
      if r.source in totals {
        totals := totals[r.source := totals[r.source] + r.amount];
      } else {
        StreamTotalOfAbsent(rs[..i], r.source);
        order := order + [r.source];
        totals := totals[r.source := 0.0 + r.amount];
      }
      i := i + 1;
    }
    assert rs[..i] == rs;
    var byStream := seq(|order|, j requires 0 <= j < |order| => (order[j], totals[order[j]]));
    assert byStream == Grouped(rs);
    var concentration: seq<Pair> := [];
    if total > 0.0 {
      var j := 0;
      while j < |byStream|
        invariant 0 <= j <= |byStream|
        invariant |concentration| == j
        invariant forall m :: 0 <= m < j ==> concentration[m] == (byStream[m].0, Round(byStream[m].1 / total, 4))
      {
        concentration := concentration + [(byStream[j].0, Round(byStream[j].1 / total, 4))];
        j := j + 1;
      }
    }
    assert concentration == Concentration(rs);
    var liquidity := total;
    s := Summary(Round(total, 2), RoundValues(Sort(byStream, NegValue), 2), Sort(concentration, NegValue), Round(liquidity, 2));
  }

  /** A source that no record carries has nothing to sum. */
  lemma {:induction false} StreamTotalOfAbsent(rs: seq<Record>, k: string)
    requires k !in Streams(rs)
    ensures StreamTotal(rs, k) == 0.0
  {
    if rs != [] {
      StreamTotalOfAbsent(rs[..|rs| - 1], k);
    }
  }

  /** The streams are distinct and are exactly the sources of the records. */
  lemma {:induction false} StreamsExactly(rs: seq<Record>)
    ensures Distinct(Streams(rs))
    ensures forall k :: k in Streams(rs) <==> exists i :: 0 <= i < |rs| && rs[i].source == k
  {
    if rs != [] {
      var rs' := rs[..|rs| - 1];
      StreamsExactly(rs');
      assert forall i :: 0 <= i < |rs'| ==> rs'[i] == rs[i];
      forall k | k in Streams(rs)
        ensures exists i :: 0 <= i < |rs| && rs[i].source == k
      {
        if k !in Streams(rs') {
          assert rs[|rs| - 1].source == k;
        }
      }
    }
  }

  /** The per-stream totals, in the order of `ks`. */
  function Totals(ks: seq<string>, rs: seq<Record>): (t: seq<real>)
    ensures |t| == |ks|
  {
    seq(|ks|, i requires 0 <= i < |ks| => StreamTotal(rs, ks[i]))
  }

  lemma {:induction false} SumOfTotals(ks: seq<string>, rs: seq<Record>)
    ensures Sum(Totals(ks, rs)) == SumPerKey(ks, rs, SourceOf, AmountOf)
  {
    if ks != [] {
      var ks' := ks[..|ks| - 1];
      SumOfTotals(ks', rs);
      assert Totals(ks, rs)[..|ks| - 1] == Totals(ks', rs);
    }
  }

  /** Grouping loses and duplicates nothing: the stream revenues add up to
      the total revenue. */
  lemma StreamsSumToTotal(rs: seq<Record>)
    ensures Sum(Totals(Streams(rs), rs)) == Total(rs)
  {
    StreamsExactly(rs);
    forall i | 0 <= i < |rs|
      ensures SourceOf(rs[i]) in Streams(rs)
    {
    }
    SumOfTotals(Streams(rs), rs);
    SumPerKeyIsTotal(Streams(rs), rs, SourceOf, AmountOf);
  }

  /** In a list sorted by `NegValue`, values do not increase, and rounding
      them keeps it so. */
  lemma RoundValuesDescend(ps: seq<Pair>, d: nat)
    requires SortedBy(ps, NegValue)
    ensures forall i, j :: 0 <= i < j < |ps| ==> RoundValues(ps, d)[i].1 >= RoundValues(ps, d)[j].1
  {
    forall i, j | 0 <= i < j < |ps|
      ensures RoundValues(ps, d)[i].1 >= RoundValues(ps, d)[j].1
    {
      assert NegValue(ps[i]) <= NegValue(ps[j]);
      RoundMonotone(ps[j].1, ps[i].1, d);
    }
  }

  /** An entry is in `g` exactly when it is in `g` sorted. */
  lemma SortedMembers(g: seq<Pair>, p: Pair)
    ensures p in Sort(g, NegValue) <==> p in g
  {
    assert p in Sort(g, NegValue) <==> p in multiset(Sort(g, NegValue));
  }

  /** `by_stream` lists each source of the records once, with its revenue
      rounded to 2 places, highest value first; the liquidity estimate is
      the total revenue. */
  lemma ByStreamExactly(rs: seq<Record>)
    ensures |Summarize(rs).byStream| == |Streams(rs)|
    ensures forall p :: p in Summarize(rs).byStream <==>
      (exists i :: 0 <= i < |rs| && rs[i].source == p.0) && p.1 == Round(StreamTotal(rs, p.0), 2)
    ensures forall i, j :: 0 <= i < j < |Summarize(rs).byStream| ==>
      Summarize(rs).byStream[i].1 >= Summarize(rs).byStream[j].1
    ensures forall i, j ::
      (0 <= i < j < |Summarize(rs).byStream| &&
       StreamTotal(rs, Summarize(rs).byStream[i].0) == StreamTotal(rs, Summarize(rs).byStream[j].0)) ==>
      Position(Streams(rs), Summarize(rs).byStream[i].0) < Position(Streams(rs), Summarize(rs).byStream[j].0)
    ensures Summarize(rs).liquidityEstimate == Summarize(rs).totalRevenue == Round(Total(rs), 2)
  {
    StreamsExactly(rs);
    assert Summarize(rs).byStream == RoundValues(Sort(Grouped(rs), NegValue), 2);
    ByStreamTieOrder(rs);
    forall p
      ensures p in Summarize(rs).byStream <==> p.0 in Streams(rs) && p.1 == Round(StreamTotal(rs, p.0), 2)
    {
      ByStreamMember(rs, p);
    }
    RoundValuesDescend(Sort(Grouped(rs), NegValue), 2);
  }

  /** Streams with equal revenue keep their order of first appearance: the
      sort compares the unrounded revenues, and rounding keeps the names. */
  lemma ByStreamTieOrder(rs: seq<Record>)
    ensures var b := RoundValues(Sort(Grouped(rs), NegValue), 2);
      forall i, j :: 0 <= i < j < |b| && StreamTotal(rs, b[i].0) == StreamTotal(rs, b[j].0) ==>
        Position(Streams(rs), b[i].0) < Position(Streams(rs), b[j].0)
  {
    var sorted := Sort(Grouped(rs), NegValue);
    StreamsExactly(rs);
    SortedPairsTieOrder(Grouped(rs), Streams(rs));
    forall i | 0 <= i < |sorted|
      ensures sorted[i].1 == StreamTotal(rs, sorted[i].0)
    {
      SortedMembers(Grouped(rs), sorted[i]);
      GroupedMember(rs, sorted[i]);
    }
  }

  /** The place of `k` in `ks`, or `|ks|` when it is not there. On
      `Streams(rs)` it is the order in which the streams first appear. */
  function Position(ks: seq<string>, k: string): (p: nat)
    ensures p <= |ks|
    ensures p < |ks| ==> ks[p] == k
  {
    if ks == [] then 0 else if ks[0] == k then 0 else 1 + Position(ks[1..], k)
  }

  lemma {:induction false} PositionOf(ks: seq<string>, i: nat)
    requires Distinct(ks) && i < |ks|
    ensures Position(ks, ks[i]) == i
  {
    if i > 0 {
      assert ks[0] != ks[i];
      assert ks[1..][i - 1] == ks[i];
      PositionOf(ks[1..], i - 1);
    }
  }

  /** Sorting entries named by distinct `ks`, in that order, keeps entries
      with equal values in the order of `ks`. */
  lemma SortedPairsTieOrder(ps: seq<Pair>, ks: seq<string>)
    requires Distinct(ks) && |ps| == |ks|
    requires forall i :: 0 <= i < |ps| ==> ps[i].0 == ks[i]
    ensures forall i, j :: 0 <= i < j < |Sort(ps, NegValue)| && Sort(ps, NegValue)[i].1 == Sort(ps, NegValue)[j].1 ==>
      Position(ks, Sort(ps, NegValue)[i].0) < Position(ks, Sort(ps, NegValue)[j].0)
  {
    var rank := (p: Pair) => Position(ks, p.0) as int;
    forall i | 0 <= i < |ps|
      ensures rank(ps[i]) == i
    {
      PositionOf(ks, i);
    }
    SortKeepsTieOrder(ps, NegValue, rank);
    var r := Sort(ps, NegValue);
    assert forall i :: 0 <= i < |r| ==> NegValue(r[i]) == -r[i].1 && rank(r[i]) == Position(ks, r[i].0);
  }

  lemma ByStreamMember(rs: seq<Record>, p: Pair)
    ensures p in RoundValues(Sort(Grouped(rs), NegValue), 2) <==> p.0 in Streams(rs) && p.1 == Round(StreamTotal(rs, p.0), 2)
  {
    RoundedMember(Grouped(rs), p, 2);
    if p in RoundValues(Sort(Grouped(rs), NegValue), 2) {
      var q :| q in Grouped(rs) && p == (q.0, Round(q.1, 2));
      GroupedMember(rs, q);
    } else {
      GroupedMember(rs, (p.0, StreamTotal(rs, p.0)));
    }
  }

  /** The entries of `by_stream` before rounding: one per stream, with its
      revenue. */
  lemma GroupedMember(rs: seq<Record>, q: Pair)
    ensures q in Grouped(rs) <==> q.0 in Streams(rs) && q.1 == StreamTotal(rs, q.0)
  {
    if q.0 in Streams(rs) && q.1 == StreamTotal(rs, q.0) {
      var j :| 0 <= j < |Streams(rs)| && Streams(rs)[j] == q.0;
      assert Grouped(rs)[j] == q;
    }
  }

  /** Sorting and then rounding the values keeps exactly the entries of `g`,
      each with its value rounded. */
  lemma RoundedMember(g: seq<Pair>, p: Pair, d: nat)
    ensures p in RoundValues(Sort(g, NegValue), d) <==> exists q :: q in g && p == (q.0, Round(q.1, d))
  {
    var sorted := Sort(g, NegValue);
    if p in RoundValues(sorted, d) {
      var i :| 0 <= i < |sorted| && RoundValues(sorted, d)[i] == p;
      SortedMembers(g, sorted[i]);
    }
    if exists q :: q in g && p == (q.0, Round(q.1, d)) {
      var q :| q in g && p == (q.0, Round(q.1, d));
      SortedMembers(g, q);
      var i :| 0 <= i < |sorted| && sorted[i] == q;
      assert RoundValues(sorted, d)[i] == p;
    }
  }

  /** `concentration` is empty unless the total is positive; then it lists
      each source once with its revenue divided by the total, rounded to 4
      places, highest share first. */
  lemma ConcentrationExactly(rs: seq<Record>)
    ensures Summarize(rs).concentration == [] <==> !(Total(rs) > 0.0)
    ensures Total(rs) > 0.0 ==> forall p :: p in Summarize(rs).concentration <==>
      (exists i :: 0 <= i < |rs| && rs[i].source == p.0) && p.1 == Round(StreamTotal(rs, p.0) / Total(rs), 4)
    ensures Total(rs) > 0.0 ==> |Summarize(rs).concentration| == |Streams(rs)|
    ensures forall i, j :: 0 <= i < j < |Summarize(rs).concentration| ==>
      Summarize(rs).concentration[i].1 >= Summarize(rs).concentration[j].1
    ensures forall i, j ::
      (0 <= i < j < |Summarize(rs).concentration| &&
       Summarize(rs).concentration[i].1 == Summarize(rs).concentration[j].1) ==>
      Position(Streams(rs), Summarize(rs).concentration[i].0) < Position(Streams(rs), Summarize(rs).concentration[j].0)
  {
    var total := Total(rs);
    var c := Concentration(rs);
    var sorted := Sort(c, NegValue);
    StreamsExactly(rs);
    ConcentrationTieOrder(rs);
    if total > 0.0 {
      assert rs != [];
      assert rs[0].source in Streams(rs);
      assert |c| > 0;
      forall p
        ensures p in sorted <==> (exists i :: 0 <= i < |rs| && rs[i].source == p.0) && p.1 == Round(StreamTotal(rs, p.0) / total, 4)
      {
        ConcentrationMember(rs, p);
      }
    }
    forall i, j | 0 <= i < j < |sorted|
      ensures sorted[i].1 >= sorted[j].1
    {
      assert NegValue(sorted[i]) <= NegValue(sorted[j]);
    }
  }

  /** An entry of the sorted shares is a stream with its rounded share. */
  lemma ConcentrationMember(rs: seq<Record>, p: Pair)
    requires Total(rs) > 0.0
    ensures p in Sort(Concentration(rs), NegValue) <==>
      p.0 in Streams(rs) && p.1 == Round(StreamTotal(rs, p.0) / Total(rs), 4)
  {
    var c := Concentration(rs);
    SortedMembers(c, p);
    if p in c {
      var j :| 0 <= j < |c| && c[j] == p;
      ConcentrationAt(rs, j);
    }
    if p.0 in Streams(rs) && p.1 == Round(StreamTotal(rs, p.0) / Total(rs), 4) {
      var j :| 0 <= j < |Streams(rs)| && Streams(rs)[j] == p.0;
      ConcentrationAt(rs, j);
    }
  }

  /** With a positive total, share `j` belongs to the `j`th stream. */
  lemma ConcentrationAt(rs: seq<Record>, j: nat)
    requires Total(rs) > 0.0 && j < |Streams(rs)|
    ensures |Concentration(rs)| == |Streams(rs)|
    ensures Concentration(rs)[j] == (Streams(rs)[j], Round(StreamTotal(rs, Streams(rs)[j]) / Total(rs), 4))
  {
    assert Grouped(rs)[j] == (Streams(rs)[j], StreamTotal(rs, Streams(rs)[j]));
  }

  /** The shares before sorting name the streams in order of first
      appearance; sorting keeps equal shares in that order. */
  lemma ConcentrationTieOrder(rs: seq<Record>)
    ensures Total(rs) > 0.0 ==> |Sort(Concentration(rs), NegValue)| == |Streams(rs)|
    ensures var sorted := Sort(Concentration(rs), NegValue);
      forall i, j :: (0 <= i < j < |sorted| && sorted[i].1 == sorted[j].1) ==>
        Position(Streams(rs), sorted[i].0) < Position(Streams(rs), sorted[j].0)
  {
    var c := Concentration(rs);
    if Total(rs) > 0.0 {
      StreamsExactly(rs);
      assert forall i :: 0 <= i < |c| ==> c[i].0 == Grouped(rs)[i].0 == Streams(rs)[i];
      SortedPairsTieOrder(c, Streams(rs));
    }
  }

  /** When no amount is negative and the total is positive, every share lies
      between 0 and 1. */
  lemma SharesInUnitRange(rs: seq<Record>)
    requires forall i :: 0 <= i < |rs| ==> rs[i].amount >= 0.0
    requires Total(rs) > 0.0
    ensures forall p :: p in Summarize(rs).concentration ==> 0.0 <= p.1 <= 1.0
  {
    var total := Total(rs);
    ConcentrationExactly(rs);
    RoundExact(1.0, 4, 10000);
    forall p | p in Summarize(rs).concentration
      ensures 0.0 <= p.1 <= 1.0
    {
      SumWhereBounded(rs, SourceOf, p.0, AmountOf);
      var share := StreamTotal(rs, p.0) / total;
      ShareInUnitRange(StreamTotal(rs, p.0), total);
      RoundNonNegative(share, 4);
      RoundMonotone(share, 1.0, 4);
    }
  }

  lemma ShareInUnitRange(x: real, total: real)
    requires 0.0 <= x <= total && total > 0.0
    ensures 0.0 <= x / total <= 1.0
  {
    DivMonotone(x, total, total);
    DivMonotone(0.0, x, total);
  }
}
