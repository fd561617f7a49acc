/** The demo's 39-document dependency graph (`build_dependency_graph`): one
    entry per document `DOC-001` … `DOC-039`, in that order, each with its
    layer, the documents it depends on and its status. */
module DocumentGraph {

  datatype Doc = Doc(layer: nat, dependsOn: seq<string>, status: string)

  const DocCount: nat := 39

  function Min(a: int, b: int): int { if a <= b then a else b }
  function Max(a: int, b: int): int { if a >= b then a else b }

  function Digit(d: nat): char
    requires d < 10
  {
    (48 + d) as char
  }

  /** The value of a decimal digit character (0 for any other character). */
  function DigitValue(c: char): nat
  {
    if '0' <= c <= '9' then (c as int - 48) as nat else 0
  }

  /** `f"{n:03d}"` for a number below 1000: three digits, zero-padded. */
  function Pad3(n: nat): (s: string)
    requires n < 1000
    ensures |s| == 3
  {
    [Digit(n / 100), Digit(n / 10 % 10), Digit(n % 10)]
  }

  /** The document id `DOC-nnn`. */
  function DocId(n: nat): string
    requires n < 1000
  {
    "DOC-" + Pad3(n)
  }

  /** The number an id of the form `DOC-nnn` carries. */
  function DocNumber(id: string): nat
  {
    if |id| == 7 then 100 * DigitValue(id[4]) + 10 * DigitValue(id[5]) + DigitValue(id[6]) else 0
  }

  /** Reading the number back from an id gives the number it was made from,
      so different numbers give different ids. */
  lemma DocNumberOfId(n: nat)
    requires n < 1000
    ensures DocNumber(DocId(n)) == n
  {
    var id := DocId(n);
    assert id[4] == Digit(n / 100) && id[5] == Digit(n / 10 % 10) && id[6] == Digit(n % 10);
  }

  lemma DocIdInjective(m: nat, n: nat)
    requires m < 1000 && n < 1000 && DocId(m) == DocId(n)
    ensures m == n
  {
    DocNumberOfId(m);
    DocNumberOfId(n);
  }

  /** The layer of document `i`. */
  function Layer(i: nat): nat
  {
    if i <= 6 then 0 else if i <= 9 then 1 else if i <= 23 then 2 else 3
  }

  /** The ids `DOC-max(1, i - j)` for `j` in `1 .. min(4, i) - 1`. */
  function Dependencies(i: nat): (deps: seq<string>)
    requires 1 <= i < 1000
    ensures |deps| == Min(4, i) - 1
  {
    seq(Min(4, i) - 1, k requires 0 <= k < Min(4, i) - 1 => DocId(Max(1, i - (k + 1))))
  }

  function DocOf(i: nat): Doc
    requires 1 <= i < 1000
  {
    Doc(Layer(i), Dependencies(i), "CANONICAL")
  }

  /** The graph: entry `k` is document `k + 1`. */
  function BuildDependencyGraph(): (docs: seq<(string, Doc)>)
    ensures |docs| == DocCount
  {
    seq(DocCount, k requires 0 <= k < DocCount => (DocId(k + 1), DocOf(k + 1)))
  }

  /** The keys are exactly `DOC-001` … `DOC-039`, each once; every document
      is `CANONICAL` and in one of the layers 0 to 3. */
  lemma GraphKeys()
    ensures forall n :: 1 <= n <= DocCount ==> BuildDependencyGraph()[n - 1].0 == DocId(n)
    ensures forall k, k' :: 0 <= k < k' < DocCount ==> BuildDependencyGraph()[k].0 != BuildDependencyGraph()[k'].0
    ensures forall k :: 0 <= k < DocCount ==>
      BuildDependencyGraph()[k].1.status == "CANONICAL" && BuildDependencyGraph()[k].1.layer in {0, 1, 2, 3}
  {
    var docs := BuildDependencyGraph();
    forall k, k' | 0 <= k < k' < DocCount
      ensures docs[k].0 != docs[k'].0
    {
      if docs[k].0 == docs[k'].0 {
        DocIdInjective(k + 1, k' + 1);
      }
    }
  }

  /** Document 1 depends on nothing; every other document depends on one to
      three documents, each with a smaller number and at most three below. */
  lemma DependenciesBelow(i: nat)
    requires 1 <= i <= DocCount
    ensures |Dependencies(i)| == Min(i - 1, 3)
    ensures forall d :: d in Dependencies(i) ==> exists n :: Max(1, i - 3) <= n < i && d == DocId(n)
  {
    forall d | d in Dependencies(i)
      ensures exists n :: Max(1, i - 3) <= n < i && d == DocId(n)
    {
      var k :| 0 <= k < |Dependencies(i)| && Dependencies(i)[k] == d;
      assert Max(1, i - (k + 1)) == i - (k + 1);
      assert d == DocId(i - (k + 1));
    }
  }

  /** A dependency always names an earlier entry of the graph: every
      dependency exists, and no document depends on itself. */
  lemma DependencyIsEarlier(p: nat, d: string)
    requires p < DocCount && d in BuildDependencyGraph()[p].1.dependsOn
    ensures exists q :: 0 <= q < p && BuildDependencyGraph()[q].0 == d
  {
    DependenciesBelow(p + 1);
    var n :| Max(1, p + 1 - 3) <= n < p + 1 && d == DocId(n);
    assert BuildDependencyGraph()[n - 1].0 == d;
  }

  /** A walk along dependencies, as positions in the graph. */
  predicate Chain(docs: seq<(string, Doc)>, c: seq<nat>)
  {
    && (forall i :: 0 <= i < |c| ==> c[i] < |docs|)
    && (forall i :: 0 <= i < |c| - 1 ==> docs[c[i + 1]].0 in docs[c[i]].1.dependsOn)
  }

  /** One step along a dependency goes to a strictly earlier entry. */
  lemma StepIsEarlier(a: nat, b: nat)
    requires a < DocCount && b < DocCount
    requires BuildDependencyGraph()[b].0 in BuildDependencyGraph()[a].1.dependsOn
    ensures b < a
  {
    var docs := BuildDependencyGraph();
    DependencyIsEarlier(a, docs[b].0);
    var q :| 0 <= q < a && docs[q].0 == docs[b].0;
    assert docs[q].0 == DocId(q + 1) && docs[b].0 == DocId(b + 1);
    DocIdInjective(q + 1, b + 1);
  }

  /** Every walk along dependencies ends at an entry strictly earlier than
      where it started, so the graph has no cycle. */
  lemma {:induction false} Acyclic(c: seq<nat>)
    requires |c| >= 2 && Chain(BuildDependencyGraph(), c)
    ensures c[|c| - 1] < c[0]
  {
    StepIsEarlier(c[|c| - 2], c[|c| - 1]);
    if |c| > 2 {
      var c' := c[..|c| - 1];
      assert Chain(BuildDependencyGraph(), c') by {
        assert forall i :: 0 <= i < |c'| ==> c'[i] == c[i];
      }
      Acyclic(c');
    }
  }

  /** How many entries of `docs` are in layer `l`. */
  function CountLayer(docs: seq<(string, Doc)>, l: nat): (n: nat)
    ensures n <= |docs|
  {
    if docs == [] then 0
    else CountLayer(docs[..|docs| - 1], l) + (if docs[|docs| - 1].1.layer == l then 1 else 0)
  }

  function Clamp(x: int, hi: nat): nat
  {
    if x < 0 then 0 else if x > hi then hi else x
  }

  /** How many of documents 1 … n are in layer `l`. */
  function LayerSize(n: nat, l: nat): nat
  {
    if l == 0 then Clamp(n, 6)
    else if l == 1 then Clamp(n - 6, 3)
    else if l == 2 then Clamp(n - 9, 14)
    else if l == 3 then Clamp(n - 23, 16)
    else 0
  }

  lemma {:induction false} CountLayerPrefix(n: nat, l: nat)
    requires n <= DocCount
    ensures CountLayer(BuildDependencyGraph()[..n], l) == LayerSize(n, l)
  {
    if n > 0 {
      var docs := BuildDependencyGraph();
      assert docs[..n][..n - 1] == docs[..n - 1];
      CountLayerPrefix(n - 1, l);
    }
  }

  /** The four layers hold 6, 3, 14 and 16 documents. */
  lemma LayerCounts()
    ensures CountLayer(BuildDependencyGraph(), 0) == 6
    ensures CountLayer(BuildDependencyGraph(), 1) == 3
    ensures CountLayer(BuildDependencyGraph(), 2) == 14
    ensures CountLayer(BuildDependencyGraph(), 3) == 16
  {
    var docs := BuildDependencyGraph();
    assert docs[..DocCount] == docs;
    CountLayerPrefix(DocCount, 0);
    CountLayerPrefix(DocCount, 1);
    CountLayerPrefix(DocCount, 2);
    CountLayerPrefix(DocCount, 3);
  }
}
