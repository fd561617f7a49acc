/** The vendor dependency graph of `run_dependency_graph`: the directed
    weighted graph built from the node and edge tables, its weighted degrees,
    and the composite single-point-of-failure (SPOF) score of every vendor.

    The graph follows the semantics of a `networkx.DiGraph`: adding a node
    that is already there changes nothing, adding an edge adds its missing
    endpoints (source first), and adding an edge between a pair that already
    has one overwrites its weight in place. Nodes and edges are kept in the
    order they were first added, which is the order the graph lists them in. */
module DependencyGraph {
  import opened Wrappers
  import opened Sums
  import opened Rounding

  /** The two attributes of a node-table entry the scorer reads (its `type` is
      only descriptive). */
  datatype NodeInfo = NodeInfo(criticality: string, alternatives: seq<string>)

  datatype Edge = Edge(src: string, dst: string, weight: real)

  datatype Graph = Graph(nodes: seq<string>, edges: seq<Edge>)

  /** The keys of a dictionary given as its entries in order. */
  function Keys<V>(table: seq<(string, V)>): (ks: seq<string>)
    ensures |ks| == |table|
  {
    seq(|table|, i requires 0 <= i < |table| => table[i].0)
  }

  /** The dictionary lookup `table[key]`: the value of the first entry with
      that key, or nothing when there is none. */
  function Lookup<V>(table: seq<(string, V)>, key: string): Option<V>
  {
    if table == [] then None
    else if table[0].0 == key then Some(table[0].1)
    else Lookup(table[1..], key)
  }

  /** A lookup succeeds exactly when some entry has the key, and then returns
      that entry's value. */
  lemma {:induction false} LookupFinds<V>(table: seq<(string, V)>, key: string)
    ensures Lookup(table, key).Some? <==> key in Keys(table)
    ensures Lookup(table, key).Some? ==> (key, Lookup(table, key).value) in table
  {
    if table != [] {
      assert Keys(table) == [table[0].0] + Keys(table[1..]);
      assert table == [table[0]] + table[1..];
      if table[0].0 == key {
        assert table[0] == (key, table[0].1);
      } else {
        LookupFinds(table[1..], key);
      }
    }
  }

  // ---------------------------------------------------------------------
  // Building the graph

  function AddNodeTo(ns: seq<string>, n: string): seq<string>
  {
    if n in ns then ns else ns + [n]
  }

  /** The position of the edge from `u` to `v`, or `|es|` when there is none. */
  function EdgeIndex(es: seq<Edge>, u: string, v: string): (i: nat)
    ensures i <= |es|
    ensures i < |es| ==> es[i].src == u && es[i].dst == v
    ensures forall j :: 0 <= j < i ==> !(es[j].src == u && es[j].dst == v)
  {
    if es == [] then 0
    else if es[0].src == u && es[0].dst == v then 0
    else 1 + EdgeIndex(es[1..], u, v)
  }

  /** The edge list after `add_edge(u, v, weight=w)`: an existing edge keeps
      its place and takes the new weight, a new one goes last. */
  function SetEdge(es: seq<Edge>, u: string, v: string, w: real): seq<Edge>
  {
    var i := EdgeIndex(es, u, v);
    if i < |es| then es[i := Edge(u, v, w)] else es + [Edge(u, v, w)]
  }

  /** The weight of the edge from `u` to `v`, if there is one. */
  function WeightOf(es: seq<Edge>, u: string, v: string): Option<real>
  {
    var i := EdgeIndex(es, u, v);
    if i < |es| then Some(es[i].weight) else None
  }

  function WithNode(g: Graph, n: string): Graph
  {
    Graph(AddNodeTo(g.nodes, n), g.edges)
  }

  function WithEdge(g: Graph, u: string, v: string, w: real): Graph
  {
    Graph(AddNodeTo(AddNodeTo(g.nodes, u), v), SetEdge(g.edges, u, v, w))
  }

  /** No node twice, no two edges between the same ordered pair, and every
      edge between two nodes of the graph. */
  predicate Valid(g: Graph)
  {
    && Distinct(g.nodes)
    && (forall i :: 0 <= i < |g.edges| ==> g.edges[i].src in g.nodes && g.edges[i].dst in g.nodes)
    && (forall i, j :: 0 <= i < j < |g.edges| ==>
          !(g.edges[i].src == g.edges[j].src && g.edges[i].dst == g.edges[j].dst))
  }

  lemma AddNodeToKeepsDistinct(ns: seq<string>, n: string)
    requires Distinct(ns)
    ensures Distinct(AddNodeTo(ns, n))
    ensures forall m :: m in AddNodeTo(ns, n) <==> m in ns || m == n
  {
  }

  lemma WithNodeValid(g: Graph, n: string)
    requires Valid(g)
    ensures Valid(WithNode(g, n))
  {
    AddNodeToKeepsDistinct(g.nodes, n);
  }

  /** Setting an edge changes the weight of its own pair and of no other. */
  lemma SetEdgeWeights(es: seq<Edge>, u: string, v: string, w: real, a: string, b: string)
    ensures WeightOf(SetEdge(es, u, v, w), a, b) == if a == u && b == v then Some(w) else WeightOf(es, a, b)
  {
    var es' := SetEdge(es, u, v, w);
    var i := EdgeIndex(es, u, v);
    var j := EdgeIndex(es, a, b);
    var j' := EdgeIndex(es', a, b);
    if a == u && b == v {
      assert es'[i].src == u && es'[i].dst == v;
    } else {
      assert |es| <= |es'|;
      assert forall k :: 0 <= k < |es| ==> (es'[k].src == a && es'[k].dst == b <==> es[k].src == a && es[k].dst == b);
      if j == |es| && |es'| > |es| {
        assert !(es'[|es|].src == a && es'[|es|].dst == b);
      }
    }
  }

  lemma WithEdgeValid(g: Graph, u: string, v: string, w: real)
    requires Valid(g)
    ensures Valid(WithEdge(g, u, v, w))
  {
    AddNodeToKeepsDistinct(g.nodes, u);
    AddNodeToKeepsDistinct(AddNodeTo(g.nodes, u), v);
    var g' := WithEdge(g, u, v, w);
    var i := EdgeIndex(g.edges, u, v);
    if i == |g.edges| {
      forall j | 0 <= j < |g.edges|
        ensures !(g'.edges[j].src == u && g'.edges[j].dst == v)
      {
      }
    }
  }

  /** Nodes added one after the other. */
  function AddNodes(g: Graph, ns: seq<string>): Graph
  {
    if ns == [] then g else WithNode(AddNodes(g, ns[..|ns| - 1]), ns[|ns| - 1])
  }

  /** Edges added one after the other. */
  function AddEdges(g: Graph, rows: seq<Edge>): Graph
  {
    if rows == [] then g
    else
      var e := rows[|rows| - 1];
      WithEdge(AddEdges(g, rows[..|rows| - 1]), e.src, e.dst, e.weight)
  }

  /** The graph of a node table and an edge table: the table's nodes, then
      the edges. */
  function Built(table: seq<(string, NodeInfo)>, rows: seq<Edge>): Graph
  {
    AddEdges(AddNodes(Graph([], []), Keys(table)), rows)
  }

  lemma {:induction false} AddNodesValid(g: Graph, ns: seq<string>)
    requires Valid(g)
    ensures Valid(AddNodes(g, ns))
    ensures AddNodes(g, ns).edges == g.edges
    ensures forall m :: m in AddNodes(g, ns).nodes <==> m in g.nodes || m in ns
  {
    if ns != [] {
      AddNodesValid(g, ns[..|ns| - 1]);
      WithNodeValid(AddNodes(g, ns[..|ns| - 1]), ns[|ns| - 1]);
      AddNodeToKeepsDistinct(AddNodes(g, ns[..|ns| - 1]).nodes, ns[|ns| - 1]);
      assert forall m :: m in ns <==> m in ns[..|ns| - 1] || m == ns[|ns| - 1];
    }
  }

  /** A node of the graph after the edges is a node from before or an endpoint of an edge row. */
  predicate Endpoint(rows: seq<Edge>, n: string)
  {
    exists i :: 0 <= i < |rows| && (rows[i].src == n || rows[i].dst == n)
  }

  lemma {:induction false} AddEdgesValid(g: Graph, rows: seq<Edge>)
    requires Valid(g)
    ensures Valid(AddEdges(g, rows))
  {
    if rows != [] {
      var e := rows[|rows| - 1];
      AddEdgesValid(g, rows[..|rows| - 1]);
      WithEdgeValid(AddEdges(g, rows[..|rows| - 1]), e.src, e.dst, e.weight);
    }
  }

  lemma EndpointOfPrefix(rows: seq<Edge>, m: string)
    requires rows != []
    ensures Endpoint(rows, m) <==>
      Endpoint(rows[..|rows| - 1], m) || m == rows[|rows| - 1].src || m == rows[|rows| - 1].dst
  {
    var rows' := rows[..|rows| - 1];
    if Endpoint(rows, m) {
      var i :| 0 <= i < |rows| && (rows[i].src == m || rows[i].dst == m);
      if i < |rows'| {
        assert rows'[i] == rows[i];
      }
    }
    if Endpoint(rows', m) {
      var i :| 0 <= i < |rows'| && (rows'[i].src == m || rows'[i].dst == m);
      assert rows[i] == rows'[i];
    }
  }

  lemma {:induction false} AddEdgesNodes(g: Graph, rows: seq<Edge>, m: string)
    ensures m in AddEdges(g, rows).nodes <==> m in g.nodes || Endpoint(rows, m)
  {
    if rows != [] {
      var e := rows[|rows| - 1];
      AddEdgesNodes(g, rows[..|rows| - 1], m);
      EndpointOfPrefix(rows, m);
      var ns := AddEdges(g, rows[..|rows| - 1]).nodes;
      assert AddEdges(g, rows).nodes == AddNodeTo(AddNodeTo(ns, e.src), e.dst);
    }
  }

  /** The weight of the last row between `u` and `v`, if any. */
  function LastWeight(rows: seq<Edge>, u: string, v: string): Option<real>
  {
    if rows == [] then None
    else if rows[|rows| - 1].src == u && rows[|rows| - 1].dst == v then Some(rows[|rows| - 1].weight)
    else LastWeight(rows[..|rows| - 1], u, v)
  }

  /** The built graph has an edge between `u` and `v` exactly when some row
      joins them, and its weight is the weight of the last such row. */
  lemma {:induction false} BuiltWeights(table: seq<(string, NodeInfo)>, rows: seq<Edge>, u: string, v: string)
    ensures WeightOf(Built(table, rows).edges, u, v) == LastWeight(rows, u, v)
  {
    if rows != [] {
      var e := rows[|rows| - 1];
      BuiltWeights(table, rows[..|rows| - 1], u, v);
      SetEdgeWeights(Built(table, rows[..|rows| - 1]).edges, e.src, e.dst, e.weight, u, v);
    } else {
      AddNodesValid(Graph([], []), Keys(table));
    }
  }

  /** The built graph is valid, and its nodes are the table's keys and the
      endpoints of the edge rows. */
  lemma BuiltValid(table: seq<(string, NodeInfo)>, rows: seq<Edge>)
    ensures Valid(Built(table, rows))
    ensures forall m :: m in Built(table, rows).nodes <==> m in Keys(table) || Endpoint(rows, m)
  {
    var g := AddNodes(Graph([], []), Keys(table));
    AddNodesValid(Graph([], []), Keys(table));
    AddEdgesValid(g, rows);
    forall m
      ensures m in Built(table, rows).nodes <==> m in Keys(table) || Endpoint(rows, m)
    {
      AddEdgesNodes(g, rows, m);
    }
  }

  /** A graph object, changed in place by `add_node` and `add_edge`. */
  class DiGraph {
    var nodes: seq<string>
    var edges: seq<Edge>

    function Value(): Graph
      reads this
    {
      Graph(nodes, edges)
    }

    constructor()
      ensures Value() == Graph([], [])
    {
      nodes := [];
      edges := [];
    }

    method AddNode(n: string)
      modifies this
      ensures Value() == WithNode(old(Value()), n)
    {
      if n !in nodes {
        nodes := nodes + [n];
      }
    }

    method AddEdge(u: string, v: string, w: real)
      modifies this
      ensures Value() == WithEdge(old(Value()), u, v, w)
    {
      AddNode(u);
      AddNode(v);
      var i := 0;
      while i < |edges| && !(edges[i].src == u && edges[i].dst == v)
        invariant 0 <= i <= |edges|
        invariant forall j :: 0 <= j < i ==> !(edges[j].src == u && edges[j].dst == v)
      {
        i := i + 1;
      }
      assert i == EdgeIndex(edges, u, v) by {
        var k := EdgeIndex(edges, u, v);
        assert !(k < i);
        assert !(i < k);
      }
      if i < |edges| {
        edges := edges[i := Edge(u, v, w)];
      } else {
        edges := edges + [Edge(u, v, w)];
      }
    }
  }

  /** The first two loops of `run_dependency_graph`: every table node, then every edge row. */
  method BuildGraph(table: seq<(string, NodeInfo)>, rows: seq<Edge>) returns (g: DiGraph)
    ensures fresh(g)
    ensures g.Value() == Built(table, rows)
  {
    g := new DiGraph();
    AddTableNodes(g, Keys(table));
    AddEdgeRows(g, rows);
  }

  /** The node loop: adds the nodes `ns` in order. */
  method AddTableNodes(g: DiGraph, ns: seq<string>)
    modifies g
    ensures g.Value() == AddNodes(old(g.Value()), ns)
  {
    ghost var g0 := g.Value();
    var i := 0;
    while i < |ns|
      invariant 0 <= i <= |ns|
      invariant g.Value() == AddNodes(g0, ns[..i])
    {
      AddNodesStep(g0, ns, i);
      g.AddNode(ns[i]);
      i := i + 1;
    }
    assert ns[..|ns|] == ns;
  }

  lemma AddNodesStep(g: Graph, ns: seq<string>, i: nat)
    requires i < |ns|
    ensures AddNodes(g, ns[..i + 1]) == WithNode(AddNodes(g, ns[..i]), ns[i])
  {
    assert ns[..i + 1][..i] == ns[..i];
  }

  /** The edge loop: adds the edges `rows` in order. */
  method AddEdgeRows(g: DiGraph, rows: seq<Edge>)
    modifies g
    ensures g.Value() == AddEdges(old(g.Value()), rows)
  {
    ghost var g0 := g.Value();
    var j := 0;
    while j < |rows|
      invariant 0 <= j <= |rows|
      invariant g.Value() == AddEdges(g0, rows[..j])
    {
      AddEdgesStep(g0, rows, j);
      g.AddEdge(rows[j].src, rows[j].dst, rows[j].weight);
      j := j + 1;
    }
    assert rows[..|rows|] == rows;
  }

  lemma AddEdgesStep(g: Graph, rows: seq<Edge>, j: nat)
    requires j < |rows|
    ensures AddEdges(g, rows[..j + 1]) == WithEdge(AddEdges(g, rows[..j]), rows[j].src, rows[j].dst, rows[j].weight)
  {
    assert rows[..j + 1][..j] == rows[..j];
  }

  // ---------------------------------------------------------------------
  // Degrees

  function Src(e: Edge): string { e.src }
  function Dst(e: Edge): string { e.dst }
  function Weight(e: Edge): real { e.weight }

  /** The weighted out-degree: the summed weights of the node's outgoing edges. */
  function OutDegree(g: Graph, n: string): real
  {
    SumWhere(g.edges, Src, n, Weight)
  }

  /** The weighted in-degree: the summed weights of the node's incoming edges. */
  function InDegree(g: Graph, n: string): real
  {
    SumWhere(g.edges, Dst, n, Weight)
  }

  /** Every edge is counted once as outgoing and once as incoming: over the
      nodes of a valid graph the out-degrees and the in-degrees both add up
      to the total edge weight. */
  lemma DegreeSums(g: Graph)
    requires Valid(g)
    ensures SumPerKey(g.nodes, g.edges, Src, Weight) == SumBy(g.edges, Weight)
    ensures SumPerKey(g.nodes, g.edges, Dst, Weight) == SumBy(g.edges, Weight)
  {
    SumPerKeyIsTotal(g.nodes, g.edges, Src, Weight);
    SumPerKeyIsTotal(g.nodes, g.edges, Dst, Weight);
  }

  /** A sum of non-negative edge weights is non-negative. */
  lemma {:induction false} SumWhereNonNegative(es: seq<Edge>, key: Edge -> string, n: string)
    requires forall i :: 0 <= i < |es| ==> es[i].weight >= 0.0
    ensures SumWhere(es, key, n, Weight) >= 0.0
  {
    if es != [] {
      SumWhereNonNegative(es[..|es| - 1], key, n);
    }
  }

  function OutDegrees(g: Graph): (d: seq<real>)
    ensures |d| == |g.nodes|
  {
    seq(|g.nodes|, i requires 0 <= i < |g.nodes| => OutDegree(g, g.nodes[i]))
  }

  /** `max(out_degree.values(), default=1) or 1`: never zero, never below a
      degree, and either 1 or one of the degrees. */
  function MaxOut(d: seq<real>): (m: real)
    ensures m != 0.0
    ensures forall i :: 0 <= i < |d| ==> d[i] <= m
    ensures m == 1.0 || m in d
  {
    if |d| == 0 then 1.0
    else
      var top := Max(d);
      if top == 0.0 then 1.0 else top
  }

  /** With non-negative weights the out-degree term of every node lies in [0, 1]. */
  lemma OutTermInUnitRange(g: Graph, k: nat)
    requires k < |g.nodes|
    requires forall i :: 0 <= i < |g.edges| ==> g.edges[i].weight >= 0.0
    ensures 0.0 <= OutDegree(g, g.nodes[k]) / MaxOut(OutDegrees(g)) <= 1.0
  {
    var d := OutDegrees(g);
    var m := MaxOut(d);
    SumWhereNonNegative(g.edges, Src, g.nodes[k]);
    assert 0.0 <= d[k] <= m;
    DivMonotone(0.0, d[k], m);
    DivMonotone(d[k], m, m);
    DivOfScaled(1.0, m);
  }

  // ---------------------------------------------------------------------
  // The SPOF score

  /** The criticality weight; a criticality outside the four known levels counts 0.5. */
  function CriticalityWeight(c: string): (w: real)
    ensures 0.2 <= w <= 1.0
    ensures c !in ["critical", "high", "medium", "low"] ==> w == 0.5
  {
    if c == "critical" then 1.0
    else if c == "high" then 0.7
    else if c == "medium" then 0.4
    else if c == "low" then 0.2
    else 0.5
  }

  /** The alternatives penalty: 1 without alternatives, below 1 with any. */
  function Penalty(alternatives: nat): (p: real)
    ensures 0.0 < p <= 1.0
    ensures p == 1.0 <==> alternatives == 0
  {
    if alternatives == 0 then 1.0 else 1.0 / (1.0 + alternatives as real * 0.3)
  }

  /** More alternatives, a smaller penalty factor. */
  lemma PenaltyDecreasing(k: nat, k': nat)
    requires 0 < k < k'
    ensures Penalty(k') < Penalty(k)
  {
    var a, b := 1.0 + k as real * 0.3, 1.0 + k' as real * 0.3;
    assert 1.0 / b < 1.0 / a by {
      assert 1.0 / b * b == 1.0 && 1.0 / a * a == 1.0;
    }
  }

  /** The weighted bracket of the four centrality terms. */
  function Bracket(betweenness: real, closeness: real, outTerm: real, criticality: real): real
  {
    betweenness * 0.35 + closeness * 0.30 + outTerm * 0.20 + criticality * 0.15
  }

  /** The score on the 0..100 scale before rounding. */
  function RawScore(bracket: real, alternatives: nat): real
  {
    bracket * Penalty(alternatives) * 100.0
  }

  /** The score on the 0..100 scale, rounded to one decimal. */
  function Score(bracket: real, alternatives: nat): real
  {
    Round(RawScore(bracket, alternatives), 1)
  }

  /** A vendor without alternatives has a strictly higher unrounded score
      than an otherwise identical one with alternatives, and a rounded score
      that is not lower. */
  lemma NoAlternativesScoresHigher(bracket: real, k: nat)
    requires bracket > 0.0 && k > 0
    ensures RawScore(bracket, k) < RawScore(bracket, 0)
    ensures Score(bracket, k) <= Score(bracket, 0)
  {
    assert bracket * Penalty(k) < bracket * 1.0;
    RoundMonotone(RawScore(bracket, k), RawScore(bracket, 0), 1);
  }

  lemma RawScoreInRange(bracket: real, k: nat)
    requires 0.0 <= bracket <= 1.0
    ensures 0.0 <= RawScore(bracket, k) <= 100.0
  {
    var p := Penalty(k);
    assert bracket * p <= 1.0 * p;
  }

  /** A bracket of four terms in [0, 1] lies in [0, 1]. */
  lemma BracketInUnitRange(b: real, c: real, outTerm: real, crit: real)
    requires 0.0 <= b <= 1.0 && 0.0 <= c <= 1.0 && 0.0 <= outTerm <= 1.0 && 0.0 <= crit <= 1.0
    ensures 0.0 <= Bracket(b, c, outTerm, crit) <= 1.0
  {
  }

  /** A bracket in [0, 1] gives a score in [0, 100]. */
  lemma ScoreOfUnitBracket(bracket: real, k: nat)
    requires 0.0 <= bracket <= 1.0
    ensures 0.0 <= Score(bracket, k) <= 100.0
  {
    RawScoreInRange(bracket, k);
    RoundWithinPercent(RawScore(bracket, k));
  }

  lemma RoundWithinPercent(y: real)
    requires 0.0 <= y <= 100.0
    ensures 0.0 <= Round(y, 1) <= 100.0
  {
    RoundMonotone(0.0, y, 1);
    RoundMonotone(y, 100.0, 1);
    RoundExact(0.0, 1, 0);
    RoundExact(100.0, 1, 1000);
  }

  /** With all four terms in [0, 1] the score lies in [0, 100]. */
  lemma ScoreWithinScale(b: real, c: real, outTerm: real, crit: real, k: nat)
    requires 0.0 <= b <= 1.0 && 0.0 <= c <= 1.0 && 0.0 <= outTerm <= 1.0 && 0.0 <= crit <= 1.0
    ensures 0.0 <= Score(Bracket(b, c, outTerm, crit), k) <= 100.0
  {
    BracketInUnitRange(b, c, outTerm, crit);
    ScoreOfUnitBracket(Bracket(b, c, outTerm, crit), k);
  }

  /** `m.get(key, 0)`. */
  function GetOr(m: map<string, real>, key: string): real
  {
    if key in m then m[key] else 0.0
  }

  /** The score of node `n` given its table entry and `maxOut`. */
  function NodeScore(g: Graph, info: NodeInfo, betweenness: map<string, real>, closeness: map<string, real>,
                     maxOut: real, n: string): real
    requires maxOut != 0.0
  {
    Score(Bracket(GetOr(betweenness, n), GetOr(closeness, n), OutDegree(g, n) / maxOut,
                  CriticalityWeight(info.criticality)), |info.alternatives|)
  }

  /** The scoring loop: one score per graph node, in graph order. A node with
      no entry in the node table stops the loop with a key error. */
  method SpofScores(g: Graph, table: seq<(string, NodeInfo)>, betweenness: map<string, real>,
                    closeness: map<string, real>)
    returns (r: Result<map<string, real>, string>)
    ensures r.Success? <==> forall n :: n in g.nodes ==> Lookup(table, n).Some?
    ensures r.Failure? ==> r.error in g.nodes && Lookup(table, r.error).None?
    ensures r.Failure? ==>
      exists k :: (0 <= k < |g.nodes| && g.nodes[k] == r.error &&
                   forall n :: n in g.nodes[..k] ==> Lookup(table, n).Some?)
    ensures r.Success? ==> forall n :: n in r.value <==> n in g.nodes
    ensures r.Success? ==> forall n :: n in g.nodes ==>
      r.value[n] == NodeScore(g, Lookup(table, n).value, betweenness, closeness, MaxOut(OutDegrees(g)), n)
  {
    var maxOut := MaxOut(OutDegrees(g));
    r := ScoreEach(g.nodes, table, (info: NodeInfo, n: string) => NodeScore(g, info, betweenness, closeness, maxOut, n));
  }

  /** The loop of the scoring step, for any score of a table entry and node:
      `score(table[node], node)` for each node in turn. */
  method ScoreEach(nodes: seq<string>, table: seq<(string, NodeInfo)>, score: (NodeInfo, string) -> real)
    returns (r: Result<map<string, real>, string>)
    ensures r.Success? <==> forall n :: n in nodes ==> Lookup(table, n).Some?
    ensures r.Failure? ==> r.error in nodes && Lookup(table, r.error).None?
    ensures r.Failure? ==>
      exists k :: (0 <= k < |nodes| && nodes[k] == r.error &&
                   forall n :: n in nodes[..k] ==> Lookup(table, n).Some?)
    ensures r.Success? ==> forall n :: n in r.value <==> n in nodes
    ensures r.Success? ==> forall n :: n in nodes ==> r.value[n] == score(Lookup(table, n).value, n)
  {
    var scores: map<string, real> := map[];
    var i := 0;
    while i < |nodes|
      invariant 0 <= i <= |nodes|
      invariant forall n :: n in scores <==> n in nodes[..i]
      invariant forall n :: n in nodes[..i] ==> Lookup(table, n).Some? && scores[n] == score(Lookup(table, n).value, n)
    {
      var node := nodes[i];
      var info := Lookup(table, node);
      if info.None? {
        assert node in nodes && nodes[i] == node;
        return Failure(node);
      }
      assert nodes[..i + 1] == nodes[..i] + [node];
      scores := scores[node := score(info.value, node)];
      i := i + 1;
    }
    assert nodes[..i] == nodes;
    r := Success(scores);
  }

  /** `true_spofs`: the table's nodes without alternatives scoring above 10, in table order. */
  function TrueSpofs(table: seq<(string, NodeInfo)>, scores: map<string, real>): seq<string>
    requires forall i :: 0 <= i < |table| ==> table[i].0 in scores
  {
    if table == [] then []
    else
      var (n, info) := table[|table| - 1];
      TrueSpofs(table[..|table| - 1], scores) + (if IsSpof(table[|table| - 1], scores) then [n] else [])
  }

  /** The filter of `true_spofs`: no alternatives and a score above 10. */
  predicate IsSpof(entry: (string, NodeInfo), scores: map<string, real>)
    requires entry.0 in scores
  {
    |entry.1.alternatives| == 0 && scores[entry.0] > 10.0
  }

  /** The table positions of the entries that pass the filter, in table order. */
  function SpofPositions(table: seq<(string, NodeInfo)>, scores: map<string, real>): (ps: seq<nat>)
    requires forall i :: 0 <= i < |table| ==> table[i].0 in scores
    ensures forall k :: 0 <= k < |ps| ==> ps[k] < |table|
  {
    if table == [] then []
    else
      var ps := SpofPositions(table[..|table| - 1], scores);
      if IsSpof(table[|table| - 1], scores) then ps + [|table| - 1] else ps
  }

  /** `true_spofs` lists the nodes of the entries that pass the filter, in
      node-table order: its `k`th node is the key of the `k`th such entry, and
      those positions increase and are exactly the passing entries. */
  lemma {:induction false} TrueSpofsInTableOrder(table: seq<(string, NodeInfo)>, scores: map<string, real>)
    requires forall i :: 0 <= i < |table| ==> table[i].0 in scores
    ensures var spofs, ps := TrueSpofs(table, scores), SpofPositions(table, scores);
      && |ps| == |spofs|
      && (forall k, l :: 0 <= k < l < |ps| ==> ps[k] < ps[l])
      && (forall k :: 0 <= k < |ps| ==> spofs[k] == table[ps[k]].0)
      && (forall i :: 0 <= i < |table| ==> (i in ps <==> IsSpof(table[i], scores)))
  {
    if table != [] {
      var t := table[..|table| - 1];
      TrueSpofsInTableOrder(t, scores);
      assert forall i :: 0 <= i < |t| ==> t[i] == table[i];
    }
  }

  /** A node is a true SPOF exactly when some table entry for it has no
      alternatives and its score is above 10. */
  lemma {:induction false} TrueSpofsExactly(table: seq<(string, NodeInfo)>, scores: map<string, real>, n: string)
    requires forall i :: 0 <= i < |table| ==> table[i].0 in scores
    ensures n in TrueSpofs(table, scores) <==>
      exists i :: 0 <= i < |table| && table[i].0 == n && |table[i].1.alternatives| == 0 && scores[n] > 10.0
  {
    if table != [] {
      var t := table[..|table| - 1];
      TrueSpofsExactly(t, scores, n);
      assert forall i :: 0 <= i < |t| ==> t[i] == table[i];
    }
  }

  /** Every key of the node table is a node of the built graph, so the
      `spof_scores[node]` lookups of `true_spofs` cannot fail after a
      successful scoring loop. */
  lemma TableKeysScored(table: seq<(string, NodeInfo)>, rows: seq<Edge>, scores: map<string, real>)
    requires forall n :: n in scores <==> n in Built(table, rows).nodes
    ensures forall i :: 0 <= i < |table| ==> table[i].0 in scores
  {
    BuiltValid(table, rows);
    assert forall i :: 0 <= i < |table| ==> Keys(table)[i] == table[i].0;
  }
}
