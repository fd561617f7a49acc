/** The critical-path search of `run_dependency_graph`: every simple path of
    at least three nodes between two distinct nodes, found by the depth-first
    enumeration of `all_simple_paths`, weighed by the sum of its edge weights,
    and sorted heaviest first. */
module CriticalPaths {
  import opened Sums
  import opened StableSort
  import opened DependencyGraph

  /** There is an edge from `u` to `v`. */
  predicate Linked(es: seq<Edge>, u: string, v: string)
  {
    exists i :: 0 <= i < |es| && es[i].src == u && es[i].dst == v
  }

  /** The heads of the edges leaving `u`, in edge order (the order in which
      the graph lists the successors of `u`). */
  function Successors(es: seq<Edge>, u: string): (s: seq<string>)
    ensures forall v :: v in s ==> v in Targets(es)
  {
    if es == [] then []
    else
      var es' := es[..|es| - 1];
      assert forall i :: 0 <= i < |es'| ==> es'[i] == es[i];
      assert Targets(es') <= Targets(es);
      assert es[|es| - 1].dst in Targets(es);
      Successors(es', u) + (if es[|es| - 1].src == u then [es[|es| - 1].dst] else [])
  }

  /** Every node with an incoming edge. */
  function Targets(es: seq<Edge>): set<string>
  {
    set i | 0 <= i < |es| :: es[i].dst
  }

  /** The nodes of a path. */
  function Visited(path: seq<string>): set<string>
  {
    set v | v in path
  }

  /** The successors of `u` are exactly the nodes `u` has an edge to. */
  lemma {:induction false} SuccessorsExactly(es: seq<Edge>, u: string, v: string)
    ensures v in Successors(es, u) <==> Linked(es, u, v)
  {
    if es != [] {
      var es' := es[..|es| - 1];
      SuccessorsExactly(es', u, v);
      if Linked(es, u, v) {
        var i :| 0 <= i < |es| && es[i].src == u && es[i].dst == v;
        if i < |es'| {
          assert es'[i] == es[i];
        }
      }
      if Linked(es', u, v) {
        var i :| 0 <= i < |es'| && es'[i].src == u && es'[i].dst == v;
        assert es[i] == es'[i];
      }
    }
  }

  /** The depth-first search below `path`: for each of `children` in turn, a
      node already on the path is skipped, the target closes a path, and any
      other node is searched from. Each extension visits one more node with
      an incoming edge, so the search ends. */
  function Explore(es: seq<Edge>, dst: string, path: seq<string>, children: seq<string>): seq<seq<string>>
    requires forall v :: v in children ==> v in Targets(es)
    decreases Targets(es) - Visited(path), |children|
  {
    if children == [] then []
    else
      var v := children[0];
      var below :=
        if v in path then []
        else if v == dst then [path + [v]]
        else (assert Visited(path + [v]) == Visited(path) + {v};
              Explore(es, dst, path + [v], Successors(es, v)));
      below + Explore(es, dst, path, children[1..])
  }

  /** `all_simple_paths(G, src, dst)`, in the order it generates them. */
  function AllSimplePaths(es: seq<Edge>, src: string, dst: string): seq<seq<string>>
  {
    if src == dst then []
    else Explore(es, dst, [src], Successors(es, src))
  }

  /** Consecutive nodes are joined by an edge. */
  predicate Walk(es: seq<Edge>, p: seq<string>)
  {
    forall i :: 0 <= i < |p| - 1 ==> Linked(es, p[i], p[i + 1])
  }

  /** No node occurs twice. */
  predicate Simple(p: seq<string>)
  {
    forall i, j :: 0 <= i < j < |p| ==> p[i] != p[j]
  }

  /** A simple path from `src` to `dst`. */
  predicate SimplePath(es: seq<Edge>, src: string, dst: string, p: seq<string>)
  {
    |p| >= 2 && p[0] == src && p[|p| - 1] == dst && Walk(es, p) && Simple(p)
  }

  lemma WalkExtend(es: seq<Edge>, p: seq<string>, v: string)
    requires p != [] && Walk(es, p) && Linked(es, p[|p| - 1], v)
    ensures Walk(es, p + [v])
  {
    var q := p + [v];
    forall i | 0 <= i < |q| - 1
      ensures Linked(es, q[i], q[i + 1])
    {
      if i < |p| - 1 {
        assert q[i] == p[i] && q[i + 1] == p[i + 1];
      }
    }
  }

  /** Everything the search below `path` yields is a simple path that extends
      `path` and ends at the target. */
  lemma {:induction false} ExploreSound(es: seq<Edge>, dst: string, path: seq<string>, children: seq<string>,
                                        q: seq<string>)
    requires path != [] && Walk(es, path) && Simple(path) && dst !in path
    requires forall v :: v in children ==> Linked(es, path[|path| - 1], v)
    requires forall v :: v in children ==> v in Targets(es)
    requires q in Explore(es, dst, path, children)
    ensures |q| > |path| && q[..|path|] == path && q[|q| - 1] == dst
    ensures Walk(es, q) && Simple(q)
    decreases Targets(es) - Visited(path), |children|
  {
    var v := children[0];
    assert v in children;
    assert forall x :: x in children[1..] ==> x in children;
    if q in Explore(es, dst, path, children[1..]) {
      ExploreSound(es, dst, path, children[1..], q);
    } else if v == dst {
      assert q == path + [v];
      WalkExtend(es, path, v);
    } else {
      StepInto(es, dst, path, v);
      SuccessorsLinked(es, v);
      ExploreSound(es, dst, path + [v], Successors(es, v), q);
      PrefixOfExtended(path, v, q);
    }
  }

  /** Stepping from the end of a simple walk to a new node other than the
      target gives a simple walk that still avoids the target. */
  lemma StepInto(es: seq<Edge>, dst: string, path: seq<string>, v: string)
    requires path != [] && Walk(es, path) && Simple(path) && dst !in path
    requires Linked(es, path[|path| - 1], v) && v !in path && v != dst
    ensures Walk(es, path + [v]) && Simple(path + [v]) && dst !in path + [v]
    ensures Visited(path + [v]) == Visited(path) + {v}
  {
    WalkExtend(es, path, v);
  }

  lemma SuccessorsLinked(es: seq<Edge>, v: string)
    ensures forall x :: x in Successors(es, v) ==> Linked(es, v, x)
  {
    forall x | x in Successors(es, v)
      ensures Linked(es, v, x)
    {
      SuccessorsExactly(es, v, x);
    }
  }

  lemma PrefixOfExtended(path: seq<string>, v: string, q: seq<string>)
    requires |q| > |path| + 1 && q[..|path| + 1] == path + [v]
    ensures q[..|path|] == path
  {
    assert q[..|path|] == q[..|path| + 1][..|path|];
  }

  /** Every simple path that extends `path` through one of `children` and
      meets the target only at its end is found by the search below `path`. */
  lemma {:induction false} ExploreComplete(es: seq<Edge>, dst: string, path: seq<string>, children: seq<string>,
                                           q: seq<string>)
    requires forall v :: v in children ==> v in Targets(es)
    requires |q| > |path| && q[..|path|] == path && q[|q| - 1] == dst
    requires Walk(es, q) && Simple(q)
    requires q[|path|] in children
    ensures q in Explore(es, dst, path, children)
    decreases Targets(es) - Visited(path), |children|
  {
    var v := children[0];
    if v != q[|path|] {
      ExploreComplete(es, dst, path, children[1..], q);
    } else {
      assert v !in path by {
        forall i | 0 <= i < |path|
          ensures path[i] != v
        {
          assert path[i] == q[i];
        }
      }
      if v == dst {
        assert q[|path|] == q[|q| - 1];
        assert q == path + [v];
      } else {
          assert Visited(path + [v]) == Visited(path) + {v};
        assert |q| > |path| + 1;
        assert q[..|path| + 1] == path + [v];
        assert Linked(es, q[|path|], q[|path| + 1]);
        SuccessorsExactly(es, v, q[|path| + 1]);
        ExploreComplete(es, dst, path + [v], Successors(es, v), q);
      }
    }
  }

  /** `all_simple_paths(G, src, dst)` yields exactly the simple paths from
      `src` to `dst`. */
  lemma AllSimplePathsExactly(es: seq<Edge>, src: string, dst: string, q: seq<string>)
    requires src != dst
    ensures q in AllSimplePaths(es, src, dst) <==> SimplePath(es, src, dst, q)
  {
    forall x | x in Successors(es, src)
      ensures Linked(es, src, x)
    {
      SuccessorsExactly(es, src, x);
    }
    if q in AllSimplePaths(es, src, dst) {
      ExploreSound(es, dst, [src], Successors(es, src), q);
      assert q[0] == q[..1][0];
    }
    if SimplePath(es, src, dst, q) {
      assert q[..1] == [src];
      assert Linked(es, q[0], q[1]);
      SuccessorsExactly(es, src, q[1]);
      ExploreComplete(es, dst, [src], Successors(es, src), q);
    }
  }

  // ---------------------------------------------------------------------
  // Weighing and collecting

  /** `G[u][v]["weight"]`, the weight of the edge from `u` to `v`. */
  function EdgeWeight(es: seq<Edge>, u: string, v: string): real
  {
    match WeightOf(es, u, v)
    case Some(w) => w
    case None => 0.0
  }

  /** The summed weight of the edges along a path. */
  function PathWeight(es: seq<Edge>, p: seq<string>): real
  {
    if |p| < 2 then 0.0
    else PathWeight(es, p[..|p| - 1]) + EdgeWeight(es, p[|p| - 2], p[|p| - 1])
  }

  /** A path weighs no less than zero when every edge weight is non-negative. */
  lemma {:induction false} PathWeightNonNegative(es: seq<Edge>, p: seq<string>)
    requires forall i :: 0 <= i < |es| ==> es[i].weight >= 0.0
    ensures PathWeight(es, p) >= 0.0
  {
    if |p| >= 2 {
      PathWeightNonNegative(es, p[..|p| - 1]);
      var i := EdgeIndex(es, p[|p| - 2], p[|p| - 1]);
      if i < |es| {
        assert EdgeWeight(es, p[|p| - 2], p[|p| - 1]) == es[i].weight;
      }
    }
  }

  type Entry = (seq<string>, real)

  /** The entries the innermost loop appends for the paths `ps`: the ones of
      at least three nodes, each with its weight. */
  function Entries(es: seq<Edge>, ps: seq<seq<string>>): seq<Entry>
  {
    if ps == [] then []
    else
      var p := ps[|ps| - 1];
      Entries(es, ps[..|ps| - 1]) + (if |p| >= 3 then [(p, PathWeight(es, p))] else [])
  }

  /** A path enumeration: the paths from a source to a target, in order.
      The collecting loops are stated for any enumeration and used with
      `SimplePaths`. */
  type Search = (string, string) -> seq<seq<string>>

  /** `all_simple_paths` over the edges `es`, as a search. */
  function SimplePaths(es: seq<Edge>): Search
  {
    (src: string, dst: string) => AllSimplePaths(es, src, dst)
  }

  /** The entries for the pair `src`, `dst`: none when they are the same node. */
  function PairEntries(es: seq<Edge>, search: Search, src: string, dst: string): seq<Entry>
  {
    if src != dst then Entries(es, search(src, dst)) else []
  }

  /** The entries for `src` and each of the first `n` of `dsts`. */
  function RowEntries(es: seq<Edge>, search: Search, src: string, dsts: seq<string>, n: nat): seq<Entry>
    requires n <= |dsts|
  {
    if n == 0 then [] else RowEntries(es, search, src, dsts, n - 1) + PairEntries(es, search, src, dsts[n - 1])
  }

  /** The entries for every source in `srcs` against every node of `nodes`. */
  function GridEntries(es: seq<Edge>, search: Search, srcs: seq<string>, nodes: seq<string>): seq<Entry>
  {
    if srcs == [] then []
    else GridEntries(es, search, srcs[..|srcs| - 1], nodes) + RowEntries(es, search, srcs[|srcs| - 1], nodes, |nodes|)
  }

  /** `critical_paths` before the sort. */
  function Candidates(g: Graph): seq<Entry>
  {
    GridEntries(g.edges, SimplePaths(g.edges), g.nodes, g.nodes)
  }

  function NegWeight(e: Entry): real
  {
    -e.1
  }

  /** The innermost loop: appends the entries for the paths `found`. */
  method AppendEntries(es: seq<Edge>, found: seq<seq<string>>, paths: seq<Entry>) returns (paths': seq<Entry>)
    ensures paths' == paths + Entries(es, found)
  {
    paths' := paths;
    var k := 0;
    while k < |found|
      invariant 0 <= k <= |found|
      invariant paths' == paths + Entries(es, found[..k])
    {
      var path := found[k];
      assert found[..k + 1][..k] == found[..k];
      if |path| >= 3 {
        paths' := paths' + [(path, PathWeight(es, path))];
      }
      k := k + 1;
    }
    assert found[..k] == found;
  }

  /** One pass of the middle loop: the paths between two distinct nodes. */
  method AppendPair(es: seq<Edge>, search: Search, src: string, dst: string, paths: seq<Entry>)
    returns (paths': seq<Entry>)
    ensures paths' == paths + PairEntries(es, search, src, dst)
  {
    paths' := paths;
    if src != dst {
      paths' := AppendEntries(es, search(src, dst), paths);
    }
  }

  /** The middle loop: appends the entries for `src` and each of `dsts`. */
  method AppendRow(es: seq<Edge>, search: Search, src: string, dsts: seq<string>, paths: seq<Entry>)
    returns (paths': seq<Entry>)
    ensures paths' == paths + RowEntries(es, search, src, dsts, |dsts|)
  {
    paths' := paths;
    var j := 0;
    while j < |dsts|
      invariant 0 <= j <= |dsts|
      invariant paths' == paths + RowEntries(es, search, src, dsts, j)
    {
      ghost var row := RowEntries(es, search, src, dsts, j);
      paths' := AppendPair(es, search, src, dsts[j], paths');
      assert paths' == paths + (row + PairEntries(es, search, src, dsts[j]));
      j := j + 1;
    }
  }

  lemma GridEntriesStep(es: seq<Edge>, search: Search, nodes: seq<string>, i: nat)
    requires i < |nodes|
    ensures GridEntries(es, search, nodes[..i + 1], nodes) ==
      GridEntries(es, search, nodes[..i], nodes) + RowEntries(es, search, nodes[i], nodes, |nodes|)
  {
    assert nodes[..i + 1][..i] == nodes[..i];
  }

  /** The collecting loops and the sort: the entries in enumeration order,
      then sorted by descending weight. */
  method CriticalPathsOf(g: Graph) returns (paths: seq<Entry>)
    ensures paths == Sort(Candidates(g), NegWeight)
  {
    paths := [];
    var i := 0;
    while i < |g.nodes|
      invariant 0 <= i <= |g.nodes|
      invariant paths == GridEntries(g.edges, SimplePaths(g.edges), g.nodes[..i], g.nodes)
    {
      GridEntriesStep(g.edges, SimplePaths(g.edges), g.nodes, i);
      paths := AppendRow(g.edges, SimplePaths(g.edges), g.nodes[i], g.nodes, paths);
      i := i + 1;
    }
    assert g.nodes[..i] == g.nodes;
    paths := Sort(paths, NegWeight);
  }

  // ---------------------------------------------------------------------
  // What the sorted list holds

  /** An entry of `critical_paths`: a simple path of at least three nodes
      between two nodes of the graph, with its weight. */
  predicate Critical(es: seq<Edge>, nodes: seq<string>, e: Entry)
  {
    |e.0| >= 3 && e.0[0] in nodes && SimplePath(es, e.0[0], e.0[|e.0| - 1], e.0) && e.1 == PathWeight(es, e.0)
  }

  lemma {:induction false} EntriesSound(es: seq<Edge>, nodes: seq<string>, src: string, dst: string,
                                        ps: seq<seq<string>>, e: Entry)
    requires src in nodes && src != dst
    requires forall q :: q in ps ==> SimplePath(es, src, dst, q)
    requires e in Entries(es, ps)
    ensures Critical(es, nodes, e)
  {
    var ps' := ps[..|ps| - 1];
    assert forall q :: q in ps' ==> q in ps;
    if e in Entries(es, ps') {
      EntriesSound(es, nodes, src, dst, ps', e);
    } else {
      var p := ps[|ps| - 1];
      assert p in ps;
      assert e == (p, PathWeight(es, p));
      assert SimplePath(es, src, dst, p);
    }
  }

  lemma {:induction false} RowEntriesSound(es: seq<Edge>, nodes: seq<string>, src: string, dsts: seq<string>,
                                           n: nat, e: Entry)
    requires src in nodes && n <= |dsts|
    requires e in RowEntries(es, SimplePaths(es), src, dsts, n)
    ensures Critical(es, nodes, e)
  {
    var dst := dsts[n - 1];
    if e in RowEntries(es, SimplePaths(es), src, dsts, n - 1) {
      RowEntriesSound(es, nodes, src, dsts, n - 1, e);
    } else {
      assert SimplePaths(es)(src, dst) == AllSimplePaths(es, src, dst);
      forall q | q in AllSimplePaths(es, src, dst)
        ensures SimplePath(es, src, dst, q)
      {
        AllSimplePathsExactly(es, src, dst, q);
      }
      EntriesSound(es, nodes, src, dst, AllSimplePaths(es, src, dst), e);
    }
  }

  lemma {:induction false} GridEntriesSound(es: seq<Edge>, srcs: seq<string>, nodes: seq<string>, e: Entry)
    requires forall s :: s in srcs ==> s in nodes
    requires e in GridEntries(es, SimplePaths(es), srcs, nodes)
    ensures Critical(es, nodes, e)
  {
    var srcs' := srcs[..|srcs| - 1];
    assert forall s :: s in srcs' ==> s in srcs;
    if e in GridEntries(es, SimplePaths(es), srcs', nodes) {
      GridEntriesSound(es, srcs', nodes, e);
    } else {
      RowEntriesSound(es, nodes, srcs[|srcs| - 1], nodes, |nodes|, e);
    }
  }

  /** Every entry of the sorted list is a simple path of at least three
      distinct nodes starting at a graph node, whose consecutive nodes are
      joined by edges, paired with the sum of those edges' weights. */
  lemma CriticalPathsSound(g: Graph, e: Entry)
    requires e in Sort(Candidates(g), NegWeight)
    ensures Critical(g.edges, g.nodes, e)
  {
    assert e in multiset(Sort(Candidates(g), NegWeight));
    GridEntriesSound(g.edges, g.nodes, g.nodes, e);
  }

  lemma {:induction false} EntriesComplete(es: seq<Edge>, ps: seq<seq<string>>, q: seq<string>)
    requires q in ps && |q| >= 3
    ensures (q, PathWeight(es, q)) in Entries(es, ps)
  {
    var ps' := ps[..|ps| - 1];
    if q != ps[|ps| - 1] {
      assert q in ps' by {
        var i :| 0 <= i < |ps| && ps[i] == q;
        assert ps'[i] == q;
      }
      EntriesComplete(es, ps', q);
    }
  }

  lemma PairEntriesComplete(es: seq<Edge>, src: string, dst: string, q: seq<string>)
    requires |q| >= 3 && SimplePath(es, src, dst, q)
    ensures (q, PathWeight(es, q)) in PairEntries(es, SimplePaths(es), src, dst)
  {
    assert src != dst by {
      assert q[0] != q[|q| - 1];
    }
    AllSimplePathsExactly(es, src, dst, q);
    EntriesComplete(es, AllSimplePaths(es, src, dst), q);
    assert SimplePaths(es)(src, dst) == AllSimplePaths(es, src, dst);
  }

  lemma {:induction false} RowEntriesComplete(es: seq<Edge>, src: string, dsts: seq<string>, n: nat, k: nat,
                                              q: seq<string>)
    requires |q| >= 3 && SimplePath(es, src, q[|q| - 1], q)
    requires k < n <= |dsts| && dsts[k] == q[|q| - 1]
    ensures (q, PathWeight(es, q)) in RowEntries(es, SimplePaths(es), src, dsts, n)
  {
    PairEntriesComplete(es, src, dsts[k], q);
    RowEntriesContain(es, SimplePaths(es), src, dsts, n, k, (q, PathWeight(es, q)));
  }

  /** The entries of a row include those of each of its pairs. */
  lemma {:induction false} RowEntriesContain(es: seq<Edge>, search: Search, src: string, dsts: seq<string>, n: nat,
                                             k: nat, e: Entry)
    requires k < n <= |dsts| && e in PairEntries(es, search, src, dsts[k])
    ensures e in RowEntries(es, search, src, dsts, n)
  {
    if k < n - 1 {
      RowEntriesContain(es, search, src, dsts, n - 1, k, e);
    }
  }

  lemma {:induction false} GridEntriesComplete(es: seq<Edge>, srcs: seq<string>, nodes: seq<string>,
                                               q: seq<string>)
    requires |q| >= 3 && q[0] in srcs && q[|q| - 1] in nodes && SimplePath(es, q[0], q[|q| - 1], q)
    ensures (q, PathWeight(es, q)) in GridEntries(es, SimplePaths(es), srcs, nodes)
  {
    var srcs' := srcs[..|srcs| - 1];
    if q[0] == srcs[|srcs| - 1] {
      var k :| 0 <= k < |nodes| && nodes[k] == q[|q| - 1];
      RowEntriesComplete(es, q[0], nodes, |nodes|, k, q);
    } else {
      assert q[0] in srcs' by {
        var i :| 0 <= i < |srcs| && srcs[i] == q[0];
        assert srcs'[i] == srcs[i];
      }
      GridEntriesComplete(es, srcs', nodes, q);
    }
  }

  /** Every simple path of at least three nodes between two graph nodes is
      in the sorted list, with its weight. */
  lemma CriticalPathsComplete(g: Graph, q: seq<string>)
    requires |q| >= 3 && q[0] in g.nodes && q[|q| - 1] in g.nodes && SimplePath(g.edges, q[0], q[|q| - 1], q)
    ensures (q, PathWeight(g.edges, q)) in Sort(Candidates(g), NegWeight)
  {
    GridEntriesComplete(g.edges, g.nodes, g.nodes, q);
    assert (q, PathWeight(g.edges, q)) in multiset(Candidates(g));
  }

  /** The sorted list holds the entries found, each as often, heaviest
      first; paths of equal weight (negated weight `v`) keep the order in
      which they were found. */
  lemma CriticalPathsStable(g: Graph, v: real)
    ensures multiset(Sort(Candidates(g), NegWeight)) == multiset(Candidates(g))
    ensures forall i, j :: 0 <= i < j < |Sort(Candidates(g), NegWeight)| ==>
      Sort(Candidates(g), NegWeight)[i].1 >= Sort(Candidates(g), NegWeight)[j].1
    ensures WithKey(Sort(Candidates(g), NegWeight), NegWeight, v) == WithKey(Candidates(g), NegWeight, v)
  {
    var r := Sort(Candidates(g), NegWeight);
    assert SortedBy(r, NegWeight);
    assert forall i, j :: 0 <= i < j < |r| ==> NegWeight(r[i]) <= NegWeight(r[j]);
    SortIsStable(Candidates(g), NegWeight, v);
  }
}
