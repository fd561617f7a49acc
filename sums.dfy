/** Sums over sequences of reals and over keyed collections. Each sum is
    defined from the left (the sum of a prefix plus its last element), the
    order in which a running total in a loop builds it. */
module Sums {

  function Sum(s: seq<real>): real
  {
    if s == [] then 0.0 else Sum(s[..|s| - 1]) + s[|s| - 1]
  }

  lemma SumAppend(s: seq<real>, x: real)
    ensures Sum(s + [x]) == Sum(s) + x
  {
    assert (s + [x])[..|s|] == s;
  }

  lemma {:induction false} SumConcat(a: seq<real>, b: seq<real>)
    ensures Sum(a + b) == Sum(a) + Sum(b)
  {
    if b != [] {
      var b' := b[..|b| - 1];
      assert (a + b)[..|a + b| - 1] == a + b';
      assert (a + b)[|a + b| - 1] == b[|b| - 1];
      SumConcat(a, b');
      assert Sum(a + b) == Sum(a + b') + b[|b| - 1];
    } else {
      assert a + b == a;
    }
  }

  lemma {:induction false} SumNonNegative(s: seq<real>)
    requires forall i :: 0 <= i < |s| ==> s[i] >= 0.0
    ensures Sum(s) >= 0.0
  {
    if s != [] {
      SumNonNegative(s[..|s| - 1]);
    }
  }

  lemma {:induction false} SumBounded(s: seq<real>, bound: real)
    requires forall i :: 0 <= i < |s| ==> s[i] <= bound
    ensures Sum(s) <= |s| as real * bound
  {
    if s != [] {
      SumBounded(s[..|s| - 1], bound);
    }
  }

  /** The largest element of a non-empty sequence (Python's `max`). */
  function Max(s: seq<real>): (m: real)
    requires |s| > 0
    ensures m in s
    ensures forall i :: 0 <= i < |s| ==> s[i] <= m
  {
    if |s| == 1 then s[0]
    else
      var m' := Max(s[..|s| - 1]);
      assert forall i :: 0 <= i < |s| - 1 ==> s[..|s| - 1][i] == s[i];
      if s[|s| - 1] > m' then s[|s| - 1] else m'
  }

  /** Sum of the weights of the items of `xs`. */
  function SumBy<T>(xs: seq<T>, w: T -> real): real
  {
    if xs == [] then 0.0 else SumBy(xs[..|xs| - 1], w) + w(xs[|xs| - 1])
  }

  /** Sum of the weights of the items of `xs` whose key is `k`. */
  function SumWhere<T, K(==)>(xs: seq<T>, key: T -> K, k: K, w: T -> real): real
  {
    if xs == [] then 0.0
    else SumWhere(xs[..|xs| - 1], key, k, w) + (if key(xs[|xs| - 1]) == k then w(xs[|xs| - 1]) else 0.0)
  }

  /** Sum, over the keys `ks`, of the per-key sums of `xs`. */
  function SumPerKey<T, K(==)>(ks: seq<K>, xs: seq<T>, key: T -> K, w: T -> real): real
  {
    if ks == [] then 0.0 else SumPerKey(ks[..|ks| - 1], xs, key, w) + SumWhere(xs, key, ks[|ks| - 1], w)
  }

  predicate Distinct<K(==)>(ks: seq<K>)
  {
    forall i, j :: 0 <= i < j < |ks| ==> ks[i] != ks[j]
  }

  lemma SumWhereAppend<T, K>(xs: seq<T>, x: T, key: T -> K, k: K, w: T -> real)
    ensures SumWhere(xs + [x], key, k, w) == SumWhere(xs, key, k, w) + (if key(x) == k then w(x) else 0.0)
  {
    assert (xs + [x])[..|xs|] == xs;
  }

  /** The indicator weight of one item, summed over distinct keys, is the item's
      weight when its key is among them, and zero otherwise. */
  lemma {:induction false} IndicatorOverKeys<K>(ks: seq<K>, kx: K, wx: real)
    requires Distinct(ks)
    ensures SumIndicator(ks, kx, wx) == if kx in ks then wx else 0.0
  {
    if ks != [] {
      var ks' := ks[..|ks| - 1];
      IndicatorOverKeys(ks', kx, wx);
      assert kx in ks <==> kx in ks' || kx == ks[|ks| - 1];
      assert ks[|ks| - 1] !in ks';
    }
  }

  function SumIndicator<K(==)>(ks: seq<K>, kx: K, wx: real): real
  {
    if ks == [] then 0.0
    else SumIndicator(ks[..|ks| - 1], kx, wx) + (if kx == ks[|ks| - 1] then wx else 0.0)
  }

  lemma {:induction false} SumPerKeyAppend<T, K>(ks: seq<K>, xs: seq<T>, x: T, key: T -> K, w: T -> real)
    ensures SumPerKey(ks, xs + [x], key, w) == SumPerKey(ks, xs, key, w) + SumIndicator(ks, key(x), w(x))
  {
    if ks != [] {
      SumPerKeyAppend(ks[..|ks| - 1], xs, x, key, w);
      SumWhereAppend(xs, x, key, ks[|ks| - 1], w);
    }
  }

  /** Grouping and then totalling the groups loses and duplicates nothing:
      when every item's key is one of the distinct keys `ks`, the per-key
      sums add up to the sum over all items. */
  lemma {:induction false} SumPerKeyIsTotal<T, K>(ks: seq<K>, xs: seq<T>, key: T -> K, w: T -> real)
    requires Distinct(ks)
    requires forall i :: 0 <= i < |xs| ==> key(xs[i]) in ks
    ensures SumPerKey(ks, xs, key, w) == SumBy(xs, w)
  {
    if xs == [] {
      SumPerKeyOfEmpty(ks, key, w);
    } else {
      var xs' := xs[..|xs| - 1];
      var x := xs[|xs| - 1];
      assert xs == xs' + [x];
      SumPerKeyIsTotal(ks, xs', key, w);
      SumPerKeyAppend(ks, xs', x, key, w);
      IndicatorOverKeys(ks, key(x), w(x));
    }
  }

  lemma {:induction false} SumPerKeyOfEmpty<T, K>(ks: seq<K>, key: T -> K, w: T -> real)
    ensures SumPerKey(ks, [], key, w) == 0.0
  {
    if ks != [] {
      SumPerKeyOfEmpty(ks[..|ks| - 1], key, w);
    }
  }

  /** With no negative weight, the items of one key weigh between nothing
      and all the items together. */
  lemma {:induction false} SumWhereBounded<T, K>(xs: seq<T>, key: T -> K, k: K, w: T -> real)
    requires forall i :: 0 <= i < |xs| ==> w(xs[i]) >= 0.0
    ensures 0.0 <= SumWhere(xs, key, k, w) <= SumBy(xs, w)
  {
    if xs != [] {
      SumWhereBounded(xs[..|xs| - 1], key, k, w);
    }
  }
}
