/** Python's `sorted(xs, key=k)` and `xs.sort(key=k)`: a stable sort, ascending
    by a real-valued key. A descending sort (`reverse=True`, or a negated key)
    is the ascending sort by the negated key: Python's `reverse=True` also keeps
    the input order of equal keys. */
module StableSort {

  ghost predicate SortedBy<T>(s: seq<T>, key: T -> real)
  {
    forall i, j :: 0 <= i < j < |s| ==> key(s[i]) <= key(s[j])
  }

  /** The elements of `s` whose key is `v`, in the order of `s`. */
  function WithKey<T>(s: seq<T>, key: T -> real, v: real): (r: seq<T>)
    ensures |r| <= |s|
  {
    if s == [] then []
    else WithKey(s[..|s| - 1], key, v) + (if key(s[|s| - 1]) == v then [s[|s| - 1]] else [])
  }

  /** Places `x` after every element of `t` whose key is not larger. */
  function Insert<T>(t: seq<T>, x: T, key: T -> real): (r: seq<T>)
    requires SortedBy(t, key)
    ensures SortedBy(r, key)
    ensures multiset(r) == multiset(t) + multiset{x}
  {
    if t == [] then [x]
    else if key(t[|t| - 1]) <= key(x) then
      AppendLargest(t, x, key);
      t + [x]
    else
      var t', y := t[..|t| - 1], t[|t| - 1];
      SortedLast(t, key);
      var r' := Insert(t', x, key);
      AllAtMost(r', t', x, y, key);
      AppendLargest(r', y, key);
      assert t == t' + [y];
      r' + [y]
  }

  /** Dropping the last element keeps a list sorted, and that element has
      the largest key. */
  lemma SortedLast<T>(t: seq<T>, key: T -> real)
    requires SortedBy(t, key) && |t| > 0
    ensures SortedBy(t[..|t| - 1], key)
    ensures forall i :: 0 <= i < |t| - 1 ==> key(t[i]) <= key(t[|t| - 1])
  {
  }

  /** An element with a key at least every key of a sorted list can go
      last. */
  lemma AppendLargest<T>(t: seq<T>, y: T, key: T -> real)
    requires SortedBy(t, key)
    requires forall i :: 0 <= i < |t| ==> key(t[i]) <= key(y)
    ensures SortedBy(t + [y], key)
    ensures multiset(t + [y]) == multiset(t) + multiset{y}
  {
  }

  /** The elements of a permutation of `t'` plus `x` have keys at most
      `key(y)` when those of `t'` and `x` do. */
  lemma AllAtMost<T>(r: seq<T>, t': seq<T>, x: T, y: T, key: T -> real)
    requires multiset(r) == multiset(t') + multiset{x}
    requires forall i :: 0 <= i < |t'| ==> key(t'[i]) <= key(y)
    requires key(x) <= key(y)
    ensures forall i :: 0 <= i < |r| ==> key(r[i]) <= key(y)
  {
    forall i | 0 <= i < |r|
      ensures key(r[i]) <= key(y)
    {
      assert r[i] in multiset(r);
      assert r[i] == x || r[i] in multiset(t');
    }
  }

  function Sort<T>(s: seq<T>, key: T -> real): (r: seq<T>)
    ensures SortedBy(r, key)
    ensures multiset(r) == multiset(s)
    ensures |r| == |s|
  {
    if s == [] then []
    else
      var s', x := s[..|s| - 1], s[|s| - 1];
      assert s == s' + [x];
      assert multiset(s) == multiset(s') + multiset{x};
      var r := Insert(Sort(s', key), x, key);
      assert |multiset(r)| == |multiset(s)|;
      r
  }

  lemma WithKeyAppend<T>(s: seq<T>, x: T, key: T -> real, v: real)
    ensures WithKey(s + [x], key, v) == WithKey(s, key, v) + (if key(x) == v then [x] else [])
  {
    assert (s + [x])[..|s|] == s;
  }

  /** Inserting `x` leaves every other key's elements where they were, and puts
      `x` after the elements that share its key. */
  lemma {:induction false} WithKeyInsert<T>(t: seq<T>, x: T, key: T -> real, v: real)
    requires SortedBy(t, key)
    ensures WithKey(Insert(t, x, key), key, v) == WithKey(t, key, v) + (if key(x) == v then [x] else [])
  {
    if t == [] {
      assert Insert(t, x, key) == [] + [x];
      WithKeyAppend([], x, key, v);
    } else if key(t[|t| - 1]) <= key(x) {
      assert Insert(t, x, key) == t + [x];
      WithKeyAppend(t, x, key, v);
    } else {
      var t' := t[..|t| - 1];
      var y := t[|t| - 1];
      assert t == t' + [y];
      SortedLast(t, key);
      var r' := Insert(t', x, key);
      assert Insert(t, x, key) == r' + [y];
      WithKeyInsert(t', x, key, v);
      WithKeyLarger(r', t', x, y, key, v);
    }
  }

  /** Appending `y`, whose key is above that of `x`, to both sides of the
      insertion equation keeps it. */
  lemma WithKeyLarger<T>(r': seq<T>, t': seq<T>, x: T, y: T, key: T -> real, v: real)
    requires key(x) < key(y)
    requires WithKey(r', key, v) == WithKey(t', key, v) + (if key(x) == v then [x] else [])
    ensures WithKey(r' + [y], key, v) == WithKey(t' + [y], key, v) + (if key(x) == v then [x] else [])
  {
    if key(x) == v {
      calc {
        WithKey(r' + [y], key, v);
      == { WithKeyAppend(r', y, key, v); }
        WithKey(r', key, v);
      ==
        WithKey(t', key, v) + [x];
      == { WithKeyAppend(t', y, key, v); }
        WithKey(t' + [y], key, v) + [x];
      }
    } else {
      calc {
        WithKey(r' + [y], key, v);
      == { WithKeyAppend(r', y, key, v); }
        WithKey(r', key, v) + (if key(y) == v then [y] else []);
      == { assert WithKey(r', key, v) == WithKey(t', key, v); }
        WithKey(t', key, v) + (if key(y) == v then [y] else []);
      == { WithKeyAppend(t', y, key, v); }
        WithKey(t' + [y], key, v);
      }
    }
  }

  /** Stability: the elements that share a key come out in the order they went in. */
  lemma {:induction false} SortIsStable<T>(s: seq<T>, key: T -> real, v: real)
    ensures WithKey(Sort(s, key), key, v) == WithKey(s, key, v)
  {
    if s != [] {
      var s' := s[..|s| - 1];
      SortIsStable(s', key, v);
      WithKeyInsert(Sort(s', key), s[|s| - 1], key, v);
    }
  }

  /** The elements of `s[..j]` that have key `v` come first among those of `s`. */
  lemma {:induction false} WithKeyPrefix<T>(s: seq<T>, key: T -> real, v: real, j: nat)
    requires j <= |s|
    ensures |WithKey(s[..j], key, v)| <= |WithKey(s, key, v)|
    ensures WithKey(s, key, v)[..|WithKey(s[..j], key, v)|] == WithKey(s[..j], key, v)
    decreases |s| - j
  {
    if j == |s| {
      assert s[..j] == s;
    } else {
      WithKeyPrefix(s, key, v, j + 1);
      assert s[..j + 1][..j] == s[..j];
    }
  }

  /** An element with key `v` sits in `WithKey(s, key, v)` after the elements
      with that key that precede it. */
  lemma WithKeyAt<T>(s: seq<T>, key: T -> real, v: real, i: nat)
    requires i < |s| && key(s[i]) == v
    ensures |WithKey(s[..i], key, v)| < |WithKey(s, key, v)|
    ensures WithKey(s, key, v)[|WithKey(s[..i], key, v)|] == s[i]
  {
    assert s[..i + 1][..i] == s[..i];
    WithKeyPrefix(s, key, v, i + 1);
  }

  /** `WithKey` keeps elements of `s` only, and keeps them in their order: a
      rank that increases along `s` increases along it. */
  lemma {:induction false} WithKeyRanked<T>(s: seq<T>, key: T -> real, v: real, rank: T -> int)
    requires forall i, j :: 0 <= i < j < |s| ==> rank(s[i]) < rank(s[j])
    ensures forall a :: 0 <= a < |WithKey(s, key, v)| ==> WithKey(s, key, v)[a] in s
    ensures forall a, b :: 0 <= a < b < |WithKey(s, key, v)| ==>
      rank(WithKey(s, key, v)[a]) < rank(WithKey(s, key, v)[b])
  {
    if s != [] {
      var s', x := s[..|s| - 1], s[|s| - 1];
      WithKeyRanked(s', key, v, rank);
      var w' := WithKey(s', key, v);
      forall a | 0 <= a < |w'|
        ensures rank(w'[a]) < rank(x)
      {
        var k :| 0 <= k < |s'| && s'[k] == w'[a];
        assert s[k] == w'[a];
      }
    }
  }

  /** Stability by position: when equal keys come out of the sort, the one
      that came first in `s` (by any rank increasing along `s`) comes first. */
  lemma SortKeepsTieOrder<T>(s: seq<T>, key: T -> real, rank: T -> int)
    requires forall i, j :: 0 <= i < j < |s| ==> rank(s[i]) < rank(s[j])
    ensures forall i, j :: 0 <= i < j < |Sort(s, key)| && key(Sort(s, key)[i]) == key(Sort(s, key)[j]) ==>
      rank(Sort(s, key)[i]) < rank(Sort(s, key)[j])
  {
    forall i, j | 0 <= i < j < |Sort(s, key)| && key(Sort(s, key)[i]) == key(Sort(s, key)[j])
      ensures rank(Sort(s, key)[i]) < rank(Sort(s, key)[j])
    {
      TieOrderAt(s, key, rank, i, j);
    }
  }

  lemma TieOrderAt<T>(s: seq<T>, key: T -> real, rank: T -> int, i: nat, j: nat)
    requires forall a, b :: 0 <= a < b < |s| ==> rank(s[a]) < rank(s[b])
    requires i < j < |Sort(s, key)| && key(Sort(s, key)[i]) == key(Sort(s, key)[j])
    ensures rank(Sort(s, key)[i]) < rank(Sort(s, key)[j])
  {
    var r := Sort(s, key);
    var v := key(r[i]);
    WithKeyBefore(r, key, v, i, j);
    WithKeyAt(r, key, v, i);
    WithKeyAt(r, key, v, j);
    SortIsStable(s, key, v);
    WithKeyRanked(s, key, v, rank);
  }

  /** An element with key `v` at `i` is counted among the elements with
      that key before any later position `j`. */
  lemma WithKeyBefore<T>(r: seq<T>, key: T -> real, v: real, i: nat, j: nat)
    requires i < j <= |r| && key(r[i]) == v
    ensures |WithKey(r[..i], key, v)| < |WithKey(r[..j], key, v)|
  {
    assert r[..j][..i + 1] == r[..i + 1];
    assert r[..i + 1][..i] == r[..i];
    WithKeyPrefix(r[..j], key, v, i + 1);
  }
}
