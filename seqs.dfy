/** Sequence operations behind the dataframe steps: boolean-mask filtering,
    column sums, `sort_values(..., ascending=False)` and `head(n)`. */
module Seqs {

  /** `b` can be obtained from `a` by deleting elements (order kept). */
  predicate IsSubseq<T(==)>(a: seq<T>, b: seq<T>)
    decreases |b|
  {
    a == [] || (b != [] && ((a[0] == b[0] && IsSubseq(a[1..], b[1..])) || IsSubseq(a, b[1..])))
  }

  /** `df[mask]`: the elements satisfying p, in their original order. */
  function Filter<T>(s: seq<T>, p: T -> bool): (r: seq<T>)
    ensures |r| <= |s|
    ensures forall i :: 0 <= i < |r| ==> r[i] in s && p(r[i])
    ensures forall i :: 0 <= i < |s| && p(s[i]) ==> s[i] in r
  {
    if s == [] then [] else (if p(s[0]) then [s[0]] else []) + Filter(s[1..], p)
  }

  /** The filter keeps every copy of an element meeting the condition and no
      copy of any other element. */
  lemma {:induction false} FilterCounts<T(!new)>(s: seq<T>, p: T -> bool)
    ensures forall x :: multiset(Filter(s, p))[x] == if p(x) then multiset(s)[x] else 0
  {
    if s != [] {
      FilterCounts(s[1..], p);
      assert s == [s[0]] + s[1..];
      assert Filter(s, p) == (if p(s[0]) then [s[0]] else []) + Filter(s[1..], p);
    }
  }

  lemma {:induction false} FilterIsSubseq<T>(s: seq<T>, p: T -> bool)
    ensures IsSubseq(Filter(s, p), s)
  {
    if s != [] {
      FilterIsSubseq(s[1..], p);
      if p(s[0]) {
        assert Filter(s, p)[1..] == Filter(s[1..], p);
      } else {
        assert Filter(s, p) == Filter(s[1..], p);
        SubseqOfTail(Filter(s, p), s);
      }
    }
  }

  lemma SubseqOfTail<T>(a: seq<T>, b: seq<T>)
    requires b != [] && IsSubseq(a, b[1..])
    ensures IsSubseq(a, b)
  {
  }

  lemma {:induction false} SubseqAfterPrefix<T>(a: seq<T>, b: seq<T>, c: seq<T>)
    requires IsSubseq(a, b)
    ensures IsSubseq(a, c + b)
    decreases |c|
  {
    if c != [] {
      SubseqAfterPrefix(a, b, c[1..]);
      assert (c + b)[1..] == c[1..] + b;
      SubseqOfTail(a, c + b);
    } else {
      assert c + b == b;
    }
  }

  /** Filtering with a condition every element meets changes nothing. */
  lemma {:induction false} FilterAll<T>(s: seq<T>, p: T -> bool)
    requires forall i :: 0 <= i < |s| ==> p(s[i])
    ensures Filter(s, p) == s
  {
    if s != [] {
      FilterAll(s[1..], p);
    }
  }

  /** `column.sum()` of the column f. */
  function SumBy<T>(s: seq<T>, f: T -> int): int
  {
    if s == [] then 0 else f(s[0]) + SumBy(s[1..], f)
  }

  lemma {:induction false} SumByConcat<T>(a: seq<T>, b: seq<T>, f: T -> int)
    ensures SumBy(a + b, f) == SumBy(a, f) + SumBy(b, f)
  {
    if a == [] {
      assert a + b == b;
    } else {
      assert (a + b)[0] == a[0] && (a + b)[1..] == a[1..] + b;
      SumByConcat(a[1..], b, f);
    }
  }

  /** Taking out the element at k leaves the rest of the multiset. */
  lemma MultisetRemove<T>(b: seq<T>, k: nat)
    requires k < |b|
    ensures multiset(b[..k] + b[k + 1..]) == multiset(b) - multiset{b[k]}
  {
    var pre, post := b[..k], b[k + 1..];
    assert b[k..] == [b[k]] + post;
    assert b == pre + b[k..];
    assert multiset(b) == multiset(pre) + multiset{b[k]} + multiset(post);
  }

  /** Taking out the element at k: what the sum loses. */
  lemma SumByRemove<T>(b: seq<T>, k: nat, f: T -> int)
    requires k < |b|
    ensures SumBy(b, f) == f(b[k]) + SumBy(b[..k] + b[k + 1..], f)
  {
    var pre, post := b[..k], b[k + 1..];
    assert b[k..][1..] == post;
    assert b == pre + b[k..];
    SumByConcat(pre, b[k..], f);
    SumByConcat(pre, post, f);
  }

  /** Replacing one summand changes the sum by the difference. */
  lemma SumByUpdate<T>(s: seq<T>, k: nat, v: T, f: T -> int)
    requires k < |s|
    ensures SumBy(s[k := v], f) == SumBy(s, f) - f(s[k]) + f(v)
  {
    var t := s[k := v];
    assert t[..k] + t[k + 1..] == s[..k] + s[k + 1..];
    SumByRemove(s, k, f);
    SumByRemove(t, k, f);
  }

  /** A sum does not depend on the order of the summands. */
  lemma {:induction false} SumByPermutation<T>(a: seq<T>, b: seq<T>, f: T -> int)
    requires multiset(a) == multiset(b)
    ensures SumBy(a, f) == SumBy(b, f)
    decreases |a|
  {
    if a != [] {
      var x := a[0];
      assert x in multiset(b);
      var k :| 0 <= k < |b| && b[k] == x;
      SumByRemove(b, k, f);
      MultisetRemove(b, k);
      assert a == [x] + a[1..];
      assert multiset(a[1..]) == multiset(a) - multiset{x};
      SumByPermutation(a[1..], b[..k] + b[k + 1..], f);
    }
  }

  predicate SortedDesc<T>(s: seq<T>, key: T -> int)
  {
    forall i, j :: 0 <= i < j < |s| ==> key(s[i]) >= key(s[j])
  }

  function Insert<T>(x: T, s: seq<T>, key: T -> int): (r: seq<T>)
    requires SortedDesc(s, key)
    ensures SortedDesc(r, key)
    ensures multiset(r) == multiset(s) + multiset{x}
    ensures r != [] && (r[0] == x || (s != [] && r[0] == s[0]))
  {
    if s == [] || key(x) >= key(s[0]) then
      ConsSorted(x, s, key);
      [x] + s
    else
      var rest := Insert(x, s[1..], key);
      assert s == [s[0]] + s[1..];
      ConsSorted(s[0], rest, key);
      [s[0]] + rest
  }

  lemma ConsSorted<T>(h: T, s: seq<T>, key: T -> int)
    requires SortedDesc(s, key) && (s != [] ==> key(h) >= key(s[0]))
    ensures SortedDesc([h] + s, key)
  {
    var r := [h] + s;
    forall i, j | 0 <= i < j < |r| ensures key(r[i]) >= key(r[j]) {
      assert r[j] == s[j - 1];
      if i > 0 { assert r[i] == s[i - 1]; }
    }
  }

  /** `sort_values(key, ascending=False)`: highest key first. The model fixes
      one order among equal keys; no property below depends on it. */
  function SortDesc<T>(s: seq<T>, key: T -> int): (r: seq<T>)
    ensures SortedDesc(r, key)
    ensures multiset(r) == multiset(s)
  {
    if s == [] then []
    else
      assert s == [s[0]] + s[1..];
      Insert(s[0], SortDesc(s[1..], key), key)
  }

  /** `head(n)`. */
  function Take<T>(s: seq<T>, n: nat): (r: seq<T>)
    ensures |r| <= n && r <= s
    ensures |s| <= n ==> r == s
    ensures |s| >= n ==> |r| == n
  {
    if |s| <= n then s else s[..n]
  }

  /** The first n after a descending sort: n of them (or all, if fewer),
      highest key first. */
  lemma TopNSorted<T>(s: seq<T>, key: T -> int, n: nat)
    ensures var top := Take(SortDesc(s, key), n);
      && |top| == (if |s| < n then |s| else n)
      && SortedDesc(top, key)
  {
    var sorted := SortDesc(s, key);
    assert |sorted| == |multiset(sorted)| == |multiset(s)| == |s|;
    var top := Take(sorted, n);
    forall i, j | 0 <= i < j < |top| ensures key(top[i]) >= key(top[j]) {
      assert top[i] == sorted[i] && top[j] == sorted[j];
    }
  }

  /** The first n after a descending sort are the n largest: every element
      left out has a key no larger than any element kept. */
  lemma TopN<T>(s: seq<T>, key: T -> int, n: nat)
    ensures var top := Take(SortDesc(s, key), n);
      && multiset(top) <= multiset(s)
      && forall x, y :: x in multiset(s) - multiset(top) && y in top ==> key(x) <= key(y)
  {
    var sorted := SortDesc(s, key);
    var top := Take(sorted, n);
    var m := |top|;
    assert top == sorted[..m];
    SplitSorted(sorted, key, m);
    assert multiset(s) - multiset(top) == multiset(sorted[m..]);
  }

  /** Cutting a descending sequence: the tail's keys are no larger than the head's. */
  lemma SplitSorted<T>(sorted: seq<T>, key: T -> int, m: nat)
    requires SortedDesc(sorted, key) && m <= |sorted|
    ensures multiset(sorted) == multiset(sorted[..m]) + multiset(sorted[m..])
    ensures forall x, y :: x in multiset(sorted[m..]) && y in sorted[..m] ==> key(x) <= key(y)
  {
    assert sorted == sorted[..m] + sorted[m..];
    forall x, y | x in multiset(sorted[m..]) && y in sorted[..m] ensures key(x) <= key(y) {
      var j :| m <= j < |sorted| && sorted[j] == x;
      var i :| 0 <= i < m && sorted[i] == y;
    }
  }
}
