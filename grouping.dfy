/** `df.groupby(key).agg({'total_price': 'sum', 'profit': 'sum'})`: one group
    per distinct key holding the two column sums. Groups are kept in order of
    first appearance; the pages re-sort them before use. */
module Grouping {
  import opened Records
  import opened Seqs

  /** A row reduced to its group key and the two summed columns. */
  datatype Tally<K> = Tally(key: K, total: int, profit: int)

  function TotalOf<K>(t: Tally<K>): int { t.total }

  function ProfitOf<K>(t: Tally<K>): int { t.profit }

  predicate DistinctKeys<K(==)>(gs: seq<Tally<K>>)
  {
    forall i, j :: 0 <= i < j < |gs| ==> gs[i].key != gs[j].key
  }

  function Keys<K>(s: seq<Tally<K>>): set<K>
  {
    set i | 0 <= i < |s| :: s[i].key
  }

  /** Sum of the `total` column over the rows whose key is k. */
  function KeyTotal<K(==)>(es: seq<Tally<K>>, k: K): int
  {
    if es == [] then 0
    else KeyTotal(es[..|es| - 1], k) + (if es[|es| - 1].key == k then es[|es| - 1].total else 0)
  }

  /** Sum of the `profit` column over the rows whose key is k. */
  function KeyProfit<K(==)>(es: seq<Tally<K>>, k: K): int
  {
    if es == [] then 0
    else KeyProfit(es[..|es| - 1], k) + (if es[|es| - 1].key == k then es[|es| - 1].profit else 0)
  }

  /** Position of the first group with key k. */
  function FindKey<K(==)>(gs: seq<Tally<K>>, k: K): (r: Option<nat>)
    ensures r.Some? ==> r.value < |gs| && gs[r.value].key == k
    ensures r.Some? ==> forall j :: 0 <= j < r.value ==> gs[j].key != k
    ensures r.None? ==> k !in Keys(gs)
  {
    if gs == [] then None
    else if gs[0].key == k then Some(0)
    else match FindKey(gs[1..], k)
      case None =>
        assert Keys(gs) == {gs[0].key} + Keys(gs[1..]) by { KeysCons(gs); }
        None
      case Some(j) => Some(j + 1)
  }

  /** Folds one row into the groups: into the group with its key, or as a new last group. */
  function AddTo<K(==)>(gs: seq<Tally<K>>, e: Tally<K>): seq<Tally<K>>
  {
    match FindKey(gs, e.key)
    case None => gs + [e]
    case Some(i) => gs[i := Tally(e.key, gs[i].total + e.total, gs[i].profit + e.profit)]
  }

  function GroupBy<K(==)>(es: seq<Tally<K>>): seq<Tally<K>>
  {
    if es == [] then [] else AddTo(GroupBy(es[..|es| - 1]), es[|es| - 1])
  }

  lemma KeyTotalAbsent<K>(es: seq<Tally<K>>, k: K)
    requires k !in Keys(es)
    ensures KeyTotal(es, k) == 0 && KeyProfit(es, k) == 0
  {
    if es != [] {
      assert Keys(es[..|es| - 1]) <= Keys(es) by {
        forall x | x in Keys(es[..|es| - 1]) ensures x in Keys(es) {
          var i :| 0 <= i < |es| - 1 && es[..|es| - 1][i].key == x;
          assert es[i].key == x;
        }
      }
      KeyTotalAbsent(es[..|es| - 1], k);
    }
  }

  /** `gs` groups the rows `es`: one group per key, each with its key's sums. */
  predicate Groups<K(==)>(gs: seq<Tally<K>>, es: seq<Tally<K>>)
  {
    && DistinctKeys(gs)
    && Keys(gs) == Keys(es)
    && forall i :: 0 <= i < |gs| ==>
         gs[i].total == KeyTotal(es, gs[i].key) && gs[i].profit == KeyProfit(es, gs[i].key)
  }

  /** Folding one more row into a grouping gives the grouping of the longer input. */
  lemma AddToGroups<K>(gs: seq<Tally<K>>, es: seq<Tally<K>>, e: Tally<K>)
    requires Groups(gs, es)
    ensures Groups(AddTo(gs, e), es + [e])
  {
    var es' := es + [e];
    assert es'[..|es'| - 1] == es && es'[|es'| - 1] == e;
    KeysAppend(es, e);
    match FindKey(gs, e.key)
    case None =>
      KeyTotalAbsent(es, e.key);
      KeysAppend(gs, e);
    case Some(i) =>
      KeysUpdate(gs, i, Tally(e.key, gs[i].total + e.total, gs[i].profit + e.profit));
  }

  /** The grouping has one group per distinct key of the input, and each
      group's sums are the sums over exactly the rows with that key. */
  lemma {:induction false} GroupByCorrect<K>(es: seq<Tally<K>>)
    ensures Groups(GroupBy(es), es)
  {
    if es != [] {
      var init := es[..|es| - 1];
      assert es == init + [es[|es| - 1]];
      GroupByCorrect(init);
      AddToGroups(GroupBy(init), init, es[|es| - 1]);
    }
  }

  /** Grouping moves every row into exactly one group, so column sums survive it. */
  lemma {:induction false} GroupByKeepsSums<K>(es: seq<Tally<K>>)
    ensures SumBy(GroupBy(es), TotalOf) == SumBy(es, TotalOf)
    ensures SumBy(GroupBy(es), ProfitOf) == SumBy(es, ProfitOf)
  {
    if es != [] {
      var init, e := es[..|es| - 1], es[|es| - 1];
      assert es == init + [e];
      GroupByKeepsSums(init);
      SumByConcat(init, [e], TotalOf);
      SumByConcat(init, [e], ProfitOf);
      var gs0 := GroupBy(init);
      match FindKey(gs0, e.key)
      case None =>
        SumByConcat(gs0, [e], TotalOf);
        SumByConcat(gs0, [e], ProfitOf);
      case Some(j) =>
        var v := Tally(e.key, gs0[j].total + e.total, gs0[j].profit + e.profit);
        SumByUpdate(gs0, j, v, TotalOf);
        SumByUpdate(gs0, j, v, ProfitOf);
    }
  }

  lemma KeysCons<K>(s: seq<Tally<K>>)
    requires s != []
    ensures Keys(s) == {s[0].key} + Keys(s[1..])
  {
    forall x | x in Keys(s) ensures x in {s[0].key} + Keys(s[1..]) {
      var i :| 0 <= i < |s| && s[i].key == x;
      if i > 0 { assert s[1..][i - 1] == s[i]; }
    }
    forall x | x in Keys(s[1..]) ensures x in Keys(s) {
      var i :| 0 <= i < |s| - 1 && s[1..][i].key == x;
      assert s[i + 1] == s[1..][i];
    }
  }

  lemma KeysAppend<K>(s: seq<Tally<K>>, x: Tally<K>)
    ensures Keys(s + [x]) == Keys(s) + {x.key}
  {
    var t := s + [x];
    forall y | y in Keys(t) ensures y in Keys(s) + {x.key} {
      var i :| 0 <= i < |t| && t[i].key == y;
      if i < |s| { assert s[i] == t[i]; }
    }
    forall y | y in Keys(s) ensures y in Keys(t) {
      var i :| 0 <= i < |s| && s[i].key == y;
      assert t[i] == s[i];
    }
    assert t[|s|] == x;
  }

  lemma KeysUpdate<K>(s: seq<Tally<K>>, i: nat, v: Tally<K>)
    requires i < |s| && v.key == s[i].key
    ensures Keys(s[i := v]) == Keys(s)
  {
    var t := s[i := v];
    forall y | y in Keys(t) ensures y in Keys(s) {
      var j :| 0 <= j < |t| && t[j].key == y;
      assert s[j].key == y;
    }
    forall y | y in Keys(s) ensures y in Keys(t) {
      var j :| 0 <= j < |s| && s[j].key == y;
      assert t[j].key == y;
    }
  }

  lemma KeysOfPermutation<K>(a: seq<Tally<K>>, b: seq<Tally<K>>)
    requires multiset(a) == multiset(b)
    ensures Keys(a) == Keys(b)
  {
    forall y | y in Keys(a) ensures y in Keys(b) {
      var i :| 0 <= i < |a| && a[i].key == y;
      assert a[i] in multiset(b);
      var j :| 0 <= j < |b| && b[j] == a[i];
    }
    forall y | y in Keys(b) ensures y in Keys(a) {
      var i :| 0 <= i < |b| && b[i].key == y;
      assert b[i] in multiset(a);
      var j :| 0 <= j < |a| && a[j] == b[i];
    }
  }

  lemma {:induction false} InsertKeepsDistinct<K>(x: Tally<K>, s: seq<Tally<K>>, key: Tally<K> -> int)
    requires SortedDesc(s, key) && DistinctKeys(s) && x.key !in Keys(s)
    ensures DistinctKeys(Insert(x, s, key))
  {
    var r := Insert(x, s, key);
    if s == [] || key(x) >= key(s[0]) {
      forall j | 0 < j < |r| ensures r[0].key != r[j].key {
        assert r[j] == s[j - 1];
      }
    } else {
      KeysCons(s);
      var rest := Insert(x, s[1..], key);
      InsertKeepsDistinct(x, s[1..], key);
      assert r == [s[0]] + rest;
      assert multiset(rest) == multiset(s[1..] + [x]);
      KeysOfPermutation(rest, s[1..] + [x]);
      KeysAppend(s[1..], x);
      forall j | 0 < j < |r| ensures r[0].key != r[j].key {
        assert r[j] == rest[j - 1];
        assert rest[j - 1].key in Keys(rest);
      }
      HeadKeyNotInTail(s);
    }
  }

  /** Sorting keeps one group per key. */
  lemma {:induction false} SortKeepsDistinct<K>(s: seq<Tally<K>>, key: Tally<K> -> int)
    requires DistinctKeys(s)
    ensures DistinctKeys(SortDesc(s, key))
  {
    if s != [] {
      SortKeepsDistinct(s[1..], key);
      var rest := SortDesc(s[1..], key);
      KeysOfPermutation(rest, s[1..]);
      HeadKeyNotInTail(s);
      InsertKeepsDistinct(s[0], rest, key);
    }
  }

  lemma HeadKeyNotInTail<K>(s: seq<Tally<K>>)
    requires s != [] && DistinctKeys(s)
    ensures s[0].key !in Keys(s[1..])
  {
    forall y | y in Keys(s[1..]) ensures y != s[0].key {
      var i :| 0 <= i < |s| - 1 && s[1..][i].key == y;
      assert s[i + 1] == s[1..][i];
    }
  }
}
