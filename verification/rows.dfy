/**
  The rows the ingredient query yields (`ingredient__name`,
  `ingredient__measurement_unit`, `amount`) and the grouping algebra both
  shopping-list versions are specified with: the key of each row, the
  position where a key first occurs, the keys in order of first
  occurrence, and the sum of the amounts under one key.
 */
module Rows {

  /** A row of the ingredient query, or one aggregated line of a shopping list. */
  datatype Item = Item(name: string, unit: string, amount: nat)

  /** Grouping key of the hand-written fold: the ingredient name alone. */
  function NameKey(it: Item): string {
    it.name
  }

  /** Grouping key of the grouped query: the (name, measurement unit) pair. */
  function PairKey(it: Item): (string, string) {
    (it.name, it.unit)
  }

  /** The key of every row, row by row. */
  function Keys<K>(rows: seq<Item>, key: Item -> K): (ks: seq<K>)
    ensures |ks| == |rows|
    ensures forall i :: 0 <= i < |rows| ==> ks[i] == key(rows[i])
  {
    seq(|rows|, i requires 0 <= i < |rows| => key(rows[i]))
  }

  lemma KeysOfPrefix<K>(rows: seq<Item>, key: Item -> K, n: nat)
    requires n <= |rows|
    ensures Keys(rows[..n], key) == Keys(rows, key)[..n]
  {
  }

  /** Sum of all amounts. */
  function Sum(rows: seq<Item>): nat
    decreases |rows|
  {
    if |rows| == 0 then 0 else Sum(rows[..|rows| - 1]) + rows[|rows| - 1].amount
  }

  /** Sum of the amounts of the rows whose key is `k`. */
  function Total<K(==)>(rows: seq<Item>, key: Item -> K, k: K): nat
    decreases |rows|
  {
    if |rows| == 0 then 0
    else Total(rows[..|rows| - 1], key, k) + (if key(rows[|rows| - 1]) == k then rows[|rows| - 1].amount else 0)
  }

  predicate Distinct<K(==)>(ks: seq<K>) {
    forall i, j :: 0 <= i < j < |ks| ==> ks[i] != ks[j]
  }

  /** No two rows share a key. */
  predicate DistinctKeys<K(==)>(rows: seq<Item>, key: Item -> K) {
    forall i, j :: 0 <= i < j < |rows| ==> key(rows[i]) != key(rows[j])
  }

  predicate AllPositive(rows: seq<Item>) {
    forall i :: 0 <= i < |rows| ==> rows[i].amount >= 1
  }

  /** The position of the first occurrence of `k`. */
  function FirstIndex<K(==)>(ks: seq<K>, k: K): (i: nat)
    requires k in ks
    ensures i < |ks| && ks[i] == k
    ensures k !in ks[..i]
    decreases |ks|
  {
    if ks[0] == k then 0
    else
      var i := 1 + FirstIndex(ks[1..], k);
      assert ks[..i] == [ks[0]] + ks[1..][..i - 1];
      i
  }

  /** A key that occurs in a prefix first occurs at the same position in the whole. */
  lemma FirstIndexOfPrefix<K>(ks: seq<K>, k: K, n: nat)
    requires n <= |ks|
    requires k in ks[..n]
    ensures k in ks
    ensures FirstIndex(ks[..n], k) == FirstIndex(ks, k)
  {
    var i := FirstIndex(ks[..n], k);
    var j := FirstIndex(ks, k);
    assert ks[..n][..i] == ks[..i];
    assert ks[..n][i] == ks[i];
    assert j <= i by {
      assert ks[i] == k;
    }
    assert ks[..n][j] == ks[j];
  }

  /** A key new at position `n` first occurs there. */
  lemma FirstIndexNew<K>(ks: seq<K>, n: nat)
    requires n < |ks|
    requires ks[n] !in ks[..n]
    ensures FirstIndex(ks, ks[n]) == n
  {
    var j := FirstIndex(ks, ks[n]);
    assert ks[..n + 1][j] == ks[j];
    assert j <= n by {
      assert ks[n] == ks[n];
    }
    assert ks[..n][..j] == ks[..j];
  }

  /** The keys of `ks`, each once, in the order of their first occurrence. */
  function FirstOccurrences<K(==,!new)>(ks: seq<K>): (occ: seq<K>)
    ensures Distinct(occ)
    ensures forall k :: k in occ <==> k in ks
    decreases |ks|
  {
    if |ks| == 0 then []
    else
      var n := |ks| - 1;
      var occ := FirstOccurrences(ks[..n]);
      assert forall k :: k in ks <==> k in ks[..n] || k == ks[n] by {
        assert ks == ks[..n] + [ks[n]];
      }
      if ks[n] in ks[..n] then occ else occ + [ks[n]]
  }

  /** Keys are listed in the order of the positions where they first occur. */
  lemma {:induction false} FirstOccurrencesOrdered<K(!new)>(ks: seq<K>)
    ensures forall i, j :: 0 <= i < j < |FirstOccurrences(ks)| ==>
              FirstIndex(ks, FirstOccurrences(ks)[i]) < FirstIndex(ks, FirstOccurrences(ks)[j])
    decreases |ks|
  {
    if |ks| > 0 {
      var n := |ks| - 1;
      var prefix := ks[..n];
      var occ := FirstOccurrences(prefix);
      FirstOccurrencesOrdered(prefix);
      var all := FirstOccurrences(ks);
      var added := ks[n] !in prefix;
      if added {
        FirstIndexNew(ks, n);
      }
      assert all == if added then occ + [ks[n]] else occ;
      forall i, j | 0 <= i < j < |all|
        ensures FirstIndex(ks, all[i]) < FirstIndex(ks, all[j])
      {
        assert all[i] == occ[i] && occ[i] in prefix;
        FirstIndexOfPrefix(ks, occ[i], n);
        if j < |occ| {
          assert all[j] == occ[j] && occ[j] in prefix;
          FirstIndexOfPrefix(ks, occ[j], n);
          assert FirstIndex(prefix, occ[i]) < FirstIndex(prefix, occ[j]);
        } else {
          assert all[j] == ks[n];
          assert FirstIndex(prefix, occ[i]) < n;
          assert added;
          assert FirstIndex(ks, ks[n]) == n;
        }
      }
    }
  }

  /** Sum over `ks` of the total of each key. */
  function SumOfTotals<K(==)>(ks: seq<K>, rows: seq<Item>, key: Item -> K): nat
    decreases |ks|
  {
    if |ks| == 0 then 0 else SumOfTotals(ks[..|ks| - 1], rows, key) + Total(rows, key, ks[|ks| - 1])
  }

  lemma {:induction false} SumOfTotalsSnoc<K>(ks: seq<K>, rows: seq<Item>, key: Item -> K)
    requires |rows| > 0
    requires Distinct(ks)
    ensures var n := |rows| - 1;
            SumOfTotals(ks, rows, key)
            == SumOfTotals(ks, rows[..n], key) + (if key(rows[n]) in ks then rows[n].amount else 0)
    decreases |ks|
  {
    if |ks| > 0 {
      var m := |ks| - 1;
      assert Distinct(ks[..m]);
      SumOfTotalsSnoc(ks[..m], rows, key);
      var n := |rows| - 1;
      assert ks == ks[..m] + [ks[m]];
      assert key(rows[n]) in ks <==> key(rows[n]) == ks[m] || key(rows[n]) in ks[..m];
      assert key(rows[n]) == ks[m] ==> key(rows[n]) !in ks[..m];
    }
  }

  lemma {:induction false} SumOfTotalsEmpty<K>(ks: seq<K>, rows: seq<Item>, key: Item -> K)
    requires |rows| == 0
    ensures SumOfTotals(ks, rows, key) == 0
    decreases |ks|
  {
    if |ks| > 0 {
      SumOfTotalsEmpty(ks[..|ks| - 1], rows, key);
    }
  }

  /**
    Grouping loses and duplicates nothing: when every row's key is among
    the distinct keys `ks`, the group totals add up to the sum of all rows.
   */
  lemma {:induction false} TotalsPartitionSum<K>(ks: seq<K>, rows: seq<Item>, key: Item -> K)
    requires Distinct(ks)
    requires forall i :: 0 <= i < |rows| ==> key(rows[i]) in ks
    ensures SumOfTotals(ks, rows, key) == Sum(rows)
    decreases |rows|
  {
    if |rows| == 0 {
      SumOfTotalsEmpty(ks, rows, key);
    } else {
      var n := |rows| - 1;
      SumOfTotalsSnoc(ks, rows, key);
      assert forall i :: 0 <= i < n ==> rows[..n][i] == rows[i];
      TotalsPartitionSum(ks, rows[..n], key);
    }
  }

  /** A list carrying the totals of `ks`, key by key, sums to the sum of those totals. */
  lemma {:induction false} SumOfListedTotals<K>(items: seq<Item>, ks: seq<K>, rows: seq<Item>, key: Item -> K)
    requires |items| == |ks|
    requires forall i :: 0 <= i < |items| ==> items[i].amount == Total(rows, key, ks[i])
    ensures Sum(items) == SumOfTotals(ks, rows, key)
    decreases |items|
  {
    if |items| > 0 {
      var n := |items| - 1;
      assert forall i :: 0 <= i < n ==> items[..n][i] == items[i] && ks[..n][i] == ks[i];
      SumOfListedTotals(items[..n], ks[..n], rows, key);
    }
  }

  /** The sum splits off the first row as well as the last. */
  lemma {:induction false} SumCons(x: Item, rows: seq<Item>)
    ensures Sum([x] + rows) == x.amount + Sum(rows)
    decreases |rows|
  {
    if |rows| > 0 {
      var n := |rows| - 1;
      assert ([x] + rows)[..n + 1] == [x] + rows[..n];
      SumCons(x, rows[..n]);
    }
  }

  lemma SumFirst(rows: seq<Item>)
    requires |rows| > 0
    ensures Sum(rows) == rows[0].amount + Sum(rows[1..])
  {
    assert rows == [rows[0]] + rows[1..];
    SumCons(rows[0], rows[1..]);
  }

  /** A key that occurs has a total of at least 1 when every amount is at least 1. */
  lemma {:induction false} TotalPositive<K>(rows: seq<Item>, key: Item -> K, k: K)
    requires AllPositive(rows)
    requires k in Keys(rows, key)
    ensures Total(rows, key, k) >= 1
    decreases |rows|
  {
    var n := |rows| - 1;
    if key(rows[n]) != k {
      var i :| 0 <= i < |rows| && Keys(rows, key)[i] == k;
      assert rows[..n][i] == rows[i];
      assert Keys(rows[..n], key)[i] == k;
      TotalPositive(rows[..n], key, k);
    }
  }

  /** A key that does not occur has a total of 0. */
  lemma {:induction false} TotalAbsent<K>(rows: seq<Item>, key: Item -> K, k: K)
    requires k !in Keys(rows, key)
    ensures Total(rows, key, k) == 0
    decreases |rows|
  {
    if |rows| > 0 {
      var n := |rows| - 1;
      KeysOfPrefix(rows, key, n);
      TotalAbsent(rows[..n], key, k);
    }
  }

  /** One more row adds its amount to the total of its own key only. */
  lemma TotalStep<K>(rows: seq<Item>, key: Item -> K, k: nat, c: K)
    requires k < |rows|
    ensures Total(rows[..k + 1], key, c) == Total(rows[..k], key, c) + (if key(rows[k]) == c then rows[k].amount else 0)
  {
    assert rows[..k + 1][..k] == rows[..k];
  }
}
