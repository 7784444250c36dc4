/** Sums over finite maps, with the facts every balance argument needs, and over sequences. */
module Sums {
  ghost function Sum<K, V>(m: map<K, V>, weight: (K, V) -> int): int
    decreases |m|
  {
    if m == map[] then 0
    else
      var k :| k in m;
      weight(k, m[k]) + Sum(m - {k}, weight)
  }

  /** The sum does not depend on the order in which entries are taken out. */
  lemma {:induction false} SumTakeOut<K, V>(m: map<K, V>, k: K, weight: (K, V) -> int)
    requires k in m
    ensures Sum(m, weight) == weight(k, m[k]) + Sum(m - {k}, weight)
    decreases |m|
  {
    var first :| first in m && Sum(m, weight) == weight(first, m[first]) + Sum(m - {first}, weight);
    if first != k {
      SumTakeOut(m - {first}, k, weight);
      SumTakeOut(m - {k}, first, weight);
      assert m - {first} - {k} == m - {k} - {first};
    }
  }

  lemma SumUpdate<K, V>(m: map<K, V>, k: K, v: V, weight: (K, V) -> int)
    ensures Sum(m[k := v], weight) == Sum(m, weight) - (if k in m then weight(k, m[k]) else 0) + weight(k, v)
  {
    SumTakeOut(m[k := v], k, weight);
    assert m[k := v] - {k} == m - {k};
    if k in m {
      SumTakeOut(m, k, weight);
    } else {
      assert m - {k} == m;
    }
  }

  lemma {:induction false} SumAtLeast<K, V>(m: map<K, V>, k: K, weight: (K, V) -> int)
    requires forall j | j in m :: 0 <= weight(j, m[j])
    ensures 0 <= Sum(m, weight)
    ensures k in m ==> weight(k, m[k]) <= Sum(m, weight)
    decreases |m|
  {
    if k in m {
      SumTakeOut(m, k, weight);
      SumAtLeast(m - {k}, k, weight);
    } else if m != map[] {
      var j :| j in m;
      SumTakeOut(m, j, weight);
      SumAtLeast(m - {j}, k, weight);
    }
  }

  /** Two maps that weigh the same entry by entry have the same sum. */
  lemma {:induction false} SumSame<K, V, W>(m: map<K, V>, m': map<K, W>, weight: (K, V) -> int, weight': (K, W) -> int)
    requires m.Keys == m'.Keys
    requires forall k | k in m :: weight(k, m[k]) == weight'(k, m'[k])
    ensures Sum(m, weight) == Sum(m', weight')
    decreases |m|
  {
    if m == map[] {
      assert m' == map[];
    } else {
      var k :| k in m;
      SumTakeOut(m, k, weight);
      SumTakeOut(m', k, weight');
      SumSame(m - {k}, m' - {k}, weight, weight');
    }
  }

  /** The sum of a sequence. */
  function SumOf(x: seq<int>): int
  {
    if x == [] then 0 else x[0] + SumOf(x[1..])
  }

  lemma {:induction false} SumOfAppend(x: seq<int>, n: int)
    ensures SumOf(x + [n]) == SumOf(x) + n
  {
    if x == [] {
      assert x + [n] == [n];
    } else {
      SumOfAppend(x[1..], n);
      assert (x + [n])[1..] == x[1..] + [n];
    }
  }

  lemma {:induction false} SumOfNats(x: seq<nat>)
    ensures 0 <= SumOf(x)
  {
    if x != [] {
      SumOfNats(x[1..]);
    }
  }
}
