/** Totals over tables: a keyed table is a map, an append-only table is a sequence. */
module Sums {

  /** The total of f over the rows of a keyed table. */
  ghost function SumMap<K, V>(m: map<K, V>, f: (K, V) -> int): int
    decreases |m|
  {
    if |m| == 0 then 0
    else
      var k := Pick(m);
      assert |m - {k}| < |m| by { Removed(m, k); }
      f(k, m[k]) + SumMap(m - {k}, f)
  }

  ghost function Pick<K, V>(m: map<K, V>): (k: K)
    requires |m| != 0
    ensures k in m
  {
    var k :| k in m;
    k
  }

  lemma Removed<K, V>(m: map<K, V>, k: K)
    requires k in m
    ensures |m - {k}| == |m| - 1
  {
    assert (m - {k}).Keys == m.Keys - {k};
    assert |m.Keys| == |m|;
  }

  /** The choice of the row SumMap takes out first does not matter. */
  lemma {:induction false} SumExtract<K, V>(m: map<K, V>, k: K, f: (K, V) -> int)
    requires k in m
    ensures SumMap(m, f) == f(k, m[k]) + SumMap(m - {k}, f)
    decreases |m|
  {
    var j := Pick(m);
    if j != k {
      Removed(m, j);
      Removed(m, k);
      var p, q := m - {j}, m - {k};
      SumExtract(p, k, f);
      SumExtract(q, j, f);
      assert p - {k} == q - {j};
    }
  }

  /** Writing one row changes a total by that row's difference. */
  lemma SumUpdate<K, V>(m: map<K, V>, k: K, v: V, f: (K, V) -> int)
    ensures SumMap(m[k := v], f) == SumMap(m, f) + f(k, v) - (if k in m then f(k, m[k]) else 0)
  {
    var n := m[k := v];
    SumExtract(n, k, f);
    if k in m {
      SumExtract(m, k, f);
      SameWithout(m, n, k);
    } else {
      assert n - {k} == m by { SameWithout(m, n, k); }
    }
  }

  lemma SameWithout<K, V>(m: map<K, V>, n: map<K, V>, k: K)
    requires k in n && n == m[k := n[k]]
    ensures n - {k} == m - {k}
    ensures k !in m ==> m - {k} == m
  {
    assert (n - {k}).Keys == (m - {k}).Keys;
    forall j | j in n - {k}
      ensures (n - {k})[j] == (m - {k})[j]
    {
      assert j != k;
    }
  }

  /** Every row of a table of non-negative values is at most the total. */
  lemma {:induction false} SumMember<K, V>(m: map<K, V>, k: K, f: (K, V) -> int)
    requires k in m
    requires forall j :: j in m ==> 0 <= f(j, m[j])
    ensures 0 <= f(k, m[k]) <= SumMap(m, f)
  {
    SumExtract(m, k, f);
    SumNonNegative(m - {k}, f);
  }

  lemma {:induction false} SumNonNegative<K, V>(m: map<K, V>, f: (K, V) -> int)
    requires forall j :: j in m ==> 0 <= f(j, m[j])
    ensures 0 <= SumMap(m, f)
    decreases |m|
  {
    if |m| != 0 {
      var k :| k in m;
      Removed(m, k);
      SumExtract(m, k, f);
      SumNonNegative(m - {k}, f);
    }
  }

  /** The total of f over an append-only table. */
  function SumSeq<T>(s: seq<T>, f: T -> int): int {
    if s == [] then 0 else SumSeq(s[..|s| - 1], f) + f(s[|s| - 1])
  }

  lemma SumAppend<T>(s: seq<T>, x: T, f: T -> int)
    ensures SumSeq(s + [x], f) == SumSeq(s, f) + f(x)
  {
    assert (s + [x])[..|s|] == s;
  }
}
