/** Finite sums. */
module Totals {
  /** The sum of the values of a map. */
  ghost function Total<K(!new)>(m: map<K, int>): int
    decreases |m|
  {
    if m == map[] then 0
    else
      var k :| k in m;
      m[k] + Total(m - {k})
  }

  /** Any key may be taken out first. */
  lemma {:induction false} TotalOut<K(!new)>(m: map<K, int>, k: K)
    requires k in m
    ensures Total(m) == m[k] + Total(m - {k})
    decreases |m|
  {
    var j :| j in m && Total(m) == m[j] + Total(m - {j});
    if j != k {
      TotalOut(m - {j}, k);
      TotalOut(m - {k}, j);
      assert (m - {j}) - {k} == (m - {k}) - {j};
    }
  }

  /** Pointwise sums add up. */
  lemma {:induction false} TotalAdd<K(!new)>(a: map<K, int>, b: map<K, int>, c: map<K, int>)
    requires a.Keys == b.Keys == c.Keys && forall k :: k in a ==> c[k] == a[k] + b[k]
    ensures Total(c) == Total(a) + Total(b)
    decreases |a|
  {
    if a.Keys == {} {
      assert a == map[] && b == map[] && c == map[];
    } else {
      var k :| k in a.Keys;
      TotalOut(a, k);
      TotalOut(b, k);
      TotalOut(c, k);
      TotalAdd(a - {k}, b - {k}, c - {k});
    }
  }

  lemma {:induction false} TotalZero<K(!new)>(m: map<K, int>)
    requires forall k :: k in m ==> m[k] == 0
    ensures Total(m) == 0
    decreases |m|
  {
    if m != map[] {
      var k :| k in m;
      TotalOut(m, k);
      TotalZero(m - {k});
    }
  }

  /** Keys with value 0 may be left out. */
  lemma {:induction false} TotalSupport<K(!new)>(m: map<K, int>, s: set<K>)
    requires forall k :: k in m && k in s ==> m[k] == 0
    ensures Total(m) == Total(m - s)
    decreases |m|
  {
    if k :| k in m && k in s {
      TotalOut(m, k);
      TotalSupport(m - {k}, s);
      assert (m - {k}) - s == m - s;
    } else {
      assert m - s == m;
    }
  }
}
