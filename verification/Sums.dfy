/** Sums over the values of a finite map. */
module Sums {
  ghost function Sum<K>(m: map<K, int>): int
    decreases |m|
  {
    if m == map[] then 0
    else
      var k :| k in m;
      m[k] + Sum(m - {k})
  }

  /** Taking any one key out takes its value off. */
  lemma {:induction false} SumLess<K>(m: map<K, int>, k: K)
    requires k in m
    ensures Sum(m) == m[k] + Sum(m - {k})
    decreases |m|
  {
    var j :| j in m && Sum(m) == m[j] + Sum(m - {j});
    if j != k {
      SumLess(m - {j}, k);
      SumLess(m - {k}, j);
      assert (m - {j}) - {k} == (m - {k}) - {j};
    }
  }

  /** Setting a key changes the sum by the change at that key. */
  lemma SumSet<K>(m: map<K, int>, k: K, v: int)
    ensures Sum(m[k := v]) == Sum(m) + v - (if k in m then m[k] else 0)
  {
    SumLess(m[k := v], k);
    if k in m {
      SumLess(m, k);
    }
    assert m[k := v] - {k} == m - {k};
    if k !in m {
      assert m - {k} == m;
    }
  }

  lemma {:induction false} SumNonNegative<K>(m: map<K, int>)
    requires forall k <- m :: m[k] >= 0
    ensures Sum(m) >= 0
    ensures forall k <- m :: m[k] <= Sum(m)
    decreases |m|
  {
    forall k <- m
      ensures 0 <= m[k] <= Sum(m)
    {
      SumLess(m, k);
      SumNonNegative(m - {k});
    }
    if m != map[] {
      var k :| k in m;
      assert 0 <= m[k] <= Sum(m);
    }
  }

  lemma {:induction false} SumZero<K>(m: map<K, int>)
    requires forall k <- m :: m[k] == 0
    ensures Sum(m) == 0
    decreases |m|
  {
    if m != map[] {
      var k :| k in m;
      SumLess(m, k);
      SumZero(m - {k});
    }
  }
}
