/** Sums over finite maps, with the laws needed for byte accounting. */
module MapSums {

  ghost function Sum<K(!new)>(m: map<K, int>): int
    decreases |m|
  {
    if m == map[] then 0
    else
      var k :| k in m;
      m[k] + Sum(m - {k})
  }

  /** The sum does not depend on which key is taken first. */
  lemma {:induction false} SumRemove<K(!new)>(m: map<K, int>, k: K)
    requires k in m
    ensures Sum(m) == m[k] + Sum(m - {k})
    decreases |m|
  {
    var d :| d in m && Sum(m) == m[d] + Sum(m - {d});
    if d != k {
      var a, b := m - {d}, m - {k};
      SumRemove(a, k);
      SumRemove(b, d);
      assert a - {k} == b - {d};
    }
  }

  lemma SumSet<K(!new)>(m: map<K, int>, k: K, v: int)
    ensures Sum(m[k := v]) == Sum(m) + v - (if k in m then m[k] else 0)
  {
    var n := m[k := v];
    SumRemove(n, k);
    if k in m {
      SumRemove(m, k);
      assert n - {k} == m - {k};
    } else {
      assert n - {k} == m;
    }
  }

  lemma {:induction false} SumNonNegative<K(!new)>(m: map<K, int>)
    requires forall k :: k in m ==> m[k] >= 0
    ensures Sum(m) >= 0
    ensures forall k :: k in m ==> m[k] <= Sum(m)
    decreases |m|
  {
    forall k | k in m
      ensures Sum(m) >= 0 && m[k] <= Sum(m)
    {
      SumNonNegative(m - {k});
      SumRemove(m, k);
    }
  }
}
