/** Sums over finite maps, independent of any enumeration order. */
module Sums {

  ghost function Total<K(!new)>(m: map<K, int>): int {
    if m == map[] then 0 else
      var k :| k in m;
      m[k] + Total(m - {k})
  }

  lemma {:induction false} TotalRemove<K(!new)>(m: map<K, int>, k: K)
    requires k in m
    ensures Total(m) == m[k] + Total(m - {k})
    decreases |m|
  {
    var j :| j in m && Total(m) == m[j] + Total(m - {j});
    if j != k {
      TotalRemove(m - {j}, k);
      TotalRemove(m - {k}, j);
      assert m - {j} - {k} == m - {k} - {j};
    }
  }

  lemma TotalUpdate<K(!new)>(m: map<K, int>, k: K, v: int)
    ensures Total(m[k := v]) == Total(m) - (if k in m then m[k] else 0) + v
  {
    TotalRemove(m[k := v], k);
    assert m[k := v] - {k} == m - {k};
    if k in m {
      TotalRemove(m, k);
    } else {
      assert m - {k} == m;
    }
  }

  lemma {:induction false} TotalBounds<K(!new)>(m: map<K, int>, k: K)
    requires forall j | j in m :: 0 <= m[j]
    ensures 0 <= Total(m)
    ensures k in m ==> m[k] <= Total(m)
    decreases |m|
  {
    if k in m {
      TotalRemove(m, k);
      TotalBounds(m - {k}, k);
    } else if m != map[] {
      var j :| j in m;
      TotalRemove(m, j);
      TotalBounds(m - {j}, k);
    }
  }
}
