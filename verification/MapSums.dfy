/** The sum of a map's values, in any order. */
module MapSums {

  ghost function MapSum<K(!new)>(m: map<K, int>): int
    decreases |m.Keys|
  {
    if m == map[] then 0
    else
      var k :| k in m;
      RemovedIsSmaller(m, k);
      m[k] + MapSum(m - {k})
  }

  lemma RemovedIsSmaller<K(!new)>(m: map<K, int>, k: K)
    requires k in m
    ensures |(m - {k}).Keys| < |m.Keys|
  {
    assert (m - {k}).Keys == m.Keys - {k};
  }

  /** Any key may be taken out first. */
  lemma {:induction false} MapSumRemove<K(!new)>(m: map<K, int>, k: K)
    requires k in m
    ensures MapSum(m) == m[k] + MapSum(m - {k})
    decreases |m.Keys|
  {
    var j :| j in m && MapSum(m) == m[j] + MapSum(m - {j});
    if j != k {
      RemovedIsSmaller(m, k);
      RemovedIsSmaller(m, j);
      MapSumRemove(m - {j}, k);
      MapSumRemove(m - {k}, j);
      assert m - {j} - {k} == m - {k} - {j};
    }
  }

  /** A new value replaces the old one, if there was one. */
  lemma MapSumUpdate<K(!new)>(m: map<K, int>, k: K, v: int)
    ensures MapSum(m[k := v]) == MapSum(m) - (if k in m then m[k] else 0) + v
  {
    MapSumRemove(m[k := v], k);
    assert m[k := v] - {k} == m - {k};
    if k in m {
      MapSumRemove(m, k);
    } else {
      assert m - {k} == m;
    }
  }

  lemma MapSumOfNothing<K(!new)>()
    ensures var none: map<K, int> := map[]; MapSum(none) == 0
  {
  }
}
