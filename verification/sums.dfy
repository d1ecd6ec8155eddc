/** Totals over finite maps, for counters and term frequencies. */
module Sums {
  ghost function Total<K>(m: map<K, nat>): nat
    decreases |m|
  {
    if m == map[] then 0 else
      var k :| k in m;
      assert (m - {k}).Keys == m.Keys - {k};
      m[k] + Total(m - {k})
  }

  /** The total does not depend on the order in which the entries are taken. */
  lemma {:induction false} TotalRemove<K>(m: map<K, nat>, k: K)
    requires k in m
    ensures Total(m) == m[k] + Total(m - {k})
    decreases |m|
  {
    var j :| j in m && Total(m) == m[j] + Total(m - {j});
    assert (m - {j}).Keys == m.Keys - {j} && (m - {k}).Keys == m.Keys - {k};
    if j != k {
      TotalRemove(m - {j}, k);
      TotalRemove(m - {k}, j);
      assert m - {j} - {k} == m - {k} - {j};
    }
  }

  lemma TotalUpdate<K>(m: map<K, nat>, k: K, v: nat)
    ensures Total(m[k := v]) == (if k in m then Total(m) - m[k] else Total(m)) + v
  {
    TotalRemove(m[k := v], k);
    assert m[k := v] - {k} == m - {k};
    if k in m { TotalRemove(m, k); } else { assert m - {k} == m; }
  }

  lemma TotalDrop<K>(m: map<K, nat>, k: K)
    ensures Total(m - {k}) == if k in m then Total(m) - m[k] else Total(m)
  {
    if k in m { TotalRemove(m, k); } else { assert m - {k} == m; }
  }

  lemma TotalAtLeast<K>(m: map<K, nat>, k: K)
    requires k in m
    ensures m[k] <= Total(m)
  {
    TotalRemove(m, k);
  }
}
