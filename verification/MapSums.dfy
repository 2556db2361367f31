/** Sums over the values of a finite map. */
module MapSums {
  ghost function Sum<K(!new)>(m: map<K, nat>): nat
    decreases |m.Keys|
  {
    if m == map[] then 0
    else
      var k :| k in m;
      assert k in m.Keys && (m - {k}).Keys == m.Keys - {k};
      m[k] + Sum(m - {k})
  }

  /** The sum does not depend on which entry is taken out first. */
  lemma {:induction false} SumWithout<K(!new)>(m: map<K, nat>, k: K)
    requires k in m
    ensures Sum(m) == m[k] + Sum(m - {k})
    decreases |m.Keys|
  {
    var c :| c in m && Sum(m) == m[c] + Sum(m - {c});
    if c != k {
      assert c in m.Keys && (m - {c}).Keys == m.Keys - {c} && (m - {k}).Keys == m.Keys - {k};
      SumWithout(m - {c}, k);
      SumWithout(m - {k}, c);
      assert m - {c} - {k} == m - {k} - {c};
    }
  }

  lemma SumUpdate<K(!new)>(m: map<K, nat>, k: K, v: nat)
    ensures Sum(m[k := v]) == v + Sum(m - {k})
  {
    SumWithout(m[k := v], k);
    assert m[k := v] - {k} == m - {k};
  }
}
