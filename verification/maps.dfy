/** Sums over the values of a finite map: what per-key counters add up to. */
module Maps {

  /** The sum of a map's values, taken key by key in any order. */
  ghost function SumValues<K>(m: map<K, nat>): nat
    decreases |m|
  {
    if m == map[] then 0
    else
      assert exists k :: k in m by {
        assert m.Keys != {};
      }
      var k :| k in m;
      m[k] + SumValues(m - {k})
  }

  /** Removing one key from a map removes exactly one from its size. */
  lemma RemoveOne<K>(m: map<K, nat>, k: K)
    requires k in m
    ensures |m - {k}| == |m| - 1
  {
    assert (m - {k}).Keys == m.Keys - {k};
    assert |m.Keys - {k}| == |m.Keys| - 1;
  }

  /** The sum does not depend on which key is taken first. */
  lemma {:induction false} SumValuesRemove<K>(m: map<K, nat>, k: K)
    requires k in m
    ensures SumValues(m) == m[k] + SumValues(m - {k})
    decreases |m|
  {
    assert m != map[];
    assert exists c :: c in m;
    var c :| c in m && SumValues(m) == m[c] + SumValues(m - {c});
    if c != k {
      RemoveOne(m, c);
      RemoveOne(m, k);
      SumValuesRemove(m - {c}, k);
      SumValuesRemove(m - {k}, c);
      assert (m - {c}) - {k} == (m - {k}) - {c};
    }
  }

  /** Raising one key's value by one (or adding it with value one) raises
      the sum by one. */
  lemma Increment<K>(m: map<K, nat>, k: K)
    ensures SumValues(m[k := (if k in m then m[k] else 0) + 1]) == SumValues(m) + 1
  {
    var m' := m[k := (if k in m then m[k] else 0) + 1];
    SumValuesRemove(m', k);
    assert m' - {k} == m - {k};
    if k in m {
      SumValuesRemove(m, k);
    } else {
      assert m - {k} == m;
    }
  }
}
