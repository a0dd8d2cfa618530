/** Finite sums over maps, used for byte accounting. */
module Sums {

  /** The total of all values of a finite map. */
  ghost function SumMap<K(!new)>(m: map<K, nat>): nat {
    if m == map[] then 0 else var k :| k in m; m[k] + SumMap(m - {k})
  }

  /** The total does not depend on which key is taken out first. */
  lemma {:induction false} SumMapRemove<K(!new)>(m: map<K, nat>, k: K)
    requires k in m
    ensures SumMap(m) == m[k] + SumMap(m - {k})
    decreases |m|
  {
    var c :| c in m && SumMap(m) == m[c] + SumMap(m - {c});
    if c != k {
      SumMapRemove(m - {c}, k);
      SumMapRemove(m - {k}, c);
      assert m - {c} - {k} == m - {k} - {c};
    }
  }

  lemma {:induction false} SumMapInsert<K(!new)>(m: map<K, nat>, k: K, v: nat)
    requires k !in m
    ensures SumMap(m[k := v]) == SumMap(m) + v
  {
    SumMapRemove(m[k := v], k);
    assert m[k := v] - {k} == m;
  }

  /** A map contained in another has no larger total. */
  lemma {:induction false} SumMapMonotone<K(!new)>(small: map<K, nat>, large: map<K, nat>)
    requires small.Keys <= large.Keys
    requires forall k | k in small :: small[k] == large[k]
    ensures SumMap(small) <= SumMap(large)
    decreases |large|
  {
    if large.Keys != small.Keys {
      var k :| k in large && k !in small;
      SumMapRemove(large, k);
      SumMapMonotone(small, large - {k});
    } else {
      assert small == large;
    }
  }
}
