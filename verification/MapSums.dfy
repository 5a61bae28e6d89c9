/** Sums over the values of a finite map. */
module MapSums {

  ghost function AnyKey<K>(m: map<K, int>): (k: K)
    requires m != map[]
    ensures k in m
  {
    assert m.Keys != {};
    var k :| k in m;
    k
  }

  ghost function Sum<K>(m: map<K, int>): int
    decreases |m|
  {
    if m == map[] then 0
    else
      var k := AnyKey(m);
      m[k] + Sum(m - {k})
  }

  function Get<K>(m: map<K, int>, k: K): int
  {
    if k in m then m[k] else 0
  }

  lemma {:induction false} SumRemove<K>(m: map<K, int>, k: K)
    ensures Sum(m) == Get(m, k) + Sum(m - {k})
    decreases |m|
  {
    if k !in m {
      assert m - {k} == m;
    } else {
      var p := AnyKey(m);
      if p != k {
        SumRemove(m - {p}, k);
        SumRemove(m - {k}, p);
        assert (m - {p}) - {k} == (m - {k}) - {p};
      }
    }
  }

  lemma SumUpdate<K>(m: map<K, int>, k: K, v: int)
    ensures Sum(m[k := v]) == Sum(m) - Get(m, k) + v
  {
    SumRemove(m, k);
    SumRemove(m[k := v], k);
    assert m[k := v] - {k} == m - {k};
  }

  /** In a map of non-negative values every entry is at most the sum. */
  lemma {:induction false} EntryAtMostSum<K>(m: map<K, int>, k: K)
    requires forall x :: x in m ==> m[x] >= 0
    ensures 0 <= Get(m, k) <= Sum(m)
    decreases |m|
  {
    if m != map[] {
      var p := AnyKey(m);
      SumRemove(m, k);
      if k in m {
        EntryAtMostSum(m - {k}, k);
      } else {
        EntryAtMostSum(m - {p}, k);
      }
    }
  }
}
