/** Sums over the values of a map. */
module Sums {
  lemma Smaller<K, V>(m: map<K, V>, k: K)
    requires k in m
    ensures |m - {k}| < |m|
  {
    assert (m - {k}).Keys == m.Keys - {k};
  }

  ghost function SumOf<K>(m: map<K, int>): int
    decreases |m|
  {
    if m == map[] then 0 else
      var k :| k in m;
      Smaller(m, k);
      m[k] + SumOf(m - {k})
  }

  lemma {:induction false} SumPick<K>(m: map<K, int>, k: K)
    requires k in m
    ensures SumOf(m) == m[k] + SumOf(m - {k})
    decreases |m|
  {
    var first :| first in m && SumOf(m) == m[first] + SumOf(m - {first});
    if first != k {
      Smaller(m, first);
      Smaller(m, k);
      SumPick(m - {first}, k);
      SumPick(m - {k}, first);
      assert m - {first} - {k} == m - {k} - {first};
    }
  }

  lemma SumSet<K>(m: map<K, int>, k: K, v: int)
    ensures SumOf(m[k := v]) == v + SumOf(m - {k})
  {
    SumPick(m[k := v], k);
    assert m[k := v] - {k} == m - {k};
  }

  lemma SumWithout<K>(m: map<K, int>, k: K)
    ensures SumOf(m - {k}) == SumOf(m) - if k in m then m[k] else 0
  {
    if k in m {
      SumPick(m, k);
    } else {
      assert m - {k} == m;
    }
  }

  lemma SomeKey<K, V>(m: map<K, V>) returns (k: K)
    requires m != map[]
    ensures k in m
  {
    k :| k in m;
  }

  lemma {:induction false} SumMonotone(small: map<int, int>, large: map<int, int>)
    requires small.Keys == large.Keys && forall job :: job in small ==> 0 <= small[job] <= large[job]
    ensures 0 <= SumOf(small) <= SumOf(large)
    decreases |small|
  {
    if small != map[] {
      var job := SomeKey(small);
      SumPick(small, job);
      SumPick(large, job);
      Smaller(small, job);
      SumMonotone(small - {job}, large - {job});
    } else {
      assert large.Keys == {};
      assert large == map[];
    }
  }
}
