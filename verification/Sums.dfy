/** Sums over the values of a finite map. */
module Sums {

  ghost function Sum<K(!new), V(!new)>(m: map<K, V>, f: V -> int): int {
    if m == map[] then 0
    else
      var k :| k in m;
      f(m[k]) + Sum(m - {k}, f)
  }

  lemma {:induction false} SumCut<K(!new), V(!new)>(m: map<K, V>, f: V -> int, k: K)
    requires k in m
    ensures Sum(m, f) == f(m[k]) + Sum(m - {k}, f)
  {
    var j :| j in m && Sum(m, f) == f(m[j]) + Sum(m - {j}, f);
    if j != k {
      SumCut(m - {j}, f, k);
      SumCut(m - {k}, f, j);
      assert m - {j} - {k} == m - {k} - {j};
    }
  }

  lemma SumPut<K(!new), V(!new)>(m: map<K, V>, f: V -> int, k: K, v: V)
    ensures Sum(m[k := v], f) == Sum(m - {k}, f) + f(v)
    ensures k in m ==> Sum(m[k := v], f) == Sum(m, f) - f(m[k]) + f(v)
  {
    SumCut(m[k := v], f, k);
    assert m[k := v] - {k} == m - {k};
    if k in m { SumCut(m, f, k); }
  }

  lemma {:induction false} SumNat<K(!new), V(!new)>(m: map<K, V>, f: V -> int)
    requires forall k :: k in m ==> f(m[k]) >= 0
    ensures Sum(m, f) >= 0
  {
    if m != map[] {
      var j :| j in m && Sum(m, f) == f(m[j]) + Sum(m - {j}, f);
      SumNat(m - {j}, f);
    }
  }
}
