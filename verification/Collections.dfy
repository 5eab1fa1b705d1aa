/** Small facts about sets and maps. */
module Collections {

  lemma {:induction false} SubsetSize<T>(a: set<T>, b: set<T>)
    requires a <= b
    ensures |a| <= |b|
    ensures |a| == |b| ==> a == b
  {
    if x :| x in a {
      SubsetSize(a - {x}, b - {x});
    }
  }

  lemma PutTwice<K, V>(m: map<K, V>, k: K, x: V, y: V)
    ensures m[k := x][k := y] == m[k := y]
  {
  }

  lemma PutsCommute<K, V>(m: map<K, V>, k: K, x: V, l: K, y: V)
    requires k != l
    ensures m[k := x][l := y] == m[l := y][k := x]
    ensures m[k := x] - {l} == (m - {l})[k := x]
  {
  }
}
