/** Totals of integer-valued maps; a missing key counts as zero. */
module Sums {

  function At<K(==)>(m: map<K, int>, k: K): int {
    if k in m then m[k] else 0
  }

  ghost function Sum<K>(m: map<K, int>): int
    decreases |m|
  {
    if m == map[] then 0
    else
      var k :| k in m;
      m[k] + Sum(m - {k})
  }

  lemma {:induction false} SumRemove<K>(m: map<K, int>, k: K)
    requires k in m
    ensures Sum(m) == m[k] + Sum(m - {k})
    decreases |m|
  {
    var j :| j in m && Sum(m) == m[j] + Sum(m - {j});
    if j != k {
      SumRemove(m - {j}, k);
      SumRemove(m - {k}, j);
      assert m - {j} - {k} == m - {k} - {j};
    }
  }

  lemma {:induction false} SumUpdate<K>(m: map<K, int>, k: K, x: int)
    ensures Sum(m[k := x]) == Sum(m) - At(m, k) + x
  {
    var m' := m[k := x];
    SumRemove(m', k);
    assert m' - {k} == m - {k};
    if k in m {
      SumRemove(m, k);
    } else {
      assert m - {k} == m;
    }
  }

  lemma {:induction false} SumZero<K>(m: map<K, int>)
    requires forall k :: k in m ==> m[k] == 0
    ensures Sum(m) == 0
    decreases |m|
  {
    if m != map[] {
      var k :| k in m;
      SumRemove(m, k);
      SumZero(m - {k});
    }
  }

  /** With no negative entry, every entry is at most the sum. */
  lemma {:induction false} SumCovers<K>(m: map<K, int>, k: K)
    requires forall j :: j in m ==> m[j] >= 0
    ensures 0 <= At(m, k) <= Sum(m)
    decreases |m|
  {
    if m != map[] {
      var j :| j in m && (k in m ==> j == k);
      SumRemove(m, j);
      SumCovers(m - {j}, j);
    }
  }
}
