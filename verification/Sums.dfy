/** Sums of the amounts held in a map or a sequence. */
module Sums {
  import opened Basics

  /** The sum of all values of m, taken in an arbitrary key order. */
  ghost function Total(m: map<Key, u64>): (t: nat)
    decreases |m|
  {
    if m == map[] then 0 else
      var k: Key :| k in m;
      m[k] + Total(m - {k})
  }

  function At(m: map<Key, u64>, k: Key): u64 {
    if k in m then m[k] else 0
  }

  /** The order of summation does not matter: any key may be taken out first. */
  lemma {:induction false} TotalRemove(m: map<Key, u64>, k: Key)
    ensures Total(m) == At(m, k) + Total(m - {k})
    decreases |m|
  {
    if k !in m {
      assert m - {k} == m;
    } else {
      var j: Key :| j in m && Total(m) == m[j] + Total(m - {j});
      if j != k {
        TotalRemove(m - {j}, k);
        TotalRemove(m - {k}, j);
        assert m - {j} - {k} == m - {k} - {j};
      }
    }
  }

  lemma TotalUpdate(m: map<Key, u64>, k: Key, v: u64)
    ensures Total(m[k := v]) == Total(m) - At(m, k) + v
  {
    TotalRemove(m, k);
    TotalRemove(m[k := v], k);
    assert m[k := v] - {k} == m - {k};
  }

  lemma TotalDrop(m: map<Key, u64>, k: Key)
    ensures Total(m - {k}) == Total(m) - At(m, k)
  {
    TotalRemove(m, k);
  }

  /** No single entry, and no two distinct entries together, exceed the total. */
  lemma TotalBounds(m: map<Key, u64>, k: Key)
    ensures At(m, k) <= Total(m)
  {
    TotalRemove(m, k);
  }
}
