/**
 Finite sums. `MapSum` adds up the values of a map whatever order its keys are taken in;
 the lemmas say how one insertion, overwrite or removal moves the sum.
 */
module Sums {

  ghost function MapSum<K>(m: map<K, int>): int
    decreases |m|
  {
    if |m| == 0 then 0 else
      var k := Pick(m);
      m[k] + MapSum(m - {k})
  }

  ghost function Pick<K>(m: map<K, int>): (k: K)
    requires |m| != 0
    ensures k in m
  {
    var k :| k in m; k
  }

  /** The sum may be taken apart at any key, not only at the one `MapSum` happens to choose. */
  lemma {:induction false} MapSumAt<K>(m: map<K, int>, k: K)
    requires k in m
    ensures MapSum(m) == m[k] + MapSum(m - {k})
    decreases |m|
  {
    var c := Pick(m);
    if c != k {
      MapSumAt(m - {c}, k);
      MapSumAt(m - {k}, c);
      assert (m - {c}) - {k} == (m - {k}) - {c};
    }
  }

  lemma MapSumPut<K>(m: map<K, int>, k: K, v: int)
    ensures MapSum(m[k := v]) == MapSum(m) - (if k in m then m[k] else 0) + v
  {
    MapSumAt(m[k := v], k);
    assert m[k := v] - {k} == m - {k};
    if k in m {
      MapSumAt(m, k);
    } else {
      assert m - {k} == m;
    }
  }

  lemma MapSumDrop<K>(m: map<K, int>, k: K)
    ensures MapSum(m - {k}) == MapSum(m) - (if k in m then m[k] else 0)
  {
    if k in m {
      MapSumAt(m, k);
    } else {
      assert m - {k} == m;
    }
  }
}
