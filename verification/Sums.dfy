/** Sums over finite maps, independent of any order of the keys. */
module Sums {

  ghost function MapSum<V>(m: map<nat, V>, w: V -> nat): nat
    decreases |m|
  {
    if m == map[] then 0
    else
      var k :| k in m;
      assert |m - {k}| < |m| by { Smaller(m, k); }
      w(m[k]) + MapSum(m - {k}, w)
  }

  lemma Smaller<V>(m: map<nat, V>, k: nat)
    requires k in m
    ensures |m - {k}| == |m| - 1
  {
    assert (m - {k}).Keys == m.Keys - {k};
    assert |(m - {k}).Keys| == |m.Keys| - 1;
  }

  /** Any key may be taken out first. */
  lemma {:induction false} MapSumSplit<V>(m: map<nat, V>, w: V -> nat, k: nat)
    requires k in m
    ensures MapSum(m, w) == w(m[k]) + MapSum(m - {k}, w)
    decreases |m|
  {
    var j :| j in m && MapSum(m, w) == w(m[j]) + MapSum(m - {j}, w);
    if j != k {
      Smaller(m, j);
      Smaller(m, k);
      MapSumSplit(m - {j}, w, k);
      MapSumSplit(m - {k}, w, j);
      assert m - {j} - {k} == m - {k} - {j};
    }
  }

  lemma MapSumUpdate<V>(m: map<nat, V>, w: V -> nat, k: nat, v: V)
    ensures MapSum(m[k := v], w) + (if k in m then w(m[k]) else 0) == MapSum(m, w) + w(v)
  {
    var m' := m[k := v];
    MapSumSplit(m', w, k);
    if k in m {
      MapSumSplit(m, w, k);
      assert m' - {k} == m - {k};
    } else {
      assert m' - {k} == m;
    }
  }

  lemma {:induction false} MapSumZero<V>(m: map<nat, V>, w: V -> nat)
    requires forall k :: k in m ==> w(m[k]) == 0
    ensures MapSum(m, w) == 0
    decreases |m|
  {
    if m != map[] {
      var k :| k in m && MapSum(m, w) == w(m[k]) + MapSum(m - {k}, w);
      Smaller(m, k);
      MapSumZero(m - {k}, w);
    }
  }
}
