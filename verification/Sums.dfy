/** Sums over the values of a finite map. */
module Sums {

  ghost function Sum<K, V>(m: map<K, V>, weight: V -> int): int {
    if m == map[] then 0
    else var k :| k in m; weight(m[k]) + Sum(m - {k}, weight)
  }

  /** Any key may be taken out first. */
  lemma {:induction false} SumTakeOut<K, V>(m: map<K, V>, weight: V -> int, k: K)
    requires k in m
    ensures Sum(m, weight) == weight(m[k]) + Sum(m - {k}, weight)
    decreases |m|
  {
    var first :| first in m && Sum(m, weight) == weight(m[first]) + Sum(m - {first}, weight);
    if first != k {
      SumTakeOut(m - {first}, weight, k);
      SumTakeOut(m - {k}, weight, first);
      assert m - {first} - {k} == m - {k} - {first};
    }
  }

  /** Writing one entry changes the sum by the difference of that entry's weights. */
  lemma SumUpdate<K, V>(m: map<K, V>, weight: V -> int, k: K, v: V)
    ensures Sum(m[k := v], weight)
         == Sum(m, weight) + weight(v) - (if k in m then weight(m[k]) else 0)
  {
    SumTakeOut(m[k := v], weight, k);
    assert m[k := v] - {k} == m - {k};
    if k in m {
      SumTakeOut(m, weight, k);
    } else {
      assert m - {k} == m;
    }
  }

  lemma {:induction false} SumIsNonNegative<K, V>(m: map<K, V>, weight: V -> int)
    requires forall k :: k in m ==> weight(m[k]) >= 0
    ensures Sum(m, weight) >= 0
    ensures forall k :: k in m ==> Sum(m, weight) >= weight(m[k])
    decreases |m|
  {
    if m != map[] {
      forall k | k in m
        ensures Sum(m, weight) >= weight(m[k]) >= 0
      {
        SumTakeOut(m, weight, k);
        SumIsNonNegative(m - {k}, weight);
      }
      var k :| k in m;
      assert Sum(m, weight) >= weight(m[k]);
    }
  }
}
