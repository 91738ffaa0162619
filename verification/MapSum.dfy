/** The sum of the weights in a map, for the byte limits of the registries. */
module MapSum {

  ghost function Sum<K>(m: map<K, nat>): nat {
    if m == map[] then 0
    else
      var k :| k in m;
      m[k] + Sum(m - {k})
  }

  lemma {:induction false} SumRemove<K>(m: map<K, nat>, k: K)
    requires k in m
    ensures Sum(m) == m[k] + Sum(m - {k})
    decreases |m|
  {
    var j :| j in m && Sum(m) == m[j] + Sum(m - {j});
    if j != k {
      SumRemove(m - {j}, k);
      SumRemove(m - {k}, j);
      assert m - {j} - {k} == m - {k} - {j};
    }
  }

  lemma SumUpdate<K>(m: map<K, nat>, k: K, w: nat)
    ensures Sum(m[k := w]) == Sum(m - {k}) + w
    ensures Sum(m) == Sum(m - {k}) + (if k in m then m[k] else 0)
  {
    SumRemove(m[k := w], k);
    assert m[k := w] - {k} == m - {k};
    if k in m {
      SumRemove(m, k);
    } else {
      assert m - {k} == m;
    }
  }

  lemma RemoveTogether<K>(m: map<K, nat>, k: K, keys: set<K>)
    requires k in keys
    ensures (m - {k}) - keys == m - keys
  {
  }

  lemma {:induction false} SumOfLess<K>(m: map<K, nat>, keys: set<K>)
    ensures Sum(m - keys) <= Sum(m)
    decreases |m|
  {
    if k :| k in m && k in keys {
      SumRemove(m, k);
      SumOfLess(m - {k}, keys);
      RemoveTogether(m, k, keys);
    } else {
      assert m - keys == m;
    }
  }

  function Weigh<K, V>(m: map<K, V>, weight: (K, V) -> nat): map<K, nat> {
    map k | k in m :: weight(k, m[k])
  }

  /** The weight of everything in a map. */
  ghost function Total<K, V>(m: map<K, V>, weight: (K, V) -> nat): nat {
    Sum(Weigh(m, weight))
  }

  lemma WeighUpdate<K, V>(m: map<K, V>, weight: (K, V) -> nat, k: K, v: V)
    ensures Weigh(m[k := v], weight) == Weigh(m, weight)[k := weight(k, v)]
  {
  }

  lemma WeighRemove<K, V>(m: map<K, V>, weight: (K, V) -> nat, k: K)
    ensures Weigh(m - {k}, weight) == Weigh(m, weight) - {k}
  {
  }

  lemma SizeUpdate<K, V>(m: map<K, V>, k: K, v: V)
    ensures |m[k := v]| == |m| + if k in m then 0 else 1
  {
    assert m[k := v].Keys == m.Keys + {k};
  }

  lemma TotalUpdate<K, V>(m: map<K, V>, weight: (K, V) -> nat, k: K, v: V)
    ensures Total(m[k := v], weight) == Total(m - {k}, weight) + weight(k, v)
    ensures Total(m, weight) == Total(m - {k}, weight) + if k in m then weight(k, m[k]) else 0
    ensures |m[k := v]| == |m| + if k in m then 0 else 1
  {
    SumUpdate(Weigh(m, weight), k, weight(k, v));
    WeighUpdate(m, weight, k, v);
    WeighRemove(m, weight, k);
    SizeUpdate(m, k, v);
  }

  lemma SubsetSize<T>(a: set<T>, b: set<T>)
    requires a <= b
    ensures |a| <= |b|
  {
    assert b == a + (b - a);
  }

  /** Part of a map weighs no more than the whole. */
  lemma TotalOfPart<K, V>(m: map<K, V>, part: map<K, V>, weight: (K, V) -> nat)
    requires part.Keys <= m.Keys && forall k :: k in part ==> part[k] == m[k]
    ensures |part| <= |m| && Total(part, weight) <= Total(m, weight)
  {
    SubsetSize(part.Keys, m.Keys);
    SumOfLess(Weigh(m, weight), m.Keys - part.Keys);
    assert Weigh(part, weight) == Weigh(m, weight) - (m.Keys - part.Keys);
  }

  lemma TotalOfNone<K, V>(weight: (K, V) -> nat)
    ensures Total(map[], weight) == 0
  {
    assert Weigh(map[], weight) == map[];
  }

  /** Adding up entry by entry, in any order. */
  method AddUp<K(==), V>(m: map<K, V>, weight: (K, V) -> nat) returns (total: nat)
    ensures total == Total(m, weight)
  {
    total := 0;
    var left := m;
    while left != map[]
      invariant total + Total(left, weight) == Total(m, weight)
      decreases |left|
    {
      var k :| k in left;
      SumRemove(Weigh(left, weight), k);
      WeighRemove(left, weight, k);
      total := total + weight(k, left[k]);
      left := left - {k};
    }
    TotalOfNone(weight);
  }
}
