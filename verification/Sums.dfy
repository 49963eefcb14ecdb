/** Sums over the values of a finite map, independent of enumeration order. */
module Sums {

  ghost function Sum<K>(m: map<K, real>): real
    decreases |m|
  {
    if m == map[] then 0.0
    else
      var k :| k in m;
      assert (m - {k}).Keys == m.Keys - {k};
      m[k] + Sum(m - {k})
  }

  /** Any key may be taken out first. */
  lemma {:induction false} SumExtract<K>(m: map<K, real>, k: K)
    requires k in m
    ensures Sum(m) == m[k] + Sum(m - {k})
    decreases |m|
  {
    var j :| j in m && Sum(m) == m[j] + Sum(m - {j});
    if j != k {
      assert (m - {j}).Keys == m.Keys - {j} && (m - {k}).Keys == m.Keys - {k};
      SumExtract(m - {j}, k);
      SumExtract(m - {k}, j);
      assert m - {j} - {k} == m - {k} - {j};
    }
  }

  lemma SumInsert<K>(m: map<K, real>, k: K, v: real)
    ensures k !in m ==> Sum(m[k := v]) == Sum(m) + v
    ensures k in m ==> Sum(m[k := v]) == Sum(m) - m[k] + v
  {
    SumExtract(m[k := v], k);
    if k in m {
      SumExtract(m, k);
      assert m[k := v] - {k} == m - {k};
    } else {
      assert m[k := v] - {k} == m;
    }
  }

  lemma {:induction false} SumNonNegative<K>(m: map<K, real>)
    requires forall k :: k in m ==> m[k] >= 0.0
    ensures Sum(m) >= 0.0
    ensures forall k :: k in m ==> m[k] <= Sum(m)
    decreases |m|
  {
    forall k | k in m ensures 0.0 <= m[k] <= Sum(m) {
      assert (m - {k}).Keys == m.Keys - {k};
      SumExtract(m, k);
      SumNonNegative(m - {k});
    }
    if m != map[] {
      var k :| k in m;
      assert 0.0 <= m[k] <= Sum(m);
    }
  }

  /** A sum splits over any set of keys. */
  lemma InsideGrows<K>(m: map<K, real>, keys: set<K>, j: K)
    requires j in m && j in keys
    ensures Sum(map k | k in m && k in keys :: m[k]) == m[j] + Sum(map k | k in m - {j} && k in keys :: (m - {j})[k])
    ensures (m - {j}) - keys == m - keys
  {
    var inside := map k | k in m && k in keys :: m[k];
    SumExtract(inside, j);
    assert inside - {j} == map k | k in m - {j} && k in keys :: (m - {j})[k];
  }

  lemma OutsideGrows<K>(m: map<K, real>, keys: set<K>, j: K)
    requires j in m && j !in keys
    ensures Sum(m - keys) == m[j] + Sum((m - {j}) - keys)
    ensures (map k | k in m && k in keys :: m[k]) == map k | k in m - {j} && k in keys :: (m - {j})[k]
  {
    SumExtract(m - keys, j);
    assert (m - {j}) - keys == m - keys - {j};
  }

  lemma {:induction false} SumSplit<K>(m: map<K, real>, keys: set<K>)
    ensures Sum(m) == Sum(map k | k in m && k in keys :: m[k]) + Sum(m - keys)
    decreases |m|
  {
    var inside := map k | k in m && k in keys :: m[k];
    if m == map[] {
      assert inside == map[] && m - keys == map[];
    } else {
      var j :| j in m;
      assert (m - {j}).Keys == m.Keys - {j};
      SumExtract(m, j);
      SumSplit(m - {j}, keys);
      if j in keys { InsideGrows(m, keys, j); } else { OutsideGrows(m, keys, j); }
    }
  }

  /** `n` copies of `x` added up. */
  function Repeat(n: nat, x: real): real { if n == 0 then 0.0 else x + Repeat(n - 1, x) }

  lemma {:induction false} SumConstant<K>(m: map<K, real>, c: real)
    requires forall k :: k in m ==> m[k] == c
    ensures Sum(m) == Repeat(|m|, c)
    decreases |m|
  {
    if m != map[] {
      var j :| j in m;
      RemoveOne(m, j);
      SumExtract(m, j);
      SumConstant(m - {j}, c);
    }
  }

  lemma RemoveOne<K>(m: map<K, real>, j: K)
    requires j in m
    ensures |m - {j}| == |m| - 1
  {
    assert (m - {j}).Keys == m.Keys - {j};
    assert |m.Keys - {j}| == |m.Keys| - 1;
  }
}
