/** Sums of the values of a finite map, independent of the order of its keys. */
module Sums {

  ghost function Sum<K>(m: map<K, int>): int
    decreases |m|
  {
    if m == map[] then 0
    else
      var k :| k in m;
      m[k] + Sum(m - {k})
  }

  /** Any key may be taken out first. */
  lemma {:induction false} Without<K>(m: map<K, int>, k: K)
    requires k in m
    ensures Sum(m) == m[k] + Sum(m - {k})
    decreases |m|
  {
    var j :| j in m && Sum(m) == m[j] + Sum(m - {j});
    if j != k {
      Without(m - {j}, k);
      Without(m - {k}, j);
      assert m - {j} - {k} == m - {k} - {j};
    }
  }

  lemma With<K>(m: map<K, int>, k: K, v: int)
    requires k !in m
    ensures Sum(m[k := v]) == Sum(m) + v
  {
    Without(m[k := v], k);
    assert m[k := v] - {k} == m;
  }

  lemma UnionWithout<K>(a: map<K, int>, b: map<K, int>, k: K)
    requires a.Keys !! b.Keys && k in a
    ensures (a + b) - {k} == (a - {k}) + b
    ensures (a + b)[k] == a[k]
  {
    var l, r := (a + b) - {k}, (a - {k}) + b;
    assert k !in b;
    assert l.Keys == r.Keys;
    assert forall x | x in l :: l[x] == r[x];
  }

  lemma {:induction false} Union<K>(a: map<K, int>, b: map<K, int>)
    requires a.Keys !! b.Keys
    ensures Sum(a + b) == Sum(a) + Sum(b)
    decreases |a|
  {
    if a == map[] {
      assert a + b == b;
    } else {
      var k :| k in a;
      Without(a, k);
      Union(a - {k}, b);
      UnionWithout(a, b, k);
      Without(a + b, k);
    }
  }

  lemma {:induction false} NonNegative<K>(m: map<K, int>)
    requires forall k | k in m :: 0 <= m[k]
    ensures 0 <= Sum(m)
    decreases |m|
  {
    if m != map[] {
      var k :| k in m;
      Without(m, k);
      NonNegative(m - {k});
    }
  }

  /** Pointwise domination over a larger set of keys. */
  lemma {:induction false} Monotone<K>(a: map<K, int>, b: map<K, int>)
    requires a.Keys <= b.Keys
    requires forall k | k in a :: a[k] <= b[k]
    requires forall k | k in b && k !in a :: 0 <= b[k]
    ensures Sum(a) <= Sum(b)
    decreases |b|
  {
    if b != map[] {
      var k :| k in b;
      Without(b, k);
      if k in a {
        Without(a, k);
        Monotone(a - {k}, b - {k});
      } else {
        Monotone(a, b - {k});
      }
    }
  }
}
