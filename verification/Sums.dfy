/** Sums over finite maps and cardinality facts about finite sets. */
module Sums {

  /** The sum of all values of a finite map. */
  ghost function Sum<K>(m: map<K, int>): int
    decreases |m|
  {
    if m == map[] then 0
    else
      var k :| k in m;
      m[k] + Sum(m - {k})
  }

  /** Any key may be split off first, not only the one the definition happens to pick. */
  lemma {:induction false} SumSplit<K>(m: map<K, int>, k: K)
    requires k in m
    ensures Sum(m) == m[k] + Sum(m - {k})
    decreases |m|
  {
    var first :| first in m && Sum(m) == m[first] + Sum(m - {first});
    if first != k {
      SumSplit(m - {first}, k);
      SumSplit(m - {k}, first);
      assert m - {first} - {k} == m - {k} - {first};
    }
  }

  lemma {:induction false} SumUpdate<K>(m: map<K, int>, k: K, v: int)
    ensures Sum(m[k := v]) == Sum(m) + v - (if k in m then m[k] else 0)
  {
    SumSplit(m[k := v], k);
    if k in m {
      SumSplit(m, k);
      assert m[k := v] - {k} == m - {k};
    } else {
      assert m[k := v] - {k} == m;
    }
  }

  /**
   * Changing some entries downwards and adding new ones of value at most four: every key of `lowered` costs the sum
   * at least one.
   */
  lemma {:induction false} SumLowered<K>(a: map<K, int>, b: map<K, int>, lowered: set<K>)
    requires a.Keys <= b.Keys && lowered <= a.Keys
    requires forall k | k in a :: b[k] <= a[k] - if k in lowered then 1 else 0
    requires forall k | k in b && k !in a :: b[k] <= 4
    ensures Sum(b) + |lowered| <= Sum(a) + 4 * (|b.Keys| - |a.Keys|)
    decreases |b|
  {
    if b.Keys == {} {
      assert a == map[] && b == map[];
    } else {
      var k :| k in b;
      SumSplit(b, k);
      var b' := b - {k};
      assert |b'.Keys| == |b.Keys - {k}| == |b| - 1;
      if k in a {
        SumSplit(a, k);
        var a' := a - {k};
        assert |a'.Keys| == |a.Keys - {k}| == |a| - 1;
        SumLowered(a', b', lowered - {k});
        if k in lowered {
          assert |lowered - {k}| == |lowered| - 1;
        } else {
          assert lowered - {k} == lowered;
        }
      } else {
        SumLowered(a, b', lowered);
      }
    }
  }

  lemma {:induction false} SumNonNegative<K>(m: map<K, int>)
    requires forall k | k in m :: m[k] >= 0
    ensures Sum(m) >= 0
    decreases |m|
  {
    if m != map[] {
      var k :| k in m;
      SumSplit(m, k);
      assert (m - {k}).Keys == m.Keys - {k};
      SumNonNegative(m - {k});
    }
  }

  /** A set that maps injectively into another is no larger. */
  lemma {:induction false} InjectionBound<A, B>(domain: set<A>, f: map<A, B>, codomain: set<B>)
    requires domain <= f.Keys
    requires forall x | x in domain :: f[x] in codomain
    requires forall x, y | x in domain && y in domain && f[x] == f[y] :: x == y
    ensures |domain| <= |codomain|
    decreases domain
  {
    if domain != {} {
      var x :| x in domain;
      InjectionBound(domain - {x}, f, codomain - {f[x]});
      assert |domain - {x}| == |domain| - 1;
    }
  }
}
