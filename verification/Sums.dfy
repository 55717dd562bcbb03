/** Sums over maps, independent of any iteration order, and 32-bit wrap-around. */
module Sums {

  const TWO_TO_31: int := 0x8000_0000
  const TWO_TO_32: int := 0x1_0000_0000

  /** Conversion to Go's int32. */
  function ToInt32(x: int): (r: int)
    ensures -TWO_TO_31 <= r < TWO_TO_31
    ensures -TWO_TO_31 <= x < TWO_TO_31 ==> r == x
  {
    (x + TWO_TO_31) % TWO_TO_32 - TWO_TO_31
  }

  lemma ToInt32Add(x: int, y: int)
    ensures ToInt32(ToInt32(x) + y) == ToInt32(x + y)
  {
  }

  function Restrict<V>(m: map<string, V>, keys: set<string>): map<string, V> {
    map k | k in m && k in keys :: m[k]
  }

  /** The sum of all values. */
  ghost function SumOver(m: map<string, int>): int
    decreases |m|
  {
    if m == map[] then 0
    else
      var k :| k in m;
      m[k] + SumOver(m - {k})
  }

  /** Any key may be taken out first. */
  lemma {:induction false} SumWithout(m: map<string, int>, k: string)
    requires k in m
    ensures SumOver(m) == m[k] + SumOver(m - {k})
    decreases |m|
  {
    var j :| j in m && SumOver(m) == m[j] + SumOver(m - {j});
    if j != k {
      SumWithout(m - {j}, k);
      SumWithout(m - {k}, j);
      assert m - {j} - {k} == m - {k} - {j};
    }
  }

  lemma SumAdd(m: map<string, int>, k: string, v: int)
    requires k !in m
    ensures SumOver(m[k := v]) == SumOver(m) + v
  {
    SumWithout(m[k := v], k);
    assert m[k := v] - {k} == m;
  }

  /** One more key processed adds its value. */
  lemma SumRestrict(m: map<string, int>, done: set<string>, k: string)
    requires k in m && k !in done
    ensures SumOver(Restrict(m, done + {k})) == SumOver(Restrict(m, done)) + m[k]
  {
    assert Restrict(m, done + {k}) == Restrict(m, done)[k := m[k]];
    SumAdd(Restrict(m, done), k, m[k]);
  }

  lemma RestrictAll<V>(m: map<string, V>)
    ensures Restrict(m, m.Keys) == m && Restrict(m, {}) == map[]
  {
  }

  ghost predicate NonNegative(m: map<string, int>) {
    forall k :: k in m ==> m[k] >= 0
  }

  /** A sum of smaller, non-negative parts. */
  lemma {:induction false} SumMonotone(m: map<string, int>, n: map<string, int>)
    requires m.Keys <= n.Keys && NonNegative(n) && forall k :: k in m ==> 0 <= m[k] <= n[k]
    ensures 0 <= SumOver(m) <= SumOver(n)
    decreases |n|
  {
    if n == map[] {
      assert m == map[];
    } else {
      var k :| k in n;
      SumWithout(n, k);
      if k in m {
        SumWithout(m, k);
      } else {
        assert m - {k} == m;
      }
      SumMonotone(m - {k}, n - {k});
    }
  }

  /** Whatever order the keys come in, no partial sum overflows if the whole does not. */
  lemma PartialSumsFit(m: map<string, int>, done: set<string>)
    requires NonNegative(m) && SumOver(m) < TWO_TO_31
    ensures 0 <= SumOver(Restrict(m, done)) < TWO_TO_31
    ensures ToInt32(SumOver(Restrict(m, done))) == SumOver(Restrict(m, done))
  {
    SumMonotone(Restrict(m, done), m);
  }
}
