/** Vocabulary shared by every component: optional values, sums over finite maps, subsets of a given size. */
module Common {

  datatype Option<+T> = None | Some(value: T)

  function Min(a: int, b: int): int { if a <= b then a else b }

  function Max(a: int, b: int): int { if a >= b then a else b }

  function CeilDiv(a: nat, b: nat): nat
    requires b > 0
  {
    (a + b - 1) / b
  }

  /** The sum of the values of a finite map. */
  ghost function Total<K(!new)>(m: map<K, int>): int
    decreases |m|
  {
    if m == map[] then 0
    else
      var k :| k in m;
      m[k] + Total(m - {k})
  }

  /** The sum does not depend on the order in which the keys are visited. */
  lemma {:induction false} TotalSplit<K(!new)>(m: map<K, int>, k: K)
    requires k in m
    ensures Total(m) == m[k] + Total(m - {k})
    decreases |m|
  {
    var pick :| pick in m && Total(m) == m[pick] + Total(m - {pick});
    if pick != k {
      TotalSplit(m - {pick}, k);
      TotalSplit(m - {k}, pick);
      assert m - {pick} - {k} == m - {k} - {pick};
    }
  }

  lemma TotalUpdate<K(!new)>(m: map<K, int>, k: K, v: int)
    ensures Total(m[k := v]) == Total(m) - (if k in m then m[k] else 0) + v
  {
    TotalSplit(m[k := v], k);
    assert m[k := v] - {k} == m - {k};
    if k in m {
      TotalSplit(m, k);
    } else {
      assert m - {k} == m;
    }
  }

  lemma {:induction false} TotalNonNegative<K(!new)>(m: map<K, int>)
    requires forall k :: k in m ==> m[k] >= 0
    ensures Total(m) >= 0
    ensures Total(m) == 0 ==> forall k :: k in m ==> m[k] == 0
    decreases |m|
  {
    if m != map[] {
      var pick :| pick in m && Total(m) == m[pick] + Total(m - {pick});
      TotalNonNegative(m - {pick});
      forall k | k in m && Total(m) == 0 ensures m[k] == 0 {
        if k != pick { assert (m - {pick})[k] == 0; }
      }
    }
  }

  lemma {:induction false} TotalBound<K(!new)>(m: map<K, int>, c: int)
    requires forall k :: k in m ==> m[k] <= c
    ensures Total(m) <= c * |m|
    decreases |m|
  {
    if m != map[] {
      var pick :| pick in m && Total(m) == m[pick] + Total(m - {pick});
      TotalBound(m - {pick}, c);
      assert c * (|m| - 1) == c * |m| - c;
    }
  }

  /** Every size up to that of the set is the size of one of its subsets. */
  lemma {:induction false} SubsetOfSize<T>(s: set<T>, n: nat) returns (sub: set<T>)
    requires n <= |s|
    ensures sub <= s && |sub| == n
    decreases |s|
  {
    if n == |s| {
      sub := s;
    } else {
      var x :| x in s;
      sub := SubsetOfSize(s - {x}, n);
    }
  }

  lemma SubsetCardinality<T>(a: set<T>, b: set<T>)
    requires a <= b
    ensures |a| <= |b|
    ensures |a| == |b| ==> a == b
  {
    assert |b| == |a| + |b - a| by { assert b == a + (b - a); }
  }
}
