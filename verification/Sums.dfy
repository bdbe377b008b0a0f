/** Finite sums over maps and sequences, and how they react to one update. */
module Sums {

  ghost function Pick<K>(m: map<K, int>): (k: K)
    requires m != map[]
    ensures k in m
  {
    var k :| k in m; k
  }

  /** The sum of all values of a map. */
  ghost function Total<K>(m: map<K, int>): int
    decreases |m|
  {
    if m == map[] then 0
    else var k := Pick(m); m[k] + Total(m - {k})
  }

  lemma {:induction false} TotalSplit<K>(m: map<K, int>, k: K)
    requires k in m
    ensures Total(m) == m[k] + Total(m - {k})
    decreases |m|
  {
    var p := Pick(m);
    if p != k {
      TotalSplit(m - {p}, k);
      TotalSplit(m - {k}, p);
      assert (m - {p}) - {k} == (m - {k}) - {p};
    }
  }

  lemma TotalPut<K>(m: map<K, int>, k: K, v: int)
    ensures Total(m[k := v]) == Total(m) - (if k in m then m[k] else 0) + v
  {
    TotalSplit(m[k := v], k);
    assert m[k := v] - {k} == m - {k};
    if k in m {
      TotalSplit(m, k);
    } else {
      assert m - {k} == m;
    }
  }

  lemma TotalDrop<K>(m: map<K, int>, k: K)
    ensures Total(m - {k}) == Total(m) - (if k in m then m[k] else 0)
  {
    if k in m {
      TotalSplit(m, k);
    } else {
      assert m - {k} == m;
    }
  }

  ghost predicate NonNegative<K>(m: map<K, int>) {
    forall k :: k in m ==> 0 <= m[k]
  }

  lemma {:induction false} TotalNonNegative<K>(m: map<K, int>)
    requires NonNegative(m)
    ensures 0 <= Total(m)
    decreases |m|
  {
    if m != map[] {
      TotalNonNegative(m - {Pick(m)});
    }
  }

  lemma TotalCovers<K>(m: map<K, int>, k: K)
    requires NonNegative(m) && k in m
    ensures m[k] <= Total(m)
  {
    TotalSplit(m, k);
    TotalNonNegative(m - {k});
  }

  /** Summation is linear: terms `n * a - b` add up to `n` times the sum of `a` minus the sum of `b`. */
  lemma {:induction false} TotalLinear<K>(a: map<K, int>, b: map<K, int>, c: map<K, int>, n: int)
    requires a.Keys == b.Keys == c.Keys
    requires forall k :: k in a ==> c[k] == n * a[k] - b[k]
    ensures Total(c) == n * Total(a) - Total(b)
    decreases |a|
  {
    if a == map[] {
      assert b == map[] && c == map[];
    } else {
      var k := Pick(a);
      TotalLinear(a - {k}, b - {k}, c - {k}, n);
      TotalSplit(a, k);
      TotalSplit(b, k);
      TotalSplit(c, k);
      Distribute(n, a[k], Total(a - {k}));
    }
  }

  lemma Distribute(n: int, x: int, y: int)
    ensures n * (x + y) == n * x + n * y
  {
  }

  /** The sum of a sequence of numbers. */
  ghost function Sum(s: seq<int>): int {
    if s == [] then 0 else s[0] + Sum(s[1..])
  }

  lemma {:induction false} SumAppend(s: seq<int>, t: seq<int>)
    ensures Sum(s + t) == Sum(s) + Sum(t)
  {
    if s == [] {
      assert s + t == t;
    } else {
      assert (s + t)[1..] == s[1..] + t;
      SumAppend(s[1..], t);
    }
  }
}
