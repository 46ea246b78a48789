/** Integer division by uniqueness of quotient and remainder, and a pigeonhole principle. */
module Arithmetic {

  lemma MulAtLeast(k: int, n: int)
    requires 0 < n && 1 <= k
    ensures n <= k * n
  {
  }

  lemma ProductMonotone(a: nat, b: nat, c: nat, d: nat)
    requires a <= c && b <= d
    ensures 0 <= a * b <= c * d
  {
    assert a * b <= c * b;
    assert c * b <= c * d;
  }

  /** The quotient and the remainder are determined by `x == q * n + r`. */
  lemma DivModUnique(x: int, q: int, r: int, n: int)
    requires 0 < n && 0 <= r < n && x == q * n + r
    ensures x / n == q && x % n == r
  {
    var d := x / n - q;
    assert x == (x / n) * n + x % n;
    assert d * n == r - x % n by {
      assert (x / n - q) * n == (x / n) * n - q * n;
    }
    assert (-d) * n == -(d * n);
    if 1 <= d {
      MulAtLeast(d, n);
    } else if d <= -1 {
      MulAtLeast(-d, n);
    }
  }

  /** Remainders of a sum. */
  lemma ModSum(x: int, y: int, n: int)
    requires 0 < n
    ensures (x % n + y) % n == (x + y) % n
  {
    var z := x % n + y;
    assert x == (x / n) * n + x % n;
    assert z == (z / n) * n + z % n;
    assert x + y == (x / n + z / n) * n + z % n by {
      assert (x / n + z / n) * n == (x / n) * n + (z / n) * n;
    }
    DivModUnique(x + y, x / n + z / n, z % n, n);
  }

  /** Numbers closer than `n` with the same remainder are the same. */
  lemma SameRemainderClose(x: int, y: int, n: int)
    requires 0 < n && x % n == y % n && x <= y < x + n
    ensures x == y
  {
    ModSum(x, y - x, n);
    var z := x % n + (y - x);
    if z < n {
      DivModUnique(z, 0, z, n);
    } else {
      DivModUnique(z, 1, z - n, n);
    }
  }

  ghost function Interval(lo: int, hi: int): set<int>
    decreases hi - lo
  {
    if hi <= lo then {} else Interval(lo, hi - 1) + {hi - 1}
  }

  lemma {:induction false} InIntervalIff(lo: int, hi: int, k: int)
    ensures k in Interval(lo, hi) <==> lo <= k < hi
    decreases hi - lo
  {
    if lo < hi {
      InIntervalIff(lo, hi - 1, k);
    }
  }

  lemma {:induction false} IntervalSize(lo: int, hi: int)
    requires lo <= hi
    ensures |Interval(lo, hi)| == hi - lo
    decreases hi - lo
  {
    if lo < hi {
      IntervalSize(lo, hi - 1);
      InIntervalIff(lo, hi - 1, hi - 1);
    }
  }

  lemma {:induction false} SubsetSize<T>(a: set<T>, b: set<T>)
    requires a <= b
    ensures |a| <= |b|
  {
    if a != {} {
      var x :| x in a;
      SubsetSize(a - {x}, b - {x});
    }
  }

  ghost function Values(xs: seq<int>): set<int> {
    if xs == [] then {} else Values(xs[1..]) + {xs[0]}
  }

  lemma {:induction false} InValuesIff(xs: seq<int>, k: int)
    ensures k in Values(xs) <==> k in xs
  {
    if xs != [] {
      InValuesIff(xs[1..], k);
    }
  }

  ghost predicate DistinctIn(xs: seq<int>, lo: int, hi: int) {
    && (forall i :: 0 <= i < |xs| ==> lo <= xs[i] < hi)
    && (forall i, j :: 0 <= i < j < |xs| ==> xs[i] != xs[j])
  }

  lemma {:induction false} ValuesSize(xs: seq<int>, lo: int, hi: int)
    requires DistinctIn(xs, lo, hi)
    ensures |Values(xs)| == |xs|
  {
    if xs != [] {
      ValuesSize(xs[1..], lo, hi);
      InValuesIff(xs[1..], xs[0]);
    }
  }

  /** Distinct numbers of an interval are at most as many as the interval is long. */
  lemma Pigeonhole(xs: seq<int>, lo: int, hi: int)
    requires DistinctIn(xs, lo, hi) && lo <= hi
    ensures |xs| <= hi - lo
  {
    ValuesSize(xs, lo, hi);
    IntervalSize(lo, hi);
    forall k | k in Values(xs) ensures k in Interval(lo, hi) {
      InValuesIff(xs, k);
      InIntervalIff(lo, hi, k);
    }
    SubsetSize(Values(xs), Interval(lo, hi));
  }
}
