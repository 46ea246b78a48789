/** Sums over a sequence of thread states. A step of one thread replaces one element, so every
    counting invariant in this project is maintained by `SumUpdate`. */
module Counting {

  ghost function Sum<A>(s: seq<A>, f: A -> int): int {
    if s == [] then 0 else f(s[0]) + Sum(s[1..], f)
  }

  lemma {:induction false} SumUpdate<A>(s: seq<A>, i: nat, x: A, f: A -> int)
    requires i < |s|
    ensures Sum(s[i := x], f) == Sum(s, f) - f(s[i]) + f(x)
  {
    var u := s[i := x];
    if i == 0 {
      assert u[1..] == s[1..];
    } else {
      assert u[1..] == s[1..][i - 1 := x];
      SumUpdate(s[1..], i - 1, x, f);
    }
  }

  /** One element of a sum of non-negative terms never exceeds the sum. */
  lemma {:induction false} SumAtLeast<A(!new)>(s: seq<A>, i: nat, f: A -> int)
    requires i < |s|
    requires forall a :: 0 <= f(a)
    ensures f(s[i]) <= Sum(s, f)
  {
    SumNonNegative(s[1..], f);
    if i != 0 {
      SumAtLeast(s[1..], i - 1, f);
    }
  }

  /** Two distinct elements of a sum of non-negative terms together never exceed the sum. */
  lemma SumAtLeastTwo<A(!new)>(s: seq<A>, i: nat, j: nat, f: A -> int)
    requires i < |s| && j < |s| && i != j
    requires forall a :: 0 <= f(a)
    ensures f(s[i]) + f(s[j]) <= Sum(s, f)
  {
    if i == 0 {
      SumAtLeast(s[1..], j - 1, f);
    } else if j == 0 {
      SumAtLeast(s[1..], i - 1, f);
    } else {
      SumAtLeastTwo(s[1..], i - 1, j - 1, f);
    }
  }

  lemma {:induction false} SumNonNegative<A(!new)>(s: seq<A>, f: A -> int)
    requires forall a :: 0 <= f(a)
    ensures 0 <= Sum(s, f)
  {
    if s != [] {
      SumNonNegative(s[1..], f);
    }
  }

  /** A sum whose terms all lie below `bound` lies below `bound` times the number of terms. */
  lemma {:induction false} SumBound<A(!new)>(s: seq<A>, f: A -> int, bound: nat)
    requires forall a :: f(a) <= bound
    ensures Sum(s, f) <= bound * |s|
  {
    if s != [] {
      SumBound(s[1..], f, bound);
      assert bound * |s| == bound + bound * |s[1..]|;
    }
  }

  lemma {:induction false} SumZero<A>(s: seq<A>, f: A -> int)
    requires forall a :: a in s ==> f(a) == 0
    ensures Sum(s, f) == 0
  {
    if s != [] {
      SumZero(s[1..], f);
    }
  }

  /** A positive sum of non-negative terms has a positive term. */
  lemma {:induction false} SumPositiveWitness<A(!new)>(s: seq<A>, f: A -> int) returns (i: nat)
    requires forall a :: 0 <= f(a)
    requires 0 < Sum(s, f)
    ensures i < |s| && 0 < f(s[i])
  {
    if 0 < f(s[0]) {
      i := 0;
    } else {
      var j := SumPositiveWitness(s[1..], f);
      i := j + 1;
    }
  }

  /** A term-wise larger function has a larger sum. */
  lemma {:induction false} SumMonotone<A(!new)>(s: seq<A>, f: A -> int, g: A -> int)
    requires forall a :: f(a) <= g(a)
    ensures Sum(s, f) <= Sum(s, g)
  {
    if s != [] {
      SumMonotone(s[1..], f, g);
    }
  }

  lemma {:induction false} SumAppend<A>(s: seq<A>, r: seq<A>, f: A -> int)
    ensures Sum(s + r, f) == Sum(s, f) + Sum(r, f)
  {
    if s == [] {
      assert s + r == r;
    } else {
      assert (s + r)[1..] == s[1..] + r;
      SumAppend(s[1..], r, f);
    }
  }
}
