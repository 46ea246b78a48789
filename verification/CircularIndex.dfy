/** Machine indices wrap around at 2^N. With `half` == 2^(N-1) these results say when that is invisible, so
    that the other modules may use unbounded indices. */
module CircularIndex {
  import Arithmetic

  /** The number of elements in a block. */
  const BLOCK_SIZE: nat := 32

  /** The machine value of index `x`. */
  function Machine(x: int, half: int): (r: nat)
    requires 0 < half
    ensures r < 2 * half
  {
    x % (2 * half)
  }

  /** circular_less_than on machine values. */
  predicate CircularLess(a: nat, b: nat, half: int)
    requires 0 < half && a < 2 * half && b < 2 * half
  {
    Machine(a - b, half) > half
  }

  /** The machine difference reinterpreted as a signed number. */
  function SignedDifference(a: nat, b: nat, half: int): (r: int)
    requires 0 < half && a < 2 * half && b < 2 * half
    ensures -half <= r < half
  {
    var d := Machine(a - b, half);
    if d < half then d else d - 2 * half
  }

  lemma MachineDifference(x: int, y: int, half: int)
    requires 0 < half
    ensures Machine(Machine(x, half) - Machine(y, half), half) == Machine(x - y, half)
  {
    var m := 2 * half;
    var d := x % m - y % m;
    assert x == (x / m) * m + x % m && y == (y / m) * m + y % m && d == (d / m) * m + d % m;
    assert x - y == (x / m - y / m + d / m) * m + d % m by {
      assert (x / m - y / m + d / m) * m == (x / m) * m - (y / m) * m + (d / m) * m;
    }
    Arithmetic.DivModUnique(x - y, x / m - y / m + d / m, d % m, m);
  }

  /** Seen from x, an index y counts as larger exactly when it is ahead by less than half the range. */
  lemma LessMeansAheadByLessThanHalf(x: int, y: int, half: int)
    requires 0 < half
    ensures CircularLess(Machine(x, half), Machine(y, half), half) <==> 0 < Machine(y - x, half) < half
  {
    var m := 2 * half;
    MachineDifference(x, y, half);
    var d := (x - y) % m;
    assert x - y == ((x - y) / m) * m + d;
    if d == 0 {
      assert y - x == (-((x - y) / m)) * m + 0;
      Arithmetic.DivModUnique(y - x, -((x - y) / m), 0, m);
    } else {
      assert y - x == (-((x - y) / m) - 1) * m + (m - d) by {
        assert (-((x - y) / m) - 1) * m == -(((x - y) / m) * m) - m;
      }
      Arithmetic.DivModUnique(y - x, -((x - y) / m) - 1, m - d, m);
    }
  }

  /** While two indices are less than half the range apart, circular_less_than is `<`. */
  lemma CircularLessIsLess(x: int, y: int, half: int)
    requires 0 < half && -half < y - x < half
    ensures CircularLess(Machine(x, half), Machine(y, half), half) <==> x < y
  {
    LessMeansAheadByLessThanHalf(x, y, half);
    if x <= y {
      Arithmetic.DivModUnique(y - x, 0, y - x, 2 * half);
    } else {
      Arithmetic.DivModUnique(y - x, -1, y - x + 2 * half, 2 * half);
    }
  }

  /** At half the range or more (but less than the range) the comparison fails to see that x is smaller. */
  lemma CircularLessFailsFarAway(x: int, y: int, half: int)
    requires 0 < half && half <= y - x < 2 * half
    ensures !CircularLess(Machine(x, half), Machine(y, half), half)
  {
    LessMeansAheadByLessThanHalf(x, y, half);
    Arithmetic.DivModUnique(y - x, 0, y - x, 2 * half);
  }

  /** The signed block offset used by the block lookups survives wrap-around. */
  lemma SignedDifferenceIsDifference(x: int, y: int, half: int)
    requires 0 < half && -half <= x - y < half
    ensures SignedDifference(Machine(x, half), Machine(y, half), half) == x - y
  {
    MachineDifference(x, y, half);
    if y <= x {
      Arithmetic.DivModUnique(x - y, 0, x - y, 2 * half);
    } else {
      Arithmetic.DivModUnique(x - y, -1, x - y + 2 * half, 2 * half);
    }
  }

  /** Masking a machine index with a size that divides the range gives the slot of the unbounded index. */
  lemma SlotSurvivesWrapAround(x: int, size: nat, k: nat, half: int)
    requires 0 < size && 0 < half && 2 * half == k * size
    ensures Machine(x, half) % size == x % size
  {
    var m := 2 * half;
    var q := x / m;
    assert x == q * m + x % m;
    assert q * m == (q * k) * size;
    assert x % m == (x % m / size) * size + x % m % size;
    assert x == (q * k + x % m / size) * size + x % m % size by {
      assert (q * k + x % m / size) * size == (q * k) * size + (x % m / size) * size;
    }
    Arithmetic.DivModUnique(x, q * k + x % m / size, x % m % size, size);
  }

  /** `x & (size - 1)` for a power of two `size`, on the range that the block indices need. */
  function Wrap(x: int, size: int): (r: nat)
    requires -size <= x < 2 * size
    ensures r < size && (r == x || r == x + size || r == x - size)
  {
    if x < 0 then x + size else if x < size then x else x - size
  }

  lemma WrapIsRemainder(x: int, size: int)
    requires 0 < size && -size <= x < 2 * size
    ensures Wrap(x, size) == x % size
  {
    Arithmetic.DivModUnique(x, if x < 0 then -1 else if x < size then 0 else 1, Wrap(x, size), size);
  }
}
