/** The index arithmetic of the vision preprocessor: the patch transposition, its fused variant, and the order of
    the rotary position rows. Sizes are arbitrary; pixel values are exact reals. */
module PatchLayout {
  import Arithmetic

  // Products of sizes

  function RowSize(gridW: nat, m: nat): nat { gridW * m * m }
  function FrameSize(gridH: nat, gridW: nat, m: nat): nat { gridH * gridW * m * m }
  function AxisPos(block: nat, m: nat, inner: nat, p: nat, pixel: nat): nat { block * m * p + inner * p + pixel }
  function Joined(a: nat, n: nat, b: nat): nat { a * n + b }
  function PatchCount(gridT: nat, gridH: nat, gridW: nat, m: nat): nat { gridT * gridH * gridW * m * m }

  /** Sizes of a clip of `T` frames of `H` x `W` pixels with `C` channels, cut into patches. */
  datatype Shape = Shape(patch: nat, merge: nat, temporal: nat, C: nat, T: nat, H: nat, W: nat) {
    ghost predicate Valid() { 0 < patch && 0 < merge && 0 < temporal }

    // The grid sizes as the code computes them.
    function GridT(): nat requires Valid() { T / temporal }
    function MergedGridH(): nat requires Valid() { H / patch / merge }
    function MergedGridW(): nat requires Valid() { W / patch / merge }
    function SeqLength(): nat requires Valid() { PatchCount(GridT(), MergedGridH(), MergedGridW(), merge) }
    function InputDim(): nat { C * temporal * patch * patch }

    ghost predicate Divisible()
      requires Valid()
    {
      T % temporal == 0 && H % (patch * merge) == 0 && W % (patch * merge) == 0
    }
  }

  /** Where a value sits: which block, which patch in the block, which value in the patch. */
  datatype Digits = Digits(tIdx: nat, hIdx: nat, wIdx: nat, mergeH: nat, mergeW: nat,
                           cIdx: nat, tPatch: nat, patchH: nat, patchW: nat)

  // Mixed radix numbers

  lemma Join(a: nat, b: nat, k: nat, n: nat)
    requires a < k && b < n
    ensures (a * n + b) / n == a && (a * n + b) % n == b && 0 <= a * n + b < k * n
  {
    var x := a * n + b;
    JoinBound(a, b, k, n);
    Arithmetic.DivModUnique(x, a, b, n);
  }

  lemma JoinBound(a: nat, b: nat, k: nat, n: nat)
    requires a < k && b < n
    ensures 0 <= a * n + b < k * n
  {
    Arithmetic.ProductMonotone(0, 0, a, n);
    Arithmetic.ProductMonotone(a + 1, n, k, n);
    assert (a + 1) * n == a * n + n;
  }

  lemma Split(x: nat, k: nat, n: nat)
    requires x < k * n && 0 < n
    ensures 0 <= x / n < k && 0 <= x % n < n && x == (x / n) * n + x % n
  {
    assert x == (x / n) * n + x % n;
  }

  // The decompositions of the code

  function DivMod(x: nat, n: nat): (nat, nat)
    requires 0 < n
  {
    (x / n, x % n)
  }

  function BlockDigits(s: Shape, seqIdx: nat): (nat, nat, nat, nat, nat)
    requires s.Valid() && 0 < s.MergedGridH() && 0 < s.MergedGridW()
  {
    var m, gh, gw := s.merge, s.MergedGridH(), s.MergedGridW();
    PositiveProducts(gh, gw, m);
    var (tIdx, r0) := DivMod(seqIdx, gh * gw * m * m);
    var (hIdx, r1) := DivMod(r0, gw * m * m);
    var (wIdx, r2) := DivMod(r1, m * m);
    var (mergeH, mergeW) := DivMod(r2, m);
    (tIdx, hIdx, wIdx, mergeH, mergeW)
  }

  function PatchDigits(s: Shape, elemIdx: nat): (nat, nat, nat, nat)
    requires s.Valid()
  {
    var p, tp := s.patch, s.temporal;
    PositiveProducts(1, tp, p);
    var (cIdx, r0) := DivMod(elemIdx, tp * p * p);
    var (tPatch, r1) := DivMod(r0, p * p);
    var (patchH, patchW) := DivMod(r1, p);
    (cIdx, tPatch, patchH, patchW)
  }

  lemma PositiveProducts(a: nat, b: nat, n: nat)
    requires 0 < a && 0 < b && 0 < n
    ensures 0 < n * n && 0 < b * n * n && 0 < a * b * n * n
    ensures a * b * n * n == a * (b * n * n) && b * n * n == b * (n * n)
  {
    assert 1 * 1 <= n * n;
    assert b * n * n == b * (n * n) && 1 * 1 <= b * (n * n);
    assert a * b * n * n == a * (b * n * n) by {
      assert a * b * n == a * (b * n);
      assert (a * (b * n)) * n == a * ((b * n) * n);
    }
    assert 1 * 1 <= a * (b * n * n);
  }

  function DigitsOf(s: Shape, seqIdx: nat, elemIdx: nat): Digits
    requires s.Valid() && 0 < s.MergedGridH() && 0 < s.MergedGridW()
  {
    var b := BlockDigits(s, seqIdx);
    var e := PatchDigits(s, elemIdx);
    Digits(b.0, b.1, b.2, b.3, b.4, e.0, e.1, e.2, e.3)
  }

  function SrcT(s: Shape, d: Digits): nat { d.tIdx * s.temporal + d.tPatch }
  function SrcH(s: Shape, d: Digits): nat { AxisPos(d.hIdx, s.merge, d.mergeH, s.patch, d.patchH) }
  function SrcW(s: Shape, d: Digits): nat { AxisPos(d.wIdx, s.merge, d.mergeW, s.patch, d.patchW) }

  /** The index of the source value with given coordinates. */
  function PixelIndex(s: Shape, t: nat, h: nat, w: nat, c: nat): nat {
    t * s.H * s.W * s.C + h * s.W * s.C + w * s.C + c
  }

  /** The source index for element `elemIdx` of patch `seqIdx`. */
  function SrcIndex(s: Shape, seqIdx: nat, elemIdx: nat): nat
    requires s.Valid() && 0 < s.MergedGridH() && 0 < s.MergedGridW()
  {
    var d := DigitsOf(s, seqIdx, elemIdx);
    PixelIndex(s, SrcT(s, d), SrcH(s, d), SrcW(s, d), d.cIdx)
  }

  // Digits in range, and the four maps between them and indices

  ghost predicate InRange(s: Shape, d: Digits)
    requires s.Valid()
  {
    && d.tIdx < s.GridT() && d.hIdx < s.MergedGridH() && d.wIdx < s.MergedGridW()
    && d.mergeH < s.merge && d.mergeW < s.merge
    && d.cIdx < s.C && d.tPatch < s.temporal && d.patchH < s.patch && d.patchW < s.patch
  }

  function SeqOf(s: Shape, d: Digits): nat
    requires s.Valid()
  {
    var m, gh, gw := s.merge, s.MergedGridH(), s.MergedGridW();
    Joined(d.tIdx, FrameSize(gh, gw, m),
           Joined(d.hIdx, RowSize(gw, m), Joined(d.wIdx, RowSize(1, m), Joined(d.mergeH, m, d.mergeW))))
  }

  function ElemOf(s: Shape, d: Digits): nat {
    var p, tp := s.patch, s.temporal;
    Joined(d.cIdx, RowSize(tp, p), Joined(d.tPatch, RowSize(1, p), Joined(d.patchH, p, d.patchW)))
  }

  lemma SeqElemOfDigits(s: Shape, d: Digits)
    requires s.Valid() && InRange(s, d)
    ensures 0 < s.MergedGridH() && 0 < s.MergedGridW()
    ensures SeqOf(s, d) < s.SeqLength() && ElemOf(s, d) < s.InputDim()
    ensures DigitsOf(s, SeqOf(s, d), ElemOf(s, d)) == d
  {
    var m, gt, gh, gw := s.merge, s.GridT(), s.MergedGridH(), s.MergedGridW();
    PositiveProducts(gh, gw, m);
    Join(d.mergeH, d.mergeW, m, m);
    Join(d.wIdx, d.mergeH * m + d.mergeW, gw, m * m);
    Join(d.hIdx, d.wIdx * (m * m) + (d.mergeH * m + d.mergeW), gh, gw * m * m);
    Join(d.tIdx, d.hIdx * (gw * m * m) + (d.wIdx * (m * m) + (d.mergeH * m + d.mergeW)), gt, gh * gw * m * m);
    assert s.SeqLength() == gt * (gh * gw * m * m) by { ProductOfFive(gt, gh, gw, m); }
    var p, tp := s.patch, s.temporal;
    PositiveProducts(1, tp, p);
    Join(d.patchH, d.patchW, p, p);
    Join(d.tPatch, d.patchH * p + d.patchW, tp, p * p);
    Join(d.cIdx, d.tPatch * (p * p) + (d.patchH * p + d.patchW), s.C, tp * p * p);
    assert s.InputDim() == s.C * (tp * p * p) by { ProductOfFour(s.C, tp, p); }
  }

  lemma ProductOfFive(a: nat, b: nat, c: nat, n: nat)
    ensures a * b * c * n * n == a * (b * c * n * n)
  {
    assert a * b * c == a * (b * c);
    assert a * (b * c) * n == a * (b * c * n);
    assert a * (b * c * n) * n == a * (b * c * n * n);
  }

  lemma ProductOfFour(a: nat, b: nat, n: nat)
    ensures a * b * n * n == a * (b * n * n)
  {
    assert a * b * n == a * (b * n);
    assert a * (b * n) * n == a * (b * n * n);
  }

  lemma DigitsOfSeqElem(s: Shape, seqIdx: nat, elemIdx: nat)
    requires s.Valid() && seqIdx < s.SeqLength() && elemIdx < s.InputDim()
    ensures 0 < s.MergedGridH() && 0 < s.MergedGridW()
    ensures var d := DigitsOf(s, seqIdx, elemIdx); InRange(s, d) && SeqOf(s, d) == seqIdx && ElemOf(s, d) == elemIdx
  {
    var m, gt, gh, gw := s.merge, s.GridT(), s.MergedGridH(), s.MergedGridW();
    ProductOfFive(gt, gh, gw, m);
    assert 0 < gh * gw * m * m;
    assert gh != 0 && gw != 0;
    PositiveProducts(gh, gw, m);
    Split(seqIdx, gt, gh * gw * m * m);
    var r0 := seqIdx % (gh * gw * m * m);
    Split(r0, gh, gw * m * m);
    var r1 := r0 % (gw * m * m);
    Split(r1, gw, m * m);
    Split(r1 % (m * m), m, m);
    var p, tp := s.patch, s.temporal;
    ProductOfFour(s.C, tp, p);
    PositiveProducts(1, tp, p);
    Split(elemIdx, s.C, tp * p * p);
    var e0 := elemIdx % (tp * p * p);
    Split(e0, tp, p * p);
    Split(e0 % (p * p), p, p);
  }

  // From digits to source coordinates and back

  lemma DivDiv(x: nat, p: nat, m: nat)
    requires 0 < p && 0 < m
    ensures 0 < p * m && x / p / m == x / (p * m)
  {
    assert 1 * 1 <= p * m;
    var a, b := x / p / m, x / p % m;
    assert x / p == a * m + b && x == (x / p) * p + x % p;
    assert x == a * (p * m) + (b * p + x % p) by {
      assert (a * m + b) * p == a * m * p + b * p;
      assert a * m * p == a * (p * m);
    }
    assert b * p + x % p < p * m by { assert (b + 1) * p <= m * p; }
    Arithmetic.DivModUnique(x, a, b * p + x % p, p * m);
  }

  /** One axis: block, patch in the block, pixel in the patch. */
  lemma AxisJoin(block: nat, inner: nat, pixel: nat, blocks: nat, m: nat, p: nat)
    requires block < blocks && inner < m && pixel < p
    ensures var x := block * m * p + inner * p + pixel;
            && 0 < m * p && x < blocks * (m * p)
            && x / (m * p) == block && x % (m * p) / p == inner && x % (m * p) % p == pixel
  {
    Join(inner, pixel, m, p);
    assert block * m * p == block * (m * p);
    Join(block, inner * p + pixel, blocks, m * p);
  }

  lemma AxisSplit(x: nat, blocks: nat, m: nat, p: nat)
    requires 0 < m && 0 < p && x < blocks * (m * p)
    ensures 0 < m * p && x / (m * p) < blocks && x % (m * p) / p < m
    ensures x == x / (m * p) * m * p + x % (m * p) / p * p + x % (m * p) % p
  {
    assert 1 * 1 <= m * p;
    Split(x, blocks, m * p);
    Split(x % (m * p), m, p);
    assert x / (m * p) * m * p == x / (m * p) * (m * p);
  }

  /** The pixels covered along an axis of length `n`. */
  lemma Covered(n: nat, p: nat, m: nat)
    requires 0 < p && 0 < m
    ensures 0 < p * m && n / p / m * (m * p) == n - n % (p * m)
  {
    DivDiv(n, p, m);
    assert m * p == p * m;
  }

  lemma AxisInRange(block: nat, inner: nat, pixel: nat, n: nat, m: nat, p: nat)
    requires 0 < m && 0 < p && block < n / p / m && inner < m && pixel < p
    ensures 0 < p * m && block * m * p + inner * p + pixel < n - n % (p * m)
  {
    AxisJoin(block, inner, pixel, n / p / m, m, p);
    Covered(n, p, m);
  }

  lemma AxisCovered(x: nat, n: nat, m: nat, p: nat)
    requires 0 < m && 0 < p && 0 < p * m && n % (p * m) == 0 && x < n
    ensures 0 < m * p && x / (m * p) < n / p / m && x % (m * p) / p < m
    ensures x == x / (m * p) * m * p + x % (m * p) / p * p + x % (m * p) % p
  {
    Covered(n, p, m);
    AxisSplit(x, n / p / m, m, p);
  }

  lemma FrameInRange(t: nat, i: nat, T: nat, n: nat)
    requires 0 < n && t < T / n && i < n
    ensures t * n + i < T - T % n
  {
    Join(t, i, T / n, n);
  }

  lemma CoordsInRange(s: Shape, d: Digits)
    requires s.Valid() && InRange(s, d)
    ensures 0 < s.patch * s.merge
    ensures SrcT(s, d) < s.T - s.T % s.temporal
    ensures SrcH(s, d) < s.H - s.H % (s.patch * s.merge)
    ensures SrcW(s, d) < s.W - s.W % (s.patch * s.merge)
  {
    FrameInRange(d.tIdx, d.tPatch, s.T, s.temporal);
    AxisInRange(d.hIdx, d.mergeH, d.patchH, s.H, s.merge, s.patch);
    AxisInRange(d.wIdx, d.mergeW, d.patchW, s.W, s.merge, s.patch);
  }

  /** Digits in range with the same coordinates are the same. */
  lemma CoordsInjective(s: Shape, d: Digits, e: Digits)
    requires s.Valid() && InRange(s, d) && InRange(s, e)
    requires SrcT(s, d) == SrcT(s, e) && SrcH(s, d) == SrcH(s, e) && SrcW(s, d) == SrcW(s, e) && d.cIdx == e.cIdx
    ensures d == e
  {
    Join(d.tIdx, d.tPatch, s.GridT(), s.temporal);
    Join(e.tIdx, e.tPatch, s.GridT(), s.temporal);
    AxisJoin(d.hIdx, d.mergeH, d.patchH, s.MergedGridH(), s.merge, s.patch);
    AxisJoin(e.hIdx, e.mergeH, e.patchH, s.MergedGridH(), s.merge, s.patch);
    AxisJoin(d.wIdx, d.mergeW, d.patchW, s.MergedGridW(), s.merge, s.patch);
    AxisJoin(e.wIdx, e.mergeW, e.patchW, s.MergedGridW(), s.merge, s.patch);
  }

  lemma CoordsSurjective(s: Shape, t: nat, h: nat, w: nat, c: nat) returns (d: Digits)
    requires s.Valid() && s.Divisible() && t < s.T && h < s.H && w < s.W && c < s.C
    ensures InRange(s, d) && SrcT(s, d) == t && SrcH(s, d) == h && SrcW(s, d) == w && d.cIdx == c
  {
    var m, p := s.merge, s.patch;
    Split(t, s.T / s.temporal, s.temporal);
    AxisCovered(h, s.H, m, p);
    AxisCovered(w, s.W, m, p);
    d := Digits(t / s.temporal, h / (m * p), w / (m * p), h % (m * p) / p, w % (m * p) / p,
                c, t % s.temporal, h % (m * p) % p, w % (m * p) % p);
  }

  // Source indices

  lemma PixelIndexNested(s: Shape, t: nat, h: nat, w: nat, c: nat)
    ensures PixelIndex(s, t, h, w, c) == ((t * s.H + h) * s.W + w) * s.C + c
  {
    assert (t * s.H + h) * s.W == t * s.H * s.W + h * s.W;
    assert (t * s.H * s.W + h * s.W + w) * s.C == t * s.H * s.W * s.C + h * s.W * s.C + w * s.C;
  }

  /** An index gives its coordinates back. */
  lemma PixelIndexDecodes(s: Shape, t: nat, h: nat, w: nat, c: nat)
    requires t < s.T && h < s.H && w < s.W && c < s.C
    ensures var i := PixelIndex(s, t, h, w, c);
            && 0 <= i < s.T * s.H * s.W * s.C
            && i % s.C == c && i / s.C % s.W == w && i / s.C / s.W % s.H == h && i / s.C / s.W / s.H == t
  {
    PixelIndexNested(s, t, h, w, c);
    Join(t, h, s.T, s.H);
    Join(t * s.H + h, w, s.T * s.H, s.W);
    Join((t * s.H + h) * s.W + w, c, s.T * s.H * s.W, s.C);
  }

  lemma PixelIndexSurjective(s: Shape, i: nat) returns (t: nat, h: nat, w: nat, c: nat)
    requires i < s.T * s.H * s.W * s.C
    ensures t < s.T && h < s.H && w < s.W && c < s.C && PixelIndex(s, t, h, w, c) == i
  {
    var thw: nat, th: nat := s.T * s.H * s.W, s.T * s.H;
    assert s.C != 0 && s.W != 0 && s.H != 0;
    Split(i, thw, s.C);
    Split(i / s.C, th, s.W);
    Split(i / s.C / s.W, s.T, s.H);
    t, h, w, c := i / s.C / s.W / s.H, i / s.C / s.W % s.H, i / s.C % s.W, i % s.C;
    PixelIndexNested(s, t, h, w, c);
  }

  // The transposition

  /** Every element of every patch reads inside the source. No divisibility is needed. */
  lemma SourceInBounds(s: Shape, seqIdx: nat, elemIdx: nat)
    requires s.Valid() && seqIdx < s.SeqLength() && elemIdx < s.InputDim()
    ensures 0 < s.MergedGridH() && 0 < s.MergedGridW()
    ensures 0 <= SrcIndex(s, seqIdx, elemIdx) < s.T * s.H * s.W * s.C
  {
    DigitsOfSeqElem(s, seqIdx, elemIdx);
    var d := DigitsOf(s, seqIdx, elemIdx);
    CoordsInRange(s, d);
    PixelIndexDecodes(s, SrcT(s, d), SrcH(s, d), SrcW(s, d), d.cIdx);
  }

  // The width of the indices

  const INT32_LIMIT := 0x8000_0000

  lemma AtMostTwice(x: nat, n: nat)
    requires 0 < n && 1 <= x / n
    ensures x <= 2 * (x / n * n)
  {
    assert x == (x / n) * n + x % n;
    assert 1 * n <= (x / n) * n;
  }

  lemma TwiceEach(x: nat, y: nat, z: nat, a: nat, b: nat, c: nat)
    requires x <= 2 * a && y <= 2 * b && z <= 2 * c
    ensures 0 <= x * y * z <= 8 * (a * b * c)
  {
    Arithmetic.ProductMonotone(x, y, 2 * a, 2 * b);
    assert (2 * a) * (2 * b) == 4 * (a * b);
    Arithmetic.ProductMonotone(x * y, z, 4 * (a * b), 2 * c);
    assert (4 * (a * b)) * (2 * c) == 8 * (a * b * c);
  }

  lemma Regroup(a: nat, b: nat, c: nat)
    ensures a * b * c == a * (b * c) == a * c * b
  {
  }

  lemma Interchange(a: nat, b: nat, c: nat, d: nat)
    ensures (a * b) * (c * d) == (a * c) * (b * d)
  {
    Regroup(a, b, c * d);
    Regroup(b, c, d);
    Regroup(c, b, d);
    Regroup(a, c, b * d);
  }

  lemma PatchCountNested(gt: nat, gh: nat, gw: nat, m: nat)
    ensures PatchCount(gt, gh, gw, m) == (gt * (gh * m)) * (gw * m)
  {
    Regroup(gt * gh, gw, m);
    Regroup(gt, gh, m);
    Regroup(gt * (gh * m), gw, m);
  }

  lemma InputDimNested(C: nat, tp: nat, p: nat)
    ensures C * tp * p * p == (tp * p) * (p * C)
  {
    Regroup(C, tp, p);
    Regroup(tp * p, C, p);
    assert C * (tp * p) == tp * p * C && C * p == p * C;
  }

  /** The source values that are covered are as many as the output has. */
  lemma OutputSize(gt: nat, gh: nat, gw: nat, m: nat, C: nat, tp: nat, p: nat)
    ensures ((gt * (gh * m)) * (gw * m)) * ((tp * p) * (p * C)) == (gt * tp) * (gh * (m * p)) * (gw * (m * p)) * C
  {
    calc {
      ((gt * (gh * m)) * (gw * m)) * ((tp * p) * (p * C));
    == { Interchange(gt * (gh * m), gw * m, tp * p, p * C); }
      ((gt * (gh * m)) * (tp * p)) * ((gw * m) * (p * C));
    == { Interchange(gt, gh * m, tp, p); Regroup(gh, m, p); }
      ((gt * tp) * (gh * (m * p))) * ((gw * m) * (p * C));
    == { Regroup(gw * m, p, C); Regroup(gw, m, p); }
      ((gt * tp) * (gh * (m * p))) * ((gw * (m * p)) * C);
    == { Regroup((gt * tp) * (gh * (m * p)), gw * (m * p), C); }
      (gt * tp) * (gh * (m * p)) * (gw * (m * p)) * C;
    }
  }

  lemma ScaledByEight(x: int, y: int, c: nat)
    requires 0 <= x <= 8 * y
    ensures x * c <= 8 * (y * c)
  {
    Arithmetic.ProductMonotone(x, c, 8 * y, c);
    Regroup(8, y, c);
  }

  lemma AxisAtMostTwice(n: nat, p: nat, m: nat)
    requires 0 < p && 0 < m && 1 <= n / p / m
    ensures n <= 2 * (n / p / m * (m * p))
  {
    DivDiv(n, p, m);
    assert p * m == m * p;
    AtMostTwice(n, m * p);
  }

  lemma FactorsPositive(gt: nat, gh: nat, gw: nat, m: nat)
    requires 0 < PatchCount(gt, gh, gw, m)
    ensures 0 < gt && 0 < gh && 0 < gw
  {
  }

  lemma SourceAtMostEightfold(s: Shape)
    requires s.Valid() && 0 < s.SeqLength()
    ensures s.T * s.H * s.W * s.C <= 8 * (s.SeqLength() * s.InputDim())
  {
    var gt, gh, gw, mp := s.GridT(), s.MergedGridH(), s.MergedGridW(), s.merge * s.patch;
    FactorsPositive(gt, gh, gw, s.merge);
    AtMostTwice(s.T, s.temporal);
    AxisAtMostTwice(s.H, s.patch, s.merge);
    AxisAtMostTwice(s.W, s.patch, s.merge);
    TwiceEach(s.T, s.H, s.W, gt * s.temporal, gh * mp, gw * mp);
    ScaledByEight(s.T * s.H * s.W, (gt * s.temporal) * (gh * mp) * (gw * mp), s.C);
    PatchCountNested(gt, gh, gw, s.merge);
    InputDimNested(s.C, s.temporal, s.patch);
    OutputSize(gt, gh, gw, s.merge, s.C, s.temporal, s.patch);
  }

  /** The code computes indices in 32-bit signed integers. With the number of patches that it checks for, at most
      10000, and up to 26843 values in a patch (1536 are configured), no index wraps: neither the two of a
      transposition step, nor the size of the clip. */
  lemma IndicesFit(s: Shape, seqIdx: nat, elemIdx: nat)
    requires s.Valid() && seqIdx < s.SeqLength() <= 10000 && elemIdx < s.InputDim() <= 26843
    ensures s.T * s.H * s.W * s.C < INT32_LIMIT
    ensures 0 < s.MergedGridH() && 0 < s.MergedGridW() && SrcIndex(s, seqIdx, elemIdx) < INT32_LIMIT
    ensures seqIdx * s.InputDim() + elemIdx < INT32_LIMIT
  {
    SourceInBounds(s, seqIdx, elemIdx);
    SourceAtMostEightfold(s);
    Arithmetic.ProductMonotone(s.SeqLength(), s.InputDim(), 10000, 26843);
    Join(seqIdx, elemIdx, s.SeqLength(), s.InputDim());
  }

  /** No source value is read for two output positions. */
  lemma TransposeInjective(s: Shape, seqIdx: nat, elemIdx: nat, seqIdx': nat, elemIdx': nat)
    requires s.Valid() && 0 < s.MergedGridH() && 0 < s.MergedGridW()
    requires seqIdx < s.SeqLength() && seqIdx' < s.SeqLength() && elemIdx < s.InputDim() && elemIdx' < s.InputDim()
    requires SrcIndex(s, seqIdx, elemIdx) == SrcIndex(s, seqIdx', elemIdx')
    ensures seqIdx == seqIdx' && elemIdx == elemIdx'
  {
    DigitsOfSeqElem(s, seqIdx, elemIdx);
    DigitsOfSeqElem(s, seqIdx', elemIdx');
    var d, e := DigitsOf(s, seqIdx, elemIdx), DigitsOf(s, seqIdx', elemIdx');
    CoordsInRange(s, d);
    CoordsInRange(s, e);
    PixelIndexDecodes(s, SrcT(s, d), SrcH(s, d), SrcW(s, d), d.cIdx);
    PixelIndexDecodes(s, SrcT(s, e), SrcH(s, e), SrcW(s, e), e.cIdx);
    CoordsInjective(s, d, e);
  }

  /** When the sizes divide, every source value lands in an output position. */
  lemma TransposeSurjective(s: Shape, i: nat) returns (seqIdx: nat, elemIdx: nat)
    requires s.Valid() && s.Divisible() && i < s.T * s.H * s.W * s.C
    ensures seqIdx < s.SeqLength() && elemIdx < s.InputDim() && 0 < s.MergedGridH() && 0 < s.MergedGridW()
    ensures SrcIndex(s, seqIdx, elemIdx) == i
  {
    var t, h, w, c := PixelIndexSurjective(s, i);
    var d := CoordsSurjective(s, t, h, w, c);
    SeqElemOfDigits(s, d);
    seqIdx, elemIdx := SeqOf(s, d), ElemOf(s, d);
  }

  /** When they do not, the last value of the source is lost. */
  lemma LastValueLost(s: Shape, seqIdx: nat, elemIdx: nat)
    requires s.Valid() && !s.Divisible() && 0 < s.T && 0 < s.H && 0 < s.W && 0 < s.C
    requires seqIdx < s.SeqLength() && elemIdx < s.InputDim()
    ensures 0 < s.MergedGridH() && 0 < s.MergedGridW()
    ensures SrcIndex(s, seqIdx, elemIdx) != PixelIndex(s, s.T - 1, s.H - 1, s.W - 1, s.C - 1)
  {
    DigitsOfSeqElem(s, seqIdx, elemIdx);
    var d := DigitsOf(s, seqIdx, elemIdx);
    CoordsInRange(s, d);
    PixelIndexDecodes(s, SrcT(s, d), SrcH(s, d), SrcW(s, d), d.cIdx);
    PixelIndexDecodes(s, s.T - 1, s.H - 1, s.W - 1, s.C - 1);
  }

  // The same reading order, from sizes alone

  lemma HornerSeq(t: nat, h: nat, w: nat, mh: nat, mw: nat, gh: nat, gw: nat, m: nat)
    ensures (((t * gh + h) * gw + w) * m + mh) * m + mw
         == t * (gh * gw * m * m) + (h * (gw * m * m) + (w * (1 * m * m) + (mh * m + mw)))
  {
    var row := t * gh + h;
    var block := row * gw + w;
    assert (block * m + mh) * m == block * m * m + mh * m;
    Regroup(block, m, m);
    assert block * (m * m) == row * gw * (m * m) + w * (m * m);
    Regroup(row, gw, m * m);
    Regroup(gw, m, m);
    assert row * (gw * m * m) == t * gh * (gw * m * m) + h * (gw * m * m);
    Regroup(t, gh, gw * m * m);
    ProductOfFour(gh, gw, m);
  }

  lemma HornerElem(c: nat, tp: nat, ph: nat, pw: nat, n: nat, p: nat)
    ensures ((c * n + tp) * p + ph) * p + pw == c * (n * p * p) + (tp * (1 * p * p) + (ph * p + pw))
  {
    var plane := c * n + tp;
    assert (plane * p + ph) * p == plane * p * p + ph * p;
    Regroup(plane, p, p);
    assert plane * (p * p) == c * n * (p * p) + tp * (p * p);
    Regroup(c, n, p * p);
    Regroup(n, p, p);
  }

  lemma AxisNested(block: nat, m: nat, inner: nat, p: nat, pixel: nat)
    ensures AxisPos(block, m, inner, p, pixel) == (block * m + inner) * p + pixel
  {
    assert (block * m + inner) * p == block * m * p + inner * p;
  }

  lemma SrcIndexNested(s: Shape, d: Digits)
    requires s.Valid() && InRange(s, d)
    ensures 0 < s.MergedGridH() && 0 < s.MergedGridW()
    ensures SrcIndex(s, SeqOf(s, d), ElemOf(s, d)) ==
            (((d.tIdx * s.temporal + d.tPatch) * s.H + (d.hIdx * s.merge + d.mergeH) * s.patch + d.patchH) * s.W
              + (d.wIdx * s.merge + d.mergeW) * s.patch + d.patchW) * s.C + d.cIdx
  {
    SeqElemOfDigits(s, d);
    PixelIndexNested(s, SrcT(s, d), SrcH(s, d), SrcW(s, d), d.cIdx);
    AxisNested(d.hIdx, s.merge, d.mergeH, s.patch, d.patchH);
    AxisNested(d.wIdx, s.merge, d.mergeW, s.patch, d.patchW);
  }

  /** Which source value each output position reads: frame block `t`, merge block (h, w), patch (mh, mw) in the block,
      and in the patch channel `c`, frame `tp`, row `ph` and column `pw`. */
  lemma PatchReads(s: Shape, t: nat, h: nat, w: nat, mh: nat, mw: nat, c: nat, tp: nat, ph: nat, pw: nat)
    requires s.Valid() && t < s.T / s.temporal && h < s.H / s.patch / s.merge && w < s.W / s.patch / s.merge
    requires mh < s.merge && mw < s.merge && c < s.C && tp < s.temporal && ph < s.patch && pw < s.patch
    ensures var gh, gw, m, p := s.H / s.patch / s.merge, s.W / s.patch / s.merge, s.merge, s.patch;
            var seqIdx := (((t * gh + h) * gw + w) * m + mh) * m + mw;
            var elemIdx := ((c * s.temporal + tp) * p + ph) * p + pw;
            && 0 <= seqIdx < s.SeqLength() && 0 <= elemIdx < s.InputDim()
            && 0 < s.MergedGridH() && 0 < s.MergedGridW()
            && SrcIndex(s, seqIdx, elemIdx) ==
               (((t * s.temporal + tp) * s.H + (h * m + mh) * p + ph) * s.W + (w * m + mw) * p + pw) * s.C + c
  {
    var d := Digits(t, h, w, mh, mw, c, tp, ph, pw);
    HornerSeq(t, h, w, mh, mw, s.MergedGridH(), s.MergedGridW(), s.merge);
    HornerElem(c, tp, ph, pw, s.temporal, s.patch);
    SeqElemOfDigits(s, d);
    SrcIndexNested(s, d);
  }

  // The transposition as an operation on buffers

  /** The value for output position `k`. */
  ghost function PatchValue(s: Shape, source: seq<real>, k: nat): real
    requires s.Valid() && |source| == s.T * s.H * s.W * s.C
  {
    if k < s.SeqLength() * s.InputDim() then
      PositionInRange(s, k);
      SourceInBounds(s, k / s.InputDim(), k % s.InputDim());
      source[SrcIndex(s, k / s.InputDim(), k % s.InputDim())]
    else 0.0
  }

  lemma PositionInRange(s: Shape, k: nat)
    requires s.Valid() && k < s.SeqLength() * s.InputDim()
    ensures 0 < s.InputDim() && k / s.InputDim() < s.SeqLength() && k % s.InputDim() < s.InputDim()
  {
    assert s.InputDim() != 0;
    Split(k, s.SeqLength(), s.InputDim());
  }

  /** The patches of a clip. */
  ghost function Patches(s: Shape, source: seq<real>): seq<real>
    requires s.Valid() && |source| == s.T * s.H * s.W * s.C
  {
    seq(s.SeqLength() * s.InputDim(), k requires 0 <= k => PatchValue(s, source, k))
  }

  lemma PatchAt(s: Shape, source: seq<real>, seqIdx: nat, elemIdx: nat)
    requires s.Valid() && |source| == s.T * s.H * s.W * s.C && seqIdx < s.SeqLength() && elemIdx < s.InputDim()
    ensures 0 <= seqIdx * s.InputDim() + elemIdx < s.SeqLength() * s.InputDim()
    ensures 0 < s.MergedGridH() && 0 < s.MergedGridW() && 0 <= SrcIndex(s, seqIdx, elemIdx) < |source|
    ensures Patches(s, source)[seqIdx * s.InputDim() + elemIdx] == source[SrcIndex(s, seqIdx, elemIdx)]
  {
    Join(seqIdx, elemIdx, s.SeqLength(), s.InputDim());
    SourceInBounds(s, seqIdx, elemIdx);
  }

  /** transposeToPatchCPU. */
  method TransposeToPatch(s: Shape, source: array<real>, output: array<real>)
    requires s.Valid() && source != output
    requires source.Length == s.T * s.H * s.W * s.C && output.Length == s.SeqLength() * s.InputDim()
    modifies output
    ensures output[..] == Patches(s, source[..])
  {
    ghost var patches := Patches(s, source[..]);
    var seqIdx := 0;
    while seqIdx < s.SeqLength()
      invariant 0 <= seqIdx <= s.SeqLength()
      invariant 0 <= seqIdx * s.InputDim() <= output.Length
      invariant output[..seqIdx * s.InputDim()] == patches[..seqIdx * s.InputDim()]
    {
      forall e | 0 <= e < s.InputDim()
        ensures RowEntry(s, source[..], patches, seqIdx, e)
      {
        PatchAt(s, source[..], seqIdx, e);
      }
      RowsFit(seqIdx, s.SeqLength(), s.InputDim());
      TransposeOne(s, source, output, seqIdx, patches, seqIdx * s.InputDim());
      seqIdx := seqIdx + 1;
    }
  }

  lemma RowsFit(row: nat, rows: nat, dim: nat)
    requires row < rows
    ensures (row + 1) * dim == row * dim + dim <= rows * dim
  {
    assert (row + 1) * dim <= rows * dim;
  }

  ghost predicate RowEntry(s: Shape, source: seq<real>, patches: seq<real>, seqIdx: nat, e: nat)
    requires s.Valid()
  {
    && 0 < s.MergedGridH() && 0 < s.MergedGridW()
    && 0 <= seqIdx * s.InputDim() + e < |patches| && 0 <= SrcIndex(s, seqIdx, e) < |source|
    && patches[seqIdx * s.InputDim() + e] == source[SrcIndex(s, seqIdx, e)]
  }

  /** The inner loop: one patch, which starts at `base` in the output. */
  method TransposeOne(s: Shape, source: array<real>, output: array<real>, seqIdx: nat, ghost patches: seq<real>,
                      base: nat)
    requires s.Valid() && source != output && base == seqIdx * s.InputDim()
    requires base + s.InputDim() <= output.Length == |patches|
    requires forall e {:trigger RowEntry(s, source[..], patches, seqIdx, e)} :: 0 <= e < s.InputDim() ==>
               RowEntry(s, source[..], patches, seqIdx, e)
    requires output[..base] == patches[..base]
    modifies output
    ensures output[..base + s.InputDim()] == patches[..base + s.InputDim()]
  {
    var dim := s.InputDim();
    var elemIdx := 0;
    while elemIdx < dim
      invariant 0 <= elemIdx <= dim
      invariant output[..base + elemIdx] == patches[..base + elemIdx]
    {
      assert RowEntry(s, source[..], patches, seqIdx, elemIdx);
      output[base + elemIdx] := source[SrcIndex(s, seqIdx, elemIdx)];
      elemIdx := elemIdx + 1;
    }
  }
}
