/** The rotary position rows: four nested loops that must meet the patches in the order in which the
    transposition lays them out. Cosine and sine are arbitrary functions. */
module RotaryOrder {
  import opened PatchLayout
  import opened FusedPatches

  /** The patch grid divides into merge blocks, and there is one step in time. */
  ghost predicate WholeGrid(s: Shape) {
    OneStep(s) && s.H / s.patch % s.merge == 0 && s.W / s.patch % s.merge == 0
  }

  /** Row and column of patch `seqIdx` in the patch grid, as the transposition decomposes it. */
  function PatchRow(s: Shape, seqIdx: nat): nat
    requires s.Valid() && 0 < s.MergedGridH() && 0 < s.MergedGridW()
  {
    BlockDigits(s, seqIdx).1 * s.merge + BlockDigits(s, seqIdx).3
  }

  function PatchColumn(s: Shape, seqIdx: nat): nat
    requires s.Valid() && 0 < s.MergedGridH() && 0 < s.MergedGridW()
  {
    BlockDigits(s, seqIdx).2 * s.merge + BlockDigits(s, seqIdx).4
  }

  /** Every pixel of a patch lies in the patch's row and column of the grid. */
  lemma PatchHoldsItsPixels(s: Shape, seqIdx: nat, elemIdx: nat)
    requires s.Valid() && seqIdx < s.SeqLength() && elemIdx < s.InputDim()
    ensures 0 < s.MergedGridH() && 0 < s.MergedGridW()
    ensures var d := DigitsOf(s, seqIdx, elemIdx);
            SrcH(s, d) / s.patch == PatchRow(s, seqIdx) && SrcW(s, d) / s.patch == PatchColumn(s, seqIdx)
  {
    DigitsOfSeqElem(s, seqIdx, elemIdx);
    var d := DigitsOf(s, seqIdx, elemIdx);
    PixelRow(d.hIdx, d.mergeH, d.patchH, s.merge, s.patch);
    PixelRow(d.wIdx, d.mergeW, d.patchW, s.merge, s.patch);
  }

  lemma PixelRow(block: nat, inner: nat, pixel: nat, m: nat, p: nat)
    requires pixel < p
    ensures (block * m * p + inner * p + pixel) / p == block * m + inner
  {
    assert (block * m + inner) * p == block * m * p + inner * p;
    Join(block * m + inner, pixel, block * m + inner + 1, p);
  }

  /** The digits of a patch number rebuild it, and name its row and column. */
  lemma PatchNumber(s: Shape, seqIdx: nat) returns (d: Digits)
    requires s.Valid() && seqIdx < s.SeqLength() && 0 < s.C
    ensures InRange(s, d) && 0 < s.MergedGridH() && 0 < s.MergedGridW()
    ensures var gh, gw, m := s.MergedGridH(), s.MergedGridW(), s.merge;
            && seqIdx == (((d.tIdx * gh + d.hIdx) * gw + d.wIdx) * m + d.mergeH) * m + d.mergeW
            && 0 < gh * gw * m * m && d.tIdx == seqIdx / (gh * gw * m * m)
    ensures d.hIdx * s.merge + d.mergeH == PatchRow(s, seqIdx) && d.wIdx * s.merge + d.mergeW == PatchColumn(s, seqIdx)
  {
    PositiveProducts(s.C, s.temporal, s.patch);
    DigitsOfSeqElem(s, seqIdx, 0);
    d := DigitsOf(s, seqIdx, 0);
    PositiveProducts(s.MergedGridH(), s.MergedGridW(), s.merge);
    HornerSeq(d.tIdx, d.hIdx, d.wIdx, d.mergeH, d.mergeW, s.MergedGridH(), s.MergedGridW(), s.merge);
  }

  /** A patch is a square of pixels at its place in the grid, read row by row from its first pixel, one channel after
      the other, frame by frame: the whole reading order in terms of row and column of the patch. */
  lemma PatchIsSquare(s: Shape, seqIdx: nat, c: nat, tp: nat, ph: nat, pw: nat)
    requires s.Valid() && seqIdx < s.SeqLength()
    requires c < s.C && tp < s.temporal && ph < s.patch && pw < s.patch
    ensures 0 < s.MergedGridH() && 0 < s.MergedGridW()
    ensures var perFrame := s.MergedGridH() * s.MergedGridW() * s.merge * s.merge;
            var elemIdx := ((c * s.temporal + tp) * s.patch + ph) * s.patch + pw;
            && 0 < perFrame && 0 <= elemIdx < s.InputDim()
            && SrcIndex(s, seqIdx, elemIdx) ==
               (((seqIdx / perFrame * s.temporal + tp) * s.H + PatchRow(s, seqIdx) * s.patch + ph) * s.W
                 + PatchColumn(s, seqIdx) * s.patch + pw) * s.C + c
  {
    var d := PatchNumber(s, seqIdx);
    PatchReads(s, d.tIdx, d.hIdx, d.wIdx, d.mergeH, d.mergeW, c, tp, ph, pw);
  }

  /** PatchIsSquare with names for the two indices. */
  lemma Reads(s: Shape, seqIdx: nat, c: nat, tp: nat, ph: nat, pw: nat) returns (e: nat, t: nat, h: nat, w: nat)
    requires s.Valid() && seqIdx < s.SeqLength()
    requires c < s.C && tp < s.temporal && ph < s.patch && pw < s.patch
    ensures 0 < s.MergedGridH() && 0 < s.MergedGridW()
    ensures e == ((c * s.temporal + tp) * s.patch + ph) * s.patch + pw
    ensures 0 < s.MergedGridH() * s.MergedGridW() * s.merge * s.merge
    ensures t == seqIdx / (s.MergedGridH() * s.MergedGridW() * s.merge * s.merge) * s.temporal + tp
    ensures h == PatchRow(s, seqIdx) * s.patch + ph && w == PatchColumn(s, seqIdx) * s.patch + pw
    ensures SrcIndex(s, seqIdx, e) == ((t * s.H + h) * s.W + w) * s.C + c
  {
    PatchIsSquare(s, seqIdx, c, tp, ph, pw);
    e := ((c * s.temporal + tp) * s.patch + ph) * s.patch + pw;
    t := seqIdx / (s.MergedGridH() * s.MergedGridW() * s.merge * s.merge) * s.temporal + tp;
    h, w := PatchRow(s, seqIdx) * s.patch + ph, PatchColumn(s, seqIdx) * s.patch + pw;
  }

  lemma RowFurther(t: int, h: int, w: int, c: int, H: int, W: int, C: int)
    ensures ((t * H + (h + 1)) * W + w) * C + c == ((t * H + h) * W + w) * C + c + W * C
  {
    var row := t * H + h;
    assert (row + 1) * W == row * W + W;
    assert (row * W + w + W) * C == (row * W + w) * C + W * C;
  }

  /** In a patch, the next value is the next pixel of its row, and the next row of values is the next row of pixels. */
  lemma PatchRows(s: Shape, seqIdx: nat, c: nat, tp: nat, ph: nat, pw: nat, e: nat)
    requires s.Valid() && seqIdx < s.SeqLength()
    requires c < s.C && tp < s.temporal && ph < s.patch && pw < s.patch
    requires e == ((c * s.temporal + tp) * s.patch + ph) * s.patch + pw
    ensures 0 < s.MergedGridH() && 0 < s.MergedGridW()
    ensures pw + 1 < s.patch ==> SrcIndex(s, seqIdx, e + 1) == SrcIndex(s, seqIdx, e) + s.C
    ensures ph + 1 < s.patch ==> SrcIndex(s, seqIdx, e + s.patch) == SrcIndex(s, seqIdx, e) + s.W * s.C
  {
    var e0, t, h, w := Reads(s, seqIdx, c, tp, ph, pw);
    if pw + 1 < s.patch {
      var e1, t1, h1, w1 := Reads(s, seqIdx, c, tp, ph, pw + 1);
      assert e1 == e + 1 && (t1, h1, w1) == (t, h, w + 1);
      assert ((t * s.H + h) * s.W + (w + 1)) * s.C == ((t * s.H + h) * s.W + w) * s.C + s.C;
    }
    if ph + 1 < s.patch {
      var e1, t1, h1, w1 := Reads(s, seqIdx, c, tp, ph + 1, pw);
      RowFurther(0, (c * s.temporal + tp) * s.patch + ph, 0, pw, 0, s.patch, 1);
      assert e1 == e + s.patch && (t1, h1, w1) == (t, h + 1, w);
      RowFurther(t, h, w, c, s.H, s.W, s.C);
    }
  }

  /** The patch that the loops reach with counters `br`, `bc`, `ir`, `ic`. */
  function LoopIndex(gw: nat, m: nat, br: nat, bc: nat, ir: nat, ic: nat): int {
    br * (gw * m * m) + (bc * (m * m) + (ir * m + ic))
  }

  lemma LoopIndexIsSeqIdx(s: Shape, br: nat, bc: nat, ir: nat, ic: nat)
    requires WholeGrid(s) && br < s.MergedGridH() && bc < s.MergedGridW() && ir < s.merge && ic < s.merge
    ensures 0 <= LoopIndex(s.MergedGridW(), s.merge, br, bc, ir, ic) < s.SeqLength()
    ensures PatchRow(s, LoopIndex(s.MergedGridW(), s.merge, br, bc, ir, ic)) == br * s.merge + ir
    ensures PatchColumn(s, LoopIndex(s.MergedGridW(), s.merge, br, bc, ir, ic)) == bc * s.merge + ic
  {
    Join(1, 0, 2, s.temporal);
    SeqElemOfDigits(s, Digits(0, br, bc, ir, ic, 0, 0, 0, 0));
  }

  /** The counters' index runs on without a gap from one loop level to the next. */
  lemma LoopIndexCarries(gw: nat, m: nat, br: nat, bc: nat, ir: nat)
    ensures LoopIndex(gw, m, br, bc, ir, m) == LoopIndex(gw, m, br, bc, ir + 1, 0)
    ensures LoopIndex(gw, m, br, bc, m, 0) == LoopIndex(gw, m, br, bc + 1, 0, 0)
    ensures LoopIndex(gw, m, br, gw, 0, 0) == LoopIndex(gw, m, br + 1, 0, 0, 0)
  {
    assert (ir + 1) * m == ir * m + m;
    assert (bc + 1) * (m * m) == bc * (m * m) + m * m;
    assert (br + 1) * (gw * m * m) == br * (gw * m * m) + gw * m * m;
    assert gw * (m * m) == gw * m * m;
  }

  /** Where every patch sits in the grid, in output order. */
  ghost function Places(s: Shape): seq<(nat, nat)>
    requires s.Valid() && 0 < s.MergedGridH() && 0 < s.MergedGridW()
  {
    seq(s.SeqLength(), r requires 0 <= r => (PatchRow(s, r), PatchColumn(s, r)))
  }

  /** Column `c` of the row for place (h, w): the first half belongs to h, the second to w. */
  ghost function Angle(invFreq: seq<real>, place: (nat, nat), c: nat): real
    requires c < 2 * |invFreq|
  {
    if c < |invFreq| then place.0 as real * invFreq[c] else place.1 as real * invFreq[c - |invFreq|]
  }

  ghost predicate RowIs(table: array2<real>, r: nat, place: (nat, nat), invFreq: seq<real>, f: real -> real)
    requires r < table.Length0 && table.Length1 == 2 * |invFreq|
    reads table
  {
    forall c :: 0 <= c < table.Length1 ==> table[r, c] == f(Angle(invFreq, place, c))
  }

  /** The first `n` rows belong to the first `n` places. */
  ghost predicate RowsMatch(table: array2<real>, places: seq<(nat, nat)>, n: int, invFreq: seq<real>, f: real -> real)
    requires n <= table.Length0 == |places| && table.Length1 == 2 * |invFreq|
    reads table
  {
    forall r :: 0 <= r < n ==> RowIs(table, r, places[r], invFreq, f)
  }

  /** The innermost loop: one row. */
  method FillRow(table: array2<real>, r: nat, h: nat, w: nat, invFreq: seq<real>, f: real -> real)
    requires r < table.Length0 && table.Length1 == 2 * |invFreq|
    modifies table
    ensures RowIs(table, r, (h, w), invFreq, f)
    ensures forall q, c :: 0 <= q < table.Length0 && q != r && 0 <= c < table.Length1 ==>
              table[q, c] == old(table[q, c])
  {
    var half := |invFreq|;
    var j := 0;
    while j < half
      invariant 0 <= j <= half
      invariant forall c :: 0 <= c < j || half <= c < half + j ==> table[r, c] == f(Angle(invFreq, (h, w), c))
      invariant forall q, c :: 0 <= q < table.Length0 && q != r && 0 <= c < table.Length1 ==>
                  table[q, c] == old(table[q, c])
    {
      assert Angle(invFreq, (h, w), j) == h as real * invFreq[j];
      assert Angle(invFreq, (h, w), half + j) == w as real * invFreq[j];
      table[r, j] := f(h as real * invFreq[j]);
      table[r, half + j] := f(w as real * invFreq[j]);
      j := j + 1;
    }
  }

  method FillNext(table: array2<real>, ghost places: seq<(nat, nat)>, r: nat, h: nat, w: nat, invFreq: seq<real>,
                  f: real -> real)
    requires r < table.Length0 == |places| && table.Length1 == 2 * |invFreq|
    requires RowsMatch(table, places, r, invFreq, f) && places[r] == (h, w)
    modifies table
    ensures RowsMatch(table, places, r + 1, invFreq, f)
  {
    FillRow(table, r, h, w, invFreq, f);
    forall q | 0 <= q < r ensures RowIs(table, q, places[q], invFreq, f) {
      assert old(RowIs(table, q, places[q], invFreq, f));
    }
  }

  /** The loops of computeRotaryPosEmbCPU for one of the two tables: row by row, they fill every row once, each with
      the grid position of the patch that the transposition puts in that row. */
  method FillTable(s: Shape, table: array2<real>, invFreq: seq<real>, f: real -> real)
    requires WholeGrid(s) && 0 < s.MergedGridH() && 0 < s.MergedGridW()
    requires table.Length0 == s.H / s.patch * (s.W / s.patch) && table.Length1 == 2 * |invFreq|
    modifies table
    ensures table.Length0 == s.SeqLength() && RowsMatch(table, Places(s), table.Length0, invFreq, f)
  {
    var gh, gw, m := s.MergedGridH(), s.MergedGridW(), s.merge;
    GridIsSequence(s);
    var patchIdx := 0;
    var br := 0;
    while br < gh
      invariant 0 <= br <= gh && patchIdx == LoopIndex(gw, m, br, 0, 0, 0) && 0 <= patchIdx <= table.Length0
      invariant RowsMatch(table, Places(s), patchIdx, invFreq, f)
    {
      var bc := 0;
      while bc < gw
        invariant 0 <= bc <= gw && patchIdx == LoopIndex(gw, m, br, bc, 0, 0) && 0 <= patchIdx <= table.Length0
        invariant RowsMatch(table, Places(s), patchIdx, invFreq, f)
      {
        patchIdx := FillBlock(s, table, patchIdx, br, bc, invFreq, f);
        LoopIndexCarries(gw, m, br, bc, 0);
        bc := bc + 1;
      }
      LoopIndexCarries(gw, m, br, 0, 0);
      br := br + 1;
    }
  }

  /** The two inner loops: the patches of one block. */
  method FillBlock(s: Shape, table: array2<real>, first: nat, br: nat, bc: nat, invFreq: seq<real>, f: real -> real)
      returns (patchIdx: nat)
    requires WholeGrid(s) && br < s.MergedGridH() && bc < s.MergedGridW()
    requires table.Length0 == s.SeqLength() && table.Length1 == 2 * |invFreq|
    requires first == LoopIndex(s.MergedGridW(), s.merge, br, bc, 0, 0) && first <= table.Length0
    requires RowsMatch(table, Places(s), first, invFreq, f)
    modifies table
    ensures patchIdx == LoopIndex(s.MergedGridW(), s.merge, br, bc, s.merge, 0) && patchIdx <= table.Length0
    ensures RowsMatch(table, Places(s), patchIdx, invFreq, f)
  {
    var gw, m := s.MergedGridW(), s.merge;
    patchIdx := first;
    var ir := 0;
    while ir < m
      invariant 0 <= ir <= m && patchIdx == LoopIndex(gw, m, br, bc, ir, 0) && patchIdx <= table.Length0
      invariant RowsMatch(table, Places(s), patchIdx, invFreq, f)
    {
      var ic := 0;
      while ic < m
        invariant 0 <= ic <= m && patchIdx == LoopIndex(gw, m, br, bc, ir, ic) && patchIdx <= table.Length0
        invariant RowsMatch(table, Places(s), patchIdx, invFreq, f)
      {
        LoopIndexIsSeqIdx(s, br, bc, ir, ic);
        FillNext(table, Places(s), patchIdx, br * m + ir, bc * m + ic, invFreq, f);
        patchIdx := patchIdx + 1;
        ic := ic + 1;
      }
      LoopIndexCarries(gw, m, br, bc, ir);
      ir := ir + 1;
    }
  }

  /** The number of grid positions is the number of patches, and the counters' index ends there. */
  lemma GridIsSequence(s: Shape)
    requires WholeGrid(s)
    ensures s.H / s.patch * (s.W / s.patch) == s.SeqLength()
    ensures s.SeqLength() == LoopIndex(s.MergedGridW(), s.merge, s.MergedGridH(), 0, 0, 0)
  {
    var gh, gw, m := s.MergedGridH(), s.MergedGridW(), s.merge;
    Join(1, 0, 2, s.temporal);
    assert s.GridT() == 1;
    assert s.H / s.patch == gh * m && s.W / s.patch == gw * m;
    BlocksTimesPatches(gh, gw, m);
  }

  lemma BlocksTimesPatches(gh: nat, gw: nat, m: nat)
    ensures (gh * m) * (gw * m) == 1 * gh * gw * m * m == gh * (gw * m * m)
  {
    assert (gh * m) * (gw * m) == gh * (m * (gw * m));
    assert m * (gw * m) == gw * m * m;
    ProductOfFour(gh, gw, m);
    assert gh * gw * m * m == gh * (gw * m * m);
  }
}
