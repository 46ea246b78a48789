/** Normalising a frame, replicating it in time and cutting it into patches, against the fused kernel that does
    all three at once. Values are exact reals. */
module FusedPatches {
  import opened PatchLayout

  /** Per-channel constants, for at least the channels in use. */
  datatype Channels = Channels(mean: seq<real>, std: seq<real>) {
    ghost predicate Fit(C: nat) {
      C <= |mean| && C <= |std| && forall c :: 0 <= c < C ==> std[c] != 0.0
    }
  }

  /** (pixel / 255 - mean) / std. */
  function Normal(pixel: nat, c: nat, ch: Channels): real
    requires c < |ch.mean| && c < |ch.std| && ch.std[c] != 0.0
  {
    (pixel as real / 255.0 - ch.mean[c]) / ch.std[c]
  }

  /** Undoing the standardisation gives the pixel back, as a fraction of full brightness. */
  lemma NormalUndone(pixel: nat, c: nat, ch: Channels)
    requires c < |ch.mean| && c < |ch.std| && ch.std[c] != 0.0
    ensures Normal(pixel, c, ch) * ch.std[c] + ch.mean[c] == pixel as real / 255.0
  {
    var x := pixel as real / 255.0 - ch.mean[c];
    assert x / ch.std[c] * ch.std[c] == x;
  }

  ghost function Normalized(frame: seq<nat>, C: nat, ch: Channels): seq<real>
    requires 0 < C && ch.Fit(C)
  {
    seq(|frame|, i requires 0 <= i < |frame| => Normal(frame[i], i % C, ch))
  }

  /** `copies` copies of a frame, one after the other. */
  ghost function Replicated(frame: seq<real>, copies: nat): seq<real> {
    seq(copies * |frame|, k requires 0 <= k => if |frame| == 0 then 0.0 else frame[k % |frame|])
  }

  /** normalizeImageCPU, into the part of `dst` that starts at `base`. */
  method NormalizeImage(frame: seq<nat>, dst: array<real>, base: nat, height: nat, width: nat, C: nat, ch: Channels)
    requires 0 < C && ch.Fit(C) && |frame| == height * width * C && base + |frame| <= dst.Length
    modifies dst
    ensures dst[..] == old(dst[..])[..base] + Normalized(frame, C, ch) + old(dst[..])[base + |frame|..]
  {
    ghost var normal := Normalized(frame, C, ch);
    ghost var was := dst[..];
    var h := 0;
    while h < height
      invariant 0 <= h <= height && 0 <= h * width * C <= |frame|
      invariant dst[..] == was[..base] + normal[..h * width * C] + was[base + h * width * C..]
    {
      RowFits(h, height, width, C);
      NormalizeRow(frame, dst, base, h * width, width, C, ch, normal, was);
      h := h + 1;
    }
    assert normal[..|frame|] == normal;
  }

  lemma RowFits(h: nat, height: nat, width: nat, C: nat)
    requires h < height
    ensures 0 <= h * width && 0 <= h * width * C
    ensures (h + 1) * width * C == (h * width + width) * C <= height * width * C
  {
    assert (h + 1) * width == h * width + width;
    assert (h + 1) * width <= height * width;
    assert ((h + 1) * width) * C <= (height * width) * C;
  }

  lemma PixelFits(pixel: nat, end: nat, C: nat)
    requires pixel < end
    ensures 0 <= pixel * C && (pixel + 1) * C == pixel * C + C <= end * C
  {
    assert (pixel + 1) * C <= end * C;
  }

  /** One row of normalizeImageCPU, which starts at pixel number `first`. */
  method NormalizeRow(frame: seq<nat>, dst: array<real>, base: nat, first: nat, width: nat, C: nat, ch: Channels,
                      ghost normal: seq<real>, ghost was: seq<real>)
    requires 0 < C && ch.Fit(C) && normal == Normalized(frame, C, ch) && |was| == dst.Length
    requires 0 <= first * C <= (first + width) * C <= |frame| && base + |frame| <= dst.Length
    requires dst[..] == was[..base] + normal[..first * C] + was[base + first * C..]
    modifies dst
    ensures dst[..] == was[..base] + normal[..(first + width) * C] + was[base + (first + width) * C..]
  {
    var pixel := first;
    while pixel < first + width
      invariant first <= pixel <= first + width && 0 <= pixel * C <= (first + width) * C
      invariant dst[..] == was[..base] + normal[..pixel * C] + was[base + pixel * C..]
    {
      PixelFits(pixel, first + width, C);
      NormalizePixel(frame, dst, base, pixel, C, ch, normal, was);
      pixel := pixel + 1;
    }
  }

  /** The channels of one pixel. */
  method NormalizePixel(frame: seq<nat>, dst: array<real>, base: nat, pixel: nat, C: nat, ch: Channels,
                        ghost normal: seq<real>, ghost was: seq<real>)
    requires 0 < C && ch.Fit(C) && normal == Normalized(frame, C, ch) && |was| == dst.Length
    requires 0 <= pixel * C && pixel * C + C <= |frame| && base + |frame| <= dst.Length
    requires dst[..] == was[..base] + normal[..pixel * C] + was[base + pixel * C..]
    modifies dst
    ensures dst[..] == was[..base] + normal[..pixel * C + C] + was[base + pixel * C + C..]
  {
    var start := pixel * C;
    var c := 0;
    while c < C
      invariant 0 <= c <= C
      invariant dst[..] == was[..base] + normal[..start + c] + was[base + start + c..]
    {
      ChannelOf(pixel, c, C);
      dst[base + start + c] := Normal(frame[start + c], c, ch);
      c := c + 1;
    }
  }

  lemma ChannelOf(pixel: nat, c: nat, C: nat)
    requires c < C
    ensures (pixel * C + c) % C == c
  {
    Join(pixel, c, pixel + 1, C);
  }

  /** The replication loop of preprocessImage. */
  method Replicate(frame: seq<nat>, dst: array<real>, copies: nat, height: nat, width: nat, C: nat, ch: Channels)
    requires 0 < C && ch.Fit(C) && |frame| == height * width * C && dst.Length == copies * |frame|
    modifies dst
    ensures dst[..] == Replicated(Normalized(frame, C, ch), copies)
  {
    ghost var normal := Normalized(frame, C, ch);
    ghost var all := Replicated(normal, copies);
    var t := 0;
    while t < copies
      invariant 0 <= t <= copies && 0 <= t * |frame| <= dst.Length
      invariant dst[..t * |frame|] == all[..t * |frame|]
    {
      CopyAt(normal, copies, t);
      NormalizeImage(frame, dst, t * |frame|, height, width, C, ch);
      assert dst[..(t + 1) * |frame|] == all[..t * |frame|] + normal;
      t := t + 1;
    }
  }

  lemma CopyAt(frame: seq<real>, copies: nat, t: nat)
    requires t < copies
    ensures 0 <= t * |frame| && (t + 1) * |frame| == t * |frame| + |frame| <= copies * |frame|
    ensures Replicated(frame, copies)[..(t + 1) * |frame|] == Replicated(frame, copies)[..t * |frame|] + frame
  {
    PixelFits(t, copies, |frame|);
    var all, start := Replicated(frame, copies), t * |frame|;
    forall i | 0 <= i < |frame| ensures all[start + i] == frame[i] {
      Join(t, i, copies, |frame|);
    }
    assert all[..start + |frame|] == all[..start] + all[start..start + |frame|];
    assert all[start..start + |frame|] == frame;
  }

  // The fused kernel

  /** transpose_to_patch_from_uchar: the block and patch of a work item, without a time axis. */
  function FusedBlock(s: Shape, seqIdx: nat): (nat, nat, nat, nat)
    requires s.Valid() && 0 < s.MergedGridH() && 0 < s.MergedGridW()
  {
    var m, gw := s.merge, s.MergedGridW();
    PositiveProducts(1, gw, m);
    var (hIdx, r1) := DivMod(seqIdx, gw * m * m);
    var (wIdx, r2) := DivMod(r1, m * m);
    var (mergeH, mergeW) := DivMod(r2, m);
    (hIdx, wIdx, mergeH, mergeW)
  }

  /** The byte that the kernel reads. */
  function FusedIndex(s: Shape, seqIdx: nat, elemIdx: nat): nat
    requires s.Valid() && 0 < s.MergedGridH() && 0 < s.MergedGridW()
  {
    var b := FusedBlock(s, seqIdx);
    var e := PatchDigits(s, elemIdx);
    var srcH := AxisPos(b.0, s.merge, b.2, s.patch, e.2);
    var srcW := AxisPos(b.1, s.merge, b.3, s.patch, e.3);
    Joined(Joined(srcH, s.W, srcW), 3, e.0)
  }

  /** The kernel's choice among its three per-channel arguments. */
  function Pick(c: nat, xs: seq<real>): real
    requires |xs| == 3
  {
    if c == 0 then xs[0] else if c == 1 then xs[1] else xs[2]
  }

  function FusedValue(s: Shape, frame: seq<nat>, mean: seq<real>, invStd: seq<real>, seqIdx: nat, elemIdx: nat): real
    requires s.Valid() && 0 < s.MergedGridH() && 0 < s.MergedGridW() && |mean| == |invStd| == 3
    requires FusedIndex(s, seqIdx, elemIdx) < |frame|
  {
    var c := PatchDigits(s, elemIdx).0;
    (frame[FusedIndex(s, seqIdx, elemIdx)] as real / 255.0 - Pick(c, mean)) * Pick(c, invStd)
  }

  /** One temporal patch of an RGB frame. */
  ghost predicate OneStep(s: Shape) { s.Valid() && s.T == s.temporal && s.C == 3 }

  /** The kernel reads the byte from which the transposition's source value was computed. */
  lemma FusedReadsSameByte(s: Shape, seqIdx: nat, elemIdx: nat)
    requires OneStep(s) && seqIdx < s.SeqLength() && elemIdx < s.InputDim()
    ensures 0 < s.MergedGridH() && 0 < s.MergedGridW() && 0 < s.H * s.W * 3
    ensures 0 <= SrcIndex(s, seqIdx, elemIdx) < s.T * (s.H * s.W * 3)
    ensures SrcIndex(s, seqIdx, elemIdx) % (s.H * s.W * 3) == FusedIndex(s, seqIdx, elemIdx) < s.H * s.W * 3
    ensures FusedIndex(s, seqIdx, elemIdx) % 3 == PatchDigits(s, elemIdx).0 < 3
  {
    DigitsOfSeqElem(s, seqIdx, elemIdx);
    var d := DigitsOf(s, seqIdx, elemIdx);
    OneGridStep(s, seqIdx);
    CoordsInRange(s, d);
    var t, h, w := SrcT(s, d), SrcH(s, d), SrcW(s, d);
    assert FusedIndex(s, seqIdx, elemIdx) == (h * s.W + w) * 3 + d.cIdx;
    FrameOffset(t, h, w, d.cIdx, s.T, s.H, s.W);
  }

  /** With one grid step in time, the first digit is zero and drops out. */
  lemma OneGridStep(s: Shape, seqIdx: nat)
    requires OneStep(s) && 0 < s.MergedGridH() && 0 < s.MergedGridW() && seqIdx < s.SeqLength()
    ensures var b := BlockDigits(s, seqIdx);
            b.0 == 0 && (b.1, b.2, b.3, b.4) == FusedBlock(s, seqIdx)
  {
    Join(1, 0, 2, s.temporal);
    assert s.GridT() == 1;
    var A := s.MergedGridH() * s.MergedGridW() * s.merge * s.merge;
    ProductOfFive(1, s.MergedGridH(), s.MergedGridW(), s.merge);
    Join(0, seqIdx, 1, A);
  }

  lemma FrameOffset(t: nat, h: nat, w: nat, c: nat, T: nat, H: nat, W: nat)
    requires t < T && h < H && w < W && c < 3
    ensures var i := t * H * W * 3 + h * W * 3 + w * 3 + c;
            var size := H * W * 3;
            0 <= (h * W + w) * 3 + c < size && 0 <= i < T * size && i % size == (h * W + w) * 3 + c
    ensures ((h * W + w) * 3 + c) % 3 == c
  {
    Join(h, w, H, W);
    Join(h * W + w, c, H * W, 3);
    Join(t, (h * W + w) * 3 + c, T, H * W * 3);
    assert t * H * W * 3 == t * (H * W * 3) by {
      assert t * H * W == t * (H * W);
    }
  }

  /** The fused value is the value that the simple pipeline puts in the same place. */
  lemma FusedEqualsPipeline(s: Shape, frame: seq<nat>, ch: Channels, invStd: seq<real>, seqIdx: nat, elemIdx: nat)
    requires OneStep(s) && |frame| == s.H * s.W * 3 && ch.Fit(3) && |ch.mean| == |invStd| == 3
    requires forall c :: 0 <= c < 3 ==> invStd[c] == 1.0 / ch.std[c]
    requires seqIdx < s.SeqLength() && elemIdx < s.InputDim()
    ensures 0 < s.MergedGridH() && 0 < s.MergedGridW() && FusedIndex(s, seqIdx, elemIdx) < |frame|
    ensures 0 <= seqIdx * s.InputDim() + elemIdx < s.SeqLength() * s.InputDim()
    ensures |Replicated(Normalized(frame, 3, ch), s.T)| == s.T * s.H * s.W * s.C
    ensures Patches(s, Replicated(Normalized(frame, 3, ch), s.T))[seqIdx * s.InputDim() + elemIdx]
         == FusedValue(s, frame, ch.mean, invStd, seqIdx, elemIdx)
  {
    var clip := Replicated(Normalized(frame, 3, ch), s.T);
    assert s.T * (s.H * s.W * 3) == s.T * s.H * s.W * 3 by {
      assert s.T * s.H * s.W == s.T * (s.H * s.W);
    }
    PatchAt(s, clip, seqIdx, elemIdx);
    FusedReadsSameByte(s, seqIdx, elemIdx);
    ClipAt(frame, ch, s.T, SrcIndex(s, seqIdx, elemIdx));
    FusedIsNormal(s, frame, ch, invStd, seqIdx, elemIdx);
  }

  lemma ClipAt(frame: seq<nat>, ch: Channels, copies: nat, k: nat)
    requires ch.Fit(3) && 0 < |frame| && k < copies * |frame|
    ensures Replicated(Normalized(frame, 3, ch), copies)[k] == Normal(frame[k % |frame|], k % |frame| % 3, ch)
  {
  }

  lemma FusedIsNormal(s: Shape, frame: seq<nat>, ch: Channels, invStd: seq<real>, seqIdx: nat, elemIdx: nat)
    requires ch.Fit(3) && |ch.mean| == |invStd| == 3 && forall c :: 0 <= c < 3 ==> invStd[c] == 1.0 / ch.std[c]
    requires s.Valid() && 0 < s.MergedGridH() && 0 < s.MergedGridW() && FusedIndex(s, seqIdx, elemIdx) < |frame|
    requires FusedIndex(s, seqIdx, elemIdx) % 3 == PatchDigits(s, elemIdx).0 < 3
    ensures FusedValue(s, frame, ch.mean, invStd, seqIdx, elemIdx)
         == Normal(frame[FusedIndex(s, seqIdx, elemIdx)], FusedIndex(s, seqIdx, elemIdx) % 3, ch)
  {
    var i := FusedIndex(s, seqIdx, elemIdx);
    var c := PatchDigits(s, elemIdx).0;
    assert Pick(c, ch.mean) == ch.mean[c] && Pick(c, invStd) == 1.0 / ch.std[c];
    Reciprocal(frame[i] as real / 255.0 - ch.mean[c], ch.std[c]);
  }

  lemma Reciprocal(x: real, y: real)
    requires y != 0.0
    ensures x * (1.0 / y) == x / y
  {
  }

  /** Which byte of the frame the kernel reads for each output position: the channels of a pixel are neighbours in
      the frame and planes in the output, and every frame of the patch is the same one. */
  lemma FusedReads(s: Shape, h: nat, w: nat, mh: nat, mw: nat, c: nat, tp: nat, ph: nat, pw: nat)
    requires OneStep(s) && h < s.H / s.patch / s.merge && w < s.W / s.patch / s.merge
    requires mh < s.merge && mw < s.merge && c < 3 && tp < s.temporal && ph < s.patch && pw < s.patch
    ensures var gw, m, p := s.W / s.patch / s.merge, s.merge, s.patch;
            var seqIdx := ((h * gw + w) * m + mh) * m + mw;
            var elemIdx := ((c * s.temporal + tp) * p + ph) * p + pw;
            && 0 <= seqIdx < s.SeqLength() && 0 <= elemIdx < s.InputDim()
            && 0 < s.MergedGridH() && 0 < s.MergedGridW()
            && FusedIndex(s, seqIdx, elemIdx) == (((h * m + mh) * p + ph) * s.W + (w * m + mw) * p + pw) * 3 + c
  {
    var d := Digits(0, h, w, mh, mw, c, tp, ph, pw);
    Join(1, 0, 2, s.temporal);
    SeqElemOfDigits(s, d);
    OneGridStep(s, SeqOf(s, d));
    HornerSeq(0, h, w, mh, mw, s.MergedGridH(), s.MergedGridW(), s.merge);
    HornerElem(c, tp, ph, pw, s.temporal, s.patch);
    assert FusedIndex(s, SeqOf(s, d), ElemOf(s, d)) == (SrcH(s, d) * s.W + SrcW(s, d)) * 3 + c;
    AxisNested(h, s.merge, mh, s.patch, ph);
    AxisNested(w, s.merge, mw, s.patch, pw);
  }

  // The kernel run by any schedule of its work items

  ghost predicate RowDone(output: seq<real>, want: seq<real>, dim: nat, row: nat) {
    && |output| == |want| && 0 <= row * dim <= row * dim + dim <= |output|
    && output[row * dim..row * dim + dim] == want[row * dim..row * dim + dim]
  }

  /** Between `before` and `after`, only row number `row` was written. */
  ghost predicate OnlyRow(before: seq<real>, after: seq<real>, dim: nat, row: nat) {
    && |after| == |before| && 0 <= row * dim <= row * dim + dim <= |before|
    && after[..row * dim] == before[..row * dim] && after[row * dim + dim..] == before[row * dim + dim..]
  }

  lemma OtherRowsStay(before: seq<real>, after: seq<real>, want: seq<real>, dim: nat, row: nat, other: nat)
    requires OnlyRow(before, after, dim, row) && RowDone(before, want, dim, other) && row != other
    ensures RowDone(after, want, dim, other)
  {
    if other < row {
      PixelFits(other, row, dim);
    } else {
      PixelFits(row, other, dim);
    }
    OtherPartsStay(before, after, row * dim, other * dim, dim);
  }

  lemma OtherPartsStay(before: seq<real>, after: seq<real>, a: nat, b: nat, n: nat)
    requires a + n <= |before| == |after| && b + n <= |before| && (b + n <= a || a + n <= b)
    requires after[..a] == before[..a] && after[a + n..] == before[a + n..]
    ensures after[b..b + n] == before[b..b + n]
  {
    forall i | b <= i < b + n ensures after[i] == before[i] {
      if i < a {
        assert after[..a][i] == before[..a][i];
      } else {
        assert after[a + n..][i - a - n] == before[a + n..][i - a - n];
      }
    }
  }

  lemma AllRowsDone(output: seq<real>, want: seq<real>, dim: nat, rows: nat)
    requires |output| == |want| == rows * dim
    requires forall r {:trigger RowDone(output, want, dim, r)} :: 0 <= r < rows ==> RowDone(output, want, dim, r)
    ensures output == want
  {
    forall k | 0 <= k < |output| ensures output[k] == want[k] {
      assert dim != 0;
      Split(k, rows, dim);
      var r, e := k / dim, k % dim;
      assert RowDone(output, want, dim, r);
      assert output[r * dim..r * dim + dim][e] == want[r * dim..r * dim + dim][e];
    }
  }

  /** What the work item writes into element `e` of its row is the value wanted there. */
  ghost predicate Wanted(s: Shape, frame: seq<nat>, mean: seq<real>, invStd: seq<real>, want: seq<real>,
                         seqIdx: nat, e: nat)
    requires s.Valid() && |mean| == |invStd| == 3
  {
    && 0 < s.MergedGridH() && 0 < s.MergedGridW() && FusedIndex(s, seqIdx, e) < |frame|
    && 0 <= seqIdx * s.InputDim() + e < |want|
    && want[seqIdx * s.InputDim() + e] == FusedValue(s, frame, mean, invStd, seqIdx, e)
  }

  /** One work item of transpose_to_patch_from_uchar, with global id `seqIdx`; `base` is where its row starts. */
  method FusedItem(s: Shape, frame: seq<nat>, mean: seq<real>, invStd: seq<real>, output: array<real>, seqIdx: nat,
                   base: nat, ghost want: seq<real>)
    requires s.Valid() && |mean| == |invStd| == 3 && output.Length == |want|
    requires base == seqIdx * s.InputDim() && base + s.InputDim() <= output.Length
    requires forall e {:trigger Wanted(s, frame, mean, invStd, want, seqIdx, e)} :: 0 <= e < s.InputDim() ==>
               Wanted(s, frame, mean, invStd, want, seqIdx, e)
    modifies output
    ensures RowDone(output[..], want, s.InputDim(), seqIdx)
    ensures OnlyRow(old(output[..]), output[..], s.InputDim(), seqIdx)
  {
    var dim := s.InputDim();
    var elemIdx := 0;
    while elemIdx < dim
      invariant 0 <= elemIdx <= dim
      invariant output[..base] == old(output[..base]) && output[base + dim..] == old(output[base + dim..])
      invariant output[base..base + elemIdx] == want[base..base + elemIdx]
    {
      assert Wanted(s, frame, mean, invStd, want, seqIdx, elemIdx);
      output[base + elemIdx] := FusedValue(s, frame, mean, invStd, seqIdx, elemIdx);
      elemIdx := elemIdx + 1;
    }
  }

  /** The fused kernel, its items run in any order that covers all patches (some ids may lie beyond the last one),
      fills the output with what normalising, replicating and transposing give. */
  method FusedTranspose(s: Shape, frame: seq<nat>, ch: Channels, invStd: seq<real>, output: array<real>,
                        order: seq<nat>)
    requires OneStep(s) && |frame| == s.H * s.W * 3 && ch.Fit(3) && |ch.mean| == |invStd| == 3
    requires forall c :: 0 <= c < 3 ==> invStd[c] == 1.0 / ch.std[c]
    requires output.Length == s.SeqLength() * s.InputDim()
    requires forall id :: 0 <= id < s.SeqLength() ==> id in order
    modifies output
    ensures |Replicated(Normalized(frame, 3, ch), s.T)| == s.T * s.H * s.W * s.C
    ensures output[..] == Patches(s, Replicated(Normalized(frame, 3, ch), s.T))
  {
    ClipSize(s, Normalized(frame, 3, ch));
    ghost var want := Patches(s, Replicated(Normalized(frame, 3, ch), s.T));
    var n := 0;
    while n < |order|
      invariant 0 <= n <= |order|
      invariant forall j :: 0 <= j < n && order[j] < s.SeqLength() ==> RowDone(output[..], want, s.InputDim(), order[j])
    {
      ghost var before := output[..];
      var id := order[n];
      if id < s.SeqLength() {
        RowsFit(id, s.SeqLength(), s.InputDim());
        ItemWants(s, frame, ch, invStd, id);
        FusedItem(s, frame, ch.mean, invStd, output, id, id * s.InputDim(), want);
        forall j | 0 <= j < n && order[j] < s.SeqLength()
          ensures RowDone(output[..], want, s.InputDim(), order[j])
        {
          if order[j] != id {
            OtherRowsStay(before, output[..], want, s.InputDim(), id, order[j]);
          }
        }
      }
      n := n + 1;
    }
    forall r | 0 <= r < s.SeqLength() ensures RowDone(output[..], want, s.InputDim(), r) {
      assert r in order;
    }
    AllRowsDone(output[..], want, s.InputDim(), s.SeqLength());
  }

  lemma ClipSize(s: Shape, frame: seq<real>)
    requires OneStep(s) && |frame| == s.H * s.W * 3
    ensures |Replicated(frame, s.T)| == s.T * s.H * s.W * s.C
  {
    assert s.T * (s.H * s.W * 3) == s.T * s.H * s.W * 3 by {
      assert s.T * s.H * s.W == s.T * (s.H * s.W);
    }
  }

  lemma ItemWants(s: Shape, frame: seq<nat>, ch: Channels, invStd: seq<real>, seqIdx: nat)
    requires OneStep(s) && |frame| == s.H * s.W * 3 && ch.Fit(3) && |ch.mean| == |invStd| == 3
    requires forall c :: 0 <= c < 3 ==> invStd[c] == 1.0 / ch.std[c]
    requires seqIdx < s.SeqLength()
    ensures |Replicated(Normalized(frame, 3, ch), s.T)| == s.T * s.H * s.W * s.C
    ensures var want := Patches(s, Replicated(Normalized(frame, 3, ch), s.T));
            forall e {:trigger Wanted(s, frame, ch.mean, invStd, want, seqIdx, e)} :: 0 <= e < s.InputDim() ==>
              Wanted(s, frame, ch.mean, invStd, want, seqIdx, e)
  {
    ClipSize(s, Normalized(frame, 3, ch));
    var want := Patches(s, Replicated(Normalized(frame, 3, ch), s.T));
    forall e | 0 <= e < s.InputDim() ensures Wanted(s, frame, ch.mean, invStd, want, seqIdx, e) {
      FusedEqualsPipeline(s, frame, ch, invStd, seqIdx, e);
    }
  }
}
