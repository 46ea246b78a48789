/** The frame filter: a frame is dropped while it shows the same tracked objects in nearly the same places as the
    last frame that passed. Coordinates are exact reals. */
module Deduper {
  datatype Box = Box(left: real, top: real, right: real, bottom: real) {
    ghost predicate WellFormed() { left <= right && top <= bottom }
    function Area(): real { (right - left) * (bottom - top) }
  }

  datatype TrackEntry = TrackEntry(name: string, trackId: nat, box: Box)

  // Keys

  function Digit(d: nat): char
    requires d < 10
  {
    "0123456789"[d]
  }

  /** std::to_string of an unsigned number. */
  function Decimal(n: nat): (s: string)
    ensures s != []
  {
    if n < 10 then [Digit(n)] else Decimal(n / 10) + [Digit(n % 10)]
  }

  function Label(e: TrackEntry): string { if e.name == "" then "unknown" else e.name }

  function MakeKey(e: TrackEntry): string {
    Label(e) + "#" + Decimal(e.trackId)
  }

  lemma DigitInjective(a: nat, b: nat)
    requires a < 10 && b < 10 && Digit(a) == Digit(b)
    ensures a == b && Digit(a) != '#'
  {
  }

  lemma {:induction false} DecimalInjective(m: nat, n: nat)
    requires Decimal(m) == Decimal(n)
    ensures m == n
  {
    var s, t := Decimal(m), Decimal(n);
    assert s[|s| - 1] == Digit(m % 10) && t[|t| - 1] == Digit(n % 10);
    DigitInjective(m % 10, n % 10);
    if m >= 10 && n >= 10 {
      assert s[..|s| - 1] == Decimal(m / 10) && t[..|t| - 1] == Decimal(n / 10);
      DecimalInjective(m / 10, n / 10);
    }
  }

  lemma {:induction false} DecimalHasNoHash(n: nat)
    ensures '#' !in Decimal(n)
  {
    DigitInjective(n % 10, n % 10);
    if n >= 10 {
      DecimalHasNoHash(n / 10);
    }
  }

  /** A hash followed by something without a hash splits a string in only one way. */
  lemma SplitAtLastHash(a: string, b: string, c: string, d: string)
    requires a + "#" + b == c + "#" + d && '#' !in b && '#' !in d
    ensures a == c && b == d
  {
    HashNotLater(a, b, c, d);
    HashNotLater(c, d, a, b);
    var s := a + "#" + b;
    assert s == c + "#" + d;
    assert s[..|a|] == a && s[..|c|] == c && s[|a| + 1..] == b && s[|c| + 1..] == d;
  }

  lemma HashNotLater(a: string, b: string, c: string, d: string)
    requires a + "#" + b == c + "#" + d && '#' !in b
    ensures |c| <= |a|
  {
    var s := a + "#" + b;
    assert (c + "#" + d)[|c|] == '#';
    assert forall i :: |a| < i < |s| ==> s[i] == b[i - |a| - 1];
  }

  /** For non-empty labels, two entries have one key only if they agree in label and track id. */
  lemma KeyInjective(e: TrackEntry, f: TrackEntry)
    requires e.name != "" && f.name != ""
    ensures MakeKey(e) == MakeKey(f) <==> e.name == f.name && e.trackId == f.trackId
  {
    if MakeKey(e) == MakeKey(f) {
      DecimalHasNoHash(e.trackId);
      DecimalHasNoHash(f.trackId);
      SplitAtLastHash(e.name, Decimal(e.trackId), f.name, Decimal(f.trackId));
      DecimalInjective(e.trackId, f.trackId);
    }
  }

  /** In general the empty label counts as "unknown". */
  lemma KeysCollideIff(e: TrackEntry, f: TrackEntry)
    ensures MakeKey(e) == MakeKey(f) <==> e.trackId == f.trackId && Label(e) == Label(f)
  {
    KeyInjective(e.(name := Label(e)), f.(name := Label(f)));
  }

  // Overlap

  function Max(a: real, b: real): real { if a < b then b else a }
  function Min(a: real, b: real): real { if b < a then b else a }

  function Overlap(a: Box, b: Box): real {
    Max(0.0, Min(a.right, b.right) - Max(a.left, b.left)) * Max(0.0, Min(a.bottom, b.bottom) - Max(a.top, b.top))
  }

  /** CalculateIoU. */
  function IoU(a: Box, b: Box): real {
    var union := a.Area() + b.Area() - Overlap(a, b);
    if union <= 0.0 then 0.0 else Overlap(a, b) / union
  }

  predicate Contains(b: Box, x: real, y: real) { b.left <= x <= b.right && b.top <= y <= b.bottom }

  /** Box `c` is what the boxes `a` and `b` have in common. */
  ghost predicate IsCommon(a: Box, b: Box, c: Box) {
    c.WellFormed() && forall x: real, y: real :: Contains(c, x, y) <==> Contains(a, x, y) && Contains(b, x, y)
  }

  lemma CommonBox(a: Box, b: Box, c: Box)
    requires IsCommon(a, b, c)
    ensures c == Box(Max(a.left, b.left), Max(a.top, b.top), Min(a.right, b.right), Min(a.bottom, b.bottom))
  {
    assert Contains(c, c.left, c.top) && Contains(c, c.right, c.bottom);
    var left, top := Max(a.left, b.left), Max(a.top, b.top);
    var right, bottom := Min(a.right, b.right), Min(a.bottom, b.bottom);
    assert Contains(a, left, top) && Contains(b, left, top);
    assert Contains(c, left, top);
    assert Contains(a, right, bottom) && Contains(b, right, bottom);
    assert Contains(c, right, bottom);
  }

  lemma OverlapIsCommon(a: Box, b: Box, c: Box)
    requires IsCommon(a, b, c)
    ensures Overlap(a, b) == c.Area()
  {
    CommonBox(a, b, c);
    assert Max(0.0, c.right - c.left) == c.right - c.left && Max(0.0, c.bottom - c.top) == c.bottom - c.top;
  }

  /** The ratio is the area of what the boxes have in common over the area of what they cover together. */
  lemma IoUIsCommonOverCovered(a: Box, b: Box, c: Box)
    requires a.WellFormed() && b.WellFormed() && IsCommon(a, b, c)
    ensures var covered := a.Area() + b.Area() - c.Area();
            IoU(a, b) == if covered <= 0.0 then 0.0 else c.Area() / covered
  {
    OverlapIsCommon(a, b, c);
  }

  /** Boxes without a common point have ratio zero, and a box inside another has the quotient of the areas. */
  lemma IoUOfApartAndNested(a: Box, b: Box)
    requires a.WellFormed() && b.WellFormed() && 0.0 < b.Area()
    ensures (forall x: real, y: real :: !(Contains(a, x, y) && Contains(b, x, y))) ==> IoU(a, b) == 0.0
    ensures (forall x: real, y: real :: Contains(a, x, y) ==> Contains(b, x, y)) ==> IoU(a, b) == a.Area() / b.Area()
  {
    var left, top := Max(a.left, b.left), Max(a.top, b.top);
    if forall x: real, y: real :: !(Contains(a, x, y) && Contains(b, x, y)) {
      assert !(Contains(a, left, top) && Contains(b, left, top));
      assert Overlap(a, b) == 0.0;
    }
    if forall x: real, y: real :: Contains(a, x, y) ==> Contains(b, x, y) {
      assert Contains(a, a.left, a.top) && Contains(a, a.right, a.bottom);
      assert IsCommon(a, b, a);
      IoUIsCommonOverCovered(a, b, a);
    }
  }

  lemma ProductGrows(a: real, b: real, c: real, d: real)
    requires 0.0 <= a <= c && 0.0 <= b <= d
    ensures 0.0 <= a * b <= c * d
  {
    assert a * b <= c * b;
    assert c * b <= c * d;
  }

  lemma OverlapBounded(a: Box, b: Box)
    requires a.WellFormed() && b.WellFormed()
    ensures 0.0 <= Overlap(a, b) <= a.Area()
  {
    ProductGrows(Max(0.0, Min(a.right, b.right) - Max(a.left, b.left)),
                 Max(0.0, Min(a.bottom, b.bottom) - Max(a.top, b.top)),
                 a.right - a.left, a.bottom - a.top);
  }

  lemma IoUSymmetric(a: Box, b: Box)
    ensures IoU(a, b) == IoU(b, a)
  {
    assert Overlap(a, b) == Overlap(b, a);
  }

  lemma IoUInUnitRange(a: Box, b: Box)
    requires a.WellFormed() && b.WellFormed()
    ensures 0.0 <= IoU(a, b) <= 1.0
  {
    OverlapBounded(a, b);
    OverlapBounded(b, a);
    assert Overlap(a, b) == Overlap(b, a);
    var union := a.Area() + b.Area() - Overlap(a, b);
    if union > 0.0 {
      QuotientInUnitRange(Overlap(a, b), union);
    }
  }

  lemma QuotientInUnitRange(x: real, y: real)
    requires 0.0 <= x <= y && 0.0 < y
    ensures 0.0 <= x / y <= 1.0
  {
    var q := x / y;
    assert q * y == x;
    assert (1.0 - q) * y == y - x;
  }

  lemma QuotientOfItself(y: real)
    requires 0.0 < y
    ensures y / y == 1.0
  {
  }

  /** A box matches itself fully, unless it has no area: then not at all. */
  lemma IoUOfItself(a: Box)
    requires a.WellFormed()
    ensures IoU(a, a) == if a.Area() > 0.0 then 1.0 else 0.0
  {
    assert Overlap(a, a) == a.Area();
    OverlapBounded(a, a);
    if a.Area() > 0.0 {
      QuotientOfItself(a.Area());
    }
  }

  // One frame

  /** The boxes of the tracked entries by key; a later entry replaces an earlier one. */
  function Snapshot(entries: seq<TrackEntry>): map<string, Box> {
    if entries == [] then map[]
    else
      var e := entries[|entries| - 1];
      var before := Snapshot(entries[..|entries| - 1]);
      if e.trackId == 0 then before else before[MakeKey(e) := e.box]
  }

  /** The entry is where the reference has it. */
  predicate Stayed(e: TrackEntry, reference: map<string, Box>, threshold: real) {
    MakeKey(e) in reference && IoU(e.box, reference[MakeKey(e)]) >= threshold
  }

  /** The frame shows exactly the objects of the reference, each where it was. */
  ghost predicate Steady(entries: seq<TrackEntry>, reference: map<string, Box>, threshold: real) {
    Snapshot(entries).Keys == reference.Keys && AllStayed(entries, reference, threshold)
  }

  ghost predicate AllStayed(entries: seq<TrackEntry>, reference: map<string, Box>, threshold: real) {
    forall i :: 0 <= i < |entries| && entries[i].trackId != 0 ==> Stayed(entries[i], reference, threshold)
  }

  /** All that remains to be seen is whether an object of the reference is missing. */
  lemma SteadyIff(entries: seq<TrackEntry>, reference: map<string, Box>, threshold: real)
    ensures Steady(entries, reference, threshold) <==>
              AllStayed(entries, reference, threshold) && reference.Keys <= Snapshot(entries).Keys
  {
    if AllStayed(entries, reference, threshold) {
      forall key | key in Snapshot(entries) ensures key in reference {
        var j := SnapshotShowsAnEntry(entries, key);
        assert Stayed(entries[j], reference, threshold);
      }
    }
  }

  lemma OneMoreEntry(entries: seq<TrackEntry>, i: nat, reference: map<string, Box>, threshold: real)
    requires i < |entries|
    ensures var e := entries[i];
            && Snapshot(entries[..i + 1]) == (if e.trackId == 0 then Snapshot(entries[..i])
                                             else Snapshot(entries[..i])[MakeKey(e) := e.box])
            && (AllStayed(entries[..i + 1], reference, threshold) <==>
                AllStayed(entries[..i], reference, threshold) && (e.trackId != 0 ==> Stayed(e, reference, threshold)))
  {
    assert entries[..i + 1][..i] == entries[..i];
    assert forall k :: 0 <= k < i ==> entries[..i][k] == entries[..i + 1][k];
    assert entries[..i + 1][i] == entries[i];
  }

  class Filter {
    const threshold: real
    var lastFrameObjects: map<string, Box>

    constructor (threshold: real)
      ensures lastFrameObjects == map[] && this.threshold == threshold
    {
      this.threshold := threshold;
      lastFrameObjects := map[];
    }

    method Reset()
      modifies this
      ensures lastFrameObjects == map[]
    {
      lastFrameObjects := map[];
    }

    /** False, and nothing changes, exactly when the frame is steady. */
    method IsInteresting(entries: seq<TrackEntry>) returns (interesting: bool)
      modifies this
      ensures interesting <==> !Steady(entries, old(lastFrameObjects), threshold)
      ensures lastFrameObjects == if interesting then Snapshot(entries) else old(lastFrameObjects)
    {
      var current: map<string, Box> := map[];
      interesting := false;
      var i := 0;
      ghost var reference := lastFrameObjects;
      while i < |entries|
        invariant 0 <= i <= |entries| && current == Snapshot(entries[..i]) && lastFrameObjects == reference
        invariant interesting <==> !AllStayed(entries[..i], reference, threshold)
      {
        var e := entries[i];
        OneMoreEntry(entries, i, reference, threshold);
        if e.trackId != 0 {
          current := current[MakeKey(e) := e.box];
          if !Stayed(e, lastFrameObjects, threshold) {
            interesting := true;
          }
        }
        i := i + 1;
      }
      assert entries[..i] == entries;
      SteadyIff(entries, reference, threshold);
      if !interesting {
        interesting := SomethingGone(current);
      }
      assert interesting <==> !Steady(entries, reference, threshold);
      if interesting {
        lastFrameObjects := current;
      }
    }

    /** An object of the last passed frame is missing. */
    method SomethingGone(current: map<string, Box>) returns (gone: bool)
      ensures gone <==> !(lastFrameObjects.Keys <= current.Keys)
    {
      var keys := lastFrameObjects.Keys;
      while keys != {}
        invariant keys <= lastFrameObjects.Keys
        invariant forall k :: k in lastFrameObjects.Keys - keys ==> k in current
        decreases |keys|
      {
        var k :| k in keys;
        if k !in current {
          return true;
        }
        keys := keys - {k};
      }
      return false;
    }
  }

  // Whole runs

  /** What happens to the filter: a frame, or a reset. */
  datatype Input = Arrives(entries: seq<TrackEntry>) | ResetAll

  /** The objects of the last frame that passed since the last reset, before input number `i`. */
  ghost function Reference(inputs: seq<Input>, passed: seq<bool>, i: nat): map<string, Box>
    requires i <= |inputs| && i <= |passed|
  {
    if i == 0 || inputs[i - 1].ResetAll? then map[]
    else if passed[i - 1] then Snapshot(inputs[i - 1].entries)
    else Reference(inputs, passed, i - 1)
  }

  /** Frame `i` is dropped exactly when it is steady against the reference. */
  ghost predicate DroppedIffSteady(inputs: seq<Input>, passed: seq<bool>, threshold: real, i: nat)
    requires i < |inputs| && i < |passed|
  {
    inputs[i].Arrives? ==> (!passed[i] <==> Steady(inputs[i].entries, Reference(inputs, passed, i), threshold))
  }

  /** Entry `e` of frame `i` overlaps its own place in the last frame that passed, and no reset lies between. */
  ghost predicate HeldSince(inputs: seq<Input>, passed: seq<bool>, threshold: real, i: nat, e: TrackEntry, p: nat)
    requires i <= |inputs| && i <= |passed|
  {
    && p < i && inputs[p].Arrives? && passed[p]
    && (forall k :: p < k < i ==> inputs[k].Arrives? && !passed[k])
    && exists f :: f in inputs[p].entries && SameObject(e, f) && IoU(f.box, e.box) >= threshold
  }

  predicate SameObject(e: TrackEntry, f: TrackEntry) {
    e.trackId != 0 && f.trackId != 0 && MakeKey(e) == MakeKey(f)
  }

  /** In every run a frame is dropped exactly when it is steady against the last frame that passed since the last
      reset. Small movements cannot add up over dropped frames: every tracked object of a dropped frame overlaps its
      own place in that passed frame by the threshold. */
  method Run(threshold: real, inputs: seq<Input>) returns (passed: seq<bool>)
    ensures |passed| == |inputs|
    ensures forall i :: 0 <= i < |inputs| ==> DroppedIffSteady(inputs, passed, threshold, i)
    ensures forall i, e :: 0 <= i < |inputs| && inputs[i].Arrives? && !passed[i] && e in inputs[i].entries ==>
              e.trackId != 0 ==> exists p :: HeldSince(inputs, passed, threshold, i, e, p)
  {
    var filter := new Filter(threshold);
    passed := [];
    var n := 0;
    while n < |inputs|
      invariant 0 <= n <= |inputs| && |passed| == n && filter.threshold == threshold && fresh(filter)
      invariant filter.lastFrameObjects == Reference(inputs, passed, n)
      invariant forall i :: 0 <= i < n ==> DroppedIffSteady(inputs, passed, threshold, i)
    {
      var p := false;
      match inputs[n] {
        case Arrives(entries) => p := filter.IsInteresting(entries);
        case ResetAll => filter.Reset();
      }
      ghost var was := passed;
      passed := passed + [p];
      ReferenceLooksBack(inputs, was, passed, n);
      forall i | 0 <= i < n ensures DroppedIffSteady(inputs, passed, threshold, i) {
        assert DroppedIffSteady(inputs, was, threshold, i);
        ReferenceLooksBack(inputs, was, passed, i);
      }
      n := n + 1;
    }
    forall i, e | 0 <= i < |inputs| && inputs[i].Arrives? && !passed[i] && e in inputs[i].entries && e.trackId != 0
      ensures exists p :: HeldSince(inputs, passed, threshold, i, e, p)
    {
      assert DroppedIffSteady(inputs, passed, threshold, i);
      NoDriftAcrossDrops(inputs, passed, threshold, i, e);
    }
  }

  lemma {:induction false} ReferenceLooksBack(inputs: seq<Input>, p: seq<bool>, q: seq<bool>, i: nat)
    requires i <= |inputs| && i <= |p| && p <= q
    ensures Reference(inputs, p, i) == Reference(inputs, q, i)
  {
    if i > 0 {
      ReferenceLooksBack(inputs, p, q, i - 1);
    }
  }

  /** A reference with an object in it is the snapshot of the last frame that passed. */
  lemma {:induction false} ReferenceIsAFrame(inputs: seq<Input>, passed: seq<bool>, i: nat) returns (p: nat)
    requires i <= |inputs| && i <= |passed| && Reference(inputs, passed, i) != map[]
    ensures p < i && inputs[p].Arrives? && passed[p]
    ensures forall k :: p < k < i ==> inputs[k].Arrives? && !passed[k]
    ensures Reference(inputs, passed, i) == Snapshot(inputs[p].entries)
  {
    p := i - 1;
    if !passed[i - 1] {
      p := ReferenceIsAFrame(inputs, passed, i - 1);
    }
  }

  lemma NoDriftAcrossDrops(inputs: seq<Input>, passed: seq<bool>, threshold: real, i: nat, e: TrackEntry)
    requires i < |inputs| && i < |passed| && inputs[i].Arrives? && e in inputs[i].entries && e.trackId != 0
    requires Steady(inputs[i].entries, Reference(inputs, passed, i), threshold)
    ensures exists p :: HeldSince(inputs, passed, threshold, i, e, p)
  {
    var reference := Reference(inputs, passed, i);
    var k :| 0 <= k < |inputs[i].entries| && inputs[i].entries[k] == e;
    assert Stayed(inputs[i].entries[k], reference, threshold);
    var p := ReferenceIsAFrame(inputs, passed, i);
    var j := SnapshotShowsAnEntry(inputs[p].entries, MakeKey(e));
    var f := inputs[p].entries[j];
    IoUSymmetric(e.box, f.box);
    assert f in inputs[p].entries && SameObject(e, f);
    assert HeldSince(inputs, passed, threshold, i, e, p);
  }

  // A frame that comes again

  /** Entry `j` is the last tracked one with its key. */
  ghost predicate LastOfKey(entries: seq<TrackEntry>, j: nat) {
    && j < |entries| && entries[j].trackId != 0
    && forall k :: j < k < |entries| ==> !SameObject(entries[j], entries[k])
  }

  lemma {:induction false} SnapshotHasLast(entries: seq<TrackEntry>, j: nat)
    requires LastOfKey(entries, j)
    ensures MakeKey(entries[j]) in Snapshot(entries) && Snapshot(entries)[MakeKey(entries[j])] == entries[j].box
  {
    var n := |entries| - 1;
    if j < n {
      assert !SameObject(entries[j], entries[n]);
      LastInPrefix(entries, j, n);
      SnapshotHasLast(entries[..n], j);
    }
  }

  lemma LastInPrefix(entries: seq<TrackEntry>, j: nat, n: nat)
    requires LastOfKey(entries, j) && j < n <= |entries|
    ensures LastOfKey(entries[..n], j)
  {
    forall k | j < k < n ensures !SameObject(entries[..n][j], entries[..n][k]) {
      assert !SameObject(entries[j], entries[k]);
    }
  }

  lemma {:induction false} SnapshotShowsAnEntry(entries: seq<TrackEntry>, key: string) returns (j: nat)
    requires key in Snapshot(entries)
    ensures LastOfKey(entries, j) && MakeKey(entries[j]) == key && Snapshot(entries)[key] == entries[j].box
  {
    j := |entries| - 1;
    if entries[j].trackId == 0 || MakeKey(entries[j]) != key {
      j := SnapshotShowsAnEntry(entries[..j], key);
      LastOfPrefix(entries, j);
    }
  }

  lemma LastOfPrefix(entries: seq<TrackEntry>, j: nat)
    requires entries != [] && LastOfKey(entries[..|entries| - 1], j)
    requires !SameObject(entries[j], entries[|entries| - 1])
    ensures LastOfKey(entries, j)
  {
    var n := |entries| - 1;
    forall k | j < k < |entries| ensures !SameObject(entries[j], entries[k]) {
      if k < n {
        assert !SameObject(entries[..n][j], entries[..n][k]);
      }
    }
  }

  /** Every tracked entry overlaps the last entry of its key by the threshold. */
  ghost predicate OverlapsLast(entries: seq<TrackEntry>, threshold: real) {
    forall i: nat, j: nat :: i < |entries| && LastOfKey(entries, j) && SameObject(entries[i], entries[j]) ==>
      IoU(entries[i].box, entries[j].box) >= threshold
  }

  /** A frame that comes again without any change is dropped if and only if every tracked entry overlaps, by the
      threshold, the last entry of the same key. */
  lemma UnchangedFrameDroppedIff(entries: seq<TrackEntry>, threshold: real)
    ensures Steady(entries, Snapshot(entries), threshold) <==> OverlapsLast(entries, threshold)
  {
    var reference := Snapshot(entries);
    forall i: nat, j: nat | i < |entries| && LastOfKey(entries, j) && SameObject(entries[i], entries[j])
      ensures Stayed(entries[i], reference, threshold) <==> IoU(entries[i].box, entries[j].box) >= threshold
    {
      SnapshotHasLast(entries, j);
    }
    forall i: nat | i < |entries| && entries[i].trackId != 0
      ensures exists j: nat :: LastOfKey(entries, j) && SameObject(entries[i], entries[j])
    {
      SnapshotHasKey(entries, i);
      var j := SnapshotShowsAnEntry(entries, MakeKey(entries[i]));
      assert LastOfKey(entries, j) && SameObject(entries[i], entries[j]);
    }
  }

  lemma {:induction false} SnapshotHasKey(entries: seq<TrackEntry>, i: nat)
    requires i < |entries| && entries[i].trackId != 0
    ensures MakeKey(entries[i]) in Snapshot(entries)
  {
    var n := |entries| - 1;
    if i < n {
      SnapshotHasKey(entries[..n], i);
    }
  }

  ghost predicate DistinctKeys(entries: seq<TrackEntry>) {
    forall i, j :: 0 <= i < |entries| && 0 <= j < |entries| && i != j ==> !SameObject(entries[i], entries[j])
  }

  /** With distinct keys only the boxes matter: each must have an area and the threshold must be at most 1, or the
      threshold must be at most 0. */
  lemma DistinctFrameDroppedIff(entries: seq<TrackEntry>, threshold: real)
    requires DistinctKeys(entries)
    requires forall e :: e in entries ==> e.box.WellFormed()
    ensures Steady(entries, Snapshot(entries), threshold) <==>
              forall e :: e in entries && e.trackId != 0 ==> threshold <= if e.box.Area() > 0.0 then 1.0 else 0.0
  {
    UnchangedFrameDroppedIff(entries, threshold);
    forall i: nat | i < |entries| && entries[i].trackId != 0
      ensures LastOfKey(entries, i) && SameObject(entries[i], entries[i])
      ensures IoU(entries[i].box, entries[i].box) == if entries[i].box.Area() > 0.0 then 1.0 else 0.0
      ensures forall j: nat :: LastOfKey(entries, j) && SameObject(entries[i], entries[j]) ==> j == i
    {
      IoUOfItself(entries[i].box);
    }
    if OverlapsLast(entries, threshold) {
      forall e | e in entries && e.trackId != 0 ensures threshold <= if e.box.Area() > 0.0 then 1.0 else 0.0 {
        var i :| 0 <= i < |entries| && entries[i] == e;
        assert IoU(entries[i].box, entries[i].box) >= threshold;
      }
    }
  }

  /** One object twice in a frame, at places that do not overlap enough: the frame passes every time it comes. */
  lemma RepeatedKeyPassesAgain(a: TrackEntry, b: TrackEntry, threshold: real)
    requires SameObject(a, b) && IoU(a.box, b.box) < threshold
    ensures !Steady([a, b], Snapshot([a, b]), threshold)
  {
    UnchangedFrameDroppedIff([a, b], threshold);
    assert LastOfKey([a, b], 1) && SameObject([a, b][0], [a, b][1]);
  }
}
