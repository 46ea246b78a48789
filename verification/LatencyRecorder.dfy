/** The latency recorder of one channel: frame timings by frame key, one CSV row for each sampled metric, and the
    pruning that bounds the map. The event counter is unbounded. */
module LatencyRecorder {
  import opened Wrappers
  import Arithmetic

  const MAX_TRACKED_FRAMES := 8192
  const STALE_ORDER_WINDOW := 8192
  const HARD_MAP_LIMIT := 20000
  const FRAME_REUSE_RESET_NS := 1000000000
  const METRIC_COUNT := 7

  datatype Stage = H264ParseSrc | V4L2DecCapsSrc | YoloQnnSink | YoloQnnSrc | YoloPostprocessSrc
                 | TrackerSink | TrackerSrc | FaceInferSink | FaceInferSrc

  datatype Metric = FaceInferToEmbedding | ByteTrack | FileToDec | DecToYolo | DecToTracker | DecToFace | YoloQnnInfer

  /** The emitted_ flags of a frame. */
  datatype Flags = Flags(faceInferToEmbedding: bool, byteTrack: bool, fileToDec: bool, decToYolo: bool,
                         decToTracker: bool, decToFace: bool, yoloQnnInfer: bool) {
    predicate Has(m: Metric) {
      match m
      case FaceInferToEmbedding => faceInferToEmbedding
      case ByteTrack => byteTrack
      case FileToDec => fileToDec
      case DecToYolo => decToYolo
      case DecToTracker => decToTracker
      case DecToFace => decToFace
      case YoloQnnInfer => yoloQnnInfer
    }

    function With(m: Metric): Flags {
      match m
      case FaceInferToEmbedding => this.(faceInferToEmbedding := true)
      case ByteTrack => this.(byteTrack := true)
      case FileToDec => this.(fileToDec := true)
      case DecToYolo => this.(decToYolo := true)
      case DecToTracker => this.(decToTracker := true)
      case DecToFace => this.(decToFace := true)
      case YoloQnnInfer => this.(yoloQnnInfer := true)
    }

    /** The number of flags that are set. */
    ghost function Number(): nat {
      One(faceInferToEmbedding) + One(byteTrack) + One(fileToDec) + One(decToYolo) + One(decToTracker)
      + One(decToFace) + One(yoloQnnInfer)
    }
  }

  ghost function One(b: bool): nat { if b then 1 else 0 }

  const NO_FLAGS := Flags(false, false, false, false, false, false, false)

  /** `at` has the stages seen, with their timestamps. */
  datatype Timing = Timing(at: map<Stage, nat>, emitted: Flags, emittedCount: nat, lastSeen: nat)

  datatype Row = Row(metric: Metric, key: nat, start: nat, end: nat)

  /** The stages between which a metric measures. */
  function Ends(m: Metric): (Stage, Stage) {
    match m
    case FaceInferToEmbedding => (FaceInferSink, FaceInferSrc)
    case ByteTrack => (TrackerSink, TrackerSrc)
    case FileToDec => (H264ParseSrc, V4L2DecCapsSrc)
    case YoloQnnInfer => (YoloQnnSink, YoloQnnSrc)
    case DecToYolo => (V4L2DecCapsSrc, YoloPostprocessSrc)
    case DecToTracker => (V4L2DecCapsSrc, TrackerSrc)
    case DecToFace => (V4L2DecCapsSrc, FaceInferSrc)
  }

  predicate Ready(at: map<Stage, nat>, m: Metric) { Ends(m).0 in at && Ends(m).1 in at }

  ghost predicate CountOk(t: Timing) { t.emittedCount == t.emitted.Number() }

  function Marked(t: Timing, m: Metric): Timing {
    if t.emitted.Has(m) then t
    else t.(emitted := t.emitted.With(m),
            emittedCount := if t.emittedCount < METRIC_COUNT then t.emittedCount + 1 else t.emittedCount)
  }

  /** The timing of a frame after an event, before metrics are considered. */
  function Touched(was: Option<Timing>, stage: Stage, timestamp: nat, order: nat): Timing {
    if was.Some? && stage == H264ParseSrc && H264ParseSrc in was.value.at
       && timestamp > was.value.at[H264ParseSrc] && timestamp - was.value.at[H264ParseSrc] > FRAME_REUSE_RESET_NS
    then Timing(map[H264ParseSrc := timestamp], NO_FLAGS, 0, order)
    else
      var t := if was.Some? then was.value else Timing(map[], NO_FLAGS, 0, 0);
      t.(at := t.at[stage := timestamp], lastSeen := order)
  }

  lemma TouchedCount(was: Option<Timing>, stage: Stage, timestamp: nat, order: nat)
    requires was.Some? ==> CountOk(was.value)
    ensures CountOk(Touched(was, stage, timestamp, order)) && Touched(was, stage, timestamp, order).lastSeen == order
  {
  }

  /** Dropped when the map has grown too large. */
  predicate Droppable(t: Timing, order: nat) {
    (order > t.lastSeen && order - t.lastSeen > STALE_ORDER_WINDOW) || t.emittedCount >= METRIC_COUNT
  }

  function Pruned(timings: map<nat, Timing>, order: nat): map<nat, Timing> {
    if |timings| <= MAX_TRACKED_FRAMES then timings
    else map k | k in timings && !Droppable(timings[k], order) :: timings[k]
  }

  function Considered(t: Timing, m: Metric): Timing { if Ready(t.at, m) then Marked(t, m) else t }

  /** What MaybeEmitMetrics makes of a timing. */
  function AllConsidered(t: Timing): Timing {
    var a := Considered(Considered(Considered(t, FaceInferToEmbedding), ByteTrack), FileToDec);
    Considered(Considered(Considered(Considered(a, YoloQnnInfer), DecToYolo), DecToTracker), DecToFace)
  }

  /** The timing with exactly its ready metrics flagged in addition, and the count in step. */
  ghost predicate Emitted(t: Timing, u: Timing) {
    && u.at == t.at && u.lastSeen == t.lastSeen && CountOk(u)
    && forall m: Metric :: u.emitted.Has(m) <==> t.emitted.Has(m) || Ready(t.at, m)
  }

  lemma WithCounts(f: Flags, m: Metric)
    requires !f.Has(m)
    ensures f.With(m).Number() == f.Number() + 1 <= METRIC_COUNT
  {
  }

  lemma ConsideredCounts(t: Timing, m: Metric)
    requires CountOk(t)
    ensures var u := Considered(t, m);
            CountOk(u) && u.at == t.at && u.lastSeen == t.lastSeen
  {
    if Ready(t.at, m) && !t.emitted.Has(m) {
      WithCounts(t.emitted, m);
    }
  }

  lemma ConsideredFlags(t: Timing, m: Metric, q: Metric)
    ensures Considered(t, m).at == t.at
    ensures Considered(t, m).emitted.Has(q) == (t.emitted.Has(q) || (q == m && Ready(t.at, m)))
  {
  }

  lemma AllConsideredFlags(t: Timing, q: Metric)
    ensures AllConsidered(t).at == t.at
    ensures AllConsidered(t).emitted.Has(q) <==> t.emitted.Has(q) || Ready(t.at, q)
  {
    var a := Considered(t, FaceInferToEmbedding);
    ConsideredFlags(t, FaceInferToEmbedding, q);
    var b := Considered(a, ByteTrack);
    ConsideredFlags(a, ByteTrack, q);
    var c := Considered(b, FileToDec);
    ConsideredFlags(b, FileToDec, q);
    var d := Considered(c, YoloQnnInfer);
    ConsideredFlags(c, YoloQnnInfer, q);
    var e := Considered(d, DecToYolo);
    ConsideredFlags(d, DecToYolo, q);
    var f := Considered(e, DecToTracker);
    ConsideredFlags(e, DecToTracker, q);
    ConsideredFlags(f, DecToFace, q);
  }

  lemma AllConsideredEmits(t: Timing)
    requires CountOk(t)
    ensures Emitted(t, AllConsidered(t))
  {
    var a := Considered(t, FaceInferToEmbedding);
    ConsideredCounts(t, FaceInferToEmbedding);
    var b := Considered(a, ByteTrack);
    ConsideredCounts(a, ByteTrack);
    var c := Considered(b, FileToDec);
    ConsideredCounts(b, FileToDec);
    var d := Considered(c, YoloQnnInfer);
    ConsideredCounts(c, YoloQnnInfer);
    var e := Considered(d, DecToYolo);
    ConsideredCounts(d, DecToYolo);
    var f := Considered(e, DecToTracker);
    ConsideredCounts(e, DecToTracker);
    ConsideredCounts(f, DecToFace);
    forall q: Metric ensures AllConsidered(t).emitted.Has(q) <==> t.emitted.Has(q) || Ready(t.at, q) {
      AllConsideredFlags(t, q);
    }
  }

  // The events of one frame key

  datatype Event = Event(stage: Stage, timestamp: nat, order: nat)

  /** The timing of a frame key after its events, with nothing pruned in between. */
  function Timeline(events: seq<Event>): Option<Timing> {
    if events == [] then None
    else
      var e := events[|events| - 1];
      Some(AllConsidered(Touched(Timeline(events[..|events| - 1]), e.stage, e.timestamp, e.order)))
  }

  /** The event shows that the frame key is in use again for a new frame. */
  predicate Reuses(t: Timing, e: Event) {
    e.stage == H264ParseSrc && H264ParseSrc in t.at && e.timestamp > t.at[H264ParseSrc] + 1000000000
  }

  lemma TimelineStep(events: seq<Event>, e: Event)
    ensures Timeline(events + [e]) == Some(AllConsidered(Touched(Timeline(events), e.stage, e.timestamp, e.order)))
  {
    assert (events + [e])[..|events + [e]| - 1] == events;
  }

  lemma TouchedIff(t: Timing, e: Event)
    ensures var u := Touched(Some(t), e.stage, e.timestamp, e.order);
            if Reuses(t, e) then u == Touched(None, e.stage, e.timestamp, e.order)
            else u.at == t.at[e.stage := e.timestamp] && u.emitted == t.emitted
    ensures Touched(None, e.stage, e.timestamp, e.order) == Timing(map[e.stage := e.timestamp], NO_FLAGS, 0, e.order)
  {
    assert map[][e.stage := e.timestamp] == map[e.stage := e.timestamp];
  }

  /** With every event, a reused key starts afresh, as if it had never been seen, so that all its metrics can be
      emitted again; otherwise the stage's timestamp is set and all others are kept. */
  lemma ReusedKeyStartsAfresh(events: seq<Event>, e: Event)
    requires events != []
    ensures Timeline(events).Some? && Timeline(events + [e]).Some?
    ensures var t, u := Timeline(events).value, Timeline(events + [e]).value;
            if Reuses(t, e) then Some(u) == Timeline([e]) && u.at == map[e.stage := e.timestamp]
            else u.at == t.at[e.stage := e.timestamp]
  {
    var t := Timeline(events).value;
    TimelineStep(events, e);
    TimelineStep([], e);
    assert [] + [e] == [e];
    TouchedIff(t, e);
    AllConsideredFlags(Touched(Some(t), e.stage, e.timestamp, e.order), ByteTrack);
  }

  /** After any events of a frame key, exactly the metrics are flagged whose two stages have been seen since the key
      was last taken into use. */
  lemma {:induction false} FlaggedIffReady(events: seq<Event>, m: Metric)
    requires events != []
    ensures var t := Timeline(events).value; t.emitted.Has(m) <==> Ready(t.at, m)
  {
    var before, e := events[..|events| - 1], events[|events| - 1];
    TimelineStep(before, e);
    assert events == before + [e];
    AllConsideredFlags(Touched(Timeline(before), e.stage, e.timestamp, e.order), m);
    TouchedIff(NO_TIMING, e);
    if before != [] {
      FlaggedIffReady(before, m);
      TouchedIff(Timeline(before).value, e);
    }
  }

  const NO_TIMING := Timing(map[], NO_FLAGS, 0, 0)

  // The size bound

  /** No two frames were last seen in the same event. */
  ghost predicate OrdersDistinct(timings: map<nat, Timing>, order: nat) {
    && (forall k :: k in timings ==> timings[k].lastSeen <= order)
    && forall j, k :: j in timings && k in timings && j != k ==> timings[j].lastSeen != timings[k].lastSeen
  }

  ghost predicate CountsOk(timings: map<nat, Timing>) { forall k :: k in timings ==> CountOk(timings[k]) }

  /** An event for one frame, and then pruning, keep the orders distinct. */
  lemma EventKeepsOrders(timings: map<nat, Timing>, order: nat, key: nat, t: Timing)
    requires OrdersDistinct(timings, order) && CountsOk(timings) && t.lastSeen == order + 1 && CountOk(t)
    ensures OrdersDistinct(timings[key := t], order + 1)
    ensures OrdersDistinct(Pruned(timings[key := t], order + 1), order + 1)
    ensures CountsOk(Pruned(timings[key := t], order + 1))
  {
  }

  ghost function Orders(timings: map<nat, Timing>, keys: set<nat>): set<int>
    requires keys <= timings.Keys
  {
    set k | k in keys :: timings[k].lastSeen
  }

  lemma {:induction false} OrdersCount(timings: map<nat, Timing>, keys: set<nat>, order: nat)
    requires OrdersDistinct(timings, order) && keys <= timings.Keys
    ensures |Orders(timings, keys)| == |keys|
  {
    if keys != {} {
      var k :| k in keys;
      OrdersCount(timings, keys - {k}, order);
      assert Orders(timings, keys) == Orders(timings, keys - {k}) + {timings[k].lastSeen};
    }
  }

  /** Frames last seen in the last `window` events and the current one are at most window + 1 many. */
  lemma RecentFramesFit(timings: map<nat, Timing>, order: nat, window: nat)
    requires OrdersDistinct(timings, order)
    requires forall k :: k in timings ==> order - timings[k].lastSeen <= window
    ensures |timings| <= window + 1
  {
    OrdersCount(timings, timings.Keys, order);
    forall x | x in Orders(timings, timings.Keys) ensures x in Arithmetic.Interval(order - window, order + 1) {
      Arithmetic.InIntervalIff(order - window, order + 1, x);
    }
    Arithmetic.SubsetSize(Orders(timings, timings.Keys), Arithmetic.Interval(order - window, order + 1));
    Arithmetic.IntervalSize(order - window, order + 1);
  }

  /** After pruning at most 8193 frames are left, so that the hard limit is never reached. */
  lemma PrunedSize(timings: map<nat, Timing>, order: nat)
    requires OrdersDistinct(timings, order)
    ensures |Pruned(timings, order)| <= 8193 == MAX_TRACKED_FRAMES + 1 < HARD_MAP_LIMIT
  {
    if |timings| > MAX_TRACKED_FRAMES {
      RecentFramesFit(Pruned(timings, order), order, STALE_ORDER_WINDOW);
    }
  }

  /** A frame of the last 8192 events is dropped only if all seven metrics were emitted for it, and only from a map
      of more than 8192 frames. */
  lemma RecentFramesKept(timings: map<nat, Timing>, order: nat, k: nat)
    requires OrdersDistinct(timings, order) && k in timings && CountOk(timings[k])
    requires order - timings[k].lastSeen <= STALE_ORDER_WINDOW
    ensures k !in Pruned(timings, order) <==>
              |timings| > MAX_TRACKED_FRAMES && forall m: Metric :: timings[k].emitted.Has(m)
    ensures k in Pruned(timings, order) ==> Pruned(timings, order)[k] == timings[k]
  {
    AllFlags(timings[k].emitted);
  }

  lemma AllFlags(f: Flags)
    ensures f.Number() <= METRIC_COUNT && (f.Number() == METRIC_COUNT <==> forall m: Metric :: f.Has(m))
  {
    if f.Number() < METRIC_COUNT {
      assert !(f.Has(FaceInferToEmbedding) && f.Has(ByteTrack) && f.Has(FileToDec) && f.Has(DecToYolo)
               && f.Has(DecToTracker) && f.Has(DecToFace) && f.Has(YoloQnnInfer));
    }
  }

  // Sampling

  ghost function RowCount(rows: seq<Row>, m: Metric): nat {
    if rows == [] then 0 else RowCount(rows[..|rows| - 1], m) + if rows[|rows| - 1].metric == m then 1 else 0
  }

  /** How many of the first `seen` measurements of a metric get a row: the first and then every n-th. */
  ghost function RowsDue(seen: nat, n: nat): nat
    requires 0 < n
  {
    if seen == 0 then 0 else RowsDue(seen - 1, n) + if (seen - 1) % n == 0 then 1 else 0
  }

  /** That is one for each n measurements, rounded up. */
  lemma {:induction false} RowsDueIsCeiling(seen: nat, n: nat)
    requires 0 < n
    ensures RowsDue(seen, n) == (seen + n - 1) / n
  {
    if seen == 0 {
      Arithmetic.DivModUnique(n - 1, 0, n - 1, n);
    } else {
      RowsDueIsCeiling(seen - 1, n);
      var q, r := (seen - 1) / n, (seen - 1) % n;
      assert seen - 1 == q * n + r;
      if r == 0 {
        Arithmetic.DivModUnique(seen + n - 2, q, n - 1, n);
        Arithmetic.DivModUnique(seen + n - 1, q + 1, 0, n);
      } else {
        Arithmetic.DivModUnique(seen + n - 2, q + 1, r - 1, n);
        Arithmetic.DivModUnique(seen + n - 1, q + 1, r, n);
      }
    }
  }

  ghost predicate Sampled(seen: map<Metric, nat>, rows: seq<Row>, n: nat)
    requires 0 < n
  {
    && (forall m: Metric :: m in seen)
    && forall m: Metric {:trigger RowCount(rows, m)} :: RowCount(rows, m) == RowsDue(seen[m], n)
  }

  datatype Log = Log(seen: map<Metric, nat>, rows: seq<Row>)

  /** The log after considering one metric of a frame: an emitted, incomplete or reversed measurement leaves no
      trace. */
  function Logged(log: Log, key: nat, t: Timing, m: Metric, n: nat): Log
    requires 0 < n
  {
    if !Ready(t.at, m) || t.emitted.Has(m) || t.at[Ends(m).1] < t.at[Ends(m).0] then log
    else
      var seen := if m in log.seen then log.seen[m] else 0;
      Log(log.seen[m := seen + 1],
          if seen % n == 0 then log.rows + [Row(m, key, t.at[Ends(m).0], t.at[Ends(m).1])] else log.rows)
  }

  lemma LoggedKeepsSampled(log: Log, key: nat, t: Timing, m: Metric, n: nat)
    requires 0 < n && Sampled(log.seen, log.rows, n)
    ensures var after := Logged(log, key, t, m, n); Sampled(after.seen, after.rows, n)
  {
    var after := Logged(log, key, t, m, n);
    if after.rows != log.rows {
      assert after.rows[..|after.rows| - 1] == log.rows;
    }
  }

  function AllLogged(log: Log, key: nat, t0: Timing, n: nat): Log
    requires 0 < n
  {
    var l1, t1 := Logged(log, key, t0, FaceInferToEmbedding, n), Considered(t0, FaceInferToEmbedding);
    var l2, t2 := Logged(l1, key, t1, ByteTrack, n), Considered(t1, ByteTrack);
    var l3, t3 := Logged(l2, key, t2, FileToDec, n), Considered(t2, FileToDec);
    var l4, t4 := Logged(l3, key, t3, YoloQnnInfer, n), Considered(t3, YoloQnnInfer);
    var l5, t5 := Logged(l4, key, t4, DecToYolo, n), Considered(t4, DecToYolo);
    var l6, t6 := Logged(l5, key, t5, DecToTracker, n), Considered(t5, DecToTracker);
    Logged(l6, key, t6, DecToFace, n)
  }

  /** The one row that a metric of a frame that passed all stages in order gets when each is sampled, and its stages. */
  lemma RowSpans(log: Log, key: nat, t: Timing, m: Metric)
    requires (forall s: Stage :: s in t.at) && !t.emitted.Has(m) && m in log.seen
    requires t.at[H264ParseSrc] <= t.at[V4L2DecCapsSrc] <= t.at[YoloQnnSink] <= t.at[YoloQnnSrc]
    requires t.at[YoloQnnSrc] <= t.at[YoloPostprocessSrc] <= t.at[TrackerSink] <= t.at[TrackerSrc]
    requires t.at[TrackerSrc] <= t.at[FaceInferSink] <= t.at[FaceInferSrc]
    ensures Logged(log, key, t, m, 1).rows == log.rows + [
              match m
              case FileToDec => Row(m, key, t.at[H264ParseSrc], t.at[V4L2DecCapsSrc])
              case YoloQnnInfer => Row(m, key, t.at[YoloQnnSink], t.at[YoloQnnSrc])
              case ByteTrack => Row(m, key, t.at[TrackerSink], t.at[TrackerSrc])
              case FaceInferToEmbedding => Row(m, key, t.at[FaceInferSink], t.at[FaceInferSrc])
              case DecToYolo => Row(m, key, t.at[V4L2DecCapsSrc], t.at[YoloPostprocessSrc])
              case DecToTracker => Row(m, key, t.at[V4L2DecCapsSrc], t.at[TrackerSrc])
              case DecToFace => Row(m, key, t.at[V4L2DecCapsSrc], t.at[FaceInferSrc])]
  {
  }

  /** The row measures a metric of the frame that was complete and had not been emitted. */
  ghost predicate Fits(row: Row, key: nat, t: Timing) {
    && row.key == key && Ready(t.at, row.metric) && !t.emitted.Has(row.metric)
    && row.start == t.at[Ends(row.metric).0] <= row.end == t.at[Ends(row.metric).1]
  }

  ghost predicate AddsFitting(a: Log, b: Log, key: nat, t: Timing) {
    && |a.rows| <= |b.rows| && b.rows[..|a.rows|] == a.rows
    && forall i :: |a.rows| <= i < |b.rows| ==> Fits(b.rows[i], key, t)
  }

  lemma LoggedFits(log: Log, key: nat, t: Timing, u: Timing, m: Metric, n: nat)
    requires 0 < n && u.at == t.at && (u.emitted.Has(m) || !t.emitted.Has(m))
    ensures AddsFitting(log, Logged(log, key, u, m, n), key, t)
  {
  }

  lemma FittingChain(a: Log, b: Log, c: Log, key: nat, t: Timing)
    requires AddsFitting(a, b, key, t) && AddsFitting(b, c, key, t)
    ensures AddsFitting(a, c, key, t)
  {
    assert c.rows[..|a.rows|] == c.rows[..|b.rows|][..|a.rows|];
    forall i | |a.rows| <= i < |c.rows| ensures Fits(c.rows[i], key, t) {
      if i < |b.rows| {
        assert c.rows[..|b.rows|][i] == b.rows[i];
      }
    }
  }

  lemma StillEmitted(t: Timing, u: Timing, m: Metric, q: Metric)
    requires u.at == t.at && (t.emitted.Has(q) ==> u.emitted.Has(q))
    ensures Considered(u, m).at == t.at && (t.emitted.Has(q) ==> Considered(u, m).emitted.Has(q))
  {
    ConsideredFlags(u, m, q);
  }

  /** Only complete measurements that were not emitted before get a row, with their two timestamps; rows written
      earlier stay. */
  lemma OnlyNewMetricsLogged(log: Log, key: nat, t0: Timing, n: nat)
    requires 0 < n
    ensures AddsFitting(log, AllLogged(log, key, t0, n), key, t0)
  {
    var l1, t1 := Logged(log, key, t0, FaceInferToEmbedding, n), Considered(t0, FaceInferToEmbedding);
    var l2, t2 := Logged(l1, key, t1, ByteTrack, n), Considered(t1, ByteTrack);
    var l3, t3 := Logged(l2, key, t2, FileToDec, n), Considered(t2, FileToDec);
    var l4, t4 := Logged(l3, key, t3, YoloQnnInfer, n), Considered(t3, YoloQnnInfer);
    var l5, t5 := Logged(l4, key, t4, DecToYolo, n), Considered(t4, DecToYolo);
    var l6, t6 := Logged(l5, key, t5, DecToTracker, n), Considered(t5, DecToTracker);
    forall q: Metric
      ensures t1.at == t2.at == t3.at == t4.at == t5.at == t6.at == t0.at
      ensures t0.emitted.Has(q) ==> t1.emitted.Has(q) && t2.emitted.Has(q) && t3.emitted.Has(q)
      ensures t0.emitted.Has(q) ==> t4.emitted.Has(q) && t5.emitted.Has(q) && t6.emitted.Has(q)
    {
      StillEmitted(t0, t0, FaceInferToEmbedding, q);
      StillEmitted(t0, t1, ByteTrack, q);
      StillEmitted(t0, t2, FileToDec, q);
      StillEmitted(t0, t3, YoloQnnInfer, q);
      StillEmitted(t0, t4, DecToYolo, q);
      StillEmitted(t0, t5, DecToTracker, q);
    }
    LoggedFits(log, key, t0, t0, FaceInferToEmbedding, n);
    LoggedFits(l1, key, t0, t1, ByteTrack, n);
    FittingChain(log, l1, l2, key, t0);
    LoggedFits(l2, key, t0, t2, FileToDec, n);
    FittingChain(log, l2, l3, key, t0);
    LoggedFits(l3, key, t0, t3, YoloQnnInfer, n);
    FittingChain(log, l3, l4, key, t0);
    LoggedFits(l4, key, t0, t4, DecToYolo, n);
    FittingChain(log, l4, l5, key, t0);
    LoggedFits(l5, key, t0, t5, DecToTracker, n);
    FittingChain(log, l5, l6, key, t0);
    LoggedFits(l6, key, t0, t6, DecToFace, n);
    FittingChain(log, l6, Logged(l6, key, t6, DecToFace, n), key, t0);
  }

  class Recorder {
    var isOpen: bool
    var timings: map<nat, Timing>
    var eventOrder: nat
    var seen: map<Metric, nat>     // metric_seen_count_
    var sampleEveryN: nat
    var rows: seq<Row>             // the lines of the CSV file

    ghost predicate LogOk()
      reads this
    {
      0 < sampleEveryN && Sampled(seen, rows, sampleEveryN)
    }

    ghost function TheLog(): Log
      reads this
    {
      Log(seen, rows)
    }

    ghost predicate Valid()
      reads this
    {
      && LogOk() && OrdersDistinct(timings, eventOrder) && CountsOk(timings)
      && |timings| <= MAX_TRACKED_FRAMES + 1
    }

    /** Initialize, with the file opened. */
    constructor (sampleEvery: nat)
      ensures Valid() && isOpen && timings == map[] && rows == []
    {
      isOpen, timings, eventOrder, rows := true, map[], 0, [];
      seen := map[FaceInferToEmbedding := 0, ByteTrack := 0, FileToDec := 0, DecToYolo := 0, DecToTracker := 0,
                  DecToFace := 0, YoloQnnInfer := 0];
      sampleEveryN := if sampleEvery > 0 then sampleEvery else 1;
      new;
      forall m: Metric ensures m in seen {
        match m {
          case FaceInferToEmbedding =>
          case ByteTrack =>
          case FileToDec =>
          case DecToYolo =>
          case DecToTracker =>
          case DecToFace =>
          case YoloQnnInfer =>
        }
      }
    }

    method ShouldSample(kind: Metric) returns (sample: bool)
      requires 0 < sampleEveryN && kind in seen
      modifies this`seen
      ensures seen == old(seen)[kind := old(seen)[kind] + 1] && sample == (old(seen)[kind] % sampleEveryN == 0)
    {
      seen := seen[kind := seen[kind] + 1];
      sample := (seen[kind] - 1) % sampleEveryN == 0;
    }

    /** Marks the metric and writes its row, if the sampling takes it. */
    method EmitMetric(key: nat, kind: Metric, timing: Timing) returns (t: Timing)
      requires LogOk() && isOpen && Ready(timing.at, kind)
      modifies this`seen, this`rows
      ensures LogOk() && t == Marked(timing, kind)
      ensures TheLog() == Logged(old(TheLog()), key, timing, kind, sampleEveryN)
    {
      if timing.emitted.Has(kind) {
        return timing;
      }
      t := Marked(timing, kind);
      var start, end := timing.at[Ends(kind).0], timing.at[Ends(kind).1];
      if end < start {
        return t;
      }
      var sample := ShouldSample(kind);
      if sample {
        rows := rows + [Row(kind, key, start, end)];
      }
      LoggedKeepsSampled(old(TheLog()), key, timing, kind, sampleEveryN);
    }

    /** MaybeEmitMetrics for one metric. */
    method Consider(key: nat, kind: Metric, timing: Timing) returns (t: Timing)
      requires LogOk() && isOpen
      modifies this`seen, this`rows
      ensures LogOk() && t == Considered(timing, kind)
      ensures TheLog() == Logged(old(TheLog()), key, timing, kind, sampleEveryN)
    {
      t := timing;
      if Ready(timing.at, kind) {
        t := EmitMetric(key, kind, timing);
      }
    }

    method MaybeEmitMetrics(key: nat, timing: Timing) returns (t: Timing)
      requires LogOk() && isOpen
      modifies this`seen, this`rows
      ensures LogOk() && t == AllConsidered(timing)
      ensures TheLog() == AllLogged(old(TheLog()), key, timing, sampleEveryN)
    {
      t := Consider(key, FaceInferToEmbedding, timing);
      t := Consider(key, ByteTrack, t);
      t := Consider(key, FileToDec, t);
      t := Consider(key, YoloQnnInfer, t);
      t := Consider(key, DecToYolo, t);
      t := Consider(key, DecToTracker, t);
      t := Consider(key, DecToFace, t);
    }

    /** RecordStageTimestamp. The frame's timing takes the event and its metrics; then the map is pruned. */
    method RecordStageTimestamp(stage: Stage, key: nat, timestamp: nat) returns (ghost timing: Timing)
      requires Valid()
      modifies this
      ensures Valid() && isOpen == old(isOpen)
      ensures !isOpen || timestamp == 0 ==> unchanged(this)
      ensures isOpen && timestamp != 0 ==>
                && eventOrder == old(eventOrder) + 1 && sampleEveryN == old(sampleEveryN)
                && Emitted(Touched(old(Find(key)), stage, timestamp, eventOrder), timing)
                && TheLog() == AllLogged(old(TheLog()), key, Touched(old(Find(key)), stage, timestamp, eventOrder),
                                         sampleEveryN)
                && timings == Pruned(old(timings)[key := timing], eventOrder)
    {
      timing := Timing(map[], NO_FLAGS, 0, 0);
      if !isOpen || timestamp == 0 {
        return;
      }
      eventOrder := eventOrder + 1;
      var touched := Touched(Find(key), stage, timestamp, eventOrder);
      TouchedCount(Find(key), stage, timestamp, eventOrder);
      timing := EmitAndStore(key, touched);
    }

    method EmitAndStore(key: nat, touched: Timing) returns (t: Timing)
      requires LogOk() && isOpen && 0 < eventOrder && OrdersDistinct(timings, eventOrder - 1) && CountsOk(timings)
      requires touched.lastSeen == eventOrder && CountOk(touched)
      modifies this`timings, this`seen, this`rows
      ensures LogOk() && OrdersDistinct(timings, eventOrder) && CountsOk(timings) && |timings| <= MAX_TRACKED_FRAMES + 1
      ensures Emitted(touched, t) && timings == Pruned(old(timings)[key := t], eventOrder)
      ensures TheLog() == AllLogged(old(TheLog()), key, touched, sampleEveryN)
    {
      t := MaybeEmitMetrics(key, touched);
      AllConsideredEmits(touched);
      Store(key, t);
    }

    function Find(key: nat): Option<Timing>
      reads this
    {
      if key in timings then Some(timings[key]) else None
    }

    method Store(key: nat, t: Timing)
      requires 0 < eventOrder && OrdersDistinct(timings, eventOrder - 1) && CountsOk(timings)
      requires t.lastSeen == eventOrder && CountOk(t)
      modifies this`timings
      ensures timings == Pruned(old(timings)[key := t], eventOrder)
      ensures OrdersDistinct(timings, eventOrder) && CountsOk(timings) && |timings| <= MAX_TRACKED_FRAMES + 1
    {
      EventKeepsOrders(timings, eventOrder - 1, key, t);
      timings := timings[key := t];
      PruneIfNeeded();
    }

    method PruneIfNeeded()
      requires OrdersDistinct(timings, eventOrder)
      modifies this`timings
      ensures timings == Pruned(old(timings), eventOrder) && |timings| <= MAX_TRACKED_FRAMES + 1
    {
      PrunedSize(timings, eventOrder);
      if |timings| <= MAX_TRACKED_FRAMES {
        return;
      }
      DropOld();
      assert timings == Pruned(old(timings), eventOrder);
      if |timings| > HARD_MAP_LIMIT {
        assert false; // here the code clears the map
      }
    }

    /** The erase loop of PruneIfNeeded. */
    method DropOld()
      modifies this`timings
      ensures forall k :: k in timings <==> k in old(timings) && !Droppable(old(timings)[k], eventOrder)
      ensures forall k :: k in timings ==> timings[k] == old(timings)[k]
    {
      var keys := timings.Keys;
      while keys != {}
        invariant keys <= old(timings).Keys
        invariant forall k :: k in timings <==>
                    k in old(timings) && (k in keys || !Droppable(old(timings)[k], eventOrder))
        invariant forall k :: k in timings ==> timings[k] == old(timings)[k]
        decreases |keys|
      {
        var k :| k in keys;
        if Droppable(timings[k], eventOrder) {
          timings := timings - {k};
        }
        keys := keys - {k};
      }
    }
  }
}
