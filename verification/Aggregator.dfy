/** The aggregator: producers reserve capacity with a CAS and enqueue, one consumer drains the blocking
    queue into batches and publishes them.

    The blocking queue appears as what its parts guarantee: one FIFO stream per producer thread and a
    permit counter that `signal` raises after the element is in. A permit can be taken whenever there
    is one; with a single consumer `tryWait` fails only when there is none
    (Semaphore.PollTakesWhatIsThere, Semaphore.SinglePollerGetsPermit). */
module Aggregator {
  import opened Counting

  type Producer = nat
  type Item = nat

  /** A dequeued item, with the producer it came from. */
  datatype Tagged = Tagged(from: Producer, item: Item)

  datatype ProducerPc =
    | Idle
    | LoadSize(item: Item)             // current_size_.load
    | Reserve(item: Item, cur: int)    // capacity test, then CAS current_size_: cur -> cur + 1
    | Push(item: Item)                 // inner enqueue
    | Signal                           // semaphore signal
    | CountIt                          // enqueued_count_.fetch_add

  /** Which of the three dequeues of ConsumerLoop is in progress. */
  datatype Phase = First | Fill | Drain

  datatype ConsumerPc =
    | Top                       // while (!stop_requested_.load)
    | Wait                      // semaphore wait with timeout
    | Poll(phase: Phase)        // semaphore tryWait
    | Pop(phase: Phase)         // while (!inner.try_dequeue(item)), push_back
    | Release(phase: Phase)     // current_size_.fetch_sub(1)
    | Check                     // batch.size() >= batch_size
    | CheckStop                 // stop_requested_ && !batch.empty()
    | Last                      // publish what the drain left in the batch
    | Exited

  datatype Config = Config(batchSize: nat, capacity: nat)

  /** `accepted` records, per producer, the items whose `enqueue` has happened. */
  datatype State = State(
    size: int, streams: seq<seq<Item>>, permits: nat, producers: seq<ProducerPc>,
    consumer: ConsumerPc, batch: seq<Tagged>, published: seq<seq<Tagged>>, stop: bool,
    enqueued: nat, dropped: nat, accepted: seq<seq<Item>>)

  /** `ok` is false when a weak CAS fails spuriously or a wait times out; `from` is the stream that the
      inner dequeue finds first, and a dequeue that finds nothing is retried. */
  datatype Action =
    | TryEnqueue(p: Producer, item: Item)
    | ProducerStep(p: Producer, ok: bool)
    | ConsumerStep(ok: bool, from: Producer)
    | RequestStop

  predicate Wf(s: State) {
    |s.streams| == |s.producers| == |s.accepted|
  }

  predicate Enabled(s: State, a: Action) {
    match a
    case TryEnqueue(p, _) => p < |s.producers| && s.producers[p].Idle?
    case ProducerStep(p, _) => p < |s.producers| && !s.producers[p].Idle?
    case ConsumerStep(ok, from) =>
      && !s.consumer.Exited?
      && (s.consumer.Wait? && ok ==> 0 < s.permits)
    case RequestStop => true
  }

  function Do(cfg: Config, s: State, a: Action): State
    requires Wf(s) && Enabled(s, a)
  {
    match a
    case TryEnqueue(p, item) => s.(producers := s.producers[p := LoadSize(item)])
    case ProducerStep(p, ok) => StepProducer(cfg, s, p, ok)
    case ConsumerStep(ok, from) => StepConsumer(cfg, s, ok, from)
    case RequestStop => s.(stop := true)
  }

  function StepProducer(cfg: Config, s: State, p: Producer, ok: bool): State
    requires Wf(s) && p < |s.producers| && !s.producers[p].Idle?
  {
    match s.producers[p]
    case LoadSize(item) => s.(producers := s.producers[p := Reserve(item, s.size)])
    case Reserve(item, cur) =>
      if cur >= cfg.capacity then s.(dropped := s.dropped + 1, producers := s.producers[p := Idle])
      else if ok && s.size == cur then s.(size := cur + 1, producers := s.producers[p := Push(item)])
      else s.(producers := s.producers[p := Reserve(item, s.size)])
    case Push(item) =>
      s.(streams := s.streams[p := s.streams[p] + [item]], accepted := s.accepted[p := s.accepted[p] + [item]],
         producers := s.producers[p := Signal])
    case Signal => s.(permits := s.permits + 1, producers := s.producers[p := CountIt])
    case CountIt => s.(enqueued := s.enqueued + 1, producers := s.producers[p := Idle])
  }

  function Publish(s: State, next: ConsumerPc): State {
    s.(published := s.published + [s.batch], batch := [], consumer := next)
  }

  function StepConsumer(cfg: Config, s: State, ok: bool, from: Producer): State
    requires Wf(s) && Enabled(s, ConsumerStep(ok, from))
  {
    match s.consumer
    case Top => s.(consumer := if s.stop then Poll(Drain) else Wait)
    case Wait => if ok then s.(permits := s.permits - 1, consumer := Pop(First)) else s.(consumer := Check)
    case Poll(phase) =>
      if 0 < s.permits then s.(permits := s.permits - 1, consumer := Pop(phase))
      else s.(consumer := if phase.Drain? then Last else Check)
    case Pop(phase) =>
      if from < |s.streams| && s.streams[from] != [] then
        s.(batch := s.batch + [Tagged(from, s.streams[from][0])],
           streams := s.streams[from := s.streams[from][1..]], consumer := Release(phase))
      else s
    case Release(phase) =>
      var s1 := s.(size := s.size - 1);
      if phase.Drain? then s1.(consumer := Poll(Drain))
      else s1.(consumer := if |s.batch| < cfg.batchSize then Poll(Fill) else Check)
    case Check => if |s.batch| >= cfg.batchSize then Publish(s, Top) else s.(consumer := CheckStop)
    case CheckStop => if s.stop && s.batch != [] then Publish(s, Top) else s.(consumer := Top)
    case Last => if s.batch != [] then Publish(s, Exited) else s.(consumer := Exited)
  }

  ghost predicate Init(s: State) {
    && Wf(s)
    && s.size == s.permits == s.enqueued == s.dropped == 0 && !s.stop
    && s.consumer == Top && s.batch == [] && s.published == []
    && (forall p :: 0 <= p < |s.producers| ==> s.producers[p] == Idle && s.streams[p] == [] && s.accepted[p] == [])
  }

  // ----- the invariant

  ghost function Len(): seq<Item> -> int { (q: seq<Item>) => |q| }
  ghost function Reserved(): ProducerPc -> int { (pc: ProducerPc) => if pc.Push? then 1 else 0 }
  ghost function Unsignalled(): ProducerPc -> int { (pc: ProducerPc) => if pc.Signal? then 1 else 0 }
  ghost function Uncounted(): ProducerPc -> int { (pc: ProducerPc) => if pc.Signal? || pc.CountIt? then 1 else 0 }

  ghost function Queued(s: State): int { Sum(s.streams, Len()) }

  /** The consumer holds a permit whose element it has not taken out yet. */
  predicate HoldsPermit(s: State) { s.consumer.Pop? }

  function One(b: bool): int { if b then 1 else 0 }

  ghost function Flat(batches: seq<seq<Tagged>>): seq<Tagged> {
    if batches == [] then [] else Flat(batches[..|batches| - 1]) + batches[|batches| - 1]
  }

  /** The items of producer `p` in `xs`, in order. */
  ghost function Of(xs: seq<Tagged>, p: Producer): seq<Item> {
    if xs == [] then []
    else Of(xs[..|xs| - 1], p) + (if xs[|xs| - 1].from == p then [xs[|xs| - 1].item] else [])
  }

  /** Everything the consumer has taken out so far, in order. */
  ghost function Taken(s: State): seq<Tagged> { Flat(s.published) + s.batch }

  ghost predicate Capacity(cfg: Config, s: State) {
    && s.size == Sum(s.producers, Reserved()) + Queued(s) + One(s.consumer.Release?)
    && s.size <= cfg.capacity
  }

  ghost predicate Permits(s: State) {
    s.permits + Sum(s.producers, Unsignalled()) + One(HoldsPermit(s)) == Queued(s)
  }

  ghost predicate Conserved(s: State)
    requires Wf(s)
  {
    && (forall p :: 0 <= p < |s.accepted| ==> s.accepted[p] == Of(Taken(s), p) + s.streams[p])
    && s.enqueued + Sum(s.producers, Uncounted()) == Sum(s.accepted, Len())
  }

  /** The consumer is past its main loop. */
  predicate Draining(pc: ConsumerPc) {
    ((pc.Poll? || pc.Pop? || pc.Release?) && pc.phase.Drain?) || pc.Last? || pc.Exited?
  }

  ghost predicate Batches(cfg: Config, s: State) {
    && (Draining(s.consumer) ==> s.stop)
    && (s.consumer.Exited? ==> s.batch == [])
    && (!s.stop ==> forall b :: 0 <= b < |s.published| ==> |s.published[b]| == cfg.batchSize)
    && (!Draining(s.consumer) ==>
          |s.batch| <= cfg.batchSize &&
          (!(s.consumer.Check? || s.consumer.Release?) ==> |s.batch| < cfg.batchSize))
  }

  ghost predicate Inv(cfg: Config, s: State) {
    Wf(s) && Capacity(cfg, s) && Permits(s) && Conserved(s) && (0 < cfg.batchSize ==> Batches(cfg, s))
  }

  lemma InitEstablishesInv(cfg: Config, s: State)
    requires Init(s)
    ensures Inv(cfg, s)
  {
    SumZero(s.producers, Reserved());
    SumZero(s.producers, Unsignalled());
    SumZero(s.producers, Uncounted());
    SumZero(s.streams, Len());
    SumZero(s.accepted, Len());
  }

  lemma ProducerMoved(s: State, p: Producer, pc: ProducerPc)
    requires p < |s.producers|
    ensures var q := s.producers[p := pc];
            && Sum(q, Reserved()) == Sum(s.producers, Reserved()) - Reserved()(s.producers[p]) + Reserved()(pc)
            && Sum(q, Unsignalled())
               == Sum(s.producers, Unsignalled()) - Unsignalled()(s.producers[p]) + Unsignalled()(pc)
            && Sum(q, Uncounted()) == Sum(s.producers, Uncounted()) - Uncounted()(s.producers[p]) + Uncounted()(pc)
  {
    SumUpdate(s.producers, p, pc, Reserved());
    SumUpdate(s.producers, p, pc, Unsignalled());
    SumUpdate(s.producers, p, pc, Uncounted());
  }

  /** The invariant after a producer step that leaves the queue and the consumer alone, given what it
      adds to the counters. */
  lemma ProducerCounters(cfg: Config, s: State, s': State, p: Producer, pc: ProducerPc)
    requires Inv(cfg, s) && p < |s.producers|
    requires s' == s.(size := s'.size, permits := s'.permits, enqueued := s'.enqueued, dropped := s'.dropped,
                      producers := s.producers[p := pc])
    requires s'.size - s.size == Reserved()(pc) - Reserved()(s.producers[p]) && s'.size <= cfg.capacity
    requires s'.permits - s.permits == Unsignalled()(s.producers[p]) - Unsignalled()(pc)
    requires s'.enqueued - s.enqueued == Uncounted()(s.producers[p]) - Uncounted()(pc)
    ensures Inv(cfg, s')
  {
    ProducerMoved(s, p, pc);
    assert Taken(s') == Taken(s);
  }

  lemma PushKeepsInv(cfg: Config, s: State, p: Producer, item: Item)
    requires Inv(cfg, s) && p < |s.producers| && s.producers[p] == Push(item)
    ensures Inv(cfg, StepProducer(cfg, s, p, true))
  {
    var s' := StepProducer(cfg, s, p, true);
    ProducerMoved(s, p, Signal);
    SumUpdate(s.streams, p, s.streams[p] + [item], Len());
    SumUpdate(s.accepted, p, s.accepted[p] + [item], Len());
    assert Conserved(s') by {
      assert Taken(s') == Taken(s);
      forall q | 0 <= q < |s'.accepted| ensures s'.accepted[q] == Of(Taken(s'), q) + s'.streams[q] {
        assert s.accepted[q] == Of(Taken(s), q) + s.streams[q];
        if q == p {
          assert s'.accepted[q] == Of(Taken(s), q) + s.streams[q] + [item];
        }
      }
    }
  }

  lemma ReserveKeepsInv(cfg: Config, s: State, p: Producer, ok: bool)
    requires Inv(cfg, s) && p < |s.producers| && (s.producers[p].LoadSize? || s.producers[p].Reserve?)
    ensures Inv(cfg, StepProducer(cfg, s, p, ok))
  {
    var s' := StepProducer(cfg, s, p, ok);
    ProducerCounters(cfg, s, s', p, s'.producers[p]);
  }

  lemma SignalKeepsInv(cfg: Config, s: State, p: Producer, ok: bool)
    requires Inv(cfg, s) && p < |s.producers| && (s.producers[p].Signal? || s.producers[p].CountIt?)
    ensures Inv(cfg, StepProducer(cfg, s, p, ok))
  {
    var s' := StepProducer(cfg, s, p, ok);
    ProducerCounters(cfg, s, s', p, s'.producers[p]);
  }

  lemma ProducerKeepsInv(cfg: Config, s: State, p: Producer, ok: bool)
    requires Inv(cfg, s) && p < |s.producers| && !s.producers[p].Idle?
    ensures Inv(cfg, StepProducer(cfg, s, p, ok))
  {
    match s.producers[p]
    case LoadSize(_) => ReserveKeepsInv(cfg, s, p, ok);
    case Reserve(_, _) => ReserveKeepsInv(cfg, s, p, ok);
    case Push(item) => PushKeepsInv(cfg, s, p, item);
    case Signal => SignalKeepsInv(cfg, s, p, ok);
    case CountIt => SignalKeepsInv(cfg, s, p, ok);
  }

  /** A held permit guarantees an element: the inner dequeue that follows always finds a stream. */
  lemma PermitGuaranteesElement(cfg: Config, s: State) returns (p: Producer)
    requires Inv(cfg, s) && HoldsPermit(s)
    ensures p < |s.streams| && s.streams[p] != []
  {
    SumNonNegative(s.producers, Unsignalled());
    p := SumPositiveWitness(s.streams, Len());
  }

  lemma TakenPop(s: State, s': State, x: Tagged)
    requires s'.published == s.published && s'.batch == s.batch + [x]
    ensures Taken(s') == Taken(s) + [x]
    ensures forall p :: Of(Taken(s'), p) == Of(Taken(s), p) + (if x.from == p then [x.item] else [])
  {
    assert Taken(s') == Taken(s) + [x];
    assert Taken(s')[..|Taken(s')| - 1] == Taken(s);
  }

  lemma TakenPublish(s: State, next: ConsumerPc)
    ensures Taken(Publish(s, next)) == Taken(s)
  {
    var s' := Publish(s, next);
    assert s'.published[..|s'.published| - 1] == s.published;
  }

  lemma PopConserves(s: State, s': State, from: Producer)
    requires Wf(s) && Conserved(s) && from < |s.streams| && s.streams[from] != []
    requires s'.accepted == s.accepted && s'.published == s.published
    requires s'.batch == s.batch + [Tagged(from, s.streams[from][0])]
    requires s'.streams == s.streams[from := s.streams[from][1..]]
    ensures forall p :: 0 <= p < |s'.accepted| ==> s'.accepted[p] == Of(Taken(s'), p) + s'.streams[p]
  {
    TakenPop(s, s', Tagged(from, s.streams[from][0]));
    forall p | 0 <= p < |s'.accepted| ensures s'.accepted[p] == Of(Taken(s'), p) + s'.streams[p] {
      if p == from {
        assert s.streams[p] == [s.streams[p][0]] + s'.streams[p];
      }
    }
  }

  lemma PopKeepsInv(cfg: Config, s: State, ok: bool, from: Producer)
    requires Inv(cfg, s) && s.consumer.Pop?
    ensures Inv(cfg, StepConsumer(cfg, s, ok, from))
  {
    var s' := StepConsumer(cfg, s, ok, from);
    if from < |s.streams| && s.streams[from] != [] {
      SumUpdate(s.streams, from, s'.streams[from], Len());
      PopConserves(s, s', from);
    }
  }

  lemma PublishKeepsInv(cfg: Config, s: State, next: ConsumerPc)
    requires Inv(cfg, s)
    requires match next
             case Top => (s.consumer.Check? && |s.batch| >= cfg.batchSize) || (s.consumer.CheckStop? && s.stop)
             case Exited => s.consumer.Last?
             case _ => false
    ensures Inv(cfg, Publish(s, next))
  {
    TakenPublish(s, next);
  }

  /** The invariant after a consumer step that neither dequeues nor publishes. */
  lemma ConsumerCounters(cfg: Config, s: State, s': State)
    requires Inv(cfg, s) && !s.consumer.Pop? && !s'.consumer.Release?
    requires s' == s.(size := s'.size, permits := s'.permits, consumer := s'.consumer)
    requires s'.size - s.size == -One(s.consumer.Release?)
    requires s'.permits - s.permits == -One(HoldsPermit(s'))
    requires 0 < cfg.batchSize ==> Batches(cfg, s')
    ensures Inv(cfg, s')
  {
    assert Taken(s') == Taken(s);
  }

  lemma FillingKeepsInv(cfg: Config, s: State, ok: bool, from: Producer)
    requires Inv(cfg, s) && Enabled(s, ConsumerStep(ok, from))
    requires s.consumer.Top? || s.consumer.Wait? || s.consumer.Poll? || s.consumer.Release?
    ensures Inv(cfg, StepConsumer(cfg, s, ok, from))
  {
    ConsumerCounters(cfg, s, StepConsumer(cfg, s, ok, from));
  }

  lemma CheckKeepsInv(cfg: Config, s: State, ok: bool, from: Producer)
    requires Inv(cfg, s) && (s.consumer.Check? || s.consumer.CheckStop? || s.consumer.Last?)
    ensures Inv(cfg, StepConsumer(cfg, s, ok, from))
  {
    if if s.consumer.Check? then |s.batch| >= cfg.batchSize else s.batch != [] && (s.consumer.Last? || s.stop) {
      PublishKeepsInv(cfg, s, if s.consumer.Last? then Exited else Top);
    } else {
      ConsumerCounters(cfg, s, StepConsumer(cfg, s, ok, from));
    }
  }

  lemma ConsumerKeepsInv(cfg: Config, s: State, ok: bool, from: Producer)
    requires Inv(cfg, s) && Enabled(s, ConsumerStep(ok, from))
    ensures Inv(cfg, StepConsumer(cfg, s, ok, from))
  {
    match s.consumer
    case Pop(_) => PopKeepsInv(cfg, s, ok, from);
    case Check => CheckKeepsInv(cfg, s, ok, from);
    case CheckStop => CheckKeepsInv(cfg, s, ok, from);
    case Last => CheckKeepsInv(cfg, s, ok, from);
    case _ => FillingKeepsInv(cfg, s, ok, from);
  }

  lemma StepKeepsInv(cfg: Config, s: State, a: Action)
    requires Inv(cfg, s) && Enabled(s, a)
    ensures Inv(cfg, Do(cfg, s, a))
  {
    match a
    case TryEnqueue(p, item) => ProducerCounters(cfg, s, Do(cfg, s, a), p, LoadSize(item));
    case ProducerStep(p, ok) => ProducerKeepsInv(cfg, s, p, ok);
    case ConsumerStep(ok, from) => ConsumerKeepsInv(cfg, s, ok, from);
    case RequestStop =>
      assert Taken(Do(cfg, s, a)) == Taken(s);
  }

  // ----- whole runs

  ghost predicate IsStep(cfg: Config, s: State, a: Action, s': State) {
    Wf(s) && Enabled(s, a) && s' == Do(cfg, s, a)
  }

  ghost predicate IsRun(cfg: Config, ss: seq<State>, actions: seq<Action>) {
    && |ss| == |actions| + 1
    && Init(ss[0])
    && forall i :: 0 <= i < |actions| ==> IsStep(cfg, ss[i], actions[i], ss[i + 1])
  }

  lemma {:induction false} RunKeepsInv(cfg: Config, ss: seq<State>, actions: seq<Action>, i: nat)
    requires IsRun(cfg, ss, actions) && i < |ss|
    ensures Inv(cfg, ss[i])
  {
    if i == 0 {
      InitEstablishesInv(cfg, ss[0]);
    } else {
      RunKeepsInv(cfg, ss, actions, i - 1);
      assert IsStep(cfg, ss[i - 1], actions[i - 1], ss[i]);
      StepKeepsInv(cfg, ss[i - 1], actions[i - 1]);
    }
  }

  /** In every state of every run the reserved capacity stays within the limit, and what is queued stays
      within the reserved capacity. */
  lemma CapacityRespected(cfg: Config, ss: seq<State>, actions: seq<Action>, i: nat)
    requires IsRun(cfg, ss, actions) && i < |ss|
    ensures Queued(ss[i]) <= ss[i].size <= cfg.capacity
  {
    RunKeepsInv(cfg, ss, actions, i);
    SumNonNegative(ss[i].producers, Reserved());
  }

  /** In every state of every run, the accepted items of each producer are, in order, those published,
      then those in the batch, then those still queued: none lost, duplicated or reordered. */
  lemma AcceptedItemsConserved(cfg: Config, ss: seq<State>, actions: seq<Action>, i: nat, p: Producer)
    requires IsRun(cfg, ss, actions) && i < |ss| && p < |ss[i].accepted|
    ensures p < |ss[i].streams|
    ensures ss[i].accepted[p] == Of(Flat(ss[i].published), p) + Of(ss[i].batch, p) + ss[i].streams[p]
  {
    RunKeepsInv(cfg, ss, actions, i);
    OfAppend(Flat(ss[i].published), ss[i].batch, p);
  }

  lemma {:induction false} OfAppend(xs: seq<Tagged>, ys: seq<Tagged>, p: Producer)
    ensures Of(xs + ys, p) == Of(xs, p) + Of(ys, p)
  {
    if ys == [] {
      assert xs + ys == xs;
    } else {
      assert (xs + ys)[..|xs + ys| - 1] == xs + ys[..|ys| - 1];
      OfAppend(xs, ys[..|ys| - 1], p);
    }
  }

  /** The retry loop around the inner try_dequeue ends in its first round. While the consumer holds a permit and
      does not step, a scan that looks at each stream once, at any times `at` and with any pushes in between, finds
      one that is not empty, and that stream still is not when the consumer then dequeues from it. */
  lemma ScanFindsElement(cfg: Config, ss: seq<State>, actions: seq<Action>, i: nat, j: nat, at: seq<nat>)
      returns (p: Producer)
    requires IsRun(cfg, ss, actions) && i <= j < |ss| && HoldsPermit(ss[i])
    requires forall k :: i <= k < j ==> !actions[k].ConsumerStep?
    requires |at| == |ss[i].streams| && forall q :: 0 <= q < |at| ==> i <= at[q] <= j
    ensures p < |at| && |ss[at[p]].streams| == |ss[j].streams| == |at|
    ensures ss[at[p]].streams[p] != [] && ss[j].streams[p] != []
  {
    RunKeepsInv(cfg, ss, actions, i);
    p := PermitGuaranteesElement(cfg, ss[i]);
    StreamsOnlyGrow(cfg, ss, actions, i, at[p], p);
    StreamsOnlyGrow(cfg, ss, actions, i, j, p);
  }

  lemma {:induction false} StreamsOnlyGrow(cfg: Config, ss: seq<State>, actions: seq<Action>, i: nat, j: nat,
                                           p: Producer)
    requires IsRun(cfg, ss, actions) && i <= j < |ss| && p < |ss[i].streams|
    requires forall k :: i <= k < j ==> !actions[k].ConsumerStep?
    ensures |ss[j].streams| == |ss[i].streams| && ss[i].streams[p] <= ss[j].streams[p]
    decreases j
  {
    if i < j {
      StreamsOnlyGrow(cfg, ss, actions, i, j - 1, p);
      assert IsStep(cfg, ss[j - 1], actions[j - 1], ss[j]);
    }
  }

  // ----- full batches

  /** Until stop is requested every published batch has exactly the configured size. */
  lemma FullBatchesBeforeStop(cfg: Config, ss: seq<State>, actions: seq<Action>, i: nat, b: nat)
    requires IsRun(cfg, ss, actions) && i < |ss| && !ss[i].stop && b < |ss[i].published|
    requires 0 < cfg.batchSize
    ensures |ss[i].published[b]| == cfg.batchSize
  {
    RunKeepsInv(cfg, ss, actions, i);
  }

  /** In the run, every batch published before stop has the configured size. */
  ghost predicate AllFull(cfg: Config, ss: seq<State>) {
    forall i, b :: 0 <= i < |ss| && !ss[i].stop && 0 <= b < |ss[i].published| ==> |ss[i].published[b]| == cfg.batchSize
  }

  /** Without capacity nothing is ever taken out. */
  lemma NoCapacityNoPermit(cfg: Config, s: State)
    requires Inv(cfg, s) && cfg.capacity == 0
    ensures !s.consumer.Pop?
  {
    SumNonNegative(s.producers, Reserved());
    SumNonNegative(s.producers, Unsignalled());
  }

  ghost predicate NoItems(s: State) { s.batch == [] && forall b :: 0 <= b < |s.published| ==> s.published[b] == [] }

  lemma NoItemsStep(cfg: Config, s: State, a: Action, s': State)
    requires IsStep(cfg, s, a, s') && !s.consumer.Pop? && NoItems(s)
    ensures NoItems(s')
  {
  }

  lemma {:induction false} NoCapacityNoItems(cfg: Config, ss: seq<State>, actions: seq<Action>, i: nat)
    requires IsRun(cfg, ss, actions) && i < |ss| && cfg.capacity == 0
    ensures NoItems(ss[i])
  {
    if i > 0 {
      NoCapacityNoItems(cfg, ss, actions, i - 1);
      RunKeepsInv(cfg, ss, actions, i - 1);
      NoCapacityNoPermit(cfg, ss[i - 1]);
      NoItemsStep(cfg, ss[i - 1], actions[i - 1], ss[i]);
    }
  }

  /** A run with batch size 0: one item is enqueued, and published in a batch of its own. */
  ghost function SingleState(i: nat): State {
    var producer := if i == 0 then Idle else if i == 1 then LoadSize(7) else if i == 2 then Reserve(7, 0)
                    else if i == 3 then Push(7) else if i == 4 then Signal else CountIt;
    var consumer := if i <= 5 then Top else if i == 6 then Wait else if i == 7 then Pop(First)
                    else if i == 8 then Release(First) else if i == 9 then Check else Top;
    State(if 3 <= i <= 8 then 1 else 0, [if 4 <= i <= 7 then [7] else []], if i == 5 || i == 6 then 1 else 0,
          [producer],
          consumer, if i == 8 || i == 9 then [Tagged(0, 7)] else [], if i == 10 then [[Tagged(0, 7)]] else [],
          false, 0, 0, [if i <= 3 then [] else [7]])
  }

  ghost function SingleAction(i: nat): Action {
    if i == 0 then TryEnqueue(0, 7) else if i <= 4 then ProducerStep(0, true) else ConsumerStep(true, 0)
  }

  lemma SingleStep(cfg: Config, i: nat)
    requires cfg.batchSize == 0 && 0 < cfg.capacity && i < 10
    ensures IsStep(cfg, SingleState(i), SingleAction(i), SingleState(i + 1))
  {
    var next := Do(cfg, SingleState(i), SingleAction(i));
    assert [] + [7] == [7] && [7][1..] == [];
    assert next.streams == SingleState(i + 1).streams && next.accepted == SingleState(i + 1).accepted;
    assert next.batch == SingleState(i + 1).batch && next.published == SingleState(i + 1).published;
    assert next.producers == SingleState(i + 1).producers;
  }

  /** With batch size 0, a reachable state has published a batch of one before stop. */
  lemma ZeroBatchSizeBreaks(cfg: Config) returns (ss: seq<State>, actions: seq<Action>)
    requires cfg.batchSize == 0 && 0 < cfg.capacity
    ensures IsRun(cfg, ss, actions) && |ss| == 11 && !ss[10].stop && ss[10].published == [[Tagged(0, 7)]]
  {
    ss := seq(11, i requires 0 <= i => SingleState(i));
    actions := seq(10, i requires 0 <= i => SingleAction(i));
    forall i | 0 <= i < 10 ensures IsStep(cfg, ss[i], actions[i], ss[i + 1]) {
      SingleStep(cfg, i);
    }
  }

  /** Batches before stop are full in every run if and only if the batch size is positive, or nothing can be enqueued
      at all. */
  lemma FullBatchesIff(cfg: Config)
    ensures (forall ss: seq<State>, actions: seq<Action> :: IsRun(cfg, ss, actions) ==> AllFull(cfg, ss))
       <==> 0 < cfg.batchSize || cfg.capacity == 0
  {
    if 0 < cfg.batchSize || cfg.capacity == 0 {
      forall ss: seq<State>, actions: seq<Action> | IsRun(cfg, ss, actions) ensures AllFull(cfg, ss) {
        forall i, b | 0 <= i < |ss| && !ss[i].stop && 0 <= b < |ss[i].published|
          ensures |ss[i].published[b]| == cfg.batchSize
        {
          if 0 < cfg.batchSize {
            FullBatchesBeforeStop(cfg, ss, actions, i, b);
          } else {
            NoCapacityNoItems(cfg, ss, actions, i);
          }
        }
      }
    } else {
      var ss, actions := ZeroBatchSizeBreaks(cfg);
      assert |ss[10].published[0]| == 1;
      assert !AllFull(cfg, ss);
    }
  }

  // ----- what is published when the consumer has exited

  ghost predicate NoCallInProgress(s: State) {
    forall p :: 0 <= p < |s.producers| ==> s.producers[p] == Idle
  }

  /** The last poll of the drain: it finds no permit. */
  ghost predicate LastPoll(s: State, a: Action) {
    a.ConsumerStep? && s.consumer == Poll(Drain) && s.permits == 0
  }

  /** The step is an inner enqueue. */
  ghost predicate Pushes(s: State, a: Action) {
    a.ProducerStep? && a.p < |s.producers| && s.producers[a.p].Push?
  }

  /** From state d to state i no step is an inner enqueue. */
  ghost predicate NoPush(ss: seq<State>, actions: seq<Action>, d: nat, i: nat)
    requires i <= |ss| && i <= |actions|
    decreases i
  {
    d < i ==> NoPush(ss, actions, d, i - 1) && !Pushes(ss[i - 1], actions[i - 1])
  }

  lemma {:induction false} NoPushIff(ss: seq<State>, actions: seq<Action>, d: nat, i: nat)
    requires i <= |ss| && i <= |actions|
    ensures NoPush(ss, actions, d, i) <==> forall k :: d <= k < i ==> !Pushes(ss[k], actions[k])
    decreases i
  {
    if d < i {
      NoPushIff(ss, actions, d, i - 1);
    }
  }

  ghost predicate NobodySignals(s: State) {
    forall p :: 0 <= p < |s.producers| ==> !s.producers[p].Signal?
  }

  ghost predicate PastLastPoll(s: State) { s.consumer.Last? || (s.consumer.Exited? && s.batch == []) }

  ghost function PushCount(s: State, a: Action): nat { if Pushes(s, a) then 1 else 0 }

  lemma LastPollStep(cfg: Config, s: State, a: Action, s': State)
    requires IsStep(cfg, s, a, s') && LastPoll(s, a)
    ensures PastLastPoll(s') && Queued(s') == Queued(s) && !Pushes(s, a)
  {
  }

  lemma PastLastPollStep(cfg: Config, s: State, a: Action, s': State)
    requires IsStep(cfg, s, a, s') && PastLastPoll(s)
    ensures PastLastPoll(s') && Queued(s') == Queued(s) + PushCount(s, a)
  {
    if Pushes(s, a) {
      SumUpdate(s.streams, a.p, s'.streams[a.p], Len());
    }
  }

  /** Nothing is dequeued after the last poll, so the queue only grows, and does so by every push. */
  lemma {:induction false} QueueAfterLastPoll(cfg: Config, ss: seq<State>, actions: seq<Action>, d: nat, i: nat)
    requires IsRun(cfg, ss, actions) && d < i < |ss| && LastPoll(ss[d], actions[d])
    ensures PastLastPoll(ss[i])
    ensures Queued(ss[i]) >= Queued(ss[d])
    ensures Queued(ss[i]) == Queued(ss[d]) <==> NoPush(ss, actions, d, i)
    decreases i
  {
    assert IsStep(cfg, ss[i - 1], actions[i - 1], ss[i]);
    if d + 1 < i {
      QueueAfterLastPoll(cfg, ss, actions, d, i - 1);
      PastLastPollStep(cfg, ss[i - 1], actions[i - 1], ss[i]);
    } else {
      LastPollStep(cfg, ss[d], actions[d], ss[i]);
    }
  }

  /** Every accepted item of every producer has been published, in order. */
  ghost predicate AllPublished(s: State) {
    forall p :: 0 <= p < |s.accepted| ==> s.accepted[p] == Of(Flat(s.published), p)
  }

  lemma AllPublishedIffQueueEmpty(cfg: Config, ss: seq<State>, actions: seq<Action>, i: nat)
    requires IsRun(cfg, ss, actions) && i < |ss| && ss[i].batch == []
    ensures AllPublished(ss[i]) <==> Queued(ss[i]) == 0
  {
    RunKeepsInv(cfg, ss, actions, i);
    var s := ss[i];
    forall p | 0 <= p < |s.accepted|
      ensures s.accepted[p] == Of(Flat(s.published), p) <==> s.streams[p] == []
    {
      AcceptedItemsConserved(cfg, ss, actions, i, p);
    }
    if Queued(s) == 0 {
      forall p | 0 <= p < |s.streams| ensures s.streams[p] == [] {
        SumAtLeast(s.streams, p, Len());
      }
    } else {
      SumNonNegative(s.streams, Len());
      var p := SumPositiveWitness(s.streams, Len());
      assert s.streams[p] != [];
    }
  }

  lemma UnsignalledIff(s: State)
    ensures Sum(s.producers, Unsignalled()) == 0 <==> NobodySignals(s)
  {
    SumNonNegative(s.producers, Unsignalled());
    if NobodySignals(s) {
      SumZero(s.producers, Unsignalled());
    } else {
      var p :| 0 <= p < |s.producers| && s.producers[p].Signal?;
      SumAtLeast(s.producers, p, Unsignalled());
    }
  }

  /** Once the consumer has exited, everything accepted is published if and only if at the last poll of the drain no
      producer was between its enqueue and its signal, and nobody has enqueued since. */
  lemma PublishedIff(cfg: Config, ss: seq<State>, actions: seq<Action>, d: nat, i: nat)
    requires IsRun(cfg, ss, actions) && d < i < |ss| && LastPoll(ss[d], actions[d]) && ss[i].consumer.Exited?
    ensures AllPublished(ss[i]) <==> NobodySignals(ss[d]) && NoPush(ss, actions, d, i)
  {
    RunKeepsInv(cfg, ss, actions, d);
    QueueAfterLastPoll(cfg, ss, actions, d, i);
    AllPublishedIffQueueEmpty(cfg, ss, actions, i);
    UnsignalledIff(ss[d]);
    SumNonNegative(ss[d].producers, Unsignalled());
  }

  /** A consumer that has exited made a last poll. */
  lemma {:induction false} ExitHasLastPoll(cfg: Config, ss: seq<State>, actions: seq<Action>, i: nat) returns (d: nat)
    requires IsRun(cfg, ss, actions) && i < |ss| && (ss[i].consumer.Last? || ss[i].consumer.Exited?)
    ensures d < i && LastPoll(ss[d], actions[d])
  {
    assert IsStep(cfg, ss[i - 1], actions[i - 1], ss[i]);
    if ss[i - 1].consumer.Last? || ss[i - 1].consumer.Exited? {
      d := ExitHasLastPoll(cfg, ss, actions, i - 1);
    } else {
      d := i - 1;
    }
  }

  /** Stop is requested before the last poll. */
  lemma {:induction false} StopStays(cfg: Config, ss: seq<State>, actions: seq<Action>, i: nat, j: nat)
    requires IsRun(cfg, ss, actions) && i <= j < |ss|
    ensures ss[i].stop ==> ss[j].stop
    ensures (Draining(ss[j].consumer) ==> ss[j].stop)
    decreases j
  {
    if 0 < j {
      assert IsStep(cfg, ss[j - 1], actions[j - 1], ss[j]);
      if i < j {
        StopStays(cfg, ss, actions, i, j - 1);
      } else {
        StopStays(cfg, ss, actions, j - 1, j - 1);
      }
    }
  }

  /** If no TryEnqueue is in progress from the moment stop is requested on, then once the consumer has exited, every
      accepted item of every producer has been published, in order. */
  lemma EverythingPublishedAfterStop(cfg: Config, ss: seq<State>, actions: seq<Action>, k: nat, i: nat)
    requires IsRun(cfg, ss, actions) && k < |actions| && actions[k] == RequestStop && !ss[k].stop
    requires forall j :: k <= j < |ss| ==> NoCallInProgress(ss[j])
    requires k <= i < |ss| && ss[i].consumer.Exited?
    ensures AllPublished(ss[i])
  {
    var d := ExitHasLastPoll(cfg, ss, actions, i);
    StopStays(cfg, ss, actions, d, d);
    if d < k {
      StopStays(cfg, ss, actions, d, k);
    }
    PublishedIff(cfg, ss, actions, d, i);
    forall j | d <= j < i ensures !Pushes(ss[j], actions[j]) {
      assert NoCallInProgress(ss[j]);
    }
    NoPushIff(ss, actions, d, i);
  }

  /** Once the consumer has exited, what is queued stays queued for good. */
  lemma {:induction false} QueuedForGood(cfg: Config, ss: seq<State>, actions: seq<Action>, i: nat, j: nat, p: Producer)
    requires IsRun(cfg, ss, actions) && i <= j < |ss| && ss[i].consumer.Exited? && p < |ss[i].streams|
    ensures ss[j].consumer.Exited? && ss[j].published == ss[i].published
    ensures |ss[j].streams| == |ss[i].streams| && ss[i].streams[p] <= ss[j].streams[p]
    decreases j
  {
    if i < j {
      QueuedForGood(cfg, ss, actions, i, j - 1, p);
      assert IsStep(cfg, ss[j - 1], actions[j - 1], ss[j]);
    }
  }

  /** A run in which a TryEnqueue has reserved its place when stop is requested, and enqueues after the exit. */
  ghost function LateState(i: nat): State {
    var producer := if i == 0 then Idle else if i == 1 then LoadSize(7) else if i == 2 then Reserve(7, 0)
                    else if i <= 7 then Push(7) else Signal;
    var consumer := if i <= 4 then Top else if i == 5 then Poll(Drain) else if i == 6 then Last else Exited;
    State(if i <= 2 then 0 else 1, [if i == 8 then [7] else []], 0, [producer], consumer, [], [], i >= 4, 0, 0,
          [if i == 8 then [7] else []])
  }

  ghost function LateAction(i: nat): Action {
    if i == 0 then TryEnqueue(0, 7) else if i == 3 then RequestStop
    else if 4 <= i <= 6 then ConsumerStep(false, 0) else ProducerStep(0, true)
  }

  lemma LateStep(cfg: Config, i: nat)
    requires 0 < cfg.capacity && i < 8
    ensures IsStep(cfg, LateState(i), LateAction(i), LateState(i + 1))
  {
    var next := Do(cfg, LateState(i), LateAction(i));
    assert [] + [7] == [7];
    assert next.streams == LateState(i + 1).streams && next.accepted == LateState(i + 1).accepted;
    assert next.producers == LateState(i + 1).producers;
  }

  /** An accepted item can be stranded, whatever the configuration. */
  lemma LateItemsStayQueued(cfg: Config) returns (ss: seq<State>, actions: seq<Action>)
    requires 0 < cfg.capacity
    ensures IsRun(cfg, ss, actions) && |ss| == 9 && ss[8].consumer.Exited?
    ensures ss[8].accepted == [[7]] && ss[8].streams == [[7]] && ss[8].published == [] && !AllPublished(ss[8])
  {
    ss := seq(9, i requires 0 <= i => LateState(i));
    actions := seq(8, i requires 0 <= i => LateAction(i));
    forall i | 0 <= i < 8 ensures IsStep(cfg, ss[i], actions[i], ss[i + 1]) {
      LateStep(cfg, i);
    }
    assert ss[8].accepted[0] == [7] && Of(Flat([]), 0) == [];
  }

  // ----- what TryEnqueue answers

  /** Action `i` of the run calls TryEnqueue in producer `p`, which is still in that call in state `j`. */
  ghost predicate Enqueuing(ss: seq<State>, actions: seq<Action>, i: nat, j: nat, p: Producer, item: Item) {
    && i < j < |ss| == |actions| + 1
    && actions[i] == TryEnqueue(p, item)
    && forall k {:trigger ss[k]} :: i < k <= j ==> p < |ss[k].producers| && !ss[k].producers[p].Idle?
  }

  /** Where a producer is in its call, given what it had accepted before the call. */
  predicate InCall(s: State, p: Producer, item: Item, before: seq<Item>) {
    && p < |s.producers| == |s.accepted|
    && match s.producers[p]
       case Idle => false
       case LoadSize(x) => x == item && s.accepted[p] == before
       case Reserve(x, _) => x == item && s.accepted[p] == before
       case Push(x) => x == item && s.accepted[p] == before
       case Signal => s.accepted[p] == before + [item]
       case CountIt => s.accepted[p] == before + [item]
  }

  /** One step of the run, seen from a producer inside TryEnqueue. */
  lemma CallStep(cfg: Config, s: State, a: Action, s': State, p: Producer, item: Item, before: seq<Item>)
    requires IsStep(cfg, s, a, s') && InCall(s, p, item, before) && !s'.producers[p].Idle?
    ensures InCall(s', p, item, before)
    ensures s'.producers[p].Reserve? ==>
              s'.producers[p].cur == s.size || (s.producers[p].Reserve? && s'.producers[p].cur == s.producers[p].cur)
  {
  }

  lemma {:induction false} StillEnqueuing(cfg: Config, ss: seq<State>, actions: seq<Action>, i: nat, j: nat,
                                          p: Producer, item: Item)
    requires IsRun(cfg, ss, actions) && Enqueuing(ss, actions, i, j, p, item)
    ensures p < |ss[i].accepted| && InCall(ss[j], p, item, ss[i].accepted[p])
    ensures ss[j].producers[p].Reserve? ==>
              exists k {:trigger ss[k]} :: i < k <= j && ss[k].size == ss[j].producers[p].cur
    decreases j
  {
    assert IsStep(cfg, ss[j - 1], actions[j - 1], ss[j]);
    assert !ss[j].producers[p].Idle?;
    if i + 1 < j {
      StillEnqueuing(cfg, ss, actions, i, j - 1, p, item);
      CallStep(cfg, ss[j - 1], actions[j - 1], ss[j], p, item, ss[i].accepted[p]);
    }
  }

  lemma LastCallStep(cfg: Config, s: State, a: Action, s': State, p: Producer, item: Item, before: seq<Item>)
    requires IsStep(cfg, s, a, s') && InCall(s, p, item, before) && s'.producers[p].Idle?
    ensures s'.accepted == s.accepted
    ensures if s.producers[p].Reserve? then
              s.producers[p].cur >= cfg.capacity && s'.dropped == s.dropped + 1 && s'.enqueued == s.enqueued
            else
              s.producers[p].CountIt? && s'.dropped == s.dropped && s'.enqueued == s.enqueued + 1
  {
  }

  /** In every run a TryEnqueue that returns has either accepted its item and counted it, or dropped it
      and counted that, and then the capacity was used up at some moment of the call. */
  lemma TryEnqueueAnswers(cfg: Config, ss: seq<State>, actions: seq<Action>, i: nat, j: nat, p: Producer, item: Item)
    requires IsRun(cfg, ss, actions) && Enqueuing(ss, actions, i, j, p, item)
    requires j < |actions| && p < |ss[j + 1].producers| && ss[j + 1].producers[p].Idle?
    ensures p < |ss[i].accepted| && p < |ss[j + 1].accepted|
    ensures if ss[j].producers[p].Reserve? then
              && ss[j + 1].dropped == ss[j].dropped + 1 && ss[j + 1].enqueued == ss[j].enqueued
              && ss[j + 1].accepted[p] == ss[i].accepted[p]
              && exists k {:trigger ss[k]} :: i < k <= j && ss[k].size == cfg.capacity
            else
              && ss[j + 1].dropped == ss[j].dropped && ss[j + 1].enqueued == ss[j].enqueued + 1
              && ss[j + 1].accepted[p] == ss[i].accepted[p] + [item]
  {
    StillEnqueuing(cfg, ss, actions, i, j, p, item);
    assert IsStep(cfg, ss[j], actions[j], ss[j + 1]);
    LastCallStep(cfg, ss[j], actions[j], ss[j + 1], p, item, ss[i].accepted[p]);
    if ss[j].producers[p].Reserve? {
      var k {:trigger ss[k]} :| i < k <= j && ss[k].size == ss[j].producers[p].cur;
      CapacityRespected(cfg, ss, actions, k);
    }
  }

  ghost function Busy(): ProducerPc -> int { (pc: ProducerPc) => if pc.Idle? then 0 else 1 }

  /** How many calls of TryEnqueue the run has seen. */
  ghost function Calls(actions: seq<Action>): nat {
    if actions == [] then 0
    else Calls(actions[..|actions| - 1]) + if actions[|actions| - 1].TryEnqueue? then 1 else 0
  }

  lemma ConsumerCountsNothing(cfg: Config, s: State, a: Action, s': State)
    requires IsStep(cfg, s, a, s') && (a.ConsumerStep? || a.RequestStop?)
    ensures s'.enqueued == s.enqueued && s'.dropped == s.dropped && s'.producers == s.producers
  {
  }

  lemma ProducerCounts(cfg: Config, s: State, a: Action, s': State)
    requires IsStep(cfg, s, a, s') && (a.TryEnqueue? || a.ProducerStep?)
    ensures s'.producers == s.producers[a.p := s'.producers[a.p]]
    ensures (s'.enqueued - s.enqueued) + (s'.dropped - s.dropped)
            + Busy()(s'.producers[a.p]) - Busy()(s.producers[a.p]) == if a.TryEnqueue? then 1 else 0
  {
  }

  lemma CallsStep(cfg: Config, s: State, a: Action, s': State)
    requires IsStep(cfg, s, a, s')
    ensures (s'.enqueued - s.enqueued) + (s'.dropped - s.dropped) + Sum(s'.producers, Busy()) - Sum(s.producers, Busy())
         == if a.TryEnqueue? then 1 else 0
  {
    if a.TryEnqueue? || a.ProducerStep? {
      ProducerCounts(cfg, s, a, s');
      SumUpdate(s.producers, a.p, s'.producers[a.p], Busy());
    } else {
      ConsumerCountsNothing(cfg, s, a, s');
    }
  }

  /** In every run each call of TryEnqueue is counted once it has returned, as enqueued or as dropped. */
  lemma {:induction false} EveryCallIsCounted(cfg: Config, ss: seq<State>, actions: seq<Action>, i: nat)
    requires IsRun(cfg, ss, actions) && i < |ss|
    ensures ss[i].enqueued + ss[i].dropped + Sum(ss[i].producers, Busy()) == Calls(actions[..i])
    ensures NoCallInProgress(ss[i]) ==> ss[i].enqueued + ss[i].dropped == Calls(actions[..i])
  {
    if i == 0 {
      SumZero(ss[0].producers, Busy());
    } else {
      EveryCallIsCounted(cfg, ss, actions, i - 1);
      assert IsStep(cfg, ss[i - 1], actions[i - 1], ss[i]);
      CallsStep(cfg, ss[i - 1], actions[i - 1], ss[i]);
      assert actions[..i][..i - 1] == actions[..i - 1];
    }
    if NoCallInProgress(ss[i]) {
      SumZero(ss[i].producers, Busy());
    }
  }

  // ----- what a thread does when the others stand still

  /** Producer `p` runs alone for up to `k` steps, until its call returns. */
  function SoloProducer(cfg: Config, s: State, p: Producer, k: nat): State
    requires Wf(s) && p < |s.producers|
    decreases k
  {
    if k == 0 || s.producers[p].Idle? then s else SoloProducer(cfg, StepProducer(cfg, s, p, true), p, k - 1)
  }

  /** An undisturbed TryEnqueue accepts its item exactly if there is capacity left. */
  lemma UndisturbedTryEnqueue(cfg: Config, s: State, p: Producer, item: Item)
    requires Wf(s) && Enabled(s, TryEnqueue(p, item))
    ensures SoloProducer(cfg, Do(cfg, s, TryEnqueue(p, item)), p, 5) ==
            if s.size < cfg.capacity then
              s.(size := s.size + 1, streams := s.streams[p := s.streams[p] + [item]], permits := s.permits + 1,
                 accepted := s.accepted[p := s.accepted[p] + [item]], enqueued := s.enqueued + 1)
            else s.(dropped := s.dropped + 1)
  {
    var s1 := Do(cfg, s, TryEnqueue(p, item));
    var s2 := StepProducer(cfg, s1, p, true);
    var s3 := StepProducer(cfg, s2, p, true);
    assert SoloProducer(cfg, s1, p, 5) == SoloProducer(cfg, s2, p, 4) == SoloProducer(cfg, s3, p, 3);
    if s.size < cfg.capacity {
      var s4 := StepProducer(cfg, s3, p, true);
      var s5 := StepProducer(cfg, s4, p, true);
      var s6 := StepProducer(cfg, s5, p, true);
      assert SoloProducer(cfg, s3, p, 3) == SoloProducer(cfg, s4, p, 2) == SoloProducer(cfg, s5, p, 1) == s6;
      assert s6.producers == s.producers;
    } else {
      assert s3.producers == s.producers;
    }
  }

  /** The first stream that is not empty. */
  function Pick(streams: seq<seq<Item>>): (p: nat)
    ensures (exists q :: 0 <= q < |streams| && streams[q] != []) ==> p < |streams| && streams[p] != []
  {
    if streams == [] || streams[0] != [] then 0
    else
      assert forall q :: 0 < q < |streams| ==> streams[q] == streams[1..][q - 1];
      Pick(streams[1..]) + 1
  }

  /** One step of the consumer: it waits until its timeout unless there is a permit. */
  function ConsumerAlone(cfg: Config, s: State): State
    requires Wf(s) && !s.consumer.Exited?
  {
    StepConsumer(cfg, s, s.consumer.Wait? ==> 0 < s.permits, Pick(s.streams))
  }

  /** The consumer gets from `s` to `s'` while it runs alone. */
  ghost predicate Reaches(cfg: Config, s: State, s': State) {
    exists tr: seq<State> :: AloneRun(cfg, tr) && tr[0] == s && tr[|tr| - 1] == s'
  }

  ghost predicate AloneRun(cfg: Config, tr: seq<State>) {
    0 < |tr| && forall i {:trigger AloneStep(cfg, tr, i)} :: 0 < i < |tr| ==> AloneStep(cfg, tr, i)
  }

  ghost predicate AloneStep(cfg: Config, tr: seq<State>, i: nat) {
    0 < i < |tr| && Wf(tr[i - 1]) && !tr[i - 1].consumer.Exited? && tr[i] == ConsumerAlone(cfg, tr[i - 1])
  }

  lemma ReachesNext(cfg: Config, s: State, s': State)
    requires Wf(s) && !s.consumer.Exited? && s' == ConsumerAlone(cfg, s)
    ensures Reaches(cfg, s, s')
  {
    var tr := [s, s'];
    assert AloneStep(cfg, tr, 1);
    assert AloneRun(cfg, tr) && tr[0] == s && tr[|tr| - 1] == s';
  }

  lemma ReachesTwice(cfg: Config, s: State, s': State, s'': State)
    requires Reaches(cfg, s, s') && Reaches(cfg, s', s'')
    ensures Reaches(cfg, s, s'')
  {
    var tr: seq<State> :| AloneRun(cfg, tr) && tr[0] == s && tr[|tr| - 1] == s';
    var more: seq<State> :| AloneRun(cfg, more) && more[0] == s' && more[|more| - 1] == s'';
    var all := tr + more[1..];
    forall i | 0 < i < |all| ensures AloneStep(cfg, all, i) {
      if i < |tr| {
        assert AloneStep(cfg, tr, i);
      } else {
        assert AloneStep(cfg, more, i - |tr| + 1);
      }
    }
    assert AloneRun(cfg, all) && all[0] == s && all[|all| - 1] == s'';
  }

  /** The consumer has taken `n` more items into its batch and touched nothing else but the queue. */
  predicate Took(s: State, s': State, n: int) {
    && s'.permits == s.permits - n
    && s.batch <= s'.batch && |s'.batch| == |s.batch| + n
    && s' == s.(size := s'.size, streams := s'.streams, permits := s'.permits, batch := s'.batch,
                consumer := s'.consumer)
  }

  function AfterRelease(cfg: Config, phase: Phase, batch: seq<Tagged>): ConsumerPc {
    if phase.Drain? then Poll(Drain) else if |batch| < cfg.batchSize then Poll(Fill) else Check
  }

  lemma AlonePermit(cfg: Config, s: State, phase: Phase) returns (s': State)
    requires Inv(cfg, s) && 0 < s.permits && (s.consumer == Poll(phase) || (s.consumer == Wait && phase.First?))
    ensures s' == ConsumerAlone(cfg, s) && Inv(cfg, s')
    ensures s' == s.(permits := s.permits - 1, consumer := Pop(phase))
  {
    s' := ConsumerAlone(cfg, s);
    FillingKeepsInv(cfg, s, true, Pick(s.streams));
  }

  lemma AlonePop(cfg: Config, s: State, phase: Phase) returns (s': State)
    requires Inv(cfg, s) && s.consumer == Pop(phase)
    ensures s' == ConsumerAlone(cfg, s) && Inv(cfg, s')
    ensures s' == s.(streams := s'.streams, batch := s'.batch, consumer := Release(phase))
    ensures |s'.batch| == |s.batch| + 1 && s.batch <= s'.batch
  {
    s' := ConsumerAlone(cfg, s);
    var p := PermitGuaranteesElement(cfg, s);
    assert s.streams[p] != [];
    PopKeepsInv(cfg, s, true, Pick(s.streams));
  }

  lemma AloneRelease(cfg: Config, s: State, phase: Phase) returns (s': State)
    requires Inv(cfg, s) && s.consumer == Release(phase)
    ensures s' == ConsumerAlone(cfg, s) && Inv(cfg, s')
    ensures s' == s.(size := s.size - 1, consumer := AfterRelease(cfg, phase, s.batch))
  {
    s' := ConsumerAlone(cfg, s);
    FillingKeepsInv(cfg, s, true, Pick(s.streams));
  }

  /** A permit becomes an item in the batch. */
  lemma TakesOne(cfg: Config, s: State, phase: Phase) returns (s': State)
    requires Inv(cfg, s) && 0 < s.permits && (s.consumer == Poll(phase) || (s.consumer == Wait && phase.First?))
    ensures Reaches(cfg, s, s') && Inv(cfg, s') && Took(s, s', 1)
    ensures s'.consumer == AfterRelease(cfg, phase, s'.batch)
  {
    var s1 := AlonePermit(cfg, s, phase);
    var s2 := AlonePop(cfg, s1, phase);
    s' := AloneRelease(cfg, s2, phase);
    ThreeSteps(cfg, s, s1, s2, s');
  }

  lemma ThreeSteps(cfg: Config, s: State, s1: State, s2: State, s3: State)
    requires Wf(s) && !s.consumer.Exited? && s1 == ConsumerAlone(cfg, s)
    requires Wf(s1) && !s1.consumer.Exited? && s2 == ConsumerAlone(cfg, s1)
    requires Wf(s2) && !s2.consumer.Exited? && s3 == ConsumerAlone(cfg, s2)
    ensures Reaches(cfg, s, s3)
  {
    ReachesNext(cfg, s, s1);
    ReachesNext(cfg, s1, s2);
    ReachesNext(cfg, s2, s3);
    ReachesTwice(cfg, s, s1, s2);
    ReachesTwice(cfg, s, s2, s3);
  }

  lemma AloneWithoutPermit(cfg: Config, s: State) returns (s': State)
    requires Inv(cfg, s) && s.permits == 0 && (s.consumer.Poll? || s.consumer.Wait?)
    ensures Reaches(cfg, s, s') && Inv(cfg, s')
    ensures s' == s.(consumer := if s.consumer == Poll(Drain) then Last else Check)
  {
    s' := ConsumerAlone(cfg, s);
    FillingKeepsInv(cfg, s, false, Pick(s.streams));
    ReachesNext(cfg, s, s');
  }

  lemma AloneTop(cfg: Config, s: State) returns (s': State)
    requires Inv(cfg, s) && s.consumer == Top
    ensures Reaches(cfg, s, s') && Inv(cfg, s')
    ensures s' == s.(consumer := if s.stop then Poll(Drain) else Wait)
  {
    s' := ConsumerAlone(cfg, s);
    FillingKeepsInv(cfg, s, true, Pick(s.streams));
    ReachesNext(cfg, s, s');
  }

  /** The test of the batch, up to the next round. */
  lemma AloneCheck(cfg: Config, s: State) returns (s': State)
    requires Inv(cfg, s) && s.consumer == Check
    ensures Reaches(cfg, s, s') && Inv(cfg, s')
    ensures s' == if |s.batch| >= cfg.batchSize || (s.stop && s.batch != []) then Publish(s, Top)
                  else s.(consumer := Top)
  {
    s' := ConsumerAlone(cfg, s);
    CheckKeepsInv(cfg, s, true, Pick(s.streams));
    ReachesNext(cfg, s, s');
    if |s.batch| < cfg.batchSize {
      var s1 := s';
      s' := ConsumerAlone(cfg, s1);
      CheckKeepsInv(cfg, s1, true, Pick(s1.streams));
      ReachesNext(cfg, s1, s');
      ReachesTwice(cfg, s, s1, s');
    }
  }

  lemma AloneLast(cfg: Config, s: State) returns (s': State)
    requires Inv(cfg, s) && s.consumer == Last
    ensures Reaches(cfg, s, s') && Inv(cfg, s')
    ensures s' == if s.batch != [] then Publish(s, Exited) else s.(consumer := Exited)
  {
    s' := ConsumerAlone(cfg, s);
    CheckKeepsInv(cfg, s, true, Pick(s.streams));
    ReachesNext(cfg, s, s');
  }

  function Min(a: int, b: int): int { if a < b then a else b }

  /** Filling goes on until the batch is full or there is no permit. */
  lemma {:induction false} Fills(cfg: Config, s: State) returns (s': State)
    requires Inv(cfg, s) && s.consumer == Poll(Fill) && |s.batch| < cfg.batchSize
    ensures Reaches(cfg, s, s') && Inv(cfg, s') && s'.consumer == Check
    ensures Took(s, s', Min(s.permits, cfg.batchSize - |s.batch|))
    decreases cfg.batchSize - |s.batch|
  {
    if s.permits == 0 {
      s' := AloneWithoutPermit(cfg, s);
    } else {
      s' := TakesOne(cfg, s, Fill);
      if s'.consumer == Poll(Fill) {
        var s1 := s';
        s' := Fills(cfg, s1);
        ReachesTwice(cfg, s, s1, s');
      }
    }
  }

  /** Draining goes on until there is no permit. */
  lemma {:induction false} Drains(cfg: Config, s: State) returns (s': State)
    requires Inv(cfg, s) && s.consumer == Poll(Drain)
    ensures Reaches(cfg, s, s') && Inv(cfg, s') && s'.consumer == Last && Took(s, s', s.permits)
    decreases s.permits
  {
    if s.permits == 0 {
      s' := AloneWithoutPermit(cfg, s);
    } else {
      var s1 := TakesOne(cfg, s, Drain);
      s' := Drains(cfg, s1);
      ReachesTwice(cfg, s, s1, s');
    }
  }

  /** The items of one round, up to the test of the batch. */
  lemma RoundTakes(cfg: Config, s: State) returns (s': State)
    requires Inv(cfg, s) && s.consumer == Wait && |s.batch| < cfg.batchSize
    ensures Reaches(cfg, s, s') && Inv(cfg, s') && s'.consumer == Check
    ensures Took(s, s', Min(s.permits, cfg.batchSize - |s.batch|))
  {
    if s.permits == 0 {
      s' := AloneWithoutPermit(cfg, s);
    } else {
      s' := TakesOne(cfg, s, First);
      if s'.consumer == Poll(Fill) {
        var s1 := s';
        s' := Fills(cfg, s1);
        ReachesTwice(cfg, s, s1, s');
      }
    }
  }

  /** `published` has grown by one batch, of `n` items of which `batch` are the first. */
  predicate PublishedOne(before: seq<seq<Tagged>>, after: seq<seq<Tagged>>, batch: seq<Tagged>, n: int) {
    && |after| == |before| + 1 && before <= after
    && batch <= after[|before|] && |after[|before|]| == n
  }

  /** One undisturbed round of the consumer before stop: it takes what there is, up to a full batch, and
      publishes the batch exactly if it is full. */
  lemma UndisturbedRound(cfg: Config, s: State) returns (s': State)
    requires Inv(cfg, s) && 0 < cfg.batchSize && s.consumer == Top && !s.stop
    ensures Reaches(cfg, s, s') && Inv(cfg, s') && s'.consumer == Top
    ensures var room := cfg.batchSize - |s.batch|;
            if s.permits < room then Took(s, s', s.permits)
            else
              && s'.permits == s.permits - room && s'.batch == []
              && PublishedOne(s.published, s'.published, s.batch, cfg.batchSize)
  {
    var s1 := AloneTop(cfg, s);
    var s2 := RoundTakes(cfg, s1);
    s' := AloneCheck(cfg, s2);
    ReachesTwice(cfg, s, s1, s2);
    ReachesTwice(cfg, s, s2, s');
  }

  /** The drain publishes the batch at hand together with all that is queued. */
  lemma UndisturbedDrain(cfg: Config, s: State) returns (s': State)
    requires Inv(cfg, s) && s.consumer == Top && s.stop
    ensures Reaches(cfg, s, s') && Inv(cfg, s') && s'.consumer == Exited && s'.permits == 0 && s'.batch == []
    ensures if |s.batch| + s.permits == 0 then s'.published == s.published
            else PublishedOne(s.published, s'.published, s.batch, |s.batch| + s.permits)
  {
    var s1 := AloneTop(cfg, s);
    var s2 := Drains(cfg, s1);
    s' := AloneLast(cfg, s2);
    ReachesTwice(cfg, s, s1, s2);
    ReachesTwice(cfg, s, s2, s');
  }

  /** An undisturbed shutdown that begins with the test of a batch publishes that batch on its own, then all
      that is queued as one more batch. */
  lemma UndisturbedShutdown(cfg: Config, s: State) returns (s': State)
    requires Inv(cfg, s) && 0 < cfg.batchSize && s.consumer == Check && s.stop
    ensures Reaches(cfg, s, s') && Inv(cfg, s') && s'.consumer == Exited && s'.permits == 0 && s'.batch == []
    ensures var before := s.published + if s.batch == [] then [] else [s.batch];
            if s.permits == 0 then s'.published == before else PublishedOne(before, s'.published, [], s.permits)
  {
    var s1 := AloneCheck(cfg, s);
    s' := UndisturbedDrain(cfg, s1);
    ReachesTwice(cfg, s, s1, s');
  }
}
