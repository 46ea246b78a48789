/** The life of the element blocks of implicit producers: taken from the initial pool, the free list or
    the allocator, filled, drained by any number of consumers that finish in any order, and given back
    by whichever consumer finishes last.

    Steps are the atomic accesses that matter for ownership. The free list appears as the set it
    implements (see FreeList), a claim as the interval that OptimisticDequeue guarantees, and a block
    index as the sequence of its slots: slot `k` of a producer covers indices [k*32, (k+1)*32). */
module BlockRecycling {
  import opened Counting

  const BLOCK_SIZE: nat := 32

  type Block = nat
  type Thread = nat

  datatype Entry = Empty | Holds(block: Block)

  /** What the producer's own thread is doing. */
  datatype ProducerPc =
    | Ready
    | PoolLoad             // initialBlockPoolIndex.load
    | PoolAdd              // initialBlockPoolIndex.fetch_add(1)
    | TryFreeList          // freeList.try_get, then create
    | Have(b: Block)       // reset_empty
    | Clean(b: Block)      // put into the block index
    | Drop(b: Block)       // roll-back: back to the free list

  datatype Producer = Producer(tail: nat, head: nat, entries: seq<Entry>, pc: ProducerPc)

  /** A consumer still has to deal with the claimed indices [i, j) of producer `p`. */
  datatype Pc =
    | Idle
    | Lookup(p: nat, i: nat, j: nat)                          // find the block of index i
    | Finish(p: nat, i: nat, e: nat, j: nat, b: Block)        // elements [i, e) moved out: fetch_add(e - i)
    | ClearEntry(p: nat, k: nat, b: Block, i: nat, j: nat)    // the counter is full: index entry := null
    | GiveBack(b: Block, p: nat, i: nat, j: nat)              // add_block_to_free_list

  /** `recycle` is RECYCLE_ALLOCATED_BLOCKS; blocks below `poolSize` form the initial pool, the others
      were allocated later. `counters` is elementsCompletelyDequeued of every block. */
  datatype State = State(
    poolSize: nat, recycle: bool, poolIndex: nat, free: set<Block>, destroyed: set<Block>,
    counters: seq<nat>, producers: seq<Producer>, pcs: seq<Pc>)

  /** `pick` is what the free list delivers, if anything; `alloc` says whether `create` may run. */
  datatype Action =
    | StartBlock(p: nat)
    | ProducerStep(p: nat, pick: Entry, alloc: bool)
    | Publish(p: nat, count: nat)
    | RollBack(p: nat)
    | Claim(t: Thread, p: nat, count: nat)
    | ConsumerStep(t: Thread)

  function Min(a: int, b: int): int { if a < b then a else b }
  function Max(a: int, b: int): int { if a < b then b else a }

  predicate Enabled(s: State, a: Action) {
    match a
    case StartBlock(p) => p < |s.producers| && s.producers[p].pc.Ready?
    case ProducerStep(p, pick, _) =>
      p < |s.producers| && !s.producers[p].pc.Ready? &&
      (s.producers[p].pc.TryFreeList? && pick.Holds? ==> pick.block in s.free)
    case Publish(p, count) =>
      p < |s.producers| && s.producers[p].pc.Ready? && 0 < count &&
      s.producers[p].tail + count <= BLOCK_SIZE * |s.producers[p].entries|
    case RollBack(p) =>
      p < |s.producers| && s.producers[p].pc.Ready? && 0 < |s.producers[p].entries| &&
      s.producers[p].tail <= BLOCK_SIZE * (|s.producers[p].entries| - 1)
    case Claim(t, p, count) =>
      t < |s.pcs| && s.pcs[t].Idle? && p < |s.producers| && 0 < count &&
      s.producers[p].head + count <= s.producers[p].tail
    case ConsumerStep(t) => t < |s.pcs| && !s.pcs[t].Idle?
  }

  /** add_block_to_free_list. */
  function Return(s: State, b: Block): State {
    if !s.recycle && s.poolSize <= b then s.(destroyed := s.destroyed + {b}) else s.(free := s.free + {b})
  }

  function SetProducer(s: State, p: nat, q: Producer): State
    requires p < |s.producers|
  {
    s.(producers := s.producers[p := q])
  }

  function Goto(s: State, t: Thread, pc: Pc): State
    requires t < |s.pcs|
  {
    s.(pcs := s.pcs[t := pc])
  }

  function Rest(p: nat, i: nat, j: nat): Pc { if i < j then Lookup(p, i, j) else Idle }

  predicate Wf(s: State) {
    && s.poolSize <= |s.counters|
    && (forall t :: 0 <= t < |s.pcs| ==> PcWf(s, s.pcs[t]))
    && (forall p :: 0 <= p < |s.producers| ==> ProducerWf(s, s.producers[p]))
  }

  predicate ProducerWf(s: State, q: Producer) {
    && q.head <= q.tail <= BLOCK_SIZE * |q.entries|
    && (q.pc.Have? || q.pc.Clean? || q.pc.Drop? ==> q.pc.b < |s.counters|)
    && (q.pc.Clean? ==> s.counters[q.pc.b] == 0)
    && (forall k :: 0 <= k < |q.entries| && q.tail <= BLOCK_SIZE * k ==> q.entries[k].Holds?)
  }

  predicate PcWf(s: State, pc: Pc) {
    !pc.Idle? ==>
      && pc.p < |s.producers|
      && pc.i <= pc.j <= s.producers[pc.p].head
      && (pc.Lookup? ==> pc.i < pc.j)
      && (pc.Finish? ==> pc.i < pc.e <= pc.j && pc.e <= BLOCK_SIZE * (pc.i / BLOCK_SIZE + 1))
      && (pc.Finish? ==> pc.b < |s.counters| && SlotHolds(s, pc.p, pc.i / BLOCK_SIZE, pc.b))
      && (pc.ClearEntry? ==> pc.b < |s.counters| && SlotHolds(s, pc.p, pc.k, pc.b))
      && (pc.GiveBack? ==> pc.b < |s.counters|)
  }

  predicate SlotHolds(s: State, p: nat, k: nat, b: Block) {
    p < |s.producers| && k < |s.producers[p].entries| && s.producers[p].entries[k] == Holds(b)
  }

  function Do(s: State, a: Action): State
    requires Enabled(s, a) && Wf(s)
  {
    match a
    case StartBlock(p) => SetProducer(s, p, s.producers[p].(pc := PoolLoad))
    case ProducerStep(p, pick, alloc) => StepProducer(s, p, pick, alloc)
    case Publish(p, count) => SetProducer(s, p, s.producers[p].(tail := s.producers[p].tail + count))
    case RollBack(p) =>
      var q := s.producers[p];
      var last := |q.entries| - 1;
      assert ProducerWf(s, q);
      SetProducer(s, p, q.(entries := q.entries[..last], pc := Drop(q.entries[last].block)))
    case Claim(t, p, count) =>
      var q := s.producers[p];
      Goto(SetProducer(s, p, q.(head := q.head + count)), t, Lookup(p, q.head, q.head + count))
    case ConsumerStep(t) => StepConsumer(s, t)
  }

  function StepProducer(s: State, p: nat, pick: Entry, alloc: bool): State
    requires Wf(s) && Enabled(s, ProducerStep(p, pick, alloc))
  {
    var q := s.producers[p];
    assert ProducerWf(s, q);
    match q.pc
    case PoolLoad =>
      SetProducer(s, p, q.(pc := if s.poolIndex >= s.poolSize then TryFreeList else PoolAdd))
    case PoolAdd =>
      SetProducer(s.(poolIndex := s.poolIndex + 1), p,
                  q.(pc := if s.poolIndex < s.poolSize then Have(s.poolIndex) else TryFreeList))
    case TryFreeList =>
      if pick.Holds? then SetProducer(s.(free := s.free - {pick.block}), p, q.(pc := Have(pick.block)))
      else if alloc then SetProducer(s.(counters := s.counters + [0]), p, q.(pc := Have(|s.counters|)))
      else SetProducer(s, p, q.(pc := Ready))
    case Have(b) => SetProducer(s.(counters := s.counters[b := 0]), p, q.(pc := Clean(b)))
    case Clean(b) => SetProducer(s, p, q.(entries := q.entries + [Holds(b)], pc := Ready))
    case Drop(b) => SetProducer(Return(s, b), p, q.(pc := Ready))
  }

  function StepConsumer(s: State, t: Thread): State
    requires Wf(s) && t < |s.pcs| && !s.pcs[t].Idle?
  {
    var pc := s.pcs[t];
    assert PcWf(s, pc);
    match pc
    case Lookup(p, i, j) =>
      var k := i / BLOCK_SIZE;
      if k < |s.producers[p].entries| && s.producers[p].entries[k].Holds? then
        Goto(s, t, Finish(p, i, Min(j, BLOCK_SIZE * (k + 1)), j, s.producers[p].entries[k].block))
      else s  // the assertion at the lookup would fail: LookupFindsBlock shows it never does
    case Finish(p, i, e, j, b) =>
      Goto(s.(counters := s.counters[b := s.counters[b] + (e - i)]), t,
           if s.counters[b] + (e - i) == BLOCK_SIZE then ClearEntry(p, i / BLOCK_SIZE, b, e, j) else Rest(p, e, j))
    case ClearEntry(p, k, b, i, j) =>
      var q := s.producers[p];
      Goto(SetProducer(s, p, q.(entries := q.entries[k := Empty])), t, GiveBack(b, p, i, j))
    case GiveBack(b, p, i, j) => Goto(Return(s, b), t, Rest(p, i, j))
  }

  ghost predicate Init(s: State) {
    && s.poolIndex == 0 && s.free == {} && s.destroyed == {} && |s.counters| == s.poolSize
    && (forall p :: 0 <= p < |s.producers| ==> s.producers[p] == Producer(0, 0, [], Ready))
    && (forall t :: 0 <= t < |s.pcs| ==> s.pcs[t] == Idle)
  }

  // ----- where a block is

  function One(b: bool): int { if b then 1 else 0 }

  ghost function Is(b: Block): Entry -> int { (x: Entry) => One(x == Holds(b)) }

  ghost function Has(b: Block): Producer -> int {
    (q: Producer) => Sum(q.entries, Is(b)) + One((q.pc.Have? || q.pc.Clean? || q.pc.Drop?) && q.pc.b == b)
  }

  ghost function Carries(b: Block): Pc -> int { (pc: Pc) => One(pc.GiveBack? && pc.b == b) }

  predicate Unissued(s: State, b: Block) { s.poolIndex <= b < s.poolSize }

  /** In how many places block `b` is: the unissued part of the pool, the free list, the destroyed
      blocks, the producers (in the index or in hand), and the consumers giving it back. */
  ghost function Places(s: State, b: Block): int {
    One(Unissued(s, b)) + One(b in s.free) + One(b in s.destroyed) + Sum(s.producers, Has(b)) + Sum(s.pcs, Carries(b))
  }

  ghost predicate PlacedOnce(s: State) {
    forall b: Block :: Places(s, b) == One(b < |s.counters|)
  }

  // ----- how far a slot is drained

  function Overlap(i: int, j: int, k: nat): nat {
    Max(0, Min(j, BLOCK_SIZE * (k + 1)) - Max(i, BLOCK_SIZE * k))
  }

  /** Claimed indices of slot `k` that a consumer has not counted yet. */
  ghost function Outstanding(p: nat, k: nat): Pc -> int {
    (pc: Pc) => if !pc.Idle? && pc.p == p then Overlap(pc.i, pc.j, k) else 0
  }

  ghost function Clearing(p: nat, k: nat): Pc -> int {
    (pc: Pc) => One(pc.ClearEntry? && pc.p == p && pc.k == k)
  }

  /** Indices of slot `k` that nobody has claimed. */
  function Unclaimed(head: nat, k: nat): nat {
    Overlap(head, BLOCK_SIZE * (k + 1), k)
  }

  ghost predicate SlotOk(s: State, p: nat, k: nat)
    requires p < |s.producers| && k < |s.producers[p].entries|
  {
    match s.producers[p].entries[k]
    case Holds(b) =>
      && b < |s.counters|
      && s.counters[b] + Sum(s.pcs, Outstanding(p, k)) + Unclaimed(s.producers[p].head, k) == BLOCK_SIZE
      && Sum(s.pcs, Clearing(p, k)) == One(s.counters[b] == BLOCK_SIZE)
    case Empty =>
      && Sum(s.pcs, Outstanding(p, k)) == 0 && Unclaimed(s.producers[p].head, k) == 0
      && Sum(s.pcs, Clearing(p, k)) == 0
  }

  ghost predicate SlotsOk(s: State) {
    forall p, k :: 0 <= p < |s.producers| && 0 <= k < |s.producers[p].entries| ==> SlotOk(s, p, k)
  }

  ghost predicate Inv(s: State) {
    Wf(s) && PlacedOnce(s) && SlotsOk(s)
  }

  lemma InitEstablishesInv(s: State)
    requires Init(s)
    ensures Inv(s)
  {
    forall b: Block ensures Places(s, b) == One(b < |s.counters|) {
      forall q | q in s.producers ensures Has(b)(q) == 0 {
      }
      SumZero(s.producers, Has(b));
      SumZero(s.pcs, Carries(b));
    }
  }

  /** A consumer's lookup always finds the block of the index it claimed. */
  lemma LookupFindsBlock(s: State, t: Thread)
    requires Inv(s) && t < |s.pcs| && s.pcs[t].Lookup?
    ensures var pc := s.pcs[t]; var k := pc.i / BLOCK_SIZE;
            k < |s.producers[pc.p].entries| && s.producers[pc.p].entries[k].Holds?
  {
    var pc := s.pcs[t];
    var k := pc.i / BLOCK_SIZE;
    assert PcWf(s, pc) && ProducerWf(s, s.producers[pc.p]);
    assert SlotOk(s, pc.p, k);
    SumAtLeast(s.pcs, t, Outstanding(pc.p, k));
  }

  /** A block leaves its producer only when all its elements were enqueued and dequeued: every index of
      its slot is claimed, no consumer still works on one of them, and exactly one consumer is giving
      it back. */
  lemma ReturnedOnlyWhenFinished(s: State, t: Thread, u: Thread)
    requires Inv(s) && t < |s.pcs| && s.pcs[t].ClearEntry? && u < |s.pcs|
    ensures var pc := s.pcs[t];
            && pc.p < |s.producers| && BLOCK_SIZE * (pc.k + 1) <= s.producers[pc.p].head <= s.producers[pc.p].tail
            && Outstanding(pc.p, pc.k)(s.pcs[u]) == 0
            && (u != t ==> Clearing(pc.p, pc.k)(s.pcs[u]) == 0)
  {
    var pc := s.pcs[t];
    assert PcWf(s, pc) && SlotOk(s, pc.p, pc.k);
    SumAtLeast(s.pcs, t, Clearing(pc.p, pc.k));
    SumAtLeast(s.pcs, u, Outstanding(pc.p, pc.k));
    if u != t {
      SumAtLeastTwo(s.pcs, t, u, Clearing(pc.p, pc.k));
    }
    assert ProducerWf(s, s.producers[pc.p]);
  }

  /** When no consumer is active, every fully claimed block has gone back. */
  lemma DrainedBlocksAreBack(s: State, p: nat, k: nat)
    requires Inv(s) && p < |s.producers| && k < |s.producers[p].entries|
    requires forall t :: 0 <= t < |s.pcs| ==> s.pcs[t].Idle?
    ensures BLOCK_SIZE * (k + 1) <= s.producers[p].head <==> s.producers[p].entries[k] == Empty
  {
    assert SlotOk(s, p, k);
    SumZero(s.pcs, Outstanding(p, k));
    SumZero(s.pcs, Clearing(p, k));
  }

  // ----- no block is in two places

  lemma HasNonNegative(b: Block)
    ensures forall q: Producer :: 0 <= Has(b)(q)
  {
    forall q: Producer ensures 0 <= Has(b)(q) {
      SumNonNegative(q.entries, Is(b));
    }
  }

  /** A block in some producer's slot is in no other slot and in no producer's hand, and nobody is
      giving it back. */
  lemma SlotIsThePlace(s: State, p: nat, k: nat, b: Block, p': nat, k': nat, t: Thread)
    requires Inv(s) && SlotHolds(s, p, k, b)
    ensures SlotHolds(s, p', k', b) ==> p == p' && k == k'
    ensures p' < |s.producers| ==> !InHand(s.producers[p'], b)
    ensures t < |s.pcs| ==> Carries(b)(s.pcs[t]) == 0
    ensures b !in s.free && b !in s.destroyed && !Unissued(s, b)
  {
    HasNonNegative(b);
    var q := s.producers[p];
    SumAtLeast(q.entries, k, Is(b));
    SumAtLeast(s.producers, p, Has(b));
    assert Places(s, b) <= 1;
    SumNonNegative(s.pcs, Carries(b));
    if t < |s.pcs| {
      SumAtLeast(s.pcs, t, Carries(b));
    }
    if p' < |s.producers| && p' != p {
      SumAtLeastTwo(s.producers, p, p', Has(b));
      SumNonNegative(s.producers[p'].entries, Is(b));
      if SlotHolds(s, p', k', b) {
        SumAtLeast(s.producers[p'].entries, k', Is(b));
      }
    } else if SlotHolds(s, p', k', b) && k' != k {
      SumAtLeastTwo(q.entries, k, k', Is(b));
    }
  }

  predicate InHand(q: Producer, b: Block) {
    (q.pc.Have? || q.pc.Clean? || q.pc.Drop?) && q.pc.b == b
  }

  /** A block in a producer's hand is in no slot and in no other hand. */
  lemma HandIsThePlace(s: State, p: nat, b: Block, p': nat, k': nat)
    requires Inv(s) && p < |s.producers| && InHand(s.producers[p], b)
    ensures !SlotHolds(s, p', k', b)
    ensures p' < |s.producers| && p' != p ==> !InHand(s.producers[p'], b)
    ensures b !in s.free && b !in s.destroyed && !Unissued(s, b)
  {
    if SlotHolds(s, p', k', b) {
      SlotIsThePlace(s, p', k', b, p, 0, 0);
    }
    HasNonNegative(b);
    SumNonNegative(s.producers[p].entries, Is(b));
    SumAtLeast(s.producers, p, Has(b));
    SumNonNegative(s.pcs, Carries(b));
    assert Places(s, b) <= 1;
    if p' < |s.producers| && p' != p {
      SumNonNegative(s.producers[p'].entries, Is(b));
      SumAtLeastTwo(s.producers, p, p', Has(b));
    }
  }

  // ----- steps of a producer

  /** A producer step that keeps slots and head keeps the drain accounting, unless it touches the
      counter of a block that is in a slot. */
  lemma ProducerKeepsSlots(s: State, s': State, p: nat)
    requires Inv(s) && p < |s.producers| && s'.pcs == s.pcs && |s'.producers| == |s.producers|
    requires forall p' :: 0 <= p' < |s.producers| ==>
               s'.producers[p'].head == s.producers[p'].head && s'.producers[p'].entries == s.producers[p'].entries
    requires |s.counters| <= |s'.counters|
    requires forall p': nat, k': nat, b: Block :: SlotHolds(s, p', k', b) && b < |s.counters| ==>
               s'.counters[b] == s.counters[b]
    ensures SlotsOk(s')
  {
    forall p', k' | 0 <= p' < |s'.producers| && 0 <= k' < |s'.producers[p'].entries| ensures SlotOk(s', p', k') {
      assert SlotOk(s, p', k');
      if s.producers[p'].entries[k'].Holds? {
        assert SlotHolds(s, p', k', s.producers[p'].entries[k'].block);
      }
    }
  }

  /** The global places of a block, less one if it exists. */
  ghost function Elsewhere(s: State, b: Block): int {
    One(Unissued(s, b)) + One(b in s.free) + One(b in s.destroyed) - One(b < |s.counters|)
  }

  /** A producer step moves at most one block, from one place to another. */
  lemma ProducerKeepsPlaces(s: State, s': State, p: nat, q: Producer)
    requires Inv(s) && p < |s.producers| && s'.pcs == s.pcs && s'.producers == s.producers[p := q]
    requires q.entries == s.producers[p].entries
    requires forall b: Block :: Elsewhere(s', b) + One(InHand(q, b)) == Elsewhere(s, b) + One(InHand(s.producers[p], b))
    ensures PlacedOnce(s')
  {
    forall b: Block ensures Places(s', b) == One(b < |s'.counters|) {
      SumUpdate(s.producers, p, q, Has(b));
      assert Places(s, b) == One(b < |s.counters|);
      assert Elsewhere(s', b) + One(InHand(q, b)) == Elsewhere(s, b) + One(InHand(s.producers[p], b));
    }
  }

  lemma PoolWf(s: State, p: nat, pick: Entry, alloc: bool)
    requires Inv(s) && Enabled(s, ProducerStep(p, pick, alloc))
    requires s.producers[p].pc.PoolLoad? || s.producers[p].pc.PoolAdd? || s.producers[p].pc.TryFreeList?
    ensures Wf(StepProducer(s, p, pick, alloc))
  {
    var s' := StepProducer(s, p, pick, alloc);
    forall t | 0 <= t < |s'.pcs| ensures PcWf(s', s'.pcs[t]) {
      assert PcWf(s, s.pcs[t]);
    }
    forall p' | 0 <= p' < |s'.producers| ensures ProducerWf(s', s'.producers[p']) {
      assert ProducerWf(s, s.producers[p']);
      if p' == p && s.producers[p].pc.TryFreeList? && pick.Holds? {
        PlacedExists(s, pick.block);
      }
    }
  }

  lemma StepPool(s: State, p: nat, pick: Entry, alloc: bool)
    requires Inv(s) && Enabled(s, ProducerStep(p, pick, alloc))
    requires s.producers[p].pc.PoolLoad? || s.producers[p].pc.PoolAdd? || s.producers[p].pc.TryFreeList?
    ensures Inv(StepProducer(s, p, pick, alloc))
  {
    var s' := StepProducer(s, p, pick, alloc);
    PoolWf(s, p, pick, alloc);
    ProducerKeepsSlots(s, s', p);
    forall b: Block ensures b == |s.counters| ==> b !in s.free && b !in s.destroyed && !Unissued(s, b) {
      PlacedExists(s, b);
    }
    ProducerKeepsPlaces(s, s', p, s'.producers[p]);
  }

  /** Whatever is in one of the global places is an existing block, in just that place. */
  lemma PlacedExists(s: State, b: Block)
    requires Inv(s)
    ensures One(Unissued(s, b)) + One(b in s.free) + One(b in s.destroyed) <= One(b < |s.counters|)
  {
    HasNonNegative(b);
    SumNonNegative(s.producers, Has(b));
    SumNonNegative(s.pcs, Carries(b));
    assert Places(s, b) == One(b < |s.counters|);
  }

  lemma StepReset(s: State, p: nat, pick: Entry, alloc: bool)
    requires Inv(s) && Enabled(s, ProducerStep(p, pick, alloc)) && s.producers[p].pc.Have?
    ensures Inv(StepProducer(s, p, pick, alloc))
  {
    var s' := StepProducer(s, p, pick, alloc);
    var b := s.producers[p].pc.b;
    assert ProducerWf(s, s.producers[p]);
    forall p', k' ensures !SlotHolds(s, p', k', b) {
      HandIsThePlace(s, p, b, p', k');
    }
    forall t | 0 <= t < |s'.pcs| ensures PcWf(s', s'.pcs[t]) {
      assert PcWf(s, s.pcs[t]);
    }
    forall p' | 0 <= p' < |s'.producers| ensures ProducerWf(s', s'.producers[p']) {
      assert ProducerWf(s, s.producers[p']);
      HandIsThePlace(s, p, b, p', 0);
    }
    ProducerKeepsSlots(s, s', p);
    ProducerKeepsPlaces(s, s', p, s'.producers[p]);
  }

  lemma DropWf(s: State, p: nat, pick: Entry, alloc: bool)
    requires Inv(s) && Enabled(s, ProducerStep(p, pick, alloc)) && s.producers[p].pc.Drop?
    ensures Wf(StepProducer(s, p, pick, alloc))
  {
    var s' := StepProducer(s, p, pick, alloc);
    forall t | 0 <= t < |s'.pcs| ensures PcWf(s', s'.pcs[t]) {
      assert PcWf(s, s.pcs[t]);
    }
    forall p' | 0 <= p' < |s'.producers| ensures ProducerWf(s', s'.producers[p']) {
      assert ProducerWf(s, s.producers[p']);
    }
  }

  lemma StepDrop(s: State, p: nat, pick: Entry, alloc: bool)
    requires Inv(s) && Enabled(s, ProducerStep(p, pick, alloc)) && s.producers[p].pc.Drop?
    ensures Inv(StepProducer(s, p, pick, alloc))
  {
    var s' := StepProducer(s, p, pick, alloc);
    DropWf(s, p, pick, alloc);
    HandIsThePlace(s, p, s.producers[p].pc.b, p, 0);
    ProducerKeepsSlots(s, s', p);
    ProducerKeepsPlaces(s, s', p, s'.producers[p]);
  }

  lemma InsertWf(s: State, p: nat, pick: Entry, alloc: bool)
    requires Inv(s) && Enabled(s, ProducerStep(p, pick, alloc)) && s.producers[p].pc.Clean?
    ensures Wf(StepProducer(s, p, pick, alloc))
  {
    var s' := StepProducer(s, p, pick, alloc);
    forall t | 0 <= t < |s'.pcs| ensures PcWf(s', s'.pcs[t]) {
      assert PcWf(s, s.pcs[t]);
    }
    forall p' | 0 <= p' < |s'.producers| ensures ProducerWf(s', s'.producers[p']) {
      assert ProducerWf(s, s.producers[p']);
    }
  }

  lemma StepInsert(s: State, p: nat, pick: Entry, alloc: bool)
    requires Inv(s) && Enabled(s, ProducerStep(p, pick, alloc)) && s.producers[p].pc.Clean?
    ensures Inv(StepProducer(s, p, pick, alloc))
  {
    var s' := StepProducer(s, p, pick, alloc);
    var q, q' := s.producers[p], s'.producers[p];
    var b := q.pc.b;
    assert ProducerWf(s, q);
    InsertWf(s, p, pick, alloc);
    forall c: Block ensures Places(s', c) == One(c < |s'.counters|) {
      SumAppend(q.entries, [Holds(b)], Is(c));
      SumUpdate(s.producers, p, q', Has(c));
      assert Places(s, c) == One(c < |s.counters|);
    }
    forall p', k' | 0 <= p' < |s'.producers| && 0 <= k' < |s'.producers[p'].entries| ensures SlotOk(s', p', k') {
      if p' == p && k' == |q.entries| {
        NewSlot(s, p);
      } else {
        assert SlotOk(s, p', k');
      }
    }
  }

  /** Nobody has claimed, or is clearing, anything of a slot that does not exist yet. */
  lemma NewSlot(s: State, p: nat)
    requires Inv(s) && p < |s.producers|
    ensures Sum(s.pcs, Outstanding(p, |s.producers[p].entries|)) == 0
    ensures Sum(s.pcs, Clearing(p, |s.producers[p].entries|)) == 0
    ensures Unclaimed(s.producers[p].head, |s.producers[p].entries|) == BLOCK_SIZE
  {
    var k := |s.producers[p].entries|;
    assert ProducerWf(s, s.producers[p]);
    forall pc | pc in s.pcs ensures Outstanding(p, k)(pc) == 0 && Clearing(p, k)(pc) == 0 {
      var t :| 0 <= t < |s.pcs| && s.pcs[t] == pc;
      assert PcWf(s, pc);
    }
    SumZero(s.pcs, Outstanding(p, k));
    SumZero(s.pcs, Clearing(p, k));
  }

  lemma StepPublish(s: State, p: nat, count: nat)
    requires Inv(s) && Enabled(s, Publish(p, count))
    ensures Inv(Do(s, Publish(p, count)))
  {
    var s' := Do(s, Publish(p, count));
    assert ProducerWf(s, s.producers[p]);
    forall t | 0 <= t < |s'.pcs| ensures PcWf(s', s'.pcs[t]) {
      assert PcWf(s, s.pcs[t]);
    }
    forall p' | 0 <= p' < |s'.producers| ensures ProducerWf(s', s'.producers[p']) {
      assert ProducerWf(s, s.producers[p']);
    }
    ProducerKeepsSlots(s, s', p);
    ProducerKeepsPlaces(s, s', p, s'.producers[p]);
  }

  lemma RollBackWf(s: State, p: nat)
    requires Inv(s) && Enabled(s, RollBack(p))
    ensures Wf(Do(s, RollBack(p)))
  {
    var s' := Do(s, RollBack(p));
    var last := |s.producers[p].entries| - 1;
    assert ProducerWf(s, s.producers[p]) && SlotOk(s, p, last);
    SumNonNegative(s.pcs, Outstanding(p, last));
    forall t | 0 <= t < |s'.pcs| ensures PcWf(s', s'.pcs[t]) {
      assert PcWf(s, s.pcs[t]);
      SumAtLeast(s.pcs, t, Clearing(p, last));
    }
    forall p' | 0 <= p' < |s'.producers| ensures ProducerWf(s', s'.producers[p']) {
      assert ProducerWf(s, s.producers[p']);
    }
  }

  lemma RollBackPlaces(s: State, p: nat)
    requires Inv(s) && Enabled(s, RollBack(p))
    ensures PlacedOnce(Do(s, RollBack(p)))
  {
    var s' := Do(s, RollBack(p));
    var q, q' := s.producers[p], s'.producers[p];
    var last := |q.entries| - 1;
    assert ProducerWf(s, q);
    var b := q.entries[last].block;
    assert q.entries == q'.entries + [Holds(b)];
    forall c: Block ensures Places(s', c) == One(c < |s'.counters|) {
      SumAppend(q'.entries, [Holds(b)], Is(c));
      SumUpdate(s.producers, p, q', Has(c));
      assert Places(s, c) == One(c < |s.counters|);
    }
  }

  lemma StepRollBack(s: State, p: nat)
    requires Inv(s) && Enabled(s, RollBack(p))
    ensures Inv(Do(s, RollBack(p)))
  {
    var s' := Do(s, RollBack(p));
    RollBackWf(s, p);
    RollBackPlaces(s, p);
    forall p', k' | 0 <= p' < |s'.producers| && 0 <= k' < |s'.producers[p'].entries| ensures SlotOk(s', p', k') {
      assert SlotOk(s, p', k');
    }
  }

  // ----- steps of a consumer

  lemma PcMoved(s: State, t: Thread, pc: Pc, p: nat, k: nat)
    requires t < |s.pcs|
    ensures Sum(s.pcs[t := pc], Outstanding(p, k)) ==
            Sum(s.pcs, Outstanding(p, k)) - Outstanding(p, k)(s.pcs[t]) + Outstanding(p, k)(pc)
    ensures Sum(s.pcs[t := pc], Clearing(p, k)) ==
            Sum(s.pcs, Clearing(p, k)) - Clearing(p, k)(s.pcs[t]) + Clearing(p, k)(pc)
  {
    SumUpdate(s.pcs, t, pc, Outstanding(p, k));
    SumUpdate(s.pcs, t, pc, Clearing(p, k));
  }

  lemma ClaimWf(s: State, t: Thread, p: nat, count: nat)
    requires Inv(s) && Enabled(s, Claim(t, p, count))
    ensures Wf(Do(s, Claim(t, p, count)))
  {
    var s' := Do(s, Claim(t, p, count));
    forall u | 0 <= u < |s'.pcs| ensures PcWf(s', s'.pcs[u]) {
      assert PcWf(s, s.pcs[u]);
    }
    forall p' | 0 <= p' < |s'.producers| ensures ProducerWf(s', s'.producers[p']) {
      assert ProducerWf(s, s.producers[p']);
    }
  }

  lemma StepClaim(s: State, t: Thread, p: nat, count: nat)
    requires Inv(s) && Enabled(s, Claim(t, p, count))
    ensures Inv(Do(s, Claim(t, p, count)))
  {
    var s' := Do(s, Claim(t, p, count));
    var q, q' := s.producers[p], s'.producers[p];
    ClaimWf(s, t, p, count);
    forall c: Block ensures Places(s', c) == One(c < |s'.counters|) {
      SumUpdate(s.producers, p, q', Has(c));
      SumUpdate(s.pcs, t, s'.pcs[t], Carries(c));
      assert Places(s, c) == One(c < |s.counters|);
    }
    forall p', k' | 0 <= p' < |s'.producers| && 0 <= k' < |s'.producers[p'].entries| ensures SlotOk(s', p', k') {
      ClaimSlots(s, t, p, count, p', k');
    }
  }

  lemma ClaimSlots(s: State, t: Thread, p: nat, count: nat, p': nat, k': nat)
    requires Inv(s) && Enabled(s, Claim(t, p, count))
    requires p' < |s.producers| && k' < |s.producers[p'].entries|
    ensures SlotOk(Do(s, Claim(t, p, count)), p', k')
  {
    assert SlotOk(s, p', k');
    PcMoved(s, t, Lookup(p, s.producers[p].head, s.producers[p].head + count), p', k');
  }

  /** A consumer step that leaves producers and counters alone and keeps what it has outstanding. */
  lemma ConsumerKeeps(s: State, s': State, t: Thread, pc: Pc)
    requires Inv(s) && t < |s.pcs| && s'.pcs == s.pcs[t := pc]
    requires s'.producers == s.producers && s'.counters == s.counters && s'.poolSize == s.poolSize
    requires PcWf(s', pc) && !pc.ClearEntry? && !s.pcs[t].ClearEntry?
    requires forall p, k :: Outstanding(p, k)(pc) == Outstanding(p, k)(s.pcs[t])
    requires forall b: Block :: Elsewhere(s', b) + Carries(b)(pc) == Elsewhere(s, b) + Carries(b)(s.pcs[t])
    ensures Inv(s')
  {
    forall u | 0 <= u < |s'.pcs| ensures PcWf(s', s'.pcs[u]) {
      assert PcWf(s, s.pcs[u]);
    }
    forall p' | 0 <= p' < |s'.producers| ensures ProducerWf(s', s'.producers[p']) {
      assert ProducerWf(s, s.producers[p']);
    }
    forall c: Block ensures Places(s', c) == One(c < |s'.counters|) {
      SumUpdate(s.pcs, t, pc, Carries(c));
      assert Places(s, c) == One(c < |s.counters|);
    }
    forall p', k' | 0 <= p' < |s'.producers| && 0 <= k' < |s'.producers[p'].entries| ensures SlotOk(s', p', k') {
      assert SlotOk(s, p', k');
      PcMoved(s, t, pc, p', k');
    }
  }

  lemma StepLookup(s: State, t: Thread)
    requires Inv(s) && t < |s.pcs| && s.pcs[t].Lookup?
    ensures Inv(StepConsumer(s, t))
  {
    var pc := s.pcs[t];
    LookupFindsBlock(s, t);
    assert PcWf(s, pc) && SlotOk(s, pc.p, pc.i / BLOCK_SIZE);
    ConsumerKeeps(s, StepConsumer(s, t), t, StepConsumer(s, t).pcs[t]);
  }

  lemma CarriedIsNowhereElse(s: State, t: Thread)
    requires Inv(s) && t < |s.pcs| && s.pcs[t].GiveBack?
    ensures s.pcs[t].b !in s.free && s.pcs[t].b !in s.destroyed
  {
    var b := s.pcs[t].b;
    HasNonNegative(b);
    SumNonNegative(s.producers, Has(b));
    SumAtLeast(s.pcs, t, Carries(b));
    assert Places(s, b) == One(b < |s.counters|);
  }

  lemma StepGiveBack(s: State, t: Thread)
    requires Inv(s) && t < |s.pcs| && s.pcs[t].GiveBack?
    ensures Inv(StepConsumer(s, t))
  {
    var pc := s.pcs[t];
    assert PcWf(s, pc);
    CarriedIsNowhereElse(s, t);
    ConsumerKeeps(s, StepConsumer(s, t), t, StepConsumer(s, t).pcs[t]);
  }

  /** What a consumer has outstanding in a slot after counting the elements [i, e). */
  lemma FinishOutstanding(pc: Pc, after: Pc, p: nat, k: nat)
    requires pc.Finish? && pc.i < pc.e <= pc.j && pc.e <= BLOCK_SIZE * (pc.i / BLOCK_SIZE + 1)
    requires after == ClearEntry(pc.p, pc.i / BLOCK_SIZE, pc.b, pc.e, pc.j) || after == Rest(pc.p, pc.e, pc.j)
    ensures Outstanding(p, k)(after)
         == Outstanding(p, k)(pc) - if p == pc.p && k == pc.i / BLOCK_SIZE then pc.e - pc.i else 0
  {
    var own := pc.i / BLOCK_SIZE;
    assert BLOCK_SIZE * own <= pc.i;
    if k < own {
      assert BLOCK_SIZE * (k + 1) <= BLOCK_SIZE * own;
    } else if own < k {
      assert BLOCK_SIZE * (own + 1) <= BLOCK_SIZE * k;
    }
  }

  lemma FinishOwnSlot(s: State, t: Thread)
    requires Inv(s) && t < |s.pcs| && s.pcs[t].Finish?
    ensures var pc := s.pcs[t];
            var k := pc.i / BLOCK_SIZE;
            && SlotHolds(s, pc.p, k, pc.b) && pc.b < |s.counters| && SlotOk(StepConsumer(s, t), pc.p, k)
  {
    var s' := StepConsumer(s, t);
    var pc := s.pcs[t];
    var k := pc.i / BLOCK_SIZE;
    assert PcWf(s, pc) && SlotOk(s, pc.p, k);
    FinishOutstanding(pc, s'.pcs[t], pc.p, k);
    PcMoved(s, t, s'.pcs[t], pc.p, k);
    SumAtLeast(s.pcs, t, Outstanding(pc.p, k));
  }

  lemma FinishSlots(s: State, t: Thread, p': nat, k': nat)
    requires Inv(s) && t < |s.pcs| && s.pcs[t].Finish?
    requires p' < |s.producers| && k' < |s.producers[p'].entries|
    ensures SlotOk(StepConsumer(s, t), p', k')
  {
    var s' := StepConsumer(s, t);
    var pc := s.pcs[t];
    FinishOwnSlot(s, t);
    if p' != pc.p || k' != pc.i / BLOCK_SIZE {
      SlotIsThePlace(s, pc.p, pc.i / BLOCK_SIZE, pc.b, p', k', t);
      assert PcWf(s, pc) && SlotOk(s, p', k');
      FinishOutstanding(pc, s'.pcs[t], p', k');
      PcMoved(s, t, s'.pcs[t], p', k');
    }
  }

  lemma StepFinish(s: State, t: Thread)
    requires Inv(s) && t < |s.pcs| && s.pcs[t].Finish?
    ensures Inv(StepConsumer(s, t))
  {
    var s' := StepConsumer(s, t);
    var pc := s.pcs[t];
    assert PcWf(s, pc);
    forall u | 0 <= u < |s'.pcs| ensures PcWf(s', s'.pcs[u]) {
      assert PcWf(s, s.pcs[u]);
    }
    forall p' | 0 <= p' < |s'.producers| ensures ProducerWf(s', s'.producers[p']) {
      assert ProducerWf(s, s.producers[p']);
      SlotIsThePlace(s, pc.p, pc.i / BLOCK_SIZE, pc.b, p', 0, t);
    }
    forall c: Block ensures Places(s', c) == One(c < |s'.counters|) {
      SumUpdate(s.pcs, t, s'.pcs[t], Carries(c));
      assert Places(s, c) == One(c < |s.counters|);
    }
    forall p', k' | 0 <= p' < |s'.producers| && 0 <= k' < |s'.producers[p'].entries| ensures SlotOk(s', p', k') {
      FinishSlots(s, t, p', k');
    }
  }

  lemma ClearEntryWf(s: State, t: Thread)
    requires Inv(s) && t < |s.pcs| && s.pcs[t].ClearEntry?
    ensures Wf(StepConsumer(s, t))
  {
    var s' := StepConsumer(s, t);
    var pc := s.pcs[t];
    assert PcWf(s, pc);
    ReturnedOnlyWhenFinished(s, t, t);
    forall u | 0 <= u < |s'.pcs| ensures PcWf(s', s'.pcs[u]) {
      assert PcWf(s, s.pcs[u]);
      ReturnedOnlyWhenFinished(s, t, u);
    }
    forall p' | 0 <= p' < |s'.producers| ensures ProducerWf(s', s'.producers[p']) {
      assert ProducerWf(s, s.producers[p']);
    }
  }

  lemma ClearEntryPlaces(s: State, t: Thread)
    requires Inv(s) && t < |s.pcs| && s.pcs[t].ClearEntry?
    ensures PlacedOnce(StepConsumer(s, t))
  {
    var s' := StepConsumer(s, t);
    var pc := s.pcs[t];
    assert PcWf(s, pc);
    forall c: Block ensures Places(s', c) == One(c < |s'.counters|) {
      SumUpdate(s.producers[pc.p].entries, pc.k, Empty, Is(c));
      SumUpdate(s.producers, pc.p, s'.producers[pc.p], Has(c));
      SumUpdate(s.pcs, t, s'.pcs[t], Carries(c));
      assert Places(s, c) == One(c < |s.counters|);
    }
  }

  lemma StepClearEntry(s: State, t: Thread)
    requires Inv(s) && t < |s.pcs| && s.pcs[t].ClearEntry?
    ensures Inv(StepConsumer(s, t))
  {
    var s' := StepConsumer(s, t);
    var pc := s.pcs[t];
    ClearEntryWf(s, t);
    ClearEntryPlaces(s, t);
    forall p', k' | 0 <= p' < |s'.producers| && 0 <= k' < |s'.producers[p'].entries| ensures SlotOk(s', p', k') {
      ClearEntrySlots(s, t, p', k');
    }
  }

  lemma ClearEntrySlots(s: State, t: Thread, p': nat, k': nat)
    requires Inv(s) && t < |s.pcs| && s.pcs[t].ClearEntry?
    requires p' < |s.producers| && k' < |s.producers[p'].entries|
    ensures SlotOk(StepConsumer(s, t), p', k')
  {
    var pc := s.pcs[t];
    assert PcWf(s, pc) && SlotOk(s, p', k');
    PcMoved(s, t, GiveBack(pc.b, pc.p, pc.i, pc.j), p', k');
    SumAtLeast(s.pcs, t, Clearing(p', k'));
    SumNonNegative(s.pcs, Outstanding(p', k'));
  }

  lemma StepKeepsInv(s: State, a: Action)
    requires Inv(s) && Enabled(s, a)
    ensures Inv(Do(s, a))
  {
    match a
    case StartBlock(p) => StepStart(s, p);
    case ProducerStep(p, pick, alloc) =>
      if s.producers[p].pc.Have? {
        StepReset(s, p, pick, alloc);
      } else if s.producers[p].pc.Clean? {
        StepInsert(s, p, pick, alloc);
      } else if s.producers[p].pc.Drop? {
        StepDrop(s, p, pick, alloc);
      } else {
        StepPool(s, p, pick, alloc);
      }
    case Publish(p, count) => StepPublish(s, p, count);
    case RollBack(p) => StepRollBack(s, p);
    case Claim(t, p, count) => StepClaim(s, t, p, count);
    case ConsumerStep(t) =>
      if s.pcs[t].Lookup? {
        StepLookup(s, t);
      } else if s.pcs[t].Finish? {
        StepFinish(s, t);
      } else if s.pcs[t].ClearEntry? {
        StepClearEntry(s, t);
      } else {
        StepGiveBack(s, t);
      }
  }

  lemma StepStart(s: State, p: nat)
    requires Inv(s) && Enabled(s, StartBlock(p))
    ensures Inv(Do(s, StartBlock(p)))
  {
    var s' := Do(s, StartBlock(p));
    assert ProducerWf(s, s.producers[p]);
    forall t | 0 <= t < |s'.pcs| ensures PcWf(s', s'.pcs[t]) {
      assert PcWf(s, s.pcs[t]);
    }
    forall p' | 0 <= p' < |s'.producers| ensures ProducerWf(s', s'.producers[p']) {
      assert ProducerWf(s, s.producers[p']);
    }
    ProducerKeepsSlots(s, s', p);
    ProducerKeepsPlaces(s, s', p, s'.producers[p]);
  }

  // ----- whole runs

  ghost predicate IsStep(s: State, a: Action, s': State) {
    Wf(s) && Enabled(s, a) && s' == Do(s, a)
  }

  ghost predicate IsRun(ss: seq<State>, actions: seq<Action>) {
    && |ss| == |actions| + 1
    && Init(ss[0])
    && forall i {:trigger actions[i]} :: 0 <= i < |actions| ==> IsStep(ss[i], actions[i], ss[i + 1])
  }

  lemma {:induction false} RunKeepsInv(ss: seq<State>, actions: seq<Action>, i: nat)
    requires IsRun(ss, actions) && i < |ss|
    ensures Inv(ss[i])
  {
    if i == 0 {
      InitEstablishesInv(ss[0]);
    } else {
      RunKeepsInv(ss, actions, i - 1);
      assert IsStep(ss[i - 1], actions[i - 1], ss[i]);
      StepKeepsInv(ss[i - 1], actions[i - 1]);
    }
  }

  /** In every state of every run a block is in exactly one place: the unissued pool, the free list, the
      destroyed blocks, one slot or hand of one producer, or one consumer giving it back. */
  lemma EveryBlockInOnePlace(ss: seq<State>, actions: seq<Action>, i: nat, b: Block)
    requires IsRun(ss, actions) && i < |ss|
    ensures Places(ss[i], b) == One(b < |ss[i].counters|)
  {
    RunKeepsInv(ss, actions, i);
  }

  ghost predicate SlotEmptied(s: State, p: nat, k: nat) {
    p < |s.producers| && k < |s.producers[p].entries| && s.producers[p].entries[k] == Empty
  }

  lemma ConsumerLeavesEmptied(s: State, t: Thread, p: nat, k: nat)
    requires Wf(s) && t < |s.pcs| && !s.pcs[t].Idle? && SlotEmptied(s, p, k)
    ensures SlotEmptied(StepConsumer(s, t), p, k)
  {
  }

  /** A slot that was emptied is never filled again and never rolled back. */
  lemma EmptiedStaysEmptied(s: State, a: Action, p: nat, k: nat)
    requires Wf(s) && Enabled(s, a) && SlotEmptied(s, p, k)
    ensures SlotEmptied(Do(s, a), p, k)
  {
    if a.ConsumerStep? {
      ConsumerLeavesEmptied(s, a.t, p, k);
    } else {
      assert ProducerWf(s, s.producers[p]);
    }
  }

  lemma {:induction false} EmptiedForGood(ss: seq<State>, actions: seq<Action>, i: nat, j: nat, p: nat, k: nat)
    requires IsRun(ss, actions) && i <= j < |ss| && SlotEmptied(ss[i], p, k)
    ensures SlotEmptied(ss[j], p, k)
    decreases j - i
  {
    if i < j {
      RunKeepsInv(ss, actions, i);
      assert IsStep(ss[i], actions[i], ss[i + 1]);
      EmptiedStaysEmptied(ss[i], actions[i], p, k);
      EmptiedForGood(ss, actions, i + 1, j, p, k);
    }
  }

  /** Step `i` of the run takes the block of slot `k` of producer `p` out to give it back. */
  ghost predicate Empties(ss: seq<State>, actions: seq<Action>, i: nat, p: nat, k: nat)
    requires i < |actions| && i < |ss|
  {
    actions[i].ConsumerStep? && actions[i].t < |ss[i].pcs| &&
    ss[i].pcs[actions[i].t].ClearEntry? && ss[i].pcs[actions[i].t].p == p && ss[i].pcs[actions[i].t].k == k
  }

  /** In every run the block filling a slot is given back at most once. */
  lemma GivenBackAtMostOnce(ss: seq<State>, actions: seq<Action>, i: nat, j: nat, p: nat, k: nat)
    requires IsRun(ss, actions) && i < j < |actions|
    requires Empties(ss, actions, i, p, k)
    ensures !Empties(ss, actions, j, p, k)
  {
    RunKeepsInv(ss, actions, i);
    assert IsStep(ss[i], actions[i], ss[i + 1]);
    assert PcWf(ss[i], ss[i].pcs[actions[i].t]);
    EmptiedForGood(ss, actions, i + 1, j, p, k);
    RunKeepsInv(ss, actions, j);
    assert Wf(ss[j]);
  }

  // ----- where returned blocks go, and where new ones come from

  /** Initial blocks are never destroyed; allocated ones are either never destroyed or never reused. */
  ghost predicate Recycled(s: State) {
    && (forall b :: b in s.destroyed ==> s.poolSize <= b)
    && (s.recycle ==> s.destroyed == {})
    && (!s.recycle ==> forall b :: b in s.free ==> b < s.poolSize)
  }

  ghost predicate PastPool(s: State, p: nat) {
    p < |s.producers| && s.producers[p].pc.TryFreeList?
  }

  /** The initial pool comes first: with a producer past it, or a block allocated, all of it was handed out. */
  ghost predicate PoolFirst(s: State) {
    && (forall p {:trigger PastPool(s, p)} :: PastPool(s, p) ==> s.poolSize <= s.poolIndex)
    && (s.poolSize < |s.counters| ==> s.poolSize <= s.poolIndex)
  }

  lemma ProducerStepRecycles(s: State, p: nat, pick: Entry, alloc: bool)
    requires Wf(s) && Enabled(s, ProducerStep(p, pick, alloc)) && Recycled(s) && PoolFirst(s)
    ensures var s' := StepProducer(s, p, pick, alloc);
            Recycled(s') && PoolFirst(s') && s'.poolSize == s.poolSize && s'.recycle == s.recycle
  {
    var s' := StepProducer(s, p, pick, alloc);
    assert PastPool(s, p) <==> s.producers[p].pc.TryFreeList?;
    forall p' | PastPool(s', p') ensures s'.poolSize <= s'.poolIndex {
      assert p' != p ==> PastPool(s, p');
    }
  }

  lemma StepRecycles(s: State, a: Action)
    requires Wf(s) && Enabled(s, a) && Recycled(s) && PoolFirst(s)
    ensures var s' := Do(s, a);
            Recycled(s') && PoolFirst(s') && s'.poolSize == s.poolSize && s'.recycle == s.recycle
  {
    if a.ProducerStep? {
      ProducerStepRecycles(s, a.p, a.pick, a.alloc);
    } else {
      var s' := Do(s, a);
      forall p | PastPool(s', p) ensures s'.poolSize <= s'.poolIndex {
        assert PastPool(s, p);
      }
    }
  }

  /** In every run no initial block is destroyed. With RECYCLE_ALLOCATED_BLOCKS nothing is destroyed at
      all, and without it no allocated block gets to the free list. Nothing is allocated, and the free list is not
      even tried, before the whole initial pool was handed out. */
  lemma {:induction false} BlocksGoWhereTheyBelong(ss: seq<State>, actions: seq<Action>, i: nat)
    requires IsRun(ss, actions) && i < |ss|
    ensures Recycled(ss[i]) && PoolFirst(ss[i])
    ensures ss[i].poolSize == ss[0].poolSize && ss[i].recycle == ss[0].recycle
  {
    if i == 0 {
      assert forall p :: !PastPool(ss[0], p);
    } else {
      BlocksGoWhereTheyBelong(ss, actions, i - 1);
      assert IsStep(ss[i - 1], actions[i - 1], ss[i]);
      StepRecycles(ss[i - 1], actions[i - 1]);
    }
  }

  /** In every run a block that a consumer gives back gets to the free list if it is an initial one or
      recycling is on, and is destroyed otherwise; in either case it was in neither place before. */
  lemma GiveBackPlace(ss: seq<State>, actions: seq<Action>, i: nat, t: Thread)
    requires IsRun(ss, actions) && i < |actions| && actions[i] == ConsumerStep(t)
    requires t < |ss[i].pcs| && ss[i].pcs[t].GiveBack?
    ensures var b := ss[i].pcs[t].b;
            && b !in ss[i].free && b !in ss[i].destroyed
            && (b in ss[i + 1].free <==> ss[0].recycle || b < ss[0].poolSize)
            && (b in ss[i + 1].destroyed <==> !ss[0].recycle && ss[0].poolSize <= b)
  {
    RunKeepsInv(ss, actions, i);
    CarriedIsNowhereElse(ss[i], t);
    assert IsStep(ss[i], actions[i], ss[i + 1]);
    BlocksGoWhereTheyBelong(ss, actions, i);
  }

  /** An undisturbed requisition takes the next initial block, else one from the free list, else a new one if
      it may allocate, and otherwise comes back without. */
  lemma UndisturbedRequisition(s: State, p: nat, pick: Entry, alloc: bool)
    requires Wf(s) && Enabled(s, StartBlock(p)) && (pick.Holds? <==> s.free != {})
    requires pick.Holds? ==> pick.block in s.free
    ensures var s1 := Do(s, StartBlock(p));
            Wf(s1) && Enabled(s1, ProducerStep(p, pick, alloc)) &&
            var s2 := Do(s1, ProducerStep(p, pick, alloc));
            Wf(s2) && Enabled(s2, ProducerStep(p, pick, alloc)) &&
            var s3 := Do(s2, ProducerStep(p, pick, alloc));
            var q := s.producers[p];
            if s.poolIndex < s.poolSize then
              s3 == SetProducer(s.(poolIndex := s.poolIndex + 1), p, q.(pc := Have(s.poolIndex)))
            else if s.free != {} then
              s3 == SetProducer(s.(free := s.free - {pick.block}), p, q.(pc := Have(pick.block)))
            else if alloc then
              s3 == SetProducer(s.(counters := s.counters + [0]), p, q.(pc := Have(|s.counters|)))
            else s3 == s
  {
    var s1 := Do(s, StartBlock(p));
    StartKeepsWf(s, s1, p, PoolLoad);
    var s2 := Do(s1, ProducerStep(p, pick, alloc));
    StartKeepsWf(s1, s2, p, s2.producers[p].pc);
    var s3 := Do(s2, ProducerStep(p, pick, alloc));
    assert s3.producers == s.producers[p := s3.producers[p]];
  }

  lemma StartKeepsWf(s: State, s': State, p: nat, pc: ProducerPc)
    requires Wf(s) && p < |s.producers| && s' == SetProducer(s, p, s.producers[p].(pc := pc))
    requires pc.PoolLoad? || pc.PoolAdd? || pc.TryFreeList?
    ensures Wf(s')
  {
    assert ProducerWf(s, s.producers[p]);
    forall t | 0 <= t < |s'.pcs| ensures PcWf(s', s'.pcs[t]) {
      assert PcWf(s, s.pcs[t]);
    }
    forall p' | 0 <= p' < |s'.producers| ensures ProducerWf(s', s'.producers[p']) {
      assert ProducerWf(s, s.producers[p']);
    }
  }

  // ----- the whole life of a block

  /** A consumer that counts elements counts all that it claimed in the block. */
  ghost predicate CountsWholeBlocks(s: State) {
    forall t {:trigger s.pcs[t]} :: 0 <= t < |s.pcs| && s.pcs[t].Finish? ==>
      s.pcs[t].e == Min(s.pcs[t].j, BLOCK_SIZE * (s.pcs[t].i / BLOCK_SIZE + 1))
  }

  lemma StepCountsWhole(s: State, a: Action)
    requires Wf(s) && Enabled(s, a) && CountsWholeBlocks(s)
    ensures CountsWholeBlocks(Do(s, a))
  {
    if a.ConsumerStep? {
      assert PcWf(s, s.pcs[a.t]);
    }
  }

  /** In every run a consumer updates the counter of a block once for each claim: with all the elements of the block
      that the claim has. */
  lemma {:induction false} OneUpdatePerBlock(ss: seq<State>, actions: seq<Action>, i: nat)
    requires IsRun(ss, actions) && i < |ss|
    ensures CountsWholeBlocks(ss[i])
  {
    if i > 0 {
      OneUpdatePerBlock(ss, actions, i - 1);
      assert IsStep(ss[i - 1], actions[i - 1], ss[i]);
      StepCountsWhole(ss[i - 1], actions[i - 1]);
    }
  }

  /** The state after an enabled action. */
  lemma Next(s: State, a: Action) returns (s': State)
    requires Inv(s) && Enabled(s, a)
    ensures Inv(s') && s' == Do(s, a)
  {
    s' := Do(s, a);
    StepKeepsInv(s, a);
  }

  lemma FillsBlock(s: State, p: nat, b: Block) returns (s': State)
    requires Inv(s) && p < |s.producers| && s.producers[p].pc == Clean(b)
    requires s.producers[p].head == s.producers[p].tail == BLOCK_SIZE * |s.producers[p].entries|
    ensures var q := s.producers[p];
            Inv(s') && b < |s.counters| && s.counters[b] == 0
            && s' == SetProducer(s, p, Producer(q.tail + BLOCK_SIZE, q.head, q.entries + [Holds(b)], Ready))
  {
    assert ProducerWf(s, s.producers[p]);
    var s1 := Next(s, ProducerStep(p, Entry.Empty, false));
    s' := Next(s1, Publish(p, BLOCK_SIZE));
    assert s'.producers == s.producers[p := s'.producers[p]];
  }

  lemma DrainsBlock(s: State, p: nat, k: nat, b: Block, t: Thread) returns (s': State)
    requires Inv(s) && p < |s.producers| && t < |s.pcs| && s.pcs[t].Idle? && SlotHolds(s, p, k, b)
    requires s.producers[p].head == BLOCK_SIZE * k && s.producers[p].tail == BLOCK_SIZE * (k + 1)
    requires b < |s.counters| && s.counters[b] == 0
    ensures var q := s.producers[p];
            && Inv(s') && s'.pcs == s.pcs && s'.counters == s.counters[b := BLOCK_SIZE]
            && s'.producers == s.producers[p := q.(head := q.tail, entries := q.entries[k := Entry.Empty])]
            && s'.free == Return(s, b).free && s'.destroyed == Return(s, b).destroyed
  {
    var q := s.producers[p];
    var s1 := Next(s, Claim(t, p, BLOCK_SIZE));
    assert s1.pcs[t] == Lookup(p, BLOCK_SIZE * k, BLOCK_SIZE * (k + 1)) && s1.producers[p].entries[k] == Holds(b);
    var s2 := Next(s1, ConsumerStep(t));
    assert s2.pcs[t] == Finish(p, BLOCK_SIZE * k, BLOCK_SIZE * (k + 1), BLOCK_SIZE * (k + 1), b);
    var s3 := Next(s2, ConsumerStep(t));
    assert s3.pcs[t] == ClearEntry(p, k, b, BLOCK_SIZE * (k + 1), BLOCK_SIZE * (k + 1));
    var s4 := Next(s3, ConsumerStep(t));
    s' := Next(s4, ConsumerStep(t));
    assert s'.pcs == s.pcs;
    assert s'.producers == s.producers[p := q.(head := q.tail, entries := q.entries[k := Entry.Empty])];
  }

  /** An empty producer that puts a block in its index, fills it, and a consumer that takes everything out: the slot is
      empty then, and the block is where returned blocks belong. */
  lemma UndisturbedBlock(s: State, p: nat, b: Block, t: Thread) returns (s': State)
    requires Inv(s) && p < |s.producers| && s.producers[p].pc == Clean(b) && t < |s.pcs| && s.pcs[t].Idle?
    requires s.producers[p].head == s.producers[p].tail == BLOCK_SIZE * |s.producers[p].entries|
    ensures Inv(s') && s'.pcs == s.pcs && b < |s.counters| && s'.counters == s.counters[b := BLOCK_SIZE]
    ensures var q := s.producers[p];
            var after := Producer(q.tail + BLOCK_SIZE, q.head + BLOCK_SIZE, q.entries + [Entry.Empty], Ready);
            s'.producers == s.producers[p := after]
    ensures s'.free == Return(s, b).free && s'.destroyed == Return(s, b).destroyed
  {
    var q := s.producers[p];
    var s1 := FillsBlock(s, p, b);
    s' := DrainsBlock(s1, p, |q.entries|, b, t);
    assert (q.entries + [Holds(b)])[|q.entries| := Entry.Empty] == q.entries + [Entry.Empty];
    assert s1.producers[p := s'.producers[p]] == s.producers[p := s'.producers[p]];
  }
}
