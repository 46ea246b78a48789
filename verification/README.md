# Verification of the multi-camera pipeline

A Dafny project that models the parts of the pipeline whose correctness is hard to see from the code, and proves
properties of the models. `dafny verify dfyconfig.toml` checks everything.

## What is modelled

Concurrent code is modelled as a step machine: a state, an action for each atomic access (or critical section), the
function `Do` that says what each action does, and theorems over every run, for any number of threads and any
interleaving. Atomics are sequentially consistent steps. `RunKeepsInv` of each module carries the invariant from
which the other theorems follow. Lemmas over a call from its start to its return say what it may answer in any run;
those named `Undisturbed...` say what it does while the other threads stand still.
Code that one thread runs at a time is modelled as classes and methods with the loops of the original, proved
against specification functions.

- The lock-free queue stack: `FreeList` (reference-counted list of blocks), `OptimisticDequeue` (the counters shared
  by both kinds of producer), `ExplicitProducer` (block circle and block index as a FIFO queue), `ImplicitIndex`
  (the other block index, with growth and roll-back) and `IndexLookup` (lookups in it that race with the producer),
  `BlockRecycling` (who owns a block), `ProducerHash` (threads to producers), `Semaphore`, and on top `Aggregator`.
  `CircularIndex` justifies the unbounded indices used throughout.
- The frame slots shared by three processes: `SlotPool` (the states), `SlotProtocol` (release tokens in relay mode),
  `DirectMode` (submitters that send and poll themselves), `RuleProcess` (the relay decision for one scene),
  `SlotGeometry` (buffer layout and handshake), `RelayFraming` (the byte stream to the consumer).
- The vision preprocessor: `PatchLayout` (the patch transposition), `FusedPatches` (the fused kernel against the
  simple pipeline, over exact reals), `RotaryOrder` (the position rows).
- Timing and filtering: `TimingRuntime` (worker, flush and unregister), `LatencyRecorder`, `Deduper`.
- `Counting`, `Arithmetic` and `Wrappers` hold shared lemmas and types.

Assumptions: array indices of the preprocessor are unbounded in the models (`PatchLayout.IndicesFit` says when none
wraps in 32 bits); fewer than 2^30 threads use a free list at once; allocation succeeds unless a parameter says otherwise;
element constructors do not throw; thread-local cleanup of the producer hash is off, as on the aarch64 target; a
delivered message is handled at most once, and scene entries name only submitted slots; a peek on the relay socket
sees four bytes whenever four are still to come. The rule engine appears as an arbitrary choice of alerts. The answers
of the allocator, the block pool and the sockets are parameters.

## Where a promise needs a condition

Some expected properties fail on inputs the code accepts. Each failure is a lemma with a concrete input or run, next to
the exact condition under which the property holds.

- `SlotProtocol.SharedSourceLeaks`: `vqaSources` is keyed by source. A scene with two entries of one source and an
  alert for the first only leaks the second slot. For one scene the condition is `RuleProcess.AlwaysWayBackIff`; for
  whole runs, `SlotProtocol.IntactIff` says which steps lose a slot and `SlotProtocol.NeverStuckIff` which scenes can.
- `DirectMode.RaceLosesSlot`: with two submitters a fast release can be refused, and the slot is lost.
  `DirectMode.RefusedIff` says when, `DirectMode.DoomedIffWasted` that nothing else but a lost message loses a slot,
  and `DirectMode.OneSubmitterLosesNothing` that one submitter is safe.
- `SlotGeometry.TruncatedStrideIsAccepted`: strides of 2^32 and more pass the handshake with a wrong geometry;
  `SlotGeometry.HandshakeAgreesIffStrideFits` is the condition.
- `RelayFraming.RoundTripIff`: metadata of 65536 bytes and more blocks the receiver, which keeps peeking at the same
  word; at one length it is misread (`RelayFraming.DecodeBadMessage`).
- `TimingRuntime.QueuedEventIsDropped` and `TimingRuntime.HeldEventIsDropped`: an event accepted while its channel is
  being unregistered is dropped, from the queue or from the worker's hands. `TimingRuntime.RecordedIff` is the
  condition for an event, `TimingRuntime.IdleErasesRecordAll` what a caller can see to.
- `TimingRuntime.ErasedWhileInUse`: a user that registers while another one's UnregisterChannel waits loses the channel;
  `TimingRuntime.ErasesLastUserIff`.
- `OptimisticDequeue.MissesElement`: an empty answer does not mean that the queue was empty, as the header says itself;
  `OptimisticDequeue.DequeueTakesItsShare` bounds what a call can miss by what others reserved meanwhile.
- `Aggregator.ZeroBatchSizeBreaks`: with batch size 0 a batch of one is published; `Aggregator.FullBatchesIff`.
- `Aggregator.LateItemsStayQueued`: an enqueue that overlaps the stop request can strand its item;
  `Aggregator.PublishedIff`.
- `PatchLayout.LastValueLost`: sizes that the merged patches do not divide lose pixels; `PatchLayout.TransposeSurjective`
  is the other half.
- `Deduper.RepeatedKeyPassesAgain`: a track key that occurs twice in a frame can make an unchanged frame pass for ever;
  `Deduper.UnchangedFrameDroppedIff`.

## Model

| member | source | states |
|---|---|---|
| FreeList.RunKeepsInv | multi_cam_app/aggregator/concurrentqueue/concurrentqueue.h:1481-1560 | for any number of threads and any interleaving: the chain from the head is finite and repeats no node; each word is the count of its holders plus the list's reference, with the bit set exactly while somebody must still add the node |
| FreeList.NoDoubleHandOut | multi_cam_app/aggregator/concurrentqueue/concurrentqueue.h:1481-1532 | between two `try_get` calls that return the same node somebody called `add` for it |
| FreeList.HandOutIsExclusive | multi_cam_app/aggregator/concurrentqueue/concurrentqueue.h:1495-1532 | a node about to be returned is with no other client and in no other thread's care, and its bit is clear (the code's assertion) |
| FreeList.NoAba | multi_cam_app/aggregator/concurrentqueue/concurrentqueue.h:1495-1532 | a successful head CAS always installs the current successor of the node it takes, although both were read earlier |
| FreeList.SwingHeadPops | multi_cam_app/aggregator/concurrentqueue/concurrentqueue.h:1495-1532 | the successful head CAS removes exactly the first node of the list |
| FreeList.CountIsHoldersPlusListRef | multi_cam_app/aggregator/concurrentqueue/concurrentqueue.h:1495-1560 | the low 31 bits are the threads that hold a reference plus one for the list; no addition wraps |
| FreeList.NothingLostAtQuiescence | multi_cam_app/aggregator/concurrentqueue/concurrentqueue.h:1481-1560 | with no call in progress every node is with a client (word zero) or on the list exactly once (word one) |
| FreeList.HeldUntilAdded | multi_cam_app/aggregator/concurrentqueue/concurrentqueue.h:1481-1493 | a node stays with its client until an `add` for it starts |
| FreeList.TryGetAnswers | multi_cam_app/aggregator/concurrentqueue/concurrentqueue.h:1500-1532 | in every run a `try_get` that returns hands out a node that nobody had, or had a null head at some state between its call and its return |
| FreeList.UndisturbedTryGet | multi_cam_app/aggregator/concurrentqueue/concurrentqueue.h:1500-1532 | run alone, `try_get` on a list [n] + rest ends with n in the client's hands and the list rest, and on the empty list changes nothing |
| FreeList.UndisturbedAdd | multi_cam_app/aggregator/concurrentqueue/concurrentqueue.h:1481-1493 | run alone, `add` puts a node without references in front of the list, and otherwise sets the bit and leaves the push to the last holder |
| FreeList.SoloFinishes | multi_cam_app/aggregator/concurrentqueue/concurrentqueue.h:1481-1560 | from every reachable state, with the other threads stopped anywhere, a call returns after at most 18 accesses of its own: it never waits for another thread |
| OptimisticDequeue.RunKeepsInv | multi_cam_app/aggregator/concurrentqueue/concurrentqueue.h:2269-2360 | every ticket drawn from the optimistic count is open, won, spent or lost, and a winning ticket has at most tail winners up to itself |
| OptimisticDequeue.WinnersBounded | multi_cam_app/aggregator/concurrentqueue/concurrentqueue.h:2269-2360 | the rank bound gives: at most tail tickets ever win |
| OptimisticDequeue.HeadNeverPassesTail | multi_cam_app/aggregator/concurrentqueue/concurrentqueue.h:1977-2074 | headIndex never exceeds tailIndex |
| OptimisticDequeue.ClaimsArePublished | multi_cam_app/aggregator/concurrentqueue/concurrentqueue.h:2801-2901 | when a consumer advances headIndex, every index it gets is below the tail at that moment |
| OptimisticDequeue.ClaimsAreDisjointAndPublished | multi_cam_app/aggregator/concurrentqueue/concurrentqueue.h:2572-2641 | no index is claimed by two steps of a run, and each lies below the tail when claimed |
| OptimisticDequeue.ClaimsAreDense | multi_cam_app/aggregator/concurrentqueue/concurrentqueue.h:2572-2641 | every index below headIndex was claimed by some step: nothing is skipped |
| OptimisticDequeue.TailCountsPublished | multi_cam_app/aggregator/concurrentqueue/concurrentqueue.h:2510-2562 | in every run the tail is the number of elements published |
| OptimisticDequeue.CountersSettle | multi_cam_app/aggregator/concurrentqueue/concurrentqueue.h:1977-2074 | between calls the optimistic count minus the overcommit is exactly headIndex |
| OptimisticDequeue.UndisturbedDequeueTakesAll | multi_cam_app/aggregator/concurrentqueue/concurrentqueue.h:2269-2360 | a bulk dequeue that nobody disturbs takes min(max, size) elements and gives nothing back |
| OptimisticDequeue.DequeueTakesItsShare | multi_cam_app/aggregator/concurrentqueue/concurrentqueue.h:2269-2360 | in every run a dequeue takes all it asked for, or at least what was available at its call less what others reserved during it |
| OptimisticDequeue.MissesElement | multi_cam_app/aggregator/concurrentqueue/concurrentqueue.h:2572-2641 | a run in which a dequeue comes back empty-handed although the queue was never empty during the call, as the documentation of try_dequeue allows |
| CircularIndex.LessMeansAheadByLessThanHalf | multi_cam_app/aggregator/concurrentqueue/concurrentqueue.h:489-496 | circular_less_than holds exactly when the second index is ahead by more than 0 and less than half the range |
| CircularIndex.CircularLessIsLess | multi_cam_app/aggregator/concurrentqueue/concurrentqueue.h:489-496 | while two indices are less than 2^(N-1) apart the comparison is `<` on unbounded indices |
| CircularIndex.CircularLessFailsFarAway | multi_cam_app/aggregator/concurrentqueue/concurrentqueue.h:489-496 | from 2^(N-1) on, below 2^N, it says false for a smaller first index |
| CircularIndex.SignedDifferenceIsDifference | multi_cam_app/aggregator/concurrentqueue/concurrentqueue.h:2033-2038 | the signed block offset of the lookups is the true difference across wrap-around |
| CircularIndex.SlotSurvivesWrapAround | multi_cam_app/aggregator/concurrentqueue/concurrentqueue.h:2036-2039 | masking with a size that divides the range gives the slot of the unbounded index |
| CircularIndex.WrapIsRemainder | multi_cam_app/aggregator/concurrentqueue/concurrentqueue.h:2036-2039 | the masked index used by the block-index modules is the remainder by the size |
| ExplicitProducer.Producer.Enqueue | multi_cam_app/aggregator/concurrentqueue/concurrentqueue.h:1871-1974 | true: contents gain the item at the end; false: contents unchanged; true exactly if the block has room, or the block ahead is drained, or limit, index and allocation allow one more block |
| ExplicitProducer.Producer.Dequeue | multi_cam_app/aggregator/concurrentqueue/concurrentqueue.h:1977-2074 | false exactly on the empty queue; otherwise the oldest element, which is removed |
| ExplicitProducer.Producer.StartBlock | multi_cam_app/aggregator/concurrentqueue/concurrentqueue.h:1875-1962 | a block boundary: reuse of the drained block ahead, or a new block in the circle, with the ring of blocks and the index consistent afterwards; on failure both are as before |
| ExplicitProducer.Producer.NewBlockIndex | multi_cam_app/aggregator/concurrentqueue/concurrentqueue.h:2378-2415 | doubling the index keeps every block reachable at its base |
| ExplicitProducer.Producer.CopyEntries | multi_cam_app/aggregator/concurrentqueue/concurrentqueue.h:2392-2400 | the copy loop puts the used entries, oldest first, at the front of the larger index |
| ExplicitProducer.Producer.BlockOf | multi_cam_app/aggregator/concurrentqueue/concurrentqueue.h:2028-2039 | the lookup of a live index returns the block of the circle that holds it |
| ExplicitProducer.Producer.TakeHead | multi_cam_app/aggregator/concurrentqueue/concurrentqueue.h:2025-2065 | the claimed element is the oldest one, and its block is marked |
| ExplicitProducer.Producer.IsEmpty | multi_cam_app/aggregator/concurrentqueue/concurrentqueue.h:1592-1615 | true exactly if every flag of the block is set |
| ExplicitProducer.Producer.ResetEmpty | multi_cam_app/aggregator/concurrentqueue/concurrentqueue.h:1674-1686 | all flags cleared, nothing else changed |
| ExplicitProducer.TakeKeepsLinked | multi_cam_app/aggregator/concurrentqueue/concurrentqueue.h:2041-2065 | taking the oldest element: its block holds it in its place, and all blocks then represent the remaining contents |
| ExplicitProducer.RotateKeepsLinked | multi_cam_app/aggregator/concurrentqueue/concurrentqueue.h:1879-1889 | reusing the drained block ahead turns the circle by one and keeps it a circle of blocks for the same contents |
| ExplicitProducer.InsertKeepsLinked | multi_cam_app/aggregator/concurrentqueue/concurrentqueue.h:1917-1935 | inserting a block behind the tail keeps the circle and the contents |
| ExplicitProducer.IndexedAfterReuse | multi_cam_app/aggregator/concurrentqueue/concurrentqueue.h:1956-1961 | overwriting the oldest entry indexes the turned circle with consecutive bases |
| ExplicitProducer.IndexedAfterInsert | multi_cam_app/aggregator/concurrentqueue/concurrentqueue.h:1956-1961 | adding an entry indexes the circle with the new block |
| ExplicitProducer.Producer.SizeIsLimited | multi_cam_app/aggregator/concurrentqueue/concurrentqueue.h:1894-1902 | the queue never exceeds MAX_SUBQUEUE_SIZE, nor 32 elements for each block |
| ExplicitProducer.ReplayIsFifo | multi_cam_app/aggregator/concurrentqueue/concurrentqueue.h:1871-2074 | if the answers are those of an ideal queue, the accepted items are the taken items followed by the contents |
| ExplicitProducer.Run | multi_cam_app/aggregator/concurrentqueue/concurrentqueue.h:1871-2074 | for every sequence of operations, every pattern of allocation failures and every stale content of recycled blocks, the answers are those of a FIFO queue |
| ImplicitIndex.BlockIndex.Lookup | multi_cam_app/aggregator/concurrentqueue/concurrentqueue.h:2970-2986 | for every base with a live block the lookup finds the entry with that key and that block; the tail key is valid (neither assertion fires), also while an insertion is pending |
| IndexLookup.LookupFindsBlock | multi_cam_app/aggregator/concurrentqueue/concurrentqueue.h:2970-2986 | with any number of consumers, and the producer inserting, rewinding, rolling back and growing between their loads: a consumer finds the entry with the key and the block it looks for, in the newest or in a superseded index, and so for each further block of a bulk call |
| IndexLookup.LookupNeverStalls | multi_cam_app/aggregator/concurrentqueue/concurrentqueue.h:2977-2979 | the key that it loads at the tail is never the invalid one |
| IndexLookup.UndisturbedInsert | multi_cam_app/aggregator/concurrentqueue/concurrentqueue.h:2510-2560 | with a free next entry the producer's four stores put a block into the index and make its elements visible |
| IndexLookup.UndisturbedLookup | multi_cam_app/aggregator/concurrentqueue/concurrentqueue.h:2970-2986 | a consumer's five accesses end at the entry of its block |
| IndexLookup.UndisturbedBulk | multi_cam_app/aggregator/concurrentqueue/concurrentqueue.h:2801-2901 | a bulk consumer goes on to the next block without another lookup and finds it |
| IndexLookup.UndisturbedRollBack | multi_cam_app/aggregator/concurrentqueue/concurrentqueue.h:2684-2700 | a roll-back after an insertion restores newest block and live blocks |
| IndexLookup.RollBackFindsBlock | multi_cam_app/aggregator/concurrentqueue/concurrentqueue.h:2690-2696 | the producer's own lookups of a roll-back, with the tail rewound in part, find the entries of the blocks given up |
| IndexLookup.GrowthMakesRoom | multi_cam_app/aggregator/concurrentqueue/concurrentqueue.h:2943-2951 | after a growth the next entry has no key, as the code asserts |
| IndexLookup.RunKeepsInv | multi_cam_app/aggregator/concurrentqueue/concurrentqueue.h:2922-3030 | used entries sit in the slots of their keys in every header, the newest header has the whole window, and each live block is where every header since its insertion has it |
| ImplicitIndex.BlockIndex.InsertEntry | multi_cam_app/aggregator/concurrentqueue/concurrentqueue.h:2922-2955 | an entry for the next base is claimed without touching a live block; it fails exactly if the next slot is live and no larger index can be had |
| ImplicitIndex.BlockIndex.Grow | multi_cam_app/aggregator/concurrentqueue/concurrentqueue.h:2988-3030 | doubling keeps every live block and leaves the next slot free |
| ImplicitIndex.BlockIndex.CopyRing | multi_cam_app/aggregator/concurrentqueue/concurrentqueue.h:3004-3013 | the old entries in ring order, oldest first |
| ImplicitIndex.BlockIndex.Publish | multi_cam_app/aggregator/concurrentqueue/concurrentqueue.h:2554-2555 | the block of the newest base becomes live, nothing else changes |
| ImplicitIndex.BlockIndex.Abandon | multi_cam_app/aggregator/concurrentqueue/concurrentqueue.h:2529-2535 | without a block the insertion is undone: live blocks and newest base as before |
| ImplicitIndex.BlockIndex.Release | multi_cam_app/aggregator/concurrentqueue/concurrentqueue.h:2617-2631 | a drained block leaves the index, the others stay reachable |
| ImplicitIndex.BlockIndex.RollBack | multi_cam_app/aggregator/concurrentqueue/concurrentqueue.h:2684-2700 | the undo loop, whose lookups run while the tail is being rewound, removes exactly the blocks of the failed call |
| ImplicitIndex.BlockIndex.PreAllocate | multi_cam_app/aggregator/concurrentqueue/concurrentqueue.h:2664-2722 | all rounds of a bulk allocation succeed, or the index holds exactly the blocks it held before |
| ImplicitIndex.BlockIndex.AllocateOne | multi_cam_app/aggregator/concurrentqueue/concurrentqueue.h:2671-2710 | one round: exact condition for success, and the one block added |
| ImplicitIndex.ClaimHolds | multi_cam_app/aggregator/concurrentqueue/concurrentqueue.h:2929-2937 | taking the next slot, also when it is the oldest entry of a full ring, keeps every live block |
| ImplicitIndex.RolledBackHolds | multi_cam_app/aggregator/concurrentqueue/concurrentqueue.h:2690-2696 | after the rewind the remaining entries hold exactly the blocks up to the base before the call |
| BlockRecycling.RunKeepsInv | multi_cam_app/aggregator/concurrentqueue/concurrentqueue.h:3078-3136 | every block in one place, every slot's counter accounts for claimed, outstanding and unclaimed indices |
| BlockRecycling.EveryBlockInOnePlace | multi_cam_app/aggregator/concurrentqueue/concurrentqueue.h:3078-3136 | in every state of every run a block is in exactly one of: unissued pool, free list, destroyed, one slot or hand of one producer, one consumer giving it back |
| BlockRecycling.BlocksGoWhereTheyBelong | multi_cam_app/aggregator/concurrentqueue/concurrentqueue.h:3060-3136 | in every run no initial block is destroyed; with RECYCLE_ALLOCATED_BLOCKS nothing is, and without it no allocated block is ever on the free list; the initial pool is used up before the free list is tried or a block allocated |
| BlockRecycling.GiveBackPlace | multi_cam_app/aggregator/concurrentqueue/concurrentqueue.h:3089-3100 | a block given back was in neither place, and then is on the free list if it is initial or recycling is on, else destroyed |
| BlockRecycling.UndisturbedRequisition | multi_cam_app/aggregator/concurrentqueue/concurrentqueue.h:3078-3136 | run alone, a requisition takes the next initial block, else one from the free list, else a new one if it may allocate, else nothing |
| BlockRecycling.OneUpdatePerBlock | multi_cam_app/aggregator/concurrentqueue/concurrentqueue.h:2801-2901 | in every run a consumer updates the counter of a block once for each claim, with all elements that the claim has in the block |
| BlockRecycling.UndisturbedBlock | multi_cam_app/aggregator/concurrentqueue/concurrentqueue.h:2510-2641 | a block put into the index, filled, and emptied by one consumer leaves its slot empty and is where returned blocks belong |
| BlockRecycling.LookupFindsBlock | multi_cam_app/aggregator/concurrentqueue/concurrentqueue.h:2572-2641 | a consumer finds the block of every index it claimed |
| BlockRecycling.ReturnedOnlyWhenFinished | multi_cam_app/aggregator/concurrentqueue/concurrentqueue.h:2617-2631 | a block is given back only after all 32 elements were claimed and finished, by exactly one consumer |
| BlockRecycling.DrainedBlocksAreBack | multi_cam_app/aggregator/concurrentqueue/concurrentqueue.h:2879-2889 | when no consumer is active every fully claimed block has gone back |
| BlockRecycling.GivenBackAtMostOnce | multi_cam_app/aggregator/concurrentqueue/concurrentqueue.h:1619-1656 | the block of one fill is given back at most once in a run, whatever the order in which elements are finished |
| BlockRecycling.EmptiedStaysEmptied | multi_cam_app/aggregator/concurrentqueue/concurrentqueue.h:2648-2701 | an emptied slot is neither filled again nor rolled back |
| ProducerHash.RunKeepsInv | multi_cam_app/aggregator/concurrentqueue/concurrentqueue.h:3410-3555 | keys draw distinct counts below three quarters of their table's capacity, stay reachable by probing, and carry their thread's producer |
| ProducerHash.EveryTableHasFreeSlot | multi_cam_app/aggregator/concurrentqueue/concurrentqueue.h:3431-3552 | every table of the chain has a free slot in every reachable state, lazily copied keys included |
| ProducerHash.CapacitiesArePowersOfTwo | multi_cam_app/aggregator/concurrentqueue/concurrentqueue.h:3475-3520 | every table has a power of two of slots, however it has grown, so that masking takes the remainder |
| ProducerHash.ProbeLoopsTerminate | multi_cam_app/aggregator/concurrentqueue/concurrentqueue.h:3431-3545 | each probe loop ends within one pass over its table |
| ProducerHash.ProbesEnd | multi_cam_app/aggregator/concurrentqueue/concurrentqueue.h:3431-3470 | a probing thread never has as many slots behind it as the table has |
| ProducerHash.FreeSlotMeansAbsent | multi_cam_app/aggregator/concurrentqueue/concurrentqueue.h:3431-3470 | a free slot on the probe path shows that the thread is not in the table |
| ProducerHash.SameThreadSameProducer | multi_cam_app/aggregator/concurrentqueue/concurrentqueue.h:3410-3555 | all calls of a thread return one producer |
| ProducerHash.DifferentThreadsDifferentProducers | multi_cam_app/aggregator/concurrentqueue/concurrentqueue.h:3410-3555 | calls of different threads return different producers |
| ProducerHash.CallReturns | multi_cam_app/aggregator/concurrentqueue/concurrentqueue.h:3410-3555 | from every reachable state a call returns a producer if its thread runs on alone, unless another thread holds the resize flag and the main table has no room |
| ProducerHash.CallLeavesEntryInMain | multi_cam_app/aggregator/concurrentqueue/concurrentqueue.h:3431-3472 | lazy copying: when a call returns, the thread is in the table that was the main one at its start, or in a newer one |
| Semaphore.RunKeepsInv | multi_cam_app/aggregator/concurrentqueue/lightweightsemaphore.h:290-430 | count = initial + signalled - acquired - waiting, and kernel permits + posts in progress = waiting - max(0, -count) |
| Semaphore.NeverOverAcquired | multi_cam_app/aggregator/concurrentqueue/lightweightsemaphore.h:290-430 | permits taken never exceed the initial ones plus those signalled |
| Semaphore.EveryWaiterHasItsPermit | multi_cam_app/aggregator/concurrentqueue/lightweightsemaphore.h:421-430 | with no post in progress, every waiter beyond the deficit of the count has a kernel permit ready |
| Semaphore.CountExactAtRest | multi_cam_app/aggregator/concurrentqueue/lightweightsemaphore.h:290-430 | between calls the kernel semaphore is empty and the count is exact, whatever timed out |
| Semaphore.CancelTakesNothing | multi_cam_app/aggregator/concurrentqueue/lightweightsemaphore.h:310-323 | a timed-out waiter either leaves with a permit or restores exactly its unit |
| Semaphore.PollSeesEveryPermit | multi_cam_app/aggregator/concurrentqueue/lightweightsemaphore.h:369-403 | polling while nobody waits fails only if there is no permit |
| Semaphore.PollTakesWhatIsThere | multi_cam_app/aggregator/concurrentqueue/lightweightsemaphore.h:369-403 | in every run tryWait and tryWaitMany take min(max, count) at their last access, and nothing only if count <= 0 at that moment |
| Semaphore.SinglePollerGetsPermit | multi_cam_app/aggregator/concurrentqueue/lightweightsemaphore.h:369-403 | if nobody else takes permits and there is one at the call, the poll gets at least one, whatever signals and spurious CAS failures come between |
| Semaphore.WaitTakesUpToMax | multi_cam_app/aggregator/concurrentqueue/lightweightsemaphore.h:326-412 | in every run waitMany takes at most max permits, fewer only if the count is then not positive, and none only by cancelling while a waiter is short of a permit |
| Semaphore.WaitWithoutTimeoutGetsPermit | multi_cam_app/aggregator/concurrentqueue/lightweightsemaphore.h:405-419 | without a timeout it takes at least one, as the code asserts |
| Semaphore.BlocksOnce | multi_cam_app/aggregator/concurrentqueue/lightweightsemaphore.h:326-362 | once the kernel wait has timed out, a call never blocks in the kernel again |
| Semaphore.SpinsAllRounds | multi_cam_app/aggregator/concurrentqueue/lightweightsemaphore.h:326-343 | a call subtracts its unit, to wait in the kernel, only after all its rounds of spinning |
| Semaphore.UndisturbedPoll | multi_cam_app/aggregator/concurrentqueue/lightweightsemaphore.h:369-403 | run alone, a poll takes min(max, count) |
| Semaphore.UndisturbedWait | multi_cam_app/aggregator/concurrentqueue/lightweightsemaphore.h:326-412 | run alone, a wait takes min(max, count), else a kernel permit if there is one, else times out and leaves the semaphore as it was |
| Semaphore.UndisturbedSignal | multi_cam_app/aggregator/concurrentqueue/lightweightsemaphore.h:421-430 | run alone, a signal raises the count by n and posts for the waiters short of a permit, at most n |
| Aggregator.RunKeepsInv | multi_cam_app/aggregator/Aggregator.cpp:64-147 | capacity, permits and items balance in every reachable state |
| Aggregator.CapacityRespected | multi_cam_app/aggregator/Aggregator.cpp:64-79 | current_size_ never exceeds queue_capacity, and queued elements never exceed current_size_ |
| Aggregator.TryEnqueueAnswers | multi_cam_app/aggregator/Aggregator.cpp:64-79 | in every run a TryEnqueue that returns has accepted and counted exactly its item, or dropped and counted it, and then size == capacity held at some state of the call |
| Aggregator.EveryCallIsCounted | multi_cam_app/aggregator/Aggregator.cpp:64-79 | in every run calls made = enqueued + dropped + calls in progress, so finished calls are exactly enqueued + dropped |
| Aggregator.UndisturbedTryEnqueue | multi_cam_app/aggregator/Aggregator.cpp:64-79 | run alone, an item is accepted if and only if size < capacity |
| Aggregator.UndisturbedRound | multi_cam_app/aggregator/Aggregator.cpp:99-122 | run alone before stop, a round takes what is there up to a full batch, and publishes the batch exactly if it is full |
| Aggregator.UndisturbedDrain | multi_cam_app/aggregator/Aggregator.cpp:124-134 | run alone after the loop, the drain publishes the batch at hand with everything queued as one batch and exits |
| Aggregator.UndisturbedShutdown | multi_cam_app/aggregator/Aggregator.cpp:115-134 | run alone with stop requested, the test of a partial batch publishes it on its own, then the drain publishes the rest |
| Aggregator.AcceptedItemsConserved | multi_cam_app/aggregator/Aggregator.cpp:93-147 | each producer's accepted items are, in order, the published, the batched and the queued ones |
| Aggregator.PermitGuaranteesElement | multi_cam_app/aggregator/concurrentqueue/blockingconcurrentqueue.h:297-307 | a permit held by the consumer guarantees a non-empty stream at that moment |
| Aggregator.ScanFindsElement | multi_cam_app/aggregator/concurrentqueue/blockingconcurrentqueue.h:297-307 | from then on that stream stays non-empty while the consumer looks through the streams in any order, so its first round of inner dequeues finds an element and the retry loop ends |
| Aggregator.FullBatchesBeforeStop | multi_cam_app/aggregator/Aggregator.cpp:93-122 | with a batch size of at least 1, every batch published before stop has exactly that size |
| Aggregator.FullBatchesIff | multi_cam_app/aggregator/Aggregator.cpp:93-122 | batches published before stop have the configured size in every run if and only if that size is positive (or the capacity is 0, and nothing is ever accepted) |
| Aggregator.ZeroBatchSizeBreaks | multi_cam_app/aggregator/Aggregator.cpp:93-122 | a run from the start with batch size 0 that publishes a batch of one item before stop |
| Aggregator.PublishedIff | multi_cam_app/aggregator/Aggregator.cpp:122-134 | once the consumer has exited, every accepted item of every producer is published in order if and only if at the last poll of the drain nobody was between enqueue and signal and nobody has enqueued since |
| Aggregator.EverythingPublishedAfterStop | multi_cam_app/aggregator/Aggregator.cpp:122-134 | in particular if no TryEnqueue is in progress once stop is requested, for every batch size |
| Aggregator.QueuedForGood | multi_cam_app/aggregator/Aggregator.cpp:122-134 | what is queued when the consumer has exited stays queued in every later state, and nothing more is published |
| Aggregator.LateItemsStayQueued | multi_cam_app/aggregator/Aggregator.cpp:64-134 | for every configuration with room for an item, a run from the start that strands an accepted item |
| SlotPool.Pool.AcquireSlot | multi_cam_app/frame_cache/src/slot_pool.cpp:148-158 | the first idle slot becomes IN_USE, or -1 and no change |
| SlotPool.Pool.SubmitSlot | multi_cam_app/frame_cache/src/slot_pool.cpp:160-171 | IN_USE to ON_FLIGHT for an existing slot in that state, otherwise refused without change |
| SlotPool.Pool.ReleaseSlot | multi_cam_app/frame_cache/src/slot_pool.cpp:173-184 | ON_FLIGHT to IDLE, otherwise refused without change |
| SlotPool.Pool.RevertSlot | multi_cam_app/frame_cache/src/slot_pool.cpp:186-197 | IN_USE to IDLE, otherwise refused without change |
| SlotPool.FirstIdle | multi_cam_app/frame_cache/src/slot_pool.cpp:148-158 | an idle slot with none before it, or -1 if there is none |
| DirectMode.RefusedIff | multi_cam_app/frame_cache/src/producer.cpp:169-314 | in every run, a polled release is refused if and only if a submitter is between SendFrame and SubmitSlot with that slot |
| DirectMode.OneSubmitterNeverRefused | multi_cam_app/frame_cache/src/producer.cpp:169-314 | with one submitter no release is refused, because it polls before it acquires |
| DirectMode.DoomedIffWasted | multi_cam_app/frame_cache/src/producer.cpp:267-314 | a slot is lost for good, with nothing left that could release it, if and only if one of its messages was lost or one of its releases refused |
| DirectMode.OneSubmitterLosesNothing | multi_cam_app/frame_cache/src/producer.cpp:169-314 | with one submitter and no lost message no slot is ever lost |
| DirectMode.AcquiresIff | multi_cam_app/frame_cache/src/producer.cpp:169-290 | in every run an acquisition fails exactly if no slot is idle after the polls, and otherwise takes one that was |
| DirectMode.RevertsSlot | multi_cam_app/frame_cache/src/slot_pool.cpp:186-197 | in every run a revert is accepted and leaves the slot idle and the submitter free |
| DirectMode.UndisturbedSend | multi_cam_app/frame_cache/src/producer.cpp:169-290 | poll, acquire, send and submit put a frame from an idle slot in flight |
| DirectMode.UndisturbedRelease | multi_cam_app/frame_cache/src/producer.cpp:288-314 | released and polled, its slot is idle |
| DirectMode.RaceLosesSlot | multi_cam_app/frame_cache/src/producer.cpp:169-314 | a run of two submitters without lost messages in which a release is refused and its slot is lost |
| DirectMode.RunKeepsInv | multi_cam_app/frame_cache/src/producer.cpp:169-314 | each slot is held by at most one submitter, and has at most one frame or release under way, only while it is in flight or sent |
| SlotProtocol.RunKeepsInv | vlm_pipeline/rule_process/src/main.cpp:234-368 | holders, tokens and images agree with the slot states in every reachable state |
| SlotProtocol.TokensMove | vlm_pipeline/rule_process/src/main.cpp:234-368 | no step makes a token except SubmitSlot; tokens move, come back or are dropped, and the balance is exact for every step that drops none |
| SlotProtocol.SlotOwnership | multi_cam_app/frame_cache/src/producer.cpp:169-290 | a slot is idle, or in use by exactly one submitter, or in flight with at most one outstanding token |
| SlotProtocol.AcquiresIff | multi_cam_app/frame_cache/src/producer.cpp:169-290 | in every run an acquisition fails exactly if no slot is idle, and otherwise takes one that was and touches no other |
| SlotProtocol.RevertsSlot | multi_cam_app/frame_cache/src/slot_pool.cpp:186-197 | in every run a revert is accepted and leaves the slot idle and the submitter free |
| SlotProtocol.SubmitsWhatItWrote | multi_cam_app/frame_cache/src/producer.cpp:169-290 | in every run SubmitSlot is accepted and its token names the pixels that the submitter wrote last, whatever others write meanwhile |
| SlotProtocol.UndisturbedRelay | vlm_pipeline/rule_process/src/main.cpp:234-368 | from every reachable state with an idle slot and a resting submitter: fill, submit, scene, alert and relay lead to the consumer holding the frame with those pixels |
| SlotProtocol.UndisturbedRelease | multi_cam_app/frame_cache/src/producer.cpp:288-314 | the release of a mapped frame, polled, makes its slot idle |
| SlotProtocol.UndisturbedDone | vlm_pipeline/rule_process/src/main.cpp:348-368 | without an alert the slot comes back with frame_done and is idle |
| SlotProtocol.MappedFrameIsStable | vlm_pipeline/dmabuf_consumer/src/consumer.cpp:139-258 | while a frame is mapped its slot holds the pixels that were submitted and no submitter writes it |
| SlotProtocol.OneRoutePerSlot | vlm_pipeline/rule_process/src/main.cpp:234-368 | no slot is named in two places; in particular none is both relayed and listed in frame_done |
| SlotProtocol.ReleasesAccepted | multi_cam_app/frame_cache/src/frame_cache_service.cpp:84-90 | every release by packet or by frame_done finds its slot in flight and makes it idle |
| SlotProtocol.ReleaseNeverRefused | multi_cam_app/frame_cache/src/producer.cpp:288-314 | the slot of a returned token is ON_FLIGHT |
| SlotProtocol.IntactIff | vlm_pipeline/rule_process/src/main.cpp:234-368 | in every run, every slot in flight still has its token if and only if no step dropped one: no message with tokens was lost, no entry of an already relayed source was passed over, and no alert overtook an earlier entry of its source |
| SlotProtocol.NeverStuckIff | vlm_pipeline/rule_process/src/main.cpp:234-368 | from any point of a run with all tokens in place: however it goes on, with any alerts, without lost messages and further repeated sources, no slot gets stuck, if and only if no scene has an entry still to be handled that shares its source |
| SlotProtocol.SafeSceneIff | vlm_pipeline/rule_process/src/main.cpp:234-368 | for a scene not yet handled that condition is: its sources are distinct |
| SlotProtocol.NoSlotLeaks | vlm_pipeline/rule_process/src/main.cpp:234-368 | if no message is lost and no scene repeats a source, every slot in flight still has its token, in every run |
| SlotProtocol.IntactStepIff | vlm_pipeline/rule_process/src/main.cpp:234-368 | a step, with or without an alert, leaves a slot in flight without token exactly if it drops one or one was missing before |
| SlotProtocol.SharedSourceLeaks | vlm_pipeline/rule_process/src/main.cpp:287-366 | a run without any lost message that leaks a slot: one source twice in a scene, alert for the first entry only |
| SlotPool.ReleaseAll | multi_cam_app/frame_cache/src/producer.cpp:288-305 | the release loops make exactly the named slots in flight idle, and count each once |
| RuleProcess.Relay.RelayAlerts | vlm_pipeline/rule_process/src/main.cpp:234-292 | exactly the entries whose alert finds a connection and is sent are relayed, and vqaSources holds exactly their sources; a failed send closes the connection |
| RuleProcess.FirstAlertSentIff | vlm_pipeline/rule_process/src/main.cpp:249-292 | the first alert is sent if and only if its send goes through and there is a connection, or the thread is ready and one can be made |
| RuleProcess.NextAlertSentIff | vlm_pipeline/rule_process/src/main.cpp:249-292 | a later alert needs a new connection if and only if the alert before it was not sent: a failed send closes the connection |
| RuleProcess.Relay.HandleScene | vlm_pipeline/rule_process/src/main.cpp:348-368 | frame_done lists exactly the entries whose source was not relayed |
| RuleProcess.NeverBoth | vlm_pipeline/rule_process/src/main.cpp:234-368 | no slot of a scene is both relayed and listed in frame_done |
| RuleProcess.AlwaysWayBackIff | vlm_pipeline/rule_process/src/main.cpp:234-368 | every slot of a scene is relayed or listed in frame_done, whatever alerts, connections and sends there are, if and only if no two entries of the scene have one source |
| SlotGeometry.AlignUp | multi_cam_app/frame_cache/src/producer.cpp:20-22 | the next multiple of the alignment |
| SlotGeometry.Producer.Init | multi_cam_app/frame_cache/src/producer.cpp:51-121 | success exactly for positive dimensions, at most 32 slots and a 64-bit buffer size; the packet carries stride and size modulo 2^32 |
| SlotGeometry.DivisionDetectsOverflow | multi_cam_app/frame_cache/src/slot_pool.cpp:71-72 | the division check fails exactly if stride times count wraps |
| SlotGeometry.Consumer.Init | vlm_pipeline/dmabuf_consumer/src/consumer.cpp:33-108 | accepts exactly consistent packets with 1..32 slots and at most 128 MB, once |
| SlotGeometry.Consumer.MapFrame | vlm_pipeline/dmabuf_consumer/src/consumer.cpp:139-208 | behind a successful Init: success exactly for the magic, a slot number in range and 0 < size <= stride; the frame lies in its slot and in the buffer |
| SlotGeometry.SlotsAreDisjoint | multi_cam_app/frame_cache/src/slot_pool.cpp:111-116 | frames in different slots share no byte |
| SlotGeometry.HandshakeAgreesIffStrideFits | multi_cam_app/frame_cache/src/producer.cpp:115-121 | an accepted handshake gives the consumer the producer's geometry if and only if the stride fits 32 bits |
| SlotGeometry.TruncatedStrideIsAccepted | vlm_pipeline/dmabuf_consumer/src/consumer.cpp:66-84 | a concrete frame size whose stride is truncated to 4096 and accepted |
| SlotGeometry.OwnFramesMap | vlm_pipeline/dmabuf_consumer/src/consumer.cpp:165-179 | frames of the initialised size map in every slot |
| SlotGeometry.SizesExactIffFewChannels | vlm_pipeline/dmabuf_consumer/src/consumer.cpp:165-168 | the 64-bit size is width*height*channels for all 32-bit int widths and heights if and only if there are at most 4 channels |
| RelayFraming.SendAll | vlm_pipeline/rule_process/include/channel_protocol.hpp:34-44 | the whole buffer, or a proper prefix and false |
| RelayFraming.RecvAll | vlm_pipeline/dmabuf_consumer/demo/consumer_demo.cpp:60-81 | the next len bytes however they are cut; false exactly if the stream ends before |
| RelayFraming.SendMessage | vlm_pipeline/rule_process/src/main.cpp:275-286 | length, metadata and packet in this order, or a proper prefix and false |
| RelayFraming.ReceiveMessage | vlm_pipeline/dmabuf_consumer/demo/consumer_demo.cpp:368-406 | header and packet are consumed exactly, or the stream ended |
| RelayFraming.ReceiveLoop | vlm_pipeline/dmabuf_consumer/demo/consumer_demo.cpp:349-622 | with the frame limit, the shutdown flag and frames that cannot be mapped or released, the loop delivers what Decode gives for the bytes, for any cutting |
| RelayFraming.DisturbedTakesPrefix | vlm_pipeline/dmabuf_consumer/demo/consumer_demo.cpp:349-622 | however the loop is ended, it delivers a first part of the frames sent, at most as many as are wanted, each unchanged |
| RelayFraming.PacketRoundTrip | vlm_pipeline/dmabuf_consumer/demo/consumer_demo.cpp:368-380 | the 32 packet bytes give the packet back |
| RelayFraming.PacketLayout | multi_cam_app/frame_cache/include/dmabuf_producer/types.h:12-20 | which of the 32 bytes carry which field |
| RelayFraming.LowByteFirst | vlm_pipeline/rule_process/src/main.cpp:276-281 | the bytes of a 32-bit field have the weights 1, 2^8, 2^16 and 2^24 in this order |
| RelayFraming.DecodeGoodMessage | vlm_pipeline/dmabuf_consumer/demo/consumer_demo.cpp:349-423 | a message with metadata length 1..65535, or a bare packet, is delivered and the rest follows, unless the loop ends there by its limit, the flag, or a frame that fails |
| RelayFraming.DecodeBadMessage | vlm_pipeline/dmabuf_consumer/demo/consumer_demo.cpp:381-410 | other lengths stop the loop for good; a length equal to the magic is taken for a packet |
| RelayFraming.RoundTripIff | vlm_pipeline/dmabuf_consumer/demo/consumer_demo.cpp:349-417 | an undisturbed loop gives back exactly the sent list, up to the number of frames wanted, if and only if every metadata length up to there is from 1 to 65535 |
| RelayFraming.SendAndReceive | vlm_pipeline/rule_process/src/main.cpp:275-286 | the same end to end, for every cutting of sends and receives; disturbed, a first part comes out |
| PatchLayout.SourceInBounds | qwen3vit/src/qwen3vit_deploy/qwen_vl_preprocessor.cpp:156-210 | every source index is in bounds, for all sizes, on unbounded indices |
| PatchLayout.IndicesFit | qwen3vit/src/qwen3vit_deploy/qwen_vl_preprocessor.cpp:156-210 | and no 32-bit index wraps, divisible sizes or not, with the checked number of patches (at most 10000) and up to 26843 values in a patch |
| PatchLayout.TransposeInjective | qwen3vit/src/qwen3vit_deploy/qwen_vl_preprocessor.cpp:156-210 | no source value is read for two output positions, for all sizes |
| PatchLayout.TransposeSurjective | qwen3vit/src/qwen3vit_deploy/qwen_vl_preprocessor.cpp:156-210 | when the sizes divide, every source value lands in an output position |
| PatchLayout.LastValueLost | qwen3vit/src/qwen3vit_deploy/qwen_vl_preprocessor.cpp:156-210 | when they do not, the last source value is lost: divisibility is exactly the condition |
| PatchLayout.DigitsOfSeqElem | qwen3vit/src/qwen3vit_deploy/qwen_vl_preprocessor.cpp:170-193 | the div/mod chains give digits in range that recombine to the position |
| PatchLayout.SeqElemOfDigits | qwen3vit/src/qwen3vit_deploy/qwen_vl_preprocessor.cpp:170-193 | every choice of digits in range is the decomposition of one position in range |
| PatchLayout.TransposeToPatch | qwen3vit/src/qwen3vit_deploy/qwen_vl_preprocessor.cpp:156-210 | the loops fill the output with exactly the patches of the source |
| PatchLayout.PatchAt | qwen3vit/src/qwen3vit_deploy/qwen_vl_preprocessor.cpp:204-208 | position seqIdx * inputDim + elemIdx holds the value at the source index |
| PatchLayout.PatchReads | qwen3vit/src/qwen3vit_deploy/qwen_vl_preprocessor.cpp:170-208 | the source index of every output position in closed form, from the sizes alone: frame block, merge block, patch in the block, then channel, frame, row and column in the patch |
| FusedPatches.NormalizeImage | qwen3vit/src/qwen3vit_deploy/qwen_vl_preprocessor.cpp:141-154 | the buffer part is the normalised frame, the rest unchanged |
| FusedPatches.Replicate | qwen3vit/src/qwen3vit_deploy/qwen_vl_preprocessor.cpp:324-340 | the clip buffer is the normalised frame repeated |
| FusedPatches.FusedReadsSameByte | qwen3vit/src/qwen3vit_deploy/qwen_vl_opencl_kernels.h:282-306 | the kernel reads the byte behind the transposition's source value, and its channel |
| FusedPatches.FusedReads | qwen3vit/src/qwen3vit_deploy/qwen_vl_opencl_kernels.h:273-306 | the kernel's byte index of every output position in the same closed form |
| FusedPatches.NormalUndone | qwen3vit/src/qwen3vit_deploy/qwen_vl_preprocessor.cpp:144-151 | the normalised value times the deviation plus the mean is the pixel over 255 |
| FusedPatches.FusedEqualsPipeline | qwen3vit/src/qwen3vit_deploy/qwen_vl_opencl_kernels.h:256-314 | the kernel's value is the value of normalise, replicate and transpose in the same place |
| FusedPatches.FusedItem | qwen3vit/src/qwen3vit_deploy/qwen_vl_opencl_kernels.h:273-314 | one work item writes exactly its row, with the wanted values |
| FusedPatches.FusedTranspose | qwen3vit/src/qwen3vit_deploy/qwen_vl_opencl_kernels.h:256-314 | run in any order that covers the patches, the kernel fills the output with what the simple pipeline gives |
| RotaryOrder.LoopIndexIsSeqIdx | qwen3vit/src/qwen3vit_deploy/qwen_vl_preprocessor.cpp:255-282 | the running index of the four loops decomposes, as in the transposition, into the loop counters |
| RotaryOrder.PatchHoldsItsPixels | qwen3vit/src/qwen3vit_deploy/qwen_vl_preprocessor.cpp:170-203 | every pixel of a patch lies in the grid row and column that the rotary row uses |
| RotaryOrder.PatchIsSquare | qwen3vit/src/qwen3vit_deploy/qwen_vl_preprocessor.cpp:170-208 | element (channel, frame, row, column) of a patch reads row PatchRow * patch + row and column PatchColumn * patch + column of its frame; element 0 reads the square's corner |
| RotaryOrder.PatchRows | qwen3vit/src/qwen3vit_deploy/qwen_vl_preprocessor.cpp:184-208 | the next element in a row of a patch reads C further on in the source, the next row of the patch W * C further on |
| RotaryOrder.FillTable | qwen3vit/src/qwen3vit_deploy/qwen_vl_preprocessor.cpp:234-284 | the loops fill every row once, row seqIdx with the angles of the grid position of patch seqIdx |
| RotaryOrder.GridIsSequence | qwen3vit/src/qwen3vit_deploy/qwen_vl_preprocessor.cpp:233-262 | the grid has as many positions as there are patches |
| TimingRuntime.RunKeepsInv | multi_cam_app/utils/perf/TimingMarkRuntime.cpp:95-193 | counts, order and wake-ups are right in every reachable state |
| TimingRuntime.InFlightIsOutstanding | multi_cam_app/utils/perf/TimingMarkRuntime.cpp:95-110 | a channel's in-flight count is its queued events plus the one the worker holds |
| TimingRuntime.ProcessedInOrder | multi_cam_app/utils/perf/TimingMarkRuntime.cpp:139-193 | events are processed in submission order, each once |
| TimingRuntime.FlushMeansProcessed | multi_cam_app/utils/perf/TimingMarkRuntime.cpp:113-118 | when Flush returns, everything submitted before its call has been processed |
| TimingRuntime.FlushReturnsIff | multi_cam_app/utils/perf/TimingMarkRuntime.cpp:113-118 | Flush returns if and only if everything accepted is processed, and otherwise sleeps |
| TimingRuntime.WaitEndsIff | multi_cam_app/utils/perf/TimingMarkRuntime.cpp:128-137 | the wait for an idle channel ends if and only if none of its events is queued or with the worker, and otherwise sleeps |
| TimingRuntime.UndisturbedWorker | multi_cam_app/utils/perf/TimingMarkRuntime.cpp:139-193 | the worker alone takes the oldest event and processes it |
| TimingRuntime.NobodySleepsInVain | multi_cam_app/utils/perf/TimingMarkRuntime.cpp:113-193 | no thread is blocked while its predicate holds |
| TimingRuntime.WakesIff | multi_cam_app/utils/perf/TimingMarkRuntime.cpp:169-191 | the worker wakes the waiting clients exactly when it has processed the last event of a channel, or of all |
| TimingRuntime.RecordedIff | multi_cam_app/utils/perf/TimingMarkRuntime.cpp:61-193 | in every run, an accepted event is recorded by the recorder it was accepted for if and only if its channel is not erased before the worker takes it and that recorder is not closed before the worker calls it |
| TimingRuntime.RecordedWithoutErase | multi_cam_app/utils/perf/TimingMarkRuntime.cpp:61-193 | in particular if its channel is not erased between its submission and its recording, because a recorder is closed only after its channel was erased |
| TimingRuntime.IdleErasesRecordAll | multi_cam_app/utils/perf/TimingMarkRuntime.cpp:61-193 | if channels are erased only with an in-flight count of zero, every processed event was recorded by the recorder it was accepted for |
| TimingRuntime.RefsCountUsers | multi_cam_app/utils/perf/TimingMarkRuntime.cpp:26-93 | in every run, while a channel lives, its reference count is the registrations less the UnregisterChannel calls that returned at once, and at least 1 |
| TimingRuntime.LastUserErases | multi_cam_app/utils/perf/TimingMarkRuntime.cpp:61-76 | an UnregisterChannel goes on to wait and erase exactly if its caller is the last user |
| TimingRuntime.ErasesLastUserIff | multi_cam_app/utils/perf/TimingMarkRuntime.cpp:61-93 | an erase leaves no user behind if and only if as many came as went since the call that found its caller the last one |
| TimingRuntime.ErasedWhileInUse | multi_cam_app/utils/perf/TimingMarkRuntime.cpp:38-88 | a run in which a channel is erased while a second user is registered, who came during the wait |
| TimingRuntime.StopsWhenDone | multi_cam_app/utils/perf/TimingMarkRuntime.cpp:146-152 | the worker stops only on request and with every accepted event processed |
| TimingRuntime.TakenIsAccepted | multi_cam_app/utils/perf/TimingMarkRuntime.cpp:95-193 | what the worker holds when it records is the event as submitted, and the recorder its channel had when it was taken |
| TimingRuntime.QueuedEventIsDropped | multi_cam_app/utils/perf/TimingMarkRuntime.cpp:61-110 | a run in which an event accepted between the wait and the erase is dropped |
| TimingRuntime.HeldEventIsDropped | multi_cam_app/utils/perf/TimingMarkRuntime.cpp:61-193 | a run in which the queue is empty at the erase, and the event that the worker holds is dropped because its recorder is closed |
| LatencyRecorder.Recorder.RecordStageTimestamp | multi_cam_app/utils/perf/LatencyRecorder.cpp:78-141 | the frame takes the event and exactly its ready metrics, the log takes their rows, the map is pruned and holds at most 8193 frames; nothing happens when closed or with timestamp 0 |
| LatencyRecorder.PrunedSize | multi_cam_app/utils/perf/LatencyRecorder.cpp:347-367 | after pruning at most 8193 frames are left |
| LatencyRecorder.RecentFramesFit | multi_cam_app/utils/perf/LatencyRecorder.cpp:347-367 | frames last seen within a window of n events are at most n + 1, by distinct orders |
| LatencyRecorder.Recorder.PruneIfNeeded | multi_cam_app/utils/perf/LatencyRecorder.cpp:347-367 | exactly the stale and completed frames go, and the hard clear is never reached |
| LatencyRecorder.RecentFramesKept | multi_cam_app/utils/perf/LatencyRecorder.cpp:347-360 | a frame of the last 8192 events goes exactly if the map is over its limit and all seven metrics were emitted |
| LatencyRecorder.AllConsideredEmits | multi_cam_app/utils/perf/LatencyRecorder.cpp:239-300 | the flags gain exactly the metrics with both stages, and the count is the number of flags |
| LatencyRecorder.Recorder.EmitMetric | multi_cam_app/utils/perf/LatencyRecorder.cpp:302-345 | the flag and count are set once; an emitted or reversed measurement leaves no trace; otherwise it is counted, and each n-th gets one row with the two timestamps |
| LatencyRecorder.OnlyNewMetricsLogged | multi_cam_app/utils/perf/LatencyRecorder.cpp:239-345 | rows are added only for complete measurements of this frame not emitted before, with their timestamps; earlier rows stay |
| LatencyRecorder.RowSpans | multi_cam_app/utils/perf/LatencyRecorder.cpp:239-345 | which two stages the row of each metric spans |
| LatencyRecorder.RowsDueIsCeiling | multi_cam_app/utils/perf/LatencyRecorder.cpp:219-226 | with one row in n, a metric measured k times has ceil(k / n) rows |
| LatencyRecorder.TouchedCount | multi_cam_app/utils/perf/LatencyRecorder.cpp:86-96 | a new, continued or reset frame has its count in step and the current order |
| LatencyRecorder.ReusedKeyStartsAfresh | multi_cam_app/utils/perf/LatencyRecorder.cpp:86-96 | after any events of a key, an event that shows reuse leaves the timing a new key would have; any other sets its stage and keeps the rest |
| LatencyRecorder.FlaggedIffReady | multi_cam_app/utils/perf/LatencyRecorder.cpp:228-300 | after any events of a key, exactly the metrics are flagged whose two stages were seen since the key was last taken into use; so after a reset all can be emitted again |
| Deduper.Filter.IsInteresting | multi_cam_app/channel_worker/deduper/Deduper.cpp:41-86 | false exactly if the tracked keys are those of the last passed frame and every entry overlaps it by the threshold; only a passing frame replaces the state |
| Deduper.Run | multi_cam_app/channel_worker/deduper/Deduper.cpp:9-86 | in every run with resets, a frame is dropped exactly if it is steady against the last frame passed since the last reset, and every tracked object of a dropped frame overlaps its own place in that frame by the threshold, however many frames were dropped between |
| Deduper.UnchangedFrameDroppedIff | multi_cam_app/channel_worker/deduper/Deduper.cpp:41-86 | a frame that comes again unchanged is dropped if and only if every tracked entry overlaps, by the threshold, the last entry of its key |
| Deduper.KeyInjective | multi_cam_app/channel_worker/deduper/Deduper.cpp:17-20 | for non-empty labels two entries share a key exactly if label and id agree |
| Deduper.KeysCollideIff | multi_cam_app/channel_worker/deduper/Deduper.cpp:17-20 | in general the empty label counts as unknown |
| Deduper.IoUSymmetric | multi_cam_app/channel_worker/deduper/Deduper.cpp:22-39 | IoU is symmetric |
| Deduper.IoUIsCommonOverCovered | multi_cam_app/channel_worker/deduper/Deduper.cpp:22-39 | IoU is the area of the box that both have in common over the area they cover together, with the common box defined by its points |
| Deduper.IoUOfApartAndNested | multi_cam_app/channel_worker/deduper/Deduper.cpp:22-39 | 0 for boxes without a common point, the quotient of the areas for a box inside another |
| Deduper.IoUInUnitRange | multi_cam_app/channel_worker/deduper/Deduper.cpp:22-39 | IoU of well-formed boxes is between 0 and 1 |
| Deduper.IoUOfItself | multi_cam_app/channel_worker/deduper/Deduper.cpp:22-39 | 1 for a box with area, 0 for one without |
| Deduper.DistinctFrameDroppedIff | multi_cam_app/channel_worker/deduper/Deduper.cpp:41-86 | with distinct keys, if and only if the threshold is at most 1 for boxes with an area and at most 0 for boxes without |
| Deduper.RepeatedKeyPassesAgain | multi_cam_app/channel_worker/deduper/Deduper.cpp:41-86 | a frame with one object twice, at places that do not overlap enough, passes every time it comes |

## Left out

- ExplicitProducer.Producer.Enqueue: blocks, their elements and the index are sequences held in fields, and block numbers take the place of addresses; aliasing between blocks is modelled only as equal numbers.
- ExplicitProducer.Run: single `enqueue` and `dequeue` only; the bulk forms of the explicit producer, which use the same blocks and index, are not modelled.
- ImplicitIndex.BlockIndex.Lookup: sequential, with integer bases; lookups that race with the producer or use a superseded index are those of IndexLookup.
- IndexLookup.Do: blocks are numbered and bases divided by the block size; a block is given back only while no other consumer needs it, which BlockRecycling shows of the drain counters; a growth that finds no memory changes nothing and is no step.
- OptimisticDequeue.Do: the two code paths for single and bulk dequeue are one path with `max` = 1 for the single form.
- BlockRecycling.Do: the free list is the set it implements and a claim is the interval that OptimisticDequeue guarantees, so the proofs are composed by hand at these two points.
- Aggregator.Do: the blocking queue is one FIFO stream for each producer and a permit counter, composed by hand with Semaphore and the queue modules.
- ProducerHash.Do: one call never fails for want of memory; the consequences of a failed allocation are not modelled.
- SlotProtocol.Do: relay mode with MQTT only; direct mode is DirectMode, and the mode that reads scenes from standard input sends no frame_done.
- DirectMode.Do: the pixels are not modelled; a send that fails is a revert.
- SlotGeometry.Producer.Init: opening, allocating, mapping and connecting are taken to succeed.
- RelayFraming.ReceiveLoop: a receive that a signal interrupts is not modelled; a loop that spins on a word until it is shut down returns `Stuck`; whether frames can be mapped and released is a parameter.
- FusedPatches.FusedTranspose: work items run one after the other in any order; float rounding is not modelled.
- RotaryOrder.FillTable: one call fills one of the two tables, for an arbitrary function in place of cosine or sine; the tables are two-dimensional arrays instead of flat buffers.
- LatencyRecorder.Recorder.EmitMetric: the resource columns and the wall-clock column of a row are left out.
- TimingRuntime.Do: what a recorder does with an event is LatencyRecorder; here only whether an open recorder gets it. Opening the log file of a new recorder is taken to succeed.
- Memory order, fences, spin counts, alignment and placement of elements.
- Moving and swapping queues, consumer tokens and their rotation, statistics, exception roll-back, destructors of queues.
- Sockets, descriptors, shared memory mappings, cache synchronisation and MQTT beyond the messages they carry.
- JSON parsing, the rule engine, the event adapter, configuration and logging.
- GStreamer pipelines, OpenCL host code, QNN runners, image resizing and the choice of the resized image size.
- Liveness that depends on message delivery.
- The half-float conversion, face gallery, track caches, inbox queue and label aliases, which are comparatively easy.
