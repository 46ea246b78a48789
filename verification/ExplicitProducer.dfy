/** The queue of one explicit producer, run by one thread at a time: a circular list of blocks, reuse of
    emptied blocks, and a circular block index that doubles when it is full. Together they implement a
    FIFO sequence. Indices are unbounded; CircularIndex justifies that.

    The blocks live in `blocks`, and block numbers take the place of addresses. */
module ExplicitProducer {
  import opened CircularIndex
  import opened Wrappers

  datatype Item = Item(payload: int)

  datatype Block = Block(elements: seq<Item>, emptyFlags: seq<bool>, next: nat)

  datatype Entry = Entry(base: int, block: nat)

  /** The position of the flag of element `index` in emptyFlags. */
  function FlagOf(index: nat): (f: nat)
    ensures f < BLOCK_SIZE
  {
    BLOCK_SIZE - 1 - index % BLOCK_SIZE
  }

  /** The index slot of the `j`-th of the `k` entries that end just before `front`. */
  function SlotOf(front: nat, k: nat, j: nat, size: nat): (r: nat)
    requires front < size && k <= size && j <= k
    ensures r < size
  {
    Wrap(front - k + j, size)
  }

  /** The number of blocks ever started when `tail` elements were enqueued. */
  function Started(tail: nat): nat { (tail + BLOCK_SIZE - 1) / BLOCK_SIZE }

  /** Block::set_empty of the explicit context, on block `b`. */
  function SetEmpty(blocks: seq<Block>, b: nat, index: nat): (r: seq<Block>)
    requires b < |blocks| && |blocks[b].emptyFlags| == BLOCK_SIZE
    ensures |r| == |blocks|
  {
    blocks[b := blocks[b].(emptyFlags := blocks[b].emptyFlags[FlagOf(index) := true])]
  }

  /** Constructing `item` as element `index` of block `b`. */
  function Construct(blocks: seq<Block>, b: nat, index: nat, item: Item): (r: seq<Block>)
    requires b < |blocks| && |blocks[b].elements| == BLOCK_SIZE
    ensures |r| == |blocks|
  {
    blocks[b := blocks[b].(elements := blocks[b].elements[index % BLOCK_SIZE := item])]
  }

  /** Block `b` put, with all flags cleared, behind the block `last` of the circle, or in a circle of its own. */
  function Insert(blocks: seq<Block>, last: Option<nat>, spare: Block): (r: seq<Block>)
    requires last.Some? ==> last.value < |blocks|
    ensures |r| == |blocks| + 1
  {
    var id := |blocks|;
    if last == None then
      blocks + [spare.(next := id)]
    else
      blocks[last.value := blocks[last.value].(next := id)] + [spare.(next := blocks[last.value].next)]
  }

  // Well-formedness of the parts

  ghost predicate Shaped(b: Block) {
    |b.elements| == BLOCK_SIZE && |b.emptyFlags| == BLOCK_SIZE
  }

  /** Of block number `number`, exactly the elements below `head` are marked as dequeued. */
  ghost predicate FlagsMatch(flags: seq<bool>, number: int, head: nat) {
    && |flags| == BLOCK_SIZE
    && forall f :: 0 <= f < BLOCK_SIZE ==> (flags[f] <==> BLOCK_SIZE * number + (BLOCK_SIZE - 1 - f) < head)
  }

  /** The live elements of block number `number` are those of `contents`, which starts at index `head`. */
  ghost predicate HoldsLive(elements: seq<Item>, number: int, head: nat, contents: seq<Item>) {
    && |elements| == BLOCK_SIZE
    && forall i :: 0 <= i < BLOCK_SIZE && 0 <= BLOCK_SIZE * number + i - head < |contents| ==>
         elements[i] == contents[BLOCK_SIZE * number + i - head]
  }

  ghost predicate Represents(b: Block, number: int, head: nat, contents: seq<Item>) {
    FlagsMatch(b.emptyFlags, number, head) && HoldsLive(b.elements, number, head, contents)
  }

  /** A list of distinct blocks. */
  ghost predicate Listed(blocks: seq<Block>, ring: seq<nat>) {
    && (forall j :: 0 <= j < |ring| ==> ring[j] < |blocks|)
    && (forall i, j :: 0 <= i < j < |ring| ==> ring[i] != ring[j])
  }

  /** The `j`-th block of the ring. */
  ghost function At(blocks: seq<Block>, ring: seq<nat>, j: nat): (b: Block)
    requires Listed(blocks, ring) && j < |ring|
  {
    blocks[ring[j]]
  }

  ghost predicate BlocksOk(blocks: seq<Block>, ring: seq<nat>, oldest: int, head: nat, contents: seq<Item>)
    requires Listed(blocks, ring)
  {
    forall j {:trigger At(blocks, ring, j)} :: 0 <= j < |ring| ==>
      Represents(At(blocks, ring, j), oldest + j, head, contents)
  }

  /** The blocks form a circle: each points to the next, the last one, `tail`, to the first. */
  ghost predicate Circular(blocks: seq<Block>, ring: seq<nat>, tail: Option<nat>)
    requires Listed(blocks, ring)
  {
    && (forall j {:trigger At(blocks, ring, j)} :: 0 <= j < |ring| ==>
          At(blocks, ring, j).next == ring[if j + 1 < |ring| then j + 1 else 0])
    && tail == if ring == [] then None else Some(ring[|ring| - 1])
  }

  ghost predicate Linked(blocks: seq<Block>, ring: seq<nat>, tail: Option<nat>, oldest: int, head: nat,
                         contents: seq<Item>)
  {
    Listed(blocks, ring) && Circular(blocks, ring, tail) && BlocksOk(blocks, ring, oldest, head, contents)
  }

  /** The entries just before `front` are those of the ring, in order, with consecutive bases. */
  ghost predicate Indexed(entries: seq<Entry>, ring: seq<nat>, oldest: int, front: nat) {
    && |ring| <= |entries| && front < |entries|
    && forall j {:trigger SlotOf(front, |ring|, j, |entries|)} :: 0 <= j < |ring| ==>
         entries[SlotOf(front, |ring|, j, |entries|)] == Entry(BLOCK_SIZE * (oldest + j), ring[j])
  }

  /** `maxSize` is MAX_SUBQUEUE_SIZE, None for no limit. */
  class Producer {
    const maxSize: Option<nat>

    var blocks: seq<Block>
    var tailIndex: nat
    var headIndex: nat
    var dequeueOptimisticCount: nat
    var dequeueOvercommit: nat
    var tailBlock: Option<nat>

    var slotsUsed: nat            // pr_blockIndexSlotsUsed
    var indexSize: nat            // pr_blockIndexSize
    var indexFront: nat           // pr_blockIndexFront: next slot
    var entries: seq<Entry>       // pr_blockIndexEntries
    var publishedFront: nat       // the front field of the index header: current slot

    ghost var contents: seq<Item>
    ghost var ring: seq<nat>      // the circular list, oldest block first, tailBlock last

    /** The number of the oldest block of the ring, when `tail` elements have been or are being enqueued:
        block number n covers indices from n * 32 on. */
    ghost function OldestAt(tail: nat): int
      reads this
    {
      Started(tail) - |ring|
    }

    ghost function Oldest(): int
      reads this
    {
      OldestAt(tailIndex)
    }

    /** Blocks and index are in order for `tail` elements, of which `contents` have been enqueued and not dequeued. */
    ghost predicate LaidOutFor(tail: nat)
      reads this
    {
      && (ring == [] <==> tail == 0)
      && 0 <= OldestAt(tail) && BLOCK_SIZE * OldestAt(tail) <= headIndex
      && slotsUsed == |ring| && indexSize == |entries| && indexFront < indexSize
      && (ring != [] ==> publishedFront == Wrap(indexFront - 1, indexSize))
      && (maxSize.Some? ==> maxSize.value % BLOCK_SIZE == 0 && BLOCK_SIZE * |ring| <= maxSize.value)
      && Indexed(entries, ring, OldestAt(tail), indexFront)
      && Linked(blocks, ring, tailBlock, OldestAt(tail), headIndex, contents)
    }

    /** Everything but the two dequeue counters. */
    ghost predicate Stored()
      reads this
    {
      headIndex <= tailIndex && |contents| == tailIndex - headIndex && LaidOutFor(tailIndex)
    }

    ghost predicate Valid()
      reads this
    {
      Stored() && dequeueOptimisticCount - dequeueOvercommit == headIndex
    }

    /** The block after tailBlock has only dequeued elements. */
    ghost predicate FrontBlockDrained()
      reads this
    {
      ring != [] && BLOCK_SIZE * (Oldest() + 1) <= headIndex
    }

    /** Another block may be added without passing the size limit. */
    ghost predicate RoomForBlock()
      reads this
    {
      maxSize.Some? ==> maxSize.value != 0 && |contents| <= maxSize.value - BLOCK_SIZE
    }

    ghost predicate BlockCanBeAdded(largerIndex: bool, spare: Option<Block>)
      reads this
    {
      RoomForBlock() && (slotsUsed < indexSize || largerIndex) && spare.Some?
    }

    /** The queue never outgrows its blocks, and so never the size limit. */
    lemma SizeIsLimited()
      requires Valid()
      ensures |contents| <= BLOCK_SIZE * |ring|
      ensures maxSize.Some? ==> |contents| <= maxSize.value
    {
    }

    /** `initialSize` is the size of the first index. */
    constructor (initialSize: nat, maxSize: Option<nat>)
      requires 0 < initialSize
      requires maxSize.Some? ==> maxSize.value % BLOCK_SIZE == 0
      ensures Valid() && contents == [] && this.maxSize == maxSize
    {
      this.maxSize := maxSize;
      blocks := [];
      tailIndex, headIndex, dequeueOptimisticCount, dequeueOvercommit := 0, 0, 0, 0;
      tailBlock := None;
      slotsUsed, indexSize, indexFront := 0, initialSize, 0;
      entries := seq(initialSize, _ => Entry(0, 0));
      publishedFront := 0;
      contents, ring := [], [];
    }

    /** Block::is_empty of the explicit context. */
    method IsEmpty(b: nat) returns (empty: bool)
      requires b < |blocks| && Shaped(blocks[b])
      ensures empty <==> forall f :: 0 <= f < BLOCK_SIZE ==> blocks[b].emptyFlags[f]
    {
      var f := 0;
      while f < BLOCK_SIZE
        invariant 0 <= f <= BLOCK_SIZE
        invariant forall g :: 0 <= g < f ==> blocks[b].emptyFlags[g]
      {
        if !blocks[b].emptyFlags[f] {
          return false;
        }
        f := f + 1;
      }
      return true;
    }

    /** Block::reset_empty of the explicit context. */
    method ResetEmpty(b: nat)
      requires b < |blocks| && Shaped(blocks[b])
      modifies this`blocks
      ensures |blocks| == |old(blocks)|
      ensures blocks == old(blocks)[b := old(blocks)[b].(emptyFlags := blocks[b].emptyFlags)]
      ensures |blocks[b].emptyFlags| == BLOCK_SIZE && forall f :: 0 <= f < BLOCK_SIZE ==> !blocks[b].emptyFlags[f]
    {
      var f := 0;
      while f < BLOCK_SIZE
        invariant 0 <= f <= BLOCK_SIZE && |blocks| == |old(blocks)|
        invariant blocks == old(blocks)[b := old(blocks)[b].(emptyFlags := blocks[b].emptyFlags)]
        invariant |blocks[b].emptyFlags| == BLOCK_SIZE && forall g :: 0 <= g < f ==> !blocks[b].emptyFlags[g]
      {
        blocks := blocks[b := blocks[b].(emptyFlags := blocks[b].emptyFlags[f := false])];
        f := f + 1;
      }
    }

    /** new_block_index: doubles the index, with the entries in use at the front, oldest first. */
    method NewBlockIndex()
      requires Stored() && 0 < slotsUsed
      modifies this`indexSize, this`indexFront, this`entries, this`publishedFront
      ensures Stored() && indexSize == 2 * old(indexSize)
    {
      var bigger, j := CopyEntries();
      publishedFront := slotsUsed - 1;
      indexFront := j;
      indexSize := 2 * indexSize;
      entries := bigger;
    }

    /** The copy loop of new_block_index. */
    method CopyEntries() returns (bigger: seq<Entry>, j: nat)
      requires Stored() && 0 < slotsUsed
      ensures |bigger| == 2 * indexSize && j == slotsUsed
      ensures Indexed(bigger, ring, Oldest(), j)
    {
      bigger := seq(2 * indexSize, _ => Entry(0, 0));
      var i := Wrap(indexFront - slotsUsed, indexSize);
      bigger := bigger[0 := entries[i]];
      j := 1;
      i := Wrap(i + 1, indexSize);
      while i != indexFront
        invariant 1 <= j <= slotsUsed && |bigger| == 2 * indexSize
        invariant i == SlotOf(indexFront, slotsUsed, j, indexSize)
        invariant forall q :: 0 <= q < j ==> bigger[q] == entries[SlotOf(indexFront, slotsUsed, q, indexSize)]
        decreases slotsUsed - j
      {
        bigger := bigger[j := entries[i]];
        j := j + 1;
        i := Wrap(i + 1, indexSize);
      }
      IndexedFromStart(entries, ring, Oldest(), indexFront, bigger);
    }

    /** The block lookup of dequeue: through the index, by the distance from the newest entry. */
    method BlockOf(index: nat) returns (block: nat)
      requires Stored() && headIndex <= index < tailIndex
      ensures 0 <= index / BLOCK_SIZE - Oldest() < |ring| && block == ring[index / BLOCK_SIZE - Oldest()]
    {
      ghost var k := |ring|;
      ghost var j := index / BLOCK_SIZE - Oldest();
      assert entries[SlotOf(indexFront, k, k - 1, indexSize)] == Entry(BLOCK_SIZE * (Oldest() + (k - 1)), ring[k - 1]);
      assert SlotOf(indexFront, k, k - 1, indexSize) == publishedFront;
      var headBase := entries[publishedFront].base;
      var blockBase := index - index % BLOCK_SIZE;
      var offset := (blockBase - headBase) / BLOCK_SIZE;
      assert offset == j - (k - 1);
      assert Wrap(publishedFront + offset, indexSize) == SlotOf(indexFront, k, j, indexSize);
      block := entries[Wrap(publishedFront + offset, indexSize)].block;
    }

    /** Makes the drained block after tailBlock the tail. */
    method ReuseBlock(next: nat)
      requires Stored() && FrontBlockDrained() && tailIndex % BLOCK_SIZE == 0 && next == ring[0]
      modifies this`blocks, this`tailBlock, this`ring
      ensures ring == old(ring)[1..] + [old(ring)[0]]
      ensures Linked(blocks, ring, tailBlock, old(Oldest()) + 1, headIndex, contents)
    {
      assert Represents(At(blocks, ring, 0), Oldest(), headIndex, contents);
      ghost var o := Oldest();
      tailBlock := Some(next);
      ResetEmpty(next);
      ring := ring[1..] + [ring[0]];
      RotateKeepsLinked(old(blocks), old(ring), old(tailBlock), o, headIndex, contents, blocks);
    }

    /** Takes `spare` into the circle as the tail. */
    method InsertBlock(spare: Block)
      requires Stored() && !FrontBlockDrained() && tailIndex % BLOCK_SIZE == 0 && Shaped(spare)
      modifies this`blocks, this`tailBlock, this`slotsUsed, this`ring
      ensures ring == old(ring) + [|old(blocks)|] && slotsUsed == |ring|
      ensures Linked(blocks, ring, tailBlock, old(Oldest()), headIndex, contents)
    {
      ghost var o := Oldest();
      var id := |blocks|;
      blocks := Insert(blocks, tailBlock, spare);
      ResetEmpty(id);
      tailBlock := Some(id);
      slotsUsed := slotsUsed + 1;
      ring := ring + [id];
      InsertKeepsLinked(old(blocks), old(ring), old(tailBlock), o, headIndex, contents, spare, blocks);
    }

    /** Adds a block to the block index. */
    method AddEntry(block: nat)
      requires indexFront < indexSize == |entries|
      modifies this`entries, this`publishedFront, this`indexFront
      ensures entries == old(entries)[old(indexFront) := Entry(tailIndex, block)]
      ensures publishedFront == old(indexFront) && indexFront == Wrap(old(indexFront) + 1, indexSize)
    {
      entries := entries[indexFront := Entry(tailIndex, block)];
      publishedFront := indexFront;
      indexFront := Wrap(indexFront + 1, indexSize);
    }

    /** The first part of enqueue at a block boundary. `spare` is the answer of requisition_block, `memory` whether
        a larger index can be allocated, `canAlloc` the allocation mode. */
    method StartBlock(canAlloc: bool, memory: bool, spare: Option<Block>) returns (ok: bool)
      requires Stored() && tailIndex % BLOCK_SIZE == 0 && (spare.Some? ==> Shaped(spare.value))
      modifies this`blocks, this`tailBlock, this`slotsUsed, this`indexSize, this`indexFront, this`entries,
               this`publishedFront, this`ring
      ensures ok <==> old(FrontBlockDrained() || BlockCanBeAdded(canAlloc && memory, spare))
      ensures ok ==> LaidOutFor(tailIndex + 1)
      ensures !ok ==> Stored() && ring == old(ring)
      ensures |ring| == |old(ring)| + if ok && !old(FrontBlockDrained()) then 1 else 0
    {
      var ahead := Ahead();
      if ahead.Some? {
        MoveToBlock(ahead.value);
        return true;
      }
      ok := TryAddBlock(canAlloc, memory, spare);
    }

    method TryAddBlock(canAlloc: bool, memory: bool, spare: Option<Block>) returns (ok: bool)
      requires Stored() && !FrontBlockDrained() && tailIndex % BLOCK_SIZE == 0 && (spare.Some? ==> Shaped(spare.value))
      modifies this`blocks, this`tailBlock, this`slotsUsed, this`indexSize, this`indexFront, this`entries,
               this`publishedFront, this`ring
      ensures ok <==> old(BlockCanBeAdded(canAlloc && memory, spare))
      ensures ok ==> LaidOutFor(tailIndex + 1) && |ring| == |old(ring)| + 1
      ensures !ok ==> Stored() && ring == old(ring)
    {
      if maxSize.Some? && (maxSize.value == 0 || maxSize.value - BLOCK_SIZE < tailIndex - headIndex) {
        return false;
      }
      var room := MakeRoomInIndex(canAlloc, memory);
      if !room || spare == None {
        return false;
      }
      AddBlock(spare.value);
      return true;
    }

    method MakeRoomInIndex(canAlloc: bool, memory: bool) returns (ok: bool)
      requires Stored()
      modifies this`indexSize, this`indexFront, this`entries, this`publishedFront
      ensures Stored() && (ok <==> old(slotsUsed < indexSize) || (canAlloc && memory))
      ensures ok ==> slotsUsed < indexSize
    {
      if slotsUsed == indexSize {
        if !canAlloc || !memory {
          return false;
        }
        NewBlockIndex();
      }
      return true;
    }

    method MoveToBlock(next: nat)
      requires Stored() && FrontBlockDrained() && tailIndex % BLOCK_SIZE == 0 && next == ring[0]
      modifies this`blocks, this`tailBlock, this`indexFront, this`entries, this`publishedFront, this`ring
      ensures LaidOutFor(tailIndex + 1) && |ring| == |old(ring)|
    {
      ghost var o := Oldest();
      IndexedAfterReuse(entries, ring, o, indexFront);
      ReuseBlock(next);
      assert OldestAt(tailIndex + 1) == o + 1;
      AddEntry(next);
      assert OldestAt(tailIndex + 1) == o + 1;
      assert Indexed(entries, ring, o + 1, indexFront);
    }

    method AddBlock(spare: Block)
      requires Stored() && !FrontBlockDrained() && tailIndex % BLOCK_SIZE == 0 && Shaped(spare)
      requires slotsUsed < indexSize && RoomForBlock()
      modifies this`blocks, this`tailBlock, this`slotsUsed, this`indexFront, this`entries, this`publishedFront,
               this`ring
      ensures LaidOutFor(tailIndex + 1) && |ring| == |old(ring)| + 1
    {
      IndexedAfterInsert(entries, ring, Oldest(), indexFront, |blocks|);
      ghost var o := Oldest();
      InsertBlock(spare);
      AddEntry(tailBlock.value);
      assert OldestAt(tailIndex + 1) == o;
    }

    /** The block after tailBlock, if there is one and all its elements have been dequeued. */
    method Ahead() returns (next: Option<nat>)
      requires Stored() && tailIndex % BLOCK_SIZE == 0
      ensures next == if FrontBlockDrained() then Some(ring[0]) else None
    {
      next := None;
      if tailBlock.Some? {
        assert At(blocks, ring, |ring| - 1).next == ring[0];
        assert Represents(At(blocks, ring, 0), Oldest(), headIndex, contents);
        var empty := IsEmpty(blocks[tailBlock.value].next);
        if empty {
          assert blocks[ring[0]].emptyFlags[0];
          next := Some(blocks[tailBlock.value].next);
        }
      }
    }

    /** enqueue: adds `item` at the end, or changes nothing that a consumer can see. */
    method Enqueue(item: Item, canAlloc: bool, memory: bool, spare: Option<Block>) returns (ok: bool)
      requires Valid() && (spare.Some? ==> Shaped(spare.value))
      modifies this
      ensures Valid()
      ensures contents == if ok then old(contents) + [item] else old(contents)
      ensures ok <==>
                old(tailIndex % BLOCK_SIZE != 0 || FrontBlockDrained() || BlockCanBeAdded(canAlloc && memory, spare))
    {
      ok := BlockForTail(canAlloc, memory, spare);
      if ok {
        Append(item);
      }
    }

    /** A block for the element at tailIndex: the one in use, or a new one at a block boundary. */
    method BlockForTail(canAlloc: bool, memory: bool, spare: Option<Block>) returns (ok: bool)
      requires Stored() && (spare.Some? ==> Shaped(spare.value))
      modifies this`blocks, this`tailBlock, this`slotsUsed, this`indexSize, this`indexFront, this`entries,
               this`publishedFront, this`ring
      ensures ok <==>
                old(tailIndex % BLOCK_SIZE != 0 || FrontBlockDrained() || BlockCanBeAdded(canAlloc && memory, spare))
      ensures if ok then LaidOutFor(tailIndex + 1) else Stored()
    {
      if tailIndex % BLOCK_SIZE == 0 {
        ok := StartBlock(canAlloc, memory, spare);
      } else {
        assert OldestAt(tailIndex) == OldestAt(tailIndex + 1);
        ok := true;
      }
    }

    /** The second part of enqueue. */
    method Append(item: Item)
      requires headIndex <= tailIndex && |contents| == tailIndex - headIndex && LaidOutFor(tailIndex + 1)
      modifies this`blocks, this`tailIndex, this`contents
      ensures Stored() && contents == old(contents) + [item]
    {
      ghost var o := OldestAt(tailIndex + 1);
      ConstructKeepsLinked(blocks, ring, tailBlock, o, headIndex, contents, item);
      blocks := Construct(blocks, tailBlock.value, tailIndex, item);
      tailIndex, contents := tailIndex + 1, contents + [item];
      assert OldestAt(tailIndex) == o;
    }

    /** The part of dequeue that follows a successful claim. */
    method TakeHead() returns (item: Item)
      requires Stored() && headIndex < tailIndex
      modifies this`headIndex, this`blocks, this`contents
      ensures Stored() && headIndex == old(headIndex) + 1
      ensures old(contents) == [item] + contents
    {
      var index := headIndex;
      var block := BlockOf(index);
      TakeKeepsLinked(blocks, ring, tailBlock, Oldest(), index, contents, index / BLOCK_SIZE - Oldest());
      item := blocks[block].elements[index % BLOCK_SIZE];
      ghost var rest := contents[1..];
      var after := SetEmpty(blocks, block, index);
      headIndex, blocks, contents := index + 1, after, rest;
    }

    /** dequeue: false exactly when the queue is empty, otherwise the oldest element. */
    method Dequeue() returns (ok: bool, item: Item)
      requires Valid()
      modifies this
      ensures Valid() && ring == old(ring)
      ensures ok <==> old(contents) != []
      ensures ok ==> old(contents) == [item] + contents
      ensures !ok ==> contents == old(contents)
    {
      item := Item(0);
      var tail := tailIndex;
      var overcommit := dequeueOvercommit;
      if dequeueOptimisticCount - overcommit < tail {
        // Run alone, the second look at the counters repeats the first and cannot fail.
        dequeueOptimisticCount := dequeueOptimisticCount + 1;
        item := TakeHead();
        return true, item;
      }
      return false, item;
    }
  }

  /** Marking element `head` in the block that contains it, and leaving the other blocks alone. */
  lemma FlagsAfterTake(flags: seq<bool>, number: nat, head: nat)
    requires FlagsMatch(flags, number, head)
    ensures FlagsMatch(if number == head / BLOCK_SIZE then flags[FlagOf(head) := true] else flags, number, head + 1)
  {
  }

  /** Taking the oldest element: its block holds it, and the blocks then represent the rest. */
  lemma TakeKeepsLinked(blocks: seq<Block>, ring: seq<nat>, tail: Option<nat>, oldest: nat, head: nat,
                        contents: seq<Item>, j: nat)
    requires Linked(blocks, ring, tail, oldest, head, contents)
    requires j < |ring| && oldest + j == head / BLOCK_SIZE && contents != []
    ensures Shaped(blocks[ring[j]]) && blocks[ring[j]].elements[head % BLOCK_SIZE] == contents[0]
    ensures Linked(SetEmpty(blocks, ring[j], head), ring, tail, oldest, head + 1, contents[1..])
  {
    assert Represents(At(blocks, ring, j), oldest + j, head, contents);
    var after := SetEmpty(blocks, ring[j], head);
    forall i | 0 <= i < |ring|
      ensures Represents(At(after, ring, i), oldest + i, head + 1, contents[1..])
      ensures At(after, ring, i).next == At(blocks, ring, i).next
    {
      assert Represents(At(blocks, ring, i), oldest + i, head, contents);
      FlagsAfterTake(blocks[ring[i]].emptyFlags, oldest + i, head);
    }
  }

  /** The drained first block of the ring, with its flags cleared, becomes the last one. */
  lemma RotateKeepsLinked(blocks: seq<Block>, ring: seq<nat>, tail: Option<nat>, oldest: nat, head: nat,
                          contents: seq<Item>, after: seq<Block>)
    requires Linked(blocks, ring, tail, oldest, head, contents) && ring != []
    requires BLOCK_SIZE * (oldest + 1) <= head && head + |contents| == BLOCK_SIZE * (oldest + |ring|)
    requires |after| == |blocks|
    requires after == blocks[ring[0] := blocks[ring[0]].(emptyFlags := after[ring[0]].emptyFlags)]
    requires |after[ring[0]].emptyFlags| == BLOCK_SIZE
    requires forall f :: 0 <= f < BLOCK_SIZE ==> !after[ring[0]].emptyFlags[f]
    ensures Linked(after, ring[1..] + [ring[0]], Some(ring[0]), oldest + 1, head, contents)
  {
    var k := |ring|;
    var rotated := ring[1..] + [ring[0]];
    forall j | 0 <= j < k
      ensures Represents(At(after, rotated, j), oldest + 1 + j, head, contents)
      ensures At(after, rotated, j).next == rotated[if j + 1 < k then j + 1 else 0]
    {
      var i := if j + 1 < k then j + 1 else 0;
      assert rotated[j] == ring[i];
      assert Represents(At(blocks, ring, i), oldest + i, head, contents);
    }
  }

  lemma InsertKeepsLinked(blocks: seq<Block>, ring: seq<nat>, tail: Option<nat>, oldest: nat, head: nat,
                          contents: seq<Item>, spare: Block, after: seq<Block>)
    requires Linked(blocks, ring, tail, oldest, head, contents) && Shaped(spare)
    requires head + |contents| == BLOCK_SIZE * (oldest + |ring|)
    requires |after| == |blocks| + 1
    requires var inserted := Insert(blocks, tail, spare);
             after == inserted[|blocks| := inserted[|blocks|].(emptyFlags := after[|blocks|].emptyFlags)]
    requires |after[|blocks|].emptyFlags| == BLOCK_SIZE
    requires forall f :: 0 <= f < BLOCK_SIZE ==> !after[|blocks|].emptyFlags[f]
    ensures Linked(after, ring + [|blocks|], Some(|blocks|), oldest, head, contents)
  {
    var k := |ring|;
    var longer := ring + [|blocks|];
    forall j | 0 <= j <= k
      ensures Represents(At(after, longer, j), oldest + j, head, contents)
      ensures At(after, longer, j).next == longer[if j < k then j + 1 else 0]
    {
      if j < k {
        assert Represents(At(blocks, ring, j), oldest + j, head, contents);
        assert j < k - 1 ==> ring[j] != ring[k - 1];
      }
      if k > 0 {
        assert At(blocks, ring, k - 1).next == ring[0];
      }
    }
  }

  /** A new element at index head + |contents|, in the last block of the ring. */
  lemma ConstructKeepsLinked(blocks: seq<Block>, ring: seq<nat>, tail: Option<nat>, oldest: nat, head: nat,
                             contents: seq<Item>, item: Item)
    requires Linked(blocks, ring, tail, oldest, head, contents)
    requires ring != [] && (head + |contents|) / BLOCK_SIZE == oldest + |ring| - 1
    ensures Shaped(blocks[ring[|ring| - 1]])
    ensures Linked(Construct(blocks, ring[|ring| - 1], head + |contents|, item), ring, tail, oldest, head,
                   contents + [item])
  {
    var k := |ring|;
    assert Represents(At(blocks, ring, k - 1), oldest + (k - 1), head, contents);
    var after := Construct(blocks, ring[k - 1], head + |contents|, item);
    forall j | 0 <= j < k
      ensures Represents(At(after, ring, j), oldest + j, head, contents + [item])
      ensures At(after, ring, j).next == At(blocks, ring, j).next
    {
      assert Represents(At(blocks, ring, j), oldest + j, head, contents);
      assert j < k - 1 ==> ring[j] != ring[k - 1];
    }
  }

  /** Overwriting the oldest entry, when its block becomes the newest one. */
  lemma IndexedAfterReuse(entries: seq<Entry>, ring: seq<nat>, oldest: int, front: nat)
    requires Indexed(entries, ring, oldest, front) && ring != []
    ensures Indexed(entries[front := Entry(BLOCK_SIZE * (oldest + |ring|), ring[0])], ring[1..] + [ring[0]],
                    oldest + 1, Wrap(front + 1, |entries|))
  {
    var k, size := |ring|, |entries|;
    var rotated := ring[1..] + [ring[0]];
    forall j | 0 <= j < k
      ensures entries[front := Entry(BLOCK_SIZE * (oldest + k), ring[0])][SlotOf(Wrap(front + 1, size), k, j, size)]
           == Entry(BLOCK_SIZE * (oldest + 1 + j), rotated[j])
    {
      if j + 1 < k {
        assert SlotOf(Wrap(front + 1, size), k, j, size) == SlotOf(front, k, j + 1, size) != front;
      }
    }
  }

  lemma IndexedAfterInsert(entries: seq<Entry>, ring: seq<nat>, oldest: int, front: nat, b: nat)
    requires Indexed(entries, ring, oldest, front) && |ring| < |entries|
    ensures Indexed(entries[front := Entry(BLOCK_SIZE * (oldest + |ring|), b)], ring + [b], oldest,
                    Wrap(front + 1, |entries|))
  {
    var k, size := |ring|, |entries|;
    forall j | 0 <= j <= k
      ensures entries[front := Entry(BLOCK_SIZE * (oldest + k), b)][SlotOf(Wrap(front + 1, size), k + 1, j, size)]
           == Entry(BLOCK_SIZE * (oldest + j), (ring + [b])[j])
    {
      if j < k {
        assert SlotOf(Wrap(front + 1, size), k + 1, j, size) == SlotOf(front, k, j, size) != front;
      }
    }
  }

  /** The entries copied to the front of a larger index still index the ring. */
  lemma IndexedFromStart(entries: seq<Entry>, ring: seq<nat>, oldest: int, front: nat, bigger: seq<Entry>)
    requires Indexed(entries, ring, oldest, front) && |ring| < |bigger|
    requires forall q :: 0 <= q < |ring| ==> bigger[q] == entries[SlotOf(front, |ring|, q, |entries|)]
    ensures Indexed(bigger, ring, oldest, |ring|)
  {
    forall q | 0 <= q < |ring|
      ensures bigger[SlotOf(|ring|, |ring|, q, |bigger|)] == Entry(BLOCK_SIZE * (oldest + q), ring[q])
    {
      assert SlotOf(|ring|, |ring|, q, |bigger|) == q;
    }
  }

  // Whole runs

  datatype Op = Enq(item: Item, canAlloc: bool, memory: bool, spare: Option<Block>) | Deq

  datatype Answer = Accepted(ok: bool) | Taken(item: Option<Item>)

  /** One step of an ideal queue that may refuse items; None if it would not have given `answer`. */
  ghost function IdealStep(queue: seq<Item>, op: Op, answer: Answer): Option<seq<Item>> {
    match op
    case Enq(item, _, _, _) =>
      if answer == Accepted(true) then Some(queue + [item])
      else if answer == Accepted(false) then Some(queue)
      else None
    case Deq =>
      if queue == [] then (if answer == Taken(None) then Some([]) else None)
      else if answer == Taken(Some(queue[0])) then Some(queue[1..]) else None
  }

  /** The contents of the ideal queue after `ops`, if it would have given `answers`. */
  ghost function Replay(ops: seq<Op>, answers: seq<Answer>): Option<seq<Item>>
    requires |ops| == |answers|
  {
    if ops == [] then Some([]) else
      var n := |ops| - 1;
      var before := Replay(ops[..n], answers[..n]);
      if before == None then None else IdealStep(before.value, ops[n], answers[n])
  }

  ghost function AcceptedItems(ops: seq<Op>, answers: seq<Answer>): seq<Item>
    requires |ops| == |answers|
  {
    if ops == [] then [] else
      var n := |ops| - 1;
      AcceptedItems(ops[..n], answers[..n]) + if ops[n].Enq? && answers[n] == Accepted(true) then [ops[n].item] else []
  }

  ghost function TakenItems(answers: seq<Answer>): seq<Item> {
    if answers == [] then [] else
      var n := |answers| - 1;
      TakenItems(answers[..n]) + if answers[n].Taken? && answers[n].item.Some? then [answers[n].item.value] else []
  }

  /** What went in came out in the same order, or is still there. */
  lemma {:induction false} ReplayIsFifo(ops: seq<Op>, answers: seq<Answer>)
    requires |ops| == |answers| && Replay(ops, answers).Some?
    ensures AcceptedItems(ops, answers) == TakenItems(answers) + Replay(ops, answers).value
  {
    if ops != [] {
      var n := |ops| - 1;
      ReplayIsFifo(ops[..n], answers[..n]);
    }
  }

  method Perform(p: Producer, op: Op) returns (answer: Answer)
    requires p.Valid() && (op.Enq? && op.spare.Some? ==> Shaped(op.spare.value))
    modifies p
    ensures p.Valid() && IdealStep(old(p.contents), op, answer) == Some(p.contents)
  {
    match op {
      case Enq(item, canAlloc, memory, spare) =>
        var ok := p.Enqueue(item, canAlloc, memory, spare);
        answer := Accepted(ok);
      case Deq =>
        var ok, item := p.Dequeue();
        answer := Taken(if ok then Some(item) else None);
    }
  }

  /** Every run of one producer, from an empty queue, answers as a FIFO queue. */
  method Run(initialSize: nat, maxSize: Option<nat>, ops: seq<Op>) returns (answers: seq<Answer>)
    requires 0 < initialSize && (maxSize.Some? ==> maxSize.value % BLOCK_SIZE == 0)
    requires forall i :: 0 <= i < |ops| && ops[i].Enq? && ops[i].spare.Some? ==> Shaped(ops[i].spare.value)
    ensures |answers| == |ops| && Replay(ops, answers).Some?
    ensures AcceptedItems(ops, answers) == TakenItems(answers) + Replay(ops, answers).value
    ensures maxSize.Some? ==> |Replay(ops, answers).value| <= maxSize.value
  {
    var p := new Producer(initialSize, maxSize);
    answers := [];
    var i := 0;
    while i < |ops|
      invariant 0 <= i <= |ops| && |answers| == i && fresh(p) && p.Valid() && p.maxSize == maxSize
      invariant Replay(ops[..i], answers) == Some(p.contents)
    {
      ghost var before := answers;
      var answer := Perform(p, ops[i]);
      answers := answers + [answer];
      assert ops[..i + 1][..i] == ops[..i] && answers[..i] == before;
      i := i + 1;
    }
    assert ops[..i] == ops;
    ReplayIsFifo(ops, answers);
    p.SizeIsLimited();
  }
}
