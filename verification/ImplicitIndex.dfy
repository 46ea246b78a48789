/** The circular block index of an implicit producer: insertion, lookup, growth, release of drained blocks and
    the roll-back of a failed enqueue_bulk. Indices are unbounded; CircularIndex justifies that. */
module ImplicitIndex {
  import opened CircularIndex
  import opened Wrappers

  /** INVALID_BLOCK_BASE: never the base of a block. */
  const INVALID_BASE: int := 1

  datatype Entry = Entry(key: int, value: Option<nat>)

  /** What one round of block allocation meets: the size limit, memory for a larger index, a block. */
  datatype Chance = Chance(full: bool, memory: bool, block: Option<nat>)

  /** The slot `i` places before `tail`. */
  function Back(tail: int, i: int, capacity: int): (r: nat)
    requires 0 <= tail < capacity && -capacity < i <= capacity
    ensures r < capacity
  {
    Wrap(tail - i, capacity)
  }

  lemma BackInjective(tail: int, i: int, j: int, capacity: int)
    requires 0 <= tail < capacity && 0 <= i < capacity && 0 <= j < capacity
    ensures Back(tail, i, capacity) == Back(tail, j, capacity) ==> i == j
  {
  }

  /** The `n` entries up to slot `tail` carry consecutive bases, ending with `newest`. */
  ghost predicate Consecutive(index: seq<Entry>, tail: int, n: nat, newest: int) {
    && 0 <= tail < |index| && n <= |index| && newest % BLOCK_SIZE == 0
    && forall i {:trigger Back(tail, i, |index|)} :: 0 <= i < n ==>
         index[Back(tail, i, |index|)].key == newest - BLOCK_SIZE * i
  }

  /** Entries more than `n` places back are free. */
  ghost predicate RestFree(index: seq<Entry>, tail: int, n: nat) {
    && 0 <= tail < |index| && n <= |index|
    && forall i {:trigger Back(tail, i, |index|)} :: n <= i < |index| ==>
         index[Back(tail, i, |index|)].key == INVALID_BASE || index[Back(tail, i, |index|)].value == None
  }

  /** The position of `base`, counted back from the newest entry. */
  ghost function Age(newest: int, base: int): int { (newest - base) / BLOCK_SIZE }

  /** Of the last `n` entries without the `skip` newest, exactly those of `live` have a block, and its block. */
  ghost predicate Holds(index: seq<Entry>, tail: int, n: nat, newest: int, skip: nat, live: map<int, nat>) {
    && 0 <= tail < |index| && n <= |index|
    && (forall i {:trigger Back(tail, i, |index|)} :: skip <= i < n ==>
          index[Back(tail, i, |index|)].value
          == if newest - BLOCK_SIZE * i in live then Some(live[newest - BLOCK_SIZE * i]) else None)
    && forall b :: b in live ==> b % BLOCK_SIZE == 0 && skip <= Age(newest, b) < n
  }

  class BlockIndex {
    var capacity: nat
    var tail: nat
    var index: seq<Entry>
    var nextCapacity: nat

    ghost var count: nat            // how many entries up to tail have consecutive bases
    ghost var newest: int           // base of the newest entry, or -32
    ghost var live: map<int, nat>   // the blocks in the index, by base

    ghost predicate Shape()
      reads this
    {
      && 0 < capacity == |index| && nextCapacity == 2 * capacity && tail < capacity && count <= capacity
      && Consecutive(index, tail, count, newest)
      && RestFree(index, tail, count)
    }

    /** No insertion in progress. */
    ghost predicate Valid()
      reads this
    {
      Shape() && Holds(index, tail, count, newest, 0, live)
    }

    /** The newest entry has been inserted and its block is not yet stored. */
    ghost predicate Pending()
      reads this
    {
      Shape() && 0 < count && Holds(index, tail, count, newest, 1, live)
    }

    constructor (initialCapacity: nat, stale: nat -> Option<nat>)
      requires 0 < initialCapacity
      ensures Valid() && live == map[] && newest == -32
    {
      capacity, nextCapacity := initialCapacity, 2 * initialCapacity;
      tail := initialCapacity - 1;
      index := seq(initialCapacity, i requires 0 <= i => Entry(INVALID_BASE, stale(i)));
      count, newest, live := 0, -32, map[];
    }

    /** get_block_index_index_for_index. The asserted conditions of the code are the postconditions. */
    method Lookup(elementIndex: nat) returns (idx: nat)
      requires Valid() || Pending()
      requires elementIndex - elementIndex % BLOCK_SIZE in live
      ensures index[tail].key != INVALID_BASE
      ensures idx < |index| && idx == Back(tail, Age(newest, elementIndex - elementIndex % BLOCK_SIZE), capacity)
      ensures index[idx] == Entry(elementIndex - elementIndex % BLOCK_SIZE,
                                  Some(live[elementIndex - elementIndex % BLOCK_SIZE]))
    {
      var base := elementIndex - elementIndex % BLOCK_SIZE;
      idx := Find(base, tail, count, newest, 0);
    }

    /** The lookup, also while `rewound` entries of a failed operation have been taken back. */
    method Find(base: int, ghost last: nat, ghost n: nat, ghost newestBase: int, ghost rewound: nat) returns (idx: nat)
      requires 0 < capacity == |index| && Consecutive(index, last, n, newestBase)
      requires rewound < n && tail == Back(last, rewound, capacity)
      requires base % BLOCK_SIZE == 0 && 0 <= Age(newestBase, base) < n
      ensures index[tail].key != INVALID_BASE
      ensures idx == Back(last, Age(newestBase, base), capacity) && index[idx].key == base
    {
      var tailBase := index[tail].key;
      var offset := (base - tailBase) / BLOCK_SIZE;
      assert offset == rewound - Age(newestBase, base);
      idx := Wrap(tail + offset, capacity);
      assert idx == Back(last, Age(newestBase, base), capacity);
    }

    /** insert_block_index_entry: claims an entry for the next base. */
    method InsertEntry(base: int, canAlloc: bool, memory: bool, stale: nat -> Option<nat>) returns (ok: bool)
      requires Valid() && base == newest + BLOCK_SIZE
      modifies this
      ensures live == old(live)
      ensures ok ==> Pending() && newest == base
      ensures !ok ==> Valid() && newest == old(newest)
      ensures old(SlotFree()) || (canAlloc && memory) <==> ok
    {
      var newTail := Wrap(tail + 1, capacity);
      if index[newTail].key == INVALID_BASE || index[newTail].value == None {
        Claim(newTail, base);
        return true;
      }
      if !canAlloc || !memory {
        return false;
      }
      Grow(stale);
      newTail := Wrap(tail + 1, capacity);
      Claim(newTail, base);
      return true;
    }

    ghost predicate SlotFree()
      requires tail < capacity == |index|
      reads this
    {
      var e := index[Wrap(tail + 1, capacity)];
      e.key == INVALID_BASE || e.value == None
    }

    method Claim(newTail: nat, base: int)
      requires Valid() && newTail == Wrap(tail + 1, capacity) && base == newest + BLOCK_SIZE && SlotFree()
      modifies this`index, this`tail, this`count, this`newest
      ensures Pending() && newest == base
    {
      ClaimKeepsOrder(index, tail, count, newest);
      ClaimHolds(index, tail, count, newest, live);
      index := index[newTail := index[newTail].(key := base)];
      tail := newTail;
      count, newest := if count == capacity then count else count + 1, base;
    }

    /** new_block_index: twice the room, with the old entries in ring order at the front. */
    method Grow(stale: nat -> Option<nat>)
      requires Valid()
      modifies this`index, this`tail, this`capacity, this`nextCapacity
      ensures Valid() && capacity == 2 * old(capacity) && SlotFree()
    {
      var larger := CopyRing();
      var added := seq(capacity, i requires 0 <= i => Entry(INVALID_BASE, stale(i)));
      GrowKeepsOrder(index, tail, count, newest, live, larger, added);
      index := larger + added;
      tail := capacity - 1;
      capacity := nextCapacity;
      nextCapacity := 2 * nextCapacity;
    }

    /** The copy loop of new_block_index. */
    method CopyRing() returns (larger: seq<Entry>)
      requires tail < capacity == |index|
      ensures |larger| == capacity
      ensures forall j {:trigger larger[j]} :: 0 <= j < capacity ==>
                larger[j] == index[Back(tail, capacity - 1 - j, capacity)]
    {
      larger := [];
      var prevPos := Wrap(tail + 1, capacity);
      larger := [index[prevPos]];
      while prevPos != tail
        invariant 1 <= |larger| <= capacity && prevPos == Back(tail, capacity - |larger|, capacity)
        invariant forall j {:trigger larger[j]} :: 0 <= j < |larger| ==>
                    larger[j] == index[Back(tail, capacity - 1 - j, capacity)]
        decreases capacity - |larger|
      {
        prevPos := Wrap(prevPos + 1, capacity);
        larger := larger + [index[prevPos]];
      }
    }

    /** The block for the pending entry is there. */
    method Publish(block: nat)
      requires Pending()
      modifies this`index, this`live
      ensures Valid() && live == old(live)[newest := block]
    {
      PublishHolds(index, tail, count, newest, live, block);
      index := index[tail := index[tail].(value := Some(block))];
      live := live[newest := block];
    }

    /** There is no block: rewind_block_index_tail, and the entry is cleared. */
    method Abandon()
      requires Pending()
      modifies this`index, this`tail, this`count, this`newest
      ensures Valid() && newest == old(newest) - BLOCK_SIZE
    {
      AbandonHolds(index, tail, count, newest, live);
      var entry := tail;
      tail := Wrap(tail - 1, capacity);
      index := index[entry := index[entry].(value := None)];
      count, newest := count - 1, newest - BLOCK_SIZE;
    }

    /** A consumer that finished the last element of a block takes it out of the index. */
    method Release(elementIndex: nat)
      requires Valid() && elementIndex - elementIndex % BLOCK_SIZE in live
      modifies this`index, this`live
      ensures Valid() && live == old(live) - {elementIndex - elementIndex % BLOCK_SIZE}
    {
      var idx := Lookup(elementIndex);
      ReleaseHolds(index, tail, count, newest, live, elementIndex - elementIndex % BLOCK_SIZE);
      index := index[idx := index[idx].(value := None)];
      live := live - {elementIndex - elementIndex % BLOCK_SIZE};
    }

    /** The undo loop of enqueue_bulk: takes the last `rounds` blocks, those after base `start`, out of the index. */
    method RollBack(start: int, rounds: nat)
      requires Valid() && newest == start + BLOCK_SIZE * rounds
      requires forall m :: 0 <= m < rounds ==> NthBase(start, m) in live
      modifies this`index, this`tail, this`count, this`newest, this`live
      ensures Valid() && newest == start && live == UpTo(old(live), start)
    {
      if rounds > 0 {
        assert NthBase(start, 0) in live;
      }
      ClearNewest(start, rounds);
      RolledBackOrder(old(index), index, old(tail), count, newest, rounds);
      RolledBackHolds(old(index), index, old(tail), count, newest, live, rounds);
      count, newest := count - rounds, start;
      live := UpTo(live, start);
    }

    method ClearNewest(start: int, rounds: nat)
      requires 0 < capacity == |index| && Consecutive(index, tail, count, newest)
      requires rounds <= count && newest == start + BLOCK_SIZE * rounds
      modifies this`index, this`tail
      ensures Cleared(old(index), index, old(tail), 0, rounds) && tail == Back(old(tail), rounds, capacity)
    {
      var m, base := 0, start;
      while m < rounds
        invariant 0 <= m <= rounds && |index| == capacity && tail == Back(old(tail), m, capacity)
        invariant base == start + BLOCK_SIZE * m
        invariant Cleared(old(index), index, old(tail), rounds - m, rounds)
      {
        base := base + BLOCK_SIZE;
        ClearOne(base, old(index), old(tail), m, rounds);
        m := m + 1;
      }
    }

    /** One round of the undo loop, after `m` rounds; `first` and `last` are the index and tail it started with. */
    method ClearOne(base: int, ghost first: seq<Entry>, ghost last: nat, ghost m: nat, ghost rounds: nat)
      requires 0 < capacity == |index| == |first| && Consecutive(first, last, count, newest)
      requires m < rounds <= count && tail == Back(last, m, capacity) && base == newest - BLOCK_SIZE * (rounds - m - 1)
      requires Cleared(first, index, last, rounds - m, rounds)
      modifies this`index, this`tail
      ensures |index| == capacity && tail == Back(last, m + 1, capacity)
      ensures Cleared(first, index, last, rounds - m - 1, rounds)
    {
      ClearedKeepsOrder(first, index, last, rounds - m, rounds, count, newest);
      var idx := Find(base, last, count, newest, m);
      ClearOneMore(first, index, last, rounds - m, rounds);
      index := index[idx := index[idx].(value := None)];
      tail := Wrap(tail - 1, capacity);
    }

    /** The allocation loop of enqueue_bulk: `chances[i]` is what round i meets, `start` the
        base of the block before. All rounds succeed, or none counts. */
    method PreAllocate(start: int, canAlloc: bool, chances: seq<Chance>, stale: nat -> Option<nat>) returns (ok: bool)
      requires Valid() && start == newest
      modifies this
      ensures Valid()
      ensures !ok ==> newest == old(newest) && live == old(live)
      ensures ok ==> newest == old(newest) + BLOCK_SIZE * |chances| && UpTo(live, old(newest)) == old(live)
      ensures ok ==> forall i :: 0 <= i < |chances| ==>
                && chances[i].block.Some? && NthBase(old(newest), i) in live
                && live[NthBase(old(newest), i)] == chances[i].block.value
    {
      LiveUpToNewest();
      var i := 0;
      while i < |chances|
        invariant 0 <= i <= |chances| && Valid() && newest == start + BLOCK_SIZE * i
        invariant UpTo(live, start) == old(live)
        invariant forall j :: 0 <= j < i ==>
                    && chances[j].block.Some? && NthBase(start, j) in live
                    && live[NthBase(start, j)] == chances[j].block.value
      {
        ok := AllocateOne(start + BLOCK_SIZE * (i + 1), canAlloc, chances[i], stale);
        if !ok {
          RollBack(start, i);
          return false;
        }
        i := i + 1;
      }
      return true;
    }

    /** One round: the size limit, the index entry, the block. */
    method AllocateOne(base: int, canAlloc: bool, chance: Chance, stale: nat -> Option<nat>) returns (ok: bool)
      requires Valid() && base == newest + BLOCK_SIZE
      modifies this
      ensures Valid()
      ensures ok <==> !chance.full && (old(SlotFree()) || (canAlloc && chance.memory)) && chance.block.Some?
      ensures ok ==> newest == base && live == old(live)[base := chance.block.value]
      ensures !ok ==> newest == old(newest) && live == old(live)
    {
      if chance.full {
        return false;
      }
      ok := InsertEntry(base, canAlloc, chance.memory, stale);
      if !ok {
        return false;
      }
      if chance.block == None {
        Abandon();
        return false;
      }
      Publish(chance.block.value);
    }

    lemma LiveUpToNewest()
      requires Valid()
      ensures UpTo(live, newest) == live
    {
      assert forall b :: b in live ==> 0 <= Age(newest, b);
    }
  }

  /** The base of block `i` after `start`. */
  function NthBase(start: int, i: nat): int { start + BLOCK_SIZE * (i + 1) }

  /** The blocks with bases up to `limit`. */
  ghost function UpTo(live: map<int, nat>, limit: int): map<int, nat> {
    map b | b in live && b <= limit :: live[b]
  }

  /** `after` is `index` with the blocks of ages from `lo` to `hi - 1` cleared. */
  ghost predicate Cleared(index: seq<Entry>, after: seq<Entry>, tail: int, lo: int, hi: int) {
    && |after| == |index| && 0 <= tail < |index|
    && forall i {:trigger Back(tail, i, |index|)} :: 0 <= i < |index| ==>
         after[Back(tail, i, |index|)]
         == if lo <= i < hi then index[Back(tail, i, |index|)].(value := None) else index[Back(tail, i, |index|)]
  }

  lemma ClearedKeepsOrder(index: seq<Entry>, after: seq<Entry>, tail: int, lo: int, hi: int, n: nat, newest: int)
    requires Consecutive(index, tail, n, newest) && Cleared(index, after, tail, lo, hi)
    ensures Consecutive(after, tail, n, newest)
  {
  }

  lemma ClearOneMore(index: seq<Entry>, after: seq<Entry>, tail: int, lo: int, hi: int)
    requires Cleared(index, after, tail, lo, hi) && 0 < lo <= hi <= |index|
    ensures var idx := Back(tail, lo - 1, |index|);
            Cleared(index, after[idx := after[idx].(value := None)], tail, lo - 1, hi)
  {
    forall i | 0 <= i < |index| ensures Back(tail, i, |index|) == Back(tail, lo - 1, |index|) <==> i == lo - 1 {
      BackInjective(tail, i, lo - 1, |index|);
    }
  }

  /** The slots counted back from the slot `r` places before `tail`. */
  lemma BackFromEarlier(tail: nat, size: nat, r: nat, i: nat)
    requires tail < size && i < size && r <= size
    ensures Back(Back(tail, r, size), i, size) == Back(tail, if r + i < size then r + i else r + i - size, size)
  {
  }

  lemma RolledBackOrder(index: seq<Entry>, after: seq<Entry>, tail: nat, n: nat, newest: int, r: nat)
    requires Consecutive(index, tail, n, newest) && RestFree(index, tail, n)
    requires r <= n && Cleared(index, after, tail, 0, r)
    ensures Consecutive(after, Back(tail, r, |index|), n - r, newest - BLOCK_SIZE * r)
    ensures RestFree(after, Back(tail, r, |index|), n - r)
  {
    var size := |index|;
    var earlier := Back(tail, r, size);
    forall i | 0 <= i < size
      ensures i < n - r ==> after[Back(earlier, i, size)].key == newest - BLOCK_SIZE * r - BLOCK_SIZE * i
      ensures n - r <= i ==>
                after[Back(earlier, i, size)].key == INVALID_BASE || after[Back(earlier, i, size)].value == None
    {
      BackFromEarlier(tail, size, r, i);
      var k := if r + i < size then r + i else r + i - size;
      assert Back(tail, k, size) == Back(earlier, i, size);
    }
  }

  lemma RolledBackHolds(index: seq<Entry>, after: seq<Entry>, tail: nat, n: nat, newest: int, live: map<int, nat>,
                        r: nat)
    requires newest % BLOCK_SIZE == 0 && Holds(index, tail, n, newest, 0, live)
    requires r <= n && Cleared(index, after, tail, 0, r)
    ensures Holds(after, Back(tail, r, |index|), n - r, newest - BLOCK_SIZE * r, 0, UpTo(live, newest - BLOCK_SIZE * r))
  {
    var size := |index|;
    var earlier := Back(tail, r, size);
    forall i | 0 <= i < n - r
      ensures after[Back(earlier, i, size)].value == index[Back(tail, r + i, size)].value
      ensures newest - BLOCK_SIZE * (r + i) == newest - BLOCK_SIZE * r - BLOCK_SIZE * i
    {
      BackFromEarlier(tail, size, r, i);
    }
    forall b | b in live && b <= newest - BLOCK_SIZE * r
      ensures 0 <= Age(newest - BLOCK_SIZE * r, b) < n - r
    {
      assert Age(newest - BLOCK_SIZE * r, b) == Age(newest, b) - r;
    }
  }

  /** The slots counted back from the slot after `tail`. */
  lemma BackFromNext(tail: nat, size: nat, i: nat)
    requires tail < size && i < size
    ensures Back(Wrap(tail + 1, size), i, size) == if i == 0 then Wrap(tail + 1, size) else Back(tail, i - 1, size)
    ensures 0 < i ==> Back(tail, i - 1, size) != Wrap(tail + 1, size)
    ensures Wrap(tail + 1, size) == Back(tail, size - 1, size)
  {
  }

  lemma ClaimKeepsOrder(index: seq<Entry>, tail: nat, n: nat, newest: int)
    requires Consecutive(index, tail, n, newest) && RestFree(index, tail, n)
    ensures var newTail := Wrap(tail + 1, |index|);
            var after := index[newTail := index[newTail].(key := newest + BLOCK_SIZE)];
            var m := if n == |index| then n else n + 1;
            Consecutive(after, newTail, m, newest + BLOCK_SIZE) && RestFree(after, newTail, m)
  {
    var size := |index|;
    var newTail := Wrap(tail + 1, size);
    var after := index[newTail := index[newTail].(key := newest + BLOCK_SIZE)];
    forall i | 0 <= i < size
      ensures after[Back(newTail, i, size)]
           == if i == 0 then index[newTail].(key := newest + BLOCK_SIZE) else index[Back(tail, i - 1, size)]
      ensures 0 < i <= n ==> index[Back(tail, i - 1, size)].key == newest - BLOCK_SIZE * (i - 1)
    {
      BackFromNext(tail, size, i);
    }
  }

  lemma ClaimHolds(index: seq<Entry>, tail: nat, n: nat, newest: int, live: map<int, nat>)
    requires Consecutive(index, tail, n, newest) && Holds(index, tail, n, newest, 0, live)
    requires var e := index[Wrap(tail + 1, |index|)]; e.key == INVALID_BASE || e.value == None
    ensures var newTail := Wrap(tail + 1, |index|);
            Holds(index[newTail := index[newTail].(key := newest + BLOCK_SIZE)], newTail,
                  if n == |index| then n else n + 1, newest + BLOCK_SIZE, 1, live)
  {
    var size := |index|;
    var newTail := Wrap(tail + 1, size);
    var after := index[newTail := index[newTail].(key := newest + BLOCK_SIZE)];
    forall i | 1 <= i < size
      ensures after[Back(newTail, i, size)] == index[Back(tail, i - 1, size)]
    {
      BackFromNext(tail, size, i);
    }
    forall b | b in live
      ensures Age(newest + BLOCK_SIZE, b) == Age(newest, b) + 1 && Age(newest, b) != size - 1
    {
      BackFromNext(tail, size, 0);
      LiveEntry(index, tail, n, newest, live, b);
    }
  }

  lemma LiveEntry(index: seq<Entry>, tail: nat, n: nat, newest: int, live: map<int, nat>, b: int)
    requires Consecutive(index, tail, n, newest) && Holds(index, tail, n, newest, 0, live) && b in live
    ensures 0 <= Age(newest, b) < n && index[Back(tail, Age(newest, b), |index|)] == Entry(b, Some(live[b]))
  {
    assert newest - BLOCK_SIZE * Age(newest, b) == b;
  }

  lemma GrowKeepsOrder(index: seq<Entry>, tail: nat, n: nat, newest: int, live: map<int, nat>, larger: seq<Entry>,
                       added: seq<Entry>)
    requires Consecutive(index, tail, n, newest) && RestFree(index, tail, n) && Holds(index, tail, n, newest, 0, live)
    requires |larger| == |added| == |index|
    requires forall j {:trigger larger[j]} :: 0 <= j < |larger| ==>
               larger[j] == index[Back(tail, |index| - 1 - j, |index|)]
    requires forall j :: 0 <= j < |added| ==> added[j].key == INVALID_BASE
    ensures Consecutive(larger + added, |index| - 1, n, newest) && RestFree(larger + added, |index| - 1, n)
    ensures Holds(larger + added, |index| - 1, n, newest, 0, live)
  {
    var size := |index|;
    forall i | 0 <= i < 2 * size
      ensures i < size ==> (larger + added)[Back(size - 1, i, 2 * size)] == index[Back(tail, i, size)]
      ensures i >= size ==> (larger + added)[Back(size - 1, i, 2 * size)].key == INVALID_BASE
    {
      if i < size {
        assert Back(size - 1, i, 2 * size) == size - 1 - i;
        assert larger[size - 1 - i] == index[Back(tail, i, size)];
      } else {
        assert (larger + added)[Back(size - 1, i, 2 * size)] == added[Back(size - 1, i, 2 * size) - size];
      }
    }
  }

  lemma PublishHolds(index: seq<Entry>, tail: nat, n: nat, newest: int, live: map<int, nat>, block: nat)
    requires Consecutive(index, tail, n, newest) && RestFree(index, tail, n) && 0 < n
    requires Holds(index, tail, n, newest, 1, live)
    ensures var after := index[tail := index[tail].(value := Some(block))];
            && Consecutive(after, tail, n, newest) && RestFree(after, tail, n)
            && Holds(after, tail, n, newest, 0, live[newest := block])
  {
    assert tail == Back(tail, 0, |index|);
    forall i | 0 < i < |index| ensures Back(tail, i, |index|) != tail {
    }
  }

  lemma AbandonHolds(index: seq<Entry>, tail: nat, n: nat, newest: int, live: map<int, nat>)
    requires Consecutive(index, tail, n, newest) && RestFree(index, tail, n) && 0 < n
    requires Holds(index, tail, n, newest, 1, live)
    ensures var after := index[tail := index[tail].(value := None)];
            var before := Wrap(tail - 1, |index|);
            && Consecutive(after, before, n - 1, newest - BLOCK_SIZE) && RestFree(after, before, n - 1)
            && Holds(after, before, n - 1, newest - BLOCK_SIZE, 0, live)
  {
    var size := |index|;
    var before := Wrap(tail - 1, size);
    forall i | 0 <= i < size
      ensures Back(before, i, size) == if i == size - 1 then tail else Back(tail, i + 1, size)
      ensures i < size - 1 ==> Back(tail, i + 1, size) != tail
    {
    }
    forall b | b in live ensures Age(newest - BLOCK_SIZE, b) == Age(newest, b) - 1 {
    }
  }

  lemma ReleaseHolds(index: seq<Entry>, tail: nat, n: nat, newest: int, live: map<int, nat>, base: int)
    requires Consecutive(index, tail, n, newest) && RestFree(index, tail, n)
    requires Holds(index, tail, n, newest, 0, live) && base in live
    ensures var idx := Back(tail, Age(newest, base), |index|);
            var after := index[idx := index[idx].(value := None)];
            && Consecutive(after, tail, n, newest) && RestFree(after, tail, n)
            && Holds(after, tail, n, newest, 0, live - {base})
  {
    var size := |index|;
    var a := Age(newest, base);
    forall i | 0 <= i < size ensures Back(tail, i, size) == Back(tail, a, size) <==> i == a {
      BackInjective(tail, i, a, size);
    }
  }
}
