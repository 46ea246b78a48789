/** Lookups in the block index of an implicit producer while the producer changes it: every load and store of the
    entries, of the tails and of the pointer to the current header is one step, and steps of the producer and of any
    number of consumers interleave arbitrarily.

    An index is a chain of headers. A growth makes a header of twice the capacity whose slots point to the entries of
    the old one, oldest first, and to new entries; consumers may go on using the old header. Blocks are numbered:
    block n covers the indices from n * 32 on. */
module IndexLookup {
  import opened Arithmetic
  import opened Wrappers

  /** `key` is the number of a block, None for INVALID_BLOCK_BASE; `value` the block itself. */
  datatype Entry = Entry(key: Option<int>, value: Option<nat>)

  /** `slots` points to entries. `shift` is only for the proof: an entry with key n sits in slot n + shift. */
  datatype Header = Header(capacity: nat, tail: nat, slots: seq<nat>, shift: int)

  /** The producer's next access. */
  datatype ProducerPc =
    | Ready
    | KeyStored                                         // insert_block_index_entry: the tail comes next
    | Pending                                           // inserted; the block is still to be requisitioned
    | Abandoned                                         // no block: tail rewound, the value is to be cleared
    | Rolling(next: int, last: int, cleared: bool)      // a bulk call gives up the blocks from `next` to `last`

  /** A consumer works on the blocks from `b` to `last`: one block unless it is a bulk call. */
  datatype Pc =
    | Idle
    | LoadHeader(b: int, last: int)
    | LoadTail(b: int, last: int, h: nat)
    | LoadKey(b: int, last: int, h: nat, tail: nat)
    | LoadEntry(b: int, last: int, h: nat, tail: nat, key: int)
    | Found(b: int, last: int, h: nat, i: nat)          // block b is taken from slot i
    | Finished(b: int, last: int, h: nat, i: nat)       // block b is done with, perhaps given back

  /** A block in the index, the entry it is in, and the header that was current when it was put there. */
  datatype Live = Live(block: nat, entry: nat, birth: nat)

  /** `newest` is the last block in the index and `visible` the first whose elements are not yet published; `low` is the
      first block whose entry has not been taken again. `live` has the blocks that were stored and not given back. */
  datatype State = State(entries: seq<Entry>, headers: seq<Header>, pc: ProducerPc, newest: int, visible: int, low: int,
                         live: map<int, Live>, consumers: seq<Pc>)

  datatype Action =
    | StoreKey | StoreTail | StoreValue(block: nat)                  // insert_block_index_entry and enqueue
    | RewindTail | ClearPending                                      // no block could be had
    | Grow(stale: seq<Option<nat>>)                                  // new_block_index, up to its last store
    | Publish                                                        // tailIndex.store
    | StartRollBack | ClearBlock | RewindBlock                       // a bulk call undoes its insertions
    | Look(t: nat, b: int, last: int) | Load(t: nat)                 // get_block_index_index_for_index
    | GiveBack(t: nat) | Keep(t: nat) | Next(t: nat)                 // entry value := null; or not; the next block

  predicate Free(e: Entry) { e.key.None? || e.value.None? }

  function Last(s: State): nat
    requires s.headers != []
  {
    |s.headers| - 1
  }

  function Cur(s: State): Header
    requires s.headers != []
  {
    s.headers[Last(s)]
  }

  predicate HeaderWf(h: Header, size: nat) {
    0 < h.capacity == |h.slots| && h.tail < h.capacity && forall i :: 0 <= i < |h.slots| ==> h.slots[i] < size
  }

  predicate PcWf(s: State, pc: Pc) {
    && (!pc.Idle? && !pc.LoadHeader? ==> pc.h < |s.headers|)
    && (pc.LoadKey? || pc.LoadEntry? ==> pc.tail < |s.headers[pc.h].slots|)
    && (pc.Found? || pc.Finished? ==> pc.i < |s.headers[pc.h].slots|)
  }

  predicate Wf(s: State) {
    && s.headers != []
    && (forall h :: 0 <= h < |s.headers| ==> HeaderWf(s.headers[h], |s.entries|))
    && forall t :: 0 <= t < |s.consumers| ==> PcWf(s, s.consumers[t])
  }

  /** The blocks that the consumer still needs. */
  predicate Pins(pc: Pc, b: int) {
    !pc.Idle? && (if pc.Finished? then pc.b < b else pc.b <= b) && b <= pc.last
  }

  /** The slot after the tail. */
  function NextSlot(h: Header): nat
    requires 0 < h.capacity
  {
    (h.tail + 1) % h.capacity
  }

  function NextEntry(s: State): nat
    requires Wf(s)
  {
    assert HeaderWf(Cur(s), |s.entries|);
    Cur(s).slots[NextSlot(Cur(s))]
  }

  /** get_block_index_index_for_index: the distance from the block at the tail, in blocks. */
  function LookupSlot(h: Header, tail: nat, key: int, b: int): nat
    requires 0 < h.capacity
  {
    (tail + (b - key)) % h.capacity
  }

  predicate Enabled(s: State, a: Action)
    requires Wf(s)
  {
    match a
    case StoreKey => s.pc.Ready? && Free(s.entries[NextEntry(s)])
    case StoreTail => s.pc.KeyStored?
    case StoreValue(_) => s.pc.Pending?
    case RewindTail => s.pc.Pending?
    case ClearPending => s.pc.Abandoned?
    case Grow(stale) => s.pc.Ready? && !Free(s.entries[NextEntry(s)]) && |stale| == Cur(s).capacity
    case Publish => s.pc.Ready?
    case StartRollBack => s.pc.Ready? && s.visible <= s.newest
    case ClearBlock => s.pc.Rolling? && !s.pc.cleared
    case RewindBlock => s.pc.Rolling? && s.pc.cleared
    case Look(t, b, last) =>
      && t < |s.consumers| && s.consumers[t].Idle? && b <= last < s.visible
      && forall x :: b <= x <= last ==> x in s.live
    case Load(t) =>
      && t < |s.consumers|
      && var pc := s.consumers[t]; pc.LoadHeader? || pc.LoadTail? || pc.LoadKey? || pc.LoadEntry?
    case GiveBack(t) =>
      && t < |s.consumers| && s.consumers[t].Found?
      && forall u :: 0 <= u < |s.consumers| && u != t ==> !Pins(s.consumers[u], s.consumers[t].b)
    case Keep(t) => t < |s.consumers| && s.consumers[t].Found?
    case Next(t) => t < |s.consumers| && s.consumers[t].Finished?
  }

  function SetEntry(s: State, e: nat, x: Entry): State
    requires e < |s.entries|
  {
    s.(entries := s.entries[e := x])
  }

  function SetTail(s: State, tail: nat): State
    requires s.headers != []
  {
    s.(headers := s.headers[Last(s) := Cur(s).(tail := tail)])
  }

  function Goto(s: State, t: nat, pc: Pc): State
    requires t < |s.consumers|
  {
    s.(consumers := s.consumers[t := pc])
  }

  function Max(a: int, b: int): int { if a < b then b else a }

  function Do(s: State, a: Action): State
    requires Wf(s) && Enabled(s, a)
  {
    assert HeaderWf(Cur(s), |s.entries|);
    match a
    case StoreKey =>
      SetEntry(s, NextEntry(s), s.entries[NextEntry(s)].(key := Some(s.newest + 1)))
      .(pc := KeyStored, low := Max(s.low, s.newest + 2 - Cur(s).capacity))
    case StoreTail => SetTail(s, NextSlot(Cur(s))).(pc := Pending, newest := s.newest + 1)
    case StoreValue(block) =>
      var e := Cur(s).slots[Cur(s).tail];
      SetEntry(s, e, s.entries[e].(value := Some(block)))
      .(pc := Ready, live := s.live[s.newest := Live(block, e, Last(s))])
    case RewindTail => SetTail(s, (Cur(s).tail - 1) % Cur(s).capacity).(pc := Abandoned, newest := s.newest - 1)
    case ClearPending => SetEntry(s, NextEntry(s), s.entries[NextEntry(s)].(value := None)).(pc := Ready)
    case Grow(stale) => GrowIndex(s, stale)
    case Publish => s.(visible := s.newest + 1)
    case StartRollBack => s.(pc := Rolling(s.visible, s.newest, false))
    case ClearBlock => ClearRolled(s)
    case RewindBlock =>
      SetTail(s, (Cur(s).tail - 1) % Cur(s).capacity)
      .(pc := if s.pc.next == s.pc.last then Ready else Rolling(s.pc.next + 1, s.pc.last, false),
        newest := s.newest - 1)
    case Look(t, b, last) => Goto(s, t, LoadHeader(b, last))
    case Load(t) => LoadOne(s, t)
    case GiveBack(t) => GiveBackBlock(s, t)
    case Keep(t) => var pc := s.consumers[t]; Goto(s, t, Finished(pc.b, pc.last, pc.h, pc.i))
    case Next(t) =>
      var pc := s.consumers[t];
      assert PcWf(s, pc) && HeaderWf(s.headers[pc.h], |s.entries|);
      Goto(s, t, if pc.b < pc.last then Found(pc.b + 1, pc.last, pc.h, (pc.i + 1) % s.headers[pc.h].capacity) else Idle)
  }

  /** The old slots from the oldest on, then new entries. */
  function GrownHeader(h: Header, newest: int, size: nat): Header
    requires 0 < h.capacity == |h.slots|
  {
    Header(2 * h.capacity, h.capacity - 1,
           seq(h.capacity, i requires 0 <= i => h.slots[(h.tail + 1 + i) % h.capacity])
           + seq(h.capacity, i requires 0 <= i => size + i),
           h.capacity - 1 - newest)
  }

  function GrowIndex(s: State, stale: seq<Option<nat>>): State
    requires Wf(s) && |stale| == Cur(s).capacity
  {
    assert HeaderWf(Cur(s), |s.entries|);
    s.(entries := s.entries + seq(|stale|, i requires 0 <= i < |stale| => Entry(None, stale[i])),
       headers := s.headers + [GrownHeader(Cur(s), s.newest, |s.entries|)])
  }

  /** The entry that the producer's own lookup finds for the block to roll back. */
  function RolledEntry(s: State): nat
    requires Wf(s) && s.pc.Rolling?
  {
    var h := Cur(s);
    assert HeaderWf(h, |s.entries|);
    var key := s.entries[h.slots[h.tail]].key;
    if key.Some? then h.slots[LookupSlot(h, h.tail, key.value, s.pc.next)] else h.slots[h.tail]
  }

  function ClearRolled(s: State): State
    requires Wf(s) && s.pc.Rolling?
  {
    SetEntry(s, RolledEntry(s), s.entries[RolledEntry(s)].(value := None))
    .(pc := s.pc.(cleared := true), live := s.live - {s.pc.next})
  }

  function LoadOne(s: State, t: nat): State
    requires Wf(s) && Enabled(s, Load(t))
  {
    var pc := s.consumers[t];
    assert PcWf(s, pc);
    match pc
    case LoadHeader(b, last) => Goto(s, t, LoadTail(b, last, Last(s)))
    case LoadTail(b, last, h) =>
      assert HeaderWf(s.headers[h], |s.entries|);
      Goto(s, t, LoadKey(b, last, h, s.headers[h].tail))
    case LoadKey(b, last, h, tail) =>
      assert HeaderWf(s.headers[h], |s.entries|);
      var key := s.entries[s.headers[h].slots[tail]].key;
      if key.Some? then Goto(s, t, LoadEntry(b, last, h, tail, key.value)) else s
    case LoadEntry(b, last, h, tail, key) =>
      assert HeaderWf(s.headers[h], |s.entries|);
      Goto(s, t, Found(b, last, h, LookupSlot(s.headers[h], tail, key, b)))
    case _ => s
  }

  function FoundEntry(s: State, pc: Pc): nat
    requires Wf(s) && pc.Found? && PcWf(s, pc)
  {
    s.headers[pc.h].slots[pc.i]
  }

  function GiveBackBlock(s: State, t: nat): State
    requires Wf(s) && t < |s.consumers| && s.consumers[t].Found?
  {
    var pc := s.consumers[t];
    assert PcWf(s, pc) && HeaderWf(s.headers[pc.h], |s.entries|);
    var e := FoundEntry(s, pc);
    Goto(SetEntry(s, e, s.entries[e].(value := None)), t, Finished(pc.b, pc.last, pc.h, pc.i))
    .(live := s.live - {pc.b})
  }

  /** The first header of the constructor: no block, and the tail in front of slot 0. */
  ghost predicate Init(s: State) {
    && Wf(s) && |s.headers| == 1 && 0 < |s.entries|
    && s.headers[0] == Header(|s.entries|, |s.entries| - 1, seq(|s.entries|, i requires 0 <= i => i), 0)
    && (forall e :: 0 <= e < |s.entries| ==> s.entries[e].key == None)
    && s.pc == Ready && s.newest == -1 && s.visible == s.low == 0 && s.live == map[]
    && forall t :: 0 <= t < |s.consumers| ==> s.consumers[t] == Idle
  }

  // Slots

  /** The slot of block `n` in a header. */
  function Slot(h: Header, n: int): nat
    requires 0 < h.capacity
  {
    (n + h.shift) % h.capacity
  }

  function EntryOf(h: Header, n: int): nat
    requires 0 < h.capacity == |h.slots|
  {
    h.slots[Slot(h, n)]
  }

  lemma SlotOfNext(h: Header, n: int)
    requires 0 < h.capacity
    ensures (Slot(h, n) + 1) % h.capacity == Slot(h, n + 1)
    ensures (Slot(h, n) - 1) % h.capacity == Slot(h, n - 1)
  {
    ModSum(n + h.shift, 1, h.capacity);
    ModSum(n + h.shift, -1, h.capacity);
  }

  lemma SlotsApart(h: Header, m: int, n: int)
    requires 0 < h.capacity && m != n && m - h.capacity < n < m + h.capacity
    ensures Slot(h, m) != Slot(h, n)
  {
    if Slot(h, m) == Slot(h, n) {
      if m < n {
        SameRemainderClose(m + h.shift, n + h.shift, h.capacity);
      } else {
        SameRemainderClose(n + h.shift, m + h.shift, h.capacity);
      }
    }
  }

  lemma SlotRepeats(h: Header, n: int)
    requires 0 < h.capacity
    ensures Slot(h, n - h.capacity) == Slot(h, n)
  {
    var x := n - h.capacity + h.shift;
    assert x == (x / h.capacity) * h.capacity + x % h.capacity;
    assert x + h.capacity == (x / h.capacity + 1) * h.capacity + x % h.capacity by {
      assert (x / h.capacity + 1) * h.capacity == (x / h.capacity) * h.capacity + h.capacity;
    }
    DivModUnique(x + h.capacity, x / h.capacity + 1, x % h.capacity, h.capacity);
  }

  /** Blocks with one slot in a header have one slot in each smaller one. */
  lemma SlotsAgree(h: Header, g: Header, m: int, n: int)
    requires 0 < g.capacity && 0 < h.capacity && h.capacity % g.capacity == 0 && Slot(h, m) == Slot(h, n)
    ensures Slot(g, m) == Slot(g, n)
  {
    var C, c := h.capacity, g.capacity;
    var x, y := m + h.shift, n + h.shift;
    var q, r := x / C - y / C, C / c;
    assert x == (x / C) * C + x % C && y == (y / C) * C + y % C;
    assert m - n == q * C by { assert (x / C - y / C) * C == (x / C) * C - (y / C) * C; }
    assert C == r * c + C % c;
    Multiple(m + g.shift, n + g.shift, q, r, C, c);
  }

  lemma Multiple(x: int, y: int, q: int, r: int, C: int, c: int)
    requires 0 < c && x - y == q * C && C == r * c
    ensures x % c == y % c
  {
    assert q * C == (q * r) * c by { assert q * (r * c) == (q * r) * c; }
    assert y == (y / c) * c + y % c;
    assert x == (y / c + q * r) * c + y % c by { assert (y / c + q * r) * c == (y / c) * c + (q * r) * c; }
    DivModUnique(x, y / c + q * r, y % c, c);
  }

  lemma LookupIsSlot(h: Header, key: int, b: int)
    requires 0 < h.capacity
    ensures LookupSlot(h, Slot(h, key), key, b) == Slot(h, b)
  {
    ModSum(key + h.shift, b - key, h.capacity);
  }

  // The invariant

  /** A used entry sits in the slot of its key. */
  ghost predicate Aligned(entries: seq<Entry>, h: Header, i: nat)
    requires HeaderWf(h, |entries|) && i < h.capacity
  {
    entries[h.slots[i]].key.Some? ==> Slot(h, entries[h.slots[i]].key.value) == i
  }

  ghost predicate Used(entries: seq<Entry>, h: Header, i: nat)
    requires HeaderWf(h, |entries|) && i < h.capacity
  {
    entries[h.slots[i]].key.Some?
  }

  /** A header of which the current one is a multiple. */
  ghost predicate HeaderOk(entries: seq<Entry>, h: Header, current: Header) {
    && HeaderWf(h, |entries|) && current.capacity % h.capacity == 0
    && forall i :: 0 <= i < h.capacity ==> Aligned(entries, h, i)
  }

  /** Only the current header has entries that were never used, and it has no entry twice. */
  ghost predicate HeadersOk(entries: seq<Entry>, headers: seq<Header>)
    requires headers != []
  {
    var last := |headers| - 1;
    && (forall h :: 0 <= h < |headers| ==> HeaderOk(entries, headers[h], headers[last]))
    && (forall h, i :: 0 <= h < last && 0 <= i < headers[h].capacity ==> Used(entries, headers[h], i))
    && (forall i, j :: 0 <= i < j < |headers[last].slots| ==> headers[last].slots[i] != headers[last].slots[j])
  }

  ghost predicate HasKey(entries: seq<Entry>, h: Header, n: int)
    requires HeaderWf(h, |entries|)
  {
    entries[EntryOf(h, n)].key == Some(n)
  }

  /** The tail is at the newest block, and the blocks from `low` on have their entries. */
  ghost predicate WindowOk(entries: seq<Entry>, h: Header, low: int, newest: int)
    requires HeaderWf(h, |entries|)
  {
    && h.tail == Slot(h, newest) && low <= newest + 1 && newest - low < h.capacity
    && forall n :: low <= n <= newest ==> HasKey(entries, h, n)
  }

  ghost predicate IndexOk(s: State) {
    && Wf(s) && HeadersOk(s.entries, s.headers)
    && HeaderWf(Cur(s), |s.entries|) && WindowOk(s.entries, Cur(s), s.low, s.newest)
  }

  /** Blocks whose slots need not be free. */
  ghost predicate Exempt(pc: ProducerPc, visible: int, newest: int, n: int) {
    match pc
    case KeyStored => n <= newest + 1
    case Abandoned => n <= newest + 1
    case Rolling(_, _, _) => n < visible || RolledLater(pc, n)
    case _ => n <= newest
  }

  ghost predicate RolledLater(pc: ProducerPc, n: int)
    requires pc.Rolling?
  {
    (if pc.cleared then pc.next < n else pc.next <= n) && n <= pc.last
  }

  ghost predicate RestFree(s: State)
    requires Wf(s) && HeaderWf(Cur(s), |s.entries|)
  {
    forall n :: s.low <= n < s.low + Cur(s).capacity && !Exempt(s.pc, s.visible, s.newest, n) ==>
      Free(s.entries[EntryOf(Cur(s), n)])
  }

  /** Blocks that are stored, as far as the producer knows. */
  ghost predicate StoredBlock(pc: ProducerPc, visible: int, newest: int, n: int) {
    if pc.Rolling? then RolledLater(pc, n) else visible <= n <= newest && !(pc.Pending? && n == newest)
  }

  ghost predicate ProducerOk(s: State)
    requires Wf(s) && HeaderWf(Cur(s), |s.entries|)
  {
    && s.low <= s.visible <= s.newest + 1
    && (forall n :: s.visible <= n && n in s.live <==> StoredBlock(s.pc, s.visible, s.newest, n))
    && (s.pc.KeyStored? || s.pc.Abandoned? ==>
          HasKey(s.entries, Cur(s), s.newest + 1) && s.newest + 1 < s.low + Cur(s).capacity)
    && (s.pc.Pending? ==> s.visible <= s.newest)
    && (s.pc.Rolling? ==>
          && s.visible <= s.pc.next <= s.pc.last < s.low + Cur(s).capacity
          && s.newest + (s.pc.next - s.visible) == s.pc.last)
  }

  /** Block `b` is where every header from its birth on has it. */
  ghost predicate BlockOk(entries: seq<Entry>, headers: seq<Header>, low: int, b: int, l: Live) {
    && low <= b && l.birth < |headers| && l.entry < |entries| && entries[l.entry] == Entry(Some(b), Some(l.block))
    && forall h :: l.birth <= h < |headers| ==> HeaderWf(headers[h], |entries|) && EntryOf(headers[h], b) == l.entry
  }

  ghost predicate LiveOk(s: State) {
    forall b :: b in s.live ==> BlockOk(s.entries, s.headers, s.low, b, s.live[b])
  }

  ghost predicate ConsumerOk(entries: seq<Entry>, headers: seq<Header>, live: map<int, Live>, visible: int, pc: Pc) {
    && (forall b :: Pins(pc, b) ==> b in live && b < visible)
    && (!pc.Idle? && !pc.Finished? ==> pc.b <= pc.last)
    && (!pc.Idle? && !pc.LoadHeader? ==>
          && pc.h < |headers| && HeaderWf(headers[pc.h], |entries|)
          && (forall b :: Pins(pc, b) ==> b in live && live[b].birth <= pc.h)
          && (pc.LoadKey? ==> pc.tail < headers[pc.h].capacity && Used(entries, headers[pc.h], pc.tail))
          && (pc.LoadEntry? ==> Slot(headers[pc.h], pc.key) == pc.tail)
          && (pc.Found? || pc.Finished? ==> Slot(headers[pc.h], pc.b) == pc.i))
  }

  ghost predicate ConsumersOk(s: State) {
    forall t :: 0 <= t < |s.consumers| ==> ConsumerOk(s.entries, s.headers, s.live, s.visible, s.consumers[t])
  }

  ghost predicate Inv(s: State) { IndexOk(s) && RestFree(s) && ProducerOk(s) && LiveOk(s) && ConsumersOk(s) }

  lemma InitEstablishesInv(s: State)
    requires Init(s)
    ensures Inv(s)
  {
    var h := s.headers[0];
    assert HeaderWf(h, |s.entries|);
    assert Slot(h, -1) == |s.entries| - 1;
    forall n | 0 <= n < |s.entries| ensures EntryOf(h, n) == n {
    }
    assert HeaderOk(s.entries, h, h);
  }

  // Lookups

  /** The tail that a consumer loads is at a used entry. */
  lemma TailIsUsed(s: State, t: nat)
    requires Inv(s) && t < |s.consumers| && s.consumers[t].LoadTail?
    ensures var h := s.consumers[t].h;
            h < |s.headers| && HeaderWf(s.headers[h], |s.entries|) && Used(s.entries, s.headers[h], s.headers[h].tail)
  {
    var pc := s.consumers[t];
    assert ConsumerOk(s.entries, s.headers, s.live, s.visible, pc);
    if pc.h == Last(s) {
      assert Pins(pc, pc.b);
      assert HasKey(s.entries, Cur(s), s.newest);
    }
  }

  /** The slot that a consumer computes, in whichever header it uses, is that of its block. */
  lemma SlotIsFound(s: State, t: nat)
    requires Inv(s) && t < |s.consumers| && s.consumers[t].LoadEntry?
    ensures var pc := s.consumers[t];
            && pc.h < |s.headers| && HeaderWf(s.headers[pc.h], |s.entries|)
            && LookupSlot(s.headers[pc.h], pc.tail, pc.key, pc.b) == Slot(s.headers[pc.h], pc.b)
  {
    var pc := s.consumers[t];
    assert ConsumerOk(s.entries, s.headers, s.live, s.visible, pc);
    LookupIsSlot(s.headers[pc.h], pc.key, pc.b);
  }

  /** What a consumer has found is the entry of its block. */
  lemma FoundIsLive(s: State, t: nat)
    requires Inv(s) && t < |s.consumers| && s.consumers[t].Found?
    ensures var pc := s.consumers[t];
            && pc.b in s.live && PcWf(s, pc) && FoundEntry(s, pc) == s.live[pc.b].entry
            && FoundEntry(s, pc) < |s.entries|
            && s.entries[FoundEntry(s, pc)] == Entry(Some(pc.b), Some(s.live[pc.b].block))
  {
    var pc := s.consumers[t];
    assert PcWf(s, pc) && ConsumerOk(s.entries, s.headers, s.live, s.visible, pc);
    assert Pins(pc, pc.b) && BlockOk(s.entries, s.headers, s.low, pc.b, s.live[pc.b]);
    assert EntryOf(s.headers[pc.h], pc.b) == s.live[pc.b].entry;
  }

  // Steps of consumers

  /** Moving one consumer on. */
  lemma ConsumerMoves(s: State, t: nat, pc: Pc)
    requires Inv(s) && t < |s.consumers| && PcWf(s, pc) && ConsumerOk(s.entries, s.headers, s.live, s.visible, pc)
    ensures Inv(Goto(s, t, pc))
  {
    var s' := Goto(s, t, pc);
    forall u | 0 <= u < |s'.consumers|
      ensures PcWf(s', s'.consumers[u]) && ConsumerOk(s'.entries, s'.headers, s'.live, s'.visible, s'.consumers[u])
    {
      assert PcWf(s, s'.consumers[u]) && ConsumerOk(s.entries, s.headers, s.live, s.visible, s'.consumers[u]);
    }
  }

  lemma LookStep(s: State, t: nat, b: int, last: int)
    requires Inv(s) && Enabled(s, Look(t, b, last))
    ensures Inv(Do(s, Look(t, b, last)))
  {
    ConsumerMoves(s, t, LoadHeader(b, last));
  }

  lemma LoadStep(s: State, t: nat)
    requires Inv(s) && Enabled(s, Load(t))
    ensures Inv(LoadOne(s, t))
  {
    var pc := s.consumers[t];
    assert PcWf(s, pc) && ConsumerOk(s.entries, s.headers, s.live, s.visible, pc);
    var pc' := LoadOne(s, t).consumers[t];
    match pc
    case LoadHeader(b, last) =>
      forall x | Pins(pc', x) ensures x in s.live && s.live[x].birth <= Last(s) {
        assert Pins(pc, x) && BlockOk(s.entries, s.headers, s.low, x, s.live[x]);
      }
      ConsumerMoves(s, t, pc');
    case LoadTail(b, last, h) =>
      TailIsUsed(s, t);
      PinsSame(s, pc, pc');
      ConsumerMoves(s, t, pc');
    case LoadKey(b, last, h, tail) =>
      assert HeaderOk(s.entries, s.headers[h], Cur(s)) && Aligned(s.entries, s.headers[h], tail);
      PinsSame(s, pc, pc');
      ConsumerMoves(s, t, pc');
    case LoadEntry(b, last, h, tail, key) =>
      SlotIsFound(s, t);
      PinsSame(s, pc, pc');
      ConsumerMoves(s, t, pc');
  }

  /** The new state of a consumer pins nothing else. */
  lemma PinsSame(s: State, pc: Pc, pc': Pc)
    requires ConsumerOk(s.entries, s.headers, s.live, s.visible, pc) && !pc.Idle? && !pc.LoadHeader?
    requires pc'.Idle? || pc'.LoadKey? || pc'.LoadEntry? || pc'.Found? || pc'.Finished?
    requires forall x :: Pins(pc', x) ==> Pins(pc, x)
    requires !pc'.Idle? ==> pc'.h == pc.h
    ensures forall x :: Pins(pc', x) ==> x in s.live && x < s.visible && s.live[x].birth <= pc.h
  {
  }

  lemma NextStep(s: State, t: nat)
    requires Inv(s) && Enabled(s, Next(t))
    ensures Inv(Do(s, Next(t)))
  {
    var pc := s.consumers[t];
    assert PcWf(s, pc) && ConsumerOk(s.entries, s.headers, s.live, s.visible, pc);
    SlotOfNext(s.headers[pc.h], pc.b);
    var pc' := Do(s, Next(t)).consumers[t];
    PinsSame(s, pc, pc');
    ConsumerMoves(s, t, pc');
  }

  lemma KeepStep(s: State, t: nat)
    requires Inv(s) && Enabled(s, Keep(t))
    ensures Inv(Do(s, Keep(t)))
  {
    var pc := s.consumers[t];
    assert PcWf(s, pc) && ConsumerOk(s.entries, s.headers, s.live, s.visible, pc);
    var pc' := Finished(pc.b, pc.last, pc.h, pc.i);
    PinsSame(s, pc, pc');
    ConsumerMoves(s, t, pc');
  }

  // What steps keep

  /** Stores of values do not touch what the index is. */
  lemma KeysKept(s: State, s': State)
    requires IndexOk(s) && s'.headers == s.headers && s'.low == s.low && s'.newest == s.newest && Wf(s')
    requires |s'.entries| == |s.entries| && forall e :: 0 <= e < |s.entries| ==> s'.entries[e].key == s.entries[e].key
    ensures IndexOk(s')
  {
    forall h | 0 <= h < |s.headers| ensures HeaderOk(s'.entries, s.headers[h], Cur(s)) {
      assert HeaderOk(s.entries, s.headers[h], Cur(s));
      forall i | 0 <= i < s.headers[h].capacity ensures Aligned(s'.entries, s.headers[h], i) {
        assert Aligned(s.entries, s.headers[h], i);
      }
    }
    forall h, i | 0 <= h < Last(s) && 0 <= i < s.headers[h].capacity ensures Used(s'.entries, s.headers[h], i) {
      assert Used(s.entries, s.headers[h], i);
    }
    forall n | s.low <= n <= s.newest ensures HasKey(s'.entries, Cur(s), n) {
      assert HasKey(s.entries, Cur(s), n);
    }
  }

  predicate SameSlots(h: Header, h': Header) {
    h'.capacity == h.capacity && h'.slots == h.slots && h'.shift == h.shift && h'.tail < h'.capacity
  }

  /** What a consumer relies on: used entries stay used, headers keep their slots, and blocks in sight stay. */
  ghost predicate Kept(s: State, s': State) {
    && |s.entries| <= |s'.entries| && |s.headers| <= |s'.headers| && s.visible <= s'.visible
    && (forall e :: 0 <= e < |s.entries| && s.entries[e].key.Some? ==> s'.entries[e].key.Some?)
    && (forall h :: 0 <= h < |s.headers| ==> SameSlots(s.headers[h], s'.headers[h]))
    && (forall b :: b in s.live && b < s.visible ==> b in s'.live && s'.live[b] == s.live[b])
  }

  lemma ConsumersKept(s: State, s': State)
    requires Wf(s) && ConsumersOk(s) && Kept(s, s') && s'.consumers == s.consumers
    ensures ConsumersOk(s') && forall t :: 0 <= t < |s'.consumers| ==> PcWf(s', s'.consumers[t])
  {
    forall t | 0 <= t < |s'.consumers|
      ensures ConsumerOk(s'.entries, s'.headers, s'.live, s'.visible, s'.consumers[t]) && PcWf(s', s'.consumers[t])
    {
      var pc := s.consumers[t];
      assert ConsumerOk(s.entries, s.headers, s.live, s.visible, pc) && PcWf(s, pc);
      if !pc.Idle? && !pc.LoadHeader? {
        assert SameSlots(s.headers[pc.h], s'.headers[pc.h]);
      }
    }
  }

  /** Entries of live blocks have the keys of their blocks. */
  lemma LiveEntry(s: State, b: int)
    requires LiveOk(s) && b in s.live
    ensures s.low <= b && s.live[b].entry < |s.entries|
    ensures s.entries[s.live[b].entry] == Entry(Some(b), Some(s.live[b].block))
  {
    assert BlockOk(s.entries, s.headers, s.low, b, s.live[b]);
  }

  /** Blocks keep their entries when the step leaves these, and their headers' slots. */
  lemma BlocksKept(s: State, s': State)
    requires LiveOk(s) && |s.entries| <= |s'.entries| && |s'.headers| == |s.headers| && Wf(s')
    requires forall h :: 0 <= h < |s.headers| ==> SameSlots(s.headers[h], s'.headers[h])
    requires forall b :: b in s'.live && b in s.live ==>
               s'.live[b] == s.live[b] && s'.low <= b && s'.entries[s.live[b].entry] == s.entries[s.live[b].entry]
    requires forall b :: b in s'.live && b !in s.live ==> BlockOk(s'.entries, s'.headers, s'.low, b, s'.live[b])
    ensures LiveOk(s')
  {
    forall b | b in s'.live ensures BlockOk(s'.entries, s'.headers, s'.low, b, s'.live[b]) {
      if b in s.live {
        assert BlockOk(s.entries, s.headers, s.low, b, s.live[b]);
        forall h | s.live[b].birth <= h < |s'.headers|
          ensures HeaderWf(s'.headers[h], |s'.entries|) && EntryOf(s'.headers[h], b) == s.live[b].entry
        {
          assert SameSlots(s.headers[h], s'.headers[h]) && EntryOf(s.headers[h], b) == s.live[b].entry;
        }
      }
    }
  }

  // Steps of the producer that store values

  /** A value is stored in entry `e`, and the set of live blocks changes accordingly. */
  lemma ValueStored(s: State, s': State, e: nat, value: Option<nat>)
    requires Inv(s) && e < |s.entries| && s'.headers == s.headers && s'.low == s.low && s'.newest == s.newest
    requires s'.entries == s.entries[e := s.entries[e].(value := value)] && s'.visible == s.visible && Wf(s')
    requires forall b :: b in s'.live && b in s.live ==> s'.live[b] == s.live[b] && s.live[b].entry != e
    requires forall b :: b in s'.live && b !in s.live ==> BlockOk(s'.entries, s'.headers, s'.low, b, s'.live[b])
    ensures IndexOk(s') && LiveOk(s')
  {
    KeysKept(s, s');
    forall b | b in s'.live && b in s.live
      ensures s'.low <= b && s'.entries[s.live[b].entry] == s.entries[s.live[b].entry]
    {
      LiveEntry(s, b);
    }
    BlocksKept(s, s');
  }

  /** Clearing a value frees its entry and leaves the others. */
  lemma ClearedIsFree(s: State, s': State, e: nat)
    requires Inv(s) && e < |s.entries| && s'.headers == s.headers && s'.low == s.low && IndexOk(s')
    requires s'.entries == s.entries[e := s.entries[e].(value := None)]
    requires forall n :: s.low <= n < s.low + Cur(s).capacity && !Exempt(s'.pc, s'.visible, s'.newest, n) ==>
               !Exempt(s.pc, s.visible, s.newest, n) || EntryOf(Cur(s), n) == e
    ensures RestFree(s')
  {
    forall n | s.low <= n < s.low + Cur(s).capacity && !Exempt(s'.pc, s'.visible, s'.newest, n)
      ensures Free(s'.entries[EntryOf(Cur(s), n)])
    {
      if EntryOf(Cur(s), n) != e {
        assert Free(s.entries[EntryOf(Cur(s), n)]);
      }
    }
  }

  lemma StoreValueStep(s: State, block: nat)
    requires Inv(s) && Enabled(s, StoreValue(block))
    ensures Inv(Do(s, StoreValue(block)))
  {
    var s' := Do(s, StoreValue(block));
    var h := Cur(s);
    var e := h.slots[h.tail];
    assert HasKey(s.entries, h, s.newest);
    forall b | b in s.live ensures s.live[b].entry != e {
      LiveEntry(s, b);
    }
    ConsumersKept(s, s');
    ValueStored(s, s', e, Some(block));
    forall n | s.low <= n < s.low + h.capacity && !Exempt(s'.pc, s'.visible, s'.newest, n)
      ensures Free(s'.entries[EntryOf(h, n)])
    {
      SlotsApart(h, s.newest, n);
      assert Free(s.entries[EntryOf(h, n)]);
    }
  }

  lemma ClearPendingStep(s: State)
    requires Inv(s) && Enabled(s, ClearPending)
    ensures Inv(Do(s, ClearPending))
  {
    var s' := Do(s, ClearPending);
    var h := Cur(s);
    SlotOfNext(h, s.newest);
    var e := EntryOf(h, s.newest + 1);
    assert s.entries[e].key == Some(s.newest + 1);
    forall b | b in s.live ensures s.live[b].entry != e {
      LiveEntry(s, b);
    }
    ConsumersKept(s, s');
    ValueStored(s, s', e, None);
    ClearedIsFree(s, s', e);
  }

  /** The producer's own lookup, with the tail rewound in part, finds the entry of the block to roll back. */
  lemma RolledIsFound(s: State)
    requires Inv(s) && s.pc.Rolling? && !s.pc.cleared
    ensures s.pc.next in s.live && RolledEntry(s) == s.live[s.pc.next].entry
    ensures RolledEntry(s) == EntryOf(Cur(s), s.pc.next) < |s.entries|
  {
    var h := Cur(s);
    var b := s.pc.next;
    assert HasKey(s.entries, h, s.newest);
    LookupIsSlot(h, s.newest, b);
    assert StoredBlock(s.pc, s.visible, s.newest, b);
    assert BlockOk(s.entries, s.headers, s.low, b, s.live[b]);
    assert EntryOf(s.headers[Last(s)], b) == s.live[b].entry;
  }

  lemma ClearBlockStep(s: State)
    requires Inv(s) && Enabled(s, ClearBlock)
    ensures Inv(ClearRolled(s))
  {
    var s' := ClearRolled(s);
    var b := s.pc.next;
    RolledIsFound(s);
    var e := s.live[b].entry;
    LiveEntry(s, b);
    OthersElsewhere(s, b);
    ConsumersKept(s, s');
    ValueStored(s, s', e, None);
    ClearedProducer(s, s');
    ClearedExempt(s.pc, s.visible, s.newest);
    ClearedIsFree(s, s', e);
  }

  lemma ClearedExempt(pc: ProducerPc, visible: int, newest: int)
    requires pc.Rolling? && !pc.cleared
    ensures forall n :: !Exempt(pc.(cleared := true), visible, newest, n) ==>
              !Exempt(pc, visible, newest, n) || n == pc.next
  {
  }

  /** No two live blocks share an entry. */
  lemma OthersElsewhere(s: State, b: int)
    requires LiveOk(s) && b in s.live
    ensures forall x :: x in s.live && x != b ==> s.live[x].entry != s.live[b].entry
  {
    LiveEntry(s, b);
    forall x | x in s.live && x != b ensures s.live[x].entry != s.live[b].entry {
      LiveEntry(s, x);
    }
  }

  lemma GiveBackStep(s: State, t: nat)
    requires Inv(s) && Enabled(s, GiveBack(t))
    ensures Inv(GiveBackBlock(s, t))
  {
    var s' := GiveBackBlock(s, t);
    var pc := s.consumers[t];
    FoundIsLive(s, t);
    var e := s.live[pc.b].entry;
    OthersElsewhere(s, pc.b);
    GiveBackKeepsOthers(s, t);
    ValueStored(s, s', e, None);
    ClearedIsFree(s, s', e);
    assert ConsumerOk(s.entries, s.headers, s.live, s.visible, pc) && Pins(pc, pc.b);
    ProducerKept(s, s');
  }

  /** What concerns the producer does not change with values and blocks in sight. */
  lemma ProducerKept(s: State, s': State)
    requires IndexOk(s) && ProducerOk(s) && IndexOk(s') && s'.headers == s.headers && s'.pc == s.pc
    requires s'.low == s.low && s'.visible == s.visible && s'.newest == s.newest
    requires |s'.entries| == |s.entries| && forall e :: 0 <= e < |s.entries| ==> s'.entries[e].key == s.entries[e].key
    requires forall n :: s.visible <= n ==> (n in s'.live <==> n in s.live)
    ensures ProducerOk(s')
  {
  }

  lemma ClearedProducer(s: State, s': State)
    requires IndexOk(s) && ProducerOk(s) && s.pc.Rolling? && !s.pc.cleared && IndexOk(s') && s'.headers == s.headers
    requires s'.pc == s.pc.(cleared := true) && s'.low == s.low && s'.visible == s.visible && s'.newest == s.newest
    requires s'.live == s.live - {s.pc.next}
    ensures ProducerOk(s')
  {
    forall n ensures s'.visible <= n && n in s'.live <==> StoredBlock(s'.pc, s'.visible, s'.newest, n) {
      assert s.visible <= n && n in s.live <==> StoredBlock(s.pc, s.visible, s.newest, n);
    }
  }

  lemma GiveBackKeepsOthers(s: State, t: nat)
    requires Inv(s) && Enabled(s, GiveBack(t))
    ensures ConsumersOk(GiveBackBlock(s, t)) && Wf(GiveBackBlock(s, t))
  {
    var s' := GiveBackBlock(s, t);
    var pc := s.consumers[t];
    FoundIsLive(s, t);
    assert ConsumerOk(s.entries, s.headers, s.live, s.visible, pc) && PcWf(s, pc);
    forall u | 0 <= u < |s'.consumers|
      ensures ConsumerOk(s'.entries, s'.headers, s'.live, s'.visible, s'.consumers[u]) && PcWf(s', s'.consumers[u])
    {
      if u == t {
        PinsSame(s, pc, s'.consumers[t]);
      } else {
        assert ConsumerOk(s.entries, s.headers, s.live, s.visible, s.consumers[u]) && PcWf(s, s.consumers[u]);
        assert !Pins(s.consumers[u], pc.b);
      }
      ValueLeavesConsumer(s, s'.entries, pc.b, s'.consumers[u]);
    }
  }

  /** A consumer that does not pin block `b` does not notice that it leaves. */
  lemma ValueLeavesConsumer(s: State, entries: seq<Entry>, b: int, pc: Pc)
    requires |entries| == |s.entries| && forall e :: 0 <= e < |entries| ==> entries[e].key == s.entries[e].key
    requires ConsumerOk(s.entries, s.headers, s.live, s.visible, pc) && !Pins(pc, b)
    ensures ConsumerOk(entries, s.headers, s.live - {b}, s.visible, pc)
  {
    forall x | Pins(pc, x) ensures x in s.live - {b} && (s.live - {b})[x] == s.live[x] {
    }
  }

  // Steps of the producer that move its tail

  /** Only the tail moves. */
  lemma TailMoved(s: State, s': State)
    requires Inv(s) && s'.entries == s.entries && |s'.headers| == |s.headers| && s'.low == s.low
    requires s'.visible == s.visible && s'.live == s.live && s'.consumers == s.consumers
    requires s'.headers == s.headers[Last(s) := Cur(s).(tail := Slot(Cur(s), s'.newest))]
    requires s.low <= s'.newest + 1 && s'.newest - s.low < Cur(s).capacity
    requires s'.newest <= s.newest || (s'.newest == s.newest + 1 && HasKey(s.entries, Cur(s), s.newest + 1))
    ensures IndexOk(s') && LiveOk(s') && ConsumersOk(s')
  {
    forall h | 0 <= h < |s.headers|
      ensures HeaderOk(s'.entries, s'.headers[h], Cur(s')) && HeaderWf(s'.headers[h], |s.entries|)
    {
      assert HeaderOk(s.entries, s.headers[h], Cur(s));
      forall i | 0 <= i < s'.headers[h].capacity ensures Aligned(s'.entries, s'.headers[h], i) {
        assert Aligned(s.entries, s.headers[h], i);
      }
    }
    ConsumersKept(s, s');
    forall b | b in s.live ensures s'.low <= b {
      LiveEntry(s, b);
    }
    BlocksKept(s, s');
    forall n | s'.low <= n <= s'.newest ensures HasKey(s'.entries, Cur(s'), n) {
      assert HasKey(s.entries, Cur(s), n);
    }
  }

  lemma StoreTailStep(s: State)
    requires Inv(s) && Enabled(s, StoreTail)
    ensures Inv(Do(s, StoreTail))
  {
    var s' := Do(s, StoreTail);
    SlotOfNext(Cur(s), s.newest);
    TailMoved(s, s');
    forall n | s.low <= n < s.low + Cur(s').capacity && !Exempt(s'.pc, s'.visible, s'.newest, n)
      ensures Free(s'.entries[EntryOf(Cur(s'), n)])
    {
      assert Free(s.entries[EntryOf(Cur(s), n)]);
    }
  }

  lemma RewindTailStep(s: State)
    requires Inv(s) && Enabled(s, RewindTail)
    ensures Inv(Do(s, RewindTail))
  {
    var s' := Do(s, RewindTail);
    SlotOfNext(Cur(s), s.newest);
    TailMoved(s, s');
    assert HasKey(s.entries, Cur(s), s.newest);
    forall n | s.low <= n < s.low + Cur(s').capacity && !Exempt(s'.pc, s'.visible, s'.newest, n)
      ensures Free(s'.entries[EntryOf(Cur(s'), n)])
    {
      assert Free(s.entries[EntryOf(Cur(s), n)]);
    }
  }

  lemma RewindBlockStep(s: State)
    requires Inv(s) && Enabled(s, RewindBlock)
    ensures Inv(Do(s, RewindBlock))
  {
    var s' := Do(s, RewindBlock);
    SlotOfNext(Cur(s), s.newest);
    TailMoved(s, s');
    forall n | s.low <= n < s.low + Cur(s').capacity && !Exempt(s'.pc, s'.visible, s'.newest, n)
      ensures Free(s'.entries[EntryOf(Cur(s'), n)])
    {
      assert Free(s.entries[EntryOf(Cur(s), n)]);
    }
  }

  lemma PublishStep(s: State, a: Action)
    requires Inv(s) && Enabled(s, a) && (a.Publish? || a.StartRollBack?)
    ensures Inv(Do(s, a))
  {
    var s' := Do(s, a);
    ConsumersKept(s, s');
    forall n | s.low <= n < s.low + Cur(s).capacity && !Exempt(s'.pc, s'.visible, s'.newest, n)
      ensures Free(s'.entries[EntryOf(Cur(s'), n)])
    {
      assert Free(s.entries[EntryOf(Cur(s), n)]);
    }
  }

  // Taking the next entry

  /** The entry after the tail is in no other slot of the current header, and the block that had it before is gone. */
  lemma NextIsTaken(s: State)
    requires Inv(s) && Enabled(s, StoreKey)
    ensures NextEntry(s) == EntryOf(Cur(s), s.newest + 1)
    ensures forall b :: b in s.live ==> s.live[b].entry != NextEntry(s) && s.newest + 2 - Cur(s).capacity <= b
  {
    var h := Cur(s);
    SlotOfNext(h, s.newest);
    forall b | b in s.live ensures s.live[b].entry != NextEntry(s) && s.newest + 2 - h.capacity <= b {
      LiveEntry(s, b);
      assert BlockOk(s.entries, s.headers, s.low, b, s.live[b]);
      assert EntryOf(s.headers[Last(s)], b) == s.live[b].entry;
      if b == s.newest + 1 - h.capacity {
        SlotRepeats(h, s.newest + 1);
      }
    }
  }

  lemma SlotOfEntry(s: State, i: nat, j: nat)
    requires IndexOk(s) && i < Cur(s).capacity && j < Cur(s).capacity && Cur(s).slots[i] == Cur(s).slots[j]
    ensures i == j
  {
  }

  /** Wherever an older header has the entry, its new key belongs there. */
  lemma TakenIsAligned(s: State, h: nat, i: nat)
    requires Inv(s) && Enabled(s, StoreKey) && h < |s.headers| && i < s.headers[h].capacity
    requires HeaderWf(s.headers[h], |s.entries|) && s.headers[h].slots[i] == NextEntry(s)
    ensures Slot(s.headers[h], s.newest + 1) == i
  {
    var cur, n := Cur(s), s.newest + 1;
    SlotOfNext(cur, s.newest);
    if h == Last(s) {
      SlotOfEntry(s, i, Slot(cur, n));
    } else {
      assert HeaderOk(s.entries, s.headers[h], cur) && Aligned(s.entries, s.headers[h], i);
      assert Used(s.entries, s.headers[h], i);
      assert HeaderOk(s.entries, s.headers[Last(s)], cur) && Aligned(s.entries, cur, Slot(cur, n));
      SlotsAgree(cur, s.headers[h], s.entries[NextEntry(s)].key.value, n);
    }
  }

  lemma TakenKeepsHeaders(s: State)
    requires Inv(s) && Enabled(s, StoreKey)
    ensures HeadersOk(Do(s, StoreKey).entries, s.headers)
  {
    var entries := Do(s, StoreKey).entries;
    forall h | 0 <= h < |s.headers| ensures HeaderOk(entries, s.headers[h], Cur(s)) {
      assert HeaderOk(s.entries, s.headers[h], Cur(s));
      forall i | 0 <= i < s.headers[h].capacity ensures Aligned(entries, s.headers[h], i) {
        assert Aligned(s.entries, s.headers[h], i);
        if s.headers[h].slots[i] == NextEntry(s) {
          TakenIsAligned(s, h, i);
        }
      }
    }
    forall h, i | 0 <= h < Last(s) && 0 <= i < s.headers[h].capacity ensures Used(entries, s.headers[h], i) {
      assert Used(s.entries, s.headers[h], i);
    }
  }

  /** Blocks of other slots keep their entries. */
  lemma OtherSlotKept(s: State, n: int)
    requires Inv(s) && Enabled(s, StoreKey) && n != s.newest + 1
    requires s.newest + 1 - Cur(s).capacity < n < s.newest + 1 + Cur(s).capacity
    ensures EntryOf(Cur(s), n) != NextEntry(s)
  {
    var h := Cur(s);
    SlotOfNext(h, s.newest);
    SlotsApart(h, n, s.newest + 1);
    assert HeaderWf(h, |s.entries|);
    var i, j := Slot(h, n), Slot(h, s.newest + 1);
    assert if i < j then h.slots[i] != h.slots[j] else h.slots[j] != h.slots[i];
  }

  lemma TakenKeepsWindow(s: State)
    requires Inv(s) && Enabled(s, StoreKey)
    ensures var s' := Do(s, StoreKey);
            HeaderWf(Cur(s'), |s'.entries|) && WindowOk(s'.entries, Cur(s'), s'.low, s'.newest)
    ensures HasKey(Do(s, StoreKey).entries, Cur(s), s.newest + 1)
  {
    var s' := Do(s, StoreKey);
    NextIsTaken(s);
    forall n | s'.low <= n <= s'.newest ensures HasKey(s'.entries, Cur(s), n) {
      assert HasKey(s.entries, Cur(s), n);
      OtherSlotKept(s, n);
    }
  }

  /** If the window moves on, it was full. */
  lemma TakenKeepsRest(s: State)
    requires Inv(s) && Enabled(s, StoreKey) && Wf(Do(s, StoreKey))
    ensures var s' := Do(s, StoreKey); HeaderWf(Cur(s'), |s'.entries|) && RestFree(s')
  {
    var s' := Do(s, StoreKey);
    forall n | s'.low <= n < s'.low + Cur(s').capacity && !Exempt(s'.pc, s'.visible, s'.newest, n)
      ensures Free(s'.entries[EntryOf(Cur(s'), n)])
    {
      OtherSlotKept(s, n);
      assert Free(s.entries[EntryOf(Cur(s), n)]);
    }
  }

  /** The first block that is not published is not in the way of the next entry. */
  lemma WindowBehindVisible(s: State)
    requires Inv(s) && Enabled(s, StoreKey)
    ensures s.newest + 2 - Cur(s).capacity <= s.visible
  {
    NextIsTaken(s);
    if s.visible <= s.newest {
      assert StoredBlock(s.pc, s.visible, s.newest, s.visible);
      assert s.visible in s.live;
    }
  }

  lemma TakenKeepsBlocks(s: State)
    requires Inv(s) && Enabled(s, StoreKey) && Wf(Do(s, StoreKey))
    ensures LiveOk(Do(s, StoreKey))
  {
    var s' := Do(s, StoreKey);
    NextIsTaken(s);
    forall b | b in s.live ensures s'.low <= b && s'.entries[s.live[b].entry] == s.entries[s.live[b].entry] {
      LiveEntry(s, b);
    }
    BlocksKept(s, s');
  }

  lemma StoreKeyStep(s: State)
    requires Inv(s) && Enabled(s, StoreKey)
    ensures Inv(Do(s, StoreKey))
  {
    var s' := Do(s, StoreKey);
    ConsumersKept(s, s');
    TakenKeepsHeaders(s);
    TakenKeepsWindow(s);
    TakenKeepsRest(s);
    TakenKeepsBlocks(s);
    WindowBehindVisible(s);
  }

  // Growth

  /** When the next entry is not free, the window is full: it has every slot. */
  lemma FullWindow(s: State)
    requires Inv(s) && s.pc.Ready? && !Free(s.entries[NextEntry(s)])
    ensures s.newest - s.low == Cur(s).capacity - 1
  {
    if s.newest + 1 < s.low + Cur(s).capacity {
      NextIsFree(s);
    }
  }

  lemma NextIsFree(s: State)
    requires Inv(s) && s.pc.Ready? && s.newest + 1 < s.low + Cur(s).capacity
    ensures Free(s.entries[NextEntry(s)])
  {
    SlotOfNext(Cur(s), s.newest);
    assert Free(s.entries[EntryOf(Cur(s), s.newest + 1)]);
  }

  lemma SmallRemainder(x: int, n: int)
    requires 0 <= x < n
    ensures x % n == x
  {
    DivModUnique(x, 0, x, n);
  }

  /** The slots of the grown header: first the old window, then new entries. */
  lemma GrownSlots(h: Header, newest: int, size: nat, n: int)
    requires 0 < h.capacity == |h.slots| && h.tail == Slot(h, newest)
    ensures newest - h.capacity < n <= newest ==>
              && Slot(GrownHeader(h, newest, size), n) == n - newest + h.capacity - 1
              && EntryOf(GrownHeader(h, newest, size), n) == EntryOf(h, n)
    ensures newest < n <= newest + h.capacity ==>
              && Slot(GrownHeader(h, newest, size), n) == n - newest + h.capacity - 1
              && EntryOf(GrownHeader(h, newest, size), n) == size + (n - newest - 1)
  {
    var g := GrownHeader(h, newest, size);
    var i := n - newest + h.capacity - 1;
    if newest - h.capacity < n <= newest + h.capacity {
      SmallRemainder(i, 2 * h.capacity);
      assert Slot(g, n) == i;
      if n <= newest {
        ModSum(newest + h.shift, 1 + i, h.capacity);
        assert newest + h.shift + 1 + i == n + h.shift + h.capacity;
        SlotRepeats(h, n + h.capacity);
        assert (h.tail + 1 + i) % h.capacity == Slot(h, n + h.capacity);
        assert g.slots[i] == h.slots[(h.tail + 1 + i) % h.capacity];
      }
    }
  }

  /** Every slot is that of a block in the window. */
  lemma WindowCovers(h: Header, newest: int, i: nat) returns (n: int)
    requires 0 < h.capacity && h.tail == Slot(h, newest) && i < h.capacity
    ensures newest - h.capacity < n <= newest && Slot(h, n) == i
  {
    var d := if i <= h.tail then h.tail - i else h.tail - i + h.capacity;
    n := newest - d;
    ModSum(newest + h.shift, 0 - d, h.capacity);
    DivModUnique(h.tail - d, if i <= h.tail then 0 else -1, i, h.capacity);
  }

  lemma DoubleDivides(C: nat, c: nat)
    requires 0 < c && C % c == 0
    ensures (2 * C) % c == 0
  {
    assert C == (C / c) * c;
    assert 2 * C == (2 * (C / c)) * c by { assert (2 * (C / c)) * c == 2 * ((C / c) * c); }
    DivModUnique(2 * C, 2 * (C / c), 0, c);
  }

  /** An entry of the current header is an old one after a growth. */
  lemma GrownEntries(s: State, stale: seq<Option<nat>>)
    requires Inv(s) && Enabled(s, Grow(stale))
    ensures var s' := GrowIndex(s, stale);
            && |s'.entries| == |s.entries| + |stale| && Cur(s') == GrownHeader(Cur(s), s.newest, |s.entries|)
            && (forall e :: 0 <= e < |s.entries| ==> s'.entries[e] == s.entries[e])
            && (forall e :: |s.entries| <= e < |s'.entries| ==> s'.entries[e].key == None)
  {
  }

  lemma GrownHeaderWf(s: State, stale: seq<Option<nat>>)
    requires Inv(s) && Enabled(s, Grow(stale))
    ensures var s' := GrowIndex(s, stale);
            && HeaderWf(Cur(s'), |s'.entries|) && Wf(s')
            && forall h :: 0 <= h < |s.headers| ==> s'.headers[h] == s.headers[h]
  {
    var s' := GrowIndex(s, stale);
    assert HeaderWf(Cur(s), |s.entries|);
    forall t | 0 <= t < |s'.consumers| ensures PcWf(s', s'.consumers[t]) {
      assert PcWf(s, s.consumers[t]);
    }
  }

  lemma GrownWindow(s: State, stale: seq<Option<nat>>)
    requires Inv(s) && Enabled(s, Grow(stale))
    ensures var s' := GrowIndex(s, stale);
            HeaderWf(Cur(s'), |s'.entries|) && WindowOk(s'.entries, Cur(s'), s'.low, s'.newest)
  {
    var s' := GrowIndex(s, stale);
    GrownEntries(s, stale);
    GrownHeaderWf(s, stale);
    FullWindow(s);
    GrownSlots(Cur(s), s.newest, |s.entries|, s.newest);
    forall n | s'.low <= n <= s'.newest ensures HasKey(s'.entries, Cur(s'), n) {
      assert HasKey(s.entries, Cur(s), n);
      GrownSlots(Cur(s), s.newest, |s.entries|, n);
    }
  }

  /** The old current header has only used entries. */
  lemma FullIsUsed(s: State, i: nat)
    requires Inv(s) && s.pc.Ready? && !Free(s.entries[NextEntry(s)]) && i < Cur(s).capacity
    ensures Used(s.entries, Cur(s), i)
  {
    FullWindow(s);
    var n := WindowCovers(Cur(s), s.newest, i);
    assert HasKey(s.entries, Cur(s), n);
  }

  /** Entry `i` of the grown header has the key of its place in the window, or is new. */
  lemma GrownSlotKey(s: State, stale: seq<Option<nat>>, i: nat)
    requires Inv(s) && Enabled(s, Grow(stale)) && i < 2 * Cur(s).capacity
    ensures var s' := GrowIndex(s, stale);
            && HeaderWf(Cur(s'), |s'.entries|)
            && (i < Cur(s).capacity ==> s'.entries[Cur(s').slots[i]].key == Some(s.newest - Cur(s).capacity + 1 + i)
                                        && Cur(s').slots[i] < |s.entries|)
            && (i >= Cur(s).capacity ==> s'.entries[Cur(s').slots[i]].key == None
                                         && Cur(s').slots[i] == |s.entries| + i - Cur(s).capacity)
  {
    var C := Cur(s).capacity;
    var n := s.newest - C + 1 + i;
    GrownEntries(s, stale);
    GrownHeaderWf(s, stale);
    FullWindow(s);
    GrownSlots(Cur(s), s.newest, |s.entries|, n);
    if i < C {
      assert HasKey(s.entries, Cur(s), n);
    }
  }

  lemma GrownIsAligned(s: State, stale: seq<Option<nat>>)
    requires Inv(s) && Enabled(s, Grow(stale))
    ensures HeaderOk(GrowIndex(s, stale).entries, Cur(GrowIndex(s, stale)), Cur(GrowIndex(s, stale)))
  {
    var s' := GrowIndex(s, stale);
    var g := Cur(s');
    GrownHeaderWf(s, stale);
    forall i | 0 <= i < g.capacity ensures Aligned(s'.entries, g, i) {
      GrownSlotKey(s, stale, i);
      GrownSlots(Cur(s), s.newest, |s.entries|, s.newest - Cur(s).capacity + 1 + i);
    }
  }

  lemma GrownHeaders(s: State, stale: seq<Option<nat>>)
    requires Inv(s) && Enabled(s, Grow(stale))
    ensures HeadersOk(GrowIndex(s, stale).entries, GrowIndex(s, stale).headers)
  {
    var entries, headers := GrowIndex(s, stale).entries, GrowIndex(s, stale).headers;
    var last := |s.headers|;
    assert headers[last] == Cur(GrowIndex(s, stale)) && |headers| == last + 1;
    GrownHeaderWf(s, stale);
    forall h | 0 <= h < |headers| ensures HeaderOk(entries, headers[h], headers[last]) {
      if h < last {
        OldHeaderKept(s, stale, h);
      } else {
        GrownIsAligned(s, stale);
      }
    }
    forall h, i | 0 <= h < last && 0 <= i < headers[h].capacity ensures Used(entries, headers[h], i) {
      OldHeaderUsed(s, stale, h, i);
    }
    forall i, j | 0 <= i < j < |headers[last].slots| ensures headers[last].slots[i] != headers[last].slots[j] {
      GrownSlotsDiffer(s, stale, i, j);
    }
  }

  lemma OldHeaderUsed(s: State, stale: seq<Option<nat>>, h: nat, i: nat)
    requires Inv(s) && Enabled(s, Grow(stale)) && h < |s.headers| && i < s.headers[h].capacity
    ensures HeaderWf(s.headers[h], |GrowIndex(s, stale).entries|) && Used(GrowIndex(s, stale).entries, s.headers[h], i)
  {
    GrownEntries(s, stale);
    if h < Last(s) {
      assert Used(s.entries, s.headers[h], i);
    } else {
      FullIsUsed(s, i);
    }
  }

  lemma GrownSlotsDiffer(s: State, stale: seq<Option<nat>>, i: nat, j: nat)
    requires Inv(s) && Enabled(s, Grow(stale)) && i < j < 2 * Cur(s).capacity
    ensures |Cur(GrowIndex(s, stale)).slots| == 2 * Cur(s).capacity
    ensures Cur(GrowIndex(s, stale)).slots[i] != Cur(GrowIndex(s, stale)).slots[j]
  {
    GrownSlotKey(s, stale, i);
    GrownSlotKey(s, stale, j);
  }

  lemma OldHeaderKept(s: State, stale: seq<Option<nat>>, h: nat)
    requires Inv(s) && Enabled(s, Grow(stale)) && h < |s.headers|
    ensures HeaderOk(GrowIndex(s, stale).entries, s.headers[h], Cur(GrowIndex(s, stale)))
  {
    var s' := GrowIndex(s, stale);
    GrownEntries(s, stale);
    assert HeaderOk(s.entries, s.headers[h], Cur(s));
    DoubleDivides(Cur(s).capacity, s.headers[h].capacity);
    forall i | 0 <= i < s.headers[h].capacity ensures Aligned(s'.entries, s.headers[h], i) {
      assert Aligned(s.entries, s.headers[h], i);
    }
  }

  /** After a growth every slot after the tail is free, and none of them was ever used. */
  lemma GrownHasRoom(s: State, stale: seq<Option<nat>>)
    requires Inv(s) && Enabled(s, Grow(stale))
    ensures var s' := GrowIndex(s, stale); HeaderWf(Cur(s'), |s'.entries|) && RestFree(s')
    ensures var s' := GrowIndex(s, stale); Wf(s') && s'.entries[NextEntry(s')].key == None
  {
    var s' := GrowIndex(s, stale);
    GrownEntries(s, stale);
    GrownHeaderWf(s, stale);
    GrownWindow(s, stale);
    FullWindow(s);
    SlotOfNext(Cur(s'), s'.newest);
    GrownSlots(Cur(s), s.newest, |s.entries|, s.newest + 1);
    forall n | s'.newest < n < s'.low + Cur(s').capacity
      ensures Free(s'.entries[EntryOf(Cur(s'), n)])
    {
      GrownSlots(Cur(s), s.newest, |s.entries|, n);
    }
  }

  lemma GrownBlocks(s: State, stale: seq<Option<nat>>)
    requires Inv(s) && Enabled(s, Grow(stale))
    ensures LiveOk(GrowIndex(s, stale))
  {
    var s' := GrowIndex(s, stale);
    GrownEntries(s, stale);
    GrownHeaderWf(s, stale);
    FullWindow(s);
    forall b | b in s.live ensures BlockOk(s'.entries, s'.headers, s'.low, b, s.live[b]) {
      LiveEntry(s, b);
      assert BlockOk(s.entries, s.headers, s.low, b, s.live[b]);
      assert EntryOf(s.headers[Last(s)], b) == s.live[b].entry;
      assert b < s.visible || StoredBlock(s.pc, s.visible, s.newest, b);
      GrownSlots(Cur(s), s.newest, |s.entries|, b);
      forall h | s.live[b].birth <= h < |s'.headers|
        ensures HeaderWf(s'.headers[h], |s'.entries|) && EntryOf(s'.headers[h], b) == s.live[b].entry
      {
        assert h < |s.headers| ==> EntryOf(s.headers[h], b) == s.live[b].entry;
      }
    }
  }

  lemma GrowStep(s: State, stale: seq<Option<nat>>)
    requires Inv(s) && Enabled(s, Grow(stale))
    ensures Inv(GrowIndex(s, stale))
  {
    var s' := GrowIndex(s, stale);
    GrownEntries(s, stale);
    GrownHeaderWf(s, stale);
    GrownHeaders(s, stale);
    GrownWindow(s, stale);
    GrownHasRoom(s, stale);
    GrownBlocks(s, stale);
    ConsumersKept(s, s');
  }

  // Whole runs

  lemma StepKeepsInv(s: State, a: Action)
    requires Inv(s) && Enabled(s, a)
    ensures Inv(Do(s, a))
  {
    match a
    case StoreKey => StoreKeyStep(s);
    case StoreTail => StoreTailStep(s);
    case StoreValue(block) => StoreValueStep(s, block);
    case RewindTail => RewindTailStep(s);
    case ClearPending => ClearPendingStep(s);
    case Grow(stale) => GrowStep(s, stale);
    case Publish => PublishStep(s, a);
    case StartRollBack => PublishStep(s, a);
    case ClearBlock => ClearBlockStep(s);
    case RewindBlock => RewindBlockStep(s);
    case Look(t, b, last) => LookStep(s, t, b, last);
    case Load(t) => LoadStep(s, t);
    case GiveBack(t) => GiveBackStep(s, t);
    case Keep(t) => KeepStep(s, t);
    case Next(t) => NextStep(s, t);
  }

  ghost predicate IsStep(s: State, a: Action, s': State) { Wf(s) && Enabled(s, a) && s' == Do(s, a) }

  ghost predicate IsRun(ss: seq<State>, actions: seq<Action>) {
    && |ss| == |actions| + 1 && Init(ss[0])
    && forall i {:trigger actions[i]} :: 0 <= i < |actions| ==> IsStep(ss[i], actions[i], ss[i + 1])
  }

  lemma {:induction false} RunKeepsInv(ss: seq<State>, actions: seq<Action>, i: nat)
    requires IsRun(ss, actions) && i < |ss|
    ensures Inv(ss[i])
  {
    if i == 0 {
      InitEstablishesInv(ss[0]);
    } else {
      RunKeepsInv(ss, actions, i - 1);
      assert IsStep(ss[i - 1], actions[i - 1], ss[i]);
      StepKeepsInv(ss[i - 1], actions[i - 1]);
    }
  }

  /** In every run, a consumer that has computed its slot finds the entry of its block there, with the block in it,
      whatever the producer and the other consumers did between its loads, and whichever header it uses. */
  lemma LookupFindsBlock(ss: seq<State>, actions: seq<Action>, i: nat, t: nat)
    requires IsRun(ss, actions) && i < |ss| && t < |ss[i].consumers| && ss[i].consumers[t].Found?
    ensures var pc := ss[i].consumers[t];
            && pc.b in ss[i].live && pc.h < |ss[i].headers| && pc.i < |ss[i].headers[pc.h].slots|
            && ss[i].headers[pc.h].slots[pc.i] < |ss[i].entries|
            && ss[i].entries[ss[i].headers[pc.h].slots[pc.i]] == Entry(Some(pc.b), Some(ss[i].live[pc.b].block))
  {
    RunKeepsInv(ss, actions, i);
    FoundIsLive(ss[i], t);
  }

  /** The key that a consumer loads at the tail is valid, so its lookup goes on. */
  lemma LookupNeverStalls(ss: seq<State>, actions: seq<Action>, i: nat, t: nat)
    requires IsRun(ss, actions) && i < |ss| && t < |ss[i].consumers| && ss[i].consumers[t].LoadKey?
    ensures Wf(ss[i]) && Enabled(ss[i], Load(t)) && LoadOne(ss[i], t).consumers[t].LoadEntry?
  {
    RunKeepsInv(ss, actions, i);
    var pc := ss[i].consumers[t];
    assert ConsumerOk(ss[i].entries, ss[i].headers, ss[i].live, ss[i].visible, pc) && PcWf(ss[i], pc);
  }

  /** The producer's lookups for a roll-back find the entries of the blocks given up. */
  lemma RollBackFindsBlock(ss: seq<State>, actions: seq<Action>, i: nat)
    requires IsRun(ss, actions) && i < |actions| && actions[i] == ClearBlock
    ensures var s := ss[i];
            && Wf(s) && s.pc.Rolling? && s.pc.next in s.live && RolledEntry(s) < |s.entries|
            && s.entries[RolledEntry(s)] == Entry(Some(s.pc.next), Some(s.live[s.pc.next].block))
  {
    RunKeepsInv(ss, actions, i);
    assert IsStep(ss[i], actions[i], ss[i + 1]);
    RolledIsFound(ss[i]);
    LiveEntry(ss[i], ss[i].pc.next);
  }

  /** After a growth the next entry was never used, as the code asserts. */
  lemma GrowthMakesRoom(ss: seq<State>, actions: seq<Action>, i: nat)
    requires IsRun(ss, actions) && i < |actions| && actions[i].Grow?
    ensures Wf(ss[i + 1]) && ss[i + 1].entries[NextEntry(ss[i + 1])].key == None
  {
    RunKeepsInv(ss, actions, i);
    assert IsStep(ss[i], actions[i], ss[i + 1]);
    GrownHasRoom(ss[i], actions[i].stale);
  }

  // A block goes in and is found, with nothing in between

  /** The state after an enabled action. */
  lemma After(s: State, a: Action) returns (s': State)
    requires Inv(s) && Enabled(s, a)
    ensures Inv(s') && s' == Do(s, a)
  {
    s' := Do(s, a);
    StepKeepsInv(s, a);
  }

  lemma InsertsBlock(s: State, block: nat) returns (s': State)
    requires Inv(s) && Enabled(s, StoreKey)
    ensures Inv(s') && s'.pc.Ready? && s'.consumers == s.consumers && s'.visible == s.visible
    ensures s'.newest == s.newest + 1 && s'.live.Keys == s.live.Keys + {s'.newest}
    ensures s'.live[s'.newest].block == block && forall b :: b in s.live && b != s'.newest ==> s'.live[b] == s.live[b]
  {
    var s1 := After(s, StoreKey);
    var s2 := After(s1, StoreTail);
    s' := After(s2, StoreValue(block));
  }

  /** With a free next entry, the producer inserts a block, stores it and makes its elements visible. */
  lemma UndisturbedInsert(s: State, block: nat) returns (s': State)
    requires Inv(s) && Enabled(s, StoreKey)
    ensures Inv(s') && s'.pc.Ready? && s'.consumers == s.consumers
    ensures s'.newest == s.newest + 1 && s'.visible == s'.newest + 1 && s'.live.Keys == s.live.Keys + {s'.newest}
    ensures s'.live[s'.newest].block == block
  {
    var s1 := InsertsBlock(s, block);
    s' := After(s1, Publish);
  }

  lemma RollsBackOne(s: State) returns (s': State)
    requires Inv(s) && s.pc.Ready? && s.visible == s.newest
    ensures Inv(s') && s'.pc.Ready? && s'.consumers == s.consumers && s'.visible == s.visible
    ensures s'.newest == s.newest - 1 && s'.live == s.live - {s.newest}
  {
    var s1 := After(s, StartRollBack);
    var s2 := After(s1, ClearBlock);
    s' := After(s2, RewindBlock);
  }

  /** A roll-back takes an insertion back: newest block and live blocks are those of before. */
  lemma UndisturbedRollBack(s: State, block: nat) returns (s': State)
    requires Inv(s) && Enabled(s, StoreKey) && s.visible == s.newest + 1
    ensures Inv(s') && s'.pc.Ready? && s'.consumers == s.consumers
    ensures s'.newest == s.newest && s'.visible == s.visible && s'.live == s.live
  {
    assert !StoredBlock(s.pc, s.visible, s.newest, s.newest + 1);
    var s1 := InsertsBlock(s, block);
    s' := RollsBackOne(s1);
    assert s'.live.Keys == s.live.Keys;
    assert forall b :: b in s.live ==> s'.live[b] == s.live[b];
  }

  /** A consumer's five accesses for a block in the index end at the entry with its key and the block in it. */
  lemma UndisturbedLookup(s: State, t: nat, b: int) returns (s': State)
    requires Inv(s) && Enabled(s, Look(t, b, b))
    ensures Inv(s') && s' == s.(consumers := s'.consumers) && t < |s'.consumers| && s'.consumers[t].Found?
    ensures var pc := s'.consumers[t];
            && pc.b == b && b in s'.live && PcWf(s', pc)
            && FoundEntry(s', pc) < |s'.entries|
            && s'.entries[FoundEntry(s', pc)] == Entry(Some(b), Some(s.live[b].block))
  {
    var s1 := After(s, Look(t, b, b));
    var s2 := After(s1, Load(t));
    var s3 := After(s2, Load(t));
    var s4 := LoadsKey(s3, t);
    s' := After(s4, Load(t));
    FoundIsLive(s', t);
  }

  lemma LoadsKey(s: State, t: nat) returns (s': State)
    requires Inv(s) && t < |s.consumers| && s.consumers[t].LoadKey?
    ensures Inv(s') && t < |s'.consumers| && s' == s.(consumers := s'.consumers)
    ensures s'.consumers[t].LoadEntry? && s'.consumers[t].b == s.consumers[t].b
  {
    var pc := s.consumers[t];
    assert ConsumerOk(s.entries, s.headers, s.live, s.visible, pc) && PcWf(s, pc);
    s' := After(s, Load(t));
  }

  /** A bulk consumer that is done with a block goes on to the next one without another lookup, and finds it. */
  lemma UndisturbedBulk(s: State, t: nat) returns (s': State)
    requires Inv(s) && t < |s.consumers| && s.consumers[t].Found? && s.consumers[t].b < s.consumers[t].last
    ensures Inv(s') && s' == s.(consumers := s'.consumers) && t < |s'.consumers| && s'.consumers[t].Found?
    ensures var pc := s'.consumers[t];
            && pc.b == s.consumers[t].b + 1 && pc.last == s.consumers[t].last && pc.b in s'.live && PcWf(s', pc)
            && FoundEntry(s', pc) < |s'.entries|
            && s'.entries[FoundEntry(s', pc)] == Entry(Some(pc.b), Some(s.live[pc.b].block))
  {
    var s1 := After(s, Keep(t));
    s' := After(s1, Next(t));
    FoundIsLive(s', t);
  }
}
