/** The lock-free hash from threads to their implicit producers: a chain of open-addressing tables that
    only grows, searched newest first, with lazy copying of a thread's entry into the newest table.

    Every atomic access of `get_or_add_implicit_producer` is one step; any number of threads call it any
    number of times. Allocation succeeds, and, as on targets without thread-local support, entries are
    never removed. */
module ProducerHash {
  import opened Arithmetic

  type Thread = nat
  type Producer = nat

  datatype Val = Unset | Set(p: Producer)
  datatype Slot = Free | Taken(key: Thread, value: Val)

  type Table = seq<Slot>

  const INITIAL_SIZE: nat := 32

  /** `m` is the table the call regards as the main one, `pos` the number of slots already probed. */
  datatype Pc =
    | Idle
    | LoadMain
    | Search(m: nat, h: nat, pos: nat)       // probe table h for the own id
    | Copy(m: nat, pos: nat, v: Producer)    // CAS the own id into the main table
    | AddCount(m: nat)                       // implicitProducerHashCount.fetch_add(1)
    | TestLock(m: nat, nc: nat)              // newCount >= capacity/2 && !test_and_set
    | Grow(nc: nat)                          // lock held: reload, allocate, publish
    | Unlock(m: nat, nc: nat)                // clear the resize flag
    | TestRoom(m: nat, nc: nat)              // newCount < 3/4 capacity
    | Insert(m: nat, pos: nat, v: Producer)  // CAS the own id into table m
    | SetValue(m: nat, idx: nat, v: Producer)

  /** `hash[t]` is the hashed id of thread t; `created` counts the producers made so far, and
      `returned[t]` records what the finished calls of thread t returned. */
  datatype State = State(
    tables: seq<Table>, count: nat, resizing: bool, created: nat, hash: seq<nat>, pcs: seq<Pc>,
    returned: seq<seq<Producer>>)

  datatype Action = Call(t: Thread) | Advance(t: Thread)

  predicate Enabled(s: State, a: Action) {
    a.t < |s.pcs| && (a.Call? <==> s.pcs[a.t].Idle?)
  }

  predicate Wf(s: State) {
    && |s.hash| == |s.pcs| == |s.returned|
    && 0 < |s.tables|
    && (forall h :: 0 <= h < |s.tables| ==> 0 < |s.tables[h]|)
    && (forall t :: 0 <= t < |s.pcs| ==> PcWf(s, s.pcs[t]))
  }

  predicate PcWf(s: State, pc: Pc) {
    match pc
    case Search(m, h, _) => h <= m < |s.tables|
    case Copy(m, _, _) => m < |s.tables|
    case AddCount(m) => m < |s.tables|
    case TestLock(m, _) => m < |s.tables|
    case Unlock(m, _) => m < |s.tables|
    case TestRoom(m, _) => m < |s.tables|
    case Insert(m, _, _) => m < |s.tables|
    case SetValue(m, idx, _) => m < |s.tables| && idx < |s.tables[m]|
    case _ => true
  }

  /** The slot that thread `t` probes after `pos` others. Masking is a remainder, because the capacity is a power of
      two (CapacitiesArePowersOfTwo). */
  function At(s: State, h: nat, t: Thread, pos: nat): nat
    requires Wf(s) && h < |s.tables| && t < |s.hash|
    ensures At(s, h, t, pos) < |s.tables[h]|
  {
    (s.hash[t] + pos) % |s.tables[h]|
  }

  function Half(table: Table): nat { |table| / 2 }

  function ThreeQuarters(table: Table): nat { |table| / 2 + |table| / 4 }

  predicate IsPowerOfTwo(n: nat) { n == 1 || (0 < n && n % 2 == 0 && IsPowerOfTwo(n / 2)) }

  /** Doubles the capacity until the new count is below half of it. */
  function NewCapacity(cap: nat, nc: nat): (r: nat)
    requires 0 < cap
    ensures cap <= r && nc < r / 2 && (IsPowerOfTwo(cap) ==> IsPowerOfTwo(r))
    decreases if nc >= cap / 2 then 2 * nc + 2 - cap else 0
  {
    if nc >= cap / 2 then assert 2 * cap / 2 == cap; NewCapacity(2 * cap, nc) else cap
  }

  function Goto(s: State, t: Thread, pc: Pc): State
    requires t < |s.pcs|
  {
    s.(pcs := s.pcs[t := pc])
  }

  function SetSlot(s: State, h: nat, i: nat, x: Slot): State
    requires h < |s.tables| && i < |s.tables[h]|
  {
    s.(tables := s.tables[h := s.tables[h][i := x]])
  }

  function Finish(s: State, t: Thread, v: Producer): State
    requires t < |s.pcs| && t < |s.returned|
  {
    s.(pcs := s.pcs[t := Idle], returned := s.returned[t := s.returned[t] + [v]])
  }

  function Do(s: State, a: Action): State
    requires Wf(s) && Enabled(s, a)
  {
    if a.Call? then Goto(s, a.t, LoadMain) else AdvanceThread(s, a.t)
  }

  function AdvanceThread(s: State, t: Thread): State
    requires Wf(s) && t < |s.pcs| && !s.pcs[t].Idle?
  {
    assert PcWf(s, s.pcs[t]);
    match s.pcs[t]
    case LoadMain => Goto(s, t, Search(|s.tables| - 1, |s.tables| - 1, 0))
    case Search(m, h, pos) =>
      var x := s.tables[h][At(s, h, t, pos)];
      if x.Free? then Goto(s, t, if h == 0 then AddCount(m) else Search(m, h - 1, 0))
      else if x.key != t then Goto(s, t, Search(m, h, pos + 1))
      else
        var v := if x.value.Set? then x.value.p else 0;
        if h == m then Finish(s, t, v) else Goto(s, t, Copy(m, 0, v))
    case Copy(m, pos, v) =>
      var i := At(s, m, t, pos);
      if s.tables[m][i].Free? then Goto(SetSlot(s, m, i, Taken(t, Unset)), t, SetValue(m, i, v))
      else Goto(s, t, Copy(m, pos + 1, v))
    case AddCount(m) => Goto(s.(count := s.count + 1), t, TestLock(m, s.count + 1))
    case TestLock(m, nc) =>
      if nc >= Half(s.tables[m]) && !s.resizing then Goto(s.(resizing := true), t, Grow(nc))
      else Goto(s, t, TestRoom(m, nc))
    case Grow(nc) =>
      var main := |s.tables| - 1;
      if nc >= Half(s.tables[main]) then
        var table := seq(NewCapacity(2 * |s.tables[main]|, nc), _ => Free);
        Goto(s.(tables := s.tables + [table]), t, Unlock(|s.tables|, nc))
      else
        Goto(s, t, Unlock(main, nc))
    case Unlock(m, nc) => Goto(s.(resizing := false), t, TestRoom(m, nc))
    case TestRoom(m, nc) =>
      if nc < ThreeQuarters(s.tables[m]) then Goto(s.(created := s.created + 1), t, Insert(m, 0, s.created))
      else Goto(s, t, TestLock(|s.tables| - 1, nc))
    case Insert(m, pos, v) =>
      var i := At(s, m, t, pos);
      if s.tables[m][i].Free? then Goto(SetSlot(s, m, i, Taken(t, Unset)), t, SetValue(m, i, v))
      else Goto(s, t, Insert(m, pos + 1, v))
    case SetValue(m, i, v) => Finish(SetSlot(s, m, i, Taken(t, Set(v))), t, v)
  }

  ghost predicate Init(s: State) {
    && |s.hash| == |s.pcs| == |s.returned|
    && s.tables == [seq(INITIAL_SIZE, _ => Free)] && s.count == s.created == 0 && !s.resizing
    && (forall t :: 0 <= t < |s.pcs| ==> s.pcs[t] == Idle && s.returned[t] == [])
  }

  // ----- the invariant, relative to the count each thread drew and the producer it got

  /** `ticket[t]` is the newCount that thread t drew, 0 if none; `producer[t]` is its producer. */
  datatype Aux = Aux(ticket: seq<nat>, producer: seq<Val>)

  predicate HasKey(table: Table, t: Thread) {
    exists i :: 0 <= i < |table| && table[i].Taken? && table[i].key == t
  }

  predicate InNoTable(s: State, t: Thread) {
    forall h :: 0 <= h < |s.tables| ==> !HasKey(s.tables[h], t)
  }

  /** The first `pos` slots that thread `t` probes in table `h` are taken, by others. */
  ghost predicate Probed(s: State, h: nat, t: Thread, pos: nat)
    requires Wf(s) && h < |s.tables| && t < |s.hash|
  {
    forall d: nat :: d < pos ==> OthersSlot(s.tables[h][At(s, h, t, d)], t)
  }

  predicate OthersSlot(x: Slot, t: Thread) { x.Taken? && x.key != t }

  /** The key in slot `i` of table `h` is reached by probing before any free slot. */
  ghost predicate Reachable(s: State, h: nat, i: nat)
    requires Wf(s) && h < |s.tables| && i < |s.tables[h]| && s.tables[h][i].Taken? && s.tables[h][i].key < |s.hash|
  {
    exists d: nat :: At(s, h, s.tables[h][i].key, d) == i && Probed(s, h, s.tables[h][i].key, d)
  }

  /** Every key in a table drew a count below three quarters of its capacity, is reachable, and carries
      its thread's producer once that thread has stored it. */
  ghost predicate SlotOk(s: State, a: Aux, h: nat, i: nat)
    requires Wf(s) && AuxWf(s, a) && h < |s.tables| && i < |s.tables[h]|
  {
    var x := s.tables[h][i];
    x.Taken? ==>
      && x.key < |s.pcs|
      && 0 < a.ticket[x.key] < ThreeQuarters(s.tables[h])
      && a.producer[x.key].Set?
      && (x.value == a.producer[x.key] || s.pcs[x.key] == SetValue(h, i, a.producer[x.key].p))
      && Reachable(s, h, i)
      && (forall j :: 0 <= j < |s.tables[h]| && s.tables[h][j].Taken? && s.tables[h][j].key == x.key ==> i == j)
  }

  predicate AuxWf(s: State, a: Aux) {
    |a.ticket| == |a.producer| == |s.pcs|
  }

  ghost predicate ThreadOk(s: State, a: Aux, t: Thread)
    requires Wf(s) && AuxWf(s, a) && t < |s.pcs|
  {
    && (a.ticket[t] == 0 ==> InNoTable(s, t) && a.producer[t] == Unset)
    && (a.producer[t].Set? ==> a.producer[t].p < s.created && a.ticket[t] > 0)
    && (forall v :: v in s.returned[t] ==> a.producer[t] == Set(v))
    && match s.pcs[t]
       case Search(m, h, pos) =>
         && (forall j :: h < j < |s.tables| ==> !HasKey(s.tables[j], t))
         && Probed(s, h, t, pos)
         && (a.ticket[t] > 0 ==> Registered(s, a, t))
       case Copy(m, pos, v) =>
         !HasKey(s.tables[m], t) && Probed(s, m, t, pos) && Registered(s, a, t) && a.producer[t] == Set(v)
         && a.ticket[t] < ThreeQuarters(s.tables[m])
       case AddCount(m) => a.ticket[t] == 0
       case TestLock(m, nc) => Counting(s, a, t, nc)
       case Grow(nc) => Counting(s, a, t, nc)
       case Unlock(m, nc) => Counting(s, a, t, nc)
       case TestRoom(m, nc) => Counting(s, a, t, nc)
       case Insert(m, pos, v) =>
         && a.ticket[t] > 0 && InNoTable(s, t) && Probed(s, m, t, pos) && a.producer[t] == Set(v)
         && a.ticket[t] < ThreeQuarters(s.tables[m])
       case SetValue(m, idx, v) =>
         && s.tables[m][idx].Taken? && s.tables[m][idx].key == t && a.producer[t] == Set(v)
       case _ => a.ticket[t] > 0 ==> Registered(s, a, t)
  }

  ghost predicate Registered(s: State, a: Aux, t: Thread)
    requires Wf(s) && AuxWf(s, a) && t < |s.pcs|
  {
    a.producer[t].Set? && exists h :: 0 <= h < |s.tables| && HasKey(s.tables[h], t)
  }

  ghost predicate Counting(s: State, a: Aux, t: Thread, nc: nat)
    requires Wf(s) && AuxWf(s, a) && t < |s.pcs|
  {
    a.ticket[t] == nc > 0 && InNoTable(s, t) && a.producer[t] == Unset
  }

  ghost predicate Distinct(s: State, a: Aux)
    requires AuxWf(s, a)
  {
    && (forall t :: 0 <= t < |s.pcs| ==> a.ticket[t] <= s.count)
    && (forall t, u :: 0 <= t < u < |s.pcs| && a.ticket[t] > 0 ==> a.ticket[t] != a.ticket[u])
    && (forall t, u :: 0 <= t < u < |s.pcs| && a.producer[t].Set? ==> a.producer[t] != a.producer[u])
  }

  ghost predicate Tables(s: State) {
    && (forall h :: 0 <= h < |s.tables| ==> INITIAL_SIZE <= |s.tables[h]|)
    && (forall g, h :: 0 <= g < h < |s.tables| ==> |s.tables[g]| <= |s.tables[h]|)
  }

  ghost predicate InvWith(s: State, a: Aux) {
    && Wf(s) && AuxWf(s, a) && Distinct(s, a) && Tables(s)
    && (forall h, i :: 0 <= h < |s.tables| && 0 <= i < |s.tables[h]| ==> SlotOk(s, a, h, i))
    && (forall t :: 0 <= t < |s.pcs| ==> ThreadOk(s, a, t))
  }

  ghost predicate Inv(s: State) {
    exists a :: InvWith(s, a)
  }

  lemma InitEstablishesInv(s: State)
    requires Init(s)
    ensures InvWith(s, Aux(seq(|s.pcs|, _ => 0), seq(|s.pcs|, _ => Unset)))
  {
  }

  // ----- every table keeps a free slot

  /** The keys of a table drew distinct counts below three quarters of its capacity, lazily copied keys
      included, so some slot is free. */
  lemma SomeSlotFree(s: State, a: Aux, h: nat)
    requires InvWith(s, a) && h < |s.tables|
    ensures exists i :: 0 <= i < |s.tables[h]| && s.tables[h][i].Free?
  {
    var table := s.tables[h];
    if forall i :: 0 <= i < |table| ==> table[i].Taken? {
      forall i | 0 <= i < |table| ensures table[i].key < |s.pcs| && 0 < a.ticket[table[i].key] < ThreeQuarters(table) {
        assert SlotOk(s, a, h, i);
      }
      var xs: seq<int> := seq(|table|, i requires 0 <= i < |table| => a.ticket[table[i].key]);
      forall i, j | 0 <= i < j < |xs| ensures xs[i] != xs[j] {
        assert SlotOk(s, a, h, i) && SlotOk(s, a, h, j);
        if table[i].key < table[j].key {
          assert a.ticket[table[i].key] != a.ticket[table[j].key];
        } else if table[j].key < table[i].key {
          assert a.ticket[table[j].key] != a.ticket[table[i].key];
        }
      }
      Pigeonhole(xs, 1, ThreeQuarters(table));
      assert false;
    }
  }

  /** Probing `n` consecutive positions of a table of size `n` visits every slot. */
  lemma ProbeCovers(start: nat, n: nat, i: nat) returns (d: nat)
    requires i < n
    ensures d < n && (start + d) % n == i
  {
    var z := i + n - start % n;
    d := z % n;
    ModSum(z, start, n);
    ModSum(start, z, n);
    DivModUnique(i + n, 1, i, n);
  }

  /** Every probe loop ends: a thread never has as many slots behind it as the table has. */
  lemma ProbesEnd(s: State, a: Aux, h: nat, t: Thread, pos: nat)
    requires InvWith(s, a) && h < |s.tables| && t < |s.pcs| && Probed(s, h, t, pos)
    ensures pos < |s.tables[h]|
  {
    SomeSlotFree(s, a, h);
    var i :| 0 <= i < |s.tables[h]| && s.tables[h][i].Free?;
    var d := ProbeCovers(s.hash[t], |s.tables[h]|, i);
    assert At(s, h, t, d) == i;
  }

  /** A free slot on the probe path proves that the thread has no entry in the table. */
  lemma FreeSlotMeansAbsent(s: State, a: Aux, h: nat, t: Thread, pos: nat)
    requires InvWith(s, a) && h < |s.tables| && t < |s.pcs| && Probed(s, h, t, pos)
    requires s.tables[h][At(s, h, t, pos)].Free?
    ensures !HasKey(s.tables[h], t)
  {
    var table := s.tables[h];
    forall i | 0 <= i < |table| && table[i].Taken? ensures table[i].key != t {
      assert SlotOk(s, a, h, i);
    }
  }

  // ----- steps

  /** Only thread `t` may have taken free slots; taken slots keep their keys; new tables are empty. */
  ghost predicate Evolves(s: State, s': State, t: Thread) {
    && Wf(s) && Wf(s') && s'.hash == s.hash && |s'.pcs| == |s.pcs| && |s.tables| <= |s'.tables|
    && s.created <= s'.created
    && (forall h :: 0 <= h < |s.tables| ==> TableEvolves(s.tables[h], s'.tables[h], t))
    && (forall h, i :: |s.tables| <= h < |s'.tables| && 0 <= i < |s'.tables[h]| ==> s'.tables[h][i].Free?)
    && (forall u :: 0 <= u < |s.pcs| && u != t ==> s'.pcs[u] == s.pcs[u] && s'.returned[u] == s.returned[u])
  }

  ghost predicate TableEvolves(old_: Table, new_: Table, t: Thread) {
    && |old_| == |new_|
    && forall i :: 0 <= i < |old_| ==>
         (if old_[i].Taken?
          then new_[i].Taken? && new_[i].key == old_[i].key && (old_[i].key != t ==> new_[i] == old_[i])
          else new_[i].Taken? ==> new_[i].key == t)
  }

  lemma ProbedStays(s: State, s': State, t: Thread, h: nat, u: Thread, pos: nat)
    requires Evolves(s, s', t) && h < |s.tables| && u < |s.pcs| && Probed(s, h, u, pos)
    ensures Probed(s', h, u, pos)
  {
    forall d: nat | d < pos ensures OthersSlot(s'.tables[h][At(s', h, u, d)], u) {
      assert TableEvolves(s.tables[h], s'.tables[h], t);
      assert OthersSlot(s.tables[h][At(s, h, u, d)], u);
    }
  }

  lemma KeysOfOthers(s: State, s': State, t: Thread, h: nat, u: Thread)
    requires Evolves(s, s', t) && h < |s'.tables| && u != t
    ensures HasKey(s'.tables[h], u) <==> h < |s.tables| && HasKey(s.tables[h], u)
  {
    if h < |s.tables| {
      assert TableEvolves(s.tables[h], s'.tables[h], t);
    }
  }

  lemma KeysStay(s: State, s': State, t: Thread, h: nat, u: Thread)
    requires Evolves(s, s', t) && h < |s.tables| && HasKey(s.tables[h], u)
    ensures HasKey(s'.tables[h], u)
  {
    assert TableEvolves(s.tables[h], s'.tables[h], t);
  }

  ghost predicate SameFor(a: Aux, a': Aux, u: Thread) {
    u < |a.ticket| && u < |a.producer| && u < |a'.ticket| && u < |a'.producer| &&
    a'.ticket[u] == a.ticket[u] && a'.producer[u] == a.producer[u]
  }

  lemma RegisteredStays(s: State, a: Aux, s': State, a': Aux, t: Thread, u: Thread)
    requires Evolves(s, s', t) && AuxWf(s, a) && AuxWf(s', a') && u < |s.pcs|
    requires Registered(s, a, u) && a'.producer[u] == a.producer[u]
    ensures Registered(s', a', u)
  {
    var h :| 0 <= h < |s.tables| && HasKey(s.tables[h], u);
    KeysStay(s, s', t, h, u);
  }

  /** The other threads are not disturbed by a step of `t`. */
  lemma OthersOk(s: State, a: Aux, s': State, a': Aux, t: Thread, u: Thread)
    requires InvWith(s, a) && Evolves(s, s', t) && AuxWf(s', a') && u < |s.pcs| && u != t && SameFor(a, a', u)
    ensures ThreadOk(s', a', u)
  {
    assert ThreadOk(s, a, u) && PcWf(s, s.pcs[u]);
    forall h | 0 <= h < |s'.tables| ensures HasKey(s'.tables[h], u) <==> h < |s.tables| && HasKey(s.tables[h], u) {
      KeysOfOthers(s, s', t, h, u);
    }
    forall h | 0 <= h < |s.tables| ensures |s'.tables[h]| == |s.tables[h]| {
      assert TableEvolves(s.tables[h], s'.tables[h], t);
    }
    if Registered(s, a, u) {
      RegisteredStays(s, a, s', a', t, u);
    }
    match s.pcs[u]
    case Search(m, h, pos) => ProbedStays(s, s', t, h, u, pos);
    case Copy(m, pos, v) => ProbedStays(s, s', t, m, u, pos);
    case Insert(m, pos, v) => ProbedStays(s, s', t, m, u, pos);
    case SetValue(m, i, v) => assert TableEvolves(s.tables[m], s'.tables[m], t);
    case _ =>
  }

  lemma ReachableStays(s: State, s': State, t: Thread, h: nat, i: nat)
    requires Evolves(s, s', t) && h < |s.tables| && i < |s.tables[h]| && s.tables[h][i].Taken?
    requires s.tables[h][i].key < |s.hash| && Reachable(s, h, i) && i < |s'.tables[h]|
    requires s'.tables[h][i].Taken? && s'.tables[h][i].key == s.tables[h][i].key
    ensures Reachable(s', h, i)
  {
    var u := s.tables[h][i].key;
    var d: nat :| At(s, h, u, d) == i && Probed(s, h, u, d);
    ProbedStays(s, s', t, h, u, d);
    assert TableEvolves(s.tables[h], s'.tables[h], t);
    assert At(s', h, u, d) == i;
  }

  /** Slots of other threads keep their guarantees; those of `t` do when its value is right. */
  lemma SlotStays(s: State, a: Aux, s': State, a': Aux, t: Thread, h: nat, i: nat)
    requires InvWith(s, a) && Evolves(s, s', t) && AuxWf(s', a')
    requires h < |s.tables| && i < |s.tables[h]| && s.tables[h][i].Taken? && i < |s'.tables[h]|
    requires SameFor(a, a', s.tables[h][i].key)
    requires s.tables[h][i].key == t ==>
               && (s'.tables[h][i].Taken? && s'.tables[h][i].value == a.producer[t])
               && forall j :: 0 <= j < |s'.tables[h]| && s'.tables[h][j].Taken? && s'.tables[h][j].key == t ==> i == j
    ensures SlotOk(s', a', h, i)
  {
    assert SlotOk(s, a, h, i);
    assert TableEvolves(s.tables[h], s'.tables[h], t);
    ReachableStays(s, s', t, h, i);
  }

  /** A step that touches neither tables nor the other threads. */
  lemma LocalEvolves(s: State, s': State, t: Thread)
    requires Wf(s) && t < |s.pcs| && t < |s'.pcs| && t < |s'.returned| && s.created <= s'.created
    requires s'.tables == s.tables && s'.hash == s.hash && PcWf(s, s'.pcs[t])
    requires s'.pcs == s.pcs[t := s'.pcs[t]] && s'.returned == s.returned[t := s'.returned[t]]
    ensures Evolves(s, s', t)
  {
    forall u | 0 <= u < |s'.pcs| ensures PcWf(s', s'.pcs[u]) {
      assert PcWf(s, s'.pcs[u]);
    }
  }

  /** Steps of `t` that do not touch the tables. */
  lemma NoTableStep(s: State, a: Aux, s': State, a': Aux, t: Thread)
    requires InvWith(s, a) && Evolves(s, s', t) && s'.tables == s.tables
    requires t < |s.pcs| && !s.pcs[t].SetValue? && !s'.pcs[t].SetValue?
    requires AuxWf(s', a') && Distinct(s', a') && ThreadOk(s', a', t)
    requires forall u :: 0 <= u < |s.pcs| && u != t ==> SameFor(a, a', u)
    requires SameFor(a, a', t) || InNoTable(s, t)
    ensures InvWith(s', a')
  {
    forall u | 0 <= u < |s'.pcs| ensures ThreadOk(s', a', u) {
      if u != t {
        OthersOk(s, a, s', a', t, u);
      }
    }
    forall h, i | 0 <= h < |s'.tables| && 0 <= i < |s'.tables[h]| ensures SlotOk(s', a', h, i) {
      assert SlotOk(s, a, h, i);
      if s.tables[h][i].Taken? {
        assert s.tables[h][i].key == t ==> HasKey(s.tables[h], t);
        SlotStays(s, a, s', a', t, h, i);
      }
    }
  }

  /** A step that only moves thread `t` on. */
  lemma LocalStep(s: State, a: Aux, s': State, t: Thread)
    requires InvWith(s, a) && t < |s.pcs| == |s'.pcs| && !s.pcs[t].SetValue? && !s'.pcs[t].SetValue?
    requires s' == s.(pcs := s'.pcs, returned := s'.returned, resizing := s'.resizing) && Evolves(s, s', t)
    requires ThreadOk(s', a, t)
    ensures InvWith(s', a)
  {
    NoTableStep(s, a, s', a, t);
  }

  lemma StepLoadMain(s: State, a: Aux, t: Thread)
    requires InvWith(s, a) && t < |s.pcs| && s.pcs[t].LoadMain?
    ensures InvWith(AdvanceThread(s, t), a)
  {
    var s' := AdvanceThread(s, t);
    assert ThreadOk(s, a, t);
    if Registered(s, a, t) {
      LocalEvolves(s, s', t);
      RegisteredStays(s, a, s', a, t, t);
    }
    LocalStep(s, a, s', t);
  }

  lemma ProbeOneMore(s: State, h: nat, t: Thread, pos: nat)
    requires Wf(s) && h < |s.tables| && t < |s.hash| && Probed(s, h, t, pos)
    requires OthersSlot(s.tables[h][At(s, h, t, pos)], t)
    ensures Probed(s, h, t, pos + 1)
  {
  }

  /** The own id is not in table `h`: go on with the previous table. */
  lemma SearchAbsent(s: State, a: Aux, t: Thread)
    requires InvWith(s, a) && t < |s.pcs| && s.pcs[t].Search? && PcWf(s, s.pcs[t])
    requires s.tables[s.pcs[t].h][At(s, s.pcs[t].h, t, s.pcs[t].pos)].Free?
    ensures InvWith(AdvanceThread(s, t), a)
  {
    var s' := AdvanceThread(s, t);
    var h, pos := s.pcs[t].h, s.pcs[t].pos;
    assert ThreadOk(s, a, t);
    LocalEvolves(s, s', t);
    FreeSlotMeansAbsent(s, a, h, t, pos);
    if a.ticket[t] > 0 {
      RegisteredStays(s, a, s', a, t, t);
    }
    LocalStep(s, a, s', t);
  }

  lemma SearchOther(s: State, a: Aux, t: Thread)
    requires InvWith(s, a) && t < |s.pcs| && s.pcs[t].Search? && PcWf(s, s.pcs[t])
    requires OthersSlot(s.tables[s.pcs[t].h][At(s, s.pcs[t].h, t, s.pcs[t].pos)], t)
    ensures InvWith(AdvanceThread(s, t), a)
  {
    var s' := AdvanceThread(s, t);
    var h, pos := s.pcs[t].h, s.pcs[t].pos;
    assert ThreadOk(s, a, t);
    LocalEvolves(s, s', t);
    ProbeOneMore(s, h, t, pos);
    ProbedStays(s, s', t, h, t, pos + 1);
    if a.ticket[t] > 0 {
      RegisteredStays(s, a, s', a, t, t);
    }
    LocalStep(s, a, s', t);
  }

  /** The own id is found, and with it the producer this thread got before. */
  lemma SearchFound(s: State, a: Aux, t: Thread)
    requires InvWith(s, a) && t < |s.pcs| && s.pcs[t].Search? && PcWf(s, s.pcs[t])
    requires var x := s.tables[s.pcs[t].h][At(s, s.pcs[t].h, t, s.pcs[t].pos)]; x.Taken? && x.key == t
    ensures InvWith(AdvanceThread(s, t), a)
  {
    var s' := AdvanceThread(s, t);
    var m, h, pos := s.pcs[t].m, s.pcs[t].h, s.pcs[t].pos;
    assert ThreadOk(s, a, t);
    assert SlotOk(s, a, h, At(s, h, t, pos));
    LocalEvolves(s, s', t);
    RegisteredStays(s, a, s', a, t, t);
    assert |s.tables[h]| <= |s.tables[m]|;
    LocalStep(s, a, s', t);
  }

  lemma StepSearch(s: State, a: Aux, t: Thread)
    requires InvWith(s, a) && t < |s.pcs| && s.pcs[t].Search? && PcWf(s, s.pcs[t])
    ensures InvWith(AdvanceThread(s, t), a)
  {
    var x := s.tables[s.pcs[t].h][At(s, s.pcs[t].h, t, s.pcs[t].pos)];
    if x.Free? {
      SearchAbsent(s, a, t);
    } else if x.key != t {
      SearchOther(s, a, t);
    } else {
      SearchFound(s, a, t);
    }
  }

  lemma StepAddCount(s: State, a: Aux, t: Thread)
    requires InvWith(s, a) && t < |s.pcs| && s.pcs[t].AddCount?
    ensures Inv(AdvanceThread(s, t))
  {
    var s' := AdvanceThread(s, t);
    assert PcWf(s, s.pcs[t]) && ThreadOk(s, a, t);
    var a' := a.(ticket := a.ticket[t := s.count + 1]);
    NoTableStep(s, a, s', a', t);
  }

  lemma StepLock(s: State, a: Aux, t: Thread)
    requires InvWith(s, a) && t < |s.pcs| && (s.pcs[t].TestLock? || s.pcs[t].Unlock?)
    ensures InvWith(AdvanceThread(s, t), a)
  {
    var s' := AdvanceThread(s, t);
    assert PcWf(s, s.pcs[t]) && ThreadOk(s, a, t);
    LocalStep(s, a, s', t);
  }

  /** There is room: the thread gets a new producer. */
  lemma RoomFound(s: State, a: Aux, t: Thread)
    requires InvWith(s, a) && t < |s.pcs| && s.pcs[t].TestRoom? && PcWf(s, s.pcs[t])
    requires s.pcs[t].nc < ThreeQuarters(s.tables[s.pcs[t].m])
    ensures Inv(AdvanceThread(s, t))
  {
    var s' := AdvanceThread(s, t);
    assert ThreadOk(s, a, t);
    var a' := a.(producer := a.producer[t := Set(s.created)]);
    forall u | 0 <= u < |s.pcs| && a.producer[u].Set? ensures a.producer[u].p < s.created {
      assert ThreadOk(s, a, u);
    }
    LocalEvolves(s, s', t);
    NoTableStep(s, a, s', a', t);
  }

  lemma StepTestRoom(s: State, a: Aux, t: Thread)
    requires InvWith(s, a) && t < |s.pcs| && s.pcs[t].TestRoom?
    ensures Inv(AdvanceThread(s, t))
  {
    var s' := AdvanceThread(s, t);
    assert PcWf(s, s.pcs[t]) && ThreadOk(s, a, t);
    if s.pcs[t].nc < ThreeQuarters(s.tables[s.pcs[t].m]) {
      RoomFound(s, a, t);
    } else {
      LocalEvolves(s, s', t);
      LocalStep(s, a, s', t);
    }
  }

  /** A step of `t` that changes one slot, which was free or its own. */
  lemma SlotEvolves(s: State, s': State, t: Thread, h: nat, i: nat, x: Slot)
    requires Wf(s) && t < |s.pcs| && t < |s'.pcs| && t < |s'.returned| && h < |s.tables| && i < |s.tables[h]|
    requires s.tables[h][i].Free? || s.tables[h][i].key == t
    requires s' == SetSlot(s, h, i, x).(pcs := s.pcs[t := s'.pcs[t]], returned := s.returned[t := s'.returned[t]])
    requires x.Taken? && x.key == t && PcWf(s, s'.pcs[t])
    ensures Evolves(s, s', t)
  {
    forall u | 0 <= u < |s'.pcs| ensures PcWf(s', s'.pcs[u]) {
      assert PcWf(s, s'.pcs[u]);
    }
    forall g | 0 <= g < |s.tables| ensures TableEvolves(s.tables[g], s'.tables[g], t) {
    }
  }

  lemma AllThreadsOk(s: State, a: Aux, s': State, t: Thread)
    requires InvWith(s, a) && Evolves(s, s', t) && t < |s.pcs| && ThreadOk(s', a, t)
    ensures forall u :: 0 <= u < |s'.pcs| ==> ThreadOk(s', a, u)
  {
    forall u | 0 <= u < |s'.pcs| ensures ThreadOk(s', a, u) {
      if u != t {
        OthersOk(s, a, s', a, t, u);
      }
    }
  }

  /** Taking a free slot, from Copy or from Insert. */
  lemma TakeEvolves(s: State, a: Aux, t: Thread)
    requires InvWith(s, a) && t < |s.pcs| && (s.pcs[t].Copy? || s.pcs[t].Insert?)
    requires PcWf(s, s.pcs[t]) && s.tables[s.pcs[t].m][At(s, s.pcs[t].m, t, s.pcs[t].pos)].Free?
    ensures Evolves(s, AdvanceThread(s, t), t) && !HasKey(s.tables[s.pcs[t].m], t)
    ensures ThreadOk(AdvanceThread(s, t), a, t)
  {
    var s' := AdvanceThread(s, t);
    assert ThreadOk(s, a, t);
    SlotEvolves(s, s', t, s.pcs[t].m, At(s, s.pcs[t].m, t, s.pcs[t].pos), Taken(t, Unset));
  }

  lemma TakeSlot(s: State, a: Aux, t: Thread, h: nat, j: nat)
    requires InvWith(s, a) && t < |s.pcs| && (s.pcs[t].Copy? || s.pcs[t].Insert?)
    requires PcWf(s, s.pcs[t]) && s.tables[s.pcs[t].m][At(s, s.pcs[t].m, t, s.pcs[t].pos)].Free?
    requires Evolves(s, AdvanceThread(s, t), t) && !HasKey(s.tables[s.pcs[t].m], t)
    requires h < |s.tables| && j < |s.tables[h]|
    ensures SlotOk(AdvanceThread(s, t), a, h, j)
  {
    var s' := AdvanceThread(s, t);
    var m, pos := s.pcs[t].m, s.pcs[t].pos;
    assert ThreadOk(s, a, t) && SlotOk(s, a, h, j);
    if s.tables[h][j].Taken? {
      assert s.tables[h][j].key == t ==> HasKey(s.tables[h], t);
      SlotStays(s, a, s', a, t, h, j);
    } else if h == m && j == At(s, m, t, pos) {
      ProbedStays(s, s', t, m, t, pos);
      assert At(s', m, t, pos) == j;
    }
  }

  lemma StepTake(s: State, a: Aux, t: Thread)
    requires InvWith(s, a) && t < |s.pcs| && (s.pcs[t].Copy? || s.pcs[t].Insert?)
    requires PcWf(s, s.pcs[t]) && s.tables[s.pcs[t].m][At(s, s.pcs[t].m, t, s.pcs[t].pos)].Free?
    ensures InvWith(AdvanceThread(s, t), a)
  {
    var s' := AdvanceThread(s, t);
    TakeEvolves(s, a, t);
    AllThreadsOk(s, a, s', t);
    forall h, j | 0 <= h < |s'.tables| && 0 <= j < |s'.tables[h]| ensures SlotOk(s', a, h, j) {
      TakeSlot(s, a, t, h, j);
    }
  }

  lemma StepProbe(s: State, a: Aux, t: Thread)
    requires InvWith(s, a) && t < |s.pcs| && (s.pcs[t].Copy? || s.pcs[t].Insert?)
    requires PcWf(s, s.pcs[t]) && !s.tables[s.pcs[t].m][At(s, s.pcs[t].m, t, s.pcs[t].pos)].Free?
    ensures InvWith(AdvanceThread(s, t), a)
  {
    var s' := AdvanceThread(s, t);
    var m, pos := s.pcs[t].m, s.pcs[t].pos;
    assert ThreadOk(s, a, t);
    assert !HasKey(s.tables[m], t);
    LocalEvolves(s, s', t);
    ProbeOneMore(s, m, t, pos);
    ProbedStays(s, s', t, m, t, pos + 1);
    if s.pcs[t].Copy? {
      RegisteredStays(s, a, s', a, t, t);
    }
    LocalStep(s, a, s', t);
  }

  lemma SetValueEvolves(s: State, a: Aux, t: Thread)
    requires InvWith(s, a) && t < |s.pcs| && s.pcs[t].SetValue? && PcWf(s, s.pcs[t])
    ensures Evolves(s, AdvanceThread(s, t), t) && ThreadOk(AdvanceThread(s, t), a, t)
  {
    var s' := AdvanceThread(s, t);
    var m, i, v := s.pcs[t].m, s.pcs[t].idx, s.pcs[t].v;
    assert ThreadOk(s, a, t) && SlotOk(s, a, m, i);
    SlotEvolves(s, s', t, m, i, Taken(t, Set(v)));
    assert s'.tables[m][i].Taken? && s'.tables[m][i].key == t;
    assert HasKey(s'.tables[m], t);
  }

  lemma StepSetValue(s: State, a: Aux, t: Thread)
    requires InvWith(s, a) && t < |s.pcs| && s.pcs[t].SetValue?
    ensures InvWith(AdvanceThread(s, t), a)
  {
    var s' := AdvanceThread(s, t);
    var m, i := s.pcs[t].m, s.pcs[t].idx;
    assert PcWf(s, s.pcs[t]) && ThreadOk(s, a, t) && SlotOk(s, a, m, i);
    SetValueEvolves(s, a, t);
    AllThreadsOk(s, a, s', t);
    forall h, j | 0 <= h < |s'.tables| && 0 <= j < |s'.tables[h]| ensures SlotOk(s', a, h, j) {
      assert SlotOk(s, a, h, j);
      if s.tables[h][j].Taken? {
        SlotStays(s, a, s', a, t, h, j);
      }
    }
  }

  lemma AppendTable(s: State, a: Aux, s': State, t: Thread, table: Table)
    requires InvWith(s, a) && t < |s.pcs| && s.pcs[t].Grow?
    requires s' == s.(tables := s.tables + [table], pcs := s.pcs[t := Unlock(|s.tables|, s.pcs[t].nc)])
    requires |s.tables[|s.tables| - 1]| <= |table| && forall i :: 0 <= i < |table| ==> table[i] == Free
    ensures InvWith(s', a)
  {
    assert ThreadOk(s, a, t);
    assert Wf(s') by {
      forall u | 0 <= u < |s'.pcs| ensures PcWf(s', s'.pcs[u]) {
        assert PcWf(s, s.pcs[u]);
      }
    }
    assert Evolves(s, s', t);
    forall u | 0 <= u < |s'.pcs| ensures ThreadOk(s', a, u) {
      if u != t {
        OthersOk(s, a, s', a, t, u);
      }
    }
    forall h, j | 0 <= h < |s'.tables| && 0 <= j < |s'.tables[h]| ensures SlotOk(s', a, h, j) {
      if h < |s.tables| {
        assert SlotOk(s, a, h, j);
        if s.tables[h][j].Taken? {
          assert !HasKey(s.tables[h], t);
          SlotStays(s, a, s', a, t, h, j);
        }
      }
    }
  }

  lemma StepGrow(s: State, a: Aux, t: Thread)
    requires InvWith(s, a) && t < |s.pcs| && s.pcs[t].Grow?
    ensures InvWith(AdvanceThread(s, t), a)
  {
    var s' := AdvanceThread(s, t);
    var main := s.tables[|s.tables| - 1];
    assert ThreadOk(s, a, t);
    if s.pcs[t].nc < Half(main) {
      LocalStep(s, a, s', t);
    } else {
      var table: Table := seq(NewCapacity(2 * |main|, s.pcs[t].nc), _ => Free);
      AppendTable(s, a, s', t, table);
    }
  }

  lemma StepKeepsInv(s: State, act: Action)
    requires Inv(s) && Enabled(s, act)
    ensures Inv(Do(s, act))
  {
    var a :| InvWith(s, a);
    var t := act.t;
    if act.Call? {
      var s' := Do(s, act);
      assert ThreadOk(s, a, t);
      LocalEvolves(s, s', t);
      if a.ticket[t] > 0 {
        RegisteredStays(s, a, s', a, t, t);
      }
      LocalStep(s, a, s', t);
    } else {
      AdvanceKeepsInv(s, a, t);
    }
  }

  lemma AdvanceKeepsInv(s: State, a: Aux, t: Thread)
    requires InvWith(s, a) && t < |s.pcs| && !s.pcs[t].Idle?
    ensures Inv(AdvanceThread(s, t))
  {
    assert PcWf(s, s.pcs[t]);
    match s.pcs[t]
    case LoadMain => StepLoadMain(s, a, t);
    case Search(_, _, _) => StepSearch(s, a, t);
    case AddCount(_) => StepAddCount(s, a, t);
    case TestLock(_, _) => StepLock(s, a, t);
    case Unlock(_, _) => StepLock(s, a, t);
    case Grow(_) => StepGrow(s, a, t);
    case TestRoom(_, _) => StepTestRoom(s, a, t);
    case SetValue(_, _, _) => StepSetValue(s, a, t);
    case Copy(m, pos, _) =>
      if s.tables[m][At(s, m, t, pos)].Free? {
        StepTake(s, a, t);
      } else {
        StepProbe(s, a, t);
      }
    case Insert(m, pos, _) =>
      if s.tables[m][At(s, m, t, pos)].Free? {
        StepTake(s, a, t);
      } else {
        StepProbe(s, a, t);
      }
  }

  // ----- whole runs

  ghost predicate IsStep(s: State, act: Action, s': State) {
    Wf(s) && Enabled(s, act) && s' == Do(s, act)
  }

  ghost predicate IsRun(ss: seq<State>, acts: seq<Action>) {
    && |ss| == |acts| + 1
    && Init(ss[0])
    && forall i {:trigger acts[i]} :: 0 <= i < |acts| ==> IsStep(ss[i], acts[i], ss[i + 1])
  }

  lemma {:induction false} RunKeepsInv(ss: seq<State>, acts: seq<Action>, i: nat)
    requires IsRun(ss, acts) && i < |ss|
    ensures Inv(ss[i])
  {
    if i == 0 {
      InitEstablishesInv(ss[0]);
    } else {
      RunKeepsInv(ss, acts, i - 1);
      assert IsStep(ss[i - 1], acts[i - 1], ss[i]);
      StepKeepsInv(ss[i - 1], acts[i - 1]);
    }
  }

  ghost predicate AllPowers(s: State) { forall h :: 0 <= h < |s.tables| ==> IsPowerOfTwo(|s.tables[h]|) }

  lemma GrownIsPower(s: State, t: Thread)
    requires Wf(s) && t < |s.pcs| && s.pcs[t].Grow? && AllPowers(s)
    ensures AllPowers(AdvanceThread(s, t))
  {
    var main := |s.tables[|s.tables| - 1]|;
    assert 2 * main / 2 == main;
    assert IsPowerOfTwo(2 * main);
  }

  lemma StepKeepsPowers(s: State, act: Action, s': State)
    requires IsStep(s, act, s') && AllPowers(s)
    ensures AllPowers(s')
  {
    if act.Advance? && s.pcs[act.t].Grow? {
      GrownIsPower(s, act.t);
    } else {
      SizesKept(s, act, s');
    }
  }

  lemma SizesKept(s: State, act: Action, s': State)
    requires IsStep(s, act, s') && !(act.Advance? && s.pcs[act.t].Grow?)
    ensures |s'.tables| == |s.tables| && forall h :: 0 <= h < |s.tables| ==> |s'.tables[h]| == |s.tables[h]|
  {
  }

  /** However the table has grown, its capacity is a power of two. */
  lemma {:induction false} CapacitiesArePowersOfTwo(ss: seq<State>, acts: seq<Action>, i: nat)
    requires IsRun(ss, acts) && i < |ss|
    ensures AllPowers(ss[i])
  {
    if i == 0 {
      assert IsPowerOfTwo(2) && IsPowerOfTwo(8) && IsPowerOfTwo(32);
    } else {
      CapacitiesArePowersOfTwo(ss, acts, i - 1);
      StepKeepsPowers(ss[i - 1], acts[i - 1], ss[i]);
    }
  }

  /** In every state of every run every table of the chain has a free slot. */
  lemma EveryTableHasFreeSlot(ss: seq<State>, acts: seq<Action>, i: nat, h: nat)
    requires IsRun(ss, acts) && i < |ss| && h < |ss[i].tables|
    ensures exists k :: 0 <= k < |ss[i].tables[h]| && ss[i].tables[h][k].Free?
  {
    RunKeepsInv(ss, acts, i);
    var a :| InvWith(ss[i], a);
    SomeSlotFree(ss[i], a, h);
  }

  /** How many slots the probe loop of a thread has passed, and in which table. */
  function ProbeDepth(pc: Pc): (d: (nat, nat)) {
    match pc
    case Search(_, h, pos) => (h, pos)
    case Copy(m, pos, _) => (m, pos)
    case Insert(m, pos, _) => (m, pos)
    case _ => (0, 0)
  }

  /** Each of the three probe loops ends within one pass over its table. */
  lemma ProbeLoopsTerminate(ss: seq<State>, acts: seq<Action>, i: nat, t: Thread)
    requires IsRun(ss, acts) && i < |ss| && t < |ss[i].pcs|
    ensures var (h, pos) := ProbeDepth(ss[i].pcs[t]);
            h < |ss[i].tables| && pos < |ss[i].tables[h]|
  {
    RunKeepsInv(ss, acts, i);
    var s := ss[i];
    var a :| InvWith(s, a);
    assert PcWf(s, s.pcs[t]) && ThreadOk(s, a, t);
    var (h, pos) := ProbeDepth(s.pcs[t]);
    if s.pcs[t].Search? || s.pcs[t].Copy? || s.pcs[t].Insert? {
      assert s.pcs[t].Insert? ==> !HasKey(s.tables[h], t);
      ProbesEnd(s, a, h, t, pos);
    }
  }

  /** Every call of a thread returns the same producer. */
  lemma SameThreadSameProducer(ss: seq<State>, acts: seq<Action>, i: nat, t: Thread, j: nat, k: nat)
    requires IsRun(ss, acts) && i < |ss| && t < |ss[i].returned|
    requires j < |ss[i].returned[t]| && k < |ss[i].returned[t]|
    ensures ss[i].returned[t][j] == ss[i].returned[t][k]
  {
    RunKeepsInv(ss, acts, i);
    var a :| InvWith(ss[i], a);
    assert ThreadOk(ss[i], a, t);
    assert ss[i].returned[t][j] in ss[i].returned[t] && ss[i].returned[t][k] in ss[i].returned[t];
  }

  /** Calls of different threads return different producers. */
  lemma DifferentThreadsDifferentProducers(
      ss: seq<State>, acts: seq<Action>, i: nat, t: Thread, u: Thread, j: nat, k: nat)
    requires IsRun(ss, acts) && i < |ss| && t < |ss[i].returned| && u < |ss[i].returned| && t != u
    requires j < |ss[i].returned[t]| && k < |ss[i].returned[u]|
    ensures ss[i].returned[t][j] != ss[i].returned[u][k]
  {
    RunKeepsInv(ss, acts, i);
    var a :| InvWith(ss[i], a);
    assert ThreadOk(ss[i], a, t) && ThreadOk(ss[i], a, u);
    assert ss[i].returned[t][j] in ss[i].returned[t] && ss[i].returned[u][k] in ss[i].returned[u];
    if t < u {
      assert a.producer[t] != a.producer[u];
    } else {
      assert a.producer[u] != a.producer[t];
    }
  }

  // ----- a call waits for nobody but the thread that holds the resize flag

  /** Thread `t`, running alone, returns from its call within `k` accesses, having returned `n` times then. */
  ghost predicate ReturnsIn(s: State, t: Thread, n: nat, k: nat)
    decreases k
  {
    && Wf(s) && t < |s.pcs|
    && if s.pcs[t].Idle? then |s.returned[t]| == n else 0 < k && ReturnsIn(AdvanceThread(s, t), t, n, k - 1)
  }

  /** The next state of a thread that runs alone. */
  lemma Alone(s: State, t: Thread) returns (s': State)
    requires Inv(s) && t < |s.pcs| && !s.pcs[t].Idle?
    ensures s' == AdvanceThread(s, t) && Inv(s')
    ensures forall n: nat, k: nat :: ReturnsIn(s', t, n, k) ==> ReturnsIn(s, t, n, k + 1)
  {
    s' := AdvanceThread(s, t);
    StepKeepsInv(s, Advance(t));
  }

  lemma ProbeInRange(s: State, t: Thread)
    requires Inv(s) && t < |s.pcs| && (s.pcs[t].Search? || s.pcs[t].Copy? || s.pcs[t].Insert?)
    ensures var (h, pos) := ProbeDepth(s.pcs[t]); h < |s.tables| && pos < |s.tables[h]|
  {
    var a :| InvWith(s, a);
    assert PcWf(s, s.pcs[t]) && ThreadOk(s, a, t);
    var (h, pos) := ProbeDepth(s.pcs[t]);
    assert s.pcs[t].Insert? ==> !HasKey(s.tables[h], t);
    ProbesEnd(s, a, h, t, pos);
  }

  lemma {:induction false} SoloTakesSlot(s: State, t: Thread) returns (k: nat)
    requires Inv(s) && t < |s.pcs| && (s.pcs[t].Copy? || s.pcs[t].Insert? || s.pcs[t].SetValue?)
    ensures ReturnsIn(s, t, |s.returned[t]| + 1, k)
    decreases if s.pcs[t].SetValue? then 0 else |s.tables[s.pcs[t].m]| - s.pcs[t].pos + 1
  {
    var s' := Alone(s, t);
    if s.pcs[t].SetValue? {
      assert ReturnsIn(s', t, |s.returned[t]| + 1, 0);
      k := 1;
    } else {
      ProbeInRange(s, t);
      var k' := SoloTakesSlot(s', t);
      k := k' + 1;
    }
  }

  /** The main table has room for the count `nc`. */
  ghost predicate MainHasRoom(s: State, nc: nat)
    requires Wf(s)
  {
    nc < ThreeQuarters(s.tables[|s.tables| - 1])
  }

  /** Whoever needs room has it in the main table, or can make it unless the flag is taken. */
  lemma {:induction false} SoloFindsRoom(s: State, t: Thread) returns (k: nat)
    requires Inv(s) && t < |s.pcs|
    requires match s.pcs[t]
             case Grow(_) => true
             case Unlock(_, _) => true
             case TestRoom(_, nc) => s.resizing ==> MainHasRoom(s, nc)
             case TestLock(_, nc) => s.resizing ==> MainHasRoom(s, nc)
             case _ => false
    ensures ReturnsIn(s, t, |s.returned[t]| + 1, k)
    decreases match s.pcs[t]
              case TestRoom(m, nc) => if nc < ThreeQuarters(s.tables[m]) then 0 else 4
              case TestLock(m, nc) =>
                if nc < Half(s.tables[m]) then 1
                else if !s.resizing then 3
                else if nc < ThreeQuarters(s.tables[m]) then 1 else 5
              case Unlock(m, nc) => if nc < ThreeQuarters(s.tables[m]) then 1 else 5
              case _ => 2
  {
    var s' := Alone(s, t);
    if s'.pcs[t].Insert? {
      var k' := SoloTakesSlot(s', t);
      k := k' + 1;
    } else {
      var k' := SoloFindsRoom(s', t);
      k := k' + 1;
    }
  }

  lemma SoloCounts(s: State, t: Thread) returns (k: nat)
    requires Inv(s) && t < |s.pcs| && s.pcs[t].AddCount? && (s.resizing ==> MainHasRoom(s, s.count + 1))
    ensures ReturnsIn(s, t, |s.returned[t]| + 1, k)
  {
    var s' := Alone(s, t);
    var k' := SoloFindsRoom(s', t);
    k := k' + 1;
  }

  lemma {:induction false} SoloSearches(s: State, t: Thread) returns (k: nat)
    requires Inv(s) && t < |s.pcs| && s.pcs[t].Search? && (s.resizing ==> MainHasRoom(s, s.count + 1))
    ensures ReturnsIn(s, t, |s.returned[t]| + 1, k)
    decreases s.pcs[t].h, |s.tables[s.pcs[t].h]| - s.pcs[t].pos
  {
    ProbeInRange(s, t);
    var s' := Alone(s, t);
    if s'.pcs[t].Search? {
      var k' := SoloSearches(s', t);
      k := k' + 1;
    } else if s'.pcs[t].Copy? {
      var k' := SoloTakesSlot(s', t);
      k := k' + 1;
    } else if s'.pcs[t].AddCount? {
      var k' := SoloCounts(s', t);
      k := k' + 1;
    } else {
      assert ReturnsIn(s', t, |s.returned[t]| + 1, 0);
      k := 1;
    }
  }

  /** The count for which thread `t` needs room: the one it drew, or would draw. */
  function NeedsRoomFor(s: State, t: Thread): nat
    requires t < |s.pcs|
  {
    match s.pcs[t]
    case TestLock(_, nc) => nc
    case TestRoom(_, nc) => nc
    case _ => s.count + 1
  }

  /** In every run, a call returns a producer if its thread runs on alone, wherever the other threads are, unless one of
      them holds the resize flag and the main table has no room. */
  lemma CallReturns(ss: seq<State>, acts: seq<Action>, i: nat, t: Thread) returns (k: nat)
    requires IsRun(ss, acts) && i < |ss| && t < |ss[i].pcs| && !ss[i].pcs[t].Idle? && Wf(ss[i])
    requires ss[i].resizing ==>
               ss[i].pcs[t].Grow? || ss[i].pcs[t].Unlock? || MainHasRoom(ss[i], NeedsRoomFor(ss[i], t))
    ensures t < |ss[i].returned| && ReturnsIn(ss[i], t, |ss[i].returned[t]| + 1, k)
  {
    RunKeepsInv(ss, acts, i);
    var s := ss[i];
    match s.pcs[t] {
      case LoadMain =>
        var s' := Alone(s, t);
        var k' := SoloSearches(s', t);
        k := k' + 1;
      case AddCount(_) => k := SoloCounts(s, t);
      case Search(_, _, _) => k := SoloSearches(s, t);
      case Copy(_, _, _) => k := SoloTakesSlot(s, t);
      case Insert(_, _, _) => k := SoloTakesSlot(s, t);
      case SetValue(_, _, _) => k := SoloTakesSlot(s, t);
      case _ => k := SoloFindsRoom(s, t);
    }
  }

  // ----- the newest table known to a call knows its thread

  /** Action `i` of the run starts a call of thread `t`, which is still in that call in state `j`. */
  ghost predicate InCall(ss: seq<State>, acts: seq<Action>, i: nat, j: nat, t: Thread) {
    && i < j < |ss| == |acts| + 1
    && acts[i] == Call(t)
    && forall k {:trigger ss[k]} :: i < k <= j ==> t < |ss[k].pcs| && !ss[k].pcs[t].Idle?
  }

  /** The table that a call works on, if it has one, is at least number `m`. */
  predicate WorksFrom(pc: Pc, m: nat) {
    match pc
    case Search(n, _, _) => m <= n
    case Copy(n, _, _) => m <= n
    case AddCount(n) => m <= n
    case TestLock(n, _) => m <= n
    case Unlock(n, _) => m <= n
    case TestRoom(n, _) => m <= n
    case Insert(n, _, _) => m <= n
    case SetValue(n, _, _) => m <= n
    case _ => true
  }

  lemma OwnStep(s: State, t: Thread, m: nat)
    requires Wf(s) && t < |s.pcs| && !s.pcs[t].Idle? && m < |s.tables| && WorksFrom(s.pcs[t], m)
    ensures WorksFrom(AdvanceThread(s, t).pcs[t], m)
  {
  }

  lemma ThreadsAndTablesStay(s: State, act: Action, s': State, t: Thread)
    requires IsStep(s, act, s') && t < |s.pcs|
    ensures |s.tables| <= |s'.tables| && |s'.pcs| == |s.pcs|
    ensures act.t != t ==> s'.pcs[t] == s.pcs[t]
  {
    if act.Advance? && s.pcs[act.t].Grow? {
    } else {
      SizesKept(s, act, s');
    }
  }

  lemma CallStep(s: State, act: Action, s': State, t: Thread, m: nat)
    requires IsStep(s, act, s') && t < |s.pcs| && !s.pcs[t].Idle? && m < |s.tables| && WorksFrom(s.pcs[t], m)
    ensures |s.tables| <= |s'.tables| && t < |s'.pcs| && WorksFrom(s'.pcs[t], m)
  {
    ThreadsAndTablesStay(s, act, s', t);
    if act.t == t {
      OwnStep(s, t, m);
    }
  }

  lemma {:induction false} WorksOnNewest(ss: seq<State>, acts: seq<Action>, i: nat, j: nat, t: Thread)
    requires IsRun(ss, acts) && InCall(ss, acts, i, j, t)
    ensures 0 < |ss[i].tables| <= |ss[j].tables| && WorksFrom(ss[j].pcs[t], |ss[i].tables| - 1)
    decreases j
  {
    assert IsStep(ss[j - 1], acts[j - 1], ss[j]);
    if i + 1 < j {
      WorksOnNewest(ss, acts, i, j - 1, t);
      assert !ss[j - 1].pcs[t].Idle?;
      CallStep(ss[j - 1], acts[j - 1], ss[j], t, |ss[i].tables| - 1);
    }
  }

  lemma LastAccess(s: State, t: Thread)
    requires Wf(s) && t < |s.pcs| && !s.pcs[t].Idle? && AdvanceThread(s, t).pcs[t].Idle?
    ensures s.pcs[t].Search? || s.pcs[t].SetValue?
    ensures s.pcs[t].Search? ==>
              && s.pcs[t].h == s.pcs[t].m && AdvanceThread(s, t).tables == s.tables
              && var x := s.tables[s.pcs[t].m][At(s, s.pcs[t].m, t, s.pcs[t].pos)]; x.Taken? && x.key == t
  {
    assert PcWf(s, s.pcs[t]);
  }

  /** The last access of a call finds or stores the thread's entry in the table that the call works on. */
  lemma LastStep(s: State, t: Thread)
    requires Wf(s) && t < |s.pcs| && !s.pcs[t].Idle? && AdvanceThread(s, t).pcs[t].Idle?
    ensures s.pcs[t].Search? || s.pcs[t].SetValue?
    ensures var s' := AdvanceThread(s, t); s.pcs[t].m < |s'.tables| && HasKey(s'.tables[s.pcs[t].m], t)
  {
    assert PcWf(s, s.pcs[t]);
    LastAccess(s, t);
    if s.pcs[t].SetValue? {
      assert AdvanceThread(s, t).tables[s.pcs[t].m][s.pcs[t].idx] == Taken(t, Set(s.pcs[t].v));
    }
  }

  /** Lazy copying: in every run, when a call returns, the thread is in the table that was the main one at its start, or
      in a newer one. */
  lemma CallLeavesEntryInMain(ss: seq<State>, acts: seq<Action>, i: nat, j: nat, t: Thread) returns (h: nat)
    requires IsRun(ss, acts) && InCall(ss, acts, i, j, t)
    requires j < |acts| && t < |ss[j + 1].pcs| && ss[j + 1].pcs[t].Idle?
    ensures |ss[i].tables| - 1 <= h < |ss[j + 1].tables| && HasKey(ss[j + 1].tables[h], t)
  {
    WorksOnNewest(ss, acts, i, j, t);
    assert IsStep(ss[j], acts[j], ss[j + 1]);
    assert !ss[j].pcs[t].Idle?;
    ThreadsAndTablesStay(ss[j], acts[j], ss[j + 1], t);
    LastStep(ss[j], t);
    h := ss[j].pcs[t].m;
  }
}
