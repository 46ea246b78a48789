/** The lock-free free list: a Treiber stack whose nodes carry a reference count and a
    should-be-on-free-list bit in one 32-bit word.

    Every atomic access of `add`, `try_get` and `add_knowing_refcount_is_zero` is one step of one
    thread, and steps of any number of threads interleave arbitrarily. */
module FreeList {
  import opened Counting

  type Node = nat
  type Thread = nat

  datatype Ptr = Null | At(node: Node)

  const SHOULD_BE_ON_FREELIST: int := 0x8000_0000
  const WORD: int := 0x1_0000_0000

  /** What a thread does once its pending push is over: return from `add`, or go on with the loop of
      `try_get` using the head that its failed CAS read. */
  datatype After = Return | Retry(newHead: Ptr)

  /** The next atomic access of a thread, with the local variables it still needs. */
  datatype Pc =
    | Idle
    | AddFlag(n: Node)                           // add: freeListRefs.fetch_add(SHOULD_BE_ON_FREELIST)
    | LoadHead                                   // try_get: freeListHead.load
    | LoadRefs(p: Ptr)                           // while (head != nullptr) refs = head->freeListRefs.load
    | TakeRef(h: Node, refs: int)                // mask test, then CAS refs -> refs + 1
    | LoadNext(h: Node)                          // next = head->freeListNext.load
    | SwingHead(h: Node, nx: Ptr)                // CAS freeListHead: head -> next
    | DropTwo(h: Node)                           // fetch_sub(2), return head
    | DropOne(h: Node, newHead: Ptr)             // fetch_sub(1) after the failed CAS
    | PushLoad(n: Node, after: After)            // add_knowing_refcount_is_zero: load head
    | PushNext(n: Node, hd: Ptr, after: After)   // freeListNext.store(head)
    | PushRefs(n: Node, hd: Ptr, after: After)   // freeListRefs.store(1)
    | PushSwing(n: Node, hd: Ptr, after: After)  // CAS freeListHead: head -> node
    | PushUndo(n: Node, hd: Ptr, after: After)   // fetch_add(SHOULD_BE_ON_FREELIST - 1)

  /** `held` is the set of nodes in the hands of the clients: those that were handed out, or never
      added. A client may call `add` only with such a node. */
  datatype State = State(head: Ptr, refs: seq<int>, next: seq<Ptr>, pcs: seq<Pc>, held: set<Node>)

  datatype Action = InvokeAdd(t: Thread, n: Node) | InvokeTryGet(t: Thread) | Advance(t: Thread)

  ghost predicate Wf(s: State) {
    && |s.refs| == |s.next|
    && |s.pcs| < 0x4000_0000
    && (forall n :: n in s.held ==> n < |s.refs|)
    && (s.head.At? ==> s.head.node < |s.refs|)
    && (forall n :: 0 <= n < |s.next| && s.next[n].At? ==> s.next[n].node < |s.refs|)
    && (forall t :: 0 <= t < |s.pcs| ==> PcWf(s.pcs[t], |s.refs|))
  }

  predicate PtrWf(p: Ptr, size: nat) {
    p.At? ==> p.node < size
  }

  predicate AfterWf(a: After, size: nat) {
    a.Retry? ==> PtrWf(a.newHead, size)
  }

  predicate PcWf(pc: Pc, size: nat) {
    match pc
    case Idle => true
    case LoadHead => true
    case AddFlag(n) => n < size
    case LoadRefs(p) => PtrWf(p, size)
    case TakeRef(h, _) => h < size
    case LoadNext(h) => h < size
    case SwingHead(h, nx) => h < size && PtrWf(nx, size)
    case DropTwo(h) => h < size
    case DropOne(h, nh) => h < size && PtrWf(nh, size)
    case PushLoad(n, a) => n < size && AfterWf(a, size)
    case PushNext(n, hd, a) => n < size && PtrWf(hd, size) && AfterWf(a, size)
    case PushRefs(n, hd, a) => n < size && PtrWf(hd, size) && AfterWf(a, size)
    case PushSwing(n, hd, a) => n < size && PtrWf(hd, size) && AfterWf(a, size)
    case PushUndo(n, hd, a) => n < size && PtrWf(hd, size) && AfterWf(a, size)
  }

  // ----- the code, one atomic access at a time

  function Goto(s: State, t: Thread, pc: Pc): State
    requires t < |s.pcs|
  {
    s.(pcs := s.pcs[t := pc])
  }

  function Resume(a: After): Pc {
    if a.Retry? then LoadRefs(a.newHead) else Idle
  }

  /** fetch_add on the 32-bit word of a node. */
  function FetchAdd(s: State, n: Node, d: int): State
    requires n < |s.refs|
  {
    s.(refs := s.refs[n := (s.refs[n] + d) % WORD])
  }

  ghost predicate Enabled(s: State, a: Action) {
    match a
    case InvokeAdd(t, n) => t < |s.pcs| && s.pcs[t].Idle? && n in s.held
    case InvokeTryGet(t) => t < |s.pcs| && s.pcs[t].Idle?
    case Advance(t) => t < |s.pcs| && !s.pcs[t].Idle?
  }

  ghost function Do(s: State, a: Action): State
    requires Wf(s) && Enabled(s, a)
  {
    match a
    case InvokeAdd(t, n) => Goto(s, t, AddFlag(n)).(held := s.held - {n})
    case InvokeTryGet(t) => Goto(s, t, LoadHead)
    case Advance(t) => AdvanceThread(s, t)
  }

  ghost function AdvanceThread(s: State, t: Thread): State
    requires Wf(s) && t < |s.pcs| && !s.pcs[t].Idle?
  {
    match s.pcs[t]
    case AddFlag(n) =>
      Goto(FetchAdd(s, n, SHOULD_BE_ON_FREELIST), t, if s.refs[n] == 0 then PushLoad(n, Return) else Idle)
    case LoadHead =>
      Goto(s, t, LoadRefs(s.head))
    case LoadRefs(p) =>
      if p.Null? then Goto(s, t, Idle) else Goto(s, t, TakeRef(p.node, s.refs[p.node]))
    case TakeRef(h, refs) =>
      if refs % SHOULD_BE_ON_FREELIST == 0 || s.refs[h] != refs
      then Goto(s, t, LoadHead)
      else Goto(FetchAdd(s, h, 1), t, LoadNext(h))
    case LoadNext(h) =>
      Goto(s, t, SwingHead(h, s.next[h]))
    case SwingHead(h, nx) =>
      if s.head == At(h)
      then Goto(s.(head := nx), t, DropTwo(h))
      else Goto(s, t, DropOne(h, s.head))
    case DropTwo(h) =>
      Goto(FetchAdd(s, h, -2), t, Idle).(held := s.held + {h})
    case DropOne(h, nh) =>
      Goto(FetchAdd(s, h, -1), t,
           if s.refs[h] == SHOULD_BE_ON_FREELIST + 1 then PushLoad(h, Retry(nh)) else LoadRefs(nh))
    case PushLoad(n, a) =>
      Goto(s, t, PushNext(n, s.head, a))
    case PushNext(n, hd, a) =>
      Goto(s.(next := s.next[n := hd]), t, PushRefs(n, hd, a))
    case PushRefs(n, hd, a) =>
      Goto(s.(refs := s.refs[n := 1]), t, PushSwing(n, hd, a))
    case PushSwing(n, hd, a) =>
      if s.head == hd
      then Goto(s.(head := At(n)), t, Resume(a))
      else Goto(s, t, PushUndo(n, s.head, a))
    case PushUndo(n, hd, a) =>
      Goto(FetchAdd(s, n, SHOULD_BE_ON_FREELIST - 1), t,
           if s.refs[n] == 1 then PushNext(n, hd, a) else Resume(a))
  }

  /** No thread runs, nothing was added yet, and every node is in a client's hands. */
  ghost predicate Init(s: State) {
    && Wf(s)
    && s.head == Null
    && (forall t :: 0 <= t < |s.pcs| ==> s.pcs[t] == Idle)
    && (forall n :: 0 <= n < |s.refs| ==> s.refs[n] == 0 && n in s.held)
  }

  // ----- what each thread contributes to a node

  /** References that a thread in state `pc` accounts for in the count of `n`: its own, and the list's
      when it is taking `n` off, or trying to put it on, the list. */
  predicate Holds(pc: Pc, n: Node) {
    (pc.LoadNext? || pc.SwingHead? || pc.DropTwo? || pc.DropOne?) && pc.h == n
  }

  predicate CarriesListRef(pc: Pc, n: Node) {
    (pc.DropTwo? && pc.h == n) || ((pc.PushSwing? || pc.PushUndo?) && pc.n == n)
  }

  /** The thread is the one responsible for `n`. */
  predicate Owns(pc: Pc, n: Node) {
    || (pc.DropTwo? && pc.h == n)
    || ((pc.AddFlag? || pc.PushLoad? || pc.PushNext? || pc.PushRefs? || pc.PushSwing? || pc.PushUndo?) && pc.n == n)
  }

  /** The thread is responsible for `n` and the should-be-on-free-list bit of `n` is clear. */
  predicate OwnsUnflagged(pc: Pc, n: Node) {
    (pc.DropTwo? && pc.h == n) || ((pc.AddFlag? || pc.PushSwing? || pc.PushUndo?) && pc.n == n)
  }

  function Bit(b: bool): int { if b then 1 else 0 }

  ghost function Refs(n: Node): Pc -> int { pc => Bit(Holds(pc, n)) + Bit(CarriesListRef(pc, n)) }
  ghost function Owners(n: Node): Pc -> int { pc => Bit(Owns(pc, n)) }
  ghost function Clear(n: Node): Pc -> int { pc => Bit(OwnsUnflagged(pc, n)) }
  ghost function Holding(n: Node): Pc -> int { pc => Bit(Holds(pc, n)) }
  ghost function ListRefs(n: Node): Pc -> int { pc => Bit(CarriesListRef(pc, n)) }

  // ----- the invariant, relative to the contents `lst` of the list

  ghost predicate Chained(s: State, lst: seq<Node>) {
    && (forall i :: 0 <= i < |lst| ==> lst[i] < |s.next|)
    && (forall i, j :: 0 <= i < j < |lst| ==> lst[i] != lst[j])
    && s.head == First(lst)
    && (forall i :: 0 <= i < |lst| ==> s.next[lst[i]] == First(lst[i + 1..]))
  }

  function First(lst: seq<Node>): Ptr {
    if lst == [] then Null else At(lst[0])
  }

  /** How many parties are responsible for `n`: a client, the list, or a thread. */
  ghost function Keepers(s: State, lst: seq<Node>, n: Node): int {
    Bit(n in s.held) + Bit(n in lst) + Sum(s.pcs, Owners(n))
  }

  ghost predicate WordOk(s: State, lst: seq<Node>, n: Node)
    requires n < |s.refs|
  {
    s.refs[n] == Sum(s.pcs, Refs(n)) + Bit(n in lst)
      + SHOULD_BE_ON_FREELIST * (1 - Bit(n in s.held) - Bit(n in lst) - Sum(s.pcs, Clear(n)))
  }

  ghost predicate NodeOk(s: State, lst: seq<Node>, n: Node)
    requires n < |s.refs|
  {
    && WordOk(s, lst, n)
    && Keepers(s, lst, n) <= 1
    && (Keepers(s, lst, n) == 0 ==> 1 <= Sum(s.pcs, Refs(n)))
  }

  ghost predicate LocalOk(s: State, pc: Pc)
    requires PcWf(pc, |s.refs|) && |s.refs| == |s.next|
  {
    match pc
    case SwingHead(h, nx) => s.next[h] == nx
    case PushLoad(n, _) => s.refs[n] == SHOULD_BE_ON_FREELIST
    case PushNext(n, _, _) => s.refs[n] == SHOULD_BE_ON_FREELIST
    case PushRefs(n, hd, _) => s.refs[n] == SHOULD_BE_ON_FREELIST && s.next[n] == hd
    case PushSwing(n, hd, _) => s.next[n] == hd
    case _ => true
  }

  ghost predicate InvWith(s: State, lst: seq<Node>) {
    && Wf(s)
    && Chained(s, lst)
    && (forall n :: 0 <= n < |s.refs| ==> NodeOk(s, lst, n))
    && (forall t :: 0 <= t < |s.pcs| ==> LocalOk(s, s.pcs[t]))
  }

  ghost predicate Inv(s: State) {
    exists lst :: InvWith(s, lst)
  }

  // ----- the invariant is inductive

  lemma InitEstablishesInv(s: State)
    requires Init(s)
    ensures InvWith(s, [])
  {
    forall n | 0 <= n < |s.refs| ensures NodeOk(s, [], n) {
      SumZero(s.pcs, Refs(n));
      SumZero(s.pcs, Owners(n));
      SumZero(s.pcs, Clear(n));
    }
  }

  /** All four sums after thread `t` moved from its state to `pc`. */
  lemma Moved(s: State, t: Thread, pc: Pc, n: Node)
    requires t < |s.pcs|
    ensures var q := s.pcs[t := pc];
            && Sum(q, Refs(n)) == Sum(s.pcs, Refs(n)) - Refs(n)(s.pcs[t]) + Refs(n)(pc)
            && Sum(q, Owners(n)) == Sum(s.pcs, Owners(n)) - Owners(n)(s.pcs[t]) + Owners(n)(pc)
            && Sum(q, Clear(n)) == Sum(s.pcs, Clear(n)) - Clear(n)(s.pcs[t]) + Clear(n)(pc)
  {
    SumUpdate(s.pcs, t, pc, Refs(n));
    SumUpdate(s.pcs, t, pc, Owners(n));
    SumUpdate(s.pcs, t, pc, Clear(n));
  }

  /** What the state of one thread says about the sums. */
  lemma Contribution(s: State, t: Thread, n: Node)
    requires t < |s.pcs|
    ensures Refs(n)(s.pcs[t]) <= Sum(s.pcs, Refs(n)) <= 2 * |s.pcs|
    ensures Owners(n)(s.pcs[t]) <= Sum(s.pcs, Owners(n))
    ensures 0 <= Clear(n)(s.pcs[t]) <= Sum(s.pcs, Clear(n)) <= Sum(s.pcs, Owners(n))
    ensures OwnsUnflagged(s.pcs[t], n) || !Owns(s.pcs[t], n) || Sum(s.pcs, Clear(n)) < Sum(s.pcs, Owners(n))
  {
    SumAtLeast(s.pcs, t, Refs(n));
    SumBound(s.pcs, Refs(n), 2);
    SumAtLeast(s.pcs, t, Owners(n));
    SumAtLeast(s.pcs, t, Clear(n));
    SumMonotone(s.pcs, Clear(n), Owners(n));
    if Owns(s.pcs[t], n) && !OwnsUnflagged(s.pcs[t], n) {
      SumUpdate(s.pcs, t, Idle, Clear(n));
      SumUpdate(s.pcs, t, Idle, Owners(n));
      SumMonotone(s.pcs[t := Idle], Clear(n), Owners(n));
    }
  }


  /** Two threads are never responsible for the same node. */
  lemma OneOwner(s: State, lst: seq<Node>, t: Thread, u: Thread, n: Node)
    requires InvWith(s, lst) && t < |s.pcs| && u < |s.pcs| && n < |s.refs|
    requires Owns(s.pcs[t], n) && Owns(s.pcs[u], n)
    ensures t == u
  {
    assert NodeOk(s, lst, n);
    if t != u {
      SumAtLeastTwo(s.pcs, t, u, Owners(n));
    }
  }

  /** While a thread prepares a push of `n`, nobody holds a reference to `n`. */
  lemma NobodyHolds(s: State, lst: seq<Node>, t: Thread, u: Thread, n: Node)
    requires InvWith(s, lst) && t < |s.pcs| && u < |s.pcs| && n < |s.refs|
    requires Owns(s.pcs[t], n) && s.refs[n] == SHOULD_BE_ON_FREELIST && !OwnsUnflagged(s.pcs[t], n)
    ensures !Holds(s.pcs[u], n)
  {
    assert NodeOk(s, lst, n);
    Contribution(s, t, n);
    Contribution(s, u, n);
  }

  /** The invariant survives a step that touches at most the word of `n`, given the arithmetic on it. */
  lemma WordStep(s: State, lst: seq<Node>, s': State, lst': seq<Node>, t: Thread, pc: Pc, n: Node)
    requires InvWith(s, lst) && t < |s.pcs| && n < |s.refs|
    requires Wf(s') && s'.pcs == s.pcs[t := pc]
    requires |s'.refs| == |s.refs|
    requires forall m :: 0 <= m < |s.refs| && m != n ==>
               s'.refs[m] == s.refs[m] && (m in s'.held <==> m in s.held) && (m in lst' <==> m in lst)
    requires forall m :: 0 <= m < |s.refs| && m != n ==>
               && Refs(m)(pc) == Refs(m)(s.pcs[t]) && Owners(m)(pc) == Owners(m)(s.pcs[t])
               && Clear(m)(pc) == Clear(m)(s.pcs[t])
    requires NodeOk(s', lst', n)
    ensures forall m :: 0 <= m < |s'.refs| ==> NodeOk(s', lst', m)
  {
    forall m | 0 <= m < |s'.refs| ensures NodeOk(s', lst', m) {
      if m != n {
        assert NodeOk(s, lst, m);
        Moved(s, t, pc, m);
      }
    }
  }

  /** A step that only loads changes nothing but the local variables of its thread. */
  lemma LoadStep(s: State, lst: seq<Node>, t: Thread, pc: Pc)
    requires InvWith(s, lst) && t < |s.pcs| && PcWf(pc, |s.refs|) && LocalOk(s, pc)
    requires forall n :: Refs(n)(pc) == Refs(n)(s.pcs[t])
    requires forall n :: Owners(n)(pc) == Owners(n)(s.pcs[t])
    requires forall n :: Clear(n)(pc) == Clear(n)(s.pcs[t])
    ensures InvWith(Goto(s, t, pc), lst)
  {
    var s' := Goto(s, t, pc);
    forall n | 0 <= n < |s'.refs| ensures NodeOk(s', lst, n) {
      assert NodeOk(s, lst, n);
      Moved(s, t, pc, n);
    }
  }

  lemma StepInvokeAdd(s: State, lst: seq<Node>, t: Thread, n: Node)
    requires InvWith(s, lst) && Enabled(s, InvokeAdd(t, n))
    ensures InvWith(Do(s, InvokeAdd(t, n)), lst)
  {
    var s' := Do(s, InvokeAdd(t, n));
    assert NodeOk(s, lst, n);
    Moved(s, t, AddFlag(n), n);
    assert NodeOk(s', lst, n);
    WordStep(s, lst, s', lst, t, AddFlag(n), n);
  }

  /** A fetch_add keeps the word of its node right if it adds what the step changes in the references and the bit. */
  lemma FetchAddKeepsNode(s: State, lst: seq<Node>, s': State, t: Thread, n: Node, d: int)
    requires Wf(s) && n < |s.refs| && NodeOk(s, lst, n) && t < |s.pcs|
    requires n < |s'.refs| && |s'.pcs| == |s.pcs| && s'.pcs == s.pcs[t := s'.pcs[t]]
    requires s'.refs[n] == (s.refs[n] + d) % WORD
    requires d == Refs(n)(s'.pcs[t]) - Refs(n)(s.pcs[t])
                + SHOULD_BE_ON_FREELIST *
                  (Bit(n in s.held) - Bit(n in s'.held) + Clear(n)(s.pcs[t]) - Clear(n)(s'.pcs[t]))
    requires Keepers(s', lst, n) <= 1 && (Keepers(s', lst, n) == 0 ==> 1 <= Sum(s'.pcs, Refs(n)))
    ensures NodeOk(s', lst, n)
  {
    Moved(s, t, s'.pcs[t], n);
    Contribution(s', t, n);
    WordInRange(Sum(s'.pcs, Refs(n)) + Bit(n in lst), 1 - Bit(n in s'.held) - Bit(n in lst) - Sum(s'.pcs, Clear(n)));
  }

  lemma WordInRange(count: int, bit: int)
    requires 0 <= count < SHOULD_BE_ON_FREELIST && 0 <= bit <= 1
    ensures (count + SHOULD_BE_ON_FREELIST * bit) % WORD == count + SHOULD_BE_ON_FREELIST * bit
  {
  }

  /** Threads that do not rely on the word of `n` keep their local facts when only that word changes. */
  lemma OthersKeepLocal(s: State, lst: seq<Node>, s': State, t: Thread, n: Node)
    requires InvWith(s, lst) && Wf(s') && t < |s.pcs| && n < |s.refs|
    requires |s'.refs| == |s.refs| && |s'.pcs| == |s.pcs| && s'.pcs == s.pcs[t := s'.pcs[t]] && s'.next == s.next
    requires forall m :: 0 <= m < |s.refs| && m != n ==> s'.refs[m] == s.refs[m]
    requires forall u :: 0 <= u < |s.pcs| && u != t ==> OwnsUnflagged(s.pcs[u], n) || !Owns(s.pcs[u], n)
    requires LocalOk(s', s'.pcs[t])
    ensures forall u :: 0 <= u < |s'.pcs| ==> LocalOk(s', s'.pcs[u])
  {
    forall u | 0 <= u < |s'.pcs| ensures LocalOk(s', s'.pcs[u]) {
      assert LocalOk(s, s.pcs[u]);
    }
  }

  lemma OwnerAlone(s: State, lst: seq<Node>, t: Thread, n: Node)
    requires InvWith(s, lst) && t < |s.pcs| && n < |s.refs| && Owns(s.pcs[t], n)
    ensures forall u :: 0 <= u < |s.pcs| && u != t ==> !Owns(s.pcs[u], n)
  {
    forall u | 0 <= u < |s.pcs| && u != t ensures !Owns(s.pcs[u], n) {
      if Owns(s.pcs[u], n) {
        OneOwner(s, lst, t, u, n);
      }
    }
  }

  lemma AddFlagWord(s: State, lst: seq<Node>, t: Thread, n: Node)
    requires InvWith(s, lst) && t < |s.pcs| && s.pcs[t] == AddFlag(n)
    ensures NodeOk(AdvanceThread(s, t), lst, n)
    ensures s.refs[n] == 0 ==> AdvanceThread(s, t).refs[n] == SHOULD_BE_ON_FREELIST
  {
    var s' := AdvanceThread(s, t);
    assert NodeOk(s, lst, n);
    Moved(s, t, s'.pcs[t], n);
    Contribution(s, t, n);
    FetchAddKeepsNode(s, lst, s', t, n, SHOULD_BE_ON_FREELIST);
  }

  lemma StepAddFlag(s: State, lst: seq<Node>, t: Thread)
    requires InvWith(s, lst) && t < |s.pcs| && s.pcs[t].AddFlag?
    ensures InvWith(AdvanceThread(s, t), lst)
  {
    var n := s.pcs[t].n;
    var s' := AdvanceThread(s, t);
    AddFlagWord(s, lst, t, n);
    WordStep(s, lst, s', lst, t, s'.pcs[t], n);
    OwnerAlone(s, lst, t, n);
    OthersKeepLocal(s, lst, s', t, n);
  }

  lemma TakeRefWord(s: State, lst: seq<Node>, t: Thread, n: Node)
    requires InvWith(s, lst) && t < |s.pcs| && n < |s.refs| && s.pcs[t] == TakeRef(n, s.refs[n])
    requires s.refs[n] % SHOULD_BE_ON_FREELIST != 0
    ensures NodeOk(AdvanceThread(s, t), lst, n)
  {
    assert NodeOk(s, lst, n);
    Moved(s, t, LoadNext(n), n);
    FetchAddKeepsNode(s, lst, AdvanceThread(s, t), t, n, 1);
  }

  lemma NobodyPushes(s: State, lst: seq<Node>, n: Node)
    requires InvWith(s, lst) && n < |s.refs| && s.refs[n] % SHOULD_BE_ON_FREELIST != 0
    ensures forall u :: 0 <= u < |s.pcs| ==> OwnsUnflagged(s.pcs[u], n) || !Owns(s.pcs[u], n)
  {
    forall u | 0 <= u < |s.pcs| ensures OwnsUnflagged(s.pcs[u], n) || !Owns(s.pcs[u], n) {
      assert LocalOk(s, s.pcs[u]);
    }
  }

  lemma StepTakeRef(s: State, lst: seq<Node>, t: Thread)
    requires InvWith(s, lst) && t < |s.pcs| && s.pcs[t].TakeRef?
    ensures InvWith(AdvanceThread(s, t), lst)
  {
    var n, refs := s.pcs[t].h, s.pcs[t].refs;
    if refs % SHOULD_BE_ON_FREELIST == 0 || s.refs[n] != refs {
      LoadStep(s, lst, t, LoadHead);
    } else {
      var s' := AdvanceThread(s, t);
      TakeRefWord(s, lst, t, n);
      WordStep(s, lst, s', lst, t, LoadNext(n), n);
      NobodyPushes(s, lst, n);
      OthersKeepLocal(s, lst, s', t, n);
    }
  }

  lemma PopChain(s: State, lst: seq<Node>, s': State)
    requires Chained(s, lst) && lst != []
    requires s'.next == s.next && s'.head == First(lst[1..])
    ensures Chained(s', lst[1..])
    ensures forall m :: m in lst[1..] <==> m in lst && m != lst[0]
  {
    var lst' := lst[1..];
    assert lst == [lst[0]] + lst';
    forall i | 0 <= i < |lst'| ensures s'.next[lst'[i]] == First(lst'[i + 1..]) {
      assert lst'[i] == lst[i + 1] && lst'[i + 1..] == lst[i + 2..];
    }
  }

  lemma PushChain(s: State, lst: seq<Node>, s': State, n: Node)
    requires Chained(s, lst) && n !in lst && n < |s.next|
    requires s'.next == s.next && s'.head == At(n) && s.next[n] == s.head
    ensures Chained(s', [n] + lst)
    ensures forall m :: m in [n] + lst <==> m in lst || m == n
  {
    var lst' := [n] + lst;
    assert lst'[1..] == lst;
    forall i | 0 <= i < |lst'| ensures s'.next[lst'[i]] == First(lst'[i + 1..]) {
      if i > 0 {
        assert lst'[i] == lst[i - 1] && lst'[i + 1..] == lst[i..];
      }
    }
  }

  /** A thread holding a reference to the head that it compares with knows its current successor, so
      the CAS takes exactly the first node off the list. */
  lemma SwingHeadPops(s: State, lst: seq<Node>, t: Thread)
    requires InvWith(s, lst) && t < |s.pcs| && s.pcs[t].SwingHead? && s.head == At(s.pcs[t].h)
    ensures lst != [] && lst[0] == s.pcs[t].h && s.pcs[t].nx == First(lst[1..])
  {
    assert LocalOk(s, s.pcs[t]);
    assert s.next[lst[0]] == First(lst[0 + 1..]);
  }

  lemma SwingHeadWord(s: State, lst: seq<Node>, t: Thread, n: Node)
    requires InvWith(s, lst) && t < |s.pcs| && s.pcs[t].SwingHead? && s.head == At(n) && n == s.pcs[t].h
    requires lst != [] && n == lst[0] && n !in lst[1..]
    ensures NodeOk(AdvanceThread(s, t), lst[1..], n)
  {
    assert NodeOk(s, lst, n);
    Moved(s, t, DropTwo(n), n);
  }

  lemma StepSwingHead(s: State, lst: seq<Node>, t: Thread)
    requires InvWith(s, lst) && t < |s.pcs| && s.pcs[t].SwingHead?
    ensures InvWith(AdvanceThread(s, t), if s.head == At(s.pcs[t].h) then lst[1..] else lst)
  {
    var n := s.pcs[t].h;
    if s.head == At(n) {
      var s' := AdvanceThread(s, t);
      SwingHeadPops(s, lst, t);
      PopChain(s, lst, s');
      SwingHeadWord(s, lst, t, n);
      WordStep(s, lst, s', lst[1..], t, DropTwo(n), n);
      forall u | 0 <= u < |s'.pcs| ensures LocalOk(s', s'.pcs[u]) {
        assert u != t ==> LocalOk(s, s.pcs[u]);
      }
    } else {
      LoadStep(s, lst, t, DropOne(n, s.head));
    }
  }

  lemma DropTwoWord(s: State, lst: seq<Node>, t: Thread, n: Node)
    requires InvWith(s, lst) && t < |s.pcs| && s.pcs[t] == DropTwo(n)
    ensures NodeOk(AdvanceThread(s, t), lst, n)
  {
    var s' := AdvanceThread(s, t);
    assert NodeOk(s, lst, n);
    Moved(s, t, Idle, n);
    Contribution(s, t, n);
    FetchAddKeepsNode(s, lst, s', t, n, -2);
  }

  lemma StepDropTwo(s: State, lst: seq<Node>, t: Thread)
    requires InvWith(s, lst) && t < |s.pcs| && s.pcs[t].DropTwo?
    ensures InvWith(AdvanceThread(s, t), lst)
  {
    var n := s.pcs[t].h;
    var s' := AdvanceThread(s, t);
    DropTwoWord(s, lst, t, n);
    WordStep(s, lst, s', lst, t, s'.pcs[t], n);
    OwnerAlone(s, lst, t, n);
    OthersKeepLocal(s, lst, s', t, n);
  }

  lemma DropOneLast(s: State, lst: seq<Node>, t: Thread, n: Node)
    requires InvWith(s, lst) && t < |s.pcs| && s.pcs[t].DropOne? && n == s.pcs[t].h
    requires s.refs[n] == SHOULD_BE_ON_FREELIST + 1
    ensures NodeOk(AdvanceThread(s, t), lst, n) && AdvanceThread(s, t).refs[n] == SHOULD_BE_ON_FREELIST
  {
    assert NodeOk(s, lst, n);
    Moved(s, t, AdvanceThread(s, t).pcs[t], n);
    LastHolder(s, lst, t, n);
    FetchAddKeepsNode(s, lst, AdvanceThread(s, t), t, n, -1);
  }

  lemma DropOneWord(s: State, lst: seq<Node>, t: Thread, n: Node)
    requires InvWith(s, lst) && t < |s.pcs| && s.pcs[t].DropOne? && n == s.pcs[t].h
    ensures NodeOk(AdvanceThread(s, t), lst, n)
    ensures s.refs[n] == SHOULD_BE_ON_FREELIST + 1 ==> AdvanceThread(s, t).refs[n] == SHOULD_BE_ON_FREELIST
  {
    if s.refs[n] == SHOULD_BE_ON_FREELIST + 1 {
      DropOneLast(s, lst, t, n);
    } else {
      assert NodeOk(s, lst, n);
      Moved(s, t, AdvanceThread(s, t).pcs[t], n);
      Contribution(s, t, n);
      FetchAddKeepsNode(s, lst, AdvanceThread(s, t), t, n, -1);
    }
  }

  /** The thread that finds the bit set and only its own reference left is the one that must push. */
  lemma LastHolder(s: State, lst: seq<Node>, t: Thread, n: Node)
    requires InvWith(s, lst) && t < |s.pcs| && n < |s.refs| && s.refs[n] == SHOULD_BE_ON_FREELIST + 1
    requires s.pcs[t].DropOne? && n == s.pcs[t].h
    ensures Keepers(s, lst, n) == 0
  {
    assert NodeOk(s, lst, n);
    Contribution(s, t, n);
    if 0 < Sum(s.pcs, Owners(n)) {
      var u := SumPositiveWitness(s.pcs, Owners(n));
      assert LocalOk(s, s.pcs[u]);
      Contribution(s, u, n);
    }
  }

  lemma StepDropOne(s: State, lst: seq<Node>, t: Thread)
    requires InvWith(s, lst) && t < |s.pcs| && s.pcs[t].DropOne?
    ensures InvWith(AdvanceThread(s, t), lst)
  {
    var n := s.pcs[t].h;
    var s' := AdvanceThread(s, t);
    DropOneWord(s, lst, t, n);
    WordStep(s, lst, s', lst, t, s'.pcs[t], n);
    forall u | 0 <= u < |s.pcs| && u != t ensures OwnsUnflagged(s.pcs[u], n) || !Owns(s.pcs[u], n) {
      assert LocalOk(s, s.pcs[u]);
      if Owns(s.pcs[u], n) && !OwnsUnflagged(s.pcs[u], n) {
        NobodyHolds(s, lst, u, t, n);
      }
    }
    OthersKeepLocal(s, lst, s', t, n);
  }

  lemma StepPushNext(s: State, lst: seq<Node>, t: Thread)
    requires InvWith(s, lst) && t < |s.pcs| && s.pcs[t].PushNext?
    ensures InvWith(AdvanceThread(s, t), lst)
  {
    var n := s.pcs[t].n;
    var s' := AdvanceThread(s, t);
    PushNextWord(s, lst, t, n);
    WordStep(s, lst, s', lst, t, s'.pcs[t], n);
    OwnerAlone(s, lst, t, n);
    forall u | 0 <= u < |s'.pcs| ensures LocalOk(s', s'.pcs[u]) {
      assert LocalOk(s, s.pcs[u]);
      if u != t {
        NobodyHolds(s, lst, t, u, n);
      }
    }
  }

  lemma PushNextWord(s: State, lst: seq<Node>, t: Thread, n: Node)
    requires InvWith(s, lst) && t < |s.pcs| && s.pcs[t].PushNext? && n == s.pcs[t].n
    ensures n !in lst && s.refs[n] == SHOULD_BE_ON_FREELIST && NodeOk(AdvanceThread(s, t), lst, n)
  {
    assert NodeOk(s, lst, n);
    assert LocalOk(s, s.pcs[t]);
    Contribution(s, t, n);
    Moved(s, t, AdvanceThread(s, t).pcs[t], n);
  }

  lemma PushRefsWord(s: State, lst: seq<Node>, t: Thread, n: Node)
    requires InvWith(s, lst) && t < |s.pcs| && s.pcs[t].PushRefs? && n == s.pcs[t].n
    ensures NodeOk(AdvanceThread(s, t), lst, n)
  {
    assert NodeOk(s, lst, n);
    assert LocalOk(s, s.pcs[t]);
    Moved(s, t, AdvanceThread(s, t).pcs[t], n);
    Contribution(s, t, n);
  }

  lemma PushUndoWord(s: State, lst: seq<Node>, t: Thread, n: Node)
    requires InvWith(s, lst) && t < |s.pcs| && s.pcs[t].PushUndo? && n == s.pcs[t].n
    ensures NodeOk(AdvanceThread(s, t), lst, n)
    ensures s.refs[n] == 1 ==> AdvanceThread(s, t).refs[n] == SHOULD_BE_ON_FREELIST
  {
    assert NodeOk(s, lst, n);
    Moved(s, t, AdvanceThread(s, t).pcs[t], n);
    Contribution(s, t, n);
    FetchAddKeepsNode(s, lst, AdvanceThread(s, t), t, n, SHOULD_BE_ON_FREELIST - 1);
  }

  lemma StepPushRefs(s: State, lst: seq<Node>, t: Thread)
    requires InvWith(s, lst) && t < |s.pcs| && (s.pcs[t].PushRefs? || s.pcs[t].PushUndo?)
    ensures InvWith(AdvanceThread(s, t), lst)
  {
    var n := s.pcs[t].n;
    var s' := AdvanceThread(s, t);
    if s.pcs[t].PushRefs? {
      PushRefsWord(s, lst, t, n);
    } else {
      PushUndoWord(s, lst, t, n);
    }
    WordStep(s, lst, s', lst, t, s'.pcs[t], n);
    assert LocalOk(s, s.pcs[t]);
    OwnerAlone(s, lst, t, n);
    OthersKeepLocal(s, lst, s', t, n);
  }

  /** The CAS of a push puts the node in front of the list, whatever happened to the head meanwhile. */
  lemma StepPushSwing(s: State, lst: seq<Node>, t: Thread)
    requires InvWith(s, lst) && t < |s.pcs| && s.pcs[t].PushSwing?
    ensures InvWith(AdvanceThread(s, t), if s.head == s.pcs[t].hd then [s.pcs[t].n] + lst else lst)
  {
    var n, hd := s.pcs[t].n, s.pcs[t].hd;
    var s' := AdvanceThread(s, t);
    if s.head == hd {
      PushSwingWord(s, lst, t, n);
      assert LocalOk(s, s.pcs[t]);
      PushChain(s, lst, s', n);
      WordStep(s, lst, s', [n] + lst, t, s'.pcs[t], n);
      forall u | 0 <= u < |s'.pcs| ensures LocalOk(s', s'.pcs[u]) {
        assert u != t ==> LocalOk(s, s.pcs[u]);
      }
    } else {
      LoadStep(s, lst, t, s'.pcs[t]);
    }
  }

  lemma PushSwingWord(s: State, lst: seq<Node>, t: Thread, n: Node)
    requires InvWith(s, lst) && t < |s.pcs| && s.pcs[t].PushSwing? && n == s.pcs[t].n && s.head == s.pcs[t].hd
    ensures n !in lst
    ensures NodeOk(AdvanceThread(s, t), [n] + lst, n)
  {
    assert NodeOk(s, lst, n);
    Contribution(s, t, n);
    Moved(s, t, AdvanceThread(s, t).pcs[t], n);
  }

  predicate OnlyLoads(pc: Pc) {
    pc.LoadHead? || pc.LoadRefs? || pc.LoadNext? || pc.PushLoad?
  }

  lemma StepLoads(s: State, lst: seq<Node>, t: Thread)
    requires InvWith(s, lst) && t < |s.pcs| && OnlyLoads(s.pcs[t])
    ensures InvWith(AdvanceThread(s, t), lst)
  {
    assert LocalOk(s, s.pcs[t]);
    LoadStep(s, lst, t, AdvanceThread(s, t).pcs[t]);
  }

  lemma AdvanceKeepsInv(s: State, lst: seq<Node>, t: Thread)
    requires InvWith(s, lst) && t < |s.pcs| && !s.pcs[t].Idle?
    ensures exists lst' :: InvWith(AdvanceThread(s, t), lst')
  {
    if OnlyLoads(s.pcs[t]) {
      StepLoads(s, lst, t);
    } else if s.pcs[t].AddFlag? {
      StepAddFlag(s, lst, t);
    } else if s.pcs[t].TakeRef? {
      StepTakeRef(s, lst, t);
    } else if s.pcs[t].SwingHead? {
      StepSwingHead(s, lst, t);
    } else if s.pcs[t].DropTwo? {
      StepDropTwo(s, lst, t);
    } else if s.pcs[t].DropOne? {
      StepDropOne(s, lst, t);
    } else if s.pcs[t].PushNext? {
      StepPushNext(s, lst, t);
    } else if s.pcs[t].PushSwing? {
      StepPushSwing(s, lst, t);
    } else {
      StepPushRefs(s, lst, t);
    }
  }

  lemma StepKeepsInv(s: State, a: Action)
    requires Inv(s) && Enabled(s, a)
    ensures Inv(Do(s, a))
  {
    var lst :| InvWith(s, lst);
    match a
    case InvokeAdd(t, n) => StepInvokeAdd(s, lst, t, n);
    case InvokeTryGet(t) => LoadStep(s, lst, t, LoadHead);
    case Advance(t) => AdvanceKeepsInv(s, lst, t);
  }

  // ----- what the invariant gives, for every run

  /** A run from an initial state. `Wf` is only there because `Do` asks for it: RunKeepsInv shows that
      every step re-establishes it. */
  ghost predicate IsRun(ss: seq<State>, actions: seq<Action>) {
    && |ss| == |actions| + 1
    && Init(ss[0])
    && forall i {:trigger actions[i]} :: 0 <= i < |actions| ==> IsStep(ss[i], actions[i], ss[i + 1])
  }

  ghost predicate IsStep(s: State, a: Action, s': State) {
    Wf(s) && Enabled(s, a) && s' == Do(s, a)
  }

  lemma {:induction false} RunKeepsInv(ss: seq<State>, actions: seq<Action>, i: nat)
    requires IsRun(ss, actions) && i < |ss|
    ensures Inv(ss[i])
  {
    if i == 0 {
      InitEstablishesInv(ss[0]);
    } else {
      RunKeepsInv(ss, actions, i - 1);
      assert IsStep(ss[i - 1], actions[i - 1], ss[i]);
      StepKeepsInv(ss[i - 1], actions[i - 1]);
    }
  }

  /** `try_get` is about to return `n`. */
  ghost predicate HandsOut(s: State, a: Action, n: Node) {
    a.Advance? && a.t < |s.pcs| && s.pcs[a.t] == DropTwo(n)
  }

  /** A node that is about to be handed out is in no client's hands and no other thread's care, and its
      should-be-on-free-list bit is clear, which is what the code asserts. */
  lemma HandOutIsExclusive(s: State, t: Thread, u: Thread, n: Node)
    requires Inv(s) && t < |s.pcs| && u < |s.pcs| && s.pcs[t] == DropTwo(n)
    ensures n !in s.held
    ensures t != u ==> !Owns(s.pcs[u], n)
    ensures s.refs[n] / SHOULD_BE_ON_FREELIST == 0
  {
    var lst :| InvWith(s, lst);
    assert NodeOk(s, lst, n);
    Contribution(s, t, n);
    if Owns(s.pcs[u], n) {
      OneOwner(s, lst, t, u, n);
    }
  }

  /** No ABA: whenever the head CAS of `try_get` succeeds, the value it installs is the current
      successor of the node it takes, although both were read earlier. */
  lemma NoAba(s: State, t: Thread)
    requires Inv(s) && t < |s.pcs| && s.pcs[t].SwingHead? && s.head == At(s.pcs[t].h)
    ensures AdvanceThread(s, t).head == s.next[s.pcs[t].h]
  {
    var lst :| InvWith(s, lst);
    SwingHeadPops(s, lst, t);
  }

  /** The low 31 bits count the threads holding a reference, plus one for the list (or for the thread
      taking the node off, or putting it on, the list). No addition ever wraps. */
  lemma CountIsHoldersPlusListRef(s: State, lst: seq<Node>, n: Node)
    requires InvWith(s, lst) && n < |s.refs|
    ensures 0 <= s.refs[n] < WORD
    ensures s.refs[n] % SHOULD_BE_ON_FREELIST ==
            Sum(s.pcs, Holding(n)) + Bit(n in lst) + Sum(s.pcs, ListRefs(n))
    ensures 0 <= Bit(n in lst) + Sum(s.pcs, ListRefs(n)) <= 1
    ensures Keepers(s, lst, n) == 0 ==> s.refs[n] / SHOULD_BE_ON_FREELIST == 1 && 1 <= Sum(s.pcs, Holding(n))
  {
    assert NodeOk(s, lst, n);
    RefsSplit(s.pcs, n);
    SumNonNegative(s.pcs, ListRefs(n));
    SumMonotone(s.pcs, ListRefs(n), Clear(n));
    SumMonotone(s.pcs, Clear(n), Owners(n));
    SumNonNegative(s.pcs, Holding(n));
    SumBound(s.pcs, Refs(n), 2);
    SumNonNegative(s.pcs, Clear(n));
  }

  lemma {:induction false} RefsSplit(pcs: seq<Pc>, n: Node)
    ensures Sum(pcs, Refs(n)) == Sum(pcs, Holding(n)) + Sum(pcs, ListRefs(n))
  {
    if pcs != [] {
      RefsSplit(pcs[1..], n);
    }
  }

  /** When no call is in progress, nothing is lost: every node is either in a client's hands, with a
      zero word, or on the list exactly once, with the list's reference only. */
  lemma NothingLostAtQuiescence(s: State)
    requires Inv(s)
    requires forall t :: 0 <= t < |s.pcs| ==> s.pcs[t] == Idle
    ensures exists lst ::
              && Chained(s, lst)
              && forall n :: 0 <= n < |s.refs| ==>
                   && (n in lst <==> n !in s.held)
                   && s.refs[n] == (if n in s.held then 0 else 1)
  {
    var lst :| InvWith(s, lst);
    forall n | 0 <= n < |s.refs|
      ensures (n in lst <==> n !in s.held) && s.refs[n] == (if n in s.held then 0 else 1)
    {
      assert NodeOk(s, lst, n);
      SumZero(s.pcs, Refs(n));
      SumZero(s.pcs, Owners(n));
      SumZero(s.pcs, Clear(n));
    }
  }

  /** Once handed out, a node stays in its client's hands until somebody adds it. */
  lemma {:induction false} HeldUntilAdded(ss: seq<State>, actions: seq<Action>, i: nat, j: nat, n: Node)
    requires IsRun(ss, actions) && i <= j < |ss| && n in ss[i].held
    requires forall k, t :: i <= k < j ==> actions[k] != InvokeAdd(t, n)
    ensures n in ss[j].held
    decreases j - i
  {
    if i < j {
      assert IsStep(ss[i], actions[i], ss[i + 1]);
      HeldUntilAdded(ss, actions, i + 1, j, n);
    }
  }

  /** In every run, between two `try_get` calls that return the same node somebody added that node. */
  lemma NoDoubleHandOut(ss: seq<State>, actions: seq<Action>, i: nat, j: nat, n: Node)
    requires IsRun(ss, actions) && i < j < |actions|
    requires HandsOut(ss[i], actions[i], n) && HandsOut(ss[j], actions[j], n)
    ensures exists k, t :: i < k < j && actions[k] == InvokeAdd(t, n)
  {
    if forall k, t :: i < k < j ==> actions[k] != InvokeAdd(t, n) {
      assert IsStep(ss[i], actions[i], ss[i + 1]);
      HeldUntilAdded(ss, actions, i + 1, j, n);
      RunKeepsInv(ss, actions, j);
      HandOutIsExclusive(ss[j], actions[j].t, actions[j].t, n);
      assert false;
    }
  }

  // ----- what a call answers

  /** Pushing for `try_get` rather than for `add`. */
  predicate PushesForRetry(pc: Pc) {
    (pc.PushLoad? || pc.PushNext? || pc.PushRefs? || pc.PushSwing? || pc.PushUndo?) && pc.after.Retry?
  }

  predicate InTryGet(pc: Pc) {
    || pc.LoadHead? || pc.LoadRefs? || pc.TakeRef? || pc.LoadNext? || pc.SwingHead? || pc.DropTwo? || pc.DropOne?
    || PushesForRetry(pc)
  }

  /** The thread will find a null head in its local variable. */
  predicate CarriesNull(pc: Pc) {
    (pc == LoadRefs(Null)) || (pc.DropOne? && pc.newHead == Null) || (PushesForRetry(pc) && pc.after == Retry(Null))
  }

  /** Action `i` of the run calls `try_get` in thread `t`, which is still in that call in state `j`. */
  ghost predicate Getting(ss: seq<State>, actions: seq<Action>, i: nat, j: nat, t: Thread) {
    && i < j < |ss| == |actions| + 1
    && actions[i] == InvokeTryGet(t)
    && forall k {:trigger ss[k]} :: i < k <= j ==> t < |ss[k].pcs| && !ss[k].pcs[t].Idle?
  }

  /** One access of a thread inside `try_get`. */
  lemma TryGetStep(s: State, t: Thread)
    requires Wf(s) && t < |s.pcs| && InTryGet(s.pcs[t])
    ensures var pc := AdvanceThread(s, t).pcs[t];
            if pc.Idle? then s.pcs[t].DropTwo? || s.pcs[t] == LoadRefs(Null)
            else InTryGet(pc) && (CarriesNull(pc) ==> CarriesNull(s.pcs[t]) || s.head == Null)
  {
  }

  lemma OthersLeavePc(s: State, a: Action, t: Thread)
    requires Wf(s) && Enabled(s, a) && t < |s.pcs| && !s.pcs[t].Idle? && a != Advance(t)
    ensures Do(s, a).pcs[t] == s.pcs[t]
  {
    assert a.t != t;
  }

  lemma {:induction false} NullWasSeen(ss: seq<State>, actions: seq<Action>, i: nat, j: nat, t: Thread)
    requires IsRun(ss, actions) && Getting(ss, actions, i, j, t)
    ensures InTryGet(ss[j].pcs[t])
    ensures CarriesNull(ss[j].pcs[t]) ==> exists k {:trigger ss[k]} :: i < k <= j && ss[k].head == Null
    decreases j
  {
    assert IsStep(ss[j - 1], actions[j - 1], ss[j]);
    assert !ss[j].pcs[t].Idle?;
    if i + 1 < j {
      NullWasSeen(ss, actions, i, j - 1, t);
      if actions[j - 1] == Advance(t) {
        TryGetStep(ss[j - 1], t);
      } else {
        OthersLeavePc(ss[j - 1], actions[j - 1], t);
      }
    }
  }

  /** In every run a `try_get` that returns either hands out a node that nobody had, or the list was
      empty at some moment of the call. */
  lemma TryGetAnswers(ss: seq<State>, actions: seq<Action>, i: nat, j: nat, t: Thread)
    requires IsRun(ss, actions) && Getting(ss, actions, i, j, t)
    requires j < |actions| && t < |ss[j + 1].pcs| && ss[j + 1].pcs[t].Idle?
    ensures if ss[j].pcs[t].DropTwo? then
              && ss[j].pcs[t].h !in ss[j].held
              && ss[j + 1].held == ss[j].held + {ss[j].pcs[t].h}
            else
              && ss[j + 1].held == ss[j].held
              && exists k {:trigger ss[k]} :: i < k <= j && ss[k].head == Null
  {
    assert IsStep(ss[j], actions[j], ss[j + 1]);
    NullWasSeen(ss, actions, i, j, t);
    if actions[j] != Advance(t) {
      OthersLeavePc(ss[j], actions[j], t);
    }
    TryGetStep(ss[j], t);
    RunKeepsInv(ss, actions, j);
    if ss[j].pcs[t].DropTwo? {
      HandOutIsExclusive(ss[j], t, t, ss[j].pcs[t].h);
    }
  }

  // ----- what a call does when the other threads stand still, wherever they stopped

  /** Thread `t` runs alone for up to `k` accesses, until its call returns. */
  ghost function Solo(s: State, t: Thread, k: nat): (s': State)
    decreases k
  {
    if k == 0 || !Wf(s) || |s.pcs| <= t || s.pcs[t].Idle? then s else Solo(AdvanceThread(s, t), t, k - 1)
  }

  /** The head of the list has a count that `try_get` accepts. */
  lemma HeadCountIsPositive(s: State, lst: seq<Node>)
    requires InvWith(s, lst) && lst != []
    ensures lst[0] < |s.refs| && s.refs[lst[0]] % SHOULD_BE_ON_FREELIST != 0
  {
    var n := lst[0];
    assert n < |s.next|;
    CountIsHoldersPlusListRef(s, lst, n);
    SumNonNegative(s.pcs, Holding(n));
    SumNonNegative(s.pcs, ListRefs(n));
  }

  lemma SwingThenDrop(s: State, t: Thread)
    requires Wf(s) && t < |s.pcs| && s.pcs[t].SwingHead? && s.head == At(s.pcs[t].h) && Wf(AdvanceThread(s, t))
    ensures var s1, n := AdvanceThread(s, t), s.pcs[t].h;
            && s1.pcs == s.pcs[t := DropTwo(n)] && s1.held == s.held
            && Solo(s, t, 2) == AdvanceThread(s1, t)
            && AdvanceThread(s1, t).pcs == s.pcs[t := Idle] && AdvanceThread(s1, t).held == s.held + {n}
  {
    assert Solo(s, t, 2) == Solo(AdvanceThread(s, t), t, 1);
  }

  /** The last two accesses of a successful `try_get`. */
  lemma SoloSwing(s: State, lst: seq<Node>, t: Thread)
    requires InvWith(s, lst) && t < |s.pcs| && s.pcs[t].SwingHead? && s.head == At(s.pcs[t].h)
    ensures lst != [] && lst[0] == s.pcs[t].h && lst[0] !in s.held
    ensures var s' := Solo(s, t, 2);
            s'.pcs == s.pcs[t := Idle] && s'.held == s.held + {lst[0]} && InvWith(s', lst[1..])
  {
    SwingHeadPops(s, lst, t);
    StepSwingHead(s, lst, t);
    SwingThenDrop(s, t);
    var s1 := AdvanceThread(s, t);
    HandOutIsExclusive(s1, t, t, lst[0]);
    StepDropTwo(s1, lst[1..], t);
  }

  lemma SoloTake(s: State, lst: seq<Node>, t: Thread)
    requires InvWith(s, lst) && t < |s.pcs| && lst != [] && s.pcs[t] == LoadRefs(s.head)
    ensures lst[0] !in s.held
    ensures var s' := Solo(s, t, 5);
            s'.pcs == s.pcs[t := Idle] && s'.held == s.held + {lst[0]} && InvWith(s', lst[1..])
  {
    StepLoads(s, lst, t);
    var s1 := AdvanceThread(s, t);
    HeadCountIsPositive(s1, lst);
    StepTakeRef(s1, lst, t);
    var s2 := AdvanceThread(s1, t);
    StepLoads(s2, lst, t);
    var s3 := AdvanceThread(s2, t);
    SoloSwing(s3, lst, t);
    assert Solo(s, t, 5) == Solo(s1, t, 4) == Solo(s2, t, 3) == Solo(s3, t, 2);
    assert s3.pcs[t := Idle] == s.pcs[t := Idle];
  }

  /** An undisturbed `try_get` takes the first node, and answers null only on the empty list. */
  lemma UndisturbedTryGet(s: State, lst: seq<Node>, t: Thread)
    requires InvWith(s, lst) && t < |s.pcs| && s.pcs[t].Idle?
    ensures var s' := Solo(Do(s, InvokeTryGet(t)), t, 6);
            && s'.pcs == s.pcs
            && if lst == [] then s' == s
               else s'.held == s.held + {lst[0]} && lst[0] !in s.held && InvWith(s', lst[1..])
  {
    var s1 := Do(s, InvokeTryGet(t));
    LoadStep(s, lst, t, LoadHead);
    StepLoads(s1, lst, t);
    var s2 := AdvanceThread(s1, t);
    assert Solo(s1, t, 6) == Solo(s2, t, 5);
    assert s2.pcs[t := Idle] == s.pcs;
    if lst == [] {
      assert Solo(s2, t, 5) == Solo(AdvanceThread(s2, t), t, 4);
    } else {
      SoloTake(s2, lst, t);
    }
  }

  lemma PushAccesses(s: State, t: Thread)
    requires Wf(s) && t < |s.pcs| && s.pcs[t].PushLoad?
    ensures var n, a := s.pcs[t].n, s.pcs[t].after;
            var s1 := Goto(s, t, PushNext(n, s.head, a));
            var s2 := Goto(s1.(next := s.next[n := s.head]), t, PushRefs(n, s.head, a));
            var s3 := Goto(s2.(refs := s.refs[n := 1]), t, PushSwing(n, s.head, a));
            var s4 := Goto(s3.(head := At(n)), t, Resume(a));
            && AdvanceThread(s, t) == s1
            && (Wf(s1) ==> AdvanceThread(s1, t) == s2)
            && (Wf(s2) ==> AdvanceThread(s2, t) == s3)
            && (Wf(s3) ==> AdvanceThread(s3, t) == s4)
            && s4.pcs == s.pcs[t := Resume(a)]
  {
  }

  lemma SoloPush(s: State, lst: seq<Node>, t: Thread)
    requires InvWith(s, lst) && t < |s.pcs| && s.pcs[t].PushLoad?
    ensures var s' := Solo(s, t, 4);
            && s'.pcs == s.pcs[t := Resume(s.pcs[t].after)] && s'.held == s.held
            && InvWith(s', [s.pcs[t].n] + lst)
  {
    PushAccesses(s, t);
    StepLoads(s, lst, t);
    var s1 := AdvanceThread(s, t);
    StepPushNext(s1, lst, t);
    var s2 := AdvanceThread(s1, t);
    StepPushRefs(s2, lst, t);
    var s3 := AdvanceThread(s2, t);
    StepPushSwing(s3, lst, t);
    assert Solo(s, t, 4) == Solo(s1, t, 3) == Solo(s2, t, 2) == Solo(s3, t, 1);
  }

  /** The word of a node in a client's hands counts the threads that still refer to it. */
  lemma HeldWord(s: State, lst: seq<Node>, n: Node)
    requires InvWith(s, lst) && n in s.held
    ensures n < |s.refs| && 0 <= s.refs[n] < SHOULD_BE_ON_FREELIST
  {
    assert NodeOk(s, lst, n);
    SumBound(s.pcs, Refs(n), 2);
    SumNonNegative(s.pcs, Refs(n));
    SumNonNegative(s.pcs, Owners(n));
    SumNonNegative(s.pcs, Clear(n));
    SumMonotone(s.pcs, Clear(n), Owners(n));
  }

  /** An undisturbed `add` of a node that no thread refers to puts it in front of the list; otherwise it
      leaves the push to the last thread that does, with the bit set. */
  lemma UndisturbedAdd(s: State, lst: seq<Node>, t: Thread, n: Node)
    requires InvWith(s, lst) && Enabled(s, InvokeAdd(t, n))
    ensures n < |s.refs|
    ensures var s' := Solo(Do(s, InvokeAdd(t, n)), t, 5);
            && s'.pcs == s.pcs && s'.held == s.held - {n}
            && if s.refs[n] == 0 then InvWith(s', [n] + lst)
               else InvWith(s', lst) && s'.refs == s.refs[n := s.refs[n] + SHOULD_BE_ON_FREELIST]
  {
    var s1 := Do(s, InvokeAdd(t, n));
    StepInvokeAdd(s, lst, t, n);
    HeldWord(s, lst, n);
    StepAddFlag(s1, lst, t);
    var s2 := AdvanceThread(s1, t);
    assert Solo(s1, t, 5) == Solo(s2, t, 4);
    if s.refs[n] == 0 {
      SoloPush(s2, lst, t);
      assert s2.pcs[t := Idle] == s.pcs;
    } else {
      assert s2.pcs == s.pcs;
    }
  }

  function RetryRank(head: Ptr, p: Ptr): nat {
    if p == Null then 1 else if p == head then 5 else 10
  }

  function AfterRank(a: After): nat {
    if a.Return? then 0 else if a.newHead == Null then 1 else 10
  }

  ghost function DropRank(s: State, h: Node, nh: Ptr): nat
    requires h < |s.refs|
  {
    if s.refs[h] == SHOULD_BE_ON_FREELIST + 1 then 5 + AfterRank(Retry(nh)) else 1 + RetryRank(s.head, nh)
  }

  /** How many accesses thread `t` still needs at most if it runs alone. */
  ghost function Rank(s: State, t: Thread): (r: nat)
    requires Wf(s) && t < |s.pcs|
    ensures r <= 18 && (r == 0 <==> s.pcs[t].Idle?)
  {
    match s.pcs[t]
    case Idle => 0
    case AddFlag(_) => 5
    case LoadHead => 6
    case LoadRefs(p) => RetryRank(s.head, p)
    case TakeRef(h, refs) =>
      if refs % SHOULD_BE_ON_FREELIST == 0 || s.refs[h] != refs then 7 else if s.head == At(h) then 4 else 9
    case LoadNext(h) => if s.head == At(h) then 3 else 2 + DropRank(s, h, s.head)
    case SwingHead(h, _) => if s.head == At(h) then 2 else 1 + DropRank(s, h, s.head)
    case DropTwo(_) => 1
    case DropOne(h, nh) => DropRank(s, h, nh)
    case PushLoad(_, a) => 4 + AfterRank(a)
    case PushNext(_, hd, a) => (if hd == s.head then 3 else 7) + AfterRank(a)
    case PushRefs(_, hd, a) => (if hd == s.head then 2 else 6) + AfterRank(a)
    case PushSwing(_, hd, a) => (if hd == s.head then 1 else 5) + AfterRank(a)
    case PushUndo(n, hd, a) =>
      if s.refs[n] != 1 then 1 + AfterRank(a) else (if hd == s.head then 4 else 8) + AfterRank(a)
  }

  lemma GetRankDecreases(s: State, t: Thread)
    requires Wf(s) && t < |s.pcs| && InTryGet(s.pcs[t]) && !PushesForRetry(s.pcs[t]) && Wf(AdvanceThread(s, t))
    requires s.head.At? ==> s.refs[s.head.node] % SHOULD_BE_ON_FREELIST != 0
    requires s.pcs[t].TakeRef? ==> 0 <= s.refs[s.pcs[t].h] < WORD
    ensures Rank(AdvanceThread(s, t), t) < Rank(s, t)
  {
  }

  lemma AddRankDecreases(s: State, t: Thread)
    requires Wf(s) && t < |s.pcs| && !s.pcs[t].Idle? && !(InTryGet(s.pcs[t]) && !PushesForRetry(s.pcs[t]))
    requires Wf(AdvanceThread(s, t))
    ensures Rank(AdvanceThread(s, t), t) < Rank(s, t)
  {
  }

  lemma RankDecreases(s: State, lst: seq<Node>, t: Thread)
    requires InvWith(s, lst) && t < |s.pcs| && !s.pcs[t].Idle? && Wf(AdvanceThread(s, t))
    ensures Rank(AdvanceThread(s, t), t) < Rank(s, t)
  {
    if InTryGet(s.pcs[t]) && !PushesForRetry(s.pcs[t]) {
      if lst != [] {
        HeadCountIsPositive(s, lst);
      }
      if s.pcs[t].TakeRef? {
        CountIsHoldersPlusListRef(s, lst, s.pcs[t].h);
      }
      GetRankDecreases(s, t);
    } else {
      AddRankDecreases(s, t);
    }
  }

  lemma SameThreads(s: State, t: Thread)
    requires Wf(s) && t < |s.pcs| && !s.pcs[t].Idle?
    ensures |AdvanceThread(s, t).pcs| == |s.pcs|
  {
  }

  lemma SoloStep(s: State, t: Thread, k: nat) returns (s': State)
    requires Inv(s) && t < |s.pcs| && !s.pcs[t].Idle? && Rank(s, t) <= k
    ensures Inv(s') && t < |s'.pcs| && Rank(s', t) < k && Solo(s, t, k) == Solo(s', t, k - 1)
  {
    s' := AdvanceThread(s, t);
    StepKeepsInv(s, Advance(t));
    SameThreads(s, t);
    var lst :| InvWith(s, lst);
    RankDecreases(s, lst, t);
  }

  /** No call ever waits for another thread: from every state of every run, with the other threads
      stopped wherever they are, each call returns after at most 18 accesses of its own. */
  lemma {:induction false} SoloFinishes(s: State, t: Thread, k: nat)
    requires Inv(s) && t < |s.pcs| && Rank(s, t) <= k
    ensures var s' := Solo(s, t, k); t < |s'.pcs| && s'.pcs[t].Idle?
    decreases k
  {
    if s.pcs[t].Idle? {
      assert Solo(s, t, k) == s;
    } else {
      var s' := SoloStep(s, t, k);
      SoloFinishes(s', t, k - 1);
      assert Solo(s, t, k) == Solo(s', t, k - 1);
    }
  }
}
