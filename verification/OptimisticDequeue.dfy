/** The optimistic dequeue counters that explicit and implicit producers share.

    One producer publishes elements by advancing `tailIndex`; any number of consumers run `dequeue` or
    `dequeue_bulk` against it. Every atomic access is one step, and `dequeue` is the bulk code with
    max = 1: the same accesses in the same order, with `desiredCount` and `actualCount` at most 1. */
module OptimisticDequeue {

  type Thread = nat

  datatype Pc =
    | Idle
    | LoadTail(max: nat)                       // tail = tailIndex.load
    | LoadOver(max: nat, tail: nat)            // overcommit = dequeueOvercommit.load
    | LoadOpt(max: nat, tail: nat, over: nat)  // dequeueOptimisticCount.load, desiredCount
    | Reserve(want: nat, over: nat)            // dequeueOptimisticCount.fetch_add(desiredCount)
    | Decide(want: nat, over: nat, mine: nat)  // tail = tailIndex.load, actualCount
    | Give(extra: nat, take: nat)              // dequeueOvercommit.fetch_add(desired - actual)
    | Claim(take: nat)                         // headIndex.fetch_add(actualCount)
    | GiveAll(want: nat)                       // dequeueOvercommit.fetch_add(desiredCount)

  datatype State = State(tail: nat, head: nat, opt: nat, over: nat, pcs: seq<Pc>)

  datatype Action = Enqueue(count: nat) | Invoke(t: Thread, max: nat) | Advance(t: Thread)

  function Min(a: int, b: int): int { if a < b then a else b }

  function Goto(s: State, t: Thread, pc: Pc): State
    requires t < |s.pcs|
  {
    s.(pcs := s.pcs[t := pc])
  }

  predicate Enabled(s: State, a: Action) {
    match a
    case Enqueue(count) => 0 < count
    case Invoke(t, _) => t < |s.pcs| && s.pcs[t].Idle?
    case Advance(t) => t < |s.pcs| && !s.pcs[t].Idle?
  }

  function Do(s: State, a: Action): State
    requires Enabled(s, a)
  {
    match a
    case Enqueue(count) => s.(tail := s.tail + count)
    case Invoke(t, max) => Goto(s, t, LoadTail(max))
    case Advance(t) => AdvanceThread(s, t)
  }

  function AdvanceThread(s: State, t: Thread): State
    requires t < |s.pcs| && !s.pcs[t].Idle?
  {
    match s.pcs[t]
    case LoadTail(max) => Goto(s, t, LoadOver(max, s.tail))
    case LoadOver(max, tail) => Goto(s, t, LoadOpt(max, tail, s.over))
    case LoadOpt(max, tail, over) =>
      var desired := tail - (s.opt - over);
      if desired > 0 then Goto(s, t, Reserve(Min(desired, max), over)) else Goto(s, t, Idle)
    case Reserve(want, over) =>
      Goto(s.(opt := s.opt + want), t, Decide(want, over, s.opt))
    case Decide(want, over, mine) =>
      var actual := s.tail - (mine - over);
      if actual > 0 then
        var take := Min(want, actual);
        Goto(s, t, if take < want then Give(want - take, take) else Claim(take))
      else
        Goto(s, t, GiveAll(want))
    case Give(extra, take) => Goto(s.(over := s.over + extra), t, Claim(take))
    case Claim(take) => Goto(s.(head := s.head + take), t, Idle)
    case GiveAll(want) => Goto(s.(over := s.over + want), t, Idle)
  }

  ghost predicate Init(s: State) {
    && s.tail == s.head == s.opt == s.over == 0
    && forall t :: 0 <= t < |s.pcs| ==> s.pcs[t] == Idle
  }

  // ----- the tickets that dequeueOptimisticCount hands out

  /** The fate of one unit of `dequeueOptimisticCount`: reserved by a thread, won by a thread that has
      still to advance `headIndex` for it, turned into an advance of `headIndex`, or returned through
      `dequeueOvercommit`. */
  datatype Ticket = Open(t: Thread) | Won(t: Thread) | Done | Lost

  ghost function Count(tk: seq<Ticket>, x: Ticket): nat {
    if tk == [] then 0 else Count(tk[..|tk| - 1], x) + (if tk[|tk| - 1] == x then 1 else 0)
  }

  predicate Winner(x: Ticket) { x.Won? || x.Done? }

  ghost function Winners(tk: seq<Ticket>): nat {
    if tk == [] then 0 else Winners(tk[..|tk| - 1]) + (if Winner(tk[|tk| - 1]) then 1 else 0)
  }

  ghost function LostBefore(tk: seq<Ticket>, p: nat): nat
    requires p <= |tk|
  {
    Count(tk[..p], Lost)
  }

  /** The rank bound: at most `tail` winners can stand at or before a winning ticket. */
  ghost predicate RankOk(tk: seq<Ticket>, tail: nat) {
    forall p :: 0 <= p < |tk| && Winner(tk[p]) ==> p + 1 <= tail + LostBefore(tk, p)
  }

  ghost predicate ThreadOk(s: State, tk: seq<Ticket>, t: Thread)
    requires t < |s.pcs|
  {
    match s.pcs[t]
    case LoadOpt(_, _, over) => over <= s.over && NoTickets(tk, t)
    case Reserve(_, over) => over <= s.over && NoTickets(tk, t)
    case Decide(want, over, mine) =>
      && mine + want <= |tk|
      && over <= LostBefore(tk, mine)
      && (forall p :: 0 <= p < |tk| ==> (tk[p] == Open(t) <==> mine <= p < mine + want))
      && Count(tk, Won(t)) == 0
    case Give(extra, take) => Count(tk, Open(t)) == extra && Count(tk, Won(t)) == take
    case Claim(take) => Count(tk, Open(t)) == 0 && Count(tk, Won(t)) == take
    case GiveAll(want) => Count(tk, Open(t)) == want && Count(tk, Won(t)) == 0
    case _ => NoTickets(tk, t)
  }

  ghost predicate NoTickets(tk: seq<Ticket>, t: Thread) {
    Count(tk, Open(t)) == 0 && Count(tk, Won(t)) == 0
  }

  ghost predicate OwnersExist(s: State, tk: seq<Ticket>) {
    forall p :: 0 <= p < |tk| && (tk[p].Open? || tk[p].Won?) ==> tk[p].t < |s.pcs|
  }

  ghost predicate InvWith(s: State, tk: seq<Ticket>) {
    && |tk| == s.opt
    && Count(tk, Lost) == s.over
    && Count(tk, Done) == s.head
    && RankOk(tk, s.tail)
    && OwnersExist(s, tk)
    && forall t :: 0 <= t < |s.pcs| ==> ThreadOk(s, tk, t)
  }

  ghost predicate Inv(s: State) {
    exists tk :: InvWith(s, tk)
  }

  // ----- counting tickets

  lemma {:induction false} CountAppend(a: seq<Ticket>, b: seq<Ticket>, x: Ticket)
    ensures Count(a + b, x) == Count(a, x) + Count(b, x)
  {
    if b == [] {
      assert a + b == a;
    } else {
      assert (a + b)[..|a + b| - 1] == a + b[..|b| - 1];
      CountAppend(a, b[..|b| - 1], x);
    }
  }

  lemma {:induction false} CountAbsent(tk: seq<Ticket>, x: Ticket)
    ensures Count(tk, x) == 0 <==> x !in tk
  {
    if tk != [] {
      CountAbsent(tk[..|tk| - 1], x);
      assert tk == tk[..|tk| - 1] + [tk[|tk| - 1]];
    }
  }

  /** An interval of equal tickets counts with its length. */
  lemma {:induction false} CountInterval(tk: seq<Ticket>, x: Ticket, lo: nat, hi: nat)
    requires lo <= hi <= |tk|
    requires forall p :: 0 <= p < |tk| ==> (tk[p] == x <==> lo <= p < hi)
    ensures Count(tk, x) == hi - lo
  {
    if tk != [] {
      var init := tk[..|tk| - 1];
      if hi == |tk| && lo < hi {
        CountInterval(init, x, lo, hi - 1);
      } else {
        CountInterval(init, x, Min(lo, |init|), Min(hi, |init|));
      }
    }
  }

  ghost function Recast(tk: seq<Ticket>, from: Ticket, to: Ticket): seq<Ticket> {
    seq(|tk|, p requires 0 <= p < |tk| => if tk[p] == from then to else tk[p])
  }

  lemma {:induction false} CountRecast(tk: seq<Ticket>, from: Ticket, to: Ticket, x: Ticket)
    requires from != to
    ensures Count(Recast(tk, from, to), x) ==
            if x == from then 0 else if x == to then Count(tk, to) + Count(tk, from) else Count(tk, x)
  {
    if tk != [] {
      var init := tk[..|tk| - 1];
      assert Recast(tk, from, to)[..|tk| - 1] == Recast(init, from, to);
      CountRecast(init, from, to, x);
    }
  }

  /** Tickets that are lost stay lost, so the losses before a position only grow. */
  lemma {:induction false} LostGrows(a: seq<Ticket>, b: seq<Ticket>)
    requires |a| == |b|
    requires forall p :: 0 <= p < |a| && a[p] == Lost ==> b[p] == Lost
    ensures Count(a, Lost) <= Count(b, Lost)
  {
    if a != [] {
      LostGrows(a[..|a| - 1], b[..|b| - 1]);
    }
  }

  lemma LostBeforeGrows(a: seq<Ticket>, b: seq<Ticket>, p: nat)
    requires p <= |a| <= |b|
    requires forall q :: 0 <= q < |a| && a[q] == Lost ==> b[q] == Lost
    ensures LostBefore(a, p) <= LostBefore(b, p)
  {
    LostGrows(a[..p], b[..p]);
  }

  lemma {:induction false} LostBeforeMonotone(tk: seq<Ticket>, p: nat, q: nat)
    requires p <= q <= |tk|
    ensures LostBefore(tk, p) <= LostBefore(tk, q)
  {
    CountAppend(tk[..p], tk[p..q], Lost);
    assert tk[..q] == tk[..p] + tk[p..q];
  }

  // ----- the ticket-rank argument

  lemma {:induction false} WinnersAndLosers(tk: seq<Ticket>)
    ensures Winners(tk) + Count(tk, Lost) <= |tk|
  {
    if tk != [] {
      WinnersAndLosers(tk[..|tk| - 1]);
    }
  }

  /** If every winning ticket respects the rank bound, there are at most `tail` winners. */
  lemma {:induction false} WinnersBounded(tk: seq<Ticket>, tail: nat)
    requires RankOk(tk, tail)
    ensures Winners(tk) <= tail
  {
    if tk != [] {
      var p := |tk| - 1;
      var init := tk[..p];
      if Winner(tk[p]) {
        WinnersAndLosers(init);
      } else {
        forall q | 0 <= q < |init| && Winner(init[q]) ensures q + 1 <= tail + LostBefore(init, q) {
          assert tk[q] == init[q] && init[..q] == tk[..q];
        }
        WinnersBounded(init, tail);
      }
    }
  }

  lemma {:induction false} WinnersInclude(tk: seq<Ticket>, t: Thread)
    ensures Count(tk, Done) + Count(tk, Won(t)) <= Winners(tk)
  {
    if tk != [] {
      WinnersInclude(tk[..|tk| - 1], t);
    }
  }

  /** `headIndex` never passes `tailIndex`. */
  lemma HeadNeverPassesTail(s: State)
    requires Inv(s)
    ensures s.head <= s.tail
  {
    var tk: seq<Ticket> :| InvWith(s, tk);
    WinnersBounded(tk, s.tail);
    WinnersInclude(tk, 0);
  }

  /** When a consumer advances `headIndex`, every index it claims is below `tailIndex` already. */
  lemma ClaimsArePublished(s: State, t: Thread)
    requires Inv(s) && t < |s.pcs| && s.pcs[t].Claim?
    ensures s.head + s.pcs[t].take <= s.tail
  {
    var tk: seq<Ticket> :| InvWith(s, tk);
    assert ThreadOk(s, tk, t);
    WinnersBounded(tk, s.tail);
    WinnersInclude(tk, t);
  }

  // ----- the invariant is inductive

  lemma InitEstablishesInv(s: State)
    requires Init(s)
    ensures InvWith(s, [])
  {
  }

  /** A step that leaves the tickets and the counters alone. */
  lemma LocalStep(s: State, tk: seq<Ticket>, t: Thread, pc: Pc)
    requires InvWith(s, tk) && t < |s.pcs| && ThreadOk(Goto(s, t, pc), tk, t)
    ensures InvWith(Goto(s, t, pc), tk)
  {
    forall u | 0 <= u < |s.pcs| ensures ThreadOk(Goto(s, t, pc), tk, u) {
      assert ThreadOk(s, tk, u);
    }
  }

  lemma StepReserve(s: State, tk: seq<Ticket>, t: Thread) returns (tk': seq<Ticket>)
    requires InvWith(s, tk) && t < |s.pcs| && s.pcs[t].Reserve?
    ensures InvWith(AdvanceThread(s, t), tk')
  {
    var want, over := s.pcs[t].want, s.pcs[t].over;
    assert ThreadOk(s, tk, t);
    var added := seq(want, _ => Open(t));
    tk' := tk + added;
    var s' := AdvanceThread(s, t);
    CountInterval(added, Open(t), 0, want);
    forall x | x != Open(t) ensures Count(tk', x) == Count(tk, x) {
      CountAppend(tk, added, x);
      CountAbsent(added, x);
    }
    forall p | 0 <= p <= |tk| ensures LostBefore(tk', p) == LostBefore(tk, p) {
      assert tk'[..p] == tk[..p];
    }
    assert LostBefore(tk', |tk|) == s.over by {
      assert tk[..|tk|] == tk;
    }
    CountAbsent(tk, Open(t));
    forall u | 0 <= u < |s.pcs| ensures ThreadOk(s', tk', u) {
      assert ThreadOk(s, tk, u);
    }
  }

  /** The tickets after `t` won the first `take` of its reserved ones. */
  ghost function WinFirst(tk: seq<Ticket>, t: Thread, bound: nat): seq<Ticket> {
    seq(|tk|, p requires 0 <= p < |tk| => if tk[p] == Open(t) && p < bound then Won(t) else tk[p])
  }

  lemma {:induction false} CountSame(a: seq<Ticket>, b: seq<Ticket>, x: Ticket)
    requires |a| == |b|
    requires forall p :: 0 <= p < |a| ==> (a[p] == x <==> b[p] == x)
    ensures Count(a, x) == Count(b, x)
  {
    if a != [] {
      CountSame(a[..|a| - 1], b[..|b| - 1], x);
    }
  }

  lemma DecideRank(s: State, tk: seq<Ticket>, t: Thread)
    requires InvWith(s, tk) && t < |s.pcs| && s.pcs[t].Decide?
    requires s.tail - (s.pcs[t].mine - s.pcs[t].over) > 0
    ensures var want, over, mine := s.pcs[t].want, s.pcs[t].over, s.pcs[t].mine;
            var take := Min(want, s.tail - (mine - over));
            RankOk(WinFirst(tk, t, mine + take), s.tail)
  {
    var want: int, over: int, mine: int := s.pcs[t].want, s.pcs[t].over, s.pcs[t].mine;
    var take := Min(want, s.tail - (mine - over));
    assert ThreadOk(s, tk, t);
    var tk' := WinFirst(tk, t, mine + take);
    forall p | 0 <= p < |tk'| && Winner(tk'[p]) ensures p + 1 <= s.tail + LostBefore(tk', p) {
      LostBeforeGrows(tk, tk', p);
      if !Winner(tk[p]) {
        LostBeforeMonotone(tk, mine, p);
      }
    }
  }

  /** What marking the first `take` reserved tickets as won does to all counts. */
  lemma WinFirstCounts(tk: seq<Ticket>, t: Thread, mine: nat, take: nat, want: nat)
    requires mine + want <= |tk| && take <= want && Count(tk, Won(t)) == 0
    requires forall p :: 0 <= p < |tk| ==> (tk[p] == Open(t) <==> mine <= p < mine + want)
    ensures var tk' := WinFirst(tk, t, mine + take);
            && Count(tk', Won(t)) == take
            && Count(tk', Open(t)) == want - take
            && (forall x :: x != Open(t) && x != Won(t) ==> Count(tk', x) == Count(tk, x))
  {
    var tk' := WinFirst(tk, t, mine + take);
    CountAbsent(tk, Won(t));
    CountInterval(tk', Won(t), mine, mine + take);
    CountInterval(tk', Open(t), mine + take, mine + want);
    forall x | x != Open(t) && x != Won(t) ensures Count(tk', x) == Count(tk, x) {
      CountSame(tk, tk', x);
    }
  }

  /** A thread is not disturbed by a step of another one that keeps its tickets. */
  lemma OthersKeep(s: State, tk: seq<Ticket>, s': State, tk': seq<Ticket>, u: Thread)
    requires InvWith(s, tk) && u < |s.pcs| && |s'.pcs| == |s.pcs| && s'.pcs[u] == s.pcs[u]
    requires |tk'| == |tk| && s.over <= s'.over
    requires Count(tk', Open(u)) == Count(tk, Open(u)) && Count(tk', Won(u)) == Count(tk, Won(u))
    requires forall p :: 0 <= p < |tk| ==>
               (tk[p] == Lost ==> tk'[p] == Lost) && (tk[p] == Open(u) <==> tk'[p] == Open(u))
    ensures ThreadOk(s', tk', u)
  {
    assert ThreadOk(s, tk, u);
    if s.pcs[u].Decide? {
      LostBeforeGrows(tk, tk', s.pcs[u].mine);
    }
  }

  /** The claim is for something: the first tickets win. */
  lemma StepWin(s: State, tk: seq<Ticket>, t: Thread, take: int) returns (tk': seq<Ticket>)
    requires InvWith(s, tk) && t < |s.pcs| && s.pcs[t].Decide?
    requires s.tail - (s.pcs[t].mine - s.pcs[t].over) > 0
    requires take == Min(s.pcs[t].want, s.tail - (s.pcs[t].mine - s.pcs[t].over))
    ensures InvWith(AdvanceThread(s, t), tk')
  {
    var want: int, mine: int := s.pcs[t].want, s.pcs[t].mine;
    assert ThreadOk(s, tk, t);
    tk' := WinFirst(tk, t, mine + take);
    DecideRank(s, tk, t);
    WinFirstCounts(tk, t, mine, take, want);
    var s' := AdvanceThread(s, t);
    assert ThreadOk(s', tk', t);
    forall u | 0 <= u < |s.pcs| ensures ThreadOk(s', tk', u) {
      if u != t {
        OthersKeep(s, tk, s', tk', u);
      }
    }
  }

  lemma StepDecide(s: State, tk: seq<Ticket>, t: Thread) returns (tk': seq<Ticket>)
    requires InvWith(s, tk) && t < |s.pcs| && s.pcs[t].Decide?
    ensures InvWith(AdvanceThread(s, t), tk')
  {
    var want: int, mine: int := s.pcs[t].want, s.pcs[t].mine;
    var actual := s.tail - (mine - s.pcs[t].over);
    if actual > 0 {
      tk' := StepWin(s, tk, t, Min(want, actual));
    } else {
      assert ThreadOk(s, tk, t);
      tk' := tk;
      CountInterval(tk, Open(t), mine, mine + want);
      LocalStep(s, tk, t, GiveAll(want));
    }
  }

  /** A step that turns all tickets of one kind of one thread into `to`. */
  lemma RecastStep(s: State, tk: seq<Ticket>, s': State, t: Thread, from: Ticket, to: Ticket)
    requires InvWith(s, tk) && t < |s.pcs| && !s.pcs[t].Idle? && s' == AdvanceThread(s, t)
    requires (from == Open(t) && to == Lost && (s.pcs[t].Give? || s.pcs[t].GiveAll?)) ||
             (from == Won(t) && to == Done && s.pcs[t].Claim?)
    ensures InvWith(s', Recast(tk, from, to))
  {
    var tk' := Recast(tk, from, to);
    assert ThreadOk(s, tk, t);
    forall x
      ensures Count(tk', x) == if x == from then 0
                               else if x == to then Count(tk, to) + Count(tk, from) else Count(tk, x)
    {
      CountRecast(tk, from, to, x);
    }
    forall p | 0 <= p < |tk'| && Winner(tk'[p]) ensures p + 1 <= s'.tail + LostBefore(tk', p) {
      LostBeforeGrows(tk, tk', p);
    }
    forall u | 0 <= u < |s.pcs| ensures ThreadOk(s', tk', u) {
      if u != t {
        OthersKeep(s, tk, s', tk', u);
      }
    }
  }

  lemma StepKeepsInv(s: State, a: Action)
    requires Inv(s) && Enabled(s, a)
    ensures Inv(Do(s, a))
  {
    var tk: seq<Ticket> :| InvWith(s, tk);
    match a
    case Enqueue(count) =>
      assert forall t :: 0 <= t < |s.pcs| ==> ThreadOk(s, tk, t) ==> ThreadOk(Do(s, a), tk, t);
      assert InvWith(Do(s, a), tk);
    case Invoke(t, max) =>
      assert ThreadOk(s, tk, t);
      LocalStep(s, tk, t, LoadTail(max));
    case Advance(t) =>
      AdvanceKeepsInv(s, tk, t);
  }

  lemma AdvanceKeepsInv(s: State, tk: seq<Ticket>, t: Thread)
    requires InvWith(s, tk) && t < |s.pcs| && !s.pcs[t].Idle?
    ensures Inv(AdvanceThread(s, t))
  {
    assert ThreadOk(s, tk, t);
    if s.pcs[t].Reserve? {
      var tk' := StepReserve(s, tk, t);
    } else if s.pcs[t].Decide? {
      var tk' := StepDecide(s, tk, t);
    } else if s.pcs[t].Claim? {
      RecastStep(s, tk, AdvanceThread(s, t), t, Won(t), Done);
    } else if s.pcs[t].Give? || s.pcs[t].GiveAll? {
      RecastStep(s, tk, AdvanceThread(s, t), t, Open(t), Lost);
    } else {
      LocalStep(s, tk, t, AdvanceThread(s, t).pcs[t]);
    }
  }

  // ----- whole runs

  ghost predicate IsRun(ss: seq<State>, actions: seq<Action>) {
    && |ss| == |actions| + 1
    && Init(ss[0])
    && forall i {:trigger actions[i]} :: 0 <= i < |actions| ==> IsStep(ss[i], actions[i], ss[i + 1])
  }

  ghost predicate IsStep(s: State, a: Action, s': State) {
    Enabled(s, a) && s' == Do(s, a)
  }

  lemma {:induction false} RunKeepsInv(ss: seq<State>, actions: seq<Action>, i: nat)
    requires IsRun(ss, actions) && i < |ss|
    ensures Inv(ss[i])
  {
    if i == 0 {
      InitEstablishesInv(ss[0]);
    } else {
      RunKeepsInv(ss, actions, i - 1);
      assert IsStep(ss[i - 1], actions[i - 1], ss[i]);
      StepKeepsInv(ss[i - 1], actions[i - 1]);
    }
  }

  /** Step `i` of the run claims index `k`. */
  ghost predicate Claims(ss: seq<State>, actions: seq<Action>, i: nat, k: nat)
    requires i < |actions| && i < |ss|
  {
    var s := ss[i];
    actions[i].Advance? && actions[i].t < |s.pcs| && s.pcs[actions[i].t].Claim? &&
    s.head <= k < s.head + s.pcs[actions[i].t].take
  }

  lemma {:induction false} HeadMonotone(ss: seq<State>, actions: seq<Action>, i: nat, j: nat)
    requires IsRun(ss, actions) && i <= j < |ss|
    ensures ss[i].head <= ss[j].head && ss[i].tail <= ss[j].tail
    decreases j - i
  {
    if i < j {
      assert IsStep(ss[i], actions[i], ss[i + 1]);
      HeadMonotone(ss, actions, i + 1, j);
    }
  }

  /** Disjoint: no index is claimed by two steps of a run. Published: a claimed index lies below
      `tailIndex` at the moment of the claim. */
  lemma ClaimsAreDisjointAndPublished(ss: seq<State>, actions: seq<Action>, i: nat, j: nat, k: nat)
    requires IsRun(ss, actions) && i < |actions| && j < |actions|
    requires Claims(ss, actions, i, k) && Claims(ss, actions, j, k)
    ensures i == j && k < ss[i].tail
  {
    RunKeepsInv(ss, actions, i);
    ClaimsArePublished(ss[i], actions[i].t);
    assert IsStep(ss[i], actions[i], ss[i + 1]) && IsStep(ss[j], actions[j], ss[j + 1]);
    if i < j {
      HeadMonotone(ss, actions, i + 1, j);
    } else if j < i {
      HeadMonotone(ss, actions, j + 1, i);
    }
  }

  /** Dense: every index below `headIndex` was claimed by some earlier step. */
  lemma {:induction false} ClaimsAreDense(ss: seq<State>, actions: seq<Action>, j: nat, k: nat) returns (i: nat)
    requires IsRun(ss, actions) && j < |ss| && k < ss[j].head
    ensures i < j && Claims(ss, actions, i, k)
  {
    assert IsStep(ss[j - 1], actions[j - 1], ss[j]);
    if k < ss[j - 1].head {
      i := ClaimsAreDense(ss, actions, j - 1, k);
    } else {
      i := j - 1;
    }
  }

  /** How many elements the actions published. */
  ghost function Published(actions: seq<Action>): nat {
    if actions == [] then 0
    else Published(actions[..|actions| - 1])
         + if actions[|actions| - 1].Enqueue? then actions[|actions| - 1].count else 0
  }

  /** The tail counts the elements published, and nothing else moves it. */
  lemma {:induction false} TailCountsPublished(ss: seq<State>, actions: seq<Action>, i: nat)
    requires IsRun(ss, actions) && i < |ss|
    ensures ss[i].tail == Published(actions[..i])
  {
    if i > 0 {
      TailCountsPublished(ss, actions, i - 1);
      assert IsStep(ss[i - 1], actions[i - 1], ss[i]);
      assert actions[..i][..i - 1] == actions[..i - 1];
    }
  }

  // ----- nothing is lost to overcommitment

  ghost predicate Quiescent(s: State) {
    forall t :: 0 <= t < |s.pcs| ==> s.pcs[t] == Idle
  }

  lemma {:induction false} AllSettled(tk: seq<Ticket>)
    requires forall p :: 0 <= p < |tk| ==> tk[p] == Lost || tk[p] == Done
    ensures Count(tk, Lost) + Count(tk, Done) == |tk|
  {
    if tk != [] {
      AllSettled(tk[..|tk| - 1]);
    }
  }

  /** Between calls the effective count `opt - over` is exactly `headIndex`. */
  lemma CountersSettle(s: State)
    requires Inv(s) && Quiescent(s)
    ensures s.opt - s.over == s.head
  {
    var tk: seq<Ticket> :| InvWith(s, tk);
    forall p | 0 <= p < |tk| ensures tk[p] == Lost || tk[p] == Done {
      if tk[p].Open? || tk[p].Won? {
        assert ThreadOk(s, tk, tk[p].t);
        CountAbsent(tk, tk[p]);
      }
    }
    AllSettled(tk);
  }

  ghost function AdvanceTimes(s: State, t: Thread, steps: nat): State
    requires t < |s.pcs|
    decreases steps
  {
    if steps == 0 || s.pcs[t].Idle? then s else AdvanceTimes(AdvanceThread(s, t), t, steps - 1)
  }

  /** A dequeue of up to `max` elements that runs undisturbed takes exactly as many as there are, and
      gives nothing back. */
  lemma UndisturbedDequeueTakesAll(s: State, t: Thread, max: nat)
    requires Inv(s) && Quiescent(s) && t < |s.pcs|
    ensures var s' := AdvanceTimes(Do(s, Invoke(t, max)), t, 6);
            s'.head == s.head + Min(max, s.tail - s.head) && s'.over == s.over && Quiescent(s')
  {
    CountersSettle(s);
    HeadNeverPassesTail(s);
    var s0 := Do(s, Invoke(t, max));
    var s1 := AdvanceThread(s0, t);
    var s2 := AdvanceThread(s1, t);
    var s3 := AdvanceThread(s2, t);
    assert AdvanceTimes(s0, t, 6) == AdvanceTimes(s3, t, 3);
    if s.head < s.tail {
      var s4 := AdvanceThread(s3, t);
      var s5 := AdvanceThread(s4, t);
      assert s5.pcs[t] == Claim(Min(max, s.tail - s.head));
      var s6 := AdvanceThread(s5, t);
      assert AdvanceTimes(s3, t, 3) == AdvanceTimes(s5, t, 1) == s6;
      assert forall u :: 0 <= u < |s.pcs| && u != t ==> s6.pcs[u] == s.pcs[u];
    } else {
      assert s3.pcs[t] == Idle;
      assert forall u :: 0 <= u < |s.pcs| && u != t ==> s3.pcs[u] == s.pcs[u];
    }
  }

  // ----- how much a call takes while others dequeue too

  /** Action `i` of the run calls a dequeue of up to `max` elements in thread `t`, which is still in that call in
      state `j`. */
  ghost predicate Dequeuing(ss: seq<State>, actions: seq<Action>, i: nat, j: nat, t: Thread, max: nat) {
    && i < j < |ss| == |actions| + 1
    && actions[i] == Invoke(t, max)
    && forall k {:trigger ss[k]} :: i < k <= j ==> t < |ss[k].pcs| && !ss[k].pcs[t].Idle?
  }

  /** How many units of dequeueOptimisticCount threads other than `t` reserved from state i to state j. */
  ghost function OthersReserved(ss: seq<State>, actions: seq<Action>, i: nat, j: nat, t: Thread): int
    requires j < |ss| == |actions| + 1
    decreases j
  {
    if j <= i then 0
    else OthersReserved(ss, actions, i, j - 1, t)
         + if actions[j - 1] == Advance(t) then 0 else ss[j].opt - ss[j - 1].opt
  }

  /** Published elements that nobody has reserved. */
  function Available(s: State): int { s.tail - (s.opt - s.over) }

  /** What a thread inside its call has seen, given the state at the call and the others' reservations since. */
  ghost predicate CallOk(s0: State, s: State, t: Thread, max: nat, others: int) {
    && t < |s.pcs| && s0.tail <= s.tail && s0.over <= s.over && 0 <= others
    && match s.pcs[t]
       case Idle => false
       case LoadTail(m) => m == max && s.opt == s0.opt + others
       case LoadOver(m, tail) => m == max && s.opt == s0.opt + others && s0.tail <= tail
       case LoadOpt(m, tail, over) => m == max && s.opt == s0.opt + others && s0.tail <= tail && s0.over <= over
       case Reserve(want, over) =>
         && s.opt == s0.opt + others && s0.over <= over
         && (want == max || (want < max && s0.tail + over <= want + s.opt))
       case Decide(want, over, mine) =>
         && mine <= s0.opt + others && s0.over <= over
         && (want == max || (want < max && s0.tail + over <= want + mine))
       case Give(_, take) => take < max && Available(s0) <= take + others
       case Claim(take) => take == max || (take < max && Available(s0) <= take + others)
       case GiveAll(_) => 0 < max ==> Available(s0) <= others
  }

  lemma OwnStep(s0: State, s: State, t: Thread, max: nat, others: int)
    requires t < |s.pcs| && !s.pcs[t].Idle? && CallOk(s0, s, t, max, others)
    ensures var s' := AdvanceThread(s, t);
            if s'.pcs[t].Idle? then
              && s'.head - s.head <= max
              && (s'.head - s.head == max || Available(s0) <= s'.head - s.head + others)
            else CallOk(s0, s', t, max, others)
  {
  }

  lemma OthersStep(s0: State, s: State, a: Action, t: Thread, max: nat, others: int)
    requires t < |s.pcs| && !s.pcs[t].Idle? && CallOk(s0, s, t, max, others) && Enabled(s, a) && a != Advance(t)
    ensures CallOk(s0, Do(s, a), t, max, others + Do(s, a).opt - s.opt)
  {
    var s' := Do(s, a);
    assert s'.pcs[t] == s.pcs[t];
    assert s.opt <= s'.opt && s.tail <= s'.tail && s.over <= s'.over;
  }

  lemma {:induction false} StillDequeuing(ss: seq<State>, actions: seq<Action>, i: nat, j: nat, t: Thread, max: nat)
    requires IsRun(ss, actions) && Dequeuing(ss, actions, i, j, t, max)
    ensures CallOk(ss[i], ss[j], t, max, OthersReserved(ss, actions, i, j, t))
    decreases j
  {
    assert IsStep(ss[j - 1], actions[j - 1], ss[j]);
    assert !ss[j].pcs[t].Idle?;
    if i + 1 < j {
      StillDequeuing(ss, actions, i, j - 1, t, max);
      if actions[j - 1] == Advance(t) {
        OwnStep(ss[i], ss[j - 1], t, max, OthersReserved(ss, actions, i, j - 1, t));
      } else {
        OthersStep(ss[i], ss[j - 1], actions[j - 1], t, max, OthersReserved(ss, actions, i, j - 1, t));
      }
    } else {
      assert OthersReserved(ss, actions, i, i, t) == 0;
    }
  }

  /** In every run a dequeue takes all it asked for, or all that was available when it was called, less what others
      reserved meanwhile. In particular it comes back empty-handed only if others reserved everything there was. */
  lemma DequeueTakesItsShare(ss: seq<State>, actions: seq<Action>, i: nat, j: nat, t: Thread, max: nat)
    requires IsRun(ss, actions) && Dequeuing(ss, actions, i, j, t, max)
    requires j < |actions| && t < |ss[j + 1].pcs| && ss[j + 1].pcs[t].Idle?
    ensures var taken := ss[j + 1].head - ss[j].head;
            && 0 <= taken <= max
            && (taken == max || Available(ss[i]) - OthersReserved(ss, actions, i, j, t) <= taken)
  {
    assert IsStep(ss[j], actions[j], ss[j + 1]);
    StillDequeuing(ss, actions, i, j, t, max);
    HeadMonotone(ss, actions, j, j + 1);
    if actions[j] == Advance(t) {
      OwnStep(ss[i], ss[j], t, max, OthersReserved(ss, actions, i, j, t));
    } else {
      OthersStep(ss[i], ss[j], actions[j], t, max, OthersReserved(ss, actions, i, j, t));
      assert false;
    }
  }

  // ----- an empty answer does not mean an empty queue

  /** A run in which thread 0 looks at the tail, one more element is published, thread 1 takes one, and thread 0 then
      finds as many reservations as there were elements when it looked. */
  ghost function MissState(i: nat): State {
    var zero := if i <= 1 then Idle else if i == 2 then LoadTail(1) else if i == 3 then LoadOver(1, 1)
                else if i <= 11 then LoadOpt(1, 1, 0) else Idle;
    var one := if i <= 5 then Idle else if i == 6 then LoadTail(1) else if i == 7 then LoadOver(1, 2)
               else if i == 8 then LoadOpt(1, 2, 0) else if i == 9 then Reserve(1, 0)
               else if i == 10 then Decide(1, 0, 0) else Claim(1);
    State(if i == 0 then 0 else if i <= 4 then 1 else 2, 0, if i <= 9 then 0 else 1, 0, [zero, one])
  }

  ghost function MissAction(i: nat): Action {
    if i == 0 || i == 4 then Enqueue(1) else if i == 1 then Invoke(0, 1) else if i == 5 then Invoke(1, 1)
    else if i <= 3 || i == 11 then Advance(0) else Advance(1)
  }

  lemma MissStep(i: nat)
    requires i < 12
    ensures IsStep(MissState(i), MissAction(i), MissState(i + 1))
  {
    assert Do(MissState(i), MissAction(i)).pcs == MissState(i + 1).pcs;
  }

  /** A dequeue can come back empty-handed although the queue was never empty during the call. */
  lemma MissesElement() returns (ss: seq<State>, actions: seq<Action>)
    ensures IsRun(ss, actions) && |ss| == 13 && Dequeuing(ss, actions, 1, 11, 0, 1)
    ensures |ss[12].pcs| == 2 && ss[12].pcs[0] == Idle && ss[12].head == ss[11].head
    ensures forall k :: 1 <= k <= 12 ==> ss[k].head < ss[k].tail
  {
    ss := seq(13, i requires 0 <= i => MissState(i));
    actions := seq(12, i requires 0 <= i => MissAction(i));
    forall i | 0 <= i < 12 ensures IsStep(ss[i], actions[i], ss[i + 1]) {
      MissStep(i);
    }
  }
}
