/** The lightweight semaphore: an atomic counter in front of a kernel semaphore.

    `tryWait`, `wait`, `tryWaitMany` and `waitMany` run the same accesses, the single forms with
    max = 1. Every atomic access of any number of threads is one step. */
module Semaphore {
  import opened Counting

  type Thread = nat

  /** What to do when polling finds no permit: give up, or spin and then block. */
  datatype Then = GiveUp | SpinFor(spins: nat)

  datatype Pc =
    | Idle
    | PollLoad(max: nat, after: Then)             // tryWaitMany: m_count.load
    | PollCas(max: nat, seen: int, after: Then)    // while (oldCount > 0) CAS m_count - min(m_count, max)
    | SpinLoad(max: nat, spins: nat)              // spin loop: m_count.load
    | SpinCas(max: nat, seen: int, spins: nat)     // spin loop: CAS
    | Sub(max: nat)                               // m_count.fetch_sub(1)
    | Kernel(max: nat)                            // m_sema.wait / timed_wait
    | Recheck(max: nat)                           // timed out: m_count.load
    | TryKernel(max: nat)                         // count >= 0: m_sema.try_wait
    | Cancel(max: nat, seen: int)                  // count < 0: CAS m_count -> m_count + 1
    | SignalAdd(n: nat)                           // signal: m_count.fetch_add(n)
    | Post(left: nat)                             // one sem_post at a time

  /** `signalled` and `acquired` record how many permits were ever given and taken. */
  datatype State = State(count: int, kernel: nat, pcs: seq<Pc>, initial: nat, signalled: nat, acquired: nat)

  /** `ok` resolves what the thread cannot control: a weak CAS may fail spuriously, and a kernel wait
      may time out. */
  datatype Action = InvokePoll(t: Thread, max: nat) | InvokeWait(t: Thread, max: nat, spins: nat)
                  | InvokeSignal(t: Thread, n: nat) | Advance(t: Thread, ok: bool)

  function Goto(s: State, t: Thread, pc: Pc): State
    requires t < |s.pcs|
  {
    s.(pcs := s.pcs[t := pc])
  }

  predicate Enabled(s: State, a: Action) {
    match a
    case InvokePoll(t, _) => t < |s.pcs| && s.pcs[t].Idle?
    case InvokeWait(t, max, _) => t < |s.pcs| && s.pcs[t].Idle? && 0 < max
    case InvokeSignal(t, _) => t < |s.pcs| && s.pcs[t].Idle?
    case Advance(t, ok) => t < |s.pcs| && !s.pcs[t].Idle? && (s.pcs[t].Kernel? && ok ==> 0 < s.kernel)
  }

  function Do(s: State, a: Action): State
    requires Enabled(s, a)
  {
    match a
    case InvokePoll(t, max) => Goto(s, t, PollLoad(max, GiveUp))
    case InvokeWait(t, max, spins) => Goto(s, t, PollLoad(max, SpinFor(spins)))
    case InvokeSignal(t, n) => Goto(s, t, SignalAdd(n))
    case Advance(t, ok) => AdvanceThread(s, t, ok)
  }

  function AfterPoll(max: nat, seen: int, after: Then): Pc {
    if seen > 0 then PollCas(max, seen, after)
    else match after
         case GiveUp => Idle
         case SpinFor(spins) => NextSpin(max, spins)
  }

  function NextSpin(max: nat, spins: nat): Pc {
    if spins == 0 then Sub(max) else SpinLoad(max, spins - 1)
  }

  /** One permit is in hand; `waitMany` now polls for the rest. */
  function GotOne(max: nat): Pc {
    if max > 1 then PollLoad(max - 1, GiveUp) else Idle
  }

  function Taken(seen: int, max: nat): nat
    requires 0 < seen
  {
    if seen > max then max else seen
  }

  function AdvanceThread(s: State, t: Thread, ok: bool): State
    requires Enabled(s, Advance(t, ok))
  {
    match s.pcs[t]
    case PollLoad(max, after) => Goto(s, t, AfterPoll(max, s.count, after))
    case PollCas(max, seen, after) =>
      if ok && s.count == seen && 0 < seen
      then Goto(s.(count := seen - Taken(seen, max), acquired := s.acquired + Taken(seen, max)), t, Idle)
      else Goto(s, t, AfterPoll(max, s.count, after))
    case SpinLoad(max, spins) =>
      if s.count > 0 then Goto(s, t, SpinCas(max, s.count, spins)) else Goto(s, t, NextSpin(max, spins))
    case SpinCas(max, seen, spins) =>
      if s.count == seen && 0 < seen
      then Goto(s.(count := seen - Taken(seen, max), acquired := s.acquired + Taken(seen, max)), t, Idle)
      else Goto(s, t, NextSpin(max, spins))
    case Sub(max) =>
      if s.count > 0
      then Goto(s.(count := s.count - 1, acquired := s.acquired + 1), t, GotOne(max))
      else Goto(s.(count := s.count - 1), t, Kernel(max))
    case Kernel(max) =>
      if ok
      then Goto(s.(kernel := s.kernel - 1, acquired := s.acquired + 1), t, GotOne(max))
      else Goto(s, t, Recheck(max))
    case Recheck(max) =>
      Goto(s, t, if s.count >= 0 then TryKernel(max) else Cancel(max, s.count))
    case TryKernel(max) =>
      if 0 < s.kernel
      then Goto(s.(kernel := s.kernel - 1, acquired := s.acquired + 1), t, GotOne(max))
      else Goto(s, t, Recheck(max))
    case Cancel(max, seen) =>
      if s.count == seen && seen < 0
      then Goto(s.(count := seen + 1), t, Idle)
      else Goto(s, t, Recheck(max))
    case SignalAdd(n) =>
      var release := if -s.count < n then -s.count else n;
      Goto(s.(count := s.count + n, signalled := s.signalled + n), t, if release > 0 then Post(release) else Idle)
    case Post(left) =>
      Goto(s.(kernel := s.kernel + 1), t, if left > 1 then Post(left - 1) else Idle)
  }

  ghost predicate Init(s: State) {
    && s.count == s.initial && s.kernel == s.signalled == s.acquired == 0
    && forall t :: 0 <= t < |s.pcs| ==> s.pcs[t] == Idle
  }

  // ----- the invariant

  /** A thread that has taken its unit off the count and is still waiting for a kernel permit. */
  predicate Waits(pc: Pc) { pc.Kernel? || pc.Recheck? || pc.TryKernel? || pc.Cancel? }

  ghost function Waiting(): Pc -> int { (pc: Pc) => if Waits(pc) then 1 else 0 }
  ghost function Posting(): Pc -> int { (pc: Pc) => if pc.Post? then pc.left else 0 }

  function Deficit(count: int): nat { if count < 0 then -count else 0 }

  ghost predicate Inv(s: State) {
    && s.count == s.initial + s.signalled - s.acquired - Sum(s.pcs, Waiting())
    && s.kernel + Sum(s.pcs, Posting()) == Sum(s.pcs, Waiting()) - Deficit(s.count)
    && forall t :: 0 <= t < |s.pcs| && s.pcs[t].Post? ==> 0 < s.pcs[t].left
  }

  lemma InitEstablishesInv(s: State)
    requires Init(s)
    ensures Inv(s)
  {
    SumZero(s.pcs, Waiting());
    SumZero(s.pcs, Posting());
  }

  /** The invariant after thread `t` moved to `pc`, given the two balances for that thread. */
  lemma Moved(s: State, s': State, t: Thread, pc: Pc)
    requires Inv(s) && t < |s.pcs| && s'.pcs == s.pcs[t := pc] && s'.initial == s.initial
    requires pc.Post? ==> 0 < pc.left
    requires s'.count - s.count ==
             (s'.signalled - s.signalled) - (s'.acquired - s.acquired) + Waiting()(s.pcs[t]) - Waiting()(pc)
    requires (s'.kernel - s.kernel) + Posting()(pc) - Posting()(s.pcs[t]) ==
             Waiting()(pc) - Waiting()(s.pcs[t]) - Deficit(s'.count) + Deficit(s.count)
    ensures Inv(s')
  {
    SumUpdate(s.pcs, t, pc, Waiting());
    SumUpdate(s.pcs, t, pc, Posting());
  }

  lemma StepKeepsInv(s: State, a: Action)
    requires Inv(s) && Enabled(s, a)
    ensures Inv(Do(s, a))
  {
    if a.Advance? {
      AdvanceKeepsInv(s, a.t, a.ok);
    } else {
      Moved(s, Do(s, a), a.t, Do(s, a).pcs[a.t]);
    }
  }

  lemma PollKeepsInv(s: State, t: Thread, ok: bool)
    requires Inv(s) && Enabled(s, Advance(t, ok))
    requires s.pcs[t].PollLoad? || s.pcs[t].PollCas? || s.pcs[t].SpinLoad? || s.pcs[t].SpinCas?
    ensures Inv(AdvanceThread(s, t, ok))
  {
    Moved(s, AdvanceThread(s, t, ok), t, AdvanceThread(s, t, ok).pcs[t]);
  }

  lemma KernelKeepsInv(s: State, t: Thread, ok: bool)
    requires Inv(s) && Enabled(s, Advance(t, ok)) && (s.pcs[t].Sub? || s.pcs[t].Kernel? || s.pcs[t].TryKernel?)
    ensures Inv(AdvanceThread(s, t, ok))
  {
    Moved(s, AdvanceThread(s, t, ok), t, AdvanceThread(s, t, ok).pcs[t]);
  }

  lemma CancelKeepsInv(s: State, t: Thread, ok: bool)
    requires Inv(s) && Enabled(s, Advance(t, ok)) && (s.pcs[t].Recheck? || s.pcs[t].Cancel?)
    ensures Inv(AdvanceThread(s, t, ok))
  {
    Moved(s, AdvanceThread(s, t, ok), t, AdvanceThread(s, t, ok).pcs[t]);
  }

  lemma SignalKeepsInv(s: State, t: Thread, ok: bool)
    requires Inv(s) && Enabled(s, Advance(t, ok)) && (s.pcs[t].SignalAdd? || s.pcs[t].Post?)
    ensures Inv(AdvanceThread(s, t, ok))
  {
    Moved(s, AdvanceThread(s, t, ok), t, AdvanceThread(s, t, ok).pcs[t]);
  }

  lemma AdvanceKeepsInv(s: State, t: Thread, ok: bool)
    requires Inv(s) && Enabled(s, Advance(t, ok))
    ensures Inv(AdvanceThread(s, t, ok))
  {
    match s.pcs[t]
    case Sub(_) => KernelKeepsInv(s, t, ok);
    case Kernel(_) => KernelKeepsInv(s, t, ok);
    case TryKernel(_) => KernelKeepsInv(s, t, ok);
    case Recheck(_) => CancelKeepsInv(s, t, ok);
    case Cancel(_, _) => CancelKeepsInv(s, t, ok);
    case SignalAdd(_) => SignalKeepsInv(s, t, ok);
    case Post(_) => SignalKeepsInv(s, t, ok);
    case _ => PollKeepsInv(s, t, ok);
  }

  ghost predicate IsRun(ss: seq<State>, actions: seq<Action>) {
    && |ss| == |actions| + 1
    && Init(ss[0])
    && forall i {:trigger actions[i]} :: 0 <= i < |actions| ==> IsStep(ss[i], actions[i], ss[i + 1])
  }

  ghost predicate IsStep(s: State, a: Action, s': State) {
    Enabled(s, a) && s' == Do(s, a)
  }

  lemma {:induction false} RunKeepsInv(ss: seq<State>, actions: seq<Action>, i: nat)
    requires IsRun(ss, actions) && i < |ss|
    ensures Inv(ss[i])
  {
    if i == 0 {
      InitEstablishesInv(ss[0]);
    } else {
      RunKeepsInv(ss, actions, i - 1);
      assert IsStep(ss[i - 1], actions[i - 1], ss[i]);
      StepKeepsInv(ss[i - 1], actions[i - 1]);
    }
  }

  // ----- what it means for callers

  /** Safety in every run: permits taken never exceed the initial ones plus those signalled. */
  lemma NeverOverAcquired(ss: seq<State>, actions: seq<Action>, i: nat)
    requires IsRun(ss, actions) && i < |ss|
    ensures ss[i].acquired <= ss[i].initial + ss[i].signalled
  {
    RunKeepsInv(ss, actions, i);
    SumNonNegative(ss[i].pcs, Posting());
  }

  /** No lost wake-up: when no signaller is in the middle of its posts, the kernel semaphore holds a
      permit for every waiter that the count no longer shows as missing one. */
  lemma EveryWaiterHasItsPermit(ss: seq<State>, actions: seq<Action>, i: nat)
    requires IsRun(ss, actions) && i < |ss|
    requires forall t :: 0 <= t < |ss[i].pcs| ==> !ss[i].pcs[t].Post?
    ensures ss[i].kernel == Sum(ss[i].pcs, Waiting()) - Deficit(ss[i].count)
    ensures ss[i].count >= 0 ==> ss[i].kernel == Sum(ss[i].pcs, Waiting())
  {
    RunKeepsInv(ss, actions, i);
    SumZero(ss[i].pcs, Posting());
  }

  /** Between calls no permit is hidden: the kernel semaphore is empty and the count shows exactly the
      permits that were given and not taken, whatever timed out before. */
  lemma CountExactAtRest(ss: seq<State>, actions: seq<Action>, i: nat)
    requires IsRun(ss, actions) && i < |ss|
    requires forall t :: 0 <= t < |ss[i].pcs| ==> ss[i].pcs[t] == Idle
    ensures ss[i].kernel == 0
    ensures ss[i].count == ss[i].initial + ss[i].signalled - ss[i].acquired >= 0
  {
    RunKeepsInv(ss, actions, i);
    SumZero(ss[i].pcs, Posting());
    SumZero(ss[i].pcs, Waiting());
  }

  /** A waiter that times out either leaves with a permit or takes nothing: the cancelling CAS restores
      the unit it had subtracted, and can only happen while a waiter is still short of a permit. */
  lemma CancelTakesNothing(s: State, t: Thread)
    requires Inv(s) && t < |s.pcs| && s.pcs[t].Cancel? && s.count == s.pcs[t].seen < 0
    ensures var s' := Do(s, Advance(t, true));
            && s'.acquired == s.acquired && s'.kernel == s.kernel && s'.count == s.count + 1
            && s'.pcs[t] == Idle
            && Sum(s'.pcs, Waiting()) == Sum(s.pcs, Waiting()) - 1
            && s'.kernel + Sum(s'.pcs, Posting()) <= Sum(s'.pcs, Waiting())
  {
    var s' := Do(s, Advance(t, true));
    StepKeepsInv(s, Advance(t, true));
    SumUpdate(s.pcs, t, Idle, Waiting());
    SumUpdate(s.pcs, t, Idle, Posting());
  }

  /** A thread that polls while nobody waits sees exactly the permits given and not taken, so with a
      single consumer `tryWait` fails only when there is no permit at all. */
  lemma PollSeesEveryPermit(s: State, t: Thread)
    requires Inv(s) && t < |s.pcs| && s.pcs[t].PollLoad? && s.pcs[t].after == GiveUp
    requires forall u :: 0 <= u < |s.pcs| ==> !Waits(s.pcs[u])
    ensures s.count == s.initial + s.signalled - s.acquired >= 0
    ensures AdvanceThread(s, t, true).pcs[t] == Idle <==> s.initial + s.signalled == s.acquired
  {
    SumZero(s.pcs, Waiting());
    SumNonNegative(s.pcs, Posting());
  }

  // ----- what a call answers

  function Min(a: int, b: int): int { if a < b then a else b }

  /** Action `i` of the run is the call `a` of its thread, which is still in that call in state `j`. */
  ghost predicate InCall(ss: seq<State>, actions: seq<Action>, i: nat, j: nat, a: Action) {
    && i < j < |ss| == |actions| + 1
    && actions[i] == a
    && forall k {:trigger ss[k]} :: i < k <= j ==> a.t < |ss[k].pcs| && !ss[k].pcs[a.t].Idle?
  }

  /** The call of thread `t` that is in progress in state `j` returns with the step from there. */
  ghost predicate Returns(ss: seq<State>, actions: seq<Action>, j: nat, t: Thread) {
    && j + 1 < |ss| == |actions| + 1
    && t < |ss[j + 1].pcs| && ss[j + 1].pcs[t].Idle?
  }

  predicate InPoll(pc: Pc, max: nat) {
    pc == PollLoad(max, GiveUp) || (pc.PollCas? && pc == PollCas(max, pc.seen, GiveUp) && 0 < pc.seen)
  }

  /** One access of a poll: it goes on polling with nothing taken, or it ends with what the count allows. */
  lemma PollStep(s: State, t: Thread, max: nat, ok: bool)
    requires t < |s.pcs| && InPoll(s.pcs[t], max)
    ensures var s' := AdvanceThread(s, t, ok);
            && (InPoll(s'.pcs[t], max) ==> s' == Goto(s, t, s'.pcs[t]))
            && (!InPoll(s'.pcs[t], max) ==>
                  var n := if 0 < s.count then Min(max, s.count) else 0;
                  s' == Goto(s.(count := s.count - n, acquired := s.acquired + n), t, Idle))
  {
  }

  lemma OthersLeavePc(s: State, a: Action, t: Thread)
    requires Enabled(s, a) && t < |s.pcs| && !s.pcs[t].Idle? && !(a.Advance? && a.t == t)
    ensures a.t != t && t < |Do(s, a).pcs| && Do(s, a).pcs[t] == s.pcs[t]
  {
  }

  lemma {:induction false} StillPolling(ss: seq<State>, actions: seq<Action>, i: nat, j: nat, t: Thread, max: nat)
    requires IsRun(ss, actions) && InCall(ss, actions, i, j, InvokePoll(t, max))
    ensures InPoll(ss[j].pcs[t], max)
    decreases j
  {
    assert IsStep(ss[j - 1], actions[j - 1], ss[j]);
    assert !ss[j].pcs[t].Idle?;
    if i + 1 < j {
      StillPolling(ss, actions, i, j - 1, t, max);
      if actions[j - 1].Advance? && actions[j - 1].t == t {
        PollStep(ss[j - 1], t, max, actions[j - 1].ok);
      } else {
        OthersLeavePc(ss[j - 1], actions[j - 1], t);
      }
    }
  }

  /** In every run `tryWaitMany` takes all it may of the count at its last access, whatever happened
      since the call, and comes back with nothing only if there is nothing at that moment. */
  lemma PollTakesWhatIsThere(ss: seq<State>, actions: seq<Action>, i: nat, j: nat, t: Thread, max: nat)
    requires IsRun(ss, actions) && InCall(ss, actions, i, j, InvokePoll(t, max)) && Returns(ss, actions, j, t)
    ensures var n := if 0 < ss[j].count then Min(max, ss[j].count) else 0;
            ss[j + 1].acquired == ss[j].acquired + n && ss[j + 1].count == ss[j].count - n
  {
    assert IsStep(ss[j], actions[j], ss[j + 1]);
    StillPolling(ss, actions, i, j, t, max);
    if actions[j].Advance? && actions[j].t == t {
      PollStep(ss[j], t, max, actions[j].ok);
    } else {
      OthersLeavePc(ss[j], actions[j], t);
    }
  }

  predicate Signals(pc: Pc) { pc.Idle? || pc.SignalAdd? || pc.Post? }

  /** In state `s` no thread but `t` is taking permits. */
  ghost predicate OnlyTaker(s: State, t: Thread) {
    forall u :: 0 <= u < |s.pcs| && u != t ==> Signals(s.pcs[u])
  }

  lemma SignalsOnlyAdd(s: State, a: Action, t: Thread)
    requires Enabled(s, a) && OnlyTaker(s, t) && a.t != t
    ensures Do(s, a).acquired == s.acquired && s.count <= Do(s, a).count
  {
    if a.Advance? {
      assert Signals(s.pcs[a.t]);
    }
  }

  lemma {:induction false} CountGrows(ss: seq<State>, actions: seq<Action>, i: nat, j: nat, t: Thread, max: nat)
    requires IsRun(ss, actions) && InCall(ss, actions, i, j, InvokePoll(t, max))
    requires forall k {:trigger ss[k]} :: i <= k <= j ==> OnlyTaker(ss[k], t)
    ensures ss[i].count <= ss[j].count && ss[i].acquired == ss[j].acquired
    decreases j
  {
    assert IsStep(ss[j - 1], actions[j - 1], ss[j]);
    if i + 1 < j {
      CountGrows(ss, actions, i, j - 1, t, max);
      StillPolling(ss, actions, i, j - 1, t, max);
      StillPolling(ss, actions, i, j, t, max);
      if actions[j - 1].Advance? && actions[j - 1].t == t {
        PollStep(ss[j - 1], t, max, actions[j - 1].ok);
      } else {
        OthersLeavePc(ss[j - 1], actions[j - 1], t);
        SignalsOnlyAdd(ss[j - 1], actions[j - 1], t);
      }
    }
  }

  /** With a single consumer, a poll that starts with permits there never comes back empty-handed:
      signals and spurious CAS failures in between only make it try again. */
  lemma SinglePollerGetsPermit(ss: seq<State>, actions: seq<Action>, i: nat, j: nat, t: Thread, max: nat)
    requires IsRun(ss, actions) && InCall(ss, actions, i, j, InvokePoll(t, max)) && Returns(ss, actions, j, t)
    requires forall k {:trigger ss[k]} :: i <= k <= j ==> OnlyTaker(ss[k], t)
    requires 0 < ss[i].count
    ensures ss[i].count <= ss[j].count
    ensures ss[j + 1].acquired - ss[i].acquired == Min(max, ss[j].count) >= Min(max, 1)
  {
    CountGrows(ss, actions, i, j, t, max);
    PollTakesWhatIsThere(ss, actions, i, j, t, max);
  }

  /** How many permits thread `t` took by its own steps between states `i` and `j`. */
  ghost function Gained(ss: seq<State>, actions: seq<Action>, i: nat, j: nat, t: Thread): int
    requires i <= j < |ss| == |actions| + 1
    decreases j
  {
    if j <= i then 0
    else Gained(ss, actions, i, j - 1, t)
         + if actions[j - 1].t == t then ss[j].acquired - ss[j - 1].acquired else 0
  }

  /** What a waiting thread is doing, given the permits it has so far. */
  predicate InWait(pc: Pc, max: nat, got: int) {
    match pc
    case PollLoad(m, after) => if after.GiveUp? then got == 1 && m == max - 1 else got == 0 && m == max
    case PollCas(m, seen, after) =>
      0 < seen && if after.GiveUp? then got == 1 && m == max - 1 else got == 0 && m == max
    case SpinLoad(m, _) => got == 0 && m == max
    case SpinCas(m, seen, _) => got == 0 && m == max && 0 < seen
    case Sub(m) => got == 0 && m == max
    case Kernel(m) => got == 0 && m == max
    case Recheck(m) => got == 0 && m == max
    case TryKernel(m) => got == 0 && m == max
    case Cancel(m, seen) => got == 0 && m == max && seen < 0
    case _ => false
  }

  /** One access of a waiting thread. */
  lemma WaitStep(s: State, t: Thread, max: nat, got: int, ok: bool)
    requires Enabled(s, Advance(t, ok)) && InWait(s.pcs[t], max, got) && 0 < max
    ensures var s' := AdvanceThread(s, t, ok);
            var now := got + s'.acquired - s.acquired;
            if s'.pcs[t].Idle? then
              && 0 <= now <= max
              && (now == 0 ==> s.pcs[t].Cancel? && s.count < 0 && s'.count == s.count + 1)
              && (0 < now < max ==> s'.count <= 0)
            else InWait(s'.pcs[t], max, now)
  {
  }

  lemma {:induction false} StillWaiting(ss: seq<State>, actions: seq<Action>, i: nat, j: nat, a: Action)
    requires IsRun(ss, actions) && a.InvokeWait? && InCall(ss, actions, i, j, a)
    ensures 0 < a.max && InWait(ss[j].pcs[a.t], a.max, Gained(ss, actions, i, j, a.t))
    decreases j
  {
    assert IsStep(ss[j - 1], actions[j - 1], ss[j]);
    assert !ss[j].pcs[a.t].Idle?;
    if i + 1 < j {
      StillWaiting(ss, actions, i, j - 1, a);
      if actions[j - 1].Advance? && actions[j - 1].t == a.t {
        WaitStep(ss[j - 1], a.t, a.max, Gained(ss, actions, i, j - 1, a.t), actions[j - 1].ok);
      } else {
        OthersLeavePc(ss[j - 1], actions[j - 1], a.t);
      }
    } else {
      assert Gained(ss, actions, i, i, a.t) == 0;
    }
  }

  /** In every run `waitMany` takes at most `max` permits; fewer only if it leaves none in the count, and
      none only by cancelling after a timeout, when a waiter was short of a permit. */
  lemma WaitTakesUpToMax(ss: seq<State>, actions: seq<Action>, i: nat, j: nat, a: Action)
    requires IsRun(ss, actions) && a.InvokeWait? && InCall(ss, actions, i, j, a) && Returns(ss, actions, j, a.t)
    ensures 0 <= Gained(ss, actions, i, j + 1, a.t) <= a.max
    ensures Gained(ss, actions, i, j + 1, a.t) < a.max ==> ss[j + 1].count <= 0
    ensures Gained(ss, actions, i, j + 1, a.t) == 0 ==>
              ss[j].pcs[a.t].Cancel? && ss[j].count < 0 && ss[j + 1].count == ss[j].count + 1
  {
    assert IsStep(ss[j], actions[j], ss[j + 1]);
    StillWaiting(ss, actions, i, j, a);
    if actions[j].Advance? && actions[j].t == a.t {
      WaitStep(ss[j], a.t, a.max, Gained(ss, actions, i, j, a.t), actions[j].ok);
    } else {
      OthersLeavePc(ss[j], actions[j], a.t);
    }
  }

  /** The step `a` from `s` lets the kernel wait of thread `t` time out. */
  predicate TimesOut(s: State, a: Action, t: Thread) {
    a == Advance(t, false) && t < |s.pcs| && s.pcs[t].Kernel?
  }

  predicate TimedOut(pc: Pc) { pc.Recheck? || pc.TryKernel? || pc.Cancel? }

  lemma NoTimeoutStep(s: State, t: Thread, ok: bool)
    requires Enabled(s, Advance(t, ok)) && !TimedOut(s.pcs[t]) && (s.pcs[t].Kernel? ==> ok)
    ensures !TimedOut(AdvanceThread(s, t, ok).pcs[t])
  {
  }

  lemma {:induction false} NeverTimedOut(ss: seq<State>, actions: seq<Action>, i: nat, j: nat, a: Action)
    requires IsRun(ss, actions) && a.InvokeWait? && InCall(ss, actions, i, j, a)
    requires forall k {:trigger actions[k]} :: i < k < j ==> !TimesOut(ss[k], actions[k], a.t)
    ensures !TimedOut(ss[j].pcs[a.t])
    decreases j
  {
    assert IsStep(ss[j - 1], actions[j - 1], ss[j]);
    assert !ss[j].pcs[a.t].Idle?;
    if i + 1 < j {
      NeverTimedOut(ss, actions, i, j - 1, a);
      if actions[j - 1].Advance? && actions[j - 1].t == a.t {
        NoTimeoutStep(ss[j - 1], a.t, actions[j - 1].ok);
      } else {
        OthersLeavePc(ss[j - 1], actions[j - 1], a.t);
      }
    }
  }

  /** Without a timeout `waitMany` never comes back empty-handed, which is what the code asserts. */
  lemma WaitWithoutTimeoutGetsPermit(ss: seq<State>, actions: seq<Action>, i: nat, j: nat, a: Action)
    requires IsRun(ss, actions) && a.InvokeWait? && InCall(ss, actions, i, j, a) && Returns(ss, actions, j, a.t)
    requires forall k {:trigger actions[k]} :: i < k <= j ==> !TimesOut(ss[k], actions[k], a.t)
    ensures 1 <= Gained(ss, actions, i, j + 1, a.t) <= a.max
  {
    NeverTimedOut(ss, actions, i, j, a);
    WaitTakesUpToMax(ss, actions, i, j, a);
  }

  /** How many rounds of its spin loop thread `t` began between states `i` and `j`. */
  ghost function Rounds(ss: seq<State>, actions: seq<Action>, i: nat, j: nat, t: Thread): nat
    requires i <= j < |ss| == |actions| + 1
    decreases j
  {
    if j <= i then 0
    else Rounds(ss, actions, i, j - 1, t)
         + if actions[j - 1].Advance? && actions[j - 1].t == t && t < |ss[j - 1].pcs| && ss[j - 1].pcs[t].SpinLoad?
           then 1 else 0
  }

  /** The rounds that are behind a waiting thread of `spins` rounds. */
  predicate Spun(pc: Pc, spins: nat, rounds: int) {
    match pc
    case PollLoad(_, after) => after == SpinFor(spins) && rounds == 0
    case PollCas(_, _, after) => after == SpinFor(spins) && rounds == 0
    case SpinLoad(_, left) => rounds + left + 1 == spins
    case SpinCas(_, _, left) => rounds + left == spins
    case Sub(_) => rounds == spins
    case _ => false
  }

  lemma SpunStep(s: State, t: Thread, ok: bool, spins: nat, rounds: int)
    requires Enabled(s, Advance(t, ok)) && Spun(s.pcs[t], spins, rounds) && !s.pcs[t].Sub?
    ensures var pc := AdvanceThread(s, t, ok).pcs[t];
            pc.Idle? || Spun(pc, spins, rounds + if s.pcs[t].SpinLoad? then 1 else 0)
  {
  }

  /** A call gives up a unit of the count, to wait in the kernel, only after all its rounds of spinning. */
  lemma {:induction false} SpinsAllRounds(ss: seq<State>, actions: seq<Action>, i: nat, j: nat, a: Action)
    requires IsRun(ss, actions) && a.InvokeWait? && InCall(ss, actions, i, j, a)
    requires forall k {:trigger ss[k]} :: i < k < j ==> !ss[k].pcs[a.t].Sub?
    ensures Spun(ss[j].pcs[a.t], a.spins, Rounds(ss, actions, i, j, a.t))
    ensures ss[j].pcs[a.t].Sub? ==> Rounds(ss, actions, i, j, a.t) == a.spins
    decreases j
  {
    assert IsStep(ss[j - 1], actions[j - 1], ss[j]);
    assert !ss[j].pcs[a.t].Idle?;
    if i + 1 < j {
      SpinsAllRounds(ss, actions, i, j - 1, a);
      if actions[j - 1].Advance? && actions[j - 1].t == a.t {
        SpunStep(ss[j - 1], a.t, actions[j - 1].ok, a.spins, Rounds(ss, actions, i, j - 1, a.t));
      } else {
        OthersLeavePc(ss[j - 1], actions[j - 1], a.t);
      }
    } else {
      assert Rounds(ss, actions, i, i, a.t) == 0;
    }
  }

  /** Past the kernel wait: giving up, or polling for the rest with one permit in hand. */
  predicate PastKernel(pc: Pc) {
    TimedOut(pc) || ((pc.PollLoad? || pc.PollCas?) && pc.after.GiveUp?)
  }

  lemma PastKernelStep(s: State, t: Thread, ok: bool)
    requires Enabled(s, Advance(t, ok)) && PastKernel(s.pcs[t])
    ensures AdvanceThread(s, t, ok).pcs[t].Idle? || PastKernel(AdvanceThread(s, t, ok).pcs[t])
  {
  }

  /** A call blocks in the kernel at most until its timeout: once that has passed it never waits there again. */
  lemma {:induction false} BlocksOnce(ss: seq<State>, actions: seq<Action>, i: nat, k: nat, j: nat, a: Action)
    requires IsRun(ss, actions) && InCall(ss, actions, i, j, a)
    requires i < k <= j && TimedOut(ss[k].pcs[a.t])
    ensures PastKernel(ss[j].pcs[a.t])
    decreases j
  {
    if k < j {
      BlocksOnce(ss, actions, i, k, j - 1, a);
      assert IsStep(ss[j - 1], actions[j - 1], ss[j]);
      assert !ss[j].pcs[a.t].Idle?;
      if actions[j - 1].Advance? && actions[j - 1].t == a.t {
        PastKernelStep(ss[j - 1], a.t, actions[j - 1].ok);
      } else {
        OthersLeavePc(ss[j - 1], actions[j - 1], a.t);
      }
    }
  }

  // ----- what a call does when the other threads stand still

  /** Thread `t` runs alone for up to `k` accesses, until its call returns. It waits in the kernel as long as it
      has to, that is, until its timeout unless there is a permit. */
  function Solo(s: State, t: Thread, k: nat): State
    requires t < |s.pcs|
    decreases k
  {
    if k == 0 || s.pcs[t].Idle? then s
    else Solo(AdvanceThread(s, t, s.pcs[t].Kernel? ==> 0 < s.kernel), t, k - 1)
  }

  lemma {:induction false} SpinsOut(s: State, t: Thread, max: nat, spins: nat, k: nat)
    requires t < |s.pcs| && s.pcs[t] == NextSpin(max, spins) && s.count <= 0 && spins <= k
    ensures Solo(s, t, k) == Solo(Goto(s, t, Sub(max)), t, k - spins)
    decreases spins
  {
    if spins == 0 {
      assert s == Goto(s, t, Sub(max));
    } else {
      var s' := Goto(s, t, NextSpin(max, spins - 1));
      assert Solo(s, t, k) == Solo(s', t, k - 1);
      SpinsOut(s', t, max, spins - 1, k - 1);
      assert Goto(s, t, Sub(max)) == Goto(s', t, Sub(max));
    }
  }

  /** An undisturbed poll takes what it may. */
  lemma UndisturbedPoll(s: State, t: Thread, max: nat)
    requires t < |s.pcs| && s.pcs[t].Idle?
    ensures var n := if 0 < s.count then Min(max, s.count) else 0;
            Solo(Do(s, InvokePoll(t, max)), t, 2) == s.(count := s.count - n, acquired := s.acquired + n)
  {
    var s1 := Do(s, InvokePoll(t, max));
    var s2 := AdvanceThread(s1, t, true);
    var n := if 0 < s.count then Min(max, s.count) else 0;
    assert Solo(s1, t, 2) == Solo(s2, t, 1);
    if 0 < s.count {
      assert AdvanceThread(s2, t, true).pcs == s.pcs;
    } else {
      assert s2.pcs == s.pcs;
    }
  }

  lemma SoloSub(s: State, t: Thread, max: nat, k: nat)
    requires t < |s.pcs| && s.pcs[t] == Sub(max) && s.count <= 0 && 0 < max && 4 <= k
    ensures Solo(s, t, k) ==
            if 0 < s.kernel
            then Goto(s.(count := s.count - 1, kernel := s.kernel - 1, acquired := s.acquired + 1), t, Idle)
            else Goto(s, t, Idle)
  {
    var s1 := Goto(s.(count := s.count - 1), t, Kernel(max));
    assert Solo(s, t, k) == Solo(s1, t, k - 1);
    if 0 < s.kernel {
      var s2 := Goto(s1.(kernel := s.kernel - 1, acquired := s.acquired + 1), t, GotOne(max));
      assert AdvanceThread(s1, t, true).pcs == s2.pcs;
      assert Solo(s1, t, k - 1) == Solo(s2, t, k - 2);
      if 1 < max {
        assert Solo(s2, t, k - 2) == Solo(Goto(s2, t, Idle), t, k - 3);
      }
    } else {
      var s2 := Goto(s1, t, Recheck(max));
      var s3 := Goto(s1, t, Cancel(max, s.count - 1));
      assert Solo(s1, t, k - 1) == Solo(s2, t, k - 2);
      assert AdvanceThread(s2, t, true).pcs == s3.pcs;
      assert Solo(s2, t, k - 2) == Solo(s3, t, k - 3);
      assert AdvanceThread(s3, t, true).pcs == s.pcs[t := Idle];
    }
  }

  /** An undisturbed wait takes what it may of the count, or else a kernel permit that another waiter has
      not picked up yet; with neither it times out and leaves the semaphore as it was. */
  lemma UndisturbedWait(s: State, t: Thread, max: nat, spins: nat)
    requires Enabled(s, InvokeWait(t, max, spins))
    ensures Solo(Do(s, InvokeWait(t, max, spins)), t, spins + 5) ==
            if 0 < s.count then s.(count := s.count - Min(max, s.count), acquired := s.acquired + Min(max, s.count))
            else if 0 < s.kernel then s.(count := s.count - 1, kernel := s.kernel - 1, acquired := s.acquired + 1)
            else s
  {
    var s1 := Do(s, InvokeWait(t, max, spins));
    var s2 := AdvanceThread(s1, t, true);
    assert Solo(s1, t, spins + 5) == Solo(s2, t, spins + 4);
    if 0 < s.count {
      var s3 := AdvanceThread(s2, t, true);
      assert Solo(s2, t, spins + 4) == Solo(s3, t, spins + 3);
      assert s3.pcs == s.pcs;
    } else {
      SpinsOut(s2, t, max, spins, spins + 4);
      SoloSub(Goto(s2, t, Sub(max)), t, max, 4);
      assert s.pcs[t := Sub(max)][t := Idle] == s.pcs;
      assert Goto(s2, t, Sub(max)).pcs[t := Idle] == s.pcs;
    }
  }

  lemma {:induction false} SoloPosts(s: State, t: Thread, left: nat, k: nat)
    requires t < |s.pcs| && 0 < left <= k && s.pcs[t] == Post(left)
    ensures Solo(s, t, k) == Goto(s.(kernel := s.kernel + left), t, Idle)
    decreases left
  {
    var s' := AdvanceThread(s, t, true);
    assert Solo(s, t, k) == Solo(s', t, k - 1);
    if 1 < left {
      SoloPosts(s', t, left - 1, k - 1);
    }
  }

  /** An undisturbed `signal` adds its permits to the count and wakes as many of the waiters that are short
      of one. */
  lemma UndisturbedSignal(s: State, t: Thread, n: nat)
    requires Enabled(s, InvokeSignal(t, n))
    ensures Solo(Do(s, InvokeSignal(t, n)), t, n + 1) ==
            s.(count := s.count + n, signalled := s.signalled + n, kernel := s.kernel + Min(n, Deficit(s.count)))
  {
    var s1 := Do(s, InvokeSignal(t, n));
    var s2 := AdvanceThread(s1, t, true);
    var release := Min(n, Deficit(s.count));
    assert Solo(s1, t, n + 1) == Solo(s2, t, n);
    if 0 < release {
      SoloPosts(s2, t, release, n);
    }
    assert s2.pcs[t := Idle] == s.pcs;
  }
}
