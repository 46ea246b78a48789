/** The frame slots in direct mode: a submitter sends the frame to the consumer before it calls SubmitSlot, and
    polls the consumer's releases at the start of each SubmitFrame. */
module DirectMode {
  import opened Counting
  import opened SlotPool

  /** Where a submitter is in SubmitFrame. */
  datatype Submitter =
    | Resting
    | Polling                // in PollReleases, with poll_mutex_
    | Acquiring              // before AcquireSlot
    | Holding(slot: nat)     // converting into the slot
    | Sent(slot: nat)        // between SendFrame and SubmitSlot

  /** `frames` are the slots of frames sent and not yet released, `releases` those of release packets under way. */
  datatype State = State(states: seq<SlotState>, submitters: seq<Submitter>, frames: multiset<nat>,
                         releases: multiset<nat>)

  datatype Action =
    | Start(t: nat)
    | Poll(t: nat, slot: nat)      // the next release packet, handed to ReleaseSlot
    | PollEnd(t: nat)
    | Acquire(t: nat)
    | Revert(t: nat)               // a failed cache sync or send
    | Send(t: nat)
    | Submit(t: nat)
    | Release(slot: nat)           // the consumer releases a frame
    | LoseFrame(slot: nat)
    | LoseRelease(slot: nat)

  predicate At(s: State, t: nat, p: Submitter) { t < |s.submitters| && s.submitters[t] == p }

  predicate Enabled(s: State, a: Action) {
    match a
    case Start(t) => At(s, t, Resting) && forall u :: 0 <= u < |s.submitters| ==> s.submitters[u] != Polling
    case Poll(t, slot) => At(s, t, Polling) && slot in s.releases
    case PollEnd(t) => At(s, t, Polling)
    case Acquire(t) => At(s, t, Acquiring)
    case Revert(t) => t < |s.submitters| && s.submitters[t].Holding?
    case Send(t) => t < |s.submitters| && s.submitters[t].Holding?
    case Submit(t) => t < |s.submitters| && s.submitters[t].Sent?
    case Release(slot) => slot in s.frames
    case LoseFrame(slot) => slot in s.frames
    case LoseRelease(slot) => slot in s.releases
  }

  function Set(s: State, t: nat, p: Submitter): State
    requires t < |s.submitters|
  {
    s.(submitters := s.submitters[t := p])
  }

  function Do(s: State, a: Action): State
    requires Enabled(s, a)
  {
    match a
    case Start(t) => Set(s, t, Polling)
    case Poll(t, slot) => s.(releases := s.releases - multiset{slot}, states := Change(s.states, slot, ON_FLIGHT, IDLE))
    case PollEnd(t) => Set(s, t, Acquiring)
    case Acquire(t) =>
      var slot := FirstIdle(s.states);
      if slot < 0 then Set(s, t, Resting) else Set(s, t, Holding(slot)).(states := Change(s.states, slot, IDLE, IN_USE))
    case Revert(t) => Set(s, t, Resting).(states := Change(s.states, s.submitters[t].slot, IN_USE, IDLE))
    case Send(t) => Set(s, t, Sent(s.submitters[t].slot)).(frames := s.frames + multiset{s.submitters[t].slot})
    case Submit(t) => Set(s, t, Resting).(states := Change(s.states, s.submitters[t].slot, IN_USE, ON_FLIGHT))
    case Release(slot) => s.(frames := s.frames - multiset{slot}, releases := s.releases + multiset{slot})
    case LoseFrame(slot) => s.(frames := s.frames - multiset{slot})
    case LoseRelease(slot) => s.(releases := s.releases - multiset{slot})
  }

  // The invariant

  ghost function One(b: bool): int { if b then 1 else 0 }

  ghost function Owns(slot: nat): Submitter -> int {
    (p: Submitter) => One(p == Holding(slot) || p == Sent(slot))
  }

  ghost function HasSent(slot: nat): Submitter -> int { (p: Submitter) => One(p == Sent(slot)) }

  /** The chances left to release slot `x`. */
  ghost function Tokens(s: State, x: nat): int { s.frames[x] + s.releases[x] }

  /** Submitters and messages name existing slots. */
  ghost predicate Bounds(s: State) {
    && (forall t :: 0 <= t < |s.submitters| && (s.submitters[t].Holding? || s.submitters[t].Sent?) ==>
          s.submitters[t].slot < |s.states|)
    && forall x :: x in s.frames || x in s.releases ==> x < |s.states|
  }

  /** A slot in use has one owner, other slots have none. A frame is under way at most once, and only for a slot in
      flight or between send and SubmitSlot. */
  ghost predicate SlotOk(s: State, x: nat)
    requires x < |s.states|
  {
    && Sum(s.submitters, Owns(x)) == One(s.states[x] == IN_USE)
    && Tokens(s, x) <= One(s.states[x] == ON_FLIGHT) + Sum(s.submitters, HasSent(x))
  }

  ghost predicate Inv(s: State) {
    Bounds(s) && forall x {:trigger SlotOk(s, x)} :: 0 <= x < |s.states| ==> SlotOk(s, x)
  }

  ghost predicate Init(s: State) {
    && (forall x :: 0 <= x < |s.states| ==> s.states[x] == IDLE)
    && (forall t :: 0 <= t < |s.submitters| ==> s.submitters[t] == Resting)
    && s.frames == multiset{} && s.releases == multiset{}
  }

  lemma InitInv(s: State)
    requires Init(s)
    ensures Inv(s)
  {
    forall x | 0 <= x < |s.states| ensures SlotOk(s, x) {
      SumZero(s.submitters, Owns(x));
      SumZero(s.submitters, HasSent(x));
    }
  }

  lemma Moved(s: State, t: nat, p: Submitter, x: nat)
    requires t < |s.submitters|
    ensures var moved := s.submitters[t := p];
            && Sum(moved, Owns(x)) == Sum(s.submitters, Owns(x)) - Owns(x)(s.submitters[t]) + Owns(x)(p)
            && Sum(moved, HasSent(x)) == Sum(s.submitters, HasSent(x)) - HasSent(x)(s.submitters[t]) + HasSent(x)(p)
  {
    SumUpdate(s.submitters, t, p, Owns(x));
    SumUpdate(s.submitters, t, p, HasSent(x));
  }

  /** What an owner says about its slot. */
  lemma OwnerFacts(s: State, t: nat)
    requires Inv(s) && t < |s.submitters| && (s.submitters[t].Holding? || s.submitters[t].Sent?)
    ensures var x := s.submitters[t].slot;
            && x < |s.states| && s.states[x] == IN_USE && Sum(s.submitters, HasSent(x)) == One(s.submitters[t].Sent?)
  {
    var x := s.submitters[t].slot;
    SumAtLeast(s.submitters, t, Owns(x));
    assert SlotOk(s, x);
    if s.submitters[t].Sent? {
      SumAtLeast(s.submitters, t, HasSent(x));
      SumMonotone(s.submitters, HasSent(x), Owns(x));
    } else {
      SumNonNegative(s.submitters, HasSent(x));
      if Sum(s.submitters, HasSent(x)) > 0 {
        var u := SumPositiveWitness(s.submitters, HasSent(x));
        SumAtLeastTwo(s.submitters, t, u, Owns(x));
      }
    }
  }

  lemma SentMeansOwned(s: State, x: nat)
    requires Inv(s) && x < |s.states|
    ensures 0 <= Sum(s.submitters, HasSent(x)) <= One(s.states[x] == IN_USE)
    ensures 0 < Sum(s.submitters, HasSent(x)) <==> exists t :: 0 <= t < |s.submitters| && s.submitters[t] == Sent(x)
  {
    SumNonNegative(s.submitters, HasSent(x));
    SumMonotone(s.submitters, HasSent(x), Owns(x));
    assert SlotOk(s, x);
    if 0 < Sum(s.submitters, HasSent(x)) {
      var t := SumPositiveWitness(s.submitters, HasSent(x));
      assert s.submitters[t] == Sent(x);
    } else {
      forall t | 0 <= t < |s.submitters| ensures s.submitters[t] != Sent(x) {
        SumAtLeast(s.submitters, t, HasSent(x));
      }
    }
  }

  lemma TurnKeepsSlot(s: State, a: Action, x: nat)
    requires Inv(s) && Enabled(s, a) && (a.Start? || a.PollEnd? || a.Acquire?) && x < |s.states|
    ensures SlotOk(Do(s, a), x)
  {
    assert SlotOk(s, x);
    SentMeansOwned(s, x);
    Moved(s, a.t, Do(s, a).submitters[a.t], x);
  }

  lemma OwnerKeepsSlot(s: State, a: Action, x: nat)
    requires Inv(s) && Enabled(s, a) && (a.Revert? || a.Send? || a.Submit?) && x < |s.states|
    ensures SlotOk(Do(s, a), x)
  {
    OwnerFacts(s, a.t);
    assert SlotOk(s, x);
    SentMeansOwned(s, x);
    Moved(s, a.t, Do(s, a).submitters[a.t], x);
  }

  lemma MessageKeepsSlot(s: State, a: Action, x: nat)
    requires Inv(s) && Enabled(s, a) && (a.Poll? || a.Release? || a.LoseFrame? || a.LoseRelease?) && x < |s.states|
    ensures SlotOk(Do(s, a), x)
  {
    assert SlotOk(s, x);
    SentMeansOwned(s, x);
  }

  lemma TurnKeepsBounds(s: State, a: Action)
    requires Inv(s) && Enabled(s, a) && (a.Start? || a.PollEnd? || a.Acquire?)
    ensures Bounds(Do(s, a)) && |Do(s, a).states| == |s.states|
  {
  }

  lemma OwnerKeepsBounds(s: State, a: Action)
    requires Inv(s) && Enabled(s, a) && (a.Revert? || a.Send? || a.Submit?)
    ensures Bounds(Do(s, a)) && |Do(s, a).states| == |s.states|
  {
  }

  lemma MessageKeepsBounds(s: State, a: Action)
    requires Inv(s) && Enabled(s, a) && (a.Poll? || a.Release? || a.LoseFrame? || a.LoseRelease?)
    ensures Bounds(Do(s, a)) && |Do(s, a).states| == |s.states|
  {
  }

  lemma StepKeepsBounds(s: State, a: Action)
    requires Inv(s) && Enabled(s, a)
    ensures Bounds(Do(s, a)) && |Do(s, a).states| == |s.states|
  {
    if a.Start? || a.PollEnd? || a.Acquire? {
      TurnKeepsBounds(s, a);
    } else if a.Revert? || a.Send? || a.Submit? {
      OwnerKeepsBounds(s, a);
    } else {
      MessageKeepsBounds(s, a);
    }
  }

  lemma StepKeepsInv(s: State, a: Action)
    requires Inv(s) && Enabled(s, a)
    ensures Inv(Do(s, a))
  {
    StepKeepsBounds(s, a);
    forall x | 0 <= x < |s.states| ensures SlotOk(Do(s, a), x) {
      if a.Start? || a.PollEnd? || a.Acquire? {
        TurnKeepsSlot(s, a, x);
      } else if a.Revert? || a.Send? || a.Submit? {
        OwnerKeepsSlot(s, a, x);
      } else {
        MessageKeepsSlot(s, a, x);
      }
    }
  }

  // Whole runs

  ghost predicate IsStep(s: State, a: Action, s': State) { Enabled(s, a) && s' == Do(s, a) }

  ghost predicate IsRun(ss: seq<State>, actions: seq<Action>) {
    && |ss| == |actions| + 1 && Init(ss[0])
    && forall i {:trigger actions[i]} :: 0 <= i < |actions| ==> IsStep(ss[i], actions[i], ss[i + 1])
  }

  lemma {:induction false} RunKeepsInv(ss: seq<State>, actions: seq<Action>, i: nat)
    requires IsRun(ss, actions) && i < |ss|
    ensures Inv(ss[i])
  {
    if i == 0 {
      InitInv(ss[0]);
    } else {
      RunKeepsInv(ss, actions, i - 1);
      assert IsStep(ss[i - 1], actions[i - 1], ss[i]);
      StepKeepsInv(ss[i - 1], actions[i - 1]);
    }
  }

  /** The step hands a release to the pool, and the pool refuses it. */
  ghost predicate Refused(s: State, a: Action) { a.Poll? && !Changeable(s.states, a.slot, ON_FLIGHT) }

  ghost predicate BetweenSendAndSubmit(s: State, x: nat) {
    exists t :: 0 <= t < |s.submitters| && s.submitters[t] == Sent(x)
  }

  /** AcquireSlot fails exactly if no slot is idle after the submitter's polls; otherwise the submitter holds a slot
      that was idle. */
  lemma AcquiresIff(ss: seq<State>, actions: seq<Action>, i: nat, t: nat)
    requires IsRun(ss, actions) && i < |actions| && actions[i] == Acquire(t)
    ensures t < |ss[i + 1].submitters|
    ensures if IDLE in ss[i].states then
              && ss[i + 1].submitters[t].Holding?
              && var slot := ss[i + 1].submitters[t].slot;
                 slot < |ss[i].states| && ss[i].states[slot] == IDLE && ss[i + 1].states == ss[i].states[slot := IN_USE]
            else ss[i + 1].submitters[t] == Resting && ss[i + 1].states == ss[i].states
  {
    assert IsStep(ss[i], actions[i], ss[i + 1]);
  }

  /** RevertSlot is accepted: the slot is idle again and the submitter free. */
  lemma RevertsSlot(ss: seq<State>, actions: seq<Action>, i: nat, t: nat)
    requires IsRun(ss, actions) && i < |actions| && actions[i] == Revert(t)
    ensures t < |ss[i].submitters| && ss[i].submitters[t].Holding?
    ensures var slot := ss[i].submitters[t].slot;
            slot < |ss[i].states| && ss[i + 1] == ss[i].(states := ss[i].states[slot := IDLE],
                                                         submitters := ss[i].submitters[t := Resting])
  {
    assert IsStep(ss[i], actions[i], ss[i + 1]);
    RunKeepsInv(ss, actions, i);
    OwnerFacts(ss[i], t);
  }

  /** A polled release is refused if and only if a submitter has sent the slot's frame and not yet called
      SubmitSlot. */
  lemma RefusedIff(ss: seq<State>, actions: seq<Action>, i: nat)
    requires IsRun(ss, actions) && i < |actions| && actions[i].Poll?
    ensures Refused(ss[i], actions[i]) <==> BetweenSendAndSubmit(ss[i], actions[i].slot)
  {
    RunKeepsInv(ss, actions, i);
    assert IsStep(ss[i], actions[i], ss[i + 1]);
    var s, x := ss[i], actions[i].slot;
    SentMeansOwned(s, x);
    assert SlotOk(s, x);
  }

  /** A single submitter is polling when it polls, so none of its releases is refused. */
  lemma OneSubmitterNeverRefused(ss: seq<State>, actions: seq<Action>, i: nat)
    requires IsRun(ss, actions) && i < |actions| && actions[i].Poll? && |ss[i].submitters| == 1
    ensures !Refused(ss[i], actions[i])
  {
    RefusedIff(ss, actions, i);
    assert IsStep(ss[i], actions[i], ss[i + 1]);
    assert At(ss[i], 0, Polling);
  }

  // Slots lost for good

  /** The slot is in flight, or on the way to it, and nothing that could release it is left. */
  ghost predicate Doomed(s: State, x: nat) {
    && x < |s.states| && Tokens(s, x) == 0
    && (s.states[x] == ON_FLIGHT || BetweenSendAndSubmit(s, x))
  }

  /** A slot is doomed if and only if it waits for a release and has no token. */
  lemma DoomedIff(s: State, x: nat)
    requires Inv(s) && x < |s.states|
    ensures Doomed(s, x) <==> Tokens(s, x) == 0 && One(s.states[x] == ON_FLIGHT) + Sum(s.submitters, HasSent(x)) == 1
    ensures Tokens(s, x) <= One(s.states[x] == ON_FLIGHT) + Sum(s.submitters, HasSent(x)) <= 1
  {
    SentMeansOwned(s, x);
    assert SlotOk(s, x);
  }

  /** How a step changes the balance of a slot: what waits for a release, against the releases under way. */
  ghost function Missing(s: State, x: nat): int
    requires x < |s.states|
  {
    One(s.states[x] == ON_FLIGHT) + Sum(s.submitters, HasSent(x)) - Tokens(s, x)
  }

  lemma TurnKeepsMissing(s: State, a: Action, x: nat)
    requires Inv(s) && Enabled(s, a) && (a.Start? || a.PollEnd? || a.Acquire?) && x < |s.states|
    ensures |Do(s, a).states| == |s.states| && Missing(Do(s, a), x) == Missing(s, x)
  {
    Moved(s, a.t, Do(s, a).submitters[a.t], x);
  }

  lemma OwnerKeepsMissing(s: State, a: Action, x: nat)
    requires Inv(s) && Enabled(s, a) && (a.Revert? || a.Send? || a.Submit?) && x < |s.states|
    ensures |Do(s, a).states| == |s.states| && Missing(Do(s, a), x) == Missing(s, x)
  {
    OwnerFacts(s, a.t);
    Moved(s, a.t, Do(s, a).submitters[a.t], x);
  }

  /** The slot whose token a step uses up in vain. */
  ghost predicate Wastes(s: State, a: Action, x: nat) {
    match a
    case Poll(_, slot) => slot == x && Refused(s, a)
    case LoseFrame(slot) => slot == x
    case LoseRelease(slot) => slot == x
    case _ => false
  }

  lemma StepChangesMissing(s: State, a: Action, x: nat)
    requires Inv(s) && Enabled(s, a) && x < |s.states|
    ensures |Do(s, a).states| == |s.states|
    ensures Missing(Do(s, a), x) == Missing(s, x) + One(Wastes(s, a, x))
  {
    if a.Start? || a.PollEnd? || a.Acquire? {
      TurnKeepsMissing(s, a, x);
    } else if a.Revert? || a.Send? || a.Submit? {
      OwnerKeepsMissing(s, a, x);
    }
  }

  /** A refused release was the slot's last: the slot is doomed. */
  lemma RefusalDooms(s: State, a: Action)
    requires Inv(s) && Enabled(s, a) && Refused(s, a)
    ensures Doomed(Do(s, a), a.slot)
  {
    StepKeepsInv(s, a);
    StepChangesMissing(s, a, a.slot);
    DoomedIff(s, a.slot);
    DoomedIff(Do(s, a), a.slot);
  }

  /** The number of tokens for `x` wasted by the first `i` steps. */
  ghost function Wasted(ss: seq<State>, actions: seq<Action>, i: nat, x: nat): nat
    requires i <= |actions| && i <= |ss|
  {
    if i == 0 then 0 else Wasted(ss, actions, i - 1, x) + if Wastes(ss[i - 1], actions[i - 1], x) then 1 else 0
  }

  lemma NothingMissingAtFirst(s: State, x: nat)
    requires Init(s) && x < |s.states|
    ensures Missing(s, x) == 0
  {
    SumZero(s.submitters, HasSent(x));
  }

  lemma MissingAfterStep(ss: seq<State>, actions: seq<Action>, i: nat, x: nat)
    requires IsRun(ss, actions) && i < |actions| && x < |ss[i].states|
    ensures |ss[i + 1].states| == |ss[i].states|
    ensures Missing(ss[i + 1], x) == Missing(ss[i], x) + One(Wastes(ss[i], actions[i], x))
  {
    RunKeepsInv(ss, actions, i);
    assert IsStep(ss[i], actions[i], ss[i + 1]);
    StepChangesMissing(ss[i], actions[i], x);
  }

  /** What waits for a release and has none under way is what was wasted. */
  lemma {:induction false} MissingIsWasted(ss: seq<State>, actions: seq<Action>, i: nat, x: nat)
    requires IsRun(ss, actions) && i < |ss| && x < |ss[i].states|
    ensures Missing(ss[i], x) == Wasted(ss, actions, i, x)
  {
    if i == 0 {
      NothingMissingAtFirst(ss[0], x);
    } else {
      SameSize(ss, actions, i - 1);
      SameSize(ss, actions, i);
      var before := ss[i - 1];
      assert x < |before.states|;
      MissingIsWasted(ss, actions, i - 1, x);
      MissingAfterStep(ss, actions, i - 1, x);
      assert Wasted(ss, actions, i, x) == Wasted(ss, actions, i - 1, x) + One(Wastes(before, actions[i - 1], x));
    }
  }

  lemma {:induction false} WastedIff(ss: seq<State>, actions: seq<Action>, i: nat, x: nat)
    requires i <= |actions| && i <= |ss|
    ensures Wasted(ss, actions, i, x) == 0 <==> forall j :: 0 <= j < i ==> !Wastes(ss[j], actions[j], x)
  {
    if i > 0 {
      WastedIff(ss, actions, i - 1, x);
    }
  }

  /** In every run a slot has been lost for good if and only if one of its messages was lost or one of its releases
      was refused. */
  lemma DoomedIffWasted(ss: seq<State>, actions: seq<Action>, i: nat, x: nat)
    requires IsRun(ss, actions) && i < |ss| && x < |ss[i].states|
    ensures Doomed(ss[i], x) <==> exists j :: 0 <= j < i && Wastes(ss[j], actions[j], x)
  {
    RunKeepsInv(ss, actions, i);
    MissingIsWasted(ss, actions, i, x);
    WastedIff(ss, actions, i, x);
    DoomedIff(ss[i], x);
    assert SlotOk(ss[i], x);
  }

  lemma {:induction false} SameSize(ss: seq<State>, actions: seq<Action>, i: nat)
    requires IsRun(ss, actions) && i < |ss|
    ensures |ss[i].states| == |ss[0].states| && |ss[i].submitters| == |ss[0].submitters|
  {
    if i > 0 {
      SameSize(ss, actions, i - 1);
      assert IsStep(ss[i - 1], actions[i - 1], ss[i]);
    }
  }

  /** With one submitter, and no message lost, no slot is ever lost. */
  lemma OneSubmitterLosesNothing(ss: seq<State>, actions: seq<Action>, i: nat, x: nat)
    requires IsRun(ss, actions) && i < |ss| && x < |ss[i].states| && |ss[0].submitters| == 1
    requires forall j :: 0 <= j < |actions| ==> !actions[j].LoseFrame? && !actions[j].LoseRelease?
    ensures !Doomed(ss[i], x)
  {
    DoomedIffWasted(ss, actions, i, x);
    forall j | 0 <= j < i ensures !Wastes(ss[j], actions[j], x) {
      SameSize(ss, actions, j);
      if actions[j].Poll? {
        OneSubmitterNeverRefused(ss, actions, j);
      }
    }
  }

  // Two submitters: one polls while the other is between send and SubmitSlot.

  ghost function RaceState(i: nat): State {
    var first := if i == 0 then Resting else if i == 1 then Polling else if i == 2 then Acquiring
                 else if i == 3 then Holding(0) else if i <= 7 then Sent(0) else Resting;
    var second := if i <= 5 then Resting else Polling;
    State([if i <= 2 then IDLE else if i <= 7 then IN_USE else ON_FLIGHT], [first, second],
          if i == 4 then multiset{0} else multiset{}, if i == 5 || i == 6 then multiset{0} else multiset{})
  }

  ghost function RaceAction(i: nat): Action {
    if i == 0 then Start(0) else if i == 1 then PollEnd(0) else if i == 2 then Acquire(0) else if i == 3 then Send(0)
    else if i == 4 then Release(0) else if i == 5 then Start(1) else if i == 6 then Poll(1, 0) else Submit(0)
  }

  lemma RaceStep(i: nat)
    requires i < 8
    ensures IsStep(RaceState(i), RaceAction(i), RaceState(i + 1))
    ensures !RaceAction(i).LoseFrame? && !RaceAction(i).LoseRelease?
  {
    if i < 4 {
      RaceOpening(i);
    } else if i < 6 {
      RaceRelease(i);
    } else {
      RaceRefusal(i);
    }
  }

  lemma RaceOpening(i: nat)
    requires i < 4
    ensures IsStep(RaceState(i), RaceAction(i), RaceState(i + 1))
  {
    var next := Do(RaceState(i), RaceAction(i));
    assert FirstIdle([IDLE]) == 0;
    assert next.submitters == RaceState(i + 1).submitters && next.states == RaceState(i + 1).states;
    assert next.frames == RaceState(i + 1).frames && next.releases == RaceState(i + 1).releases;
  }

  lemma RaceRelease(i: nat)
    requires 4 <= i < 6
    ensures IsStep(RaceState(i), RaceAction(i), RaceState(i + 1))
  {
    var next := Do(RaceState(i), RaceAction(i));
    assert next.submitters == RaceState(i + 1).submitters && next.frames == RaceState(i + 1).frames;
    assert next.releases == RaceState(i + 1).releases;
  }

  lemma RaceRefusal(i: nat)
    requires 6 <= i < 8
    ensures IsStep(RaceState(i), RaceAction(i), RaceState(i + 1))
  {
    var next := Do(RaceState(i), RaceAction(i));
    assert next.submitters == RaceState(i + 1).submitters && next.states == RaceState(i + 1).states;
    assert next.releases == RaceState(i + 1).releases;
  }

  lemma RaceOutcome()
    ensures Refused(RaceState(6), RaceAction(6)) && RaceState(8).states == [ON_FLIGHT] && Doomed(RaceState(8), 0)
  {
  }

  /** No message is lost, and the slot is: it stays in flight although its frame was released. */
  lemma RaceLosesSlot() returns (ss: seq<State>, actions: seq<Action>)
    ensures IsRun(ss, actions) && |ss| == 9 && Refused(ss[6], actions[6])
    ensures forall j :: 0 <= j < |actions| ==> !actions[j].LoseFrame? && !actions[j].LoseRelease?
    ensures ss[8].states == [ON_FLIGHT] && Doomed(ss[8], 0)
  {
    ss := seq(9, i requires 0 <= i => RaceState(i));
    actions := seq(8, i requires 0 <= i => RaceAction(i));
    forall i | 0 <= i < 8
      ensures IsStep(ss[i], actions[i], ss[i + 1]) && !actions[i].LoseFrame? && !actions[i].LoseRelease?
    {
      RaceStep(i);
    }
    RaceOutcome();
  }

  // One frame there and back, with nothing in between

  lemma AcquiresIdle(s: State, t: nat) returns (slot: nat, s1: State, s2: State, s3: State)
    requires Enabled(s, Start(t)) && IDLE in s.states
    ensures slot < |s.states| && s.states[slot] == IDLE
    ensures IsStep(s, Start(t), s1) && IsStep(s1, PollEnd(t), s2) && IsStep(s2, Acquire(t), s3)
    ensures s3 == s.(submitters := s.submitters[t := Holding(slot)], states := s.states[slot := IN_USE])
  {
    slot := FirstIdle(s.states);
    s1 := Do(s, Start(t));
    s2 := Do(s1, PollEnd(t));
    s3 := Do(s2, Acquire(t));
    assert s3.submitters == s.submitters[t := Holding(slot)];
  }

  lemma SendsAndSubmits(s: State, t: nat, slot: nat) returns (s1: State, s2: State)
    requires At(s, t, Holding(slot)) && slot < |s.states| && s.states[slot] == IN_USE
    ensures IsStep(s, Send(t), s1) && IsStep(s1, Submit(t), s2)
    ensures s2 == s.(submitters := s.submitters[t := Resting], states := s.states[slot := ON_FLIGHT],
                     frames := s.frames + multiset{slot})
  {
    s1 := Do(s, Send(t));
    s2 := Do(s1, Submit(t));
    assert s2.submitters == s.submitters[t := Resting];
  }

  /** A submitter without releases to poll sends a frame from an idle slot. */
  lemma UndisturbedSend(s: State, t: nat) returns (slot: nat, ss: seq<State>)
    requires Enabled(s, Start(t)) && IDLE in s.states
    ensures slot < |s.states| && s.states[slot] == IDLE && |ss| == 6 && ss[0] == s
    ensures IsStep(ss[0], Start(t), ss[1]) && IsStep(ss[1], PollEnd(t), ss[2]) && IsStep(ss[2], Acquire(t), ss[3])
    ensures IsStep(ss[3], Send(t), ss[4]) && IsStep(ss[4], Submit(t), ss[5])
    ensures ss[5] == s.(states := s.states[slot := ON_FLIGHT], frames := s.frames + multiset{slot})
  {
    var s1, s2, s3, s4, s5;
    slot, s1, s2, s3 := AcquiresIdle(s, t);
    s4, s5 := SendsAndSubmits(s3, t, slot);
    assert s.submitters[t := Holding(slot)][t := Resting] == s.submitters;
    assert s.states[slot := IN_USE][slot := ON_FLIGHT] == s.states[slot := ON_FLIGHT];
    ss := [s, s1, s2, s3, s4, s5];
  }

  /** When the consumer releases the frame, the next poll makes its slot idle. */
  lemma UndisturbedRelease(s: State, t: nat, slot: nat) returns (ss: seq<State>)
    requires Enabled(s, Start(t)) && slot in s.frames && slot < |s.states| && s.states[slot] == ON_FLIGHT
    ensures |ss| == 4 && ss[0] == s
    ensures IsStep(ss[0], Release(slot), ss[1]) && IsStep(ss[1], Start(t), ss[2]) && IsStep(ss[2], Poll(t, slot), ss[3])
    ensures ss[3] == Set(s, t, Polling).(frames := s.frames - multiset{slot}, states := s.states[slot := IDLE])
  {
    var s1 := Do(s, Release(slot));
    var s2 := Do(s1, Start(t));
    var s3 := Do(s2, Poll(t, slot));
    assert s3.releases == s.releases;
    ss := [s, s1, s2, s3];
  }
}
