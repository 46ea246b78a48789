/** The timing runtime: submitters, flushers and unregistering threads around one worker, with a mutex and two
    condition variables. One step is one critical section, the sleep or wake-up of a waiter, or a call on a recorder.

    Every registration of a channel makes a new recorder. `accepted` lists the events that Submit took, in order,
    each with the recorder its channel had then; event number n is `accepted[n]`. */
module TimingRuntime {
  import opened Wrappers

  type Channel = nat
  type Recorder = nat

  datatype Event = Event(channel: Channel, recorder: Recorder)

  datatype Registration = Registration(refs: nat, recorder: Recorder)

  datatype Worker =
    | NotStarted
    | Awake                                             // before the check of its wait on cv_
    | Asleep                                            // blocked on cv_
    | Taken(event: Event, target: Option<Recorder>)     // outside the lock, before RecordStageTimestamp
    | Handled(event: Event)                             // before its last critical section
    | Stopped

  /** A thread in Flush or UnregisterChannel; `asleep` means blocked on idle_cv_. */
  datatype Client =
    | Idle
    | Flushing(asleep: bool, submitted: nat)   // `submitted` events had been accepted when Flush was called
    | Waiting(asleep: bool, channel: Channel)  // WaitForChannelIdleLocked
    | Erasing(channel: Channel)
    | Closing(recorder: Recorder)              // recorder->Close()

  /** `recorded` has a pair (n, r) if event number n reached recorder r while it was open. */
  datatype State = State(channels: map<Channel, Registration>, recorders: nat, closed: set<Recorder>,
                         inFlight: map<Channel, nat>, events: seq<Event>, active: nat, stop: bool, worker: Worker,
                         clients: seq<Client>, accepted: seq<Event>, processed: seq<Event>,
                         recorded: set<(nat, Recorder)>)

  datatype Action =
    | Register(channel: Channel)
    | Submit(channel: Channel)
    | Stop                                      // the destructor's stop request
    | CallFlush(t: nat)
    | CallUnregister(t: nat, channel: Channel)
    | Check(t: nat)                             // evaluate the predicate of a wait: go on, or sleep
    | Spurious(t: nat)                          // wake up without a notification
    | Erase(t: nat)
    | Close(t: nat)
    | WorkerCheck                               // take an event, stop or sleep
    | WorkerSpurious
    | WorkerRecord
    | WorkerDone

  function Get(m: map<Channel, nat>, c: Channel): nat { if c in m then m[c] else 0 }

  /** The event the worker has taken and not yet accounted for. */
  function Held(w: Worker): seq<Event> {
    match w
    case Taken(e, _) => [e]
    case Handled(e) => [e]
    case _ => []
  }

  function Wake(clients: seq<Client>): seq<Client> {
    seq(|clients|, t requires 0 <= t < |clients| =>
      match clients[t]
      case Flushing(_, n) => Flushing(false, n)
      case Waiting(_, c) => Waiting(false, c)
      case other => other)
  }

  predicate AllIdle(s: State) { s.events == [] && s.active == 0 }

  predicate CanWait(c: Client) { c.Flushing? || c.Waiting? }

  predicate Enabled(s: State, a: Action) {
    match a
    case Register(_) => true
    case Submit(_) => true
    case Stop => true
    case CallFlush(t) => t < |s.clients| && s.clients[t].Idle?
    case CallUnregister(t, _) => t < |s.clients| && s.clients[t].Idle?
    case Check(t) => t < |s.clients| && CanWait(s.clients[t]) && !s.clients[t].asleep
    case Spurious(t) => t < |s.clients| && CanWait(s.clients[t]) && s.clients[t].asleep
    case Erase(t) => t < |s.clients| && s.clients[t].Erasing?
    case Close(t) => t < |s.clients| && s.clients[t].Closing?
    case WorkerCheck => s.worker.Awake?
    case WorkerSpurious => s.worker.Asleep?
    case WorkerRecord => s.worker.Taken?
    case WorkerDone => s.worker.Handled?
  }

  function SetClient(s: State, t: nat, c: Client): State
    requires t < |s.clients|
  {
    s.(clients := s.clients[t := c])
  }

  function Do(s: State, a: Action): State
    requires Enabled(s, a)
  {
    match a
    case Register(c) => RegisterChannel(s, c)
    case Submit(c) => SubmitEvent(s, c)
    case Stop => s.(stop := true, worker := if s.worker.Asleep? then Awake else s.worker)
    case CallFlush(t) => SetClient(s, t, Flushing(false, |s.accepted|))
    case CallUnregister(t, c) => Unregister(s, t, c)
    case Check(t) => CheckWait(s, t)
    case Spurious(t) => SetClient(s, t, if s.clients[t].Flushing? then Flushing(false, s.clients[t].submitted)
                                        else Waiting(false, s.clients[t].channel))
    case Erase(t) => EraseChannel(s, t)
    case Close(t) => SetClient(s, t, Idle).(closed := s.closed + {s.clients[t].recorder})
    case WorkerCheck => TakeEvent(s)
    case WorkerSpurious => s.(worker := Awake)
    case WorkerRecord => RecordEvent(s)
    case WorkerDone => FinishEvent(s)
  }

  function RegisterChannel(s: State, c: Channel): State {
    var s1 := s.(worker := if s.worker.NotStarted? then Awake else s.worker);
    if c in s.channels then s1.(channels := s.channels[c := s.channels[c].(refs := s.channels[c].refs + 1)])
    else s1.(channels := s.channels[c := Registration(1, s.recorders)], recorders := s.recorders + 1)
  }

  function SubmitEvent(s: State, c: Channel): State {
    if c !in s.channels then s
    else
      var e := Event(c, s.channels[c].recorder);
      s.(inFlight := s.inFlight[c := Get(s.inFlight, c) + 1], events := s.events + [e], accepted := s.accepted + [e],
         worker := if s.worker.Asleep? then Awake else s.worker)
  }

  /** The first critical section of UnregisterChannel. */
  function Unregister(s: State, t: nat, c: Channel): State
    requires t < |s.clients|
  {
    if c !in s.channels then s
    else if s.channels[c].refs > 1 then s.(channels := s.channels[c := s.channels[c].(refs := s.channels[c].refs - 1)])
    else SetClient(s, t, Waiting(false, c))
  }

  /** The last critical section of UnregisterChannel. */
  function EraseChannel(s: State, t: nat): State
    requires Enabled(s, Erase(t))
  {
    var c := s.clients[t].channel;
    if c !in s.channels then SetClient(s, t, Idle)
    else SetClient(s, t, Closing(s.channels[c].recorder)).(channels := s.channels - {c})
  }

  function CheckWait(s: State, t: nat): State
    requires Enabled(s, Check(t))
  {
    match s.clients[t]
    case Flushing(_, n) => SetClient(s, t, if AllIdle(s) then Idle else Flushing(true, n))
    case Waiting(_, c) => SetClient(s, t, if Get(s.inFlight, c) == 0 then Erasing(c) else Waiting(true, c))
    case _ => s
  }

  function TakeEvent(s: State): State {
    if s.events == [] then s.(worker := if s.stop then Stopped else Asleep)
    else
      var e := s.events[0];
      var target := if e.channel in s.channels then Some(s.channels[e.channel].recorder) else None;
      s.(events := s.events[1..], active := s.active + 1, worker := Taken(e, target))
  }

  /** RecordStageTimestamp: a closed recorder returns at once. */
  function RecordEvent(s: State): State
    requires s.worker.Taken?
  {
    var target := s.worker.target;
    s.(worker := Handled(s.worker.event),
       recorded := if target.Some? && target.value !in s.closed then s.recorded + {(|s.processed|, target.value)}
                   else s.recorded)
  }

  /** The last critical section of the worker's loop. */
  function FinishEvent(s: State): State
    requires s.worker.Handled?
  {
    var c := s.worker.event.channel;
    var left := if Get(s.inFlight, c) > 0 then Get(s.inFlight, c) - 1 else 0;
    var inFlight := if c !in s.inFlight then s.inFlight
                    else if left == 0 then s.inFlight - {c} else s.inFlight[c := left];
    var active := if s.active > 0 then s.active - 1 else 0;
    var notify := (c in s.inFlight && left == 0) || (s.events == [] && active == 0);
    s.(inFlight := inFlight, active := active, worker := Awake,
       clients := if notify then Wake(s.clients) else s.clients,
       processed := s.processed + [s.worker.event])
  }

  // The invariant

  ghost function QueuedFor(events: seq<Event>, c: Channel): nat {
    if events == [] then 0 else (if events[0].channel == c then 1 else 0) + QueuedFor(events[1..], c)
  }

  ghost function HeldFor(w: Worker, c: Channel): nat {
    if (w.Taken? || w.Handled?) && w.event.channel == c then 1 else 0
  }

  /** Each channel's count is its queued events and the one the worker holds. */
  ghost predicate CountsOk(s: State) {
    && (forall c: Channel {:trigger QueuedFor(s.events, c)} ::
          Get(s.inFlight, c) == QueuedFor(s.events, c) + HeldFor(s.worker, c))
    && s.active == |Held(s.worker)|
  }

  /** Processed events, the worker's event and the queue are the accepted events in order. */
  ghost predicate OrderOk(s: State) {
    && s.accepted == s.processed + Held(s.worker) + s.events
    && (forall t :: 0 <= t < |s.clients| && s.clients[t].Flushing? ==> s.clients[t].submitted <= |s.accepted|)
  }

  /** Nobody sleeps whose condition holds. */
  ghost predicate NoLostWakeUp(s: State) {
    && (s.worker.Asleep? ==> s.events == [] && !s.stop)
    && (forall t :: 0 <= t < |s.clients| && s.clients[t].Flushing? && s.clients[t].asleep ==> !AllIdle(s))
    && (forall t :: 0 <= t < |s.clients| && s.clients[t].Waiting? && s.clients[t].asleep ==>
          0 < Get(s.inFlight, s.clients[t].channel))
  }

  ghost predicate IsCurrent(s: State, c: Channel, r: Recorder) { c in s.channels && s.channels[c].recorder == r }

  /** A recorder in use belongs to one channel and is neither closed nor about to be. */
  ghost predicate RecordersOk(s: State) {
    && (forall c :: c in s.channels ==> s.channels[c].recorder < s.recorders && s.channels[c].recorder !in s.closed)
    && (forall c, d :: c in s.channels && d in s.channels && c != d ==>
          s.channels[c].recorder != s.channels[d].recorder)
    && (forall r :: r in s.closed ==> r < s.recorders)
    && (forall t :: 0 <= t < |s.clients| && s.clients[t].Closing? ==> s.clients[t].recorder < s.recorders)
    && (forall t, c :: 0 <= t < |s.clients| && s.clients[t].Closing? && c in s.channels ==>
          s.channels[c].recorder != s.clients[t].recorder)
  }

  /** Only events up to the one just handled have been recorded. */
  ghost predicate LogOk(s: State) {
    forall p :: p in s.recorded ==> p.0 < |s.processed| + if s.worker.Handled? then 1 else 0
  }

  ghost predicate Inv(s: State) { CountsOk(s) && OrderOk(s) && NoLostWakeUp(s) && RecordersOk(s) && LogOk(s) }

  ghost predicate Init(s: State) {
    && s.channels == map[] && s.recorders == 0 && s.closed == {} && s.inFlight == map[] && s.events == []
    && s.active == 0 && !s.stop && s.worker == NotStarted && s.accepted == [] && s.processed == [] && s.recorded == {}
    && (forall t :: 0 <= t < |s.clients| ==> s.clients[t].Idle?)
  }

  lemma {:induction false} QueuedAppend(events: seq<Event>, e: Event, c: Channel)
    ensures QueuedFor(events + [e], c) == QueuedFor(events, c) + if e.channel == c then 1 else 0
  {
    if events == [] {
      assert [e][1..] == [];
    } else {
      assert (events + [e])[1..] == events[1..] + [e];
      QueuedAppend(events[1..], e, c);
    }
  }

  /** A step that changes neither queue nor worker in what they count. */
  lemma SameCounts(s: State, s': State)
    requires CountsOk(s) && s'.inFlight == s.inFlight && s'.events == s.events && s'.active == s.active
    requires Held(s'.worker) == Held(s.worker)
    ensures CountsOk(s')
  {
    forall c: Channel ensures Get(s'.inFlight, c) == QueuedFor(s'.events, c) + HeldFor(s'.worker, c) {
      assert Get(s.inFlight, c) == QueuedFor(s.events, c) + HeldFor(s.worker, c);
      assert Held(s.worker) != [] ==> Held(s.worker)[0] == Held(s'.worker)[0];
    }
  }

  lemma QueueKeepsCounts(s: State, a: Action)
    requires Inv(s) && Enabled(s, a) && (a.Submit? || a.WorkerCheck? || a.WorkerDone?)
    ensures CountsOk(Do(s, a))
  {
    var s' := Do(s, a);
    forall c: Channel ensures Get(s'.inFlight, c) == QueuedFor(s'.events, c) + HeldFor(s'.worker, c) {
      assert Get(s.inFlight, c) == QueuedFor(s.events, c) + HeldFor(s.worker, c);
      if a.Submit? && a.channel in s.channels {
        QueuedAppend(s.events, Event(a.channel, s.channels[a.channel].recorder), c);
      }
    }
  }

  lemma OtherKeepsCounts(s: State, a: Action)
    requires Inv(s) && Enabled(s, a) && (a.Register? || a.Stop? || a.WorkerSpurious? || a.WorkerRecord?)
    ensures CountsOk(Do(s, a))
  {
    SameCounts(s, Do(s, a));
  }

  predicate IsClientStep(a: Action) {
    a.CallFlush? || a.CallUnregister? || a.Check? || a.Spurious? || a.Erase? || a.Close?
  }

  /** A client changes its own state, and the registrations and closed recorders. */
  lemma ClientStep(s: State, a: Action)
    requires Enabled(s, a) && IsClientStep(a)
    ensures Do(s, a) == s.(clients := Do(s, a).clients, channels := Do(s, a).channels, closed := Do(s, a).closed)
    ensures a.t < |s.clients| && Do(s, a).clients == s.clients[a.t := Do(s, a).clients[a.t]]
    ensures Do(s, a).clients[a.t].Flushing? ==>
              (s.clients[a.t].Flushing? && Do(s, a).clients[a.t].submitted == s.clients[a.t].submitted)
              || Do(s, a).clients[a.t].submitted == |s.accepted|
  {
  }

  lemma StepKeepsCounts(s: State, a: Action)
    requires Inv(s) && Enabled(s, a)
    ensures CountsOk(Do(s, a))
  {
    if a.Submit? || a.WorkerCheck? || a.WorkerDone? {
      QueueKeepsCounts(s, a);
    } else if IsClientStep(a) {
      ClientStep(s, a);
      SameCounts(s, Do(s, a));
    } else {
      OtherKeepsCounts(s, a);
    }
  }

  lemma WorkerKeepsOrder(s: State, a: Action)
    requires Inv(s) && Enabled(s, a) && (a.WorkerCheck? || a.WorkerRecord? || a.WorkerDone?)
    ensures OrderOk(Do(s, a)) && LogOk(Do(s, a))
  {
  }

  lemma SubmitKeepsOrder(s: State, c: Channel)
    requires Inv(s)
    ensures OrderOk(SubmitEvent(s, c)) && LogOk(SubmitEvent(s, c))
  {
  }

  lemma ClientKeepsOrder(s: State, s': State, t: nat)
    requires OrderOk(s) && LogOk(s) && t < |s.clients| && t < |s'.clients|
    requires s' == s.(clients := s.clients[t := s'.clients[t]], channels := s'.channels, closed := s'.closed)
    requires s'.clients[t].Flushing? ==>
               (s.clients[t].Flushing? && s'.clients[t].submitted == s.clients[t].submitted)
               || s'.clients[t].submitted == |s.accepted|
    ensures OrderOk(s') && LogOk(s')
  {
  }

  lemma OtherKeepsOrder(s: State, a: Action)
    requires Inv(s) && Enabled(s, a) && (a.Register? || a.Stop? || a.WorkerSpurious?)
    ensures OrderOk(Do(s, a)) && LogOk(Do(s, a))
  {
  }

  lemma StepKeepsOrder(s: State, a: Action)
    requires Inv(s) && Enabled(s, a)
    ensures OrderOk(Do(s, a)) && LogOk(Do(s, a))
  {
    if a.WorkerCheck? || a.WorkerRecord? || a.WorkerDone? {
      WorkerKeepsOrder(s, a);
    } else if a.Submit? {
      SubmitKeepsOrder(s, a.channel);
    } else if IsClientStep(a) {
      ClientStep(s, a);
      ClientKeepsOrder(s, Do(s, a), a.t);
    } else {
      OtherKeepsOrder(s, a);
    }
  }

  /** A step that ends with every client awake that its changes could concern. */
  lemma DoneKeepsWakeUps(s: State)
    requires Inv(s) && s.worker.Handled?
    ensures NoLostWakeUp(FinishEvent(s))
  {
    var s' := FinishEvent(s);
    var c := s.worker.event.channel;
    assert Get(s.inFlight, c) == QueuedFor(s.events, c) + HeldFor(s.worker, c);
    forall t | 0 <= t < |s'.clients| && s'.clients[t].Waiting? && s'.clients[t].asleep
      ensures 0 < Get(s'.inFlight, s'.clients[t].channel)
    {
      assert s'.clients[t] == s.clients[t];
    }
    forall t | 0 <= t < |s'.clients| && s'.clients[t].Flushing? && s'.clients[t].asleep
      ensures !AllIdle(s')
    {
      assert s'.clients[t] == s.clients[t];
    }
  }

  lemma SubmitKeepsWakeUps(s: State, c: Channel)
    requires Inv(s)
    ensures NoLostWakeUp(SubmitEvent(s, c))
  {
  }

  /** A step of one client that does not touch the queue. */
  lemma ClientKeepsWakeUps(s: State, s': State, t: nat)
    requires Inv(s) && t < |s.clients| == |s'.clients| && s'.clients == s.clients[t := s'.clients[t]]
    requires s'.events == s.events && s'.inFlight == s.inFlight && s'.active == s.active
    requires s'.stop == s.stop && s'.worker == s.worker
    requires s'.clients[t].Flushing? && s'.clients[t].asleep ==> !AllIdle(s)
    requires s'.clients[t].Waiting? && s'.clients[t].asleep ==> 0 < Get(s.inFlight, s'.clients[t].channel)
    ensures NoLostWakeUp(s')
  {
  }

  lemma CheckKeepsWakeUps(s: State, t: nat)
    requires Inv(s) && Enabled(s, Check(t))
    ensures NoLostWakeUp(CheckWait(s, t))
  {
    ClientKeepsWakeUps(s, CheckWait(s, t), t);
  }

  lemma WaiterKeepsWakeUps(s: State, a: Action)
    requires Inv(s) && Enabled(s, a) && (a.CallFlush? || a.Spurious?)
    ensures NoLostWakeUp(Do(s, a))
  {
    ClientKeepsWakeUps(s, Do(s, a), a.t);
  }

  lemma UnregisterKeepsWakeUps(s: State, a: Action)
    requires Inv(s) && Enabled(s, a) && (a.CallUnregister? || a.Erase? || a.Close?)
    ensures NoLostWakeUp(Do(s, a))
  {
    ClientKeepsWakeUps(s, Do(s, a), a.t);
  }

  lemma StepKeepsWakeUps(s: State, a: Action)
    requires Inv(s) && Enabled(s, a)
    ensures NoLostWakeUp(Do(s, a))
  {
    if a.Check? {
      CheckKeepsWakeUps(s, a.t);
    } else if a.CallFlush? || a.Spurious? {
      WaiterKeepsWakeUps(s, a);
    } else if a.CallUnregister? || a.Erase? || a.Close? {
      UnregisterKeepsWakeUps(s, a);
    } else if a.Submit? {
      SubmitKeepsWakeUps(s, a.channel);
    } else if a.WorkerDone? {
      DoneKeepsWakeUps(s);
    }
  }

  /** A step that leaves the recorder of every channel, and puts no client in front of a close. */
  lemma SameRecorders(s: State, s': State)
    requires RecordersOk(s) && s'.recorders == s.recorders && s'.closed == s.closed
    requires forall c: Channel :: c in s'.channels <==> c in s.channels
    requires forall c: Channel :: c in s.channels ==> s'.channels[c].recorder == s.channels[c].recorder
    requires |s'.clients| == |s.clients|
    requires forall t :: 0 <= t < |s'.clients| && s'.clients[t].Closing? ==> s.clients[t] == s'.clients[t]
    ensures RecordersOk(s')
  {
  }

  lemma RegisterKeepsRecorders(s: State, c: Channel)
    requires RecordersOk(s)
    ensures RecordersOk(RegisterChannel(s, c))
  {
    if c in s.channels {
      SameRecorders(s, RegisterChannel(s, c));
    }
  }

  lemma UnregisterKeepsRecorders(s: State, t: nat, c: Channel)
    requires RecordersOk(s) && t < |s.clients|
    ensures RecordersOk(Unregister(s, t, c))
  {
    SameRecorders(s, Unregister(s, t, c));
  }

  lemma EraseKeepsRecorders(s: State, t: nat)
    requires RecordersOk(s) && Enabled(s, Erase(t))
    ensures RecordersOk(EraseChannel(s, t))
  {
  }

  lemma CloseKeepsRecorders(s: State, t: nat)
    requires RecordersOk(s) && Enabled(s, Close(t))
    ensures RecordersOk(Do(s, Close(t)))
  {
    var s' := Do(s, Close(t));
    assert s'.closed == s.closed + {s.clients[t].recorder} && s'.clients == s.clients[t := Idle];
  }

  lemma WaiterKeepsRecorders(s: State, a: Action)
    requires RecordersOk(s) && Enabled(s, a) && (a.CallFlush? || a.Check? || a.Spurious?)
    ensures RecordersOk(Do(s, a))
  {
    SameRecorders(s, Do(s, a));
  }

  lemma OtherKeepsRecorders(s: State, a: Action)
    requires RecordersOk(s) && Enabled(s, a) && !IsClientStep(a) && !a.Register?
    ensures RecordersOk(Do(s, a))
  {
    SameRecorders(s, Do(s, a));
  }

  lemma StepKeepsRecorders(s: State, a: Action)
    requires Inv(s) && Enabled(s, a)
    ensures RecordersOk(Do(s, a))
  {
    match a {
      case Register(c) => RegisterKeepsRecorders(s, c);
      case CallUnregister(t, c) => UnregisterKeepsRecorders(s, t, c);
      case Erase(t) => EraseKeepsRecorders(s, t);
      case Close(t) => CloseKeepsRecorders(s, t);
      case CallFlush(t) => WaiterKeepsRecorders(s, a);
      case Check(t) => WaiterKeepsRecorders(s, a);
      case Spurious(t) => WaiterKeepsRecorders(s, a);
      case _ => OtherKeepsRecorders(s, a);
    }
  }

  lemma StepKeepsInv(s: State, a: Action)
    requires Inv(s) && Enabled(s, a)
    ensures Inv(Do(s, a))
  {
    StepKeepsCounts(s, a);
    StepKeepsOrder(s, a);
    StepKeepsWakeUps(s, a);
    StepKeepsRecorders(s, a);
  }

  // Whole runs

  ghost predicate IsStep(s: State, a: Action, s': State) { Enabled(s, a) && s' == Do(s, a) }

  ghost predicate IsRun(ss: seq<State>, actions: seq<Action>) {
    && |ss| == |actions| + 1 && Init(ss[0])
    && forall i :: 0 <= i < |actions| ==> IsStep(ss[i], actions[i], ss[i + 1])
  }

  lemma {:induction false} RunKeepsInv(ss: seq<State>, actions: seq<Action>, i: nat)
    requires IsRun(ss, actions) && i < |ss|
    ensures Inv(ss[i])
  {
    if i == 0 {
      forall c: Channel ensures Get(ss[0].inFlight, c) == QueuedFor(ss[0].events, c) + HeldFor(ss[0].worker, c) {
      }
    } else {
      RunKeepsInv(ss, actions, i - 1);
      assert IsStep(ss[i - 1], actions[i - 1], ss[i]);
      StepKeepsInv(ss[i - 1], actions[i - 1]);
    }
  }

  /** A channel's in-flight count is the number of its events that are queued or with the worker. */
  lemma InFlightIsOutstanding(ss: seq<State>, actions: seq<Action>, i: nat, c: Channel)
    requires IsRun(ss, actions) && i < |ss|
    ensures Get(ss[i].inFlight, c) == QueuedFor(ss[i].events, c) + HeldFor(ss[i].worker, c)
  {
    RunKeepsInv(ss, actions, i);
    assert Get(ss[i].inFlight, c) == QueuedFor(ss[i].events, c) + HeldFor(ss[i].worker, c);
  }

  /** Events are processed in the order of submission, each once: what is processed, then the event with the
      worker, then the queue are exactly the accepted events. */
  lemma ProcessedInOrder(ss: seq<State>, actions: seq<Action>, i: nat)
    requires IsRun(ss, actions) && i < |ss|
    ensures ss[i].accepted == ss[i].processed + Held(ss[i].worker) + ss[i].events
  {
    RunKeepsInv(ss, actions, i);
  }

  /** When Flush returns, everything submitted before it was called has been processed. */
  lemma FlushMeansProcessed(ss: seq<State>, actions: seq<Action>, i: nat, t: nat)
    requires IsRun(ss, actions) && i < |actions| && actions[i] == Check(t)
    requires t < |ss[i].clients| && ss[i].clients[t].Flushing? && ss[i + 1].clients[t] == Idle
    ensures ss[i].clients[t].submitted <= |ss[i].processed| && ss[i].processed == ss[i].accepted
  {
    RunKeepsInv(ss, actions, i);
    assert IsStep(ss[i], actions[i], ss[i + 1]);
  }

  /** No thread is blocked while what it waits for holds. */
  lemma NobodySleepsInVain(ss: seq<State>, actions: seq<Action>, i: nat)
    requires IsRun(ss, actions) && i < |ss|
    ensures ss[i].worker.Asleep? ==> ss[i].events == [] && !ss[i].stop
    ensures forall t :: 0 <= t < |ss[i].clients| ==>
              match ss[i].clients[t]
              case Flushing(true, _) => !AllIdle(ss[i])
              case Waiting(true, c) => 0 < QueuedFor(ss[i].events, c) + HeldFor(ss[i].worker, c)
              case _ => true
  {
    RunKeepsInv(ss, actions, i);
    forall t | 0 <= t < |ss[i].clients| && ss[i].clients[t].Waiting?
      ensures Get(ss[i].inFlight, ss[i].clients[t].channel)
           == QueuedFor(ss[i].events, ss[i].clients[t].channel) + HeldFor(ss[i].worker, ss[i].clients[t].channel)
    {
    }
  }

  /** Flush returns if and only if everything accepted is processed, and otherwise goes to sleep. */
  lemma FlushReturnsIff(ss: seq<State>, actions: seq<Action>, i: nat, t: nat)
    requires IsRun(ss, actions) && i < |actions| && actions[i] == Check(t)
    requires t < |ss[i].clients| && ss[i].clients[t].Flushing?
    ensures t < |ss[i + 1].clients|
    ensures ss[i + 1].clients[t] == if ss[i].processed == ss[i].accepted then Idle
                                    else Flushing(true, ss[i].clients[t].submitted)
  {
    RunKeepsInv(ss, actions, i);
    assert IsStep(ss[i], actions[i], ss[i + 1]);
    assert |ss[i].accepted| == |ss[i].processed| + |Held(ss[i].worker)| + |ss[i].events|;
  }

  /** UnregisterChannel goes on to erase if and only if no event of its channel is queued or with the worker, and
      otherwise goes to sleep. */
  lemma WaitEndsIff(ss: seq<State>, actions: seq<Action>, i: nat, t: nat, c: Channel)
    requires IsRun(ss, actions) && i < |actions| && actions[i] == Check(t)
    requires t < |ss[i].clients| && ss[i].clients[t] == Waiting(false, c)
    ensures t < |ss[i + 1].clients|
    ensures ss[i + 1].clients[t] ==
            if QueuedFor(ss[i].events, c) + HeldFor(ss[i].worker, c) == 0 then Erasing(c) else Waiting(true, c)
  {
    InFlightIsOutstanding(ss, actions, i, c);
    assert IsStep(ss[i], actions[i], ss[i + 1]);
  }

  /** The worker wakes the waiting clients exactly when it has processed the last event of a channel, or of all. */
  lemma WakesIff(ss: seq<State>, actions: seq<Action>, i: nat)
    requires IsRun(ss, actions) && i < |actions| && actions[i] == WorkerDone
    ensures ss[i].worker.Handled?
    ensures var c := ss[i].worker.event.channel;
            ss[i + 1].clients ==
            if QueuedFor(ss[i].events, c) == 0 || ss[i].events == [] then Wake(ss[i].clients) else ss[i].clients
  {
    RunKeepsInv(ss, actions, i);
    assert IsStep(ss[i], actions[i], ss[i + 1]);
    var c := ss[i].worker.event.channel;
    assert Get(ss[i].inFlight, c) == QueuedFor(ss[i].events, c) + HeldFor(ss[i].worker, c);
  }

  /** The worker alone takes the oldest event and processes it. */
  lemma UndisturbedWorker(s: State)
    requires Inv(s) && s.worker.Awake? && s.events != []
    ensures var s1 := Do(s, WorkerCheck);
            Inv(s1) && s1.worker.Taken? && s1.worker.event == s.events[0] &&
            var s2 := Do(s1, WorkerRecord);
            Inv(s2) && s2.worker.Handled? &&
            var s3 := Do(s2, WorkerDone);
            && Inv(s3) && s3.worker == Awake && s3.events == s.events[1..] && s3.active == 0
            && s3.processed == s.processed + [s.events[0]] && s3.accepted == s.accepted
  {
    var s1 := Do(s, WorkerCheck);
    StepKeepsInv(s, WorkerCheck);
    var s2 := Do(s1, WorkerRecord);
    StepKeepsInv(s1, WorkerRecord);
    StepKeepsInv(s2, WorkerDone);
  }

  // Which events are recorded

  ghost predicate ErasesChannel(s: State, a: Action, c: Channel) {
    a.Erase? && a.t < |s.clients| && s.clients[a.t] == Erasing(c)
  }

  ghost predicate ClosesRecorder(s: State, a: Action, r: Recorder) {
    a.Close? && a.t < |s.clients| && s.clients[a.t] == Closing(r)
  }

  /** From state i to state j no step erases channel `c`. */
  ghost predicate NoErase(ss: seq<State>, actions: seq<Action>, i: nat, j: nat, c: Channel)
    requires j <= |ss| && j <= |actions|
    decreases j
  {
    i < j ==> NoErase(ss, actions, i, j - 1, c) && !ErasesChannel(ss[j - 1], actions[j - 1], c)
  }

  /** From state i to state j no step closes recorder `r`. */
  ghost predicate NoClose(ss: seq<State>, actions: seq<Action>, i: nat, j: nat, r: Recorder)
    requires j <= |ss| && j <= |actions|
    decreases j
  {
    i < j ==> NoClose(ss, actions, i, j - 1, r) && !ClosesRecorder(ss[j - 1], actions[j - 1], r)
  }

  lemma {:induction false} NoEraseIff(ss: seq<State>, actions: seq<Action>, i: nat, j: nat, c: Channel)
    requires j <= |ss| && j <= |actions|
    ensures NoErase(ss, actions, i, j, c) <==> forall k :: i <= k < j ==> !ErasesChannel(ss[k], actions[k], c)
    decreases j
  {
    if i < j {
      NoEraseIff(ss, actions, i, j - 1, c);
    }
  }

  lemma {:induction false} NoCloseIff(ss: seq<State>, actions: seq<Action>, i: nat, j: nat, r: Recorder)
    requires j <= |ss| && j <= |actions|
    ensures NoClose(ss, actions, i, j, r) <==> forall k :: i <= k < j ==> !ClosesRecorder(ss[k], actions[k], r)
    decreases j
  {
    if i < j {
      NoCloseIff(ss, actions, i, j - 1, r);
    }
  }

  /** Whether a recorder is current changes only by an erase, and once it is not it never is again. */
  lemma CurrentAfterStep(s: State, a: Action, c: Channel, r: Recorder)
    requires Inv(s) && Enabled(s, a) && r < s.recorders
    ensures IsCurrent(Do(s, a), c, r) <==> IsCurrent(s, c, r) && !ErasesChannel(s, a, c)
    ensures r < Do(s, a).recorders
  {
  }

  lemma CurrentAtStep(ss: seq<State>, actions: seq<Action>, i: nat, c: Channel, r: Recorder)
    requires IsRun(ss, actions) && i < |actions| && r < ss[i].recorders
    ensures IsCurrent(ss[i + 1], c, r) <==> IsCurrent(ss[i], c, r) && !ErasesChannel(ss[i], actions[i], c)
    ensures r < ss[i + 1].recorders
  {
    RunKeepsInv(ss, actions, i);
    assert IsStep(ss[i], actions[i], ss[i + 1]);
    CurrentAfterStep(ss[i], actions[i], c, r);
  }

  /** The recorder of a channel is in use until the channel is erased. */
  lemma {:induction false} CurrentIff(ss: seq<State>, actions: seq<Action>, i: nat, j: nat, c: Channel, r: Recorder)
    requires IsRun(ss, actions) && i <= j < |ss| && IsCurrent(ss[i], c, r)
    ensures IsCurrent(ss[j], c, r) <==> NoErase(ss, actions, i, j, c)
    ensures r < ss[j].recorders
    decreases j
  {
    if i < j {
      CurrentIff(ss, actions, i, j - 1, c, r);
      CurrentAtStep(ss, actions, j - 1, c, r);
    } else {
      RunKeepsInv(ss, actions, i);
    }
  }

  lemma ClosedAfterStep(s: State, a: Action, s': State, r: Recorder)
    requires IsStep(s, a, s')
    ensures r !in s'.closed <==> r !in s.closed && !ClosesRecorder(s, a, r)
  {
  }

  lemma {:induction false} ClosedIff(ss: seq<State>, actions: seq<Action>, i: nat, j: nat, r: Recorder)
    requires IsRun(ss, actions) && i <= j < |ss| && r !in ss[i].closed
    ensures r !in ss[j].closed <==> NoClose(ss, actions, i, j, r)
    decreases j
  {
    if i < j {
      ClosedIff(ss, actions, i, j - 1, r);
      ClosedAfterStep(ss[j - 1], actions[j - 1], ss[j], r);
    }
  }

  /** Accepted and processed events only grow. */
  lemma {:induction false} HistoryGrows(ss: seq<State>, actions: seq<Action>, i: nat, j: nat)
    requires IsRun(ss, actions) && i <= j < |ss|
    ensures ss[i].accepted <= ss[j].accepted && ss[i].processed <= ss[j].processed
    decreases j
  {
    if i < j {
      HistoryGrows(ss, actions, i, j - 1);
      assert IsStep(ss[j - 1], actions[j - 1], ss[j]);
    }
  }

  /** From the moment an event is taken until it is accounted for, the worker keeps it and its target. */
  lemma {:induction false} TakenStays(ss: seq<State>, actions: seq<Action>, j: nat, m: nat)
    requires IsRun(ss, actions) && j < m < |ss| && ss[j + 1].worker.Taken? && |ss[m].processed| == |ss[j].processed|
    ensures ss[m].worker == ss[j + 1].worker || ss[m].worker == Handled(ss[j + 1].worker.event)
    decreases m
  {
    if j + 1 < m {
      HistoryGrows(ss, actions, j, m - 1);
      HistoryGrows(ss, actions, m - 1, m);
      TakenStays(ss, actions, j, m - 1);
      assert IsStep(ss[m - 1], actions[m - 1], ss[m]);
    }
  }

  /** Step i accepts event number `n`, step j takes it, and step m is its call of RecordStageTimestamp. */
  ghost predicate LifeOf(ss: seq<State>, actions: seq<Action>, n: nat, i: nat, j: nat, m: nat) {
    && i < j < m < |actions| && |ss| == |actions| + 1
    && actions[i].Submit? && actions[i].channel in ss[i].channels && |ss[i].accepted| == n
    && actions[j] == WorkerCheck && ss[j].events != [] && |ss[j].processed| == n
    && actions[m] == WorkerRecord && |ss[m].processed| == n
  }

  /** What the worker holds at the recording: the event as submitted, and the recorder of its channel when taken. */
  lemma TakenIsAccepted(ss: seq<State>, actions: seq<Action>, n: nat, i: nat, j: nat, m: nat)
    requires IsRun(ss, actions) && LifeOf(ss, actions, n, i, j, m)
    ensures var c := actions[i].channel;
            && ss[m].worker.Taken? && ss[m].worker.event == Event(c, ss[i].channels[c].recorder)
            && ss[m].worker.target == if c in ss[j].channels then Some(ss[j].channels[c].recorder) else None
  {
    assert IsStep(ss[i], actions[i], ss[i + 1]) && IsStep(ss[j], actions[j], ss[j + 1])
        && IsStep(ss[m], actions[m], ss[m + 1]);
    HistoryGrows(ss, actions, i + 1, j);
    RunKeepsInv(ss, actions, j);
    assert ss[j].accepted[n] == ss[j].events[0];
    assert ss[i + 1].accepted[n] == ss[j].accepted[n];
    TakenStays(ss, actions, j, m);
  }

  lemma RecordStep(s: State, s': State, n: nat, r: Recorder)
    requires IsStep(s, WorkerRecord, s') && LogOk(s) && n == |s.processed|
    ensures (n, r) in s'.recorded <==> s.worker.target == Some(r) && r !in s.closed
  {
  }

  /** An accepted event is recorded by the recorder it was accepted for if and only if its channel is not erased
      before the worker takes it and that recorder is not closed before the worker calls it. */
  lemma RecordedIff(ss: seq<State>, actions: seq<Action>, n: nat, i: nat, j: nat, m: nat)
    requires IsRun(ss, actions) && LifeOf(ss, actions, n, i, j, m)
    ensures var c := actions[i].channel;
            var r := ss[i].channels[c].recorder;
            (n, r) in ss[m + 1].recorded <==> NoErase(ss, actions, i, j, c) && NoClose(ss, actions, i, m, r)
  {
    var c := actions[i].channel;
    var r := ss[i].channels[c].recorder;
    RunKeepsInv(ss, actions, i);
    RunKeepsInv(ss, actions, m);
    TakenIsAccepted(ss, actions, n, i, j, m);
    CurrentIff(ss, actions, i, j, c, r);
    ClosedIff(ss, actions, i, m, r);
    RecordStep(ss[m], ss[m + 1], n, r);
  }

  lemma CurrentIsNotClosing(s: State, a: Action, c: Channel, r: Recorder)
    requires Inv(s) && IsCurrent(s, c, r)
    ensures !ClosesRecorder(s, a, r)
  {
  }

  /** A recorder is closed only after its channel was erased. */
  lemma {:induction false} CloseNeedsErase(ss: seq<State>, actions: seq<Action>, i: nat, m: nat, c: Channel,
                                           r: Recorder)
    requires IsRun(ss, actions) && i <= m < |ss| && IsCurrent(ss[i], c, r) && NoErase(ss, actions, i, m, c)
    ensures NoClose(ss, actions, i, m, r)
    decreases m
  {
    if i < m {
      CloseNeedsErase(ss, actions, i, m - 1, c, r);
      CurrentIff(ss, actions, i, m - 1, c, r);
      RunKeepsInv(ss, actions, m - 1);
      CurrentIsNotClosing(ss[m - 1], actions[m - 1], c, r);
    }
  }

  /** An event whose channel is not erased between its submission and its recording is recorded. */
  lemma RecordedWithoutErase(ss: seq<State>, actions: seq<Action>, n: nat, i: nat, j: nat, m: nat)
    requires IsRun(ss, actions) && LifeOf(ss, actions, n, i, j, m)
    requires NoErase(ss, actions, i, m, actions[i].channel)
    ensures (n, ss[i].channels[actions[i].channel].recorder) in ss[m + 1].recorded
  {
    var c := actions[i].channel;
    var r := ss[i].channels[c].recorder;
    NoEraseIff(ss, actions, i, m, c);
    NoEraseIff(ss, actions, i, j, c);
    CloseNeedsErase(ss, actions, i, m, c, r);
    RecordedIff(ss, actions, n, i, j, m);
  }

  // What a caller can see to: no event of the channel is queued or with the worker when it is erased

  /** Channels are erased only with an in-flight count of zero. */
  ghost predicate ErasesIdle(s: State, a: Action)
    requires Enabled(s, a)
  {
    a.Erase? ==> Get(s.inFlight, s.clients[a.t].channel) == 0
  }

  /** Every event up to the queue is recorded by its recorder or on the way to it. */
  ghost predicate AllRecorded(s: State) {
    && (forall n :: 0 <= n < |s.processed| ==> (n, s.processed[n].recorder) in s.recorded)
    && (s.worker.Handled? ==> (|s.processed|, s.worker.event.recorder) in s.recorded)
    && (s.worker.Taken? ==> s.worker.target == Some(s.worker.event.recorder))
    && (s.worker.Taken? ==> IsCurrent(s, s.worker.event.channel, s.worker.event.recorder))
    && forall i :: 0 <= i < |s.events| ==> IsCurrent(s, s.events[i].channel, s.events[i].recorder)
  }

  lemma {:induction false} NoneQueued(events: seq<Event>, c: Channel)
    ensures QueuedFor(events, c) == 0 <==> forall i :: 0 <= i < |events| ==> events[i].channel != c
  {
    if events != [] {
      NoneQueued(events[1..], c);
      assert forall i :: 1 <= i < |events| ==> events[i] == events[1..][i - 1];
      assert forall i :: 0 <= i < |events| - 1 ==> events[1..][i] == events[i + 1];
    }
  }

  /** A step that leaves worker and queue alone and keeps the recorders of outstanding events current. */
  lemma ChannelsKeepAll(s: State, s': State)
    requires AllRecorded(s) && s'.processed == s.processed && s'.recorded == s.recorded && s'.events == s.events
    requires s'.worker == s.worker || (!s.worker.Taken? && !s.worker.Handled? && s'.worker.Awake?)
    requires forall c, r :: IsCurrent(s, c, r) && 0 < QueuedFor(s.events, c) + HeldFor(s.worker, c) ==>
               IsCurrent(s', c, r)
    ensures AllRecorded(s')
  {
    forall i | 0 <= i < |s.events| ensures 0 < QueuedFor(s.events, s.events[i].channel) {
      NoneQueued(s.events, s.events[i].channel);
    }
  }

  lemma SubmitKeepsAll(s: State, c: Channel)
    requires AllRecorded(s)
    ensures AllRecorded(SubmitEvent(s, c))
  {
  }

  lemma WorkerKeepsAll(s: State, a: Action)
    requires Inv(s) && Enabled(s, a) && AllRecorded(s)
    requires a.WorkerCheck? || a.WorkerRecord? || a.WorkerDone?
    ensures AllRecorded(Do(s, a))
  {
  }

  lemma EraseKeepsAll(s: State, t: nat)
    requires Inv(s) && Enabled(s, Erase(t)) && AllRecorded(s) && ErasesIdle(s, Erase(t))
    ensures AllRecorded(EraseChannel(s, t))
  {
    var c := s.clients[t].channel;
    assert Get(s.inFlight, c) == QueuedFor(s.events, c) + HeldFor(s.worker, c);
    ChannelsKeepAll(s, EraseChannel(s, t));
  }

  lemma ClientKeepsAll(s: State, a: Action)
    requires Enabled(s, a) && AllRecorded(s)
    requires a.CallFlush? || a.Check? || a.Spurious? || a.Close? || a.CallUnregister?
    ensures AllRecorded(Do(s, a))
  {
    ChannelsKeepAll(s, Do(s, a));
  }

  lemma OtherKeepsAll(s: State, a: Action)
    requires Enabled(s, a) && AllRecorded(s) && (a.Register? || a.Stop? || a.WorkerSpurious?)
    ensures AllRecorded(Do(s, a))
  {
    ChannelsKeepAll(s, Do(s, a));
  }

  lemma IdleEraseKeepsAll(s: State, a: Action)
    requires Inv(s) && Enabled(s, a) && AllRecorded(s) && ErasesIdle(s, a)
    ensures AllRecorded(Do(s, a))
  {
    if a.Submit? {
      SubmitKeepsAll(s, a.channel);
    } else if a.WorkerCheck? || a.WorkerRecord? || a.WorkerDone? {
      WorkerKeepsAll(s, a);
    } else if a.Erase? {
      EraseKeepsAll(s, a.t);
    } else if a.Register? || a.Stop? || a.WorkerSpurious? {
      OtherKeepsAll(s, a);
    } else {
      ClientKeepsAll(s, a);
    }
  }

  /** In a run that erases channels only with nothing queued or held for them, every event that has been processed
      was recorded by the recorder it was accepted for. */
  lemma {:induction false} IdleErasesRecordAll(ss: seq<State>, actions: seq<Action>, i: nat)
    requires IsRun(ss, actions) && i < |ss|
    requires forall j :: 0 <= j < |actions| ==> Enabled(ss[j], actions[j]) && ErasesIdle(ss[j], actions[j])
    ensures AllRecorded(ss[i])
  {
    if i > 0 {
      IdleErasesRecordAll(ss, actions, i - 1);
      RunKeepsInv(ss, actions, i - 1);
      assert IsStep(ss[i - 1], actions[i - 1], ss[i]);
      IdleEraseKeepsAll(ss[i - 1], actions[i - 1]);
    }
  }

  // Two runs that drop an accepted event

  ghost function Start(): State {
    State(map[], 0, {}, map[], [], 0, false, NotStarted, [Idle], [], [], {})
  }

  /** The states of both runs up to the erase: channel 5 is registered, a client unregisters it and finds it idle,
      and then an event is submitted. */
  ghost function Opening(i: nat): State {
    var s := Start().(channels := if i == 0 then map[] else map[5 := Registration(1, 0)],
                      recorders := if i == 0 then 0 else 1,
                      worker := if i == 0 then NotStarted else Awake,
                      clients := [if i <= 1 then Idle else if i == 2 then Waiting(false, 5) else Erasing(5)]);
    if i <= 3 then s
    else s.(inFlight := map[5 := 1], events := [Event(5, 0)], accepted := [Event(5, 0)])
  }

  ghost function OpeningAction(i: nat): Action {
    if i == 0 then Register(5) else if i == 1 then CallUnregister(0, 5) else if i == 2 then Check(0) else Submit(5)
  }

  lemma OpeningStep(i: nat)
    requires i < 4
    ensures IsStep(Opening(i), OpeningAction(i), Opening(i + 1))
  {
    var next := Do(Opening(i), OpeningAction(i));
    assert next.channels == Opening(i + 1).channels && next.clients == Opening(i + 1).clients;
    assert next.events == Opening(i + 1).events && next.accepted == Opening(i + 1).accepted;
    assert next.inFlight == Opening(i + 1).inFlight;
  }

  /** The channel is erased while the event is queued: the worker then finds no recorder for it. */
  ghost function QueuedState(i: nat): State {
    if i <= 4 then Opening(i)
    else
      var s := Opening(4).(channels := map[], clients := [Closing(0)]);
      if i == 5 then s
      else
        var t := s.(events := [], active := 1, worker := Taken(Event(5, 0), None));
        if i == 6 then t else t.(worker := Handled(Event(5, 0)))
  }

  ghost function QueuedAction(i: nat): Action {
    if i <= 3 then OpeningAction(i) else if i == 4 then Erase(0) else if i == 5 then WorkerCheck else WorkerRecord
  }

  lemma QueuedStep(i: nat)
    requires i < 7
    ensures IsStep(QueuedState(i), QueuedAction(i), QueuedState(i + 1))
  {
    if i <= 3 {
      OpeningStep(i);
    } else {
      var next := Do(QueuedState(i), QueuedAction(i));
      assert next.channels == QueuedState(i + 1).channels && next.clients == QueuedState(i + 1).clients;
      assert next.events == QueuedState(i + 1).events;
    }
  }

  /** An event accepted between the wait for an idle channel and its erase is dropped. */
  lemma QueuedEventIsDropped() returns (ss: seq<State>, actions: seq<Action>)
    ensures IsRun(ss, actions) && LifeOf(ss, actions, 0, 3, 5, 6) && ss[7].recorded == {}
  {
    ss := seq(8, i requires 0 <= i => QueuedState(i));
    actions := seq(7, i requires 0 <= i => QueuedAction(i));
    forall i | 0 <= i < 7 ensures IsStep(ss[i], actions[i], ss[i + 1]) {
      QueuedStep(i);
    }
  }

  /** The worker takes the event first; the channel is erased and its recorder closed while the worker holds it. */
  ghost function HeldState(i: nat): State {
    if i <= 4 then Opening(i)
    else
      var s := Opening(4).(events := [], active := 1, worker := Taken(Event(5, 0), Some(0)));
      if i == 5 then s
      else
        var t := s.(channels := map[], clients := [if i == 6 then Closing(0) else Idle],
                    closed := if i == 6 then {} else {0});
        if i <= 7 then t else t.(worker := Handled(Event(5, 0)))
  }

  ghost function HeldAction(i: nat): Action {
    if i <= 3 then OpeningAction(i)
    else if i == 4 then WorkerCheck else if i == 5 then Erase(0) else if i == 6 then Close(0) else WorkerRecord
  }

  lemma HeldStep(i: nat)
    requires i < 8
    ensures IsStep(HeldState(i), HeldAction(i), HeldState(i + 1))
  {
    if i <= 3 {
      OpeningStep(i);
    } else {
      var next := Do(HeldState(i), HeldAction(i));
      assert next.channels == HeldState(i + 1).channels && next.clients == HeldState(i + 1).clients;
      assert next.events == HeldState(i + 1).events && next.closed == HeldState(i + 1).closed;
    }
  }

  /** An event that the worker holds when its recorder is closed is dropped, although the queue was empty then. */
  lemma HeldEventIsDropped() returns (ss: seq<State>, actions: seq<Action>)
    ensures IsRun(ss, actions) && LifeOf(ss, actions, 0, 3, 4, 7) && ss[8].recorded == {}
    ensures actions[5] == Erase(0) && ss[5].events == []
  {
    ss := seq(9, i requires 0 <= i => HeldState(i));
    actions := seq(8, i requires 0 <= i => HeldAction(i));
    forall i | 0 <= i < 8 ensures IsStep(ss[i], actions[i], ss[i + 1]) {
      HeldStep(i);
    }
  }

  // Who uses a channel

  /** What a step does to the number of users of channel `c`: an UnregisterChannel that returns at once gives one up. */
  ghost function UserChange(s: State, a: Action, s': State, c: Channel): int {
    if a == Register(c) then 1
    else if a.CallUnregister? && a.channel == c && a.t < |s'.clients| && s'.clients[a.t].Idle? then -1
    else 0
  }

  /** The users that channel `c` gained from state i to state j. */
  ghost function Users(ss: seq<State>, actions: seq<Action>, i: nat, j: nat, c: Channel): int
    requires j < |ss| == |actions| + 1
    decreases j
  {
    if j <= i then 0 else Users(ss, actions, i, j - 1, c) + UserChange(ss[j - 1], actions[j - 1], ss[j], c)
  }

  lemma RegisterStarts(s: State, c: Channel)
    requires c !in s.channels
    ensures c in RegisterChannel(s, c).channels && RegisterChannel(s, c).channels[c] == Registration(1, s.recorders)
  {
  }

  lemma RefsAfterStep(s: State, a: Action, s': State, c: Channel)
    requires IsStep(s, a, s') && c in s.channels && c in s'.channels
    ensures s'.channels[c].refs == s.channels[c].refs + UserChange(s, a, s', c)
    ensures 1 <= s.channels[c].refs ==> 1 <= s'.channels[c].refs
  {
  }

  /** In every run, from the registration that makes a channel until it is erased, its reference count is the number
      of registrations minus the number of UnregisterChannel calls that returned at once, and never less than one. */
  lemma {:induction false} RefsCountUsers(ss: seq<State>, actions: seq<Action>, i: nat, j: nat, c: Channel)
    requires IsRun(ss, actions) && i < j < |ss| && actions[i] == Register(c) && c !in ss[i].channels
    requires forall k {:trigger ss[k]} :: i < k <= j ==> c in ss[k].channels
    ensures ss[j].channels[c].refs == Users(ss, actions, i, j, c) >= 1
    decreases j
  {
    assert IsStep(ss[j - 1], actions[j - 1], ss[j]);
    if i + 1 < j {
      RefsCountUsers(ss, actions, i, j - 1, c);
      RefsAfterStep(ss[j - 1], actions[j - 1], ss[j], c);
    } else {
      RegisterStarts(ss[i], c);
      assert Users(ss, actions, i, i, c) == 0;
    }
  }

  /** An UnregisterChannel goes on to wait and erase exactly if its caller is the last user, and otherwise returns
      with the channel still in use. */
  lemma LastUserErases(ss: seq<State>, actions: seq<Action>, i: nat, j: nat, t: nat, c: Channel)
    requires IsRun(ss, actions) && i < j < |actions| && actions[i] == Register(c) && c !in ss[i].channels
    requires forall k {:trigger ss[k]} :: i < k <= j ==> c in ss[k].channels
    requires actions[j] == CallUnregister(t, c)
    ensures t < |ss[j + 1].clients|
    ensures ss[j + 1].clients[t] == if Users(ss, actions, i, j, c) == 1 then Waiting(false, c) else Idle
    ensures c in ss[j + 1].channels
  {
    RefsCountUsers(ss, actions, i, j, c);
    assert IsStep(ss[j], actions[j], ss[j + 1]);
  }

  /** A run in which a second user registers while the first one's UnregisterChannel waits for an idle channel. */
  ghost function SharedState(i: nat): State {
    var channels := if i == 0 || i == 5 then map[] else map[0 := Registration(if i <= 2 then 1 else 2, 0)];
    var client := if i <= 1 then Idle else if i <= 3 then Waiting(false, 0) else if i == 4 then Erasing(0)
                  else Closing(0);
    State(channels, if i == 0 then 0 else 1, {}, map[], [], 0, false, if i == 0 then NotStarted else Awake,
          [client], [], [], {})
  }

  ghost function SharedAction(i: nat): Action {
    if i == 0 || i == 2 then Register(0) else if i == 1 then CallUnregister(0, 0) else if i == 3 then Check(0)
    else Erase(0)
  }

  lemma SharedStep(i: nat)
    requires i < 5
    ensures IsStep(SharedState(i), SharedAction(i), SharedState(i + 1))
  {
    var next := Do(SharedState(i), SharedAction(i));
    assert next.clients == SharedState(i + 1).clients;
    assert next.channels == SharedState(i + 1).channels;
  }

  /** The count is not read again after the wait: a channel can be erased with a user left. */
  lemma ErasedWhileInUse() returns (ss: seq<State>, actions: seq<Action>)
    ensures IsRun(ss, actions) && |ss| == 6 && actions[0] == Register(0) && actions[4] == Erase(0)
    ensures 0 in ss[4].channels && ss[4].channels[0].refs == 2 && 0 !in ss[5].channels
  {
    ss := seq(6, i requires 0 <= i => SharedState(i));
    actions := seq(5, i requires 0 <= i => SharedAction(i));
    forall i | 0 <= i < 5 ensures IsStep(ss[i], actions[i], ss[i + 1]) {
      SharedStep(i);
    }
  }

  /** An erase leaves no user behind if and only if as many users came as went since a call found its caller the last
      one. */
  lemma ErasesLastUserIff(ss: seq<State>, actions: seq<Action>, i: nat, j: nat, m: nat, c: Channel, t: nat)
    requires IsRun(ss, actions) && i < j < m < |actions| && actions[i] == Register(c) && c !in ss[i].channels
    requires forall k {:trigger ss[k]} :: i < k <= m ==> c in ss[k].channels
    requires actions[j] == CallUnregister(t, c) && ss[j].channels[c].refs == 1 && ErasesChannel(ss[m], actions[m], c)
    ensures ss[m].channels[c].refs == 1 <==> Users(ss, actions, j, m, c) == 0
  {
    RefsCountUsers(ss, actions, i, j, c);
    RefsCountUsers(ss, actions, i, m, c);
    UsersSplit(ss, actions, i, j, m, c);
  }

  lemma {:induction false} UsersSplit(ss: seq<State>, actions: seq<Action>, i: nat, j: nat, m: nat, c: Channel)
    requires i <= j <= m < |ss| == |actions| + 1
    ensures Users(ss, actions, i, m, c) == Users(ss, actions, i, j, c) + Users(ss, actions, j, m, c)
    decreases m
  {
    if j < m {
      UsersSplit(ss, actions, i, j, m - 1, c);
    }
  }

  /** The worker stops only when stop was requested and every event accepted so far is processed. */
  lemma StopsWhenDone(ss: seq<State>, actions: seq<Action>, i: nat)
    requires IsRun(ss, actions) && i < |actions| && !ss[i].worker.Stopped? && ss[i + 1].worker.Stopped?
    ensures ss[i].stop && ss[i].processed == ss[i].accepted
  {
    RunKeepsInv(ss, actions, i);
    assert IsStep(ss[i], actions[i], ss[i + 1]);
  }
}
