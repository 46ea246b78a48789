/** The life of a frame slot across the three processes, in relay mode: a submitter fills a slot and names it
    in a scene message; the rule process relays it to the consumer or lists it in frame_done; a release comes
    back from the consumer or with frame_done. Messages may be lost, and are handled at most once.

    A token is the right to release one submitted slot. Carriers are the places where tokens wait. */
module SlotProtocol {
  import opened Counting
  import opened SlotPool

  /** `image` stands for the pixels that were in the slot when it was submitted. */
  datatype Token = Token(slot: nat, image: int)

  datatype Entry = Entry(token: Token, source: int)

  datatype Carrier =
    | Nothing
    | Submitted(token: Token)                                       // SubmitFrame returned its slot index
    | Scene(entries: seq<Entry>)                                    // scene message
    | Handling(entries: seq<Entry>, next: nat, vqaSources: set<int>) // processScenePayload, before entry `next`
    | Relay(token: Token)                                           // task packet on the relay socket
    | Mapped(token: Token)                                          // frame held by the consumer
    | Release(token: Token)                                         // release packet
    | Done(tokens: seq<Token>)                                      // frame_done message, being worked off

  datatype Submitter = Resting | Writing(slot: nat)

  datatype State = State(states: seq<SlotState>, images: seq<int>, submitters: seq<Submitter>, carriers: seq<Carrier>)

  datatype Action =
    | Acquire(t: nat)                       // AcquireSlot
    | Write(t: nat, image: int)             // Nv12ToRgb24 into the slot
    | Revert(t: nat)                        // a failed cache sync
    | Submit(t: nat)                        // SubmitSlot
    | OpenScene
    | AddToScene(k: nat, scene: nat, source: int)
    | Receive(k: nat)                       // the rule process gets scene k
    | NoAlert(k: nat)                       // no alert for the next entry, or its relay failed
    | Alert(k: nat)                         // the next entry is relayed
    | PublishDone(k: nat)
    | MapFrame(k: nat)
    | ReleaseFrame(k: nat)
    | PollRelease(k: nat)
    | ReleaseDirect(k: nat)                 // next entry of frame_done k
    | Lose(k: nat)                          // a message is lost, or a frame could not be released

  predicate Writes(s: State, t: nat) { t < |s.submitters| && s.submitters[t].Writing? }

  predicate Enabled(s: State, a: Action) {
    match a
    case Acquire(t) => t < |s.submitters| && s.submitters[t].Resting?
    case Write(t, _) => Writes(s, t) && s.submitters[t].slot < |s.images|
    case Revert(t) => Writes(s, t)
    case Submit(t) => Writes(s, t) && s.submitters[t].slot < |s.images|
    case OpenScene => true
    case AddToScene(k, m, _) =>
      k < |s.carriers| && m < |s.carriers| && s.carriers[k].Submitted? && s.carriers[m].Scene?
    case Receive(k) => k < |s.carriers| && s.carriers[k].Scene?
    case NoAlert(k) => k < |s.carriers| && s.carriers[k].Handling? && s.carriers[k].next < |s.carriers[k].entries|
    case Alert(k) => k < |s.carriers| && s.carriers[k].Handling? && s.carriers[k].next < |s.carriers[k].entries|
    case PublishDone(k) => k < |s.carriers| && s.carriers[k].Handling? && s.carriers[k].next == |s.carriers[k].entries|
    case MapFrame(k) => k < |s.carriers| && s.carriers[k].Relay?
    case ReleaseFrame(k) => k < |s.carriers| && s.carriers[k].Mapped?
    case PollRelease(k) => k < |s.carriers| && s.carriers[k].Release?
    case ReleaseDirect(k) => k < |s.carriers| && s.carriers[k].Done? && s.carriers[k].tokens != []
    case Lose(k) => k < |s.carriers| && !s.carriers[k].Nothing?
  }

  function SetCarrier(s: State, k: nat, c: Carrier): State
    requires k < |s.carriers|
  {
    s.(carriers := s.carriers[k := c])
  }

  function SetSubmitter(s: State, t: nat, p: Submitter): State
    requires t < |s.submitters|
  {
    s.(submitters := s.submitters[t := p])
  }

  /** The tokens of the entries from `j` on, without those handled (before `next`) whose source was relayed. */
  function Left(entries: seq<Entry>, next: nat, vqaSources: set<int>, j: nat): seq<Token>
    decreases |entries| - j
  {
    if j >= |entries| then []
    else if j < next && entries[j].source in vqaSources then Left(entries, next, vqaSources, j + 1)
    else [entries[j].token] + Left(entries, next, vqaSources, j + 1)
  }

  /** The release entries of frame_done: those whose source was not relayed. */
  function NotRelayed(entries: seq<Entry>, vqaSources: set<int>): seq<Token> {
    Left(entries, |entries|, vqaSources, 0)
  }

  function Do(s: State, a: Action): State
    requires Enabled(s, a)
  {
    match a
    case Acquire(t) =>
      var slot := FirstIdle(s.states);
      if slot < 0 then s else SetSubmitter(s, t, Writing(slot)).(states := Change(s.states, slot, IDLE, IN_USE))
    case Write(t, image) => s.(images := s.images[s.submitters[t].slot := image])
    case Revert(t) => SetSubmitter(s, t, Resting).(states := Change(s.states, s.submitters[t].slot, IN_USE, IDLE))
    case Submit(t) =>
      var slot := s.submitters[t].slot;
      if Changeable(s.states, slot, IN_USE) then
        SetSubmitter(s, t, Resting).(states := Change(s.states, slot, IN_USE, ON_FLIGHT),
                                     carriers := s.carriers + [Submitted(Token(slot, s.images[slot]))])
      else
        SetSubmitter(s, t, Resting)
    case OpenScene => s.(carriers := s.carriers + [Scene([])])
    case AddToScene(k, m, source) =>
      var entry := Entry(s.carriers[k].token, source);
      SetCarrier(SetCarrier(s, k, Nothing), m, Scene(s.carriers[m].entries + [entry]))
    case Receive(k) => SetCarrier(s, k, Handling(s.carriers[k].entries, 0, {}))
    case NoAlert(k) => SetCarrier(s, k, s.carriers[k].(next := s.carriers[k].next + 1))
    case Alert(k) =>
      var c := s.carriers[k];
      var e := c.entries[c.next];
      var relayed := SetCarrier(s, k, Handling(c.entries, c.next + 1, c.vqaSources + {e.source}));
      relayed.(carriers := relayed.carriers + [Relay(e.token)])
    case PublishDone(k) => SetCarrier(s, k, Done(NotRelayed(s.carriers[k].entries, s.carriers[k].vqaSources)))
    case MapFrame(k) => SetCarrier(s, k, Mapped(s.carriers[k].token))
    case ReleaseFrame(k) => SetCarrier(s, k, Release(s.carriers[k].token))
    case PollRelease(k) =>
      SetCarrier(s, k, Nothing).(states := Change(s.states, s.carriers[k].token.slot, ON_FLIGHT, IDLE))
    case ReleaseDirect(k) =>
      var ts := s.carriers[k].tokens;
      SetCarrier(s, k, Done(ts[1..])).(states := Change(s.states, ts[0].slot, ON_FLIGHT, IDLE))
    case Lose(k) => SetCarrier(s, k, Nothing)
  }

  // Counting tokens

  ghost function TokensOf(c: Carrier): seq<Token> {
    match c
    case Nothing => []
    case Submitted(t) => [t]
    case Scene(es) => Left(es, 0, {}, 0)
    case Handling(es, next, vqa) => Left(es, next, vqa, 0)
    case Relay(t) => [t]
    case Mapped(t) => [t]
    case Release(t) => [t]
    case Done(ts) => ts
  }

  ghost function One(b: bool): int { if b then 1 else 0 }

  ghost function Count(ts: seq<Token>, p: Token -> bool): nat {
    if ts == [] then 0 else One(p(ts[0])) + Count(ts[1..], p)
  }

  ghost function CountOf(p: Token -> bool): Carrier -> int { (c: Carrier) => Count(TokensOf(c), p) }

  ghost function Total(s: State, p: Token -> bool): int { Sum(s.carriers, CountOf(p)) }

  ghost function InSlot(slot: nat): Token -> bool { (t: Token) => t.slot == slot }

  /** A token whose slot does not exist or no longer has its pixels. */
  ghost function Spoilt(images: seq<int>): Token -> bool {
    (t: Token) => t.slot >= |images| || images[t.slot] != t.image
  }

  ghost function HasSlot(slot: nat): Submitter -> int { (p: Submitter) => One(p == Writing(slot)) }

  lemma {:induction false} CountAppend(a: seq<Token>, b: seq<Token>, p: Token -> bool)
    ensures Count(a + b, p) == Count(a, p) + Count(b, p)
  {
    if a == [] {
      assert a + b == b;
    } else {
      assert (a + b)[1..] == a[1..] + b;
      CountAppend(a[1..], b, p);
    }
  }

  lemma {:induction false} CountPositive(ts: seq<Token>, p: Token -> bool)
    ensures 0 < Count(ts, p) <==> exists i :: 0 <= i < |ts| && p(ts[i])
  {
    if ts != [] {
      CountPositive(ts[1..], p);
      if 0 < Count(ts, p) {
        if !p(ts[0]) {
          var i :| 0 <= i < |ts[1..]| && p(ts[1..][i]);
          assert p(ts[i + 1]);
        }
      } else {
        forall i | 0 <= i < |ts| ensures !p(ts[i]) {
          assert i > 0 ==> ts[i] == ts[1..][i - 1];
        }
      }
    }
  }

  lemma CountCons(t: Token, ts: seq<Token>, p: Token -> bool)
    ensures Count([t] + ts, p) == One(p(t)) + Count(ts, p)
  {
    assert ([t] + ts)[1..] == ts;
  }

  lemma {:induction false} LeftAppend(es: seq<Entry>, e: Entry, j: nat)
    requires j <= |es|
    ensures Left(es + [e], 0, {}, j) == Left(es, 0, {}, j) + [e.token]
    decreases |es| - j
  {
    if j < |es| {
      LeftAppend(es, e, j + 1);
    } else {
      assert Left(es + [e], 0, {}, j + 1) == [];
    }
  }

  /** Entries after the next one are not affected by handling it. */
  lemma {:induction false} LeftAfter(es: seq<Entry>, next: nat, vqa: set<int>, more: set<int>, j: nat)
    requires next < j
    ensures Left(es, next + 1, more, j) == Left(es, next, vqa, j)
    decreases |es| - j
  {
    if j < |es| {
      LeftAfter(es, next, vqa, more, j + 1);
    }
  }

  /** The source of entry `j` was relayed, or another entry has it too. */
  ghost predicate SharesSource(es: seq<Entry>, vqa: set<int>, j: nat)
    requires j < |es|
  {
    es[j].source in vqa || exists i :: 0 <= i < |es| && i != j && es[i].source == es[j].source
  }

  /** The source of entry `next` is new to `vqa`, but an earlier entry has it. */
  ghost predicate Overtakes(es: seq<Entry>, next: nat, vqa: set<int>)
    requires next < |es|
  {
    es[next].source !in vqa && exists i :: 0 <= i < next && es[i].source == es[next].source
  }

  /** Relaying entry `next` overtakes no token of interest from entry `j` on. */
  ghost predicate NoneOvertaken(es: seq<Entry>, next: nat, vqa: set<int>, p: Token -> bool, j: nat)
    requires next < |es|
  {
    es[next].source in vqa || forall i :: j <= i < next && es[i].source == es[next].source ==> !p(es[i].token)
  }

  /** Passing over entry `next` loses its token if its source was relayed before. */
  lemma {:induction false} PassOverOne(es: seq<Entry>, next: nat, vqa: set<int>, p: Token -> bool, j: nat)
    requires j <= next < |es|
    ensures Count(Left(es, next + 1, vqa, j), p)
         == Count(Left(es, next, vqa, j), p) - One(es[next].source in vqa && p(es[next].token))
    decreases next - j
  {
    if j < next {
      PassOverOne(es, next, vqa, p, j + 1);
      CountCons(es[j].token, Left(es, next, vqa, j + 1), p);
      CountCons(es[j].token, Left(es, next + 1, vqa, j + 1), p);
    } else {
      LeftAfter(es, next, vqa, vqa, j + 1);
      CountCons(es[j].token, Left(es, next, vqa, j + 1), p);
    }
  }

  /** Relaying entry `next` takes its token along, and loses those of the earlier entries of its source, unless the
      source was relayed before. */
  lemma {:induction false} RelayOne(es: seq<Entry>, next: nat, vqa: set<int>, p: Token -> bool, j: nat)
    requires j <= next < |es|
    ensures var before, after := Left(es, next, vqa, j), Left(es, next + 1, vqa + {es[next].source}, j);
            && Count(after, p) + One(p(es[next].token)) <= Count(before, p)
            && (Count(after, p) + One(p(es[next].token)) == Count(before, p) <==> NoneOvertaken(es, next, vqa, p, j))
    decreases next - j
  {
    var more := vqa + {es[next].source};
    if j < next {
      RelayOne(es, next, vqa, p, j + 1);
      CountCons(es[j].token, Left(es, next, vqa, j + 1), p);
      CountCons(es[j].token, Left(es, next + 1, more, j + 1), p);
    } else {
      LeftAfter(es, next, vqa, more, j + 1);
      CountCons(es[j].token, Left(es, next, vqa, j + 1), p);
    }
  }

  // The invariant

  ghost predicate Wf(s: State) {
    && |s.images| == |s.states|
    && forall t :: 0 <= t < |s.submitters| && s.submitters[t].Writing? ==> s.submitters[t].slot < |s.states|
  }

  /** A slot in use is held by exactly one submitter, and no other slot is held. */
  ghost predicate HoldersOk(s: State) {
    forall x {:trigger HasSlot(x)} :: 0 <= x < |s.states| ==>
      Sum(s.submitters, HasSlot(x)) == One(s.states[x] == IN_USE)
  }

  /** There is at most one token for a slot in flight, and none for any other slot. */
  ghost predicate TokensOk(s: State) {
    forall x {:trigger InSlot(x)} :: 0 <= x < |s.states| ==> Total(s, InSlot(x)) <= One(s.states[x] == ON_FLIGHT)
  }

  ghost predicate ImagesOk(s: State) { Total(s, Spoilt(s.images)) == 0 }

  ghost predicate Inv(s: State) { Wf(s) && HoldersOk(s) && TokensOk(s) && ImagesOk(s) }

  ghost predicate Init(s: State) {
    && |s.images| == |s.states| && (forall x :: 0 <= x < |s.states| ==> s.states[x] == IDLE)
    && (forall t :: 0 <= t < |s.submitters| ==> s.submitters[t] == Resting)
    && s.carriers == []
  }

  lemma InitInv(s: State)
    requires Init(s)
    ensures Inv(s)
  {
    forall x | 0 <= x < |s.states| ensures Sum(s.submitters, HasSlot(x)) == 0 {
      SumZero(s.submitters, HasSlot(x));
    }
  }

  /** The token that a step creates. */
  ghost function Gained(s: State, a: Action): seq<Token>
    requires Enabled(s, a)
  {
    if a.Submit? && Changeable(s.states, s.submitters[a.t].slot, IN_USE) then
      [Token(s.submitters[a.t].slot, s.images[s.submitters[a.t].slot])]
    else []
  }

  /** The token that a step hands to ReleaseSlot. */
  ghost function Returned(s: State, a: Action): seq<Token>
    requires Enabled(s, a)
  {
    match a
    case PollRelease(k) => [s.carriers[k].token]
    case ReleaseDirect(k) => s.carriers[k].tokens[..1]
    case _ => []
  }

  /** The step loses a token: a message with tokens is lost, an entry whose source was relayed is passed over, or an
      entry is relayed after another one of its source was passed over. */
  ghost predicate Drops(s: State, a: Action)
    requires Enabled(s, a)
  {
    match a
    case Lose(k) => TokensOf(s.carriers[k]) != []
    case NoAlert(k) => s.carriers[k].entries[s.carriers[k].next].source in s.carriers[k].vqaSources
    case Alert(k) => Overtakes(s.carriers[k].entries, s.carriers[k].next, s.carriers[k].vqaSources)
    case _ => false
  }

  lemma SumPushed(cs: seq<Carrier>, c: Carrier, f: Carrier -> int)
    ensures Sum(cs + [c], f) == Sum(cs, f) + f(c)
  {
    SumAppend(cs, [c], f);
    assert Sum([c], f) == f(c) + Sum([c][1..], f);
  }

  ghost predicate Balanced(s: State, a: Action, p: Token -> bool)
    requires Enabled(s, a)
  {
    && Total(Do(s, a), p) + Count(Returned(s, a), p) <= Total(s, p) + Count(Gained(s, a), p)
    && (!Drops(s, a) ==> Total(Do(s, a), p) + Count(Returned(s, a), p) == Total(s, p) + Count(Gained(s, a), p))
  }

  lemma MoveToScene(s: State, a: Action, p: Token -> bool)
    requires a.AddToScene? && Enabled(s, a)
    ensures Balanced(s, a, p)
  {
    var f, k, m := CountOf(p), a.k, a.scene;
    var entry := Entry(s.carriers[k].token, a.source);
    SumUpdate(s.carriers, k, Nothing, f);
    SumUpdate(s.carriers[k := Nothing], m, Scene(s.carriers[m].entries + [entry]), f);
    LeftAppend(s.carriers[m].entries, entry, 0);
    CountAppend(Left(s.carriers[m].entries, 0, {}, 0), [entry.token], p);
  }

  lemma Replaced(s: State, k: nat, c: Carrier, p: Token -> bool)
    requires k < |s.carriers|
    ensures Sum(s.carriers[k := c], CountOf(p))
         == Total(s, p) - Count(TokensOf(s.carriers[k]), p) + Count(TokensOf(c), p)
  {
    SumUpdate(s.carriers, k, c, CountOf(p));
  }

  lemma MoveReceived(s: State, a: Action, p: Token -> bool)
    requires a.Receive? && Enabled(s, a)
    ensures Balanced(s, a, p)
  {
    Replaced(s, a.k, Handling(s.carriers[a.k].entries, 0, {}), p);
  }

  lemma PassOver(s: State, k: nat, p: Token -> bool)
    requires k < |s.carriers| && s.carriers[k].Handling? && s.carriers[k].next < |s.carriers[k].entries|
    ensures var c := s.carriers[k];
            Sum(s.carriers[k := c.(next := c.next + 1)], CountOf(p))
            == Total(s, p) - One(c.entries[c.next].source in c.vqaSources && p(c.entries[c.next].token))
  {
    var c := s.carriers[k];
    Replaced(s, k, c.(next := c.next + 1), p);
    PassOverOne(c.entries, c.next, c.vqaSources, p, 0);
  }

  lemma MovePassedOver(s: State, a: Action, p: Token -> bool)
    requires a.NoAlert? && Enabled(s, a)
    ensures Balanced(s, a, p)
  {
    PassOver(s, a.k, p);
  }

  lemma MoveToDone(s: State, a: Action, p: Token -> bool)
    requires a.PublishDone? && Enabled(s, a)
    ensures Balanced(s, a, p)
  {
    var c := s.carriers[a.k];
    Replaced(s, a.k, Done(NotRelayed(c.entries, c.vqaSources)), p);
  }

  lemma ReplacedAndRelayed(s: State, k: nat, c: Carrier, t: Token, p: Token -> bool)
    requires k < |s.carriers|
    ensures Sum(s.carriers[k := c] + [Relay(t)], CountOf(p))
         == Total(s, p) - Count(TokensOf(s.carriers[k]), p) + Count(TokensOf(c), p) + One(p(t))
  {
    Replaced(s, k, c, p);
    SumPushed(s.carriers[k := c], Relay(t), CountOf(p));
    CountSingle([t], p);
  }

  lemma RelayNext(s: State, k: nat, p: Token -> bool)
    requires k < |s.carriers| && s.carriers[k].Handling? && s.carriers[k].next < |s.carriers[k].entries|
    ensures var c := s.carriers[k];
            var e := c.entries[c.next];
            var after := Handling(c.entries, c.next + 1, c.vqaSources + {e.source});
            var total := Sum(s.carriers[k := after] + [Relay(e.token)], CountOf(p));
            && total <= Total(s, p)
            && (total == Total(s, p) <==> NoneOvertaken(c.entries, c.next, c.vqaSources, p, 0))
  {
    var c := s.carriers[k];
    var e := c.entries[c.next];
    var after := Handling(c.entries, c.next + 1, c.vqaSources + {e.source});
    ReplacedAndRelayed(s, k, after, e.token, p);
    RelayOne(c.entries, c.next, c.vqaSources, p, 0);
  }

  lemma MoveToRelay(s: State, a: Action, p: Token -> bool)
    requires a.Alert? && Enabled(s, a)
    ensures Balanced(s, a, p)
  {
    RelayNext(s, a.k, p);
  }

  lemma MoveOne(s: State, a: Action, p: Token -> bool)
    requires (a.MapFrame? || a.ReleaseFrame? || a.PollRelease? || a.Lose?) && Enabled(s, a)
    ensures Balanced(s, a, p)
  {
    Replaced(s, a.k, Do(s, a).carriers[a.k], p);
  }

  lemma MoveDirect(s: State, a: Action, p: Token -> bool)
    requires a.ReleaseDirect? && Enabled(s, a)
    ensures Balanced(s, a, p)
  {
    var ts := s.carriers[a.k].tokens;
    Replaced(s, a.k, Done(ts[1..]), p);
    assert ts[..1] == [ts[0]];
    CountSingle(ts[..1], p);
  }

  /** Tokens are never made except by SubmitSlot: they move, are returned, or are dropped. */
  lemma TokensMove(s: State, a: Action, p: Token -> bool)
    requires Enabled(s, a)
    ensures Balanced(s, a, p)
  {
    match a {
      case Submit(t) =>
        if Gained(s, a) != [] {
          SumPushed(s.carriers, Submitted(Gained(s, a)[0]), CountOf(p));
        }
      case OpenScene => SumPushed(s.carriers, Scene([]), CountOf(p));
      case AddToScene(_, _, _) => MoveToScene(s, a, p);
      case Receive(_) => MoveReceived(s, a, p);
      case NoAlert(_) => MovePassedOver(s, a, p);
      case PublishDone(_) => MoveToDone(s, a, p);
      case Alert(_) => MoveToRelay(s, a, p);
      case MapFrame(_) => MoveOne(s, a, p);
      case ReleaseFrame(_) => MoveOne(s, a, p);
      case PollRelease(_) => MoveOne(s, a, p);
      case ReleaseDirect(_) => MoveDirect(s, a, p);
      case Lose(_) => MoveOne(s, a, p);
      case _ =>
    }
  }

  /** A token somewhere is counted. */
  lemma TokenCounted(s: State, k: nat, i: nat, p: Token -> bool)
    requires k < |s.carriers| && i < |TokensOf(s.carriers[k])| && p(TokensOf(s.carriers[k])[i])
    ensures 1 <= Count(TokensOf(s.carriers[k]), p) <= Total(s, p)
  {
    CountPositive(TokensOf(s.carriers[k]), p);
    SumAtLeast(s.carriers, k, CountOf(p));
  }

  /** The slot of a token exists, is in flight, has the token's pixels, and no other token. */
  lemma TokenMeansInFlight(s: State, k: nat, i: nat)
    requires Inv(s) && k < |s.carriers| && i < |TokensOf(s.carriers[k])|
    ensures var t := TokensOf(s.carriers[k])[i];
            && t.slot < |s.states| && s.states[t.slot] == ON_FLIGHT && s.images[t.slot] == t.image
            && Total(s, InSlot(t.slot)) == 1
  {
    var t := TokensOf(s.carriers[k])[i];
    if Spoilt(s.images)(t) {
      TokenCounted(s, k, i, Spoilt(s.images));
    }
    TokenCounted(s, k, i, InSlot(t.slot));
  }

  lemma WriterHoldsSlot(s: State, t: nat)
    requires Inv(s) && Writes(s, t)
    ensures s.submitters[t].slot < |s.states| && s.states[s.submitters[t].slot] == IN_USE
    ensures Total(s, InSlot(s.submitters[t].slot)) <= 0
  {
    var x := s.submitters[t].slot;
    SumAtLeast(s.submitters, t, HasSlot(x));
    assert Total(s, InSlot(x)) <= One(s.states[x] == ON_FLIGHT);
  }

  /** The token that a step returns belongs to a slot in flight: ReleaseSlot never refuses. */
  lemma ReleaseNeverRefused(s: State, a: Action)
    requires Inv(s) && Enabled(s, a) && Returned(s, a) != []
    ensures Changeable(s.states, Returned(s, a)[0].slot, ON_FLIGHT)
  {
    assert TokensOf(s.carriers[a.k])[0] == Returned(s, a)[0];
    TokenMeansInFlight(s, a.k, 0);
  }

  lemma StepKeepsHolders(s: State, a: Action)
    requires Inv(s) && Enabled(s, a)
    ensures Wf(Do(s, a)) && HoldersOk(Do(s, a))
  {
    match a {
      case Acquire(t) => TakeUp(s, t);
      case Revert(t) => LetGo(s, t, IDLE);
      case Submit(t) => LetGo(s, t, ON_FLIGHT);
      case PollRelease(k) => ReleaseNeverRefused(s, a);
      case ReleaseDirect(k) => ReleaseNeverRefused(s, a);
      case _ =>
    }
  }

  lemma TakeUp(s: State, t: nat)
    requires Inv(s) && Enabled(s, Acquire(t))
    ensures HoldersOk(Do(s, Acquire(t)))
  {
    var slot := FirstIdle(s.states);
    var s' := Do(s, Acquire(t));
    if slot >= 0 {
      forall x | 0 <= x < |s.states| ensures Sum(s'.submitters, HasSlot(x)) == One(s'.states[x] == IN_USE) {
        SumUpdate(s.submitters, t, Writing(slot), HasSlot(x));
      }
    }
  }

  lemma LetGo(s: State, t: nat, to: SlotState)
    requires Inv(s) && Writes(s, t) && to != IN_USE
    ensures Changeable(s.states, s.submitters[t].slot, IN_USE)
    ensures HoldersOk(SetSubmitter(s, t, Resting).(states := Change(s.states, s.submitters[t].slot, IN_USE, to)))
  {
    WriterHoldsSlot(s, t);
    var s' := SetSubmitter(s, t, Resting).(states := Change(s.states, s.submitters[t].slot, IN_USE, to));
    forall x | 0 <= x < |s.states|
      ensures Sum(s'.submitters, HasSlot(x)) == One(s'.states[x] == IN_USE)
    {
      SumUpdate(s.submitters, t, Resting, HasSlot(x));
    }
  }

  lemma StepKeepsTokens(s: State, a: Action)
    requires Inv(s) && Enabled(s, a)
    ensures TokensOk(Do(s, a))
  {
    if Writes(s, if a.Revert? || a.Submit? then a.t else |s.submitters|) {
      WriterHoldsSlot(s, a.t);
    }
    if Returned(s, a) != [] {
      ReleaseNeverRefused(s, a);
    }
    forall x | 0 <= x < |s.states|
      ensures Total(Do(s, a), InSlot(x)) <= One(Do(s, a).states[x] == ON_FLIGHT)
    {
      TokensMove(s, a, InSlot(x));
      assert Total(s, InSlot(x)) <= One(s.states[x] == ON_FLIGHT);
      CountSingle(Gained(s, a), InSlot(x));
      CountSingle(Returned(s, a), InSlot(x));
    }
  }

  lemma CountSingle(ts: seq<Token>, p: Token -> bool)
    requires |ts| <= 1
    ensures Count(ts, p) == if ts == [] then 0 else One(p(ts[0]))
  {
  }

  lemma StepKeepsImages(s: State, a: Action)
    requires Inv(s) && Enabled(s, a)
    ensures ImagesOk(Do(s, a))
  {
    var s' := Do(s, a);
    SumNonNegative(s'.carriers, CountOf(Spoilt(s'.images)));
    if a.Write? {
      WriterHoldsSlot(s, a.t);
      if Total(s', Spoilt(s'.images)) > 0 {
        var k := SumPositiveWitness(s'.carriers, CountOf(Spoilt(s'.images)));
        CountPositive(TokensOf(s.carriers[k]), Spoilt(s'.images));
        var i :| 0 <= i < |TokensOf(s.carriers[k])| && Spoilt(s'.images)(TokensOf(s.carriers[k])[i]);
        TokenMeansInFlight(s, k, i);
      }
    } else {
      TokensMove(s, a, Spoilt(s.images));
      CountSingle(Gained(s, a), Spoilt(s.images));
    }
  }

  lemma StepKeepsInv(s: State, a: Action)
    requires Inv(s) && Enabled(s, a)
    ensures Inv(Do(s, a))
  {
    StepKeepsHolders(s, a);
    StepKeepsTokens(s, a);
    StepKeepsImages(s, a);
  }

  // Whole runs

  ghost predicate IsPath(ss: seq<State>, actions: seq<Action>) {
    && |ss| == |actions| + 1
    && forall i {:trigger actions[i]} :: 0 <= i < |actions| ==>
         Enabled(ss[i], actions[i]) && ss[i + 1] == Do(ss[i], actions[i])
  }

  ghost predicate IsRun(ss: seq<State>, actions: seq<Action>) { IsPath(ss, actions) && Init(ss[0]) }

  lemma {:induction false} RunKeepsInv(ss: seq<State>, actions: seq<Action>, i: nat)
    requires IsRun(ss, actions) && i < |ss|
    ensures Inv(ss[i])
  {
    if i == 0 {
      InitInv(ss[0]);
    } else {
      RunKeepsInv(ss, actions, i - 1);
      assert Enabled(ss[i - 1], actions[i - 1]) && ss[i] == Do(ss[i - 1], actions[i - 1]);
      StepKeepsInv(ss[i - 1], actions[i - 1]);
    }
  }

  /** A slot is idle, or in use by exactly one submitter, or in flight with at most one token. */
  lemma SlotOwnership(ss: seq<State>, actions: seq<Action>, i: nat, x: nat)
    requires IsRun(ss, actions) && i < |ss| && x < |ss[i].states|
    ensures Sum(ss[i].submitters, HasSlot(x)) == if ss[i].states[x] == IN_USE then 1 else 0
    ensures 0 <= Total(ss[i], InSlot(x)) <= if ss[i].states[x] == ON_FLIGHT then 1 else 0
  {
    RunKeepsInv(ss, actions, i);
    SumNonNegative(ss[i].carriers, CountOf(InSlot(x)));
    assert Total(ss[i], InSlot(x)) <= One(ss[i].states[x] == ON_FLIGHT);
    assert Sum(ss[i].submitters, HasSlot(x)) == One(ss[i].states[x] == IN_USE);
  }

  /** AcquireSlot comes back empty-handed exactly if no slot is idle; otherwise the submitter has an idle slot of its
      own, and no other slot is touched. */
  lemma AcquiresIff(ss: seq<State>, actions: seq<Action>, i: nat, t: nat)
    requires IsRun(ss, actions) && i < |actions| && actions[i] == Acquire(t)
    ensures t < |ss[i].submitters| && t < |ss[i + 1].submitters|
    ensures ss[i + 1].submitters[t].Writing? <==> IDLE in ss[i].states
    ensures if IDLE in ss[i].states then
              var slot := ss[i + 1].submitters[t].slot;
              && slot < |ss[i].states| && ss[i].states[slot] == IDLE
              && ss[i + 1] == ss[i].(states := ss[i].states[slot := IN_USE],
                                     submitters := ss[i].submitters[t := Writing(slot)])
            else ss[i + 1] == ss[i]
  {
    assert Enabled(ss[i], actions[i]) && ss[i + 1] == Do(ss[i], actions[i]);
  }

  /** RevertSlot is accepted: the slot is idle again and the submitter free. */
  lemma RevertsSlot(ss: seq<State>, actions: seq<Action>, i: nat, t: nat)
    requires IsRun(ss, actions) && i < |actions| && actions[i] == Revert(t)
    ensures Writes(ss[i], t)
    ensures var slot := ss[i].submitters[t].slot;
            slot < |ss[i].states| && ss[i + 1] == ss[i].(states := ss[i].states[slot := IDLE],
                                                         submitters := ss[i].submitters[t := Resting])
  {
    assert Enabled(ss[i], actions[i]) && ss[i + 1] == Do(ss[i], actions[i]);
    RunKeepsInv(ss, actions, i);
    WriterHoldsSlot(ss[i], t);
  }

  /** Two submitters never write one slot. */
  lemma WritersApart(s: State, t: nat, u: nat)
    requires Inv(s) && Writes(s, t) && Writes(s, u) && t != u
    ensures s.submitters[t].slot != s.submitters[u].slot
  {
    var x := s.submitters[t].slot;
    assert Sum(s.submitters, HasSlot(x)) == One(s.states[x] == IN_USE) <= 1;
    if s.submitters[u].slot == x {
      SumAtLeastTwo(s.submitters, t, u, HasSlot(x));
    }
  }

  lemma StepKeepsPixels(s: State, a: Action, t: nat, slot: nat)
    requires Inv(s) && Enabled(s, a) && Writes(s, t) && s.submitters[t].slot == slot
    requires !(a.Write? && a.t == t)
    ensures slot < |s.images| == |Do(s, a).images| && Do(s, a).images[slot] == s.images[slot]
  {
    if a.Write? {
      WritersApart(s, t, a.t);
    }
  }

  lemma {:induction false} PixelsKept(ss: seq<State>, actions: seq<Action>, i: nat, j: nat, t: nat, slot: nat)
    requires IsRun(ss, actions) && i <= j < |ss| && slot < |ss[i].images|
    requires forall k {:trigger ss[k]} :: i <= k < j ==> t < |ss[k].submitters| && ss[k].submitters[t] == Writing(slot)
    requires forall k {:trigger actions[k]} :: i <= k < j ==> !(actions[k].Write? && actions[k].t == t)
    ensures slot < |ss[j].images| && ss[j].images[slot] == ss[i].images[slot]
    decreases j
  {
    if i < j {
      PixelsKept(ss, actions, i, j - 1, t, slot);
      RunKeepsInv(ss, actions, j - 1);
      assert Enabled(ss[j - 1], actions[j - 1]) && ss[j] == Do(ss[j - 1], actions[j - 1]);
      StepKeepsPixels(ss[j - 1], actions[j - 1], t, slot);
    }
  }

  /** In every run SubmitSlot is accepted, and its token carries the pixels that the submitter wrote last, whatever
      other submitters wrote meanwhile. */
  lemma SubmitsWhatItWrote(ss: seq<State>, actions: seq<Action>, i: nat, j: nat, t: nat, image: int, slot: nat)
    requires IsRun(ss, actions) && i < j < |actions| && actions[i] == Write(t, image) && actions[j] == Submit(t)
    requires forall k {:trigger ss[k]} :: i <= k <= j ==> t < |ss[k].submitters| && ss[k].submitters[t] == Writing(slot)
    requires forall k {:trigger actions[k]} :: i < k < j ==> !(actions[k].Write? && actions[k].t == t)
    ensures slot < |ss[j + 1].states| && ss[j + 1].states[slot] == ON_FLIGHT
    ensures ss[j + 1].carriers == ss[j].carriers + [Submitted(Token(slot, image))]
  {
    assert Enabled(ss[i], actions[i]) && ss[i + 1] == Do(ss[i], actions[i]);
    assert Enabled(ss[j], actions[j]) && ss[j + 1] == Do(ss[j], actions[j]);
    PixelsKept(ss, actions, i + 1, j, t, slot);
    RunKeepsInv(ss, actions, j);
    WriterHoldsSlot(ss[j], t);
  }

  /** While the consumer has a frame mapped, the slot holds the pixels that were submitted, and nobody writes it. */
  lemma MappedFrameIsStable(ss: seq<State>, actions: seq<Action>, i: nat, k: nat)
    requires IsRun(ss, actions) && i < |ss| && k < |ss[i].carriers| && ss[i].carriers[k].Mapped?
    ensures var t := ss[i].carriers[k].token;
            && t.slot < |ss[i].states| == |ss[i].images|
            && ss[i].states[t.slot] == ON_FLIGHT && ss[i].images[t.slot] == t.image
            && forall u :: 0 <= u < |ss[i].submitters| ==> ss[i].submitters[u] != Writing(t.slot)
  {
    RunKeepsInv(ss, actions, i);
    assert TokensOf(ss[i].carriers[k])[0] == ss[i].carriers[k].token;
    TokenMeansInFlight(ss[i], k, 0);
    forall u | 0 <= u < |ss[i].submitters| && ss[i].submitters[u].Writing?
      ensures ss[i].states[ss[i].submitters[u].slot] == IN_USE
    {
      WriterHoldsSlot(ss[i], u);
    }
  }

  /** No slot is named in two places, so none is both relayed and listed in frame_done. */
  lemma OneRoutePerSlot(ss: seq<State>, actions: seq<Action>, i: nat, j: nat, k: nat, p: nat, q: nat)
    requires IsRun(ss, actions) && i < |ss| && j < |ss[i].carriers| && k < |ss[i].carriers|
    requires p < |TokensOf(ss[i].carriers[j])| && q < |TokensOf(ss[i].carriers[k])| && (j != k || p < q)
    ensures TokensOf(ss[i].carriers[j])[p].slot != TokensOf(ss[i].carriers[k])[q].slot
  {
    RunKeepsInv(ss, actions, i);
    var s := ss[i];
    var a, b := TokensOf(s.carriers[j]), TokensOf(s.carriers[k]);
    if a[p].slot == b[q].slot {
      var f := InSlot(a[p].slot);
      TokenMeansInFlight(s, j, p);
      if j != k {
        CountPositive(a, f);
        CountPositive(b, f);
        SumAtLeastTwo(s.carriers, j, k, CountOf(f));
      } else {
        CountTwo(a, p, q, f);
        SumAtLeast(s.carriers, j, CountOf(f));
      }
    }
  }

  lemma CountTwo(ts: seq<Token>, i: nat, j: nat, p: Token -> bool)
    requires i < j < |ts| && p(ts[i]) && p(ts[j])
    ensures 2 <= Count(ts, p)
  {
    assert ts == ts[..j] + ts[j..];
    CountAppend(ts[..j], ts[j..], p);
    assert ts[..j][i] == ts[i] && ts[j..][0] == ts[j];
    CountPositive(ts[..j], p);
    CountPositive(ts[j..], p);
  }

  /** Every release that reaches the pool is accepted. */
  lemma ReleasesAccepted(ss: seq<State>, actions: seq<Action>, i: nat)
    requires IsRun(ss, actions) && i < |actions| && (actions[i].PollRelease? || actions[i].ReleaseDirect?)
    ensures Enabled(ss[i], actions[i]) && |Returned(ss[i], actions[i])| == 1
    ensures Changeable(ss[i].states, Returned(ss[i], actions[i])[0].slot, ON_FLIGHT)
    ensures ss[i + 1].states == ss[i].states[Returned(ss[i], actions[i])[0].slot := IDLE]
  {
    RunKeepsInv(ss, actions, i);
    ReleaseNeverRefused(ss[i], actions[i]);
  }

  // Which runs lose a token

  /** Every slot in flight has its token: it can still be released. */
  ghost predicate Intact(s: State) {
    forall x {:trigger InSlot(x)} :: 0 <= x < |s.states| ==> Total(s, InSlot(x)) == One(s.states[x] == ON_FLIGHT)
  }

  /** The slot is in flight and has no token. */
  ghost predicate Stuck(s: State, x: nat) {
    x < |s.states| && s.states[x] == ON_FLIGHT && Total(s, InSlot(x)) == 0
  }

  lemma StuckUnlessIntact(s: State) returns (x: nat)
    requires Inv(s) && !Intact(s)
    ensures Stuck(s, x)
  {
    x :| x < |s.states| && Total(s, InSlot(x)) != One(s.states[x] == ON_FLIGHT);
    assert Total(s, InSlot(x)) <= One(s.states[x] == ON_FLIGHT);
    SumNonNegative(s.carriers, CountOf(InSlot(x)));
  }

  lemma TokenGone(s: State, a: Action, k: nat, i: nat)
    requires Inv(s) && Enabled(s, a) && (a.Lose? || a.NoAlert? || a.Alert?)
    requires k < |s.carriers| && i < |TokensOf(s.carriers[k])|
    requires var slot := TokensOf(s.carriers[k])[i].slot; Total(Do(s, a), InSlot(slot)) < Total(s, InSlot(slot))
    ensures Stuck(Do(s, a), TokensOf(s.carriers[k])[i].slot)
  {
    TokenMeansInFlight(s, k, i);
    SumNonNegative(Do(s, a).carriers, CountOf(InSlot(TokensOf(s.carriers[k])[i].slot)));
  }

  /** A token not yet handled, or handled while its source was not relayed, is left. */
  lemma {:induction false} LeftHas(es: seq<Entry>, next: nat, vqa: set<int>, j: nat, i: nat) returns (m: nat)
    requires j <= i < |es| && (i < next ==> es[i].source !in vqa)
    ensures m < |Left(es, next, vqa, j)| && Left(es, next, vqa, j)[m] == es[i].token
    decreases i - j
  {
    m := 0;
    if j < i {
      m := LeftHas(es, next, vqa, j + 1, i);
      if !(j < next && es[j].source in vqa) {
        m := m + 1;
      }
    }
  }

  lemma LostIsStuck(s: State, a: Action) returns (x: nat)
    requires Inv(s) && Enabled(s, a) && Drops(s, a) && a.Lose?
    ensures Stuck(Do(s, a), x)
  {
    var c := s.carriers[a.k];
    x := TokensOf(c)[0].slot;
    Replaced(s, a.k, Nothing, InSlot(x));
    CountPositive(TokensOf(c), InSlot(x));
    TokenGone(s, a, a.k, 0);
  }

  lemma PassedOverIsStuck(s: State, a: Action) returns (x: nat)
    requires Inv(s) && Enabled(s, a) && Drops(s, a) && a.NoAlert?
    ensures Stuck(Do(s, a), x)
  {
    var c := s.carriers[a.k];
    var m := LeftHas(c.entries, c.next, c.vqaSources, 0, c.next);
    x := c.entries[c.next].token.slot;
    PassOver(s, a.k, InSlot(x));
    TokenGone(s, a, a.k, m);
  }

  lemma OvertakenIsGone(s: State, k: nat, i: nat)
    requires Enabled(s, Alert(k)) && i < s.carriers[k].next
    requires var c := s.carriers[k];
             c.entries[c.next].source !in c.vqaSources && c.entries[i].source == c.entries[c.next].source
    ensures var p := InSlot(s.carriers[k].entries[i].token.slot); Total(Do(s, Alert(k)), p) < Total(s, p)
  {
    var c := s.carriers[k];
    var p := InSlot(c.entries[i].token.slot);
    assert p(c.entries[i].token);
    RelayNext(s, k, p);
  }

  lemma OvertakenIsStuck(s: State, k: nat) returns (x: nat)
    requires Inv(s) && Enabled(s, Alert(k)) && Drops(s, Alert(k))
    ensures Stuck(Do(s, Alert(k)), x)
  {
    var c := s.carriers[k];
    var i: nat :| i < c.next && c.entries[i].source == c.entries[c.next].source;
    var m := LeftHas(c.entries, c.next, c.vqaSources, 0, i);
    x := c.entries[i].token.slot;
    OvertakenIsGone(s, k, i);
    TokenGone(s, Alert(k), k, m);
  }

  lemma DroppedIsStuck(s: State, a: Action) returns (x: nat)
    requires Inv(s) && Enabled(s, a) && Drops(s, a)
    ensures Stuck(Do(s, a), x)
  {
    if a.Lose? {
      x := LostIsStuck(s, a);
    } else if a.NoAlert? {
      x := PassedOverIsStuck(s, a);
    } else {
      x := OvertakenIsStuck(s, a.k);
    }
  }

  lemma StuckStays(s: State, a: Action, x: nat)
    requires Inv(s) && Enabled(s, a) && Stuck(s, x)
    ensures Stuck(Do(s, a), x)
  {
    if Writes(s, if a.Revert? || a.Submit? then a.t else |s.submitters|) {
      WriterHoldsSlot(s, a.t);
    }
    if Returned(s, a) != [] {
      ReleaseNeverRefused(s, a);
      assert TokensOf(s.carriers[a.k])[0] == Returned(s, a)[0];
      if Returned(s, a)[0].slot == x {
        TokenCounted(s, a.k, 0, InSlot(x));
      }
    }
    TokensMove(s, a, InSlot(x));
    CountSingle(Gained(s, a), InSlot(x));
    SumNonNegative(Do(s, a).carriers, CountOf(InSlot(x)));
  }

  lemma KeepsIntact(s: State, a: Action)
    requires Inv(s) && Enabled(s, a) && Intact(s) && !Drops(s, a)
    ensures Intact(Do(s, a))
  {
    if Writes(s, if a.Revert? || a.Submit? then a.t else |s.submitters|) {
      WriterHoldsSlot(s, a.t);
    }
    if Returned(s, a) != [] {
      ReleaseNeverRefused(s, a);
    }
    forall x | 0 <= x < |s.states|
      ensures Total(Do(s, a), InSlot(x)) == One(Do(s, a).states[x] == ON_FLIGHT)
    {
      TokensMove(s, a, InSlot(x));
      assert Total(s, InSlot(x)) == One(s.states[x] == ON_FLIGHT);
      CountSingle(Gained(s, a), InSlot(x));
      CountSingle(Returned(s, a), InSlot(x));
    }
  }

  lemma IntactStepIff(s: State, a: Action)
    requires Inv(s) && Enabled(s, a)
    ensures Intact(Do(s, a)) <==> Intact(s) && !Drops(s, a)
  {
    StepKeepsInv(s, a);
    if Drops(s, a) {
      var x := DroppedIsStuck(s, a);
      assert Total(Do(s, a), InSlot(x)) != One(Do(s, a).states[x] == ON_FLIGHT);
    } else if Intact(s) {
      KeepsIntact(s, a);
    } else {
      var x := StuckUnlessIntact(s);
      StuckStays(s, a, x);
      assert Total(Do(s, a), InSlot(x)) != One(Do(s, a).states[x] == ON_FLIGHT);
    }
  }

  /** In every run, every slot in flight can still be released if and only if no step so far has dropped a token. */
  lemma {:induction false} IntactIff(ss: seq<State>, actions: seq<Action>, i: nat)
    requires IsRun(ss, actions) && i < |ss|
    ensures Intact(ss[i]) <==>
              forall j {:trigger actions[j]} :: 0 <= j < i ==> Enabled(ss[j], actions[j]) && !Drops(ss[j], actions[j])
  {
    if i == 0 {
      assert ss[0].carriers == [];
    } else {
      IntactIff(ss, actions, i - 1);
      RunKeepsInv(ss, actions, i - 1);
      var a := actions[i - 1];
      assert Enabled(ss[i - 1], a) && ss[i] == Do(ss[i - 1], a);
      IntactStepIff(ss[i - 1], a);
    }
  }

  // The condition on the scenes

  /** Some entry still to be handled shares its source. */
  ghost predicate CanLose(c: Carrier) {
    match c
    case Scene(es) => exists j :: 0 <= j < |es| && SharesSource(es, {}, j)
    case Handling(es, next, vqa) => exists j :: next <= j < |es| && SharesSource(es, vqa, j)
    case _ => false
  }

  ghost predicate NoneCanLose(s: State) { forall k :: 0 <= k < |s.carriers| ==> !CanLose(s.carriers[k]) }

  /** A scene can lose no token if and only if its sources are distinct. */
  lemma SafeSceneIff(es: seq<Entry>)
    ensures !CanLose(Scene(es)) <==> forall i, j :: 0 <= i < j < |es| ==> es[i].source != es[j].source
  {
    if i, j :| 0 <= i < j < |es| && es[i].source == es[j].source {
      assert SharesSource(es, {}, j);
    } else {
      forall j | 0 <= j < |es| ensures !SharesSource(es, {}, j) {
      }
    }
  }

  /** No message is lost in the step, and no scene gets two entries of one source. */
  ghost predicate Careful(s: State, a: Action)
    requires Enabled(s, a)
  {
    && !a.Lose?
    && (a.AddToScene? ==>
          forall i :: 0 <= i < |s.carriers[a.scene].entries| ==> s.carriers[a.scene].entries[i].source != a.source)
  }

  lemma SafeCarrierKept(s: State, a: Action)
    requires Enabled(s, a) && (a.Alert? || a.NoAlert?) && !CanLose(s.carriers[a.k])
    ensures !CanLose(Do(s, a).carriers[a.k]) && !Drops(s, a)
  {
    var c := s.carriers[a.k];
    var c' := Do(s, a).carriers[a.k];
    assert !SharesSource(c.entries, c.vqaSources, c.next);
    forall j | c'.next <= j < |c.entries| ensures !SharesSource(c.entries, c'.vqaSources, j) {
      assert !SharesSource(c.entries, c.vqaSources, j);
    }
  }

  lemma SafeSceneKept(es: seq<Entry>, e: Entry)
    requires !CanLose(Scene(es)) && forall i :: 0 <= i < |es| ==> es[i].source != e.source
    ensures !CanLose(Scene(es + [e]))
  {
    SafeSceneIff(es);
    SafeSceneIff(es + [e]);
  }

  lemma CarefulKeepsSafe(s: State, a: Action)
    requires Enabled(s, a) && NoneCanLose(s) && Careful(s, a)
    ensures NoneCanLose(Do(s, a)) && !Drops(s, a)
  {
    if a.Alert? || a.NoAlert? {
      SafeCarrierKept(s, a);
    } else if a.AddToScene? {
      SafeSceneKept(s.carriers[a.scene].entries, Entry(s.carriers[a.k].token, a.source));
    }
    var s' := Do(s, a);
    forall k | 0 <= k < |s'.carriers| ensures !CanLose(s'.carriers[k]) {
      assert k < |s.carriers| ==> !CanLose(s.carriers[k]);
    }
  }

  ghost predicate IsCareful(ss: seq<State>, actions: seq<Action>) {
    && IsPath(ss, actions)
    && forall i {:trigger actions[i]} :: 0 <= i < |actions| ==> Enabled(ss[i], actions[i]) && Careful(ss[i], actions[i])
  }

  lemma CarefulStep(s: State, a: Action)
    requires Inv(s) && Intact(s) && NoneCanLose(s) && Enabled(s, a) && Careful(s, a)
    ensures Inv(Do(s, a)) && Intact(Do(s, a)) && NoneCanLose(Do(s, a))
  {
    CarefulKeepsSafe(s, a);
    IntactStepIff(s, a);
    StepKeepsInv(s, a);
  }

  lemma {:induction false} CarefulPathIntact(ss: seq<State>, actions: seq<Action>, i: nat)
    requires IsCareful(ss, actions) && Inv(ss[0]) && Intact(ss[0]) && NoneCanLose(ss[0]) && i < |ss|
    ensures Inv(ss[i]) && Intact(ss[i]) && NoneCanLose(ss[i])
  {
    if i > 0 {
      CarefulPathIntact(ss, actions, i - 1);
      var a := actions[i - 1];
      assert Enabled(ss[i - 1], a) && ss[i] == Do(ss[i - 1], a);
      CarefulStep(ss[i - 1], a);
    }
  }

  /** If no message is lost and no scene repeats a source, every slot in flight can still be released. */
  lemma NoSlotLeaks(ss: seq<State>, actions: seq<Action>, i: nat)
    requires IsCareful(ss, actions) && Init(ss[0]) && i < |ss|
    ensures Intact(ss[i])
  {
    InitInv(ss[0]);
    CarefulPathIntact(ss, actions, i);
  }

  /** The next step of handling a scene towards a lost token. */
  ghost function TowardsLoss(c: Carrier, k: nat): Action
    requires CanLose(c)
  {
    if c.Scene? then Receive(k)
    else if c.entries[c.next].source !in c.vqaSources && SharesSource(c.entries, c.vqaSources, c.next) then Alert(k)
    else NoAlert(k)
  }

  ghost function Remaining(c: Carrier): int {
    match c
    case Scene(es) => |es| + 1
    case Handling(es, next, _) => |es| - next
    case _ => 0
  }

  lemma LossComesCloser(s: State, k: nat)
    requires k < |s.carriers| && CanLose(s.carriers[k])
    ensures var a := TowardsLoss(s.carriers[k], k);
            && Enabled(s, a) && Careful(s, a)
            && (Drops(s, a) || (k < |Do(s, a).carriers| && CanLose(Do(s, a).carriers[k])
                                && Remaining(Do(s, a).carriers[k]) < Remaining(s.carriers[k])))
  {
    var c := s.carriers[k];
    if c.Handling? {
      var j :| c.next <= j < |c.entries| && SharesSource(c.entries, c.vqaSources, j);
      var c' := Do(s, TowardsLoss(c, k)).carriers[k];
      if c.next < j {
        assert SharesSource(c.entries, c'.vqaSources, j);
      } else if c.entries[j].source !in c.vqaSources {
        var i :| 0 <= i < |c.entries| && i != j && c.entries[i].source == c.entries[j].source;
        if i > j {
          assert SharesSource(c.entries, c'.vqaSources, i);
        }
      }
    }
  }

  lemma CarefulPrepend(s: State, a: Action, ss: seq<State>, actions: seq<Action>)
    requires IsCareful(ss, actions) && Enabled(s, a) && Careful(s, a) && ss[0] == Do(s, a)
    ensures IsCareful([s] + ss, [a] + actions)
  {
    var all, steps := [s] + ss, [a] + actions;
    forall i | 0 <= i < |steps|
      ensures Enabled(all[i], steps[i]) && Careful(all[i], steps[i]) && all[i + 1] == Do(all[i], steps[i])
    {
      if i > 0 {
        assert steps[i] == actions[i - 1] && all[i] == ss[i - 1] && all[i + 1] == ss[i];
      }
    }
  }

  /** From a state with a scene that repeats a source, alerts can be such that a slot gets stuck. */
  lemma {:induction false} LossReachable(s: State, k: nat) returns (ss: seq<State>, actions: seq<Action>)
    requires Inv(s) && k < |s.carriers| && CanLose(s.carriers[k])
    ensures IsCareful(ss, actions) && ss[0] == s && !Intact(ss[|ss| - 1])
    decreases Remaining(s.carriers[k])
  {
    LossComesCloser(s, k);
    var a := TowardsLoss(s.carriers[k], k);
    StepKeepsInv(s, a);
    if Drops(s, a) {
      IntactStepIff(s, a);
      ss, actions := [s, Do(s, a)], [a];
    } else {
      var rest, others := LossReachable(Do(s, a), k);
      ss, actions := [s] + rest, [a] + others;
      CarefulPrepend(s, a, rest, others);
    }
  }

  /** Let no slot be stuck so far. However the run goes on, with any alerts, without lost messages and with no further
      repeated source, no slot gets stuck, if and only if no scene has an entry still to be handled that shares its
      source: for a scene not yet handled, if and only if its sources are distinct (SafeSceneIff). */
  lemma NeverStuckIff(ss: seq<State>, actions: seq<Action>, i: nat)
    requires IsRun(ss, actions) && i < |ss| && Intact(ss[i])
    ensures NoneCanLose(ss[i]) <==>
              forall more: seq<State>, steps: seq<Action> :: IsCareful(more, steps) && more[0] == ss[i] ==>
                Intact(more[|more| - 1])
  {
    RunKeepsInv(ss, actions, i);
    if NoneCanLose(ss[i]) {
      forall more: seq<State>, steps: seq<Action> | IsCareful(more, steps) && more[0] == ss[i]
        ensures Intact(more[|more| - 1])
      {
        CarefulPathIntact(more, steps, |more| - 1);
      }
    } else {
      var k :| 0 <= k < |ss[i].carriers| && CanLose(ss[i].carriers[k]);
      var more, steps := LossReachable(ss[i], k);
    }
  }

  // A run that loses no message and leaks a slot: two entries of one source, and an alert for the first only.

  ghost function LeakCarriers(i: nat): seq<Carrier> {
    var a, b := Token(0, 0), Token(1, 0);
    var es := [Entry(a, 7), Entry(b, 7)];
    if i <= 2 then []
    else if i == 3 then [Submitted(a)]
    else if i == 4 then [Submitted(a), Submitted(b)]
    else if i == 5 then [Submitted(a), Submitted(b), Scene([])]
    else if i == 6 then [Nothing, Submitted(b), Scene([Entry(a, 7)])]
    else if i == 7 then [Nothing, Nothing, Scene(es)]
    else if i == 8 then [Nothing, Nothing, Handling(es, 0, {})]
    else if i == 9 then [Nothing, Nothing, Handling(es, 1, {7}), Relay(a)]
    else if i == 10 then [Nothing, Nothing, Handling(es, 2, {7}), Relay(a)]
    else [Nothing, Nothing, Done([]), Relay(a)]
  }

  ghost function LeakState(i: nat): State {
    var states := if i == 0 then [IDLE, IDLE] else if i == 1 then [IN_USE, IDLE] else if i == 2 then [IN_USE, IN_USE]
                  else if i == 3 then [ON_FLIGHT, IN_USE] else [ON_FLIGHT, ON_FLIGHT];
    var submitters := [if 1 <= i <= 2 then Writing(0) else Resting, if 2 <= i <= 3 then Writing(1) else Resting];
    State(states, [0, 0], submitters, LeakCarriers(i))
  }

  ghost function LeakAction(i: nat): Action {
    if i == 0 then Acquire(0)
    else if i == 1 then Acquire(1)
    else if i == 2 then Submit(0)
    else if i == 3 then Submit(1)
    else if i == 4 then OpenScene
    else if i == 5 then AddToScene(0, 2, 7)
    else if i == 6 then AddToScene(1, 2, 7)
    else if i == 7 then Receive(2)
    else if i == 8 then Alert(2)
    else if i == 9 then NoAlert(2)
    else PublishDone(2)
  }

  lemma LeakSubmits(i: nat)
    requires i < 5
    ensures Enabled(LeakState(i), LeakAction(i)) && Do(LeakState(i), LeakAction(i)) == LeakState(i + 1)
  {
    assert [IDLE, IDLE][1..] == [IDLE] && [IN_USE, IDLE][1..] == [IDLE];
  }

  lemma LeakScene(i: nat)
    requires 5 <= i < 8
    ensures Enabled(LeakState(i), LeakAction(i)) && Do(LeakState(i), LeakAction(i)) == LeakState(i + 1)
  {
    assert [] + [Entry(Token(0, 0), 7)] == [Entry(Token(0, 0), 7)];
    assert [Entry(Token(0, 0), 7)] + [Entry(Token(1, 0), 7)] == [Entry(Token(0, 0), 7), Entry(Token(1, 0), 7)];
    assert Do(LeakState(i), LeakAction(i)).carriers == LeakState(i + 1).carriers;
  }

  lemma LeakHandling(i: nat)
    requires 8 <= i < 11
    ensures Enabled(LeakState(i), LeakAction(i)) && Do(LeakState(i), LeakAction(i)) == LeakState(i + 1)
  {
    var es := [Entry(Token(0, 0), 7), Entry(Token(1, 0), 7)];
    assert {} + {7} == {7};
    assert NotRelayed(es, {7}) == Left(es, 2, {7}, 1) == Left(es, 2, {7}, 2) == [];
    assert Do(LeakState(i), LeakAction(i)).carriers == LeakState(i + 1).carriers;
  }

  lemma LeakStep(i: nat)
    requires i < 11
    ensures Enabled(LeakState(i), LeakAction(i)) && Do(LeakState(i), LeakAction(i)) == LeakState(i + 1)
    ensures !LeakAction(i).Lose?
  {
    if i < 5 {
      LeakSubmits(i);
    } else if i < 8 {
      LeakScene(i);
    } else {
      LeakHandling(i);
    }
  }

  lemma LeakLeavesNoToken()
    ensures Stuck(LeakState(11), 1)
  {
    forall c | c in LeakState(11).carriers ensures CountOf(InSlot(1))(c) == 0 {
      CountSingle(TokensOf(c), InSlot(1));
    }
    SumZero(LeakState(11).carriers, CountOf(InSlot(1)));
  }

  /** vqaSources is keyed by source, not by slot: the second slot is neither relayed nor listed, and stays in
      flight for good although nothing was lost. */
  lemma SharedSourceLeaks() returns (ss: seq<State>, actions: seq<Action>)
    ensures IsRun(ss, actions) && forall a :: a in actions ==> !a.Lose?
    ensures Stuck(ss[|ss| - 1], 1)
  {
    ss := seq(12, i requires 0 <= i => LeakState(i));
    actions := seq(11, i requires 0 <= i => LeakAction(i));
    forall i | 0 <= i < 11
      ensures Enabled(ss[i], actions[i]) && ss[i + 1] == Do(ss[i], actions[i]) && !actions[i].Lose?
    {
      LeakStep(i);
    }
    LeakLeavesNoToken();
  }

  // The way of one slot there and back, with nothing in between

  /** The actions, one after the other, lead from `s` to `s'`. */
  ghost predicate Leads(s: State, actions: seq<Action>, s': State)
    decreases |actions|
  {
    if actions == [] then s' == s
    else Enabled(s, actions[0]) && Leads(Do(s, actions[0]), actions[1..], s')
  }

  lemma {:induction false} LeadsOn(s: State, before: seq<Action>, s1: State, after: seq<Action>, s2: State)
    requires Leads(s, before, s1) && Leads(s1, after, s2)
    ensures Leads(s, before + after, s2)
    decreases |before|
  {
    if before == [] {
      assert before + after == after;
    } else {
      LeadsOn(Do(s, before[0]), before[1..], s1, after, s2);
      assert (before + after)[1..] == before[1..] + after;
    }
  }

  lemma LeadsThree(s: State, a: Action, s1: State, b: Action, s2: State, c: Action, s3: State)
    requires Enabled(s, a) && s1 == Do(s, a)
    requires Enabled(s1, b) && s2 == Do(s1, b)
    requires Enabled(s2, c) && s3 == Do(s2, c)
    ensures Leads(s, [a, b, c], s3)
  {
    assert [a, b, c][1..] == [b, c] && [b, c][1..] == [c] && [c][1..] == [];
    assert Leads(s2, [c], s3);
    assert Leads(s1, [b, c], s3);
  }

  /** A submitter fills a slot and submits it. */
  lemma SubmitsFrame(s: State, t: nat, image: int) returns (slot: nat, s': State)
    requires Inv(s) && t < |s.submitters| && s.submitters[t].Resting? && IDLE in s.states
    ensures slot < |s.states| && s.states[slot] == IDLE
    ensures Leads(s, [Acquire(t), Write(t, image), Submit(t)], s')
    ensures s' == s.(states := s.states[slot := ON_FLIGHT], images := s.images[slot := image],
                     carriers := s.carriers + [Submitted(Token(slot, image))])
  {
    slot := FirstIdle(s.states);
    var s1 := Do(s, Acquire(t));
    var s2 := Do(s1, Write(t, image));
    s' := Do(s2, Submit(t));
    LeadsThree(s, Acquire(t), s1, Write(t, image), s2, Submit(t), s');
    assert s'.states == s.states[slot := ON_FLIGHT] && s'.submitters == s.submitters;
  }

  /** Its token goes into a scene of its own, which reaches the rule process. */
  lemma SendsScene(s: State, k: nat, token: Token, source: int) returns (s': State)
    requires |s.carriers| == k + 1 && s.carriers[k] == Submitted(token)
    ensures Leads(s, [OpenScene, AddToScene(k, k + 1, source), Receive(k + 1)], s')
    ensures s' == s.(carriers := s.carriers[..k] + [Nothing, Handling([Entry(token, source)], 0, {})])
  {
    var s1 := Do(s, OpenScene);
    var s2 := Do(s1, AddToScene(k, k + 1, source));
    s' := Do(s2, Receive(k + 1));
    LeadsThree(s, OpenScene, s1, AddToScene(k, k + 1, source), s2, Receive(k + 1), s');
    assert s1.carriers == s.carriers + [Scene([])];
    assert [] + [Entry(token, source)] == [Entry(token, source)];
    assert s2.carriers == s.carriers[..k] + [Nothing, Scene([Entry(token, source)])];
  }

  lemma Relays(s: State, k: nat, token: Token, source: int) returns (s': State)
    requires |s.carriers| == k + 2 && s.carriers[k + 1] == Handling([Entry(token, source)], 0, {})
    ensures Leads(s, [Alert(k + 1), PublishDone(k + 1), MapFrame(k + 2)], s')
    ensures s' == s.(carriers := s.carriers[..k + 1] + [Done([]), Mapped(token)])
  {
    var s1 := Do(s, Alert(k + 1));
    var s2 := Do(s1, PublishDone(k + 1));
    s' := Do(s2, MapFrame(k + 2));
    var es := [Entry(token, source)];
    assert s1.carriers == s.carriers[..k + 1] + [Handling(es, 1, {} + {source}), Relay(token)];
    assert Left(es, 1, {} + {source}, 1) == [];
    assert NotRelayed(es, {} + {source}) == [];
    LeadsThree(s, Alert(k + 1), s1, PublishDone(k + 1), s2, MapFrame(k + 2), s');
    assert s2.carriers == s.carriers[..k + 1] + [Done([]), Relay(token)];
    assert s'.carriers == s.carriers[..k + 1] + [Done([]), Mapped(token)];
  }

  /** With an alert, the consumer gets the frame with the pixels as submitted. */
  lemma UndisturbedRelay(s: State, t: nat, image: int, source: int)
      returns (slot: nat, actions: seq<Action>, s': State)
    requires Inv(s) && t < |s.submitters| && s.submitters[t].Resting? && IDLE in s.states
    ensures slot < |s.states| && s.states[slot] == IDLE && Leads(s, actions, s')
    ensures s' == s.(states := s.states[slot := ON_FLIGHT], images := s.images[slot := image],
                     carriers := s.carriers + [Nothing, Done([]), Mapped(Token(slot, image))])
  {
    var k := |s.carriers|;
    var s1, s2;
    slot, s1 := SubmitsFrame(s, t, image);
    s2 := SendsScene(s1, k, Token(slot, image), source);
    assert s1.carriers[..k] == s.carriers;
    var first := [Acquire(t), Write(t, image), Submit(t)];
    var second := [OpenScene, AddToScene(k, k + 1, source), Receive(k + 1)];
    LeadsOn(s, first, s1, second, s2);
    s' := Relays(s2, k, Token(slot, image), source);
    LeadsOn(s, first + second, s2, [Alert(k + 1), PublishDone(k + 1), MapFrame(k + 2)], s');
    actions := first + second + [Alert(k + 1), PublishDone(k + 1), MapFrame(k + 2)];
    assert s2.carriers[..k + 1] == s.carriers + [Nothing];
    assert s'.carriers == s.carriers + [Nothing, Done([]), Mapped(Token(slot, image))];
  }

  /** When the consumer releases a mapped frame and the submitter polls, the slot is idle again. */
  lemma UndisturbedRelease(s: State, k: nat) returns (s': State)
    requires Inv(s) && k < |s.carriers| && s.carriers[k].Mapped?
    ensures Leads(s, [ReleaseFrame(k), PollRelease(k)], s')
    ensures var slot := s.carriers[k].token.slot;
            slot < |s.states| && s' == s.(states := s.states[slot := IDLE], carriers := s.carriers[k := Nothing])
  {
    assert TokensOf(s.carriers[k])[0] == s.carriers[k].token;
    TokenMeansInFlight(s, k, 0);
    var s1 := Do(s, ReleaseFrame(k));
    s' := Do(s1, PollRelease(k));
    assert [ReleaseFrame(k), PollRelease(k)][1..] == [PollRelease(k)] && [PollRelease(k)][1..] == [];
    assert Leads(s1, [PollRelease(k)], s');
  }

  /** Without one, frame_done lists the slot, and it becomes idle. */
  lemma UndisturbedDone(s: State, t: nat, image: int, source: int) returns (slot: nat, actions: seq<Action>, s': State)
    requires Inv(s) && t < |s.submitters| && s.submitters[t].Resting? && IDLE in s.states
    ensures slot < |s.states| && s.states[slot] == IDLE && Leads(s, actions, s')
    ensures |actions| == 9 && actions[6] == NoAlert(|s.carriers| + 1)
    ensures s' == s.(images := s.images[slot := image], carriers := s.carriers + [Nothing, Done([])])
  {
    var k := |s.carriers|;
    var s1, s2;
    slot, s1 := SubmitsFrame(s, t, image);
    var token := Token(slot, image);
    s2 := SendsScene(s1, k, token, source);
    assert s1.carriers[..k] == s.carriers;
    var first := [Acquire(t), Write(t, image), Submit(t)];
    var second := [OpenScene, AddToScene(k, k + 1, source), Receive(k + 1)];
    var third := [NoAlert(k + 1), PublishDone(k + 1), ReleaseDirect(k + 1)];
    LeadsOn(s, first, s1, second, s2);
    s' := Lists(s2, k, token, source);
    LeadsOn(s, first + second, s2, third, s');
    actions := first + second + third;
    assert s2.carriers[..k + 1] == s.carriers + [Nothing];
    assert s'.carriers == s.carriers + [Nothing, Done([])];
    assert s'.states == s.states;
  }

  lemma Lists(s: State, k: nat, token: Token, source: int) returns (s': State)
    requires |s.carriers| == k + 2 && s.carriers[k + 1] == Handling([Entry(token, source)], 0, {})
    ensures Leads(s, [NoAlert(k + 1), PublishDone(k + 1), ReleaseDirect(k + 1)], s')
    ensures s' == s.(carriers := s.carriers[..k + 1] + [Done([])],
                     states := Change(s.states, token.slot, ON_FLIGHT, IDLE))
  {
    var s1 := Do(s, NoAlert(k + 1));
    var s2 := Do(s1, PublishDone(k + 1));
    s' := Do(s2, ReleaseDirect(k + 1));
    var es := [Entry(token, source)];
    assert s1.carriers[k + 1] == Handling(es, 1, {});
    assert Left(es, 1, {}, 1) == [];
    assert NotRelayed(es, {}) == [token];
    LeadsThree(s, NoAlert(k + 1), s1, PublishDone(k + 1), s2, ReleaseDirect(k + 1), s');
    assert [token][1..] == [];
    assert s'.carriers == s.carriers[..k + 1] + [Done([])];
  }
}
