/** The relay decision of the rule process for one scene, with the connection to the consumer, and the frame_done
    message built from it. */
module RuleProcess {
  import opened SlotProtocol

  /** What an entry meets: an alert of the rule engine, the main thread being ready to connect, a connection, and a
      send that goes through. */
  datatype Chance = Chance(alert: bool, ready: bool, connects: bool, sends: bool)

  /** Whether the entry is sent, and whether the relay is connected afterwards. */
  function Outcome(connected: bool, c: Chance): (bool, bool) {
    if !c.alert then (false, connected)
    else if !connected && !(c.ready && c.connects) then (false, connected)
    else (c.sends, c.sends)
  }

  function ConnectedAt(connected: bool, cs: seq<Chance>, i: nat): bool
    requires i <= |cs|
  {
    if i == 0 then connected else Outcome(ConnectedAt(connected, cs, i - 1), cs[i - 1]).1
  }

  /** Entry `i` goes to the consumer. */
  predicate Sent(connected: bool, cs: seq<Chance>, i: nat)
    requires i < |cs|
  {
    Outcome(ConnectedAt(connected, cs, i), cs[i]).0
  }

  ghost predicate SourceSent(connected: bool, es: seq<Entry>, cs: seq<Chance>, n: nat, source: int)
    requires n <= |es| == |cs|
  {
    exists i :: 0 <= i < n && Sent(connected, cs, i) && es[i].source == source
  }

  class Relay {
    var connected: bool

    constructor ()
      ensures !connected
    {
      connected := false;
    }

    /** The loop of processScenePayload. */
    method RelayAlerts(es: seq<Entry>, cs: seq<Chance>) returns (relayed: seq<Token>, vqaSources: set<int>)
      requires |es| == |cs|
      modifies this
      ensures connected == ConnectedAt(old(connected), cs, |cs|)
      ensures forall t :: t in relayed <==> exists i :: 0 <= i < |es| && Sent(old(connected), cs, i) && es[i].token == t
      ensures forall v :: v in vqaSources <==> SourceSent(old(connected), es, cs, |es|, v)
    {
      relayed, vqaSources := [], {};
      ghost var before := connected;
      var i := 0;
      while i < |es|
        invariant 0 <= i <= |es| && connected == ConnectedAt(before, cs, i)
        invariant forall t :: t in relayed <==> exists j :: 0 <= j < i && Sent(before, cs, j) && es[j].token == t
        invariant forall v :: v in vqaSources <==> SourceSent(before, es, cs, i, v)
      {
        ghost var were, sources := relayed, vqaSources;
        var sent := RelayOneEntry(cs[i]);
        if sent {
          relayed := relayed + [es[i].token];
          vqaSources := vqaSources + {es[i].source};
        }
        i := i + 1;
      }
    }

    /** Alert, connection, send. */
    method RelayOneEntry(c: Chance) returns (sent: bool)
      modifies this
      ensures (sent, connected) == Outcome(old(connected), c)
    {
      if !c.alert {
        return false;
      }
      if !connected {
        if !c.ready || !c.connects {
          return false;
        }
        connected := true;
      }
      if !c.sends {
        connected := false;
        return false;
      }
      return true;
    }

    /** The handler of one scene: relay, then the release entries of frame_done. */
    method HandleScene(es: seq<Entry>, cs: seq<Chance>) returns (relayed: seq<Token>, released: seq<Token>)
      requires |es| == |cs|
      modifies this
      ensures forall t :: t in relayed <==> exists i :: 0 <= i < |es| && Sent(old(connected), cs, i) && es[i].token == t
      ensures forall t :: t in released <==>
                exists i :: 0 <= i < |es| && !SourceSent(old(connected), es, cs, |es|, es[i].source) && es[i].token == t
    {
      ghost var before := connected;
      var vqaSources;
      relayed, vqaSources := RelayAlerts(es, cs);
      released := [];
      var i := 0;
      while i < |es|
        invariant 0 <= i <= |es|
        invariant forall t :: t in released <==>
                    exists j :: 0 <= j < i && !SourceSent(before, es, cs, |es|, es[j].source) && es[j].token == t
      {
        if es[i].source !in vqaSources {
          released := released + [es[i].token];
        }
        i := i + 1;
      }
    }
  }

  // Which entries are sent

  lemma {:induction false} ConnectionStays(connected: bool, cs: seq<Chance>, i: nat, j: nat)
    requires i <= j <= |cs| && forall m :: i <= m < j ==> !cs[m].alert
    ensures ConnectedAt(connected, cs, j) == ConnectedAt(connected, cs, i)
    decreases j
  {
    if i < j {
      ConnectionStays(connected, cs, i, j - 1);
    }
  }

  /** The first entry with an alert is sent over the connection there is, or over a new one. */
  lemma FirstAlertSentIff(connected: bool, cs: seq<Chance>, i: nat)
    requires i < |cs| && forall m :: 0 <= m < i ==> !cs[m].alert
    ensures Sent(connected, cs, i) <==>
              cs[i].alert && cs[i].sends && (connected || (cs[i].ready && cs[i].connects))
  {
    ConnectionStays(connected, cs, 0, i);
  }

  /** A later one needs a new connection if and only if the previous alert was not sent: a send that fails closes the
      connection, and entries without alert leave it alone. */
  lemma NextAlertSentIff(connected: bool, cs: seq<Chance>, k: nat, i: nat)
    requires k < i < |cs| && cs[k].alert && forall m :: k < m < i ==> !cs[m].alert
    ensures Sent(connected, cs, i) <==>
              && cs[i].alert && cs[i].sends
              && (Sent(connected, cs, k) || (cs[i].ready && cs[i].connects))
  {
    ConnectionStays(connected, cs, k + 1, i);
  }

  ghost predicate DistinctSlots(es: seq<Entry>) {
    forall i, j :: 0 <= i < j < |es| ==> es[i].token.slot != es[j].token.slot
  }

  /** An entry is relayed, or it is released. */
  ghost predicate Relayed(connected: bool, es: seq<Entry>, cs: seq<Chance>, slot: nat)
    requires |es| == |cs|
  {
    exists i :: 0 <= i < |es| && Sent(connected, cs, i) && es[i].token.slot == slot
  }

  ghost predicate Released(connected: bool, es: seq<Entry>, cs: seq<Chance>, slot: nat)
    requires |es| == |cs|
  {
    exists i :: 0 <= i < |es| && !SourceSent(connected, es, cs, |es|, es[i].source) && es[i].token.slot == slot
  }

  /** No slot of a scene is both relayed and released. */
  lemma NeverBoth(connected: bool, es: seq<Entry>, cs: seq<Chance>, slot: nat)
    requires |es| == |cs| && DistinctSlots(es)
    ensures !(Relayed(connected, es, cs, slot) && Released(connected, es, cs, slot))
  {
    forall i | 0 <= i < |es| && Sent(connected, cs, i)
      ensures SourceSent(connected, es, cs, |es|, es[i].source)
    {
    }
    forall i, j | 0 <= i < |es| && 0 <= j < |es| && es[i].token.slot == slot && es[j].token.slot == slot
      ensures i == j
    {
    }
  }

  /** An entry that is not sent although another entry of its source is. */
  ghost predicate Shadowed(connected: bool, es: seq<Entry>, cs: seq<Chance>, j: nat)
    requires j < |es| == |cs|
  {
    !Sent(connected, cs, j) && SourceSent(connected, es, cs, |es|, es[j].source)
  }

  ghost predicate HasWayBack(connected: bool, es: seq<Entry>, cs: seq<Chance>, j: nat)
    requires j < |es| == |cs|
  {
    var slot := es[j].token.slot;
    Relayed(connected, es, cs, slot) || Released(connected, es, cs, slot)
  }

  /** A slot of a scene finds a way back, over the consumer or over frame_done, if and only if its entry is not
      shadowed by another entry of its source. */
  lemma WayBackIff(connected: bool, es: seq<Entry>, cs: seq<Chance>, j: nat)
    requires j < |es| == |cs| && DistinctSlots(es)
    ensures HasWayBack(connected, es, cs, j) <==> !Shadowed(connected, es, cs, j)
  {
    var slot := es[j].token.slot;
    forall i | 0 <= i < |es| && es[i].token.slot == slot ensures i == j {
    }
    if Sent(connected, cs, j) {
      assert Relayed(connected, es, cs, slot);
    } else if !SourceSent(connected, es, cs, |es|, es[j].source) {
      assert Released(connected, es, cs, slot);
    }
  }

  ghost predicate DistinctSources(es: seq<Entry>) {
    forall i, j :: 0 <= i < j < |es| ==> es[i].source != es[j].source
  }

  /** Only entry `i` has an alert, and its send goes through. */
  function OnlyAlert(n: nat, i: nat): (cs: seq<Chance>)
    ensures |cs| == n
    ensures forall m :: 0 <= m < n ==> cs[m] == Chance(m == i, true, true, true)
  {
    seq(n, m => Chance(m == i, true, true, true))
  }

  /** The condition on the scene alone: every slot finds a way back, whatever alerts, connection and sends there are, if
      and only if no two entries have one source. */
  lemma AlwaysWayBackIff(connected: bool, es: seq<Entry>)
    requires DistinctSlots(es)
    ensures DistinctSources(es) <==>
              forall cs: seq<Chance>, j :: |cs| == |es| && 0 <= j < |es| ==> HasWayBack(connected, es, cs, j)
  {
    if DistinctSources(es) {
      forall cs: seq<Chance>, j | |cs| == |es| && 0 <= j < |es| ensures HasWayBack(connected, es, cs, j) {
        WayBackIff(connected, es, cs, j);
        if i :| 0 <= i < |es| && Sent(connected, cs, i) && es[i].source == es[j].source {
          assert i == j;
        }
      }
    } else {
      var i, j :| 0 <= i < j < |es| && es[i].source == es[j].source;
      var cs := OnlyAlert(|es|, i);
      assert Sent(connected, cs, i) && !Sent(connected, cs, j);
      assert SourceSent(connected, es, cs, |es|, es[j].source);
      WayBackIff(connected, es, cs, j);
      assert !HasWayBack(connected, es, cs, j);
    }
  }
}
