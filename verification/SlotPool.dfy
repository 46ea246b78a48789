/** The slots of the shared frame buffer: which slot is free, being written, or out with a consumer.
    Every method runs under the pool's mutex and is therefore one step of SlotProtocol. */
module SlotPool {

  datatype SlotState = IDLE | IN_USE | ON_FLIGHT

  /** The slot that AcquireSlot takes: the first idle one, or -1. */
  function FirstIdle(states: seq<SlotState>): (r: int)
    ensures -1 <= r < |states|
    ensures r >= 0 ==> states[r] == IDLE && forall i :: 0 <= i < r ==> states[i] != IDLE
    ensures r == -1 ==> forall i :: 0 <= i < |states| ==> states[i] != IDLE
  {
    if states == [] then -1
    else if states[0] == IDLE then 0
    else
      var r := FirstIdle(states[1..]);
      assert forall i :: 1 <= i < |states| ==> states[i] == states[1..][i - 1];
      if r == -1 then -1 else r + 1
  }

  /** A state change that is refused unless the slot exists and is in state `from`. */
  function Change(states: seq<SlotState>, slot: int, from: SlotState, to: SlotState): (r: seq<SlotState>)
    ensures |r| == |states|
  {
    if 0 <= slot < |states| && states[slot] == from then states[slot := to] else states
  }

  predicate Changeable(states: seq<SlotState>, slot: int, from: SlotState) {
    0 <= slot < |states| && states[slot] == from
  }

  /** The number of slots in flight. */
  function InFlight(states: seq<SlotState>): nat {
    if states == [] then 0 else (if states[0] == ON_FLIGHT then 1 else 0) + InFlight(states[1..])
  }

  lemma {:induction false} InFlightDrops(states: seq<SlotState>, slot: nat)
    requires slot < |states| && states[slot] == ON_FLIGHT
    ensures InFlight(states[slot := IDLE]) == InFlight(states) - 1
  {
    if slot == 0 {
      assert states[slot := IDLE][1..] == states[1..];
    } else {
      assert states[slot := IDLE][1..] == states[1..][slot - 1 := IDLE];
      InFlightDrops(states[1..], slot - 1);
    }
  }

  class Pool {
    var states: seq<SlotState>

    constructor (slotCount: nat)
      ensures states == seq(slotCount, _ => IDLE)
    {
      states := seq(slotCount, _ => IDLE);
    }

    method AcquireSlot() returns (slot: int)
      modifies this
      ensures slot == FirstIdle(old(states))
      ensures states == Change(old(states), slot, IDLE, IN_USE)
    {
      var i := 0;
      while i < |states|
        invariant 0 <= i <= |states| && states == old(states)
        invariant forall j :: 0 <= j < i ==> states[j] != IDLE
      {
        if states[i] == IDLE {
          states := states[i := IN_USE];
          return i;
        }
        i := i + 1;
      }
      return -1;
    }

    method SubmitSlot(slot: int) returns (ok: bool)
      modifies this
      ensures ok == Changeable(old(states), slot, IN_USE) && states == Change(old(states), slot, IN_USE, ON_FLIGHT)
    {
      if slot < 0 || slot >= |states| || states[slot] != IN_USE {
        return false;
      }
      states := states[slot := ON_FLIGHT];
      return true;
    }

    method ReleaseSlot(slot: int) returns (ok: bool)
      modifies this
      ensures ok == Changeable(old(states), slot, ON_FLIGHT) && states == Change(old(states), slot, ON_FLIGHT, IDLE)
    {
      if slot < 0 || slot >= |states| || states[slot] != ON_FLIGHT {
        return false;
      }
      states := states[slot := IDLE];
      return true;
    }

    method RevertSlot(slot: int) returns (ok: bool)
      modifies this
      ensures ok == Changeable(old(states), slot, IN_USE) && states == Change(old(states), slot, IN_USE, IDLE)
    {
      if slot < 0 || slot >= |states| || states[slot] != IN_USE {
        return false;
      }
      states := states[slot := IDLE];
      return true;
    }
  }

  /** The release loops of PollReleases and OnFrameDonePayload: exactly the named slots that are in flight become idle,
      and each counts once, however often and in whatever order the slots are named. */
  method ReleaseAll(pool: Pool, slots: seq<int>) returns (count: nat)
    modifies pool
    ensures |pool.states| == |old(pool.states)|
    ensures forall x :: 0 <= x < |pool.states| ==>
              pool.states[x] == if x in slots && old(pool.states)[x] == ON_FLIGHT then IDLE else old(pool.states)[x]
    ensures count == InFlight(old(pool.states)) - InFlight(pool.states)
  {
    count := 0;
    var i := 0;
    while i < |slots|
      invariant 0 <= i <= |slots| && |pool.states| == |old(pool.states)|
      invariant forall x :: 0 <= x < |pool.states| ==>
                  pool.states[x] == if x in slots[..i] && old(pool.states)[x] == ON_FLIGHT then IDLE
                                    else old(pool.states)[x]
      invariant count == InFlight(old(pool.states)) - InFlight(pool.states)
    {
      if Changeable(pool.states, slots[i], ON_FLIGHT) {
        InFlightDrops(pool.states, slots[i]);
      }
      var ok := pool.ReleaseSlot(slots[i]);
      if ok {
        count := count + 1;
      }
      assert slots[..i + 1] == slots[..i] + [slots[i]];
      i := i + 1;
    }
    assert slots[..i] == slots;
  }
}
