/** The lossy broadcast ring (`broadcast/hub.rs`): every subscriber reads the same stream at its own
    pace, and loses the oldest unread messages once it is more than a ring behind. */
module Hub {
  import opened Protocol

  /** A ring of one would let a state evict the event before it. */
  const MIN_CAPACITY := 2

  function RingCapacity(requested: nat): nat {
    if requested < MIN_CAPACITY then MIN_CAPACITY else requested
  }

  datatype Received<T> = Nothing | Lagged(missed: nat) | Got(message: T)

  /** One `try_recv` of a subscriber that has read up to `next`: what it gets, and where it stands
      afterwards. */
  function TryRecv<T>(sent: seq<T>, capacity: nat, next: nat): (r: (Received<T>, nat))
    requires next <= |sent|
    ensures next <= r.1 <= |sent|
  {
    if next == |sent| then (Nothing, next)
    else if |sent| - next > capacity then (Lagged(|sent| - capacity - next), |sent| - capacity)
    else (Got(sent[next]), next + 1)
  }

  class BroadcastHub {
    const capacity: nat
    var sent: seq<BroadcastEnvelope>

    constructor (requested: nat)
      ensures capacity == RingCapacity(requested) && sent == []
    {
      capacity, sent := RingCapacity(requested), [];
    }

    /** A subscriber starts at the tail. */
    method Subscribe() returns (next: nat)
      ensures next == |sent|
    {
      next := |sent|;
    }

    method Publish(m: BroadcastEnvelope)
      modifies this
      ensures sent == old(sent) + [m]
    {
      sent := sent + [m];
    }
  }

  /** Whatever capacity was asked for, a subscriber that is up to date receives both halves of an
      event-and-state pair; with a ring of one it would not. */
  lemma CapacityFloorKeepsPairs<T>(sent: seq<T>, event: T, state: T, requested: nat)
    ensures var stream := sent + [event, state]; var first := TryRecv(stream, RingCapacity(requested), |sent|);
      first == (Got(event), |sent| + 1) && TryRecv(stream, RingCapacity(requested), first.1) == (Got(state), |sent| + 2)
    ensures RingCapacity(requested) >= 2 && (requested >= 2 ==> RingCapacity(requested) == requested)
    ensures TryRecv(sent + [event, state], 1, |sent|) == (Lagged(1), |sent| + 1)
  {
  }
}
