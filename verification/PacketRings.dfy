/** The bounded packet buffer (`storage/ring.rs`). */
module PacketRings {
  import opened Bytes

  /** The buffer after one more packet: the oldest leaves when it is full. */
  function Pushed<P>(packets: seq<P>, capacity: nat, p: P): seq<P> {
    (if |packets| >= capacity && packets != [] then packets[1..] else packets) + [p]
  }

  function PushedAll<P>(packets: seq<P>, capacity: nat, more: seq<P>): seq<P> {
    if more == [] then packets else Pushed(PushedAll(packets, capacity, more[..|more| - 1]), capacity, more[|more| - 1])
  }

  /** A buffer of capacity zero still holds one packet. */
  function Room(capacity: nat): nat {
    if capacity == 0 then 1 else capacity
  }

  function Newest<P>(s: seq<P>, n: nat): seq<P> {
    if |s| <= n then s else s[|s| - n..]
  }

  /** The buffer always holds the newest packets, as many as it has room for. */
  lemma {:induction false} RingHoldsNewest<P>(capacity: nat, all: seq<P>)
    ensures PushedAll([], capacity, all) == Newest(all, Room(capacity))
  {
    if all != [] {
      var n := |all| - 1;
      RingHoldsNewest(capacity, all[..n]);
      assert all == all[..n] + [all[n]];
    }
  }

  class PacketRing<P> {
    var packets: seq<P>
    const capacity: nat

    constructor (capacity: nat)
      ensures packets == [] && this.capacity == capacity
    {
      packets := [];
      this.capacity := capacity;
    }

    method Push(p: P) returns (evicted: Option<P>)
      modifies this
      ensures packets == Pushed(old(packets), capacity, p)
      ensures evicted == if |old(packets)| >= capacity && old(packets) != [] then Some(old(packets)[0]) else None
    {
      evicted := None;
      if |packets| >= capacity {
        if |packets| > 0 {
          evicted := Some(packets[0]);
          packets := packets[1..];
        }
      }
      packets := packets + [p];
    }
  }
}
