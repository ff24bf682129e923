/**
 The fan-out of live events to subscribers (`ipc/server.rs`, `Bus`): bounded queues, events
 dropped for a subscriber whose queue is full, disconnected subscribers pruned.
 */
module EventBus {
  import opened Bytes
  import opened Inspector

  const QUEUE := 1024

  /** A subscription: what its reader has taken, what still waits, and whether it is connected. */
  datatype Sub = Sub(id: nat, taken: seq<Event>, queue: seq<Event>, open: bool)

  /** `try_send` on a connected queue. */
  function Offered(s: Sub, ev: Event): Sub {
    if |s.queue| < QUEUE then s.(queue := s.queue + [ev]) else s
  }

  function Broadcasted(subs: seq<Sub>, ev: Event): seq<Sub> {
    if subs == [] then [] else
    var before, last := Broadcasted(subs[..|subs| - 1], ev), subs[|subs| - 1];
    if last.open then before + [Offered(last, ev)] else before
  }

  /** A reader takes the oldest waiting event. */
  function Took(s: Sub): Sub {
    if s.queue == [] then s else s.(taken := s.taken + [s.queue[0]], queue := s.queue[1..])
  }

  function Changed(subs: seq<Sub>, id: nat, f: Sub -> Sub): seq<Sub> {
    if subs == [] then [] else
    var last := subs[|subs| - 1];
    Changed(subs[..|subs| - 1], id, f) + [if last.id == id then f(last) else last]
  }

  datatype Op = Subscribe | Broadcast(ev: Event) | Take(id: nat) | HangUp(id: nat)

  /** The subscribers and the next subscription's number. */
  type State = (seq<Sub>, nat)

  function Step(s: State, op: Op): State {
    match op
    case Subscribe => (s.0 + [Sub(s.1, [], [], true)], s.1 + 1)
    case Broadcast(ev) => (Broadcasted(s.0, ev), s.1)
    case Take(id) => (Changed(s.0, id, Took), s.1)
    case HangUp(id) => (Changed(s.0, id, (x: Sub) => x.(open := false)), s.1)
  }

  function Run(ops: seq<Op>): State {
    if ops == [] then ([], 0) else Step(Run(ops[..|ops| - 1]), ops[|ops| - 1])
  }

  class Bus {
    var subs: seq<Sub>
    var next: nat

    constructor ()
      ensures (subs, next) == Run([])
    {
      subs, next := [], 0;
    }

    method AddSubscriber() returns (id: nat)
      modifies this
      ensures (subs, next) == Step(old((subs, next)), Subscribe) && id == old(next)
    {
      id := next;
      subs := subs + [Sub(id, [], [], true)];
      next := next + 1;
    }

    /** `retain` over the subscriber list. */
    method Send(ev: Event)
      modifies this
      ensures (subs, next) == Step(old((subs, next)), Broadcast(ev))
    {
      var kept: seq<Sub> := [];
      for i := 0 to |subs|
        invariant subs == old(subs) && next == old(next) && kept == Broadcasted(subs[..i], ev)
      {
        assert subs[..i + 1][..i] == subs[..i];
        if subs[i].open {
          kept := kept + [Offered(subs[i], ev)];
        }
      }
      assert subs[..|subs|] == subs;
      subs := kept;
    }
  }

  // ---------------------------------------------------------------- one subscriber's story

  /** What one subscription goes through: the events sent since, and its reader's turns. */
  datatype Turn = Sent(ev: Event) | Taken | Closed

  function Lived(s: Sub, t: Turn): Sub {
    match t
    case Sent(ev) => Offered(s, ev)
    case Taken => Took(s)
    case Closed => s.(open := false)
  }

  function Life(id: nat, turns: seq<Turn>): Sub {
    if turns == [] then Sub(id, [], [], true) else Lived(Life(id, turns[..|turns| - 1]), turns[|turns| - 1])
  }

  /** The operations after the subscription numbered `id`, as that subscriber sees them. */
  function Turns(ops: seq<Op>, id: nat): seq<Turn> {
    if ops == [] then [] else
    var before := Turns(ops[..|ops| - 1], id);
    if Run(ops[..|ops| - 1]).1 <= id then before else
    match ops[|ops| - 1]
    case Subscribe => before
    case Broadcast(ev) => before + [Sent(ev)]
    case Take(other) => if other == id then before + [Taken] else before
    case HangUp(other) => if other == id then before + [Closed] else before
  }

  lemma {:induction false} BroadcastedMember(subs: seq<Sub>, ev: Event, s: Sub)
    ensures s in Broadcasted(subs, ev) <==> exists b <- subs :: b.open && s == Offered(b, ev)
  {
    if subs != [] {
      var n := |subs| - 1;
      BroadcastedMember(subs[..n], ev, s);
      assert subs == subs[..n] + [subs[n]];
    }
  }

  lemma {:induction false} ChangedMember(subs: seq<Sub>, id: nat, f: Sub -> Sub, s: Sub)
    ensures s in Changed(subs, id, f) <==> exists b <- subs :: s == if b.id == id then f(b) else b
  {
    if subs != [] {
      var n := |subs| - 1;
      ChangedMember(subs[..n], id, f, s);
      assert subs == subs[..n] + [subs[n]];
    }
  }

  /** Subscribers do not interfere: each is what its own story makes it, until it is pruned. */
  lemma {:induction false} SubscribersAreIndependent(ops: seq<Op>, s: Sub)
    requires s in Run(ops).0
    ensures s.id < Run(ops).1 && s == Life(s.id, Turns(ops, s.id))
  {
    if ops != [] {
      var n, op := |ops| - 1, ops[|ops| - 1];
      var (subs, next) := Run(ops[..n]);
      match op {
        case Subscribe => {
          if s in subs {
            SubscribersAreIndependent(ops[..n], s);
          } else {
            NotYet(ops[..n], next);
          }
        }
        case Broadcast(ev) => {
          BroadcastedMember(subs, ev, s);
          var b :| b in subs && b.open && s == Offered(b, ev);
          SubscribersAreIndependent(ops[..n], b);
        }
        case Take(id) => {
          ChangedMember(subs, id, Took, s);
          var b :| b in subs && s == if b.id == id then Took(b) else b;
          SubscribersAreIndependent(ops[..n], b);
        }
        case HangUp(id) => {
          ChangedMember(subs, id, (x: Sub) => x.(open := false), s);
          var b :| b in subs && s == if b.id == id then b.(open := false) else b;
          SubscribersAreIndependent(ops[..n], b);
        }
      }
    }
  }

  /** A number not yet given out has no story. */
  lemma {:induction false} NotYet(ops: seq<Op>, id: nat)
    requires Run(ops).1 <= id
    ensures Turns(ops, id) == []
  {
    if ops != [] {
      NotYet(ops[..|ops| - 1], id);
    }
  }

  // ---------------------------------------------------------------- what a subscriber receives

  function Events(turns: seq<Turn>): seq<Event> {
    if turns == [] then [] else
    var before, last := Events(turns[..|turns| - 1]), turns[|turns| - 1];
    if last.Sent? then before + [last.ev] else before
  }

  function Received(s: Sub): seq<Event> {
    s.taken + s.queue
  }

  /** `part` is `whole` with some events left out, the rest in order. */
  ghost predicate InOrder(part: seq<Event>, whole: seq<Event>)
    decreases |whole|
  {
    if whole == [] then part == [] else
    var n := |whole| - 1;
    || InOrder(part, whole[..n])
    || (part != [] && part[|part| - 1] == whole[n] && InOrder(part[..|part| - 1], whole[..n]))
  }

  /** No event was sent while the queue was full. */
  ghost predicate AlwaysRoom(id: nat, turns: seq<Turn>) {
    forall i :: 0 <= i < |turns| && turns[i].Sent? ==> |Life(id, turns[..i]).queue| < 1024
  }

  lemma RoomBefore(id: nat, turns: seq<Turn>)
    requires turns != []
    ensures var n := |turns| - 1;
      AlwaysRoom(id, turns) <==> AlwaysRoom(id, turns[..n]) && (turns[n].Sent? ==> |Life(id, turns[..n]).queue| < 1024)
  {
    var n := |turns| - 1;
    assert forall i :: 0 <= i < n ==> turns[..n][..i] == turns[..i] && turns[..n][i] == turns[i];
  }

  /** What one turn adds to what was received. */
  lemma ReceivedMore(s: Sub, t: Turn)
    ensures Received(Lived(s, t)) == if t.Sent? && |s.queue| < QUEUE then Received(s) + [t.ev] else Received(s)
  {
    match t {
      case Sent(ev) => { assert s.taken + (s.queue + [ev]) == Received(s) + [ev]; }
      case Taken => {
        if s.queue != [] {
          assert (s.taken + [s.queue[0]]) + s.queue[1..] == Received(s);
        }
      }
      case Closed => {}
    }
  }

  lemma {:induction false} ReceivedAtMost(id: nat, turns: seq<Turn>)
    ensures |Received(Life(id, turns))| <= |Events(turns)|
    ensures InOrder(Received(Life(id, turns)), Events(turns))
  {
    if turns != [] {
      hide Received, Lived, InOrder;
      var n := |turns| - 1;
      ReceivedAtMost(id, turns[..n]);
      ReceivedMore(Life(id, turns[..n]), turns[n]);
      if turns[n].Sent? {
      }
    }
  }

  /**
   A subscriber gets the events sent since it subscribed in order, some possibly missing; it
   misses none if and only if none was sent while its queue was full.
   */
  lemma {:induction false} LosslessIffRoom(id: nat, turns: seq<Turn>)
    ensures InOrder(Received(Life(id, turns)), Events(turns))
    ensures Received(Life(id, turns)) == Events(turns) <==> AlwaysRoom(id, turns)
  {
    ReceivedAtMost(id, turns);
    if turns == [] {
    } else {
      hide Received, Lived, InOrder, AlwaysRoom;
      var n := |turns| - 1;
      LosslessIffRoom(id, turns[..n]);
      ReceivedAtMost(id, turns[..n]);
      RoomBefore(id, turns);
      ReceivedMore(Life(id, turns[..n]), turns[n]);
    }
  }
}
