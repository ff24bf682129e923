/**
 What is in flight, what an acknowledgement removes, and what the handshake estimate measures,
 over all the packets a flow has received.
 */
module FlowAcks {
  import opened Bytes
  import opened SerialNumbers
  import opened FlowKeys
  import opened OrderedMaps
  import opened FlowStates
  import opened FlowStateLaws

  function Other(d: Dir): Dir {
    match d
    case LowToHigh => HighToLow
    case HighToLow => LowToHigh
  }

  predicate Acks(p: FlowPacket, d: Dir) {
    p.dir == d && p.tcp.Some? && p.tcp.value.ackFlag
  }

  // ---------------------------------------------------------------- one packet

  /** The state an acknowledgement acts on: everything else about the packet is already recorded. */
  lemma BeforeAck(s: FlowState, p: FlowPacket) returns (s': FlowState)
    requires InFlightOk(s) && p.tcp.Some?
    ensures InFlightOk(s') && PeerUnacked(s', p.dir) == PeerUnacked(s, p.dir)
    ensures forall e <- PeerUnacked(s', Other(p.dir)) ::
      e in PeerUnacked(s, Other(p.dir)) || (CarriesData(p, p.dir) && e == (EndOf(p), p.ts))
    ensures Account(s, p).0 == Flags(AckedBy(s', p.dir, p.tcp.value, p.ts), p.dir, p.tcp.value)
  {
    var tcp := p.tcp.value;
    BookkeepingOk(s, p);
    var r := Handshake(MarkMax(Count(s, p), p.dir, tcp).0, tcp, p.ts);
    assert PeerUnacked(r, Other(p.dir)) == PeerUnacked(s, Other(p.dir));
    SentByOk(r, p.dir, tcp, p.ts);
    s' := SentBy(r, p.dir, tcp, p.ts);
    if tcp.payloadLen > 0 {
      NoteSentOk(PeerUnacked(r, Other(p.dir)), EndOf(p), p.ts);
    }
  }

  /** An acknowledgement removes exactly the entries whose numbers are not above its own. */
  lemma AckRemoves(s: FlowState, p: FlowPacket, e: (u32, int))
    requires InFlightOk(s) && Acks(p, p.dir)
    ensures e in PeerUnacked(Account(s, p).0, p.dir) <==> e in PeerUnacked(s, p.dir) && e.0 > p.tcp.value.ack
  {
    var s' := BeforeAck(s, p);
    var sent, acked := PeerUnacked(s, p.dir), UpTo(PeerUnacked(s, p.dir), p.tcp.value.ack);
    UpToIsPrefix(sent, p.tcp.value.ack);
    AfterUpTo(sent, p.tcp.value.ack);
    assert sent == acked + sent[|acked|..];
    assert PeerUnacked(Account(s, p).0, p.dir) == sent[|acked|..];
  }

  lemma AccountInFlight(s: FlowState, p: FlowPacket, d: Dir, e: (u32, int))
    requires InFlightOk(s) && e in PeerUnacked(Account(s, p).0, d)
    ensures || (e in PeerUnacked(s, d) && (Acks(p, d) ==> e.0 > p.tcp.value.ack))
            || (CarriesData(p, Other(d)) && e == (EndOf(p), p.ts))
  {
    if p.tcp.Some? {
      if Acks(p, d) {
        AckRemoves(s, p, e);
      } else {
        var s' := BeforeAck(s, p);
        var r := AckedBy(s', p.dir, p.tcp.value, p.ts);
        assert PeerUnacked(Account(s, p).0, d) == PeerUnacked(r, d);
        if p.dir == d {
          assert r == s';
        } else {
          assert Other(p.dir) == d && Other(d) == p.dir && PeerUnacked(r, d) == PeerUnacked(s', d);
        }
      }
    }
  }

  // ---------------------------------------------------------------- whole flows

  /** Both in-flight maps stay ordered and within 256 entries, whatever the flow receives. */
  lemma {:induction false} InFlightBounded(ps: seq<FlowPacket>)
    requires ps != []
    ensures InFlightOk(StateBefore(ps)) && InFlightOk(Replay(ps))
  {
    if |ps| > 1 {
      InFlightBounded(ps[..|ps| - 1]);
    }
    InFlight(StateBefore(ps), ps[|ps| - 1]);
  }

  /** Packet `i` carried data that no later acknowledgement from `d` numbers at or above. */
  predicate Pending(ps: seq<FlowPacket>, d: Dir, i: nat) {
    && i < |ps| && CarriesData(ps[i], Other(d))
    && forall j :: i < j < |ps| && Acks(ps[j], d) ==> ps[j].tcp.value.ack < EndOf(ps[i])
  }

  lemma NothingYet(now: int, d: Dir)
    ensures PeerUnacked(NewState(now), d) == []
  {
  }

  /** IN FLIGHT. Every entry is a data packet of the flow that nothing since has acknowledged. */
  lemma {:induction false} InFlightIsPending(ps: seq<FlowPacket>, d: Dir, e: (u32, int)) returns (i: nat)
    requires ps != [] && e in PeerUnacked(Replay(ps), d)
    ensures Pending(ps, d, i) && e == (EndOf(ps[i]), ps[i].ts)
  {
    hide Account, InFlightOk, PeerUnacked;
    var n := |ps| - 1;
    InFlightBounded(ps);
    if n == 0 {
      NothingYet(ps[0].ts, d);
    }
    AccountInFlight(StateBefore(ps), ps[n], d, e);
    if CarriesData(ps[n], Other(d)) && e == (EndOf(ps[n]), ps[n].ts) {
      i := n;
    } else {
      i := InFlightIsPending(ps[..n], d, e);
    }
  }

  // ---------------------------------------------------------------- acknowledgement and wrap-around

  lemma NumberOrder(isn: u32, x: nat, a: nat)
    requires -MODULUS < x - a < MODULUS
    ensures (At(isn, x) <= At(isn, a) <==> x <= a) <==> (isn + x) / MODULUS == (isn + a) / MODULUS
  {
    var qx, qa := (isn + x) / MODULUS, (isn + a) / MODULUS;
    assert At(isn, x) == isn + x - MODULUS * qx && At(isn, a) == isn + a - MODULUS * qa;
    assert qa - 1 <= qx <= qa + 1;
  }

  /**
   ACKNOWLEDGEMENT. Numbers are compared as they stand, not serially. Data in flight up to offset
   `x` is treated as an acknowledgement up to offset `a` demands, removed if covered and kept if
   not, exactly when no wrap of the sequence number lies between the two.
   */
  lemma {:induction false} AckRightIffSameLap(isn: u32, ps: seq<FlowPacket>, x: nat, a: nat, t: int)
    requires ps != [] && Acks(ps[|ps| - 1], ps[|ps| - 1].dir)
    requires var p := ps[|ps| - 1];
      p.tcp.value.ack == At(isn, a) && (At(isn, x), t) in PeerUnacked(StateBefore(ps), p.dir)
    requires -MODULUS < x - a < MODULUS
    ensures ((At(isn, x), t) !in PeerUnacked(Replay(ps), ps[|ps| - 1].dir) <==> x <= a)
            <==> (isn + x) / MODULUS == (isn + a) / MODULUS
  {
    InFlightBounded(ps);
    AckRemoves(StateBefore(ps), ps[|ps| - 1], (At(isn, x), t));
    NumberOrder(isn, x, a);
  }

  /** Five bytes and then fifteen, from ten numbers before the wrap, answered by one acknowledgement. */
  function AcrossWrap(ack: u32): seq<FlowPacket> {
    [FlowPacket(HighToLow, 59, 0, Some(TcpBits(0xFFFF_FFF6, 0, 5, false, false, false, false))),
     FlowPacket(HighToLow, 69, 1000, Some(TcpBits(0xFFFF_FFFB, 0, 15, false, false, false, false))),
     FlowPacket(LowToHigh, 54, 9000, Some(TcpBits(0, ack, 0, false, true, false, false)))]
  }

  lemma AcrossWrapSent(ack: u32)
    ensures StateBefore(AcrossWrap(ack)).unackedHigh == [(10, 1000), (0xFFFF_FFFB, 0)]
    ensures StateBefore(AcrossWrap(ack)).srtt == None
  {
    var ps := AcrossWrap(ack);
    assert ps[..2][..1] == ps[..1] && ps[..1][0] == ps[0];
    var s1 := Replay(ps[..1]);
    assert s1.unackedHigh == [(0xFFFF_FFFB, 0)];
    assert Replay(ps[..2]) == Account(s1, ps[1]).0;
  }

  /** All twenty bytes acknowledged: the first segment, sent before the wrap, stays in flight. */
  lemma CoveredButKept()
    ensures Replay(AcrossWrap(10)).unackedHigh == [(0xFFFF_FFFB, 0)]
  {
    AcrossWrapSent(10);
  }

  /** Five bytes acknowledged: the fifteen not yet received are removed too, and timed. */
  lemma RemovedButNotCovered()
    ensures Replay(AcrossWrap(0xFFFF_FFFB)).unackedHigh == []
    ensures SamplesOf(StateBefore(AcrossWrap(0xFFFF_FFFB)), AcrossWrap(0xFFFF_FFFB)[2]) == [8.0, 9.0]
  {
    AcrossWrapSent(0xFFFF_FFFB);
    var s := StateBefore(AcrossWrap(0xFFFF_FFFB));
    assert s.unackedHigh[1..] == [(0xFFFF_FFFB, 0)] && s.unackedHigh[1..][1..] == [];
    assert UpTo(s.unackedHigh, 0xFFFF_FFFB) == s.unackedHigh;
  }

  // ---------------------------------------------------------------- the handshake

  predicate IsSyn(p: FlowPacket) {
    p.tcp.Some? && p.tcp.value.syn && !p.tcp.value.ackFlag
  }

  predicate IsSynAck(p: FlowPacket) {
    p.tcp.Some? && p.tcp.value.syn && p.tcp.value.ackFlag
  }

  /** Packet `i` is the flow's first SYN. */
  predicate Opens(ps: seq<FlowPacket>, i: nat) {
    i < |ps| && IsSyn(ps[i]) && forall k :: 0 <= k < i ==> !IsSyn(ps[k])
  }

  /** Packet `j` is the first SYN/ACK after packet `i` that is not stamped before it. */
  predicate Answers(ps: seq<FlowPacket>, i: nat, j: nat) {
    && i < j < |ps| && IsSynAck(ps[j]) && ps[j].ts >= ps[i].ts
    && forall k :: i < k < j && IsSynAck(ps[k]) ==> ps[k].ts < ps[i].ts
  }

  lemma AccountHandshake(s: FlowState, p: FlowPacket)
    ensures var r := Account(s, p).0;
      && r.synTs == (if s.synTs.None? && IsSyn(p) then Some(p.ts) else s.synTs)
      && r.handshakeRtt == if s.handshakeRtt.None? && IsSynAck(p) && s.synTs.Some? && p.ts >= s.synTs.value
                           then Some(ToMs(p.ts - s.synTs.value)) else s.handshakeRtt
  {
    if p.tcp.Some? {
      var s1 := MarkMax(Count(s, p), p.dir, p.tcp.value).0;
      assert s1.synTs == s.synTs && s1.handshakeRtt == s.handshakeRtt;
      RttHandshake(s1, p.dir, p.tcp.value, p.ts);
    }
  }

  lemma RttHandshake(s: FlowState, dir: Dir, tcp: TcpBits, ts: int)
    ensures var r, h := Rtt(s, dir, tcp, ts), Handshake(s, tcp, ts);
      r.synTs == h.synTs && r.handshakeRtt == h.handshakeRtt
  {
    hide Handshake, UpTo, Samples, SmoothAll, NoteSent;
  }

  lemma {:induction false} OpenedBy(ps: seq<FlowPacket>) returns (i: nat)
    requires ps != []
    ensures Replay(ps).synTs.None? ==> forall k :: 0 <= k < |ps| ==> !IsSyn(ps[k])
    ensures Replay(ps).synTs.Some? ==> Opens(ps, i) && Replay(ps).synTs == Some(ps[i].ts)
  {
    hide Account, IsSyn, IsSynAck;
    var n := |ps| - 1;
    i := n;
    AccountHandshake(StateBefore(ps), ps[n]);
    if n > 0 {
      var k := OpenedBy(ps[..n]);
      if Replay(ps[..n]).synTs.Some? {
        i := k;
      }
    }
  }

  /**
   HANDSHAKE. The estimate is the time from the flow's first SYN to the first SYN/ACK after it
   that is not stamped before it, and there is none as long as no such SYN/ACK has come.
   */
  lemma {:induction false} HandshakeMeasured(ps: seq<FlowPacket>) returns (i: nat, j: nat)
    requires ps != []
    ensures Replay(ps).handshakeRtt.Some? ==>
      Opens(ps, i) && Answers(ps, i, j) && Replay(ps).handshakeRtt == Some(ToMs(ps[j].ts - ps[i].ts))
    ensures Replay(ps).handshakeRtt.None? ==>
      forall i, k :: 0 <= i < k < |ps| && Opens(ps, i) && IsSynAck(ps[k]) ==> ps[k].ts < ps[i].ts
  {
    hide Account, ToMs;
    var n := |ps| - 1;
    i, j := 0, n;
    AccountHandshake(StateBefore(ps), ps[n]);
    if n > 0 {
      var i0, j0 := HandshakeMeasured(ps[..n]);
      if Replay(ps[..n]).handshakeRtt.Some? {
        i, j := i0, j0;
      } else {
        i := OpenedBy(ps[..n]);
        forall m, k | 0 <= m < k < |ps| && Opens(ps, m) && IsSynAck(ps[k]) && k < n
          ensures ps[k].ts < ps[m].ts
        {
          assert Opens(ps[..n], m);
        }
      }
    }
  }
}
