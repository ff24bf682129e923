/**
 One flow's bookkeeping (`flow/mod.rs`, `flow/tracker.rs`): accounting per direction,
 retransmission detection by serial-number comparison, and round-trip estimates.
 Times are in microseconds; the floating-point estimates are modelled as reals.
 */
module FlowStates {
  import opened Bytes
  import opened SerialNumbers
  import opened FlowKeys
  import opened OrderedMaps

  const MAX_UNACKED := 256

  datatype TcpBits = TcpBits(seqNum: u32, ack: u32, payloadLen: nat, syn: bool, ackFlag: bool, fin: bool, rst: bool)

  datatype FlowState = FlowState(
    maxSeqLow: Option<u32>, maxSeqHigh: Option<u32>,
    finLow: bool, finHigh: bool, rstSeen: bool,
    firstSeen: int, lastSeen: int,
    pktsLowToHigh: nat, pktsHighToLow: nat, bytesLowToHigh: nat, bytesHighToLow: nat,
    synTs: Option<int>, synackTs: Option<int>, handshakeRtt: Option<real>, srtt: Option<real>,
    unackedLow: Entries<int>, unackedHigh: Entries<int>
  )

  /** What the tracker reads from one packet of a flow. */
  datatype FlowPacket = FlowPacket(dir: Dir, wire: nat, ts: int, tcp: Option<TcpBits>)

  function NewState(now: int): FlowState {
    FlowState(None, None, false, false, false, now, now, 0, 0, 0, 0, None, None, None, None, [], [])
  }

  // ---------------------------------------------------------------- retransmission

  /** The maximum after one segment end, and whether the segment is flagged as retransmitted. */
  function NoteEnd(max: Option<u32>, end: u32): (Option<u32>, bool) {
    if max.Some? && SeqLeq(end, max.value) then (max, true) else (Some(end), false)
  }

  // ---------------------------------------------------------------- round-trip estimates

  function ToMs(us: int): real {
    us as real / 1000.0
  }

  /** The usable samples of acknowledged send times, oldest sequence number first. */
  function Samples(acked: Entries<int>, now: int): (samples: seq<real>)
    ensures forall x <- samples :: x >= 0.0
  {
    if acked == [] then []
    else (if now - acked[0].1 >= 0 then [ToMs(now - acked[0].1)] else []) + Samples(acked[1..], now)
  }

  function Smooth(srtt: Option<real>, sample: real): real {
    if srtt.Some? then srtt.value * 0.875 + sample * 0.125 else sample
  }

  function SmoothAll(srtt: Option<real>, samples: seq<real>): Option<real>
    decreases |samples|
  {
    if samples == [] then srtt else SmoothAll(Some(Smooth(srtt, samples[0])), samples[1..])
  }

  function Handshake(s: FlowState, tcp: TcpBits, ts: int): FlowState {
    if tcp.syn && !tcp.ackFlag then
      s.(synTs := if s.synTs.Some? then s.synTs else Some(ts))
    else if tcp.syn && tcp.ackFlag then
      var s1 := s.(synackTs := if s.synackTs.Some? then s.synackTs else Some(ts));
      if s1.handshakeRtt.None? && s1.synTs.Some? && ts - s1.synTs.value >= 0 then
        s1.(handshakeRtt := Some(ToMs(ts - s1.synTs.value)))
      else s1
    else s
  }

  function NoteSent(unacked: Entries<int>, end: u32, ts: int): Entries<int> {
    LastN(OrInsert(unacked, end, ts), MAX_UNACKED)
  }

  function SentBy(s: FlowState, dir: Dir, tcp: TcpBits, ts: int): FlowState {
    if tcp.payloadLen == 0 then s else
    var end := WrapAdd(tcp.seqNum, tcp.payloadLen);
    match dir
    case LowToHigh => s.(unackedLow := NoteSent(s.unackedLow, end, ts))
    case HighToLow => s.(unackedHigh := NoteSent(s.unackedHigh, end, ts))
  }

  /** The in-flight entries that an ACK sent in direction `dir` may acknowledge. */
  function PeerUnacked(s: FlowState, dir: Dir): Entries<int> {
    match dir
    case LowToHigh => s.unackedHigh
    case HighToLow => s.unackedLow
  }

  function AckedBy(s: FlowState, dir: Dir, tcp: TcpBits, ts: int): FlowState {
    if !tcp.ackFlag then s else
    var other := PeerUnacked(s, dir);
    var acked := UpTo(other, tcp.ack);
    var rest := if |acked| <= |other| then other[|acked|..] else [];
    var srtt := SmoothAll(s.srtt, Samples(acked, ts));
    match dir
    case LowToHigh => s.(unackedHigh := rest, srtt := srtt)
    case HighToLow => s.(unackedLow := rest, srtt := srtt)
  }

  function Rtt(s: FlowState, dir: Dir, tcp: TcpBits, ts: int): FlowState {
    AckedBy(SentBy(Handshake(s, tcp, ts), dir, tcp, ts), dir, tcp, ts)
  }

  // ---------------------------------------------------------------- one packet

  function Count(s: FlowState, p: FlowPacket): FlowState {
    match p.dir
    case LowToHigh => s.(lastSeen := p.ts, pktsLowToHigh := s.pktsLowToHigh + 1, bytesLowToHigh := s.bytesLowToHigh + p.wire)
    case HighToLow => s.(lastSeen := p.ts, pktsHighToLow := s.pktsHighToLow + 1, bytesHighToLow := s.bytesHighToLow + p.wire)
  }

  function MaxSeq(s: FlowState, dir: Dir): Option<u32> {
    match dir
    case LowToHigh => s.maxSeqLow
    case HighToLow => s.maxSeqHigh
  }

  function WithMaxSeq(s: FlowState, dir: Dir, max: Option<u32>): FlowState {
    match dir
    case LowToHigh => s.(maxSeqLow := max)
    case HighToLow => s.(maxSeqHigh := max)
  }

  /** The direction's maximum moved by a data segment, and whether the segment was seen before. */
  function MarkMax(s: FlowState, dir: Dir, tcp: TcpBits): (FlowState, bool) {
    if tcp.payloadLen == 0 then (s, false) else
    var (max, again) := NoteEnd(MaxSeq(s, dir), WrapAdd(tcp.seqNum, tcp.payloadLen));
    (WithMaxSeq(s, dir, max), again)
  }

  function Flags(s: FlowState, dir: Dir, tcp: TcpBits): FlowState {
    s.(rstSeen := s.rstSeen || tcp.rst,
       finLow := s.finLow || (tcp.fin && dir.LowToHigh?),
       finHigh := s.finHigh || (tcp.fin && dir.HighToLow?))
  }

  /** The state after one packet, and for TCP whether the packet is a retransmission. */
  function Account(s: FlowState, p: FlowPacket): (FlowState, Option<bool>) {
    var s1 := Count(s, p);
    if p.tcp.None? then (s1, None) else
    var (s2, again) := MarkMax(s1, p.dir, p.tcp.value);
    (Flags(Rtt(s2, p.dir, p.tcp.value, p.ts), p.dir, p.tcp.value), Some(again))
  }

  /** RST seen, or FIN seen from both sides; a UDP packet never closes a flow. */
  predicate ShouldClose(s: FlowState, p: FlowPacket) {
    p.tcp.Some? && (s.rstSeen || (s.finLow && s.finHigh))
  }

  /** The state of a flow that has received exactly the packets `ps`, the first one opening it. */
  function Replay(ps: seq<FlowPacket>): FlowState
    requires ps != []
  {
    var before := if |ps| == 1 then NewState(ps[0].ts) else Replay(ps[..|ps| - 1]);
    Account(before, ps[|ps| - 1]).0
  }

  // ---------------------------------------------------------------- in place

  /** Caps an in-flight map by dropping its smallest keys. */
  method CapUnacked(entries: Entries<int>) returns (kept: Entries<int>)
    ensures kept == LastN(entries, 256)
  {
    kept := entries;
    while |kept| > MAX_UNACKED
      invariant |kept| <= |entries| && kept == entries[|entries| - |kept|..]
      invariant |kept| >= MAX_UNACKED || kept == entries
    {
      kept := kept[1..];
    }
  }

  /** Folds the acknowledged send times into the smoothed estimate. */
  method FoldSamples(start: Option<real>, acked: Entries<int>, now: int) returns (srtt: Option<real>)
    ensures srtt == SmoothAll(start, Samples(acked, now))
  {
    srtt := start;
    var i := 0;
    while i < |acked|
      invariant 0 <= i <= |acked|
      invariant SmoothAll(srtt, Samples(acked[i..], now)) == SmoothAll(start, Samples(acked, now))
    {
      assert acked[i..][0] == acked[i] && acked[i..][1..] == acked[i + 1..];
      var us := now - acked[i].1;
      if us >= 0 {
        var sample := us as real / 1000.0;
        assert Samples(acked[i..], now) == [sample] + Samples(acked[i + 1..], now);
        assert ([sample] + Samples(acked[i + 1..], now))[1..] == Samples(acked[i + 1..], now);
        srtt := Some(if srtt.Some? then srtt.value * 0.875 + sample * 0.125 else sample);
      } else {
        assert Samples(acked[i..], now) == Samples(acked[i + 1..], now);
      }
      i := i + 1;
    }
  }

  /** The handshake part of `record_rtt`. */
  method RecordHandshake(state: FlowState, tcp: TcpBits, ts: int) returns (s: FlowState)
    ensures s == Handshake(state, tcp, ts)
  {
    s := state;
    if tcp.syn && !tcp.ackFlag {
      if s.synTs.None? {
        s := s.(synTs := Some(ts));
      }
    } else if tcp.syn && tcp.ackFlag {
      if s.synackTs.None? {
        s := s.(synackTs := Some(ts));
      }
      if s.handshakeRtt.None? && s.synTs.Some? {
        var us := ts - s.synTs.value;
        if us >= 0 {
          s := s.(handshakeRtt := Some(us as real / 1000.0));
        }
      }
    }
  }

  /** `record_rtt`, step by step. */
  method RecordRtt(state: FlowState, isLow: bool, tcp: TcpBits, ts: int) returns (s: FlowState)
    ensures s == Rtt(state, if isLow then LowToHigh else HighToLow, tcp, ts)
  {
    s := RecordHandshake(state, tcp, ts);
    if tcp.payloadLen > 0 {
      var end := WrapAdd(tcp.seqNum, tcp.payloadLen);
      var sent := OrInsert(if isLow then s.unackedLow else s.unackedHigh, end, ts);
      sent := CapUnacked(sent);
      s := if isLow then s.(unackedLow := sent) else s.(unackedHigh := sent);
    }
    if tcp.ackFlag {
      var other := if isLow then s.unackedHigh else s.unackedLow;
      var acked := UpTo(other, tcp.ack);
      var rest := if |acked| <= |other| then other[|acked|..] else [];
      var srtt := FoldSamples(s.srtt, acked, ts);
      s := if isLow then s.(unackedHigh := rest, srtt := srtt) else s.(unackedLow := rest, srtt := srtt);
    }
  }
}
