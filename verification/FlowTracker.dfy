/**
 The table of live flows (`flow/tracker.rs`): a bounded least-recently-used cache whose
 entries leave only through the completion sink.
 */
module FlowTracker {
  import opened Bytes
  import opened FlowKeys
  import opened FlowStates

  const MAX_FLOWS := 10_000

  // ---------------------------------------------------------------- packets

  datatype Layer =
    | Ipv4(src4: u32, dst4: u32, proto4: int)
    | Ipv6(src6: u128, dst6: u128, nextHeader: int)
    | Tcp(tcpSrc: u16, tcpDst: u16, bits: TcpBits)
    | Udp(udpSrc: u16, udpDst: u16)
    | OtherLayer

  datatype Packet = Packet(layers: seq<Layer>, ts: int, wire: nat)

  datatype FlowInfo = FlowInfo(src: Endpoint, dst: Endpoint, protocol: int, tcp: Option<TcpBits>)

  /** Addresses and protocol of the innermost IP layer before the transport layer. */
  datatype IpPart = IpPart(src: IpAddr, dst: IpAddr, protocol: int)

  function InfoFrom(layers: seq<Layer>, ip: Option<IpPart>): Option<FlowInfo> {
    if layers == [] then None else
    match layers[0]
    case Ipv4(s, d, p) => InfoFrom(layers[1..], Some(IpPart(V4(s), V4(d), p)))
    case Ipv6(s, d, p) => InfoFrom(layers[1..], Some(IpPart(V6(s), V6(d), p)))
    case Tcp(sp, dp, bits) =>
      if ip.None? then None
      else Some(FlowInfo(Endpoint(ip.value.src, sp), Endpoint(ip.value.dst, dp), ip.value.protocol, Some(bits)))
    case Udp(sp, dp) =>
      if ip.None? then None
      else Some(FlowInfo(Endpoint(ip.value.src, sp), Endpoint(ip.value.dst, dp), ip.value.protocol, None))
    case OtherLayer => InfoFrom(layers[1..], ip)
  }

  function Info(p: Packet): Option<FlowInfo> {
    InfoFrom(p.layers, None)
  }

  function KeyOf(info: FlowInfo): FlowKey {
    NewKey(info.src, info.dst, info.protocol)
  }

  function FlowPacketOf(p: Packet, info: FlowInfo): FlowPacket {
    FlowPacket(DirOf(info.src, info.dst), p.wire, p.ts, info.tcp)
  }

  // ---------------------------------------------------------------- the table

  /** Entries from least to most recently used. */
  type Table = seq<(FlowKey, FlowState)>

  predicate Live(t: Table, k: FlowKey) {
    exists i :: 0 <= i < |t| && t[i].0 == k
  }

  function Lookup(t: Table, k: FlowKey): Option<FlowState> {
    if t == [] then None else if t[0].0 == k then Some(t[0].1) else Lookup(t[1..], k)
  }

  function Without(t: Table, k: FlowKey): Table {
    if t == [] then [] else if t[0].0 == k then Without(t[1..], k) else [t[0]] + Without(t[1..], k)
  }

  function Keys(t: Table): set<FlowKey> {
    set e <- t :: e.0
  }

  ghost predicate Distinct(t: Table) {
    forall i, j :: 0 <= i < j < |t| ==> t[i].0 != t[j].0
  }

  lemma {:induction false} LookupLive(t: Table, k: FlowKey)
    ensures Lookup(t, k).Some? <==> Live(t, k)
    ensures Live(t, k) <==> k in Keys(t)
    ensures Lookup(t, k).Some? ==> (k, Lookup(t, k).value) in t
  {
    if t != [] {
      LookupLive(t[1..], k);
      if t[0].0 == k {
        assert t[0] in t;
      } else {
        assert Live(t, k) ==> Live(t[1..], k) by {
          if Live(t, k) {
            var i :| 0 <= i < |t| && t[i].0 == k;
            assert t[1..][i - 1].0 == k;
          }
        }
        assert Live(t[1..], k) ==> Live(t, k) by {
          if Live(t[1..], k) {
            var i :| 0 <= i < |t[1..]| && t[1..][i].0 == k;
            assert t[i + 1].0 == k;
          }
        }
        if Live(t, k) {
          var e := (k, Lookup(t, k).value);
          assert e in t[1..] && e in t;
        }
      }
    }
    if Live(t, k) {
      var i :| 0 <= i < |t| && t[i].0 == k;
      assert t[i] in t;
    }
  }

  lemma {:induction false} WithoutKeys(t: Table, k: FlowKey)
    ensures |Without(t, k)| <= |t| && (Live(t, k) ==> |Without(t, k)| < |t|)
    ensures forall e <- Without(t, k) :: e in t && e.0 != k
    ensures forall e <- t :: e.0 != k ==> e in Without(t, k)
    ensures !Live(t, k) ==> Without(t, k) == t
  {
    if t != [] {
      WithoutKeys(t[1..], k);
      LookupLive(t, k);
      LookupLive(t[1..], k);
      forall e <- t | e.0 != k
        ensures e in Without(t, k)
      {
        assert e == t[0] || e in t[1..];
      }
      forall e <- Without(t, k)
        ensures e in t && e.0 != k
      {
        assert e == t[0] || e in Without(t[1..], k);
        if e in t[1..] {
          assert e in t;
        }
      }
    }
  }

  lemma {:induction false} WithoutLookup(t: Table, k: FlowKey, j: FlowKey)
    ensures Lookup(Without(t, k), j) == if j == k then None else Lookup(t, j)
  {
    if t != [] {
      WithoutLookup(t[1..], k, j);
    }
  }

  lemma {:induction false} LookupAppend(t: Table, e: (FlowKey, FlowState), j: FlowKey)
    ensures Lookup(t + [e], j) == if Lookup(t, j).Some? then Lookup(t, j) else if e.0 == j then Some(e.1) else None
  {
    if t == [] {
      assert t + [e] == [e];
    } else {
      assert (t + [e])[1..] == t[1..] + [e];
      LookupAppend(t[1..], e, j);
    }
  }

  lemma {:induction false} WithoutDistinct(t: Table, k: FlowKey)
    requires Distinct(t)
    ensures Distinct(Without(t, k))
  {
    if t != [] {
      WithoutDistinct(t[1..], k);
      WithoutKeys(t[1..], k);
      var rest := Without(t[1..], k);
      forall j | 0 <= j < |rest|
        ensures rest[j].0 != t[0].0
      {
        assert rest[j] in rest;
        var i :| 0 <= i < |t[1..]| && t[1..][i] == rest[j];
        assert t[i + 1] == rest[j];
      }
    }
  }

  // ---------------------------------------------------------------- snapshots

  datatype FlowStatsSnapshot = FlowStatsSnapshot(
    key: FlowKey, protocol: int,
    localAddr: Option<IpAddr>, localPort: Option<u16>, remoteAddr: Option<IpAddr>, remotePort: Option<u16>,
    bytesUp: nat, bytesDown: nat, pktsUp: nat, pktsDown: nat,
    firstSeen: int, lastSeen: int, srtt: Option<real>, handshakeRtt: Option<real>
  )

  /** The low endpoint counts as local unless only the high one is. */
  predicate LocalIsLow(local: set<IpAddr>, k: FlowKey) {
    k.addrLow in local || k.addrHigh !in local
  }

  function Snapshot(local: set<IpAddr>, k: FlowKey, s: FlowState): FlowStatsSnapshot {
    if LocalIsLow(local, k) then
      FlowStatsSnapshot(k, k.protocol, Some(k.addrLow), Some(k.portLow), Some(k.addrHigh), Some(k.portHigh),
                        s.bytesLowToHigh, s.bytesHighToLow, s.pktsLowToHigh, s.pktsHighToLow,
                        s.firstSeen, s.lastSeen, s.srtt, s.handshakeRtt)
    else
      FlowStatsSnapshot(k, k.protocol, Some(k.addrHigh), Some(k.portHigh), Some(k.addrLow), Some(k.portLow),
                        s.bytesHighToLow, s.bytesLowToHigh, s.pktsHighToLow, s.pktsLowToHigh,
                        s.firstSeen, s.lastSeen, s.srtt, s.handshakeRtt)
  }

  // ---------------------------------------------------------------- one update

  datatype FlowUpdate = FlowUpdate(annotation: Option<bool>, key: FlowKey, dir: Dir, bytes: nat, firstSeen: bool)

  lemma QueuedInTurn(sink: Option<seq<FlowStatsSnapshot>>, xs: seq<FlowStatsSnapshot>, ys: seq<FlowStatsSnapshot>)
    ensures Queued(sink, []) == sink
    ensures Queued(Queued(sink, xs), ys) == Queued(sink, xs + ys)
  {
    if sink.Some? {
      assert sink.value + [] == sink.value;
      assert sink.value + xs + ys == sink.value + (xs + ys);
    }
  }

  /** Everything one accepted packet does: the new table, the snapshots sent, and the report. */
  datatype Outcome = Outcome(table: Table, sent: seq<FlowStatsSnapshot>, update: FlowUpdate)

  /** A full table makes room for a new key by giving up its least recently used flow. */
  predicate Evicts(t: Table, k: FlowKey) {
    !Live(t, k) && |t| >= MAX_FLOWS
  }

  /** The table without the evicted flow and without `k`, which the update puts back last. */
  function Rest(t: Table, k: FlowKey): Table {
    Without(if Evicts(t, k) then t[1..] else t, k)
  }

  function Evicted(local: set<IpAddr>, t: Table, k: FlowKey): seq<FlowStatsSnapshot> {
    if Evicts(t, k) then [Snapshot(local, t[0].0, t[0].1)] else []
  }

  /** The contents of the completion channel, if there is one, after sending `snaps`. */
  function Queued(sink: Option<seq<FlowStatsSnapshot>>, snaps: seq<FlowStatsSnapshot>): Option<seq<FlowStatsSnapshot>> {
    if sink.Some? then Some(sink.value + snaps) else None
  }

  function Update(local: set<IpAddr>, t: Table, p: Packet, info: FlowInfo): Outcome {
    var k, fp := KeyOf(info), FlowPacketOf(p, info);
    var before := Lookup(t, k);
    var (state, again) := Account(if before.Some? then before.value else NewState(p.ts), fp);
    var closes := ShouldClose(state, fp);
    Outcome(
      Rest(t, k) + if closes then [] else [(k, state)],
      Evicted(local, t, k) + if closes then [Snapshot(local, k, state)] else [],
      FlowUpdate(again, k, fp.dir, p.wire, before.None?))
  }

  // ---------------------------------------------------------------- in place

  method ExtractFlowInfo(layers: seq<Layer>) returns (info: Option<FlowInfo>)
    ensures info == InfoFrom(layers, None)
  {
    var ip: Option<IpPart> := None;
    var i := 0;
    while i < |layers|
      invariant 0 <= i <= |layers|
      invariant InfoFrom(layers[i..], ip) == InfoFrom(layers, None)
    {
      assert layers[i..][0] == layers[i] && layers[i..][1..] == layers[i + 1..];
      match layers[i] {
        case Ipv4(s, d, p) => ip := Some(IpPart(V4(s), V4(d), p));
        case Ipv6(s, d, p) => ip := Some(IpPart(V6(s), V6(d), p));
        case Tcp(sp, dp, bits) =>
          if ip.None? {
            return None;
          }
          return Some(FlowInfo(Endpoint(ip.value.src, sp), Endpoint(ip.value.dst, dp), ip.value.protocol, Some(bits)));
        case Udp(sp, dp) =>
          if ip.None? {
            return None;
          }
          return Some(FlowInfo(Endpoint(ip.value.src, sp), Endpoint(ip.value.dst, dp), ip.value.protocol, None));
        case OtherLayer =>
      }
      i := i + 1;
    }
    return None;
  }

  class Tracker {
    var flows: Table
    var local: set<IpAddr>
    /** Snapshots in the completion channel, when a sink is registered. */
    var sink: Option<seq<FlowStatsSnapshot>>

    ghost predicate Valid()
      reads this
    {
      Distinct(flows) && |flows| <= MAX_FLOWS
    }

    constructor (localAddrs: set<IpAddr>, withSink: bool)
      ensures Valid() && flows == [] && local == localAddrs
      ensures sink == if withSink then Some([]) else None
    {
      flows, local := [], localAddrs;
      sink := if withSink then Some([]) else None;
    }

    method Send(snap: FlowStatsSnapshot)
      modifies this`sink
      ensures sink == Queued(old(sink), [snap])
    {
      if sink.Some? {
        sink := Some(sink.value + [snap]);
      }
    }

    /** A full table gives up its oldest flow, whose snapshot is sent first. */
    method MakeRoom(k: FlowKey) returns (firstSeen: bool)
      modifies this`flows, this`sink
      ensures firstSeen == Lookup(old(flows), k).None?
      ensures flows == (if Evicts(old(flows), k) then old(flows)[1..] else old(flows))
      ensures sink == Queued(old(sink), Evicted(local, old(flows), k))
    {
      LookupLive(flows, k);
      QueuedInTurn(sink, [], []);
      firstSeen := Lookup(flows, k).None?;
      if firstSeen && |flows| >= MAX_FLOWS {
        var oldest := flows[0];
        flows := flows[1..];
        Send(Snapshot(local, oldest.0, oldest.1));
      }
    }

    /**
     The cache's own lookup-or-insert: it promotes a present key and, like the library, would
     silently drop the oldest entry on inserting into a full table.
     */
    method GetOrInsert(k: FlowKey, now: int) returns (s: FlowState)
      modifies this`flows
      ensures s == (if Lookup(old(flows), k).Some? then Lookup(old(flows), k).value else NewState(now))
      ensures flows == Rest(old(flows), k) + [(k, s)]
    {
      LookupLive(flows, k);
      if Lookup(flows, k).Some? {
        s := Lookup(flows, k).value;
      } else {
        s := NewState(now);
        if |flows| >= MAX_FLOWS {
          flows := flows[1..];
        }
      }
      flows := Without(flows, k) + [(k, s)];
    }

    /** Stores the updated state of the flow just promoted, or sends it off if it has ended. */
    method Settle(k: FlowKey, fp: FlowPacket, state: FlowState)
      requires flows != [] && flows[|flows| - 1].0 == k
      modifies this`flows, this`sink
      ensures flows == old(flows)[..|old(flows)| - 1] + if ShouldClose(state, fp) then [] else [(k, state)]
      ensures sink == Queued(old(sink), if ShouldClose(state, fp) then [Snapshot(local, k, state)] else [])
    {
      QueuedInTurn(sink, [], []);
      var rest := flows[..|flows| - 1];
      flows := rest + [(k, state)];
      if ShouldClose(state, fp) {
        Send(Snapshot(local, k, state));
        flows := rest;
      }
    }

    method UpdateFlow(p: Packet) returns (u: Option<FlowUpdate>)
      requires Valid()
      modifies this
      ensures Valid() && local == old(local)
      ensures Info(p).None? ==> u.None? && flows == old(flows) && sink == old(sink)
      ensures Info(p).Some? ==>
        var o := Update(local, old(flows), p, Info(p).value);
        u == Some(o.update) && flows == o.table && sink == Queued(old(sink), o.sent)
    {
      var info := ExtractFlowInfo(p.layers);
      if info.None? {
        return None;
      }
      var k, fp := KeyOf(info.value), FlowPacketOf(p, info.value);
      ghost var o := Update(local, flows, p, info.value);
      UpdateKeepsTable(local, flows, p, info.value);
      RoomIsEnough(flows, k);
      var firstSeen := MakeRoom(k);
      var before := GetOrInsert(k, p.ts);
      assert flows[..|flows| - 1] == Rest(old(flows), k);
      var (state, again) := Account(before, fp);
      Settle(k, fp, state);
      QueuedInTurn(old(sink), Evicted(local, old(flows), k), if ShouldClose(state, fp) then [Snapshot(local, k, state)] else []);
      u := Some(FlowUpdate(again, k, fp.dir, p.wire, firstSeen));
    }

    method TryRecv() returns (snap: Option<FlowStatsSnapshot>)
      modifies this`sink
      ensures old(sink).None? || old(sink).value == [] ==> snap.None? && sink == old(sink)
      ensures old(sink).Some? && old(sink).value != [] ==>
        snap == Some(old(sink).value[0]) && sink == Some(old(sink).value[1..])
    {
      if sink.None? || sink.value == [] {
        return None;
      }
      snap := Some(sink.value[0]);
      sink := Some(sink.value[1..]);
    }
  }

  /** After the snapshot has been sent, the cache itself never drops a flow silently. */
  lemma RoomIsEnough(t: Table, k: FlowKey)
    requires |t| <= MAX_FLOWS
    ensures var room := if Evicts(t, k) then t[1..] else t;
      && !Evicts(room, k) && Rest(room, k) == Rest(t, k)
      && Lookup(room, k) == Lookup(t, k)
  {
    if Evicts(t, k) {
      LookupLive(t, k);
      LookupLive(t[1..], k);
    }
  }

  lemma RestKeepsTable(t: Table, k: FlowKey, s: FlowState)
    requires Distinct(t) && |t| <= MAX_FLOWS
    ensures Distinct(Rest(t, k)) && Distinct(Rest(t, k) + [(k, s)]) && |Rest(t, k)| < MAX_FLOWS
  {
    var room := if Evicts(t, k) then t[1..] else t;
    WithoutKeys(room, k);
    WithoutDistinct(room, k);
    var rest := Without(room, k);
    forall i | 0 <= i < |rest|
      ensures rest[i].0 != k
    {
      assert rest[i] in rest;
    }
  }

  /** The table stays a set of distinct keys within its bound; the packet's key ends up last or gone. */
  lemma UpdateKeepsTable(local: set<IpAddr>, t: Table, p: Packet, info: FlowInfo)
    requires Distinct(t) && |t| <= MAX_FLOWS
    ensures var o := Update(local, t, p, info); Distinct(o.table) && |o.table| <= MAX_FLOWS
  {
    var o, k := Update(local, t, p, info), KeyOf(info);
    if o.table == Rest(t, k) {
      RestKeepsTable(t, k, NewState(0));
    } else {
      RestKeepsTable(t, k, o.table[|o.table| - 1].1);
    }
  }
}
