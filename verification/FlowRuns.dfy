/**
 Whole runs of the flow tracker with a completion sink: nothing is lost or counted twice,
 every flow sees exactly its own packets, and eviction picks the flow idle for longest.
 */
module FlowRuns {
  import opened Bytes
  import opened SerialNumbers
  import opened FlowKeys
  import opened FlowStates
  import opened FlowTracker

  /** The table and everything sent to the sink after the packets `ps`. */
  function After(local: set<IpAddr>, ps: seq<Packet>): (Table, seq<FlowStatsSnapshot>) {
    if ps == [] then ([], []) else
    var p := ps[|ps| - 1];
    var (t, sent) := After(local, ps[..|ps| - 1]);
    if Info(p).None? then (t, sent) else
    var o := Update(local, t, p, Info(p).value);
    (o.table, sent + o.sent)
  }

  lemma {:induction false} TableBounded(local: set<IpAddr>, ps: seq<Packet>)
    ensures var t := After(local, ps).0; Distinct(t) && |t| <= 10_000
  {
    if ps != [] {
      var p := ps[|ps| - 1];
      TableBounded(local, ps[..|ps| - 1]);
      if Info(p).Some? {
        UpdateKeepsTable(local, After(local, ps[..|ps| - 1]).0, p, Info(p).value);
      }
    }
  }

  // ---------------------------------------------------------------- conservation

  /** What is conserved: the number of incarnations, and packets and bytes in each direction. */
  datatype Measure = Incarnations | Packets(d: Dir) | Bytes(d: Dir)

  function OfState(s: FlowState, m: Measure): nat {
    match m
    case Incarnations => 1
    case Packets(d) => if d == LowToHigh then s.pktsLowToHigh else s.pktsHighToLow
    case Bytes(d) => if d == LowToHigh then s.bytesLowToHigh else s.bytesHighToLow
  }

  function OfPacket(fp: FlowPacket, opens: bool, m: Measure): nat {
    match m
    case Incarnations => if opens then 1 else 0
    case Packets(d) => if fp.dir == d then 1 else 0
    case Bytes(d) => if fp.dir == d then fp.wire else 0
  }

  /** A snapshot's up and down counters put back into low-to-high and high-to-low. */
  function OfSnapshot(local: set<IpAddr>, snap: FlowStatsSnapshot, m: Measure): nat {
    match m
    case Incarnations => 1
    case Packets(d) => if (d == LowToHigh) == LocalIsLow(local, snap.key) then snap.pktsUp else snap.pktsDown
    case Bytes(d) => if (d == LowToHigh) == LocalIsLow(local, snap.key) then snap.bytesUp else snap.bytesDown
  }

  function LiveTally(t: Table, k: FlowKey, m: Measure): nat {
    var s := Lookup(t, k);
    if s.Some? then OfState(s.value, m) else 0
  }

  function SentTally(local: set<IpAddr>, sent: seq<FlowStatsSnapshot>, k: FlowKey, m: Measure): nat {
    if sent == [] then 0
    else (if sent[0].key == k then OfSnapshot(local, sent[0], m) else 0) + SentTally(local, sent[1..], k, m)
  }

  /** What the accepted packets of key `k` brought in; a packet opens an incarnation if its key was not live. */
  function AcceptedTally(local: set<IpAddr>, ps: seq<Packet>, k: FlowKey, m: Measure): nat {
    if ps == [] then 0 else
    var p, before := ps[|ps| - 1], ps[..|ps| - 1];
    AcceptedTally(local, before, k, m) + PacketTally(After(local, before).0, p, k, m)
  }

  function PacketTally(t: Table, p: Packet, k: FlowKey, m: Measure): nat {
    if Info(p).Some? && KeyOf(Info(p).value) == k
    then OfPacket(FlowPacketOf(p, Info(p).value), Lookup(t, k).None?, m) else 0
  }

  lemma {:induction false} SentTallyAppend(local: set<IpAddr>, xs: seq<FlowStatsSnapshot>, ys: seq<FlowStatsSnapshot>, k: FlowKey, m: Measure)
    ensures SentTally(local, xs + ys, k, m) == SentTally(local, xs, k, m) + SentTally(local, ys, k, m)
  {
    if xs == [] {
      assert xs + ys == ys;
    } else {
      assert (xs + ys)[1..] == xs[1..] + ys;
      SentTallyAppend(local, xs[1..], ys, k, m);
    }
  }

  lemma AccountTally(s: FlowState, fp: FlowPacket, m: Measure)
    ensures OfState(Account(s, fp).0, m) == OfState(s, m) + OfPacket(fp, false, m)
  {
    var s1 := Count(s, fp);
    assert OfState(s1, m) == OfState(s, m) + OfPacket(fp, false, m);
    if fp.tcp.Some? {
      var s2 := MarkMax(s1, fp.dir, fp.tcp.value).0;
      assert OfState(s2, m) == OfState(s1, m);
      RttTally(s2, fp.dir, fp.tcp.value, fp.ts, m);
    }
  }

  lemma RttTally(s: FlowState, dir: Dir, tcp: TcpBits, ts: int, m: Measure)
    ensures OfState(Rtt(s, dir, tcp, ts), m) == OfState(s, m)
  {
    var s1 := Handshake(s, tcp, ts);
    assert OfState(s1, m) == OfState(s, m);
    var s2 := SentBy(s1, dir, tcp, ts);
    assert OfState(s2, m) == OfState(s1, m);
  }

  /** Where each key's state is after one update: the packet's own key, the evicted one, the rest. */
  lemma UpdateLookup(local: set<IpAddr>, t: Table, p: Packet, info: FlowInfo, k: FlowKey)
    requires Distinct(t)
    ensures var o, pk := Update(local, t, p, info), KeyOf(info);
      && (k != pk && Evicts(t, pk) && t[0].0 == k ==> Lookup(o.table, k) == None && Lookup(t, k) == Some(t[0].1))
      && (k != pk && !(Evicts(t, pk) && t[0].0 == k) ==> Lookup(o.table, k) == Lookup(t, k))
      && (k == pk ==> !(Evicts(t, pk) && t[0].0 == k))
  {
    var pk := KeyOf(info);
    var o := Update(local, t, p, info);
    var room := if Evicts(t, pk) then t[1..] else t;
    WithoutLookup(room, pk, k);
    if o.table != Rest(t, pk) {
      LookupAppend(Rest(t, pk), o.table[|o.table| - 1], k);
    }
    if Evicts(t, pk) && t[0].0 == k {
      LookupLive(t[1..], k);
      assert forall i | 0 <= i < |t[1..]| :: t[1..][i] == t[i + 1];
    }
  }

  /** The packet's own key after an update: ended and sent, or live with the new state. */
  lemma UpdateOwnKey(local: set<IpAddr>, t: Table, p: Packet, info: FlowInfo)
    ensures var state := NextState(t, p, info);
      Lookup(Update(local, t, p, info).table, KeyOf(info))
      == if ShouldClose(state, FlowPacketOf(p, info)) then None else Some(state)
  {
    var k := KeyOf(info);
    var o := Update(local, t, p, info);
    var room := if Evicts(t, k) then t[1..] else t;
    WithoutLookup(room, k, k);
    if o.table != Rest(t, k) {
      LookupAppend(Rest(t, k), o.table[|o.table| - 1], k);
    }
  }

  /** The state the packet's flow reaches, whether it stays or is sent off. */
  function NextState(t: Table, p: Packet, info: FlowInfo): FlowState {
    var before := Lookup(t, KeyOf(info));
    Account(if before.Some? then before.value else NewState(p.ts), FlowPacketOf(p, info)).0
  }

  lemma NextStateTally(t: Table, p: Packet, info: FlowInfo, m: Measure)
    requires Info(p) == Some(info)
    ensures OfState(NextState(t, p, info), m)
            == LiveTally(t, KeyOf(info), m) + PacketTally(t, p, KeyOf(info), m)
  {
    var before := Lookup(t, KeyOf(info));
    AccountTally(if before.Some? then before.value else NewState(p.ts), FlowPacketOf(p, info), m);
  }

  lemma UpdateSentTally(local: set<IpAddr>, t: Table, p: Packet, info: FlowInfo, k: FlowKey, m: Measure)
    ensures var pk := KeyOf(info);
      SentTally(local, Update(local, t, p, info).sent, k, m)
      == (if Evicts(t, pk) && t[0].0 == k then OfState(t[0].1, m) else 0)
         + (if pk == k && ShouldClose(NextState(t, p, info), FlowPacketOf(p, info)) then OfState(NextState(t, p, info), m) else 0)
  {
    var pk, state := KeyOf(info), NextState(t, p, info);
    var second := if ShouldClose(state, FlowPacketOf(p, info)) then [Snapshot(local, pk, state)] else [];
    SentTallyAppend(local, Evicted(local, t, pk), second, k, m);
    if Evicts(t, pk) {
    }
  }

  lemma UpdateConserves(local: set<IpAddr>, t: Table, p: Packet, info: FlowInfo, k: FlowKey, m: Measure)
    requires Distinct(t) && Info(p) == Some(info)
    ensures var o := Update(local, t, p, info);
      LiveTally(o.table, k, m) + SentTally(local, o.sent, k, m) == LiveTally(t, k, m) + PacketTally(t, p, k, m)
  {
    UpdateLookup(local, t, p, info, k);
    UpdateOwnKey(local, t, p, info);
    UpdateSentTally(local, t, p, info, k, m);
    NextStateTally(t, p, info, m);
  }

  /**
   CONSERVATION. After every run, for every key and every measure, what the accepted packets
   brought in equals what the key's live entry holds plus what its emitted snapshots hold. For
   the incarnation measure: each opening is matched by one live entry or exactly one snapshot.
   */
  lemma {:induction false} Conservation(local: set<IpAddr>, ps: seq<Packet>, k: FlowKey, m: Measure)
    ensures var (t, sent) := After(local, ps);
      AcceptedTally(local, ps, k, m) == LiveTally(t, k, m) + SentTally(local, sent, k, m)
  {
    if ps != [] {
      var p, before := ps[|ps| - 1], ps[..|ps| - 1];
      Conservation(local, before, k, m);
      TableBounded(local, before);
      if Info(p).Some? {
        var (t, sent) := After(local, before);
        var o := Update(local, t, p, Info(p).value);
        UpdateConserves(local, t, p, Info(p).value, k, m);
        SentTallyAppend(local, sent, o.sent, k, m);
      }
    }
  }

  // ---------------------------------------------------------------- least recently used

  /** The position of the last packet of key `k`, or -1. */
  function LastUse(ps: seq<Packet>, k: FlowKey): int {
    if ps == [] then -1
    else if Info(ps[|ps| - 1]).Some? && KeyOf(Info(ps[|ps| - 1]).value) == k then |ps| - 1
    else LastUse(ps[..|ps| - 1], k)
  }

  lemma {:induction false} LastUseInRange(ps: seq<Packet>, k: FlowKey)
    ensures -1 <= LastUse(ps, k) < |ps|
  {
    if ps != [] {
      LastUseInRange(ps[..|ps| - 1], k);
    }
  }

  ghost predicate Ranked(rank: FlowKey -> int, t: Table) {
    && (forall i :: 0 <= i < |t| ==> 0 <= rank(t[i].0))
    && (forall i, j :: 0 <= i < j < |t| ==> rank(t[i].0) < rank(t[j].0))
  }

  /** Every live flow was used, and the table lists them from longest idle to most recent. */
  ghost predicate ByLastUse(ps: seq<Packet>, t: Table) {
    Ranked(k => LastUse(ps, k), t)
  }

  lemma RankedTail(rank: FlowKey -> int, t: Table)
    requires t != []
    ensures Ranked(rank, t) <==>
      Ranked(rank, t[1..]) && 0 <= rank(t[0].0) && forall e <- t[1..] :: rank(t[0].0) < rank(e.0)
  {
    assert forall i | 0 <= i < |t[1..]| :: t[1..][i] == t[i + 1];
    if Ranked(rank, t[1..]) && 0 <= rank(t[0].0) && forall e <- t[1..] :: rank(t[0].0) < rank(e.0) {
      forall i, j | 0 <= i < j < |t|
        ensures rank(t[i].0) < rank(t[j].0)
      {
        assert t[j] == t[1..][j - 1];
        assert i > 0 ==> t[i] == t[1..][i - 1];
      }
    }
  }

  lemma {:induction false} WithoutRanked(rank: FlowKey -> int, t: Table, k: FlowKey)
    requires Ranked(rank, t)
    ensures Ranked(rank, Without(t, k))
  {
    if t != [] {
      RankedTail(rank, t);
      WithoutRanked(rank, t[1..], k);
      WithoutKeys(t[1..], k);
      if t[0].0 != k {
        var r := [t[0]] + Without(t[1..], k);
        assert r[1..] == Without(t[1..], k);
        RankedTail(rank, r);
      }
    }
  }

  /**
   LRU. The table is ordered by each flow's last packet, so the flow an update evicts was
   updated longest ago of all the live ones.
   */
  lemma {:induction false} LeastRecentlyUsed(local: set<IpAddr>, ps: seq<Packet>)
    ensures ByLastUse(ps, After(local, ps).0)
  {
    if ps != [] {
      var p, before := ps[|ps| - 1], ps[..|ps| - 1];
      LeastRecentlyUsed(local, before);
      var t := After(local, before).0;
      if Info(p).None? {
      } else {
        UpdateKeepsOrder(local, before, t, p, Info(p).value);
        assert before + [p] == ps;
      }
    }
  }

  lemma RestRanked(rank: FlowKey -> int, rank': FlowKey -> int, t: Table, k: FlowKey, e: seq<(FlowKey, FlowState)>)
    requires Ranked(rank, t)
    requires forall j :: j != k ==> rank'(j) == rank(j) < rank'(k)
    requires 0 <= rank'(k) && (e == [] || (|e| == 1 && e[0].0 == k))
    ensures Ranked(rank', Rest(t, k) + e)
  {
    var room := if Evicts(t, k) then t[1..] else t;
    WithoutRanked(rank, room, k);
    WithoutKeys(room, k);
    AppendRanked(rank, rank', Rest(t, k), k, e);
  }

  lemma AppendRanked(rank: FlowKey -> int, rank': FlowKey -> int, rest: Table, k: FlowKey, e: Table)
    requires Ranked(rank, rest) && forall x <- rest :: x.0 != k
    requires forall j :: j != k ==> rank'(j) == rank(j) < rank'(k)
    requires 0 <= rank'(k) && (e == [] || (|e| == 1 && e[0].0 == k))
    ensures Ranked(rank', rest + e)
  {
    forall i | 0 <= i < |rest|
      ensures rank'(rest[i].0) == rank(rest[i].0) < rank'(k)
    {
      assert rest[i] in rest;
    }
  }

  lemma UpdateKeepsOrder(local: set<IpAddr>, ps: seq<Packet>, t: Table, p: Packet, info: FlowInfo)
    requires ByLastUse(ps, t) && Info(p) == Some(info)
    ensures ByLastUse(ps + [p], Update(local, t, p, info).table)
  {
    var k, state := KeyOf(info), NextState(t, p, info);
    assert (ps + [p])[..|ps|] == ps;
    forall j: FlowKey
      ensures LastUse(ps + [p], j) == if j == k then |ps| else LastUse(ps, j)
      ensures LastUse(ps, j) < |ps|
    {
      LastUseInRange(ps, j);
    }
    RestRanked(j => LastUse(ps, j), j => LastUse(ps + [p], j), t, k,
               if ShouldClose(state, FlowPacketOf(p, info)) then [] else [(k, state)]);
  }

  lemma EvictionVictim(local: set<IpAddr>, ps: seq<Packet>, k: FlowKey)
    requires Evicts(After(local, ps).0, k)
    ensures var t := After(local, ps).0;
      && |t| == 10_000
      && forall e <- t :: e == t[0] || LastUse(ps, t[0].0) < LastUse(ps, e.0)
  {
    LeastRecentlyUsed(local, ps);
    TableBounded(local, ps);
  }

  // ---------------------------------------------------------------- isolation

  /** The packets the current incarnation of `k` has received; empty when `k` is not live. */
  function Incarnation(local: set<IpAddr>, ps: seq<Packet>, k: FlowKey): seq<FlowPacket> {
    if ps == [] then [] else
    var p, before := ps[|ps| - 1], Incarnation(local, ps[..|ps| - 1], k);
    if Lookup(After(local, ps).0, k).None? then []
    else if Info(p).Some? && KeyOf(Info(p).value) == k then before + [FlowPacketOf(p, Info(p).value)]
    else before
  }

  /**
   ISOLATION. A live entry is exactly the replay of its own incarnation's packets: packets of
   other flows, evictions and earlier incarnations leave no trace in it.
   */
  lemma {:induction false} LiveIsReplay(local: set<IpAddr>, ps: seq<Packet>, k: FlowKey)
    ensures var inc := Incarnation(local, ps, k);
      Lookup(After(local, ps).0, k) == if inc == [] then None else Some(Replay(inc))
  {
    if ps != [] {
      var p, before := ps[|ps| - 1], ps[..|ps| - 1];
      LiveIsReplay(local, before, k);
      TableBounded(local, before);
      if Info(p).Some? {
        var t, info := After(local, before).0, Info(p).value;
        UpdateLookup(local, t, p, info, k);
        if KeyOf(info) == k {
          UpdateOwnKey(local, t, p, info);
        }
      }
    }
  }

  /** Every snapshot an update sends is that of a whole incarnation, replayed up to its end. */
  lemma SentIsReplay(local: set<IpAddr>, ps: seq<Packet>, p: Packet, info: FlowInfo)
    requires Info(p) == Some(info)
    ensures var t := After(local, ps).0;
      var o, k, fp := Update(local, t, p, info), KeyOf(info), FlowPacketOf(p, info);
      forall snap <- o.sent ::
        || (snap.key != k && Incarnation(local, ps, snap.key) != []
            && snap == Snapshot(local, snap.key, Replay(Incarnation(local, ps, snap.key))))
        || snap == Snapshot(local, k, Replay(Incarnation(local, ps, k) + [fp]))
  {
    var t, k, fp := After(local, ps).0, KeyOf(info), FlowPacketOf(p, info);
    TableBounded(local, ps);
    LiveIsReplay(local, ps, k);
    if Evicts(t, k) {
      UpdateLookup(local, t, p, info, t[0].0);
      LiveIsReplay(local, ps, t[0].0);
    }
  }

  /** A packet's annotation is judged against its own incarnation alone. */
  lemma AnnotationIsReplay(local: set<IpAddr>, ps: seq<Packet>, p: Packet, info: FlowInfo)
    requires Info(p) == Some(info)
    ensures var inc, fp := Incarnation(local, ps, KeyOf(info)), FlowPacketOf(p, info);
      var o := Update(local, After(local, ps).0, p, info);
      && o.update.annotation == Account(if inc == [] then NewState(fp.ts) else Replay(inc), fp).1
      && (o.update.firstSeen <==> inc == [])
  {
    LiveIsReplay(local, ps, KeyOf(info));
  }
}
