/** When a flow ends, and what its entry says about the packets it has received. */
module FlowEndings {
  import opened Bytes
  import opened FlowKeys
  import opened FlowStates
  import opened FlowStateLaws
  import opened FlowTracker
  import opened FlowRuns

  predicate HasRst(ps: seq<FlowPacket>) {
    exists p <- ps :: p.tcp.Some? && p.tcp.value.rst
  }

  predicate HasFin(ps: seq<FlowPacket>, d: Dir) {
    exists p <- ps :: p.dir == d && p.tcp.Some? && p.tcp.value.fin
  }

  /** The latest packet is TCP, and there was a RST, or a FIN from either side. */
  predicate Ended(ps: seq<FlowPacket>)
    requires ps != []
  {
    ps[|ps| - 1].tcp.Some? && (HasRst(ps) || (HasFin(ps, LowToHigh) && HasFin(ps, HighToLow)))
  }

  lemma FlagsAfter(s: FlowState, p: FlowPacket)
    ensures var r, tcp := Account(s, p).0, p.tcp;
      && r.rstSeen == (s.rstSeen || (tcp.Some? && tcp.value.rst))
      && r.finLow == (s.finLow || (p.dir == LowToHigh && tcp.Some? && tcp.value.fin))
      && r.finHigh == (s.finHigh || (p.dir == HighToLow && tcp.Some? && tcp.value.fin))
      && r.firstSeen == s.firstSeen && r.lastSeen == p.ts
  {
    if p.tcp.Some? {
      var s1 := MarkMax(Count(s, p), p.dir, p.tcp.value).0;
      RttKeepsFlags(s1, p.dir, p.tcp.value, p.ts);
    }
  }

  lemma RttKeepsFlags(s: FlowState, dir: Dir, tcp: TcpBits, ts: int)
    ensures var r := Rtt(s, dir, tcp, ts);
      && r.rstSeen == s.rstSeen && r.finLow == s.finLow && r.finHigh == s.finHigh
      && r.firstSeen == s.firstSeen && r.lastSeen == s.lastSeen
  {
    hide Samples, SmoothAll, NoteSent;
    var s1 := Handshake(s, tcp, ts);
    assert s1.rstSeen == s.rstSeen && s1.finLow == s.finLow && s1.finHigh == s.finHigh;
    assert s1.firstSeen == s.firstSeen && s1.lastSeen == s.lastSeen;
  }

  lemma {:induction false} FlagsSeen(ps: seq<FlowPacket>)
    requires ps != []
    ensures var s := Replay(ps);
      && s.rstSeen == HasRst(ps) && s.finLow == HasFin(ps, LowToHigh) && s.finHigh == HasFin(ps, HighToLow)
      && s.firstSeen == ps[0].ts && s.lastSeen == ps[|ps| - 1].ts
  {
    hide Account;
    var n := |ps| - 1;
    assert ps == ps[..n] + [ps[n]];
    FlagsAfter(StateBefore(ps), ps[n]);
    if n > 0 {
      FlagsSeen(ps[..n]);
    }
  }

  /** A flow is closed exactly when its packets have ended it. */
  lemma ClosesExactly(ps: seq<FlowPacket>)
    requires ps != []
    ensures ShouldClose(Replay(ps), ps[|ps| - 1]) <==> Ended(ps)
  {
    FlagsSeen(ps);
  }

  /**
   ENDINGS. After a packet its flow is gone from the table, and a snapshot of it was sent, exactly when
   the packets of its incarnation, this one included, hold a RST or a FIN from either side and
   the packet is TCP; otherwise it is live.
   */
  lemma EndsExactly(local: set<IpAddr>, ps: seq<Packet>, p: Packet, info: FlowInfo)
    requires Info(p) == Some(info)
    ensures var k, inc := KeyOf(info), Incarnation(local, ps, KeyOf(info)) + [FlowPacketOf(p, info)];
      var o := Update(local, After(local, ps).0, p, info);
      && After(local, ps + [p]) == (o.table, After(local, ps).1 + o.sent)
      && (Lookup(o.table, k).None? <==> Ended(inc))
      && ((exists snap <- o.sent :: snap.key == k) <==> Ended(inc))
  {
    var t, k, fp := After(local, ps).0, KeyOf(info), FlowPacketOf(p, info);
    var before := Incarnation(local, ps, k);
    var inc := before + [fp];
    assert (ps + [p])[..|ps|] == ps && inc[..|before|] == before;
    LiveIsReplay(local, ps, k);
    UpdateOwnKey(local, t, p, info);
    ClosesExactly(inc);
    assert NextState(t, p, info) == Replay(inc);
    TableBounded(local, ps);
    UpdateLookup(local, t, p, info, k);
    SentOwnKey(local, t, p, info);
  }

  /** Among the snapshots of one update, the packet's own flow is there exactly if it closes. */
  lemma SentOwnKey(local: set<IpAddr>, t: Table, p: Packet, info: FlowInfo)
    requires Distinct(t)
    ensures (exists snap <- Update(local, t, p, info).sent :: snap.key == KeyOf(info))
      <==> ShouldClose(NextState(t, p, info), FlowPacketOf(p, info))
  {
    hide Account, ShouldClose;
    var o, k, state := Update(local, t, p, info), KeyOf(info), NextState(t, p, info);
    if Evicts(t, k) {
      assert t[0].0 != k by { assert Live(t, t[0].0); }
    }
    if ShouldClose(state, FlowPacketOf(p, info)) {
      assert o.sent[|o.sent| - 1] == Snapshot(local, k, state);
    }
  }

  /** The snapshot names the only local endpoint as local and, with both or neither local, the low one. */
  lemma SnapshotEndpoints(local: set<IpAddr>, k: FlowKey, s: FlowState)
    ensures var snap, low := Snapshot(local, k, s), k.addrLow in local || k.addrHigh !in local;
      var (near, far) := Endpoints(k, if low then LowToHigh else HighToLow);
      && (near.ip in local || far.ip !in local)
      && (snap.localAddr, snap.localPort) == (Some(near.ip), Some(near.port))
      && (snap.remoteAddr, snap.remotePort) == (Some(far.ip), Some(far.port))
      && snap.key == k && snap.protocol == k.protocol
  {
  }
}
