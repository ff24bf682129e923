/** The round-trip estimates in closed form, and what a snapshot says of a flow's packets. */
module FlowEstimates {
  import opened Bytes
  import opened SerialNumbers
  import opened FlowKeys
  import opened OrderedMaps
  import opened FlowStates
  import opened FlowStateLaws
  import opened FlowTracker
  import FlowAcks
  import FlowEndings
  import VolumeLaws

  const EIGHTH := 1.0 / 8.0

  /** The estimate is the exponentially weighted mean of its samples, the newest weighing an eighth. */
  lemma {:induction false} SmoothIsWeighted(first: real, xs: seq<real>, before: seq<real>)
    requires before != [] && VolumeLaws.MeanOf(EIGHTH, before) == first
    ensures SmoothAll(Some(first), xs) == Some(VolumeLaws.MeanOf(EIGHTH, before + xs))
    decreases |xs|
  {
    if xs == [] {
      assert before + xs == before;
    } else {
      VolumeLaws.MeanGrows(EIGHTH, before, xs[0]);
      hide VolumeLaws.MeanOf;
      assert (before + [xs[0]]) + xs[1..] == before + xs;
      SmoothIsWeighted(Smooth(Some(first), xs[0]), xs[1..], before + [xs[0]]);
    }
  }

  lemma SmoothFromNothing(xs: seq<real>)
    requires xs != []
    ensures SmoothAll(None, xs) == Some(VolumeLaws.MeanOf(EIGHTH, xs))
  {
    VolumeLaws.MeanOfOne(EIGHTH, xs[0]);
    SmoothIsWeighted(xs[0], xs[1..], [xs[0]]);
    assert [xs[0]] + xs[1..] == xs;
  }

  /** Each acknowledged entry sent at or before `now` gives one sample, the milliseconds since, in order; others give none. */
  lemma {:induction false} SamplesAre(acked: Entries<int>, more: Entries<int>, e: (u32, int), now: int)
    requires acked == more + [e]
    ensures e.1 > now ==> Samples(acked, now) == Samples(more, now)
    ensures e.1 <= now ==> exists x :: Samples(acked, now) == Samples(more, now) + [x] && x * 1000.0 == (now - e.1) as real
    decreases |more|
  {
    if more == [] {
      assert acked[1..] == [] && Samples(acked[1..], now) == [];
      if e.1 <= now {
        assert Samples(acked, now) == Samples(more, now) + [ToMs(now - e.1)];
      }
    } else {
      assert acked[1..] == more[1..] + [e];
      SamplesAre(acked[1..], more[1..], e, now);
      if e.1 <= now {
        var x :| Samples(acked[1..], now) == Samples(more[1..], now) + [x] && x * 1000.0 == (now - e.1) as real;
        assert Samples(acked, now) == Samples(more, now) + [x];
      }
    }
  }

  /** A segment's end is the offset after its last byte, as numbered. */
  lemma EndIsOffset(isn: u32, offset: nat, p: FlowPacket)
    requires p.tcp.Some? && p.tcp.value.seqNum == At(isn, offset)
    ensures EndOf(p) == At(isn, offset + p.tcp.value.payloadLen)
  {
    AtStep(isn, offset, p.tcp.value.payloadLen);
  }

  /**
   SNAPSHOTS. The snapshot of a flow that has received `ps` spans its first and last packet, shows the weighted
   mean of its samples, and the time from its first SYN to the SYN/ACK that answers it.
   */
  lemma SnapshotSummarizes(local: set<IpAddr>, k: FlowKey, ps: seq<FlowPacket>) returns (i: nat, j: nat)
    requires ps != []
    ensures var snap, xs := Snapshot(local, k, Replay(ps)), SampleHistory(ps);
      && snap.firstSeen == ps[0].ts && snap.lastSeen == ps[|ps| - 1].ts
      && snap.srtt == (if xs == [] then None else Some(VolumeLaws.MeanOf(EIGHTH, xs)))
      && (snap.handshakeRtt.Some? ==>
            && FlowAcks.Opens(ps, i) && FlowAcks.Answers(ps, i, j)
            && snap.handshakeRtt.value * 1000.0 == (ps[j].ts - ps[i].ts) as real)
      && (snap.handshakeRtt.None? ==>
            forall m, n :: 0 <= m < n < |ps| && FlowAcks.Opens(ps, m) && FlowAcks.IsSynAck(ps[n]) ==> ps[n].ts < ps[m].ts)
  {
    FlowEndings.FlagsSeen(ps);
    SrttIsSmoothedHistory(ps);
    i, j := FlowAcks.HandshakeMeasured(ps);
    hide Replay, SampleHistory, FlowAcks.Answers, FlowAcks.Opens, FlowAcks.IsSynAck, VolumeLaws.MeanOf;
    if SampleHistory(ps) != [] {
      SmoothFromNothing(SampleHistory(ps));
    }
  }
}
