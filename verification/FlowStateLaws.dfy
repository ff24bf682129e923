/**
 What a flow's bookkeeping means over all the packets the flow has received: retransmission
 flags against true stream offsets, and the round-trip estimate against its samples.
 */
module FlowStateLaws {
  import opened Bytes
  import opened SerialNumbers
  import opened FlowKeys
  import opened OrderedMaps
  import opened FlowStates

  // ---------------------------------------------------------------- retransmission

  /** The wrapped segment ends that carried data in direction `d`, in order of arrival. */
  function DataEnds(ps: seq<FlowPacket>, d: Dir): seq<u32> {
    if ps == [] then [] else
    var p := ps[|ps| - 1];
    DataEnds(ps[..|ps| - 1], d) + if CarriesData(p, d) then [EndOf(p)] else []
  }

  predicate CarriesData(p: FlowPacket, d: Dir) {
    p.dir == d && p.tcp.Some? && p.tcp.value.payloadLen > 0
  }

  function EndOf(p: FlowPacket): u32
    requires p.tcp.Some?
  {
    WrapAdd(p.tcp.value.seqNum, p.tcp.value.payloadLen)
  }

  function TrackEnds(ends: seq<u32>): Option<u32> {
    if ends == [] then None else NoteEnd(TrackEnds(ends[..|ends| - 1]), ends[|ends| - 1]).0
  }

  function StateBefore(ps: seq<FlowPacket>): FlowState
    requires ps != []
  {
    if |ps| == 1 then NewState(ps[0].ts) else Replay(ps[..|ps| - 1])
  }

  lemma DataEndsStep(ps: seq<FlowPacket>, d: Dir)
    requires ps != []
    ensures var before, p := DataEnds(ps[..|ps| - 1], d), ps[|ps| - 1];
      && TrackEnds(DataEnds(ps, d))
         == (if CarriesData(p, d) then NoteEnd(TrackEnds(before), EndOf(p)).0 else TrackEnds(before))
      && (CarriesData(p, d) ==> DataEnds(ps, d) == before + [EndOf(p)])
  {
    var before, p := DataEnds(ps[..|ps| - 1], d), ps[|ps| - 1];
    if CarriesData(p, d) {
      var ends := before + [EndOf(p)];
      assert ends[..|ends| - 1] == before;
    } else {
      assert DataEnds(ps, d) == before;
    }
  }

  lemma {:induction false} ReplayTracksEnds(ps: seq<FlowPacket>, d: Dir)
    requires ps != []
    ensures MaxSeq(StateBefore(ps), d) == TrackEnds(DataEnds(ps[..|ps| - 1], d))
    ensures MaxSeq(Account(StateBefore(ps), ps[|ps| - 1]).0, d) == TrackEnds(DataEnds(ps, d))
  {
    if |ps| > 1 {
      ReplayTracksEnds(ps[..|ps| - 1], d);
    }
    DataEndsStep(ps, d);
    AccountMaxSeq(StateBefore(ps), ps[|ps| - 1], d);
  }

  lemma AccountMaxSeq(s: FlowState, p: FlowPacket, d: Dir)
    ensures MaxSeq(Account(s, p).0, d)
            == if CarriesData(p, d) then NoteEnd(MaxSeq(s, d), EndOf(p)).0 else MaxSeq(s, d)
    ensures CarriesData(p, d) ==> Account(s, p).1 == Some(NoteEnd(MaxSeq(s, d), EndOf(p)).1)
  {
    if p.tcp.Some? {
      RttKeepsMax(MarkMax(Count(s, p), p.dir, p.tcp.value).0, p.dir, p.tcp.value, p.ts, d);
    }
  }

  lemma RttKeepsMax(s: FlowState, dir: Dir, tcp: TcpBits, ts: int, d: Dir)
    ensures MaxSeq(Rtt(s, dir, tcp, ts), d) == MaxSeq(s, d)
  {
    var s1 := Handshake(s, tcp, ts);
    assert MaxSeq(s1, d) == MaxSeq(s, d);
    assert MaxSeq(SentBy(s1, dir, tcp, ts), d) == MaxSeq(s1, d);
  }

  function Largest(es: seq<nat>): nat
    requires es != []
  {
    if |es| == 1 then es[0] else
    var m := Largest(es[..|es| - 1]);
    if es[|es| - 1] <= m then m else es[|es| - 1]
  }

  /** The ends are the numbers of the true offsets `es`. */
  predicate Numbers(isn: u32, ends: seq<u32>, es: seq<nat>) {
    |ends| == |es| && forall i :: 0 <= i < |es| ==> ends[i] == At(isn, es[i])
  }

  /** Every end after the first lies within [-2^31, 2^31) of the largest before it. */
  predicate InWindow(es: seq<nat>) {
    forall i :: 1 <= i < |es| ==> -HALF <= es[i] - Largest(es[..i]) < HALF
  }

  /** No end strays a whole sequence space from the largest before it. */
  predicate WithinSpace(es: seq<nat>) {
    forall i :: 1 <= i < |es| ==> -MODULUS < es[i] - Largest(es[..i]) < MODULUS
  }

  /** Each segment is flagged exactly when its true end adds nothing to what was seen. */
  predicate FlagsRight(ends: seq<u32>, es: seq<nat>)
    requires |ends| == |es|
  {
    forall i :: 0 <= i < |es| ==> FlagRight(ends, es, i)
  }

  predicate FlagRight(ends: seq<u32>, es: seq<nat>, i: nat)
    requires |ends| == |es| && i < |es|
  {
    NoteEnd(TrackEnds(ends[..i]), ends[i]).1 <==> i > 0 && es[i] <= Largest(es[..i])
  }

  lemma WindowPrefix(es: seq<nat>)
    requires es != []
    ensures InWindow(es) <==> InWindow(es[..|es| - 1]) && (|es| > 1 ==> LastInWindow(es))
    ensures WithinSpace(es) ==> WithinSpace(es[..|es| - 1])
  {
    var n := |es| - 1;
    forall i | 0 < i < n
      ensures es[..n][..i] == es[..i] && es[..n][i] == es[i]
    {
    }
  }

  predicate LastInWindow(es: seq<nat>)
    requires |es| > 1
  {
    -HALF <= es[|es| - 1] - Largest(es[..|es| - 1]) < HALF
  }

  lemma NoteEndExact(isn: u32, max: nat, e: nat)
    requires -MODULUS < e - max < MODULUS
    ensures (NoteEnd(Some(At(isn, max)), At(isn, e)).1 <==> e <= max) <==> -HALF <= e - max < HALF
    ensures -HALF <= e - max < HALF ==>
      NoteEnd(Some(At(isn, max)), At(isn, e)).0 == Some(At(isn, if e <= max then max else e))
  {
    SeqLeqExact(isn, e, max);
  }

  lemma OneEnd(isn: u32, ends: seq<u32>)
    requires |ends| == 1
    ensures TrackEnds(ends) == Some(ends[0])
  {
  }

  lemma {:induction false} TrackedMaximum(isn: u32, ends: seq<u32>, es: seq<nat>)
    requires Numbers(isn, ends, es) && es != [] && InWindow(es)
    ensures TrackEnds(ends) == Some(At(isn, Largest(es)))
  {
    hide NoteEnd, At;
    var n := |es| - 1;
    if n == 0 {
      OneEnd(isn, ends);
    } else {
      WindowPrefix(es);
      TrackedMaximum(isn, ends[..n], es[..n]);
      NoteEndExact(isn, Largest(es[..n]), es[n]);
    }
  }

  /** With the window kept so far, the next flag is right exactly when the next end keeps it too. */
  lemma NextFlag(isn: u32, ends: seq<u32>, es: seq<nat>, i: nat)
    requires Numbers(isn, ends, es) && WithinSpace(es) && 0 < i < |es| && InWindow(es[..i])
    ensures FlagRight(ends, es, i) <==> -HALF <= es[i] - Largest(es[..i]) < HALF
  {
    TrackedMaximum(isn, ends[..i], es[..i]);
    NoteEndExact(isn, Largest(es[..i]), es[i]);
  }

  lemma FlagsPrefix(ends: seq<u32>, es: seq<nat>)
    requires |ends| == |es| > 0
    ensures var n := |es| - 1;
      FlagsRight(ends, es) <==> FlagsRight(ends[..n], es[..n]) && FlagRight(ends, es, n)
  {
    var n := |es| - 1;
    forall i | 0 <= i < n
      ensures FlagRight(ends[..n], es[..n], i) <==> FlagRight(ends, es, i)
    {
      assert ends[..n][..i] == ends[..i] && es[..n][..i] == es[..i];
    }
  }

  /**
   RETRANSMISSION. For ends that stay within one sequence space of the running maximum, every
   flag is right if and only if every end stays within half a space of it, across any number
   of wraps.
   */
  lemma {:induction false} FlagsRightExactly(isn: u32, ends: seq<u32>, es: seq<nat>)
    requires Numbers(isn, ends, es) && WithinSpace(es)
    ensures FlagsRight(ends, es) <==> InWindow(es)
  {
    if es != [] {
      var n := |es| - 1;
      FlagsPrefix(ends, es);
      WindowPrefix(es);
      FlagsRightExactly(isn, ends[..n], es[..n]);
      if n > 0 && InWindow(es[..n]) {
        NextFlag(isn, ends, es, n);
      }
    }
  }

  /** The same for a whole flow: the annotation on its latest packet, from all its packets. */
  lemma {:induction false} RetransmissionAnnotation(isn: u32, ps: seq<FlowPacket>, es: seq<nat>)
    requires ps != []
    requires var p := ps[|ps| - 1]; CarriesData(p, p.dir) && Numbers(isn, DataEnds(ps, p.dir), es) && InWindow(es)
    ensures es != []
    ensures var p := ps[|ps| - 1];
      && Account(StateBefore(ps), p).1 == Some(|es| > 1 && es[|es| - 1] <= Largest(es[..|es| - 1]))
      && MaxSeq(Replay(ps), p.dir) == Some(At(isn, Largest(es)))
  {
    var p := ps[|ps| - 1];
    var ends := DataEnds(ps, p.dir);
    var n := |es| - 1;
    ReplayTracksEnds(ps, p.dir);
    AccountMaxSeq(StateBefore(ps), p, p.dir);
    assert ends[..n] == DataEnds(ps[..|ps| - 1], p.dir) && ends[n] == EndOf(p);
    TrackedMaximum(isn, ends, es);
    FlagsRightExactly(isn, ends, es);
    assert FlagRight(ends, es, n);
  }

  // ---------------------------------------------------------------- in-flight maps

  ghost predicate InFlightOk(s: FlowState) {
    && Sorted(s.unackedLow) && |s.unackedLow| <= 256
    && Sorted(s.unackedHigh) && |s.unackedHigh| <= 256
  }

  lemma NoteSentOk(unacked: Entries<int>, end: u32, ts: int)
    requires Sorted(unacked) && |unacked| <= MAX_UNACKED
    ensures Sorted(NoteSent(unacked, end, ts)) && |NoteSent(unacked, end, ts)| <= MAX_UNACKED
    ensures forall e <- NoteSent(unacked, end, ts) :: e in unacked || e == (end, ts)
  {
    OrInsertSorted(unacked, end, ts);
    forall e <- NoteSent(unacked, end, ts)
      ensures e in unacked || e == (end, ts)
    {
      assert e in OrInsert(unacked, end, ts);
      OrInsertMember(unacked, end, ts, e);
    }
  }

  lemma SentByOk(s: FlowState, dir: Dir, tcp: TcpBits, ts: int)
    requires InFlightOk(s)
    ensures InFlightOk(SentBy(s, dir, tcp, ts))
    ensures PeerUnacked(SentBy(s, dir, tcp, ts), dir) == PeerUnacked(s, dir)
  {
    NoteSentOk(if dir.LowToHigh? then s.unackedLow else s.unackedHigh, WrapAdd(tcp.seqNum, tcp.payloadLen), ts);
  }

  lemma AckedByOk(s: FlowState, dir: Dir, tcp: TcpBits, ts: int)
    requires InFlightOk(s)
    ensures InFlightOk(AckedBy(s, dir, tcp, ts))
    ensures tcp.ackFlag ==>
      forall e <- PeerUnacked(AckedBy(s, dir, tcp, ts), dir) :: e in PeerUnacked(s, dir) && e.0 > tcp.ack
  {
    AfterUpTo(PeerUnacked(s, dir), tcp.ack);
  }

  lemma BookkeepingOk(s: FlowState, p: FlowPacket)
    requires InFlightOk(s) && p.tcp.Some?
    ensures var r := Handshake(MarkMax(Count(s, p), p.dir, p.tcp.value).0, p.tcp.value, p.ts);
      InFlightOk(r) && PeerUnacked(r, p.dir) == PeerUnacked(s, p.dir)
  {
  }

  /**
   Every packet keeps both in-flight maps ordered and within 256 entries, and a packet that
   acknowledges leaves nothing at or below its number in flight from the other side.
   */
  lemma InFlight(s: FlowState, p: FlowPacket)
    requires InFlightOk(s)
    ensures InFlightOk(Account(s, p).0)
    ensures p.tcp.Some? && p.tcp.value.ackFlag ==>
      forall e <- PeerUnacked(Account(s, p).0, p.dir) :: e.0 > p.tcp.value.ack && e in PeerUnacked(s, p.dir)
  {
    if p.tcp.Some? {
      var tcp, s1 := p.tcp.value, Count(s, p);
      BookkeepingOk(s, p);
      var s2 := Handshake(MarkMax(s1, p.dir, tcp).0, tcp, p.ts);
      SentByOk(s2, p.dir, tcp, p.ts);
      var s3 := SentBy(s2, p.dir, tcp, p.ts);
      AckedByOk(s3, p.dir, tcp, p.ts);
      assert Account(s, p).0 == Flags(AckedBy(s3, p.dir, tcp, p.ts), p.dir, tcp);
    }
  }

  // ---------------------------------------------------------------- smoothed estimate

  /** The samples one packet contributes. */
  function SamplesOf(s: FlowState, p: FlowPacket): seq<real> {
    if p.tcp.Some? && p.tcp.value.ackFlag then Samples(UpTo(PeerUnacked(s, p.dir), p.tcp.value.ack), p.ts) else []
  }

  /** All the samples a flow has taken. */
  function SampleHistory(ps: seq<FlowPacket>): seq<real> {
    if ps == [] then [] else SampleHistory(ps[..|ps| - 1]) + SamplesOf(StateBefore(ps), ps[|ps| - 1])
  }

  lemma {:induction false} SmoothAllAppend(srtt: Option<real>, xs: seq<real>, ys: seq<real>)
    ensures SmoothAll(srtt, xs + ys) == SmoothAll(SmoothAll(srtt, xs), ys)
    decreases |xs|
  {
    if xs == [] {
      assert xs + ys == ys;
    } else {
      assert (xs + ys)[1..] == xs[1..] + ys;
      SmoothAllAppend(Some(Smooth(srtt, xs[0])), xs[1..], ys);
    }
  }

  lemma {:induction false} SmoothAllBounds(srtt: Option<real>, xs: seq<real>, lo: real, hi: real)
    requires srtt.Some? ==> lo <= srtt.value <= hi
    requires forall x <- xs :: lo <= x <= hi
    ensures var r := SmoothAll(srtt, xs);
      (r.Some? <==> srtt.Some? || xs != []) && (r.Some? ==> lo <= r.value <= hi)
    decreases |xs|
  {
    if xs != [] {
      assert xs[0] in xs && forall x <- xs[1..] :: x in xs;
      SmoothAllBounds(Some(Smooth(srtt, xs[0])), xs[1..], lo, hi);
    }
  }

  lemma AccountSrtt(s: FlowState, p: FlowPacket)
    ensures Account(s, p).0.srtt == SmoothAll(s.srtt, SamplesOf(s, p))
  {
    if p.tcp.Some? {
      RttSrtt(MarkMax(Count(s, p), p.dir, p.tcp.value).0, p);
    }
  }

  lemma RttSrtt(s: FlowState, p: FlowPacket)
    requires p.tcp.Some?
    ensures Rtt(s, p.dir, p.tcp.value, p.ts).srtt == SmoothAll(s.srtt, SamplesOf(s, p))
  {
    var s1 := Handshake(s, p.tcp.value, p.ts);
    assert s1.srtt == s.srtt && PeerUnacked(s1, p.dir) == PeerUnacked(s, p.dir);
    var s2 := SentBy(s1, p.dir, p.tcp.value, p.ts);
    assert s2.srtt == s.srtt && PeerUnacked(s2, p.dir) == PeerUnacked(s, p.dir);
  }

  lemma {:induction false} SrttIsSmoothedHistory(ps: seq<FlowPacket>)
    requires ps != []
    ensures Replay(ps).srtt == SmoothAll(None, SampleHistory(ps))
    ensures forall x <- SampleHistory(ps) :: x >= 0.0
  {
    var n := |ps| - 1;
    if n > 0 {
      SrttIsSmoothedHistory(ps[..n]);
    } else {
      assert ps[..n] == [];
    }
    var xs := SamplesOf(StateBefore(ps), ps[n]);
    AccountSrtt(StateBefore(ps), ps[n]);
    SmoothAllAppend(None, SampleHistory(ps[..n]), xs);
  }

  /** RTT. The estimate exists once a sample does, and stays between the smallest and the largest. */
  lemma SrttBetweenSamples(ps: seq<FlowPacket>, lo: real, hi: real)
    requires ps != []
    requires forall x <- SampleHistory(ps) :: lo <= x <= hi
    ensures var srtt := Replay(ps).srtt;
      (srtt.Some? <==> SampleHistory(ps) != []) && (srtt.Some? ==> lo <= srtt.value <= hi)
  {
    SrttIsSmoothedHistory(ps);
    SmoothAllBounds(None, SampleHistory(ps), lo, hi);
  }
}
