/**
 An inspector that loads the live table first and subscribes to events later (`inspect/mod.rs`):
 what it shows, and exactly when that is the live table.
 */
module LateSubscribers {
  import opened Bytes
  import opened FlowKeys
  import opened FlowStates
  import opened FlowTracker
  import opened FlowRuns
  import opened Inspector
  import opened Monitor
  import opened MonitorRuns

  /** Once closed, an id is never spoken of again and no live flow has it. */
  lemma ClosedStaysSilent(b: Books, early: seq<Event>, id: nat)
    requires OpenIds(b) && early <= b.events && ClosedEvent(id) in early
    ensures id !in Touched(From(b.events, |early|))
    ensures forall key <- b.conns :: b.conns[key].id != id
  {
    var seen := From(b.events, |early|);
    var c :| 0 <= c < |early| && early[c] == ClosedEvent(id);
    assert b.events[c] == ClosedEvent(id);
    assert forall n | 0 <= n < |seen| :: seen[n] == b.events[|early| + n];
    TouchedMeans(seen, id);
  }

  // ---------------------------------------------------------------- a flow keeps its id until it is closed

  ghost predicate LivesOn(was: Books, now: Books, k: FlowKey)
    requires k in was.conns
  {
    (k in now.conns && now.conns[k].id == was.conns[k].id) || ClosedEvent(was.conns[k].id) in now.events
  }

  lemma {:induction false} PersistAllLivesOn(b: Books, snaps: seq<FlowStatsSnapshot>, refused: set<FlowKey>, k: FlowKey)
    requires SameFlows(b) && k in b.conns
    ensures LivesOn(b, PersistAll(b, snaps, refused), k)
    decreases |snaps|
  {
    if snaps != [] {
      var b' := PersistClosed(b, snaps[0], refused);
      PersistAllEvents(b', snaps[1..], refused);
      if snaps[0].key == k {
        assert b'.events[|b.events|] == ClosedEvent(b.conns[k].id);
      } else {
        PersistAllLivesOn(b', snaps[1..], refused, k);
      }
    }
  }

  lemma TurnLivesOn(local: set<IpAddr>, t: Table, b: Books, input: Input, k: FlowKey)
    requires SameFlows(b) && k in b.conns
    ensures LivesOn(b, Turn(local, t, b, input).1, k)
  {
    if input.Captured? && Info(input.p).Some? {
      var o := Update(local, t, input.p, Info(input.p).value);
      var b1 := HandleUpdate(local, b, o.update, input.answers, Millis(input.p.ts));
      HandleSameFlows(local, b, o.update, input.answers, Millis(input.p.ts));
      hide SameFlows, DtoFor, Update;
      assert b1.conns[k].id == b.conns[k].id;
      PersistAllLivesOn(b1, o.sent, input.answers.refused, k);
    }
  }

  lemma {:induction false} RunLivesOn(local: set<IpAddr>, inputs: seq<Input>, i: nat, k: FlowKey)
    requires i <= |inputs| && k in Run(local, inputs[..i]).1.conns
    ensures LivesOn(Run(local, inputs[..i]).1, Run(local, inputs).1, k)
  {
    if i == |inputs| {
      assert inputs[..i] == inputs;
    } else {
      var before, last := inputs[..|inputs| - 1], inputs[|inputs| - 1];
      assert before[..i] == inputs[..i];
      RunLivesOn(local, before, i, k);
      RunSameFlows(local, before);
      EventsGrow(local, inputs, |inputs| - 1);
      var (t, b) := Run(local, before);
      if k in b.conns {
        TurnLivesOn(local, t, b, last, k);
      }
    }
  }

  // ---------------------------------------------------------------- loading first, subscribing later

  /** What the inspector shows after loading `v` and then seeing the events from boundary `j` on. */
  function ShownLate(local: set<IpAddr>, inputs: seq<Input>, j: nat, v: seq<ConnectionDto>): Replica
    requires j <= |inputs|
  {
    ApplyAll(Load(v), SeenLate(local, inputs, j))
  }

  function SeenLate(local: set<IpAddr>, inputs: seq<Input>, j: nat): seq<Event>
    requires j <= |inputs|
  {
    From(Run(local, inputs).1.events, |Run(local, inputs[..j]).1.events|)
  }

  /** No flow loaded was closed before the inspector subscribed. */
  ghost predicate NoneClosed(loaded: Books, subscribed: Books) {
    forall k <- loaded.conns :: ClosedEvent(loaded.conns[k].id) !in subscribed.events
  }

  /** Every flow that was opened or updated in between is spoken of again later. */
  ghost predicate ChangesRepeated(loaded: Books, subscribed: Books, seen: seq<Event>) {
    forall k <- subscribed.conns ::
      k !in loaded.conns || loaded.conns[k] != subscribed.conns[k] ==> subscribed.conns[k].id in Touched(seen)
  }

  lemma EntriesMatch(bi: Books, bj: Books, ri: Replica, rj: Replica, seen: seq<Event>)
    requires Mirrors(ri, bi.conns) && Mirrors(rj, bj.conns)
    requires forall k <- bi.conns :: LivesOn(bi, bj, k)
    requires NoneClosed(bi, bj) && ChangesRepeated(bi, bj, seen)
    ensures forall id: nat :: id !in Touched(seen) ==> SameAt(ri, rj, id)
  {
    forall id: nat | id !in Touched(seen)
      ensures SameAt(ri, rj, id)
    {
      if id in rj {
        var k :| k in bj.conns && bj.conns[k].id == id;
      }
      if id in ri {
        var m :| m in bi.conns && bi.conns[m].id == id;
        assert LivesOn(bi, bj, m);
      }
    }
  }

  lemma NotListed(b: Books, r: Replica, id: nat)
    requires OpenIds(b) && Mirrors(r, b.conns) && ClosedEvent(id) in b.events
    ensures id !in r
  {
    hide NoReuse;
  }

  lemma MismatchShows(bi: Books, bj: Books, ri: Replica, rj: Replica, seen: seq<Event>)
    requires SameFlows(bj) && OpenIds(bj) && Mirrors(ri, bi.conns) && Mirrors(rj, bj.conns)
    requires forall k <- bi.conns :: LivesOn(bi, bj, k)
    requires forall id: nat :: ClosedEvent(id) in bj.events ==> id !in Touched(seen)
    requires forall id: nat :: id !in Touched(seen) ==> SameAt(ri, rj, id)
    ensures NoneClosed(bi, bj) && ChangesRepeated(bi, bj, seen)
  {
    hide NoReuse;
    forall k | k in bi.conns
      ensures ClosedEvent(bi.conns[k].id) !in bj.events
    {
      if ClosedEvent(bi.conns[k].id) in bj.events {
        NotListed(bj, rj, bi.conns[k].id);
      }
    }
    forall k | k in bj.conns && bj.conns[k].id !in Touched(seen)
      ensures k in bi.conns && bi.conns[k] == bj.conns[k]
    {
      var id := bj.conns[k].id;
      assert SameAt(ri, rj, id);
      var m :| m in bi.conns && bi.conns[m].id == id;
      assert LivesOn(bi, bj, m);
      assert m == k;
    }
  }

  /**
   LATE SUBSCRIPTION. An inspector that loads the live table at boundary `i` and subscribes at boundary
   `j` ends up showing the live table if and only if no flow it loaded was closed in between and
   every flow opened or updated in between is spoken of again afterwards.
   */
  lemma LateSubscription(local: set<IpAddr>, inputs: seq<Input>, i: nat, j: nat, v: seq<ConnectionDto>)
    requires i <= j <= |inputs| && Lists(v, Run(local, inputs[..i]).1.conns)
    ensures var bi, bj := Run(local, inputs[..i]).1, Run(local, inputs[..j]).1;
      Mirrors(ShownLate(local, inputs, j, v), Run(local, inputs).1.conns)
      <==> NoneClosed(bi, bj) && ChangesRepeated(bi, bj, SeenLate(local, inputs, j))
  {
    var bi, bj, b := Run(local, inputs[..i]).1, Run(local, inputs[..j]).1, Run(local, inputs).1;
    var seen := SeenLate(local, inputs, j);
    var ri, rj := Load(v), ApplyAll(map[], bj.events);
    ReplicaAgreement(local, inputs[..i]);
    ReplicaAgreement(local, inputs[..j]);
    ReplicaAgreement(local, inputs);
    EventsGrow(local, inputs, j);
    assert inputs[..j][..i] == inputs[..i];
    forall k | k in bi.conns
      ensures LivesOn(bi, bj, k)
    {
      RunLivesOn(local, inputs[..j], i, k);
    }
    hide Run, NoReuse, Lists;
    LoadMirrors(bi, v);
    forall id: nat | ClosedEvent(id) in bj.events
      ensures id !in Touched(seen)
    {
      ClosedStaysSilent(b, bj.events, id);
    }
    assert b.events == bj.events + seen;
    ApplyAllAppend(map[], bj.events, seen);
    SameAfter(ri, rj, seen);
    hide SameFlows, LivesOn, Mirrors, ChangesRepeated, NoneClosed, SameAt;
    if Mirrors(ApplyAll(ri, seen), b.conns) {
      MirrorsUnique(ApplyAll(ri, seen), ApplyAll(rj, seen), b.conns);
      MismatchShows(bi, bj, ri, rj, seen);
    }
    if NoneClosed(bi, bj) && ChangesRepeated(bi, bj, seen) {
      EntriesMatch(bi, bj, ri, rj, seen);
    }
  }

  /** A flow closed in between stays on show, in the state it was loaded in, whatever happens later. */
  lemma PhantomForever(local: set<IpAddr>, inputs: seq<Input>, i: nat, j: nat, v: seq<ConnectionDto>, k: FlowKey)
    requires i <= j <= |inputs| && Lists(v, Run(local, inputs[..i]).1.conns)
    requires k in Run(local, inputs[..i]).1.conns
    requires ClosedEvent(Run(local, inputs[..i]).1.conns[k].id) in Run(local, inputs[..j]).1.events
    ensures var d := Run(local, inputs[..i]).1.conns[k];
      && d.id in ShownLate(local, inputs, j, v) && ShownLate(local, inputs, j, v)[d.id] == d
      && forall key <- Run(local, inputs).1.conns :: Run(local, inputs).1.conns[key].id != d.id
  {
    var bi, bj, b := Run(local, inputs[..i]).1, Run(local, inputs[..j]).1, Run(local, inputs).1;
    ReplicaAgreement(local, inputs[..i]);
    ReplicaAgreement(local, inputs);
    EventsGrow(local, inputs, j);
    hide Run;
    ClosedStaysSilent(b, bj.events, bi.conns[k].id);
    LoadMirrors(bi, v);
    hide NoReuse, SameFlows, Lists;
    Untouched(Load(v), SeenLate(local, inputs, j), bi.conns[k].id);
  }

  // ---------------------------------------------------------------- an input on which it happens

  const SYN_THEN_RST: seq<Input> := [Captured(Segment(0, true, false), SILENT), Captured(Segment(1000, false, true), SILENT)]

  /** One TCP packet from the lower to the higher of two endpoints. */
  function Segment(ts: int, syn: bool, rst: bool): Packet {
    Packet([Ipv4(1, 2, 6), Tcp(1000, 80, TcpBits(0, 0, 0, syn, false, false, rst))], ts, 54)
  }

  const SEGMENT_KEY := FlowKey(V4(1), 1000, V4(2), 80, 6)

  lemma SegmentInfo(ts: int, syn: bool, rst: bool)
    ensures Info(Segment(ts, syn, rst)) ==
      Some(FlowInfo(Endpoint(V4(1), 1000), Endpoint(V4(2), 80), 6, Some(TcpBits(0, 0, 0, syn, false, false, rst))))
  {
    var layers := Segment(ts, syn, rst).layers;
    assert layers[1..] == [layers[1]];
    assert InfoFrom(layers[1..], Some(IpPart(V4(1), V4(2), 6))).Some?;
  }

  lemma AfterSyn(local: set<IpAddr>)
    ensures var (t, b) := Run(local, SYN_THEN_RST[..1]);
      && |t| == 1 && t[0].0 == SEGMENT_KEY && !t[0].1.rstSeen
      && b.conns.Keys == {SEGMENT_KEY} && b.conns[SEGMENT_KEY].id == 1 && b.metas.Keys == {SEGMENT_KEY}
      && b.metas[SEGMENT_KEY].id == 1 && |b.events| == 1
  {
    var inputs := SYN_THEN_RST[..1];
    assert inputs[..0] == [];
    SegmentInfo(0, true, false);
    var info := Info(inputs[0].p).value;
    var o := Update(local, [], inputs[0].p, info);
    assert o.sent == [] && o.table == [(SEGMENT_KEY, o.table[0].1)];
    hide DtoFor, Update;
  }

  lemma RstEmpties(local: set<IpAddr>, s: FlowState)
    ensures var tcp := TcpBits(0, 0, 0, false, false, false, true);
      var info := FlowInfo(Endpoint(V4(1), 1000), Endpoint(V4(2), 80), 6, Some(tcp));
      Update(local, [(SEGMENT_KEY, s)], Segment(1000, false, true), info).table == []
  {
    SegmentInfo(1000, false, true);
    var t: Table := [(SEGMENT_KEY, s)];
    OnlyEntry(t, SEGMENT_KEY);
    hide Rtt, Handshake;
  }

  lemma AfterRst(local: set<IpAddr>)
    ensures Run(local, SYN_THEN_RST).1.conns == map[]
  {
    AfterSyn(local);
    RunSameFlows(local, SYN_THEN_RST);
    SegmentInfo(1000, false, true);
    var (t, b) := Run(local, SYN_THEN_RST[..1]);
    assert t == [(SEGMENT_KEY, t[0].1)];
    RstEmpties(local, t[0].1);
    hide Update, PersistAll, HandleUpdate;
    assert Run(local, SYN_THEN_RST) == Turn(local, t, b, SYN_THEN_RST[1]);
    assert Run(local, SYN_THEN_RST).0 == [];
    assert Keys([]) == {};
  }

  /**
   A SYN before the snapshot and a RST before the subscription: the inspector shows the flow for good,
   and the daemon has none.
   */
  lemma ResetBetween(local: set<IpAddr>, d: ConnectionDto)
    requires Lists([d], Run(local, SYN_THEN_RST[..1]).1.conns)
    ensures Run(local, SYN_THEN_RST).1.conns == map[]
    ensures ShownLate(local, SYN_THEN_RST, 2, [d]) == map[1 := d]
  {
    AfterSyn(local);
    AfterRst(local);
    var b := Run(local, SYN_THEN_RST).1;
    assert SYN_THEN_RST[..2] == SYN_THEN_RST;
    assert SeenLate(local, SYN_THEN_RST, 2) == [];
    assert d.id == 1;
    hide Run;
    assert [d][..0] == [] && Load([]) == map[];
  }
}
