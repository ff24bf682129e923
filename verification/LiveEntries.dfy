/** What a live connection shows, said of the packets of its flow and the answers given with them. */
module LiveEntries {
  import opened Bytes
  import opened FlowKeys
  import opened FlowStates
  import opened FlowTracker
  import opened FlowRuns
  import opened Inspector
  import opened Monitor
  import opened MonitorRuns
  import opened ClosedFlows

  /** A packet of a flow, and what the outside world answered with it. */
  datatype Sighting = Sighting(packet: FlowPacket, answers: Answers)

  /** The sightings of the connection live under a key; none when there is no such connection. */
  function Sightings(local: set<IpAddr>, inputs: seq<Input>, k: FlowKey): seq<Sighting> {
    if inputs == [] || k !in Run(local, inputs).1.conns then [] else
    Sightings(local, inputs[..|inputs| - 1], k) + Sighted(inputs[|inputs| - 1], k)
  }

  /** What one input adds to the sightings of a flow. */
  function Sighted(input: Input, k: FlowKey): seq<Sighting> {
    if input.Captured? && Info(input.p).Some? && KeyOf(Info(input.p).value) == k
    then [Sighting(FlowPacketOf(input.p, Info(input.p).value), input.answers)] else []
  }

  /** `shown` is what the last sighting that answers says, and `otherwise` when none does. */
  ghost predicate Latest<T(!new)>(seen: seq<Sighting>, answer: Answers -> Option<T>, shown: T, otherwise: T) {
    if forall s <- seen :: answer(s.answers).None? then shown == otherwise else
    exists i :: 0 <= i < |seen| && answer(seen[i].answers) == Some(shown)
      && forall j :: i < j < |seen| ==> answer(seen[j].answers).None?
  }

  lemma LatestMore<T(!new)>(seen: seq<Sighting>, s: Sighting, answer: Answers -> Option<T>, shown: T, otherwise: T)
    requires Latest(seen, answer, shown, otherwise)
    ensures Latest(seen + [s], answer, if answer(s.answers).Some? then answer(s.answers).value else shown, otherwise)
  {
    var all := seen + [s];
    assert all[|seen|] == s && s in all;
    if answer(s.answers).None? {
      if forall x <- seen :: answer(x.answers).None? {
      } else {
        var i :| 0 <= i < |seen| && answer(seen[i].answers) == Some(shown)
          && forall j :: i < j < |seen| ==> answer(seen[j].answers).None?;
        assert all[i] == seen[i] && all[i] in all;
      }
    }
  }

  const PROCESS := (a: Answers) => if a.proc.Some? then Some((a.proc.value.name, Some(a.proc.value.pid as int))) else None
  const NAME := (a: Answers) => a.name
  const COUNTRY := (a: Answers) => if a.geo.country.Some? then Some(a.geo.country) else None
  const NETWORK := (a: Answers) => if a.geo.asn.Some? then Some((a.geo.asn, a.geo.asOrg)) else None
  const VERDICT := (a: Answers) => if a.verdict.Some? then Some((a.verdict.value.processId, Some(a.verdict.value.destId))) else None

  /** Sender and receiver of a packet of the flow. */
  function Ends(k: FlowKey, dir: Dir): ((IpAddr, u16), (IpAddr, u16)) {
    var low := (k.addrLow, k.portLow);
    var high := (k.addrHigh, k.portHigh);
    if dir == LowToHigh then (low, high) else (high, low)
  }

  /** The ends, the direction and the start of a connection are those of its first packet. */
  predicate OpenedBy(local: set<IpAddr>, k: FlowKey, first: Sighting, last: Sighting, d: ConnectionDto, m: FlowMeta) {
    var (sender, receiver) := Ends(k, first.packet.dir);
    var out := sender.0 in local || receiver.0 !in local;
    && d.outbound == m.outbound == out
    && (d.localPort, d.remotePort) == (if out then (sender.1, receiver.1) else (receiver.1, sender.1))
    && d.protocol == k.protocol && d.remoteIp == first.answers.remoteText
    && d.firstSeenMs == first.packet.ts / 1000 && d.lastSeenMs == last.packet.ts / 1000
    && d.id == m.id
  }

  /** The rest is what was last answered about the connection. */
  ghost predicate Shows(local: set<IpAddr>, k: FlowKey, seen: seq<Sighting>, d: ConnectionDto, m: FlowMeta) {
    && seen != [] && OpenedBy(local, k, seen[0], seen[|seen| - 1], d, m)
    && Latest(seen, PROCESS, (d.process, d.pid), ("?", None))
    && Latest(seen, NAME, d.destName, seen[0].answers.remoteText)
    && Latest(seen, COUNTRY, d.country, None)
    && Latest(seen, NETWORK, (d.asn, d.asOrg), (None, seen[0].answers.geo.asOrg))
    && Latest(seen, VERDICT, (m.processId, m.destId), (None, None))
  }

  lemma LatestOne<T(!new)>(s: Sighting, answer: Answers -> Option<T>, otherwise: T)
    ensures Latest([s], answer, if answer(s.answers).Some? then answer(s.answers).value else otherwise, otherwise)
  {
    assert [s][0] in [s];
  }

  lemma OrientIs(local: set<IpAddr>, k: FlowKey, dir: Dir)
    ensures var (near, far, out) := Orient(local, k, dir);
      var (sender, receiver) := Ends(k, dir);
      && out == (sender.0 in local || receiver.0 !in local)
      && (near.port, far.port) == if out then (sender.1, receiver.1) else (receiver.1, sender.1)
  {
  }

  lemma FirstOpens(local: set<IpAddr>, b: Books, u: FlowUpdate, fp: FlowPacket, a: Answers)
    requires u.key !in b.conns && u.key !in b.metas && u.dir == fp.dir
    ensures var d, s := DtoFor(local, b, u, a, Millis(fp.ts)), Sighting(fp, a);
      OpenedBy(local, u.key, s, s, d, Judged(MetaFor(b, u.key, Orient(local, u.key, u.dir).2), a.verdict))
  {
    OrientIs(local, u.key, u.dir);
    hide Orient, Ends;
  }

  lemma FirstAnswers(local: set<IpAddr>, b: Books, u: FlowUpdate, fp: FlowPacket, a: Answers)
    requires u.key !in b.conns
    ensures var d := DtoFor(local, b, u, a, Millis(fp.ts));
      && (d.process, d.pid) == (if PROCESS(a).Some? then PROCESS(a).value else ("?", None))
      && d.destName == (if NAME(a).Some? then NAME(a).value else a.remoteText)
      && d.country == (if COUNTRY(a).Some? then COUNTRY(a).value else None)
      && (d.asn, d.asOrg) == (if NETWORK(a).Some? then NETWORK(a).value else (None, a.geo.asOrg))
  {
    hide Orient, MetaFor;
  }

  lemma Judging(m: FlowMeta, a: Answers)
    ensures var m' := Judged(m, a.verdict);
      (m'.processId, m'.destId) == if VERDICT(a).Some? then VERDICT(a).value else (m.processId, m.destId)
  {
  }

  lemma FirstShows(local: set<IpAddr>, b: Books, u: FlowUpdate, fp: FlowPacket, a: Answers)
    requires u.key !in b.conns && u.key !in b.metas && u.dir == fp.dir
    ensures var b' := HandleUpdate(local, b, u, a, Millis(fp.ts));
      Shows(local, u.key, [Sighting(fp, a)], b'.conns[u.key], b'.metas[u.key])
  {
    var s := Sighting(fp, a);
    HandleOwn(local, b, u, a, Millis(fp.ts));
    FirstOpens(local, b, u, fp, a);
    FirstAnswers(local, b, u, fp, a);
    var m := MetaFor(b, u.key, Orient(local, u.key, u.dir).2);
    assert (m.processId, m.destId) == (None, None);
    Judging(m, a);
    LatestOne(s, PROCESS, ("?", None));
    LatestOne(s, NAME, a.remoteText);
    LatestOne(s, COUNTRY, None);
    LatestOne(s, NETWORK, (None, a.geo.asOrg));
    LatestOne(s, VERDICT, (None, None));
    hide DtoFor, HandleUpdate, Latest, OpenedBy, Orient, Judged, MetaFor;
  }

  lemma MoreOpens(local: set<IpAddr>, b: Books, u: FlowUpdate, fp: FlowPacket, a: Answers, first: Sighting, last: Sighting)
    requires u.key in b.conns && u.key in b.metas
    requires OpenedBy(local, u.key, first, last, b.conns[u.key], b.metas[u.key])
    ensures OpenedBy(local, u.key, first, Sighting(fp, a), DtoFor(local, b, u, a, Millis(fp.ts)),
                     Judged(MetaFor(b, u.key, Orient(local, u.key, u.dir).2), a.verdict))
  {
    hide Orient;
  }

  lemma MoreAnswers(local: set<IpAddr>, b: Books, u: FlowUpdate, fp: FlowPacket, a: Answers)
    requires u.key in b.conns
    ensures var d, d' := b.conns[u.key], DtoFor(local, b, u, a, Millis(fp.ts));
      && (d'.process, d'.pid) == (if PROCESS(a).Some? then PROCESS(a).value else (d.process, d.pid))
      && d'.destName == (if NAME(a).Some? then NAME(a).value else d.destName)
      && d'.country == (if COUNTRY(a).Some? then COUNTRY(a).value else d.country)
      && (d'.asn, d'.asOrg) == (if NETWORK(a).Some? then NETWORK(a).value else (d.asn, d.asOrg))
  {
    hide Orient, MetaFor;
  }

  lemma MoreShows(local: set<IpAddr>, b: Books, u: FlowUpdate, fp: FlowPacket, a: Answers, seen: seq<Sighting>)
    requires u.key in b.conns && u.key in b.metas
    requires Shows(local, u.key, seen, b.conns[u.key], b.metas[u.key])
    ensures var b' := HandleUpdate(local, b, u, a, Millis(fp.ts));
      Shows(local, u.key, seen + [Sighting(fp, a)], b'.conns[u.key], b'.metas[u.key])
  {
    var s, d, m := Sighting(fp, a), b.conns[u.key], b.metas[u.key];
    HandleOwn(local, b, u, a, Millis(fp.ts));
    MoreOpens(local, b, u, fp, a, seen[0], seen[|seen| - 1]);
    MoreAnswers(local, b, u, fp, a);
    Judging(m, a);
    LatestMore(seen, s, PROCESS, (d.process, d.pid), ("?", None));
    LatestMore(seen, s, NAME, d.destName, seen[0].answers.remoteText);
    LatestMore(seen, s, COUNTRY, d.country, None);
    LatestMore(seen, s, NETWORK, (d.asn, d.asOrg), (None, seen[0].answers.geo.asOrg));
    LatestMore(seen, s, VERDICT, (m.processId, m.destId), (None, None));
    hide DtoFor, HandleUpdate, Latest, OpenedBy, Orient;
  }

  /** Every live connection shows its sightings. */
  ghost predicate AllShow(local: set<IpAddr>, b: Books, seen: FlowKey -> seq<Sighting>) {
    forall k <- b.conns :: k in b.metas && Shows(local, k, seen(k), b.conns[k], b.metas[k])
  }

  lemma HandleShows(local: set<IpAddr>, b: Books, u: FlowUpdate, fp: FlowPacket, a: Answers,
                    seen: FlowKey -> seq<Sighting>, seen': FlowKey -> seq<Sighting>)
    requires b.conns.Keys == b.metas.Keys && AllShow(local, b, seen) && u.dir == fp.dir
    requires u.key !in b.conns ==> seen(u.key) == []
    requires forall k :: seen'(k) == seen(k) + if k == u.key then [Sighting(fp, a)] else []
    ensures AllShow(local, HandleUpdate(local, b, u, a, Millis(fp.ts)), seen')
  {
    if u.key in b.conns {
      MoreShows(local, b, u, fp, a, seen(u.key));
    } else {
      FirstShows(local, b, u, fp, a);
      assert seen'(u.key) == [Sighting(fp, a)];
    }
    HandleOwn(local, b, u, a, Millis(fp.ts));
    hide Shows, DtoFor, HandleUpdate, Judged, MetaFor, Orient;
    var b' := HandleUpdate(local, b, u, a, Millis(fp.ts));
    forall k | k in b'.conns
      ensures k in b'.metas && Shows(local, k, seen'(k), b'.conns[k], b'.metas[k])
    {
      if k != u.key {
        assert k in b.conns && seen'(k) == seen(k);
      }
    }
  }

  lemma {:induction false} PersistAllKeepsMetas(b: Books, snaps: seq<FlowStatsSnapshot>, refused: set<FlowKey>)
    ensures forall k <- PersistAll(b, snaps, refused).metas :: k in b.metas && PersistAll(b, snaps, refused).metas[k] == b.metas[k]
    decreases |snaps|
  {
    if snaps != [] {
      PersistAllKeepsMetas(PersistClosed(b, snaps[0], refused), snaps[1..], refused);
    }
  }

  /** The sightings before a turn's closed flows are dropped. */
  function SeenBy(local: set<IpAddr>, before: seq<Input>, input: Input): FlowKey -> seq<Sighting> {
    Extended(Seen(local, before), input)
  }

  lemma {:induction false} NoSightings(local: set<IpAddr>, inputs: seq<Input>, k: FlowKey)
    requires k !in Run(local, inputs).1.conns
    ensures Sightings(local, inputs, k) == []
  {
  }

  lemma UpdateOf(local: set<IpAddr>, t: Table, p: Packet, info: FlowInfo)
    ensures var u := Update(local, t, p, info).update; u.key == KeyOf(info) && u.dir == FlowPacketOf(p, info).dir
  {
    hide Account, ShouldClose, Snapshot, Lookup, Without, Evicts;
  }

  /** The sightings with one more input's. */
  function Extended(seen: FlowKey -> seq<Sighting>, input: Input): FlowKey -> seq<Sighting> {
    (k: FlowKey) => seen(k) + Sighted(input, k)
  }

  /** The turn's own books show the sightings, the turn's own included. */
  lemma TurnShows(local: set<IpAddr>, t: Table, b: Books, input: Input, seen: FlowKey -> seq<Sighting>)
    requires input.Captured? && Info(input.p).Some?
    requires SameFlows(b) && AllShow(local, b, seen) && forall k :: k !in b.conns ==> seen(k) == []
    ensures var u := Update(local, t, input.p, Info(input.p).value).update;
      AllShow(local, HandleUpdate(local, b, u, input.answers, Millis(input.p.ts)), Extended(seen, input))
  {
    var info := Info(input.p).value;
    var u, fp := Update(local, t, input.p, info).update, FlowPacketOf(input.p, info);
    UpdateOf(local, t, input.p, info);
    hide HandleUpdate, AllShow, Info, Update, KeyOf, FlowPacketOf, Millis;
    HandleShows(local, b, u, fp, input.answers, seen, Extended(seen, input));
  }

  /** What is sighted in a run. */
  function Seen(local: set<IpAddr>, inputs: seq<Input>): FlowKey -> seq<Sighting> {
    (k: FlowKey) => Sightings(local, inputs, k)
  }

  lemma RunShows(local: set<IpAddr>, before: seq<Input>, input: Input)
    requires AllShow(local, Run(local, before).1, Seen(local, before))
    requires input.Captured? && Info(input.p).Some?
    ensures var (t, b) := Run(local, before);
      var u := Update(local, t, input.p, Info(input.p).value).update;
      AllShow(local, HandleUpdate(local, b, u, input.answers, Millis(input.p.ts)), SeenBy(local, before, input))
  {
    var (t, b) := Run(local, before);
    RunSameFlows(local, before);
    forall k | k !in b.conns
      ensures Seen(local, before)(k) == []
    {
      NoSightings(local, before, k);
    }
    hide HandleUpdate, Run, AllShow, Info, Update, Sightings;
    TurnShows(local, t, b, input, Seen(local, before));
  }

  /**
   LIVE ENTRIES. At every boundary each live connection has the endpoints, direction, id and start of the
   first packet of its flow's current incarnation, the last packet's time, and of process, name,
   country, network and verdict whatever was last answered with one of its packets.
   */
  lemma {:induction false} LiveShowsSightings(local: set<IpAddr>, inputs: seq<Input>)
    ensures AllShow(local, Run(local, inputs).1, Seen(local, inputs))
  {
    if inputs != [] {
      var before, input := inputs[..|inputs| - 1], inputs[|inputs| - 1];
      LiveShowsSightings(local, before);
      var (t, b) := Run(local, before);
      var b' := Run(local, inputs).1;
      if input.Captured? && Info(input.p).Some? {
        RunShows(local, before, input);
        var o := Update(local, t, input.p, Info(input.p).value);
        var b1 := HandleUpdate(local, b, o.update, input.answers, Millis(input.p.ts));
        PersistAllKeepsConns(b1, o.sent, input.answers.refused);
        PersistAllKeepsMetas(b1, o.sent, input.answers.refused);
        RunSameFlows(local, inputs);
        hide Shows, HandleUpdate, PersistAll, Info, SameFlows;
        forall k | k in b'.conns
          ensures k in b'.metas && Shows(local, k, Sightings(local, inputs, k), b'.conns[k], b'.metas[k])
        {
          assert Sightings(local, inputs, k) == SeenBy(local, before, input)(k);
        }
      } else {
        hide Shows, Info;
        forall k | k in b'.conns
          ensures k in b'.metas && Shows(local, k, Sightings(local, inputs, k), b'.conns[k], b'.metas[k])
        {
          assert Sightings(local, inputs, k) == Sightings(local, before, k);
        }
      }
    }
  }

  // ---------------------------------------------------------------- the flow table's view

  function PacketsSeen(seen: seq<Sighting>): (ps: seq<FlowPacket>)
    ensures |ps| == |seen|
  {
    seq(|seen|, i requires 0 <= i < |seen| => seen[i].packet)
  }

  /** A flow is live in the worker's books when it is in the tracker's table. */
  lemma LiveTogether(local: set<IpAddr>, inputs: seq<Input>, k: FlowKey)
    ensures k in Run(local, inputs).1.conns <==> Lookup(After(local, PacketsOf(inputs)).0, k).Some?
  {
    RunSameFlows(local, inputs);
    RowsAreSnapshots(local, inputs);
    KeysByLookup(Run(local, inputs).0);
    hide Run, After, RowsOf, SameFlows, Distinct, PacketsOf;
  }

  /** The packets sighted are those of the flow's current incarnation in the flow table. */
  lemma {:induction false} SightingsAreIncarnation(local: set<IpAddr>, inputs: seq<Input>, k: FlowKey)
    ensures PacketsSeen(Sightings(local, inputs, k)) == Incarnation(local, PacketsOf(inputs), k)
  {
    if inputs != [] {
      var before, input := inputs[..|inputs| - 1], inputs[|inputs| - 1];
      SightingsAreIncarnation(local, before, k);
      if input.Captured? {
        hide Sightings, Incarnation, PacketsOf;
        CapturedKeeps(local, inputs, k);
      } else {
        assert PacketsOf(inputs) == PacketsOf(before);
        hide Sightings, Incarnation;
        TimeoutKeeps(local, inputs, k);
      }
    }
  }

  lemma SightingsStep(local: set<IpAddr>, inputs: seq<Input>, k: FlowKey)
    requires inputs != []
    ensures Sightings(local, inputs, k) == if k !in Run(local, inputs).1.conns then []
      else Sightings(local, inputs[..|inputs| - 1], k) + Sighted(inputs[|inputs| - 1], k)
  {
    hide Run, Sighted;
  }

  lemma IncarnationStep(local: set<IpAddr>, ps: seq<Packet>, p: Packet, k: FlowKey)
    ensures Incarnation(local, ps + [p], k) == if Lookup(After(local, ps + [p]).0, k).None? then []
      else Incarnation(local, ps, k)
           + if Info(p).Some? && KeyOf(Info(p).value) == k then [FlowPacketOf(p, Info(p).value)] else []
  {
    assert (ps + [p])[..|ps|] == ps;
    hide After, Lookup, Info;
  }

  lemma PacketsSeenAppend(xs: seq<Sighting>, ys: seq<Sighting>)
    ensures PacketsSeen(xs + ys) == PacketsSeen(xs) + PacketsSeen(ys)
  {
  }

  lemma PacketSighted(input: Input, k: FlowKey)
    requires input.Captured?
    ensures PacketsSeen(Sighted(input, k))
         == if Info(input.p).Some? && KeyOf(Info(input.p).value) == k then [FlowPacketOf(input.p, Info(input.p).value)] else []
  {
    hide Info, KeyOf, FlowPacketOf;
  }

  lemma CapturedKeeps(local: set<IpAddr>, inputs: seq<Input>, k: FlowKey)
    requires inputs != [] && inputs[|inputs| - 1].Captured?
    requires PacketsSeen(Sightings(local, inputs[..|inputs| - 1], k))
          == Incarnation(local, PacketsOf(inputs[..|inputs| - 1]), k)
    ensures PacketsSeen(Sightings(local, inputs, k)) == Incarnation(local, PacketsOf(inputs), k)
  {
    var before, input := inputs[..|inputs| - 1], inputs[|inputs| - 1];
    assert PacketsOf(inputs) == PacketsOf(before) + [input.p];
    PacketSighted(input, k);
    hide *;
    LiveTogether(local, inputs, k);
    SightingsStep(local, inputs, k);
    IncarnationStep(local, PacketsOf(before), input.p, k);
    PacketsSeenAppend(Sightings(local, before, k), Sighted(input, k));
    assert PacketsSeen([]) == [];
  }

  lemma TimeoutKeeps(local: set<IpAddr>, inputs: seq<Input>, k: FlowKey)
    requires inputs != [] && inputs[|inputs| - 1].Timeout?
    ensures Sightings(local, inputs, k) == Sightings(local, inputs[..|inputs| - 1], k)
  {
  }

  // ---------------------------------------------------------------- closed flows

  ghost predicate Apart(snaps: seq<FlowStatsSnapshot>) {
    forall i, j :: 0 <= i < j < |snaps| ==> snaps[i].key != snaps[j].key
  }

  /** Rows of flows with different keys are each made from the books before any was dropped. */
  lemma {:induction false} PersistAllRowsFor(b: Books, snaps: seq<FlowStatsSnapshot>, refused: set<FlowKey>)
    requires Apart(snaps)
    ensures var rows := PersistAll(b, snaps, refused).rows;
      && |rows| == |b.rows| + |snaps| && b.rows <= rows
      && forall i :: 0 <= i < |snaps| ==> rows[|b.rows| + i] == Insertion(RowFor(b, snaps[i]), snaps[i].key !in refused)
    decreases |snaps|
  {
    if snaps != [] {
      var b1 := PersistClosed(b, snaps[0], refused);
      assert forall i :: 0 < i < |snaps| ==> snaps[1..][i - 1] == snaps[i];
      PersistAllRowsFor(b1, snaps[1..], refused);
      assert forall i :: 0 < i < |snaps| ==> RowFor(b1, snaps[i]) == RowFor(b, snaps[i]);
    }
  }

  /** The name and the verdict in a closed flow's row are the last ones answered with its packets. */
  ghost predicate RowShows(seen: seq<Sighting>, row: ConnectionRow) {
    && seen != [] && row.name.Some?
    && Latest(seen, NAME, row.name.value, seen[0].answers.remoteText)
    && Latest(seen, VERDICT, (row.processId, row.destId), (None, None))
  }

  lemma SnapsShow(local: set<IpAddr>, b: Books, snaps: seq<FlowStatsSnapshot>, seen: FlowKey -> seq<Sighting>)
    requires AllShow(local, b, seen) && SnapsMatch(local, b, snaps)
    ensures Apart(snaps) && forall s <- snaps :: RowShows(seen(s.key), RowFor(b, s))
  {
    hide Latest, OpenedBy, OneLocal;
  }

  /** One row per snapshot is added, in order, and stored unless the store refuses its flow. */
  ghost predicate TakenOver(seen: FlowKey -> seq<Sighting>, sent: seq<FlowStatsSnapshot>, refused: set<FlowKey>,
                            rows: seq<Insertion>, rows': seq<Insertion>) {
    && |rows'| == |rows| + |sent| && rows <= rows'
    && forall i :: 0 <= i < |sent| ==>
      && RowShows(seen(sent[i].key), rows'[|rows| + i].row)
      && (rows'[|rows| + i].stored <==> sent[i].key !in refused)
  }

  lemma PersistTakesOver(b: Books, snaps: seq<FlowStatsSnapshot>, refused: set<FlowKey>, seen: FlowKey -> seq<Sighting>)
    requires Apart(snaps) && forall s <- snaps :: RowShows(seen(s.key), RowFor(b, s))
    ensures TakenOver(seen, snaps, refused, b.rows, PersistAll(b, snaps, refused).rows)
  {
    hide RowShows, RowFor, PersistAll, Apart;
    PersistAllRowsFor(b, snaps, refused);
    var rows := PersistAll(b, snaps, refused).rows;
    forall i | 0 <= i < |snaps|
      ensures RowShows(seen(snaps[i].key), rows[|b.rows| + i].row)
      ensures rows[|b.rows| + i].stored <==> snaps[i].key !in refused
    {
      assert rows[|b.rows| + i] == Insertion(RowFor(b, snaps[i]), snaps[i].key !in refused);
    }
  }

  /**
   CLOSED ROWS. A turn hands over one row per snapshot sent, in order, each naming what its flow's
   packets were last answered, and the store takes it unless it refuses that flow.
   */
  lemma ClosedRowsShow(local: set<IpAddr>, before: seq<Input>, input: Input)
    requires input.Captured? && Info(input.p).Some?
    ensures var (t, b) := Run(local, before);
      TakenOver(SeenBy(local, before, input), Update(local, t, input.p, Info(input.p).value).sent,
                input.answers.refused, b.rows, Turn(local, t, b, input).1.rows)
  {
    var (t, b) := Run(local, before);
    RunSameFlows(local, before);
    RunOriented(local, before);
    LiveShowsSightings(local, before);
    var o := Update(local, t, input.p, Info(input.p).value);
    var b1 := HandleUpdate(local, b, o.update, input.answers, Millis(input.p.ts));
    assert b1.rows == b.rows && Turn(local, t, b, input).1 == PersistAll(b1, o.sent, input.answers.refused);
    hide Run, HandleUpdate, Update, Info, AllShow, SnapsMatch, SameFlows, AllOriented, SeenBy, TakenOver, Turn, PersistAll,
      RowShows, RowFor, Apart;
    RunShows(local, before, input);
    SentMatch(local, t, b, input.p, Info(input.p).value, input.answers);
    SnapsShow(local, b1, o.sent, SeenBy(local, before, input));
    PersistTakesOver(b1, o.sent, input.answers.refused, SeenBy(local, before, input));
  }

  // ---------------------------------------------------------------- ids

  /** The packets that opened a connection: those of flows with none live. */
  function Openings(local: set<IpAddr>, inputs: seq<Input>): nat {
    if inputs == [] then 0 else
    var before, input := inputs[..|inputs| - 1], inputs[|inputs| - 1];
    Openings(local, before)
    + if input.Captured? && Info(input.p).Some? && KeyOf(Info(input.p).value) !in Run(local, before).1.conns then 1 else 0
  }

  lemma {:induction false} ClosingKeepsNextId(b: Books, snaps: seq<FlowStatsSnapshot>, refused: set<FlowKey>)
    ensures PersistAll(b, snaps, refused).nextId == b.nextId
    decreases |snaps|
  {
    if snaps != [] {
      ClosingKeepsNextId(PersistClosed(b, snaps[0], refused), snaps[1..], refused);
    }
  }

  lemma TurnCounts(local: set<IpAddr>, t: Table, b: Books, input: Input)
    requires SameFlows(b)
    ensures Turn(local, t, b, input).1.nextId
         == b.nextId + if input.Captured? && Info(input.p).Some? && KeyOf(Info(input.p).value) !in b.conns then 1 else 0
  {
    if input.Captured? && Info(input.p).Some? {
      var info := Info(input.p).value;
      var o := Update(local, t, input.p, info);
      UpdateOf(local, t, input.p, info);
      assert KeyOf(info) in b.conns <==> KeyOf(info) in b.metas;
      hide Update, Info, HandleUpdate, PersistAll, SameFlows, KeyOf;
      HandleOwn(local, b, o.update, input.answers, Millis(input.p.ts));
      ClosingKeepsNextId(HandleUpdate(local, b, o.update, input.answers, Millis(input.p.ts)), o.sent, input.answers.refused);
    }
  }

  /** Ids are handed out one by one, from 1 on, to the connections opened. */
  lemma {:induction false} IdsCountOpenings(local: set<IpAddr>, inputs: seq<Input>)
    ensures Run(local, inputs).1.nextId == 1 + Openings(local, inputs)
  {
    if inputs != [] {
      var before, input := inputs[..|inputs| - 1], inputs[|inputs| - 1];
      IdsCountOpenings(local, before);
      RunSameFlows(local, before);
      var (t, b) := Run(local, before);
      assert Run(local, inputs) == Turn(local, t, b, input);
      hide Run, Turn, SameFlows, Info, KeyOf;
      TurnCounts(local, t, b, input);
    }
  }
}
