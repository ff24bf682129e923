/** A closed flow's row against what was last broadcast about the flow. */
module ClosedFlows {
  import opened Bytes
  import opened FlowKeys
  import opened FlowStates
  import opened FlowTracker
  import opened FlowRuns
  import opened Inspector
  import opened Monitor
  import opened MonitorRuns

  /** The ids closed, in order. */
  function Closings(evs: seq<Event>): seq<nat> {
    if evs == [] then [] else
    var last := evs[|evs| - 1];
    Closings(evs[..|evs| - 1]) + if last.ClosedEvent? then [last.id] else []
  }

  /** The connection as last broadcast under an id. */
  function LastShown(evs: seq<Event>, id: nat): Option<ConnectionDto> {
    if evs == [] then None else
    var last := evs[|evs| - 1];
    if last.FlowEvent? && last.dto.id == id then Some(last.dto) else LastShown(evs[..|evs| - 1], id)
  }

  /** The row names the destination as the last event about the connection did and, with one local endpoint, counts what it showed. */
  predicate RowMatches(local: set<IpAddr>, evs: seq<Event>, id: nat, row: ConnectionRow, key: FlowKey) {
    var d := LastShown(evs, id);
    && d.Some? && row.name == Some(d.value.destName)
    && (OneLocal(local, key) ==> (d.value.bytesUp, d.value.bytesDown) == (row.bytesUp, row.bytesDown))
  }

  ghost predicate RowsMatch(local: set<IpAddr>, b: Books, snaps: seq<FlowStatsSnapshot>) {
    && |Closings(b.events)| == |b.rows| == |snaps|
    && forall i :: 0 <= i < |b.rows| ==>
      RowMatches(local, b.events, Closings(b.events)[i], b.rows[i].row, snaps[i].key)
  }

  lemma OneEvent(evs: seq<Event>, e: Event, id: nat)
    ensures LastShown(evs + [e], id) == if e.FlowEvent? && e.dto.id == id then Some(e.dto) else LastShown(evs, id)
    ensures Closings(evs + [e]) == Closings(evs) + if e.ClosedEvent? then [e.id] else []
  {
    assert (evs + [e])[..|evs|] == evs;
  }

  lemma {:induction false} SilentEvents(evs: seq<Event>, more: seq<Event>, id: nat)
    requires forall e <- more :: e.AlertEvent?
    ensures LastShown(evs + more, id) == LastShown(evs, id) && Closings(evs + more) == Closings(evs)
  {
    if more == [] {
      assert evs + more == evs;
    } else {
      var n := |more| - 1;
      assert evs + more == (evs + more[..n]) + [more[n]];
      assert forall e <- more[..n] :: e in more;
      assert more[n] in more;
      SilentEvents(evs, more[..n], id);
      OneEvent(evs + more[..n], more[n], id);
    }
  }

  lemma {:induction false} ClosingsClosed(evs: seq<Event>)
    ensures forall id <- Closings(evs) :: ClosedEvent(id) in evs
  {
    if evs != [] {
      ClosingsClosed(evs[..|evs| - 1]);
      forall id | id in Closings(evs)
        ensures ClosedEvent(id) in evs
      {
        if id in Closings(evs[..|evs| - 1]) {
          assert ClosedEvent(id) in evs[..|evs| - 1];
        }
      }
    }
  }

  /** What the replica of all events holds under an id is what was last broadcast under it. */
  lemma {:induction false} ReplicaIsLastShown(evs: seq<Event>, id: nat)
    requires id in ApplyAll(map[], evs)
    ensures LastShown(evs, id) == Some(ApplyAll(map[], evs)[id])
  {
    if evs != [] {
      var n := |evs| - 1;
      assert evs == evs[..n] + [evs[n]];
      ApplyAllAppend(map[], evs[..n], [evs[n]]);
      ApplyOne(ApplyAll(map[], evs[..n]), evs[n]);
      if !(evs[n].FlowEvent? && evs[n].dto.id == id) {
        ReplicaIsLastShown(evs[..n], id);
      }
    }
  }

  // ---------------------------------------------------------------- one turn

  lemma HandleRowsMatch(local: set<IpAddr>, b: Books, u: FlowUpdate, a: Answers, ts: int, snaps: seq<FlowStatsSnapshot>)
    requires SameFlows(b) && OpenIds(b) && RowsMatch(local, b, snaps)
    ensures RowsMatch(local, HandleUpdate(local, b, u, a, ts), snaps)
  {
    var b', dto := HandleUpdate(local, b, u, a, ts), DtoFor(local, b, u, a, ts);
    HandleSameFlows(local, b, u, a, ts);
    NotClosedYet(b, b.nextId);
    ClosingsClosed(b.events);
    if a.verdict.Some? {
      AlertEventsSilent(a.verdict.value.alerts);
    }
    assert b'.events == b.events + AlertPart(a) + [FlowEvent(dto)];
    hide DtoFor, NoReuse, OneLocal, LastShown, Closings;
    SilentEvents(b.events, AlertPart(a), 0);
    OneEvent(b.events + AlertPart(a), FlowEvent(dto), 0);
    forall i | 0 <= i < |b.rows|
      ensures RowMatches(local, b'.events, Closings(b'.events)[i], b'.rows[i].row, snaps[i].key)
    {
      var id := Closings(b.events)[i];
      assert id in Closings(b.events) && id != dto.id;
      SilentEvents(b.events, AlertPart(a), id);
      OneEvent(b.events + AlertPart(a), FlowEvent(dto), id);
    }
  }

  /** Each snapshot sent is of a flow still listed, and counts as the live entry does. */
  ghost predicate SnapsMatch(local: set<IpAddr>, b: Books, snaps: seq<FlowStatsSnapshot>) {
    && (forall s <- snaps :: s.key in b.conns && (OneLocal(local, s.key) ==>
         (s.bytesUp, s.bytesDown) == (b.conns[s.key].bytesUp, b.conns[s.key].bytesDown)))
    && (forall i, j :: 0 <= i < j < |snaps| ==> snaps[i].key != snaps[j].key)
  }

  lemma PersistRowsMatch(local: set<IpAddr>, b: Books, snap: FlowStatsSnapshot, refused: set<FlowKey>,
                         already: seq<FlowStatsSnapshot>)
    requires SameFlows(b) && Mirrors(ApplyAll(map[], b.events), b.conns) && RowsMatch(local, b, already)
    requires SnapsMatch(local, b, [snap])
    ensures RowsMatch(local, PersistClosed(b, snap, refused), already + [snap])
  {
    assert snap in [snap];
    var b', id := PersistClosed(b, snap, refused), b.conns[snap.key].id;
    ReplicaIsLastShown(b.events, id);
    hide OneLocal, LastShown, Closings;
    OneEvent(b.events, ClosedEvent(id), id);
    forall i | 0 <= i < |b'.rows|
      ensures RowMatches(local, b'.events, Closings(b'.events)[i], b'.rows[i].row, (already + [snap])[i].key)
    {
      OneEvent(b.events, ClosedEvent(id), Closings(b'.events)[i]);
    }
  }

  lemma RestMatches(local: set<IpAddr>, b: Books, snaps: seq<FlowStatsSnapshot>, refused: set<FlowKey>)
    requires snaps != [] && SnapsMatch(local, b, snaps)
    ensures SnapsMatch(local, b, [snaps[0]]) && SnapsMatch(local, PersistClosed(b, snaps[0], refused), snaps[1..])
  {
    hide OneLocal;
    assert forall i :: 0 < i < |snaps| ==> snaps[i] == snaps[1..][i - 1] && snaps[i] in snaps;
  }

  lemma OneClosed(b: Books, snap: FlowStatsSnapshot, refused: set<FlowKey>)
    requires SameFlows(b)
    ensures SameFlows(PersistClosed(b, snap, refused))
  {
    PersistAllSameFlows(b, [snap], refused);
    hide SameFlows, PersistClosed;
    assert [snap][1..] == [];
    assert PersistAll(b, [snap], refused) == PersistClosed(b, snap, refused);
  }

  /** The books whose rows match, their live table mirrored by the events. */
  ghost function Matching(local: set<IpAddr>, snaps: seq<FlowStatsSnapshot>): iset<Books> {
    iset b: Books | SameFlows(b) && Mirrors(ApplyAll(map[], b.events), b.conns) && RowsMatch(local, b, snaps)
  }

  lemma PersistOne(local: set<IpAddr>, b: Books, snaps: seq<FlowStatsSnapshot>, refused: set<FlowKey>,
                   already: seq<FlowStatsSnapshot>)
    requires snaps != [] && b in Matching(local, already) && SnapsMatch(local, b, snaps)
    ensures PersistClosed(b, snaps[0], refused) in Matching(local, already + [snaps[0]])
    ensures SnapsMatch(local, PersistClosed(b, snaps[0], refused), snaps[1..])
  {
    hide RowsMatch, SnapsMatch, Mirrors, PersistClosed, SameFlows;
    RestMatches(local, b, snaps, refused);
    PersistRowsMatch(local, b, snaps[0], refused, already);
    PersistMirrors(b, snaps[0], refused);
    OneClosed(b, snaps[0], refused);
  }

  lemma {:induction false} PersistAllRowsMatch(local: set<IpAddr>, b: Books, snaps: seq<FlowStatsSnapshot>,
                                               refused: set<FlowKey>, already: seq<FlowStatsSnapshot>)
    requires b in Matching(local, already) && SnapsMatch(local, b, snaps)
    ensures PersistAll(b, snaps, refused) in Matching(local, already + snaps)
    decreases |snaps|
  {
    hide Matching, SnapsMatch, PersistClosed;
    if snaps == [] {
      assert already + snaps == already;
    } else {
      PersistOne(local, b, snaps, refused, already);
      assert already + snaps == (already + [snaps[0]]) + snaps[1..];
      PersistAllRowsMatch(local, PersistClosed(b, snaps[0], refused), snaps[1..], refused, already + [snaps[0]]);
    }
  }

  lemma EvictedMatches(local: set<IpAddr>, t: Table, b: Books, k: FlowKey)
    requires Keys(t) == b.conns.Keys && AllOriented(local, t, b) && Evicts(t, k)
    ensures var s := Snapshot(local, t[0].0, t[0].1);
      && t[0].0 in b.conns && t[0].0 != k && s.key == t[0].0
      && (OneLocal(local, s.key) ==> (s.bytesUp, s.bytesDown) == (b.conns[s.key].bytesUp, b.conns[s.key].bytesDown))
  {
    assert t[0].0 in Keys(t) && Lookup(t, t[0].0) == Some(t[0].1);
    assert Live(t, t[0].0);
  }

  lemma SentMatch(local: set<IpAddr>, t: Table, b: Books, p: Packet, info: FlowInfo, a: Answers)
    requires SameFlows(b) && Keys(t) == b.conns.Keys && AllOriented(local, t, b)
    ensures var o := Update(local, t, p, info);
      SnapsMatch(local, HandleUpdate(local, b, o.update, a, Millis(p.ts)), o.sent)
  {
    var o, k := Update(local, t, p, info), KeyOf(info);
    var b1 := HandleUpdate(local, b, o.update, a, Millis(p.ts));
    HandleOriented(local, t, b, p, info, a);
    if Evicts(t, k) {
      EvictedMatches(local, t, b, k);
    }
    hide DtoFor, AlertEvents, Account, ShouldClose, SameFlows, OneLocal, AllOriented, Evicts, Orient;
    assert b1.conns == b.conns[k := DtoFor(local, b, o.update, a, Millis(p.ts))];
  }

  lemma TurnRowsMatch(local: set<IpAddr>, t: Table, b: Books, input: Input, already: seq<FlowStatsSnapshot>)
    requires Agreement(t, b) && AllOriented(local, t, b) && RowsMatch(local, b, already)
    ensures var b' := Turn(local, t, b, input).1;
      RowsMatch(local, b', if input.Captured? && Info(input.p).Some?
                           then already + Update(local, t, input.p, Info(input.p).value).sent else already)
  {
    match input
    case Timeout(ts) =>
      hide LastShown, Closings, OneLocal;
      OneEvent(b.events, Heartbeat(ts), 0);
      forall i | 0 <= i < |b.rows|
        ensures RowMatches(local, b.events + [Heartbeat(ts)], Closings(b.events)[i], b.rows[i].row, already[i].key)
      {
        OneEvent(b.events, Heartbeat(ts), Closings(b.events)[i]);
      }
    case Captured(p, a) =>
      if Info(p).Some? {
        var o := Update(local, t, p, Info(p).value);
        var b1 := HandleUpdate(local, b, o.update, a, Millis(p.ts));
        hide RowsMatch, SnapsMatch, Update, HandleUpdate, AllOriented;
        HandleRowsMatch(local, b, o.update, a, Millis(p.ts), already);
        SentMatch(local, t, b, p, Info(p).value, a);
        HandleSameFlows(local, b, o.update, a, Millis(p.ts));
        HandleMirrors(local, b, o.update, a, Millis(p.ts));
        PersistAllRowsMatch(local, b1, o.sent, a.refused, already);
      }
  }

  /**
   CLOSED FLOWS. In every run the rows handed to the store are, one for one and in order, for the ids
   closed; a row's name is that of the last event broadcast for its id and, where exactly one endpoint
   is local, its byte counts are that event's.
   */
  lemma {:induction false} RowsMatchLastEvents(local: set<IpAddr>, inputs: seq<Input>)
    ensures RowsMatch(local, Run(local, inputs).1, After(local, PacketsOf(inputs)).1)
  {
    if inputs != [] {
      var before, last := inputs[..|inputs| - 1], inputs[|inputs| - 1];
      RowsMatchLastEvents(local, before);
      ReplicaAgreement(local, before);
      RunOriented(local, before);
      RowsAreSnapshots(local, before);
      var (t, b) := Run(local, before);
      hide RowsMatch, Agreement, AllOriented, Turn, RowsOf;
      TurnRowsMatch(local, t, b, last, After(local, PacketsOf(before)).1);
      if last.Captured? {
        assert PacketsOf(inputs)[..|PacketsOf(inputs)| - 1] == PacketsOf(before);
      } else {
        assert PacketsOf(inputs) == PacketsOf(before);
      }
    }
  }
}
