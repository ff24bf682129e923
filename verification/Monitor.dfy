/**
 The daemon's worker (`monitor/correlate.rs`): each packet updates the flow table, the
 per-flow bookkeeping and the live connections, and every change is broadcast as an event.
 Lookups of processes, names and locations and the alert engine's verdict are inputs of a step.
 */
module Monitor {
  import opened Bytes
  import opened FlowKeys
  import opened FlowStates
  import opened FlowTracker
  import opened Inspector
  import AlertTypes

  type GeoInfo = AlertTypes.GeoInfo

  type SocketProc = AlertTypes.SocketProc

  /** What the alert engine answers. */
  type Verdict = AlertTypes.Outcome

  datatype FlowMeta = FlowMeta(id: nat, outbound: bool, processId: Option<int>, destId: Option<int>)

  /** What the outside world answers in one turn; `refused` are the closed flows whose row the store fails to insert. */
  datatype Answers = Answers(
    proc: Option<SocketProc>, name: Option<string>, geo: GeoInfo, remoteText: string, verdict: Option<Verdict>,
    refused: set<FlowKey>)

  /** Nobody knows anything about the packet. */
  const SILENT := Answers(None, None, AlertTypes.GeoInfo(None, None, None), "", None, {})

  datatype ConnectionRow = ConnectionRow(
    processId: Option<int>, destId: Option<int>, proto: int, localPort: u16, remotePort: u16,
    bytesUp: nat, bytesDown: nat, name: Option<string>, tsStart: int, tsEnd: int)

  /** A row handed to the store, and whether the store took it; a row it refuses is only logged. */
  datatype Insertion = Insertion(row: ConnectionRow, stored: bool)

  /** The worker's own tables, the live table, the events broadcast and the rows handed to the store. */
  datatype Books = Books(
    metas: map<FlowKey, FlowMeta>, conns: map<FlowKey, ConnectionDto>, nextId: nat,
    events: seq<Event>, rows: seq<Insertion>)

  const OPENING := Books(map[], map[], 1, [], [])

  /** `timestamp_millis`, rounded down */
  function Millis(us: int): int {
    us / 1000
  }

  // ---------------------------------------------------------------- orientation

  /** Local endpoint, remote endpoint, and whether the packet leaves the host. */
  function Orient(local: set<IpAddr>, key: FlowKey, dir: Dir): (Endpoint, Endpoint, bool) {
    var (src, dst) := Endpoints(key, dir);
    if dst.ip in local && src.ip !in local then (dst, src, false) else (src, dst, true)
  }

  // ---------------------------------------------------------------- one flow update

  function MetaFor(b: Books, key: FlowKey, outbound: bool): FlowMeta {
    if key in b.metas then b.metas[key] else FlowMeta(b.nextId, outbound, None, None)
  }

  function Judged(m: FlowMeta, v: Option<Verdict>): FlowMeta {
    if v.Some? then m.(processId := v.value.processId, destId := Some(v.value.destId)) else m
  }

  function AlertEvents(alerts: seq<Alert>): seq<Event> {
    if alerts == [] then [] else [AlertEvent(alerts[0])] + AlertEvents(alerts[1..])
  }

  /** A connection as first shown, before its first packet is counted. */
  function NewDto(m: FlowMeta, key: FlowKey, near: Endpoint, far: Endpoint, a: Answers, ts: int): ConnectionDto {
    ConnectionDto(
      m.id, if a.proc.Some? then a.proc.value.name else "?", if a.proc.Some? then Some(a.proc.value.pid) else None,
      if a.name.Some? then a.name.value else a.remoteText, a.remoteText, far.port, near.port, key.protocol,
      a.geo.country, a.geo.asn, a.geo.asOrg, 0, 0, ts, ts, m.outbound)
  }

  /** One packet's bytes and whatever newer answers there are. */
  function Refresh(d: ConnectionDto, up: nat, down: nat, a: Answers, ts: int): ConnectionDto {
    var d1 := d.(bytesUp := d.bytesUp + up, bytesDown := d.bytesDown + down, lastSeenMs := ts);
    var d2 := if a.name.Some? then d1.(destName := a.name.value) else d1;
    var d3 := if a.geo.country.Some? then d2.(country := a.geo.country) else d2;
    var d4 := if a.geo.asn.Some? then d3.(asn := a.geo.asn, asOrg := a.geo.asOrg) else d3;
    if a.proc.Some? then d4.(process := a.proc.value.name, pid := Some(a.proc.value.pid)) else d4
  }

  function DtoFor(local: set<IpAddr>, b: Books, u: FlowUpdate, a: Answers, ts: int): ConnectionDto {
    var (near, far, out) := Orient(local, u.key, u.dir);
    var before := if u.key in b.conns then b.conns[u.key] else NewDto(MetaFor(b, u.key, out), u.key, near, far, a, ts);
    Refresh(before, if out then u.bytes else 0, if out then 0 else u.bytes, a, ts)
  }

  function HandleUpdate(local: set<IpAddr>, b: Books, u: FlowUpdate, a: Answers, ts: int): Books {
    var meta := MetaFor(b, u.key, Orient(local, u.key, u.dir).2);
    var dto := DtoFor(local, b, u, a, ts);
    b.(metas := b.metas[u.key := Judged(meta, a.verdict)],
       nextId := if u.key in b.metas then b.nextId else b.nextId + 1,
       conns := b.conns[u.key := dto],
       events := b.events + (if a.verdict.Some? then AlertEvents(a.verdict.value.alerts) else []) + [FlowEvent(dto)])
  }

  // ---------------------------------------------------------------- one closed flow

  function RowFor(b: Books, snap: FlowStatsSnapshot): ConnectionRow {
    var known := snap.key in b.metas;
    ConnectionRow(
      if known then b.metas[snap.key].processId else None,
      if known then b.metas[snap.key].destId else None,
      snap.protocol,
      if snap.localPort.Some? then snap.localPort.value else 0,
      if snap.remotePort.Some? then snap.remotePort.value else 0,
      snap.bytesUp, snap.bytesDown,
      if snap.key in b.conns then Some(b.conns[snap.key].destName) else None,
      Millis(snap.firstSeen), Millis(snap.lastSeen))
  }

  function PersistClosed(b: Books, snap: FlowStatsSnapshot, refused: set<FlowKey>): Books {
    b.(metas := b.metas - {snap.key},
       conns := b.conns - {snap.key},
       events := b.events + (if snap.key in b.metas then [ClosedEvent(b.metas[snap.key].id)] else []),
       rows := b.rows + [Insertion(RowFor(b, snap), snap.key !in refused)])
  }

  function PersistAll(b: Books, snaps: seq<FlowStatsSnapshot>, refused: set<FlowKey>): Books
    decreases |snaps|
  {
    if snaps == [] then b else PersistAll(PersistClosed(b, snaps[0], refused), snaps[1..], refused)
  }

  // ---------------------------------------------------------------- the worker loop

  datatype Input = Captured(p: Packet, answers: Answers) | Timeout(tsMs: int)

  /** One turn of the loop: the flow table and the books afterwards. */
  function Turn(local: set<IpAddr>, t: Table, b: Books, input: Input): (Table, Books) {
    match input
    case Timeout(ts) => (t, b.(events := b.events + [Heartbeat(ts)]))
    case Captured(p, a) =>
      if Info(p).None? then (t, b) else
      var o := Update(local, t, p, Info(p).value);
      (o.table, PersistAll(HandleUpdate(local, b, o.update, a, Millis(p.ts)), o.sent, a.refused))
  }

  // ---------------------------------------------------------------- in place

  class Worker {
    const tracker: Tracker
    const local: set<IpAddr>
    var metas: map<FlowKey, FlowMeta>
    var conns: map<FlowKey, ConnectionDto>
    var nextId: nat
    var events: seq<Event>
    var rows: seq<Insertion>

    ghost function Model(): Books
      reads this
    {
      Books(metas, conns, nextId, events, rows)
    }

    /** The state between two turns: the tracker is sound and the completion channel is empty. */
    ghost predicate AtBoundary()
      reads this, tracker
    {
      tracker.Valid() && tracker.local == local && tracker.sink == Some([])
    }

    constructor (localAddrs: set<IpAddr>)
      ensures fresh(tracker) && AtBoundary() && local == localAddrs
      ensures tracker.flows == [] && Model() == OPENING
    {
      tracker := new Tracker(localAddrs, true);
      local := localAddrs;
      metas, conns, nextId, events, rows := map[], map[], 1, [], [];
    }

    method Broadcast(ev: Event)
      modifies this`events
      ensures events == old(events) + [ev]
    {
      events := events + [ev];
    }

    method BroadcastAlerts(alerts: seq<Alert>)
      modifies this`events
      ensures events == old(events) + AlertEvents(alerts)
    {
      var i := 0;
      while i < |alerts|
        invariant 0 <= i <= |alerts|
        invariant events + AlertEvents(alerts[i..]) == old(events) + AlertEvents(alerts)
      {
        assert alerts[i..][0] == alerts[i] && alerts[i..][1..] == alerts[i + 1..];
        Broadcast(AlertEvent(alerts[i]));
        i := i + 1;
      }
    }

    /** Finds or opens the flow's bookkeeping and records the alert engine's verdict. */
    method Correlate(key: FlowKey, out: bool, verdict: Option<Verdict>) returns (meta: FlowMeta)
      modifies this`metas, this`nextId, this`events
      ensures meta == MetaFor(old(Model()), key, out)
      ensures metas == old(metas)[key := Judged(meta, verdict)]
      ensures nextId == if key in old(metas) then old(nextId) else old(nextId) + 1
      ensures events == old(events) + if verdict.Some? then AlertEvents(verdict.value.alerts) else []
    {
      if key !in metas {
        metas := metas[key := FlowMeta(nextId, out, None, None)];
        nextId := nextId + 1;
      }
      meta := metas[key];
      if verdict.Some? {
        metas := metas[key := meta.(processId := verdict.value.processId, destId := Some(verdict.value.destId))];
        BroadcastAlerts(verdict.value.alerts);
      }
    }

    method Handle(u: FlowUpdate, a: Answers, ts: int)
      modifies this
      ensures Model() == HandleUpdate(local, old(Model()), u, a, ts)
    {
      var (near, far, out) := Orient(local, u.key, u.dir);
      var up, down := if out then u.bytes else 0, if out then 0 else u.bytes;
      var meta := Correlate(u.key, out, a.verdict);
      var dto := if u.key in conns then conns[u.key] else NewDto(meta, u.key, near, far, a, ts);
      dto := Refresh(dto, up, down, a, ts);
      assert dto == DtoFor(local, old(Model()), u, a, ts);
      conns := conns[u.key := dto];
      Broadcast(FlowEvent(dto));
    }

    method Persist(snap: FlowStatsSnapshot, refused: set<FlowKey>)
      modifies this
      ensures Model() == PersistClosed(old(Model()), snap, refused)
    {
      var row := RowFor(Books(metas, conns, nextId, events, rows), snap);
      if snap.key in metas {
        Broadcast(ClosedEvent(metas[snap.key].id));
      }
      metas := metas - {snap.key};
      conns := conns - {snap.key};
      rows := rows + [Insertion(row, snap.key !in refused)];
    }

    /** Empties the completion channel, persisting each closed flow in the order sent. */
    method DrainClosed(refused: set<FlowKey>)
      requires tracker.sink.Some?
      modifies this, tracker
      ensures tracker.sink == Some([])
      ensures tracker.flows == old(tracker.flows) && tracker.local == old(tracker.local)
      ensures Model() == PersistAll(old(Model()), old(tracker.sink).value, refused)
    {
      var snap := tracker.TryRecv();
      while snap.Some?
        invariant tracker.sink.Some? && (snap.None? ==> tracker.sink.value == [])
        invariant tracker.flows == old(tracker.flows) && tracker.local == old(tracker.local)
        invariant PersistAll(Model(), (if snap.Some? then [snap.value] else []) + tracker.sink.value, refused)
                  == PersistAll(old(Model()), old(tracker.sink).value, refused)
        decreases |tracker.sink.value|, snap.Some?
      {
        Persist(snap.value, refused);
        assert ([snap.value] + tracker.sink.value)[1..] == tracker.sink.value;
        ghost var rest := tracker.sink.value;
        snap := tracker.TryRecv();
        assert (if snap.Some? then [snap.value] else []) + tracker.sink.value == rest;
      }
    }

    /** One turn of the loop, from boundary to boundary. */
    method Step(input: Input)
      requires AtBoundary()
      modifies this, tracker
      ensures AtBoundary()
      ensures (tracker.flows, Model()) == Turn(local, old(tracker.flows), old(Model()), input)
    {
      match input {
        case Timeout(ts) => Broadcast(Heartbeat(ts));
        case Captured(p, a) =>
          var u := tracker.UpdateFlow(p);
          if u.Some? {
            assert tracker.sink.value == Update(local, old(tracker.flows), p, Info(p).value).sent;
            Handle(u.value, a, Millis(p.ts));
          }
          ghost var b := Model();
          assert PersistAll(b, [], a.refused) == b;
          DrainClosed(a.refused);
      }
    }
  }
}
