/**
 Whole runs of the worker loop: the flow table, the worker's books and the live connections
 always list the same flows, and a remote inspector can rebuild the live table from events.
 */
module MonitorRuns {
  import opened Bytes
  import opened FlowKeys
  import opened FlowStates
  import opened FlowTracker
  import opened FlowRuns
  import opened Inspector
  import opened Monitor

  function Run(local: set<IpAddr>, inputs: seq<Input>): (Table, Books) {
    if inputs == [] then ([], OPENING) else
    var (t, b) := Run(local, inputs[..|inputs| - 1]);
    Turn(local, t, b, inputs[|inputs| - 1])
  }

  // ---------------------------------------------------------------- the same flows everywhere

  /** Metas and live connections have the same keys and ids, distinct and already handed out. */
  ghost predicate SameFlows(b: Books) {
    && b.metas.Keys == b.conns.Keys
    && (forall k <- b.conns :: k in b.metas && b.conns[k].id == b.metas[k].id && 0 < b.conns[k].id < b.nextId)
    && (forall k, j :: k in b.conns && j in b.conns && b.conns[k].id == b.conns[j].id ==> k == j)
    && b.nextId > 0
  }

  /** An update keeps a shown flow's id and gives a new flow the next one. */
  lemma DtoKeepsId(local: set<IpAddr>, b: Books, u: FlowUpdate, a: Answers, ts: int)
    ensures DtoFor(local, b, u, a, ts).id
         == if u.key in b.conns then b.conns[u.key].id else MetaFor(b, u.key, Orient(local, u.key, u.dir).2).id
  {
    hide Orient;
  }

  /** The flow's own entry and bookkeeping after an update. */
  lemma HandleOwn(local: set<IpAddr>, b: Books, u: FlowUpdate, a: Answers, ts: int)
    ensures var b', (near, far, out) := HandleUpdate(local, b, u, a, ts), Orient(local, u.key, u.dir);
      && b'.conns == b.conns[u.key := DtoFor(local, b, u, a, ts)]
      && b'.metas == b.metas[u.key := Judged(MetaFor(b, u.key, out), a.verdict)]
      && b'.nextId == if u.key in b.metas then b.nextId else b.nextId + 1
  {
    hide DtoFor, AlertEvents, Orient, Judged, MetaFor;
  }

  lemma PutSameFlows(b: Books, b': Books, k: FlowKey, d: ConnectionDto, m: FlowMeta)
    requires SameFlows(b) && b'.conns == b.conns[k := d] && b'.metas == b.metas[k := m] && d.id == m.id
    requires k in b.conns ==> d.id == b.conns[k].id && b'.nextId == b.nextId
    requires k !in b.conns ==> d.id == b.nextId && b'.nextId == b.nextId + 1
    ensures SameFlows(b')
  {
    assert b'.metas.Keys == b.metas.Keys + {k} == b'.conns.Keys;
  }

  lemma HandleSameFlows(local: set<IpAddr>, b: Books, u: FlowUpdate, a: Answers, ts: int)
    requires SameFlows(b)
    ensures SameFlows(HandleUpdate(local, b, u, a, ts))
    ensures HandleUpdate(local, b, u, a, ts).conns.Keys == b.conns.Keys + {u.key}
    ensures DtoFor(local, b, u, a, ts).id == (if u.key in b.conns then b.conns[u.key].id else b.nextId)
  {
    DtoKeepsId(local, b, u, a, ts);
    HandleOwn(local, b, u, a, ts);
    assert u.key in b.conns ==> b.metas[u.key].id == b.conns[u.key].id;
    assert u.key in b.conns <==> u.key in b.metas;
    hide DtoFor, Orient, HandleUpdate, SameFlows;
    var m := Judged(MetaFor(b, u.key, Orient(local, u.key, u.dir).2), a.verdict);
    PutSameFlows(b, HandleUpdate(local, b, u, a, ts), u.key, DtoFor(local, b, u, a, ts), m);
  }

  function KeysSent(snaps: seq<FlowStatsSnapshot>): set<FlowKey> {
    set s <- snaps :: s.key
  }

  lemma {:induction false} PersistAllSameFlows(b: Books, snaps: seq<FlowStatsSnapshot>, refused: set<FlowKey>)
    requires SameFlows(b)
    ensures SameFlows(PersistAll(b, snaps, refused))
    ensures PersistAll(b, snaps, refused).conns.Keys == b.conns.Keys - KeysSent(snaps)
    decreases |snaps|
  {
    if snaps != [] {
      PersistAllSameFlows(PersistClosed(b, snaps[0], refused), snaps[1..], refused);
      assert snaps == [snaps[0]] + snaps[1..];
      assert KeysSent(snaps) == {snaps[0].key} + KeysSent(snaps[1..]);
    }
  }

  lemma KeysByLookup(t: Table)
    ensures forall k :: k in Keys(t) <==> Lookup(t, k).Some?
  {
    forall k: FlowKey
      ensures k in Keys(t) <==> Lookup(t, k).Some?
    {
      LookupLive(t, k);
    }
  }

  /** What is sent: the evicted flow, and the packet's own if it closes. */
  lemma SentKeys(local: set<IpAddr>, t: Table, p: Packet, info: FlowInfo)
    ensures var k := KeyOf(info);
      KeysSent(Update(local, t, p, info).sent)
      == (if Evicts(t, k) then {t[0].0} else {})
         + (if ShouldClose(NextState(t, p, info), FlowPacketOf(p, info)) then {k} else {})
  {
    hide Account, ShouldClose, Lookup, Rest;
    var k := KeyOf(info);
    var own := if ShouldClose(NextState(t, p, info), FlowPacketOf(p, info)) then [Snapshot(local, k, NextState(t, p, info))] else [];
    assert Update(local, t, p, info).sent == Evicted(local, t, k) + own;
  }

  /** The table gains the packet's key and loses exactly the keys whose snapshots were sent. */
  lemma UpdateKeys(local: set<IpAddr>, t: Table, p: Packet, info: FlowInfo)
    requires Distinct(t)
    ensures var o := Update(local, t, p, info);
      Keys(o.table) == Keys(t) + {KeyOf(info)} - KeysSent(o.sent)
  {
    var o, k := Update(local, t, p, info), KeyOf(info);
    UpdateOwnKey(local, t, p, info);
    SentKeys(local, t, p, info);
    hide Update, ShouldClose, NextState, Lookup, Keys, KeysSent, KeyOf, FlowPacketOf, Distinct;
    forall j: FlowKey
      ensures j in Keys(o.table) <==> j in Keys(t) + {k} - KeysSent(o.sent)
    {
      UpdateLookup(local, t, p, info, j);
      LookupLive(t, j);
      LookupLive(o.table, j);
      if j != k && Evicts(t, k) && t[0].0 == j {
        assert Lookup(t, j).Some?;
      }
    }
  }

  lemma {:induction false} RunSameFlows(local: set<IpAddr>, inputs: seq<Input>)
    ensures var (t, b) := Run(local, inputs);
      Distinct(t) && |t| <= MAX_FLOWS && SameFlows(b) && Keys(t) == b.conns.Keys
  {
    if inputs != [] {
      RunSameFlows(local, inputs[..|inputs| - 1]);
      var (t, b) := Run(local, inputs[..|inputs| - 1]);
      TurnSameFlows(local, t, b, inputs[|inputs| - 1]);
    }
  }

  lemma TurnSameFlows(local: set<IpAddr>, t: Table, b: Books, input: Input)
    requires Distinct(t) && |t| <= MAX_FLOWS && SameFlows(b) && Keys(t) == b.conns.Keys
    ensures var (t', b') := Turn(local, t, b, input);
      Distinct(t') && |t'| <= MAX_FLOWS && SameFlows(b') && Keys(t') == b'.conns.Keys
  {
    if input.Captured? && Info(input.p).Some? {
      var info := Info(input.p).value;
      var o := Update(local, t, input.p, info);
      UpdateKeepsTable(local, t, input.p, info);
      UpdateKeys(local, t, input.p, info);
      HandleSameFlows(local, b, o.update, input.answers, Millis(input.p.ts));
      PersistAllSameFlows(HandleUpdate(local, b, o.update, input.answers, Millis(input.p.ts)), o.sent, input.answers.refused);
    }
  }

  // ---------------------------------------------------------------- ids in the event stream

  /** Events speak only of ids handed out, and never of an id after it was closed. */
  ghost predicate NoReuse(evs: seq<Event>, nextId: nat) {
    && (forall i :: 0 <= i < |evs| ==> forall id: nat :: About(evs[i], id) ==> id < nextId)
    && (forall i, j :: 0 <= i < j < |evs| && evs[i].ClosedEvent? ==> !About(evs[j], evs[i].id))
  }

  ghost predicate OpenIds(b: Books) {
    && NoReuse(b.events, b.nextId)
    && forall k <- b.conns :: ClosedEvent(b.conns[k].id) !in b.events
  }

  lemma AppendSilent(evs: seq<Event>, more: seq<Event>, nextId: nat, bound: nat)
    requires NoReuse(evs, nextId) && nextId <= bound
    requires forall e <- more :: e.AlertEvent? || e.Heartbeat?
    ensures NoReuse(evs + more, bound)
  {
    forall i | 0 <= i < |evs + more|
      ensures i < |evs| ==> (evs + more)[i] == evs[i]
      ensures i >= |evs| ==> (evs + more)[i] in more
    {
    }
  }

  lemma AppendAbout(evs: seq<Event>, e: Event, nextId: nat, bound: nat, id: nat)
    requires NoReuse(evs, nextId) && nextId <= bound && id < bound
    requires About(e, id) && ClosedEvent(id) !in evs
    ensures NoReuse(evs + [e], bound)
  {
    forall i, j | 0 <= i < j < |evs + [e]| && (evs + [e])[i].ClosedEvent?
      ensures !About((evs + [e])[j], (evs + [e])[i].id)
    {
      assert (evs + [e])[i] == evs[i];
      assert evs[i] in evs;
    }
  }

  lemma {:induction false} AlertEventsSilent(alerts: seq<Alert>)
    ensures forall e <- AlertEvents(alerts) :: e.AlertEvent?
  {
    if alerts != [] {
      AlertEventsSilent(alerts[1..]);
    }
  }

  /** The alerts a flow update broadcasts before its flow event. */
  function AlertPart(a: Answers): seq<Event> {
    if a.verdict.Some? then AlertEvents(a.verdict.value.alerts) else []
  }

  lemma NotClosedYet(b: Books, id: nat)
    requires OpenIds(b) && id >= b.nextId
    ensures ClosedEvent(id) !in b.events
  {
    if ClosedEvent(id) in b.events {
      var i :| 0 <= i < |b.events| && b.events[i] == ClosedEvent(id);
      assert About(b.events[i], id);
    }
  }

  lemma HandleOpenIds(local: set<IpAddr>, b: Books, u: FlowUpdate, a: Answers, ts: int)
    requires SameFlows(b) && OpenIds(b)
    ensures OpenIds(HandleUpdate(local, b, u, a, ts))
  {
    hide DtoFor, Orient, AlertEvents, NoReuse;
    var b', dto := HandleUpdate(local, b, u, a, ts), DtoFor(local, b, u, a, ts);
    HandleSameFlows(local, b, u, a, ts);
    var silent := AlertPart(a);
    if a.verdict.Some? {
      AlertEventsSilent(a.verdict.value.alerts);
    }
    NotClosedYet(b, b.nextId);
    AppendSilent(b.events, silent, b.nextId, b'.nextId);
    AppendAbout(b.events + silent, FlowEvent(dto), b'.nextId, b'.nextId, dto.id);
    assert b'.events == b.events + silent + [FlowEvent(dto)];
  }

  lemma {:induction false} PersistAllOpenIds(b: Books, snaps: seq<FlowStatsSnapshot>, refused: set<FlowKey>)
    requires SameFlows(b) && OpenIds(b)
    ensures OpenIds(PersistAll(b, snaps, refused))
    decreases |snaps|
  {
    if snaps != [] {
      PersistAllOpenIds(PersistClosed(b, snaps[0], refused), snaps[1..], refused);
    }
  }

  // ---------------------------------------------------------------- the replica

  /** The replica holds exactly the live connections, each under its id. */
  ghost predicate Mirrors(r: Replica, conns: map<FlowKey, ConnectionDto>) {
    && (forall k <- conns :: conns[k].id in r && r[conns[k].id] == conns[k])
    && (forall id <- r :: exists k :: k in conns && conns[k].id == id)
  }

  lemma MirrorsUnique(r: Replica, r': Replica, conns: map<FlowKey, ConnectionDto>)
    requires Mirrors(r, conns) && Mirrors(r', conns)
    ensures r == r'
  {
    forall id: nat
      ensures SameAt(r, r', id)
    {
      if id in r {
        var k :| k in conns && conns[k].id == id;
      }
      if id in r' {
        var k :| k in conns && conns[k].id == id;
      }
    }
    SameEverywhere(r, r');
  }

  lemma MirrorsPut(r: Replica, conns: map<FlowKey, ConnectionDto>, key: FlowKey, dto: ConnectionDto)
    requires Mirrors(r, conns)
    requires key in conns ==> conns[key].id == dto.id
    requires forall k <- conns :: k != key ==> conns[k].id != dto.id
    ensures Mirrors(r[dto.id := dto], conns[key := dto])
  {
    var r', conns' := r[dto.id := dto], conns[key := dto];
    forall id | id in r'
      ensures exists k :: k in conns' && conns'[k].id == id
    {
      if id == dto.id {
        assert conns'[key].id == id;
      } else {
        var k :| k in conns && conns[k].id == id;
        assert conns'[k].id == id;
      }
    }
  }

  lemma MirrorsDrop(r: Replica, b: Books, key: FlowKey)
    requires SameFlows(b) && Mirrors(r, b.conns) && key in b.conns
    ensures Mirrors(r - {b.conns[key].id}, b.conns - {key})
  {
    var id0 := b.conns[key].id;
    forall id | id in r - {id0}
      ensures exists k :: k in b.conns - {key} && (b.conns - {key})[k].id == id
    {
      var k :| k in b.conns && b.conns[k].id == id;
      assert k in b.conns - {key};
    }
  }

  lemma {:induction false} AlertsLeaveReplica(r: Replica, alerts: seq<Alert>)
    ensures ApplyAll(r, AlertEvents(alerts)) == r
  {
    if alerts != [] {
      assert AlertEvents(alerts)[1..] == AlertEvents(alerts[1..]);
      AlertsLeaveReplica(r, alerts[1..]);
    }
  }

  lemma HandleMirrors(local: set<IpAddr>, b: Books, u: FlowUpdate, a: Answers, ts: int)
    requires SameFlows(b) && Mirrors(ApplyAll(map[], b.events), b.conns)
    ensures var b' := HandleUpdate(local, b, u, a, ts); Mirrors(ApplyAll(map[], b'.events), b'.conns)
  {
    var b', dto := HandleUpdate(local, b, u, a, ts), DtoFor(local, b, u, a, ts);
    HandleSameFlows(local, b, u, a, ts);
    var r := ApplyAll(map[], b.events);
    if a.verdict.Some? {
      AlertsLeaveReplica(r, a.verdict.value.alerts);
    }
    ApplyAllAppend(map[], b.events, AlertPart(a));
    ApplyAllAppend(map[], b.events + AlertPart(a), [FlowEvent(dto)]);
    ApplyOne(r, FlowEvent(dto));
    assert b'.conns == b.conns[u.key := dto];
    MirrorsPut(r, b.conns, u.key, dto);
  }

  lemma PersistMirrors(b: Books, snap: FlowStatsSnapshot, refused: set<FlowKey>)
    requires SameFlows(b) && Mirrors(ApplyAll(map[], b.events), b.conns)
    ensures var b' := PersistClosed(b, snap, refused); Mirrors(ApplyAll(map[], b'.events), b'.conns)
  {
    var r := ApplyAll(map[], b.events);
    if snap.key in b.conns {
      var ev := ClosedEvent(b.metas[snap.key].id);
      ApplyAllAppend(map[], b.events, [ev]);
      ApplyOne(r, ev);
      MirrorsDrop(r, b, snap.key);
    } else {
      assert b.events + [] == b.events;
      assert b.conns - {snap.key} == b.conns;
    }
  }

  lemma {:induction false} PersistAllMirrors(b: Books, snaps: seq<FlowStatsSnapshot>, refused: set<FlowKey>)
    requires SameFlows(b) && Mirrors(ApplyAll(map[], b.events), b.conns)
    ensures var b' := PersistAll(b, snaps, refused); Mirrors(ApplyAll(map[], b'.events), b'.conns)
    decreases |snaps|
  {
    if snaps != [] {
      PersistMirrors(b, snaps[0], refused);
      PersistAllMirrors(PersistClosed(b, snaps[0], refused), snaps[1..], refused);
    }
  }

  // ---------------------------------------------------------------- agreement over runs

  ghost predicate Agreement(t: Table, b: Books) {
    && Distinct(t) && |t| <= MAX_FLOWS
    && SameFlows(b) && Keys(t) == b.conns.Keys
    && OpenIds(b)
    && Mirrors(ApplyAll(map[], b.events), b.conns)
  }

  lemma TurnAgreement(local: set<IpAddr>, t: Table, b: Books, input: Input)
    requires Agreement(t, b)
    ensures var (t', b') := Turn(local, t, b, input); Agreement(t', b')
  {
    TurnSameFlows(local, t, b, input);
    match input
    case Timeout(ts) =>
      AppendSilent(b.events, [Heartbeat(ts)], b.nextId, b.nextId);
      ApplyAllAppend(map[], b.events, [Heartbeat(ts)]);
      ApplyOne(ApplyAll(map[], b.events), Heartbeat(ts));
    case Captured(p, a) =>
      if Info(p).Some? {
        var o := Update(local, t, p, Info(p).value);
        var b1 := HandleUpdate(local, b, o.update, a, Millis(p.ts));
        HandleSameFlows(local, b, o.update, a, Millis(p.ts));
        HandleOpenIds(local, b, o.update, a, Millis(p.ts));
        HandleMirrors(local, b, o.update, a, Millis(p.ts));
        PersistAllOpenIds(b1, o.sent, input.answers.refused);
        PersistAllMirrors(b1, o.sent, input.answers.refused);
      }
  }

  /**
   REPLICA AGREEMENT. At every turn boundary the flow table, the metas and the live table have
   the same keys, live ids are distinct, no event speaks of an id after it was closed, and
   replaying every event from the start gives exactly the live table by id.
   */
  lemma {:induction false} ReplicaAgreement(local: set<IpAddr>, inputs: seq<Input>)
    ensures var (t, b) := Run(local, inputs); Agreement(t, b)
  {
    if inputs != [] {
      ReplicaAgreement(local, inputs[..|inputs| - 1]);
      var (t, b) := Run(local, inputs[..|inputs| - 1]);
      TurnAgreement(local, t, b, inputs[|inputs| - 1]);
    }
  }

  lemma {:induction false} PersistAllEvents(b: Books, snaps: seq<FlowStatsSnapshot>, refused: set<FlowKey>)
    ensures b.events <= PersistAll(b, snaps, refused).events
    decreases |snaps|
  {
    if snaps != [] {
      PersistAllEvents(PersistClosed(b, snaps[0], refused), snaps[1..], refused);
    }
  }

  /** Events are only ever appended. */
  lemma {:induction false} EventsGrow(local: set<IpAddr>, inputs: seq<Input>, j: nat)
    requires j <= |inputs|
    ensures Run(local, inputs[..j]).1.events <= Run(local, inputs).1.events
  {
    if j < |inputs| {
      var before := inputs[..|inputs| - 1];
      assert before[..j] == inputs[..j];
      EventsGrow(local, before, j);
      var (t, b) := Run(local, before);
      var input := inputs[|inputs| - 1];
      if input.Captured? && Info(input.p).Some? {
        var o := Update(local, t, input.p, Info(input.p).value);
        PersistAllEvents(HandleUpdate(local, b, o.update, input.answers, Millis(input.p.ts)), o.sent, input.answers.refused);
      }
    } else {
      assert inputs[..j] == inputs;
    }
  }

  // ---------------------------------------------------------------- snapshots of the live table

  /** `v` lists every live connection, in any order. */
  ghost predicate Lists(v: seq<ConnectionDto>, conns: map<FlowKey, ConnectionDto>) {
    && (forall d <- v :: exists k :: k in conns && conns[k] == d)
    && (forall k <- conns :: conns[k] in v)
  }

  lemma {:induction false} LoadHolds(v: seq<ConnectionDto>)
    requires forall d, e :: d in v && e in v && d.id == e.id ==> d == e
    ensures forall d <- v :: d.id in Load(v) && Load(v)[d.id] == d
  {
    if v != [] {
      var n := |v| - 1;
      assert forall d <- v[..n] :: d in v;
      LoadHolds(v[..n]);
      assert v[n] in v;
      forall d | d in v
        ensures d.id in Load(v) && Load(v)[d.id] == d
      {
        assert d == v[n] || d in v[..n];
      }
    }
  }

  lemma {:induction false} LoadedFrom(v: seq<ConnectionDto>, id: nat)
    requires id in Load(v)
    ensures exists d :: d in v && d.id == id
  {
    var n := |v| - 1;
    if id == v[n].id {
      assert v[n] in v;
    } else {
      LoadedFrom(v[..n], id);
    }
  }

  lemma LoadMirrors(b: Books, v: seq<ConnectionDto>)
    requires SameFlows(b) && Lists(v, b.conns)
    ensures Mirrors(Load(v), b.conns)
  {
    forall d, e | d in v && e in v && d.id == e.id
      ensures d == e
    {
      var k :| k in b.conns && b.conns[k] == d;
      var j :| j in b.conns && b.conns[j] == e;
    }
    LoadHolds(v);
    forall id | id in Load(v)
      ensures exists k :: k in b.conns && b.conns[k].id == id
    {
      LoadedFrom(v, id);
      var d :| d in v && d.id == id;
      var k :| k in b.conns && b.conns[k] == d;
    }
  }

  /**
   REFRESH AT ANY TIME. Load the live table as of boundary `j`, in any order, while the queue
   still holds events from position `i` at or before that boundary; once the queue has been
   worked off, the inspector shows exactly the live table.
   */
  lemma RefreshAnyTime(local: set<IpAddr>, inputs: seq<Input>, j: nat, v: seq<ConnectionDto>, i: nat)
    requires j <= |inputs| && Lists(v, Run(local, inputs[..j]).1.conns)
    requires i <= |Run(local, inputs[..j]).1.events|
    ensures var b := Run(local, inputs).1; Mirrors(ApplyAll(Load(v), From(b.events, i)), b.conns)
  {
    var bj, b := Run(local, inputs[..j]).1, Run(local, inputs).1;
    ReplicaAgreement(local, inputs[..j]);
    ReplicaAgreement(local, inputs);
    EventsGrow(local, inputs, j);
    LoadMirrors(bj, v);
    MirrorsUnique(Load(v), ApplyAll(map[], bj.events), bj.conns);
    assert b.events[..|bj.events|] == bj.events;
    ReplayFromEarlier(map[], b.events, i, |bj.events|);
  }

  // ---------------------------------------------------------------- orientation

  predicate OneLocal(local: set<IpAddr>, k: FlowKey) {
    (k.addrLow in local) != (k.addrHigh in local)
  }

  /** With one local endpoint the live counters are the tracker's; otherwise everything counts as up. */
  predicate Oriented(local: set<IpAddr>, k: FlowKey, d: ConnectionDto, s: FlowState) {
    if OneLocal(local, k) then
      d.bytesUp == Snapshot(local, k, s).bytesUp && d.bytesDown == Snapshot(local, k, s).bytesDown
    else
      d.bytesUp == s.bytesLowToHigh + s.bytesHighToLow && d.bytesDown == 0
  }

  lemma CountOriented(local: set<IpAddr>, k: FlowKey, d: ConnectionDto, s: FlowState, fp: FlowPacket, a: Answers, tsMs: int)
    requires Oriented(local, k, d, s)
    ensures var out := Orient(local, k, fp.dir).2;
      Oriented(local, k, Refresh(d, if out then fp.wire else 0, if out then 0 else fp.wire, a, tsMs), Account(s, fp).0)
  {
    AccountTally(s, fp, Bytes(LowToHigh));
    AccountTally(s, fp, Bytes(HighToLow));
    hide Account;
  }

  ghost predicate AllOriented(local: set<IpAddr>, t: Table, b: Books) {
    forall k <- b.conns :: Lookup(t, k).Some? && Oriented(local, k, b.conns[k], Lookup(t, k).value)
  }

  /** After the flow update and before anything is persisted, the packet's own entry is oriented too. */
  lemma HandleOriented(local: set<IpAddr>, t: Table, b: Books, p: Packet, info: FlowInfo, a: Answers)
    requires SameFlows(b) && Keys(t) == b.conns.Keys && AllOriented(local, t, b)
    ensures var o := Update(local, t, p, info);
      Oriented(local, KeyOf(info), HandleUpdate(local, b, o.update, a, Millis(p.ts)).conns[KeyOf(info)], NextState(t, p, info))
  {
    var k, fp := KeyOf(info), FlowPacketOf(p, info);
    var o := Update(local, t, p, info);
    KeysByLookup(t);
    var (near, far, out) := Orient(local, k, fp.dir);
    if k in b.conns {
      CountOriented(local, k, b.conns[k], Lookup(t, k).value, fp, a, Millis(p.ts));
    } else {
      CountOriented(local, k, NewDto(MetaFor(b, k, out), k, near, far, a, Millis(p.ts)), NewState(p.ts), fp, a, Millis(p.ts));
    }
  }

  lemma {:induction false} PersistAllKeepsConns(b: Books, snaps: seq<FlowStatsSnapshot>, refused: set<FlowKey>)
    ensures forall k <- PersistAll(b, snaps, refused).conns :: k in b.conns && PersistAll(b, snaps, refused).conns[k] == b.conns[k]
    decreases |snaps|
  {
    if snaps != [] {
      PersistAllKeepsConns(PersistClosed(b, snaps[0], refused), snaps[1..], refused);
    }
  }

  lemma TurnOriented(local: set<IpAddr>, t: Table, b: Books, input: Input)
    requires Agreement(t, b) && AllOriented(local, t, b)
    ensures var (t', b') := Turn(local, t, b, input); AllOriented(local, t', b')
  {
    if input.Captured? && Info(input.p).Some? {
      var p, info := input.p, Info(input.p).value;
      var o, key := Update(local, t, p, info), KeyOf(info);
      var b1 := HandleUpdate(local, b, o.update, input.answers, Millis(p.ts));
      var b' := PersistAll(b1, o.sent, input.answers.refused);
      HandleOriented(local, t, b, p, info, input.answers);
      TurnAgreement(local, t, b, input);
      PersistAllKeepsConns(b1, o.sent, input.answers.refused);
      KeysByLookup(o.table);
      UpdateOwnKey(local, t, p, info);
      forall k | k in b'.conns
        ensures Lookup(o.table, k).Some? && Oriented(local, k, b'.conns[k], Lookup(o.table, k).value)
      {
        assert k in Keys(o.table);
        UpdateLookup(local, t, p, info, k);
      }
    }
  }

  lemma {:induction false} RunOriented(local: set<IpAddr>, inputs: seq<Input>)
    ensures var (t, b) := Run(local, inputs); AllOriented(local, t, b)
  {
    if inputs != [] {
      RunOriented(local, inputs[..|inputs| - 1]);
      ReplicaAgreement(local, inputs[..|inputs| - 1]);
      var (t, b) := Run(local, inputs[..|inputs| - 1]);
      TurnOriented(local, t, b, inputs[|inputs| - 1]);
    }
  }

  /**
   ORIENTATION. At every boundary a live connection's up and down counters equal the tracker's
   snapshot if and only if exactly one endpoint is local or nothing went from high to low.
   */
  lemma OrientationAgreement(local: set<IpAddr>, inputs: seq<Input>, k: FlowKey)
    requires k in Run(local, inputs).1.conns
    ensures var (t, b) := Run(local, inputs);
      && Lookup(t, k).Some?
      && var snap := Snapshot(local, k, Lookup(t, k).value);
        ((b.conns[k].bytesUp, b.conns[k].bytesDown) == (snap.bytesUp, snap.bytesDown)
         <==> OneLocal(local, k) || Lookup(t, k).value.bytesHighToLow == 0)
  {
    RunOriented(local, inputs);
  }

  /** One UDP packet between two endpoints, in either direction. */
  function Datagram(lowToHigh: bool, wire: nat): Packet {
    if lowToHigh then Packet([Ipv4(1, 2, 17), Udp(1000, 53)], 0, wire) else Packet([Ipv4(2, 1, 17), Udp(53, 1000)], 0, wire)
  }

  const DATAGRAM_KEY := FlowKey(V4(1), 1000, V4(2), 53, 17)

  lemma DatagramInfo(lowToHigh: bool, wire: nat)
    ensures var info := Info(Datagram(lowToHigh, wire));
      && info.Some? && KeyOf(info.value) == DATAGRAM_KEY && info.value.tcp.None?
      && DirOf(info.value.src, info.value.dst) == if lowToHigh then LowToHigh else HighToLow
  {
    var layers := Datagram(lowToHigh, wire).layers;
    assert layers[1..] == [layers[1]];
    assert InfoFrom(layers[1..], Some(IpPart(V4(1), V4(2), 17))).Some?;
  }

  lemma OnlyEntry(t: Table, k: FlowKey)
    requires |t| == 1 && t[0].0 == k
    ensures Lookup(t, k) == Some(t[0].1) && Without(t, k) == [] && Live(t, k)
  {
    assert t[1..] == [];
  }

  lemma DatagramCounted(local: set<IpAddr>, t: Table, b: Books, lowToHigh: bool, wire: nat)
    requires t == [] || (|t| == 1 && t[0].0 == DATAGRAM_KEY)
    ensures var t' := Turn(local, t, b, Captured(Datagram(lowToHigh, wire), SILENT)).0;
      && |t'| == 1 && t'[0].0 == DATAGRAM_KEY
      && t'[0].1.bytesLowToHigh == (if t == [] then 0 else t[0].1.bytesLowToHigh) + (if lowToHigh then wire else 0)
      && t'[0].1.bytesHighToLow == (if t == [] then 0 else t[0].1.bytesHighToLow) + (if lowToHigh then 0 else wire)
  {
    DatagramInfo(lowToHigh, wire);
    if t != [] {
      OnlyEntry(t, DATAGRAM_KEY);
    }
    hide PersistAll, HandleUpdate;
  }

  const THERE_AND_BACK: seq<Input> := [Captured(Datagram(true, 100), SILENT), Captured(Datagram(false, 60), SILENT)]

  lemma ThereAndBack(local: set<IpAddr>) returns (s: FlowState)
    ensures Run(local, THERE_AND_BACK).0 == [(DATAGRAM_KEY, s)]
    ensures s.bytesLowToHigh == 100 && s.bytesHighToLow == 60
  {
    hide Turn;
    var first := THERE_AND_BACK[..1];
    assert first[..|first| - 1] == [] && first[|first| - 1] == THERE_AND_BACK[0];
    assert Run(local, []) == ([], OPENING);
    DatagramCounted(local, [], OPENING, true, 100);
    var (t, b) := Run(local, first);
    assert (t, b) == Turn(local, [], OPENING, THERE_AND_BACK[0]);
    DatagramCounted(local, t, b, false, 60);
    assert Run(local, THERE_AND_BACK) == Turn(local, t, b, THERE_AND_BACK[1]);
    s := Run(local, THERE_AND_BACK).0[0].1;
  }

  /** A hundred bytes one way and sixty back between two hosts, none of them local: all is shown as sent. */
  lemma NoLocalEndpoint()
    ensures var (t, b) := Run({}, THERE_AND_BACK);
      && DATAGRAM_KEY in b.conns && Lookup(t, DATAGRAM_KEY).Some?
      && var (d, snap) := (b.conns[DATAGRAM_KEY], Snapshot({}, DATAGRAM_KEY, Lookup(t, DATAGRAM_KEY).value));
        (d.bytesUp, d.bytesDown) == (160, 0) && (snap.bytesUp, snap.bytesDown) == (100, 60)
  {
    var s := ThereAndBack({});
    RunSameFlows({}, THERE_AND_BACK);
    RunOriented({}, THERE_AND_BACK);
    hide Run, SameFlows;
    var t := Run({}, THERE_AND_BACK).0;
    OnlyEntry(t, DATAGRAM_KEY);
    LookupLive(t, DATAGRAM_KEY);
  }

  // ---------------------------------------------------------------- persisted rows

  function PacketsOf(inputs: seq<Input>): seq<Packet> {
    if inputs == [] then [] else
    var last := inputs[|inputs| - 1];
    PacketsOf(inputs[..|inputs| - 1]) + if last.Captured? then [last.p] else []
  }

  predicate RowOf(row: ConnectionRow, snap: FlowStatsSnapshot) {
    && row.proto == snap.protocol
    && row.bytesUp == snap.bytesUp && row.bytesDown == snap.bytesDown
    && snap.localPort == Some(row.localPort) && snap.remotePort == Some(row.remotePort)
    && row.tsStart == Millis(snap.firstSeen) && row.tsEnd == Millis(snap.lastSeen)
  }

  predicate RowsOf(rows: seq<Insertion>, snaps: seq<FlowStatsSnapshot>) {
    |rows| == |snaps| && forall i :: 0 <= i < |rows| ==> RowOf(rows[i].row, snaps[i])
  }

  lemma {:induction false} PersistAllRows(b: Books, snaps: seq<FlowStatsSnapshot>, refused: set<FlowKey>, already: seq<FlowStatsSnapshot>)
    requires RowsOf(b.rows, already)
    requires forall s <- snaps :: s.localPort.Some? && s.remotePort.Some?
    ensures RowsOf(PersistAll(b, snaps, refused).rows, already + snaps)
    decreases |snaps|
  {
    if snaps == [] {
      assert already + snaps == already;
    } else {
      assert already + snaps == (already + [snaps[0]]) + snaps[1..];
      assert forall s <- snaps[1..] :: s in snaps;
      PersistAllRows(PersistClosed(b, snaps[0], refused), snaps[1..], refused, already + [snaps[0]]);
    }
  }

  /**
   PERSISTED ROWS. The worker's table is the tracker's over the captured packets, and its rows
   are one for one, in order, the snapshots the tracker sent; with `Conservation`, every byte
   accepted is in a live entry or in exactly one row.
   */
  lemma {:induction false} RowsAreSnapshots(local: set<IpAddr>, inputs: seq<Input>)
    ensures var (t, b) := Run(local, inputs);
      t == After(local, PacketsOf(inputs)).0 && RowsOf(b.rows, After(local, PacketsOf(inputs)).1)
  {
    if inputs != [] {
      var before, last := inputs[..|inputs| - 1], inputs[|inputs| - 1];
      RowsAreSnapshots(local, before);
      var (t, b) := Run(local, before);
      if last.Captured? {
        TurnRows(local, t, b, last, After(local, PacketsOf(before)).1);
      } else {
        assert PacketsOf(inputs) == PacketsOf(before);
      }
    }
  }

  lemma TurnRows(local: set<IpAddr>, t: Table, b: Books, input: Input, already: seq<FlowStatsSnapshot>)
    requires RowsOf(b.rows, already) && input.Captured?
    ensures var (t', b') := Turn(local, t, b, input);
      if Info(input.p).None? then t' == t && b'.rows == b.rows else
      var o := Update(local, t, input.p, Info(input.p).value);
      t' == o.table && RowsOf(b'.rows, already + o.sent)
  {
    if Info(input.p).Some? {
      var o := Update(local, t, input.p, Info(input.p).value);
      PersistAllRows(HandleUpdate(local, b, o.update, input.answers, Millis(input.p.ts)), o.sent, input.answers.refused, already);
    }
  }

}
