/**
 The event protocol between the daemon and an inspector (`ipc/protocol.rs`,
 `inspector/state.rs`): the inspector rebuilds the daemon's live table from events.
 */
module Inspector {
  import opened Bytes
  import AlertTypes

  type Alert = AlertTypes.Alert

  const MAX_ALERTS := 500

  datatype ConnectionDto = ConnectionDto(
    id: nat, process: string, pid: Option<int>, destName: string,
    remoteIp: string, remotePort: u16, localPort: u16, protocol: int,
    country: Option<string>, asn: Option<int>, asOrg: Option<string>,
    bytesUp: nat, bytesDown: nat, firstSeenMs: int, lastSeenMs: int, outbound: bool
  )

  datatype Event = FlowEvent(dto: ConnectionDto) | ClosedEvent(id: nat) | AlertEvent(alert: Alert) | Heartbeat(tsMs: int)

  type Replica = map<nat, ConnectionDto>

  /** The effect of one event on the replicated connections. */
  function Apply(r: Replica, ev: Event): Replica {
    match ev
    case FlowEvent(dto) => r[dto.id := dto]
    case ClosedEvent(id) => r - {id}
    case AlertEvent(_) => r
    case Heartbeat(_) => r
  }

  function ApplyAll(r: Replica, evs: seq<Event>): Replica
    decreases |evs|
  {
    if evs == [] then r else ApplyAll(Apply(r, evs[0]), evs[1..])
  }

  function Load(conns: seq<ConnectionDto>): Replica {
    if conns == [] then map[] else
    var last := conns[|conns| - 1];
    Load(conns[..|conns| - 1])[last.id := last]
  }

  /** The alert feed after one event: newest first, at most `MAX_ALERTS`. */
  function Feed(alerts: seq<Alert>, ev: Event): seq<Alert> {
    if ev.AlertEvent? then Newest([ev.alert] + alerts) else alerts
  }

  function Newest(alerts: seq<Alert>): seq<Alert> {
    if |alerts| <= MAX_ALERTS then alerts else alerts[..MAX_ALERTS]
  }

  class InspectorApp {
    var conns: Replica
    var alerts: seq<Alert>

    constructor ()
      ensures conns == map[] && alerts == []
    {
      conns, alerts := map[], [];
    }

    method ApplyEvent(ev: Event)
      modifies this
      ensures conns == Apply(old(conns), ev)
      ensures alerts == Feed(old(alerts), ev)
    {
      match ev {
        case FlowEvent(dto) => conns := conns[dto.id := dto];
        case ClosedEvent(id) => conns := conns - {id};
        case AlertEvent(a) =>
          alerts := [a] + alerts;
          ghost var all := alerts;
          while |alerts| > MAX_ALERTS
            invariant conns == old(conns)
            invariant MAX_ALERTS <= |alerts| <= |all| || alerts == all
            invariant alerts == all[..|alerts|]
          {
            alerts := alerts[..|alerts| - 1];
          }
        case Heartbeat(_) =>
      }
    }

    method SetSnapshot(v: seq<ConnectionDto>)
      modifies this`conns
      ensures conns == Load(v)
    {
      conns := map[];
      var i := 0;
      while i < |v|
        invariant 0 <= i <= |v|
        invariant conns == Load(v[..i])
      {
        assert v[..i + 1][..i] == v[..i];
        conns := conns[v[i].id := v[i]];
        i := i + 1;
      }
      assert v[..i] == v;
    }
  }

  // ---------------------------------------------------------------- the last event decides

  predicate About(ev: Event, id: nat) {
    (ev.FlowEvent? && ev.dto.id == id) || (ev.ClosedEvent? && ev.id == id)
  }

  function Touched(evs: seq<Event>): set<nat> {
    if evs == [] then {} else
    Touched(evs[1..]) + match evs[0] {
      case FlowEvent(dto) => {dto.id}
      case ClosedEvent(id) => {id}
      case AlertEvent(_) => {}
      case Heartbeat(_) => {}
    }
  }

  /** Two replicas say the same about one connection. */
  predicate SameAt(r: Replica, r': Replica, id: nat) {
    (id in r <==> id in r') && (id in r ==> r[id] == r'[id])
  }

  lemma {:induction false} ApplyAllAppend(r: Replica, xs: seq<Event>, ys: seq<Event>)
    ensures ApplyAll(r, xs + ys) == ApplyAll(ApplyAll(r, xs), ys)
    decreases |xs|
  {
    if xs == [] {
      assert xs + ys == ys;
    } else {
      assert (xs + ys)[1..] == xs[1..] + ys;
      ApplyAllAppend(Apply(r, xs[0]), xs[1..], ys);
    }
  }

  lemma ApplyOne(r: Replica, ev: Event)
    ensures ApplyAll(r, [ev]) == Apply(r, ev)
  {
    assert [ev][1..] == [];
    assert ApplyAll(Apply(r, ev), []) == Apply(r, ev);
  }

  /** Where the two starting replicas agree, or the events speak, the results agree. */
  lemma {:induction false} LastEventDecides(r: Replica, r': Replica, evs: seq<Event>, id: nat)
    requires SameAt(r, r', id) || id in Touched(evs)
    ensures SameAt(ApplyAll(r, evs), ApplyAll(r', evs), id)
    decreases |evs|
  {
    if evs != [] {
      LastEventDecides(Apply(r, evs[0]), Apply(r', evs[0]), evs[1..], id);
    }
  }

  lemma {:induction false} Untouched(r: Replica, evs: seq<Event>, id: nat)
    requires id !in Touched(evs)
    ensures SameAt(ApplyAll(r, evs), r, id)
    decreases |evs|
  {
    if evs != [] {
      Untouched(Apply(r, evs[0]), evs[1..], id);
    }
  }

  lemma SameEverywhere(r: Replica, r': Replica)
    requires forall id: nat :: SameAt(r, r', id)
    ensures r == r'
  {
    assert forall id: nat :: id in r <==> id in r' by {
      forall id: nat
        ensures id in r <==> id in r'
      {
        assert SameAt(r, r', id);
      }
    }
    forall id | id in r
      ensures r[id] == r'[id]
    {
      assert SameAt(r, r', id);
    }
  }

  /**
   REFRESH. A snapshot already holding the effect of queued events, or of any part of each
   connection's share of them, converges once those events have been applied again: an
   inspector may reload the live table at any time without losing or duplicating anything.
   */
  lemma ReplayConverges(r0: Replica, evs: seq<Event>, snapshot: Replica)
    requires forall id: nat :: id !in Touched(evs) ==> SameAt(snapshot, r0, id)
    ensures ApplyAll(snapshot, evs) == ApplyAll(r0, evs)
  {
    forall id: nat
      ensures SameAt(ApplyAll(snapshot, evs), ApplyAll(r0, evs), id)
    {
      LastEventDecides(snapshot, r0, evs, id);
    }
    SameEverywhere(ApplyAll(snapshot, evs), ApplyAll(r0, evs));
  }

  lemma {:induction false} TouchedAppend(xs: seq<Event>, ys: seq<Event>)
    ensures Touched(xs + ys) == Touched(xs) + Touched(ys)
  {
    if xs == [] {
      assert xs + ys == ys;
    } else {
      assert (xs + ys)[1..] == xs[1..] + ys;
      TouchedAppend(xs[1..], ys);
    }
  }

  lemma {:induction false} TouchedMeans(evs: seq<Event>, id: nat)
    ensures id in Touched(evs) <==> exists i :: 0 <= i < |evs| && About(evs[i], id)
  {
    if evs != [] {
      TouchedMeans(evs[1..], id);
      if About(evs[0], id) {
        assert id in Touched(evs);
      }
      if id in Touched(evs[1..]) {
        var i :| 0 <= i < |evs[1..]| && About(evs[1..][i], id);
        assert About(evs[i + 1], id);
      }
      if i :| 0 <= i < |evs| && About(evs[i], id) {
        assert i > 0 ==> About(evs[1..][i - 1], id);
      }
    }
  }

  function From(evs: seq<Event>, i: nat): seq<Event> {
    if i <= |evs| then evs[i..] else []
  }

  /** A snapshot that already contains the first `n` events, replayed from any earlier event on. */
  lemma ReplayFromEarlier(r0: Replica, evs: seq<Event>, i: nat, n: nat)
    requires i <= n <= |evs|
    ensures ApplyAll(ApplyAll(r0, evs[..n]), From(evs, i)) == ApplyAll(r0, evs)
  {
    var mid, share, rest := ApplyAll(r0, evs[..i]), evs[i..n], evs[n..];
    assert evs[..i] + share == evs[..n];
    assert evs[..i] + evs[i..] == evs;
    assert evs[i..] == share + rest;
    ApplyAllAppend(r0, evs[..i], share);
    ApplyAllAppend(r0, evs[..i], evs[i..]);
    TouchedAppend(share, rest);
    forall id: nat | id !in Touched(evs[i..])
      ensures SameAt(ApplyAll(mid, share), mid, id)
    {
      Untouched(mid, share, id);
    }
    ReplayConverges(mid, evs[i..], ApplyAll(mid, share));
  }

  /** Two replicas given the same events end up the same exactly when they agreed wherever these are silent. */
  lemma SameAfter(r: Replica, r': Replica, seen: seq<Event>)
    ensures ApplyAll(r, seen) == ApplyAll(r', seen) <==> forall id: nat :: id !in Touched(seen) ==> SameAt(r, r', id)
  {
    forall id: nat | id !in Touched(seen)
      ensures SameAt(ApplyAll(r, seen), r, id) && SameAt(ApplyAll(r', seen), r', id)
    {
      Untouched(r, seen, id);
      Untouched(r', seen, id);
    }
    if forall id: nat :: id !in Touched(seen) ==> SameAt(r, r', id) {
      ReplayConverges(r', seen, r);
    }
  }

  // ---------------------------------------------------------------- the alert feed

  function FeedAll(alerts: seq<Alert>, evs: seq<Event>): seq<Alert> {
    if evs == [] then alerts else Feed(FeedAll(alerts, evs[..|evs| - 1]), evs[|evs| - 1])
  }

  /** Every alert sent so far, newest first. */
  function AlertsOf(evs: seq<Event>): seq<Alert> {
    if evs == [] then [] else
    var last := evs[|evs| - 1];
    (if last.AlertEvent? then [last.alert] else []) + AlertsOf(evs[..|evs| - 1])
  }

  /** The feed is the 500 newest alerts sent since the start. */
  lemma {:induction false} FeedIsNewest(evs: seq<Event>)
    ensures var all := AlertsOf(evs); FeedAll([], evs) == if |all| <= 500 then all else all[..500]
  {
    if evs != [] {
      FeedIsNewest(evs[..|evs| - 1]);
      var last, all := evs[|evs| - 1], AlertsOf(evs[..|evs| - 1]);
      if last.AlertEvent? {
        assert Newest([last.alert] + Newest(all)) == Newest([last.alert] + all);
      }
    }
  }
}
