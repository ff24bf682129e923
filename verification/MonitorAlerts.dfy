/** The alerts broadcast, over whole runs of the worker. */
module MonitorAlerts {
  import opened FlowKeys
  import opened FlowStates
  import opened FlowTracker
  import opened Inspector
  import opened Monitor
  import opened MonitorRuns

  /** The alerts of one turn's verdict. */
  function Verdicts(input: Input): seq<Alert> {
    if input.Captured? && Info(input.p).Some? && input.answers.verdict.Some? then input.answers.verdict.value.alerts else []
  }

  /** The alerts of every verdict given on a packet of a flow, in order. */
  function Raised(inputs: seq<Input>): seq<Alert> {
    if inputs == [] then [] else Raised(inputs[..|inputs| - 1]) + Verdicts(inputs[|inputs| - 1])
  }

  /** From the last to the first. */
  function Backward(alerts: seq<Alert>): (r: seq<Alert>)
    ensures |r| == |alerts| && forall i :: 0 <= i < |r| ==> r[i] == alerts[|alerts| - 1 - i]
  {
    seq(|alerts|, i requires 0 <= i < |alerts| => alerts[|alerts| - 1 - i])
  }

  lemma BackwardJoin(xs: seq<Alert>, ys: seq<Alert>)
    ensures Backward(xs + ys) == Backward(ys) + Backward(xs)
  {
  }

  lemma {:induction false} AlertsOfAppend(xs: seq<Event>, ys: seq<Event>)
    ensures AlertsOf(xs + ys) == AlertsOf(ys) + AlertsOf(xs)
  {
    if ys == [] {
      assert xs + ys == xs;
    } else {
      var n := |ys| - 1;
      assert (xs + ys)[..|xs + ys| - 1] == xs + ys[..n];
      AlertsOfAppend(xs, ys[..n]);
    }
  }

  lemma {:induction false} AlertsOfAlerts(alerts: seq<Alert>)
    ensures AlertsOf(AlertEvents(alerts)) == Backward(alerts)
  {
    if alerts != [] {
      AlertsOfAlerts(alerts[1..]);
      AlertsOfAppend([AlertEvent(alerts[0])], AlertEvents(alerts[1..]));
      AlertsOfOne(AlertEvent(alerts[0]));
    }
  }

  lemma AlertsOfOne(e: Event)
    ensures AlertsOf([e]) == if e.AlertEvent? then [e.alert] else []
  {
    assert [e][..0] == [];
  }

  lemma OneClosingIsSilent(b: Books, snap: FlowStatsSnapshot, refused: set<FlowKey>)
    ensures AlertsOf(PersistClosed(b, snap, refused).events) == AlertsOf(b.events)
  {
    if snap.key in b.metas {
      var e := ClosedEvent(b.metas[snap.key].id);
      AlertsOfAppend(b.events, [e]);
      AlertsOfOne(e);
    } else {
      assert b.events + [] == b.events;
    }
  }

  lemma {:induction false} ClosingIsSilent(b: Books, snaps: seq<FlowStatsSnapshot>, refused: set<FlowKey>)
    ensures AlertsOf(PersistAll(b, snaps, refused).events) == AlertsOf(b.events)
    decreases |snaps|
  {
    if snaps != [] {
      OneClosingIsSilent(b, snaps[0], refused);
      hide PersistClosed, AlertsOf;
      ClosingIsSilent(PersistClosed(b, snaps[0], refused), snaps[1..], refused);
    }
  }

  lemma HandleEvents(local: set<IpAddr>, b: Books, u: FlowUpdate, a: Answers, ts: int)
    ensures HandleUpdate(local, b, u, a, ts).events
         == b.events + AlertEvents(if a.verdict.Some? then a.verdict.value.alerts else []) + [FlowEvent(DtoFor(local, b, u, a, ts))]
  {
    hide DtoFor, Orient, Judged, MetaFor;
  }

  lemma HandleBroadcasts(local: set<IpAddr>, b: Books, u: FlowUpdate, a: Answers, ts: int)
    ensures AlertsOf(HandleUpdate(local, b, u, a, ts).events)
         == Backward(if a.verdict.Some? then a.verdict.value.alerts else []) + AlertsOf(b.events)
  {
    hide *;
    var shown := FlowEvent(DtoFor(local, b, u, a, ts));
    var alerts := if a.verdict.Some? then a.verdict.value.alerts else [];
    HandleEvents(local, b, u, a, ts);
    AlertsOfAppend(b.events + AlertEvents(alerts), [shown]);
    AlertsOfAppend(b.events, AlertEvents(alerts));
    AlertsOfAlerts(alerts);
    AlertsOfOne(shown);
  }

  lemma TurnBroadcasts(local: set<IpAddr>, t: Table, b: Books, input: Input)
    ensures AlertsOf(Turn(local, t, b, input).1.events) == Backward(Verdicts(input)) + AlertsOf(b.events)
  {
    hide Info, Update, HandleUpdate, AlertsOf, PersistAll;
    if input.Timeout? {
      AlertsOfAppend(b.events, [Heartbeat(input.tsMs)]);
      AlertsOfOne(Heartbeat(input.tsMs));
    } else if Info(input.p).Some? {
      var o := Update(local, t, input.p, Info(input.p).value);
      HandleBroadcasts(local, b, o.update, input.answers, Millis(input.p.ts));
      ClosingIsSilent(HandleUpdate(local, b, o.update, input.answers, Millis(input.p.ts)), o.sent, input.answers.refused);
    }
  }

  /**
   ALERTS. In every run the alerts broadcast are exactly those of the verdicts given, each once and in order;
   `AlertsOf` lists them from the newest on.
   */
  lemma {:induction false} AlertsAreBroadcast(local: set<IpAddr>, inputs: seq<Input>)
    ensures AlertsOf(Run(local, inputs).1.events) == Backward(Raised(inputs))
  {
    if inputs != [] {
      var before, last := inputs[..|inputs| - 1], inputs[|inputs| - 1];
      AlertsAreBroadcast(local, before);
      var (t, b) := Run(local, before);
      assert Run(local, inputs) == Turn(local, t, b, last);
      hide Run, Turn, AlertsOf, Verdicts;
      TurnBroadcasts(local, t, b, last);
      BackwardJoin(Raised(before), Verdicts(last));
    }
  }

  /** What an inspector that listens from the start lists is the newest of them, newest first. */
  lemma FeedShowsNewest(local: set<IpAddr>, inputs: seq<Input>)
    ensures var all := Backward(Raised(inputs));
      FeedAll([], Run(local, inputs).1.events) == if |all| <= 500 then all else all[..500]
  {
    hide Run, Raised, FeedAll, AlertsOf;
    AlertsAreBroadcast(local, inputs);
    FeedIsNewest(Run(local, inputs).1.events);
  }
}
