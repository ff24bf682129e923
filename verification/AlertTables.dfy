/** What the destination and process tables say, over the whole history of committed observations. */
module AlertTables {
  import opened Bytes
  import opened AlertTypes
  import opened AlertStore
  import opened AlertBaseline
  import opened AlertEngine
  import opened AlertWrites
  import opened AlertFirings
  import opened AlertHistory
  import opened AlertIdentities
  import opened AlertRuns

  /** `shown` is the last answer given by an observation of the place or process, none as long as there is none. */
  ghost predicate LastAnswer<T(!new)>(h: History, here: Observation -> bool, answer: Observation -> Option<T>, shown: Option<T>) {
    if forall e <- h :: here(e) ==> answer(e).None? then shown == None else
    exists i :: 0 <= i < |h| && here(h[i]) && answer(h[i]).Some? && answer(h[i]) == shown
      && forall j :: i < j < |h| && here(h[j]) ==> answer(h[j]).None?
  }

  /** The times of the first and the last observation. */
  ghost predicate Spans(h: History, here: Observation -> bool, first: int, last: int) {
    exists i, j :: 0 <= i <= j < |h| && here(h[i]) && here(h[j]) && h[i].ts == first && h[j].ts == last
      && (forall k :: 0 <= k < i ==> !here(h[k])) && (forall k :: j < k < |h| ==> !here(h[k]))
  }

  lemma LastAnswerMore<T(!new)>(h: History, ev: Observation, here: Observation -> bool, answer: Observation -> Option<T>, shown: Option<T>)
    requires LastAnswer(h, here, answer, shown)
    ensures LastAnswer(h + [ev], here, answer, if here(ev) && answer(ev).Some? then answer(ev) else shown)
  {
    var all := h + [ev];
    assert all[|h|] == ev && ev in all;
    if !(here(ev) && answer(ev).Some?) {
      if forall e <- h :: here(e) ==> answer(e).None? {
      } else {
        var i :| 0 <= i < |h| && here(h[i]) && answer(h[i]).Some? && answer(h[i]) == shown
          && forall j :: i < j < |h| && here(h[j]) ==> answer(h[j]).None?;
        assert all[i] == h[i] && all[i] in all;
      }
    }
  }

  lemma LastAnswerNone<T(!new)>(h: History, here: Observation -> bool, answer: Observation -> Option<T>)
    requires forall e <- h :: !here(e)
    ensures LastAnswer(h, here, answer, None)
  {
  }

  lemma SpansMore(h: History, ev: Observation, here: Observation -> bool, first: int, last: int)
    requires Spans(h, here, first, last)
    ensures Spans(h + [ev], here, first, if here(ev) then ev.ts as int else last)
  {
    var i, j :| 0 <= i <= j < |h| && here(h[i]) && here(h[j]) && h[i].ts == first && h[j].ts == last
      && (forall k :: 0 <= k < i ==> !here(h[k])) && (forall k :: j < k < |h| ==> !here(h[k]));
    var all, last' := h + [ev], if here(ev) then |h| else j;
    assert all[i] == h[i] && all[last'] == if here(ev) then ev else h[j];
  }

  lemma SpansNew(h: History, ev: Observation, here: Observation -> bool)
    requires here(ev) && forall e <- h :: !here(e)
    ensures Spans(h + [ev], here, ev.ts, ev.ts)
  {
    assert (h + [ev])[|h|] == ev;
  }

  // ---------------------------------------------------------------- destinations

  function At(ip: string): Observation -> bool {
    (e: Observation) => e.destIp == ip
  }

  const NAMED := (e: Observation) => e.name
  const IN_COUNTRY := (e: Observation) => e.geo.country
  const IN_NETWORK := (e: Observation) => e.geo.asn
  const OF_ORG := (e: Observation) => e.geo.asOrg

  /** A destination's row: first and last contact, and the last known name, country, network and organisation. */
  ghost predicate RowTells(h: History, ip: string, row: DestRow) {
    && Spans(h, At(ip), row.firstSeen, row.lastSeen)
    && LastAnswer(h, At(ip), NAMED, row.bestName)
    && LastAnswer(h, At(ip), IN_COUNTRY, row.geo.country)
    && LastAnswer(h, At(ip), IN_NETWORK, row.geo.asn)
    && LastAnswer(h, At(ip), OF_ORG, row.geo.asOrg)
  }

  /** Ids are distinct and run from one. */
  ghost predicate Counted(dests: map<string, DestRow>) {
    && (forall ip <- dests :: 1 <= dests[ip].id <= |dests|)
    && (forall a, b :: a in dests && b in dests && dests[a].id == dests[b].id ==> a == b)
  }

  /** Every row tells what it should. */
  ghost predicate AllTell(h: History, dests: map<string, DestRow>) {
    forall ip <- dests :: RowTells(h, ip, dests[ip])
  }

  /** One row per address contacted, each with an id of its own, counted from one. */
  ghost predicate DestinationsTell(h: History, dests: map<string, DestRow>) {
    && (forall e <- h :: e.destIp in dests)
    && AllTell(h, dests) && Counted(dests)
  }

  lemma RowKept(h: History, ev: Observation, ip: string, row: DestRow)
    requires RowTells(h, ip, row) && ev.destIp != ip
    ensures RowTells(h + [ev], ip, row)
  {
    SpansMore(h, ev, At(ip), row.firstSeen, row.lastSeen);
    LastAnswerMore(h, ev, At(ip), NAMED, row.bestName);
    LastAnswerMore(h, ev, At(ip), IN_COUNTRY, row.geo.country);
    LastAnswerMore(h, ev, At(ip), IN_NETWORK, row.geo.asn);
    LastAnswerMore(h, ev, At(ip), OF_ORG, row.geo.asOrg);
    hide Spans, LastAnswer;
  }

  lemma RowUpdated(h: History, ev: Observation, row: DestRow, next: DestRow)
    requires RowTells(h, ev.destIp, row)
    requires next.firstSeen == row.firstSeen && next.lastSeen == ev.ts
    requires next.bestName == OrElse(ev.name, row.bestName) && next.geo.country == OrElse(ev.geo.country, row.geo.country)
    requires next.geo.asn == OrElse(ev.geo.asn, row.geo.asn) && next.geo.asOrg == OrElse(ev.geo.asOrg, row.geo.asOrg)
    ensures RowTells(h + [ev], ev.destIp, next)
  {
    var ip := ev.destIp;
    SpansMore(h, ev, At(ip), row.firstSeen, row.lastSeen);
    LastAnswerMore(h, ev, At(ip), NAMED, row.bestName);
    LastAnswerMore(h, ev, At(ip), IN_COUNTRY, row.geo.country);
    LastAnswerMore(h, ev, At(ip), IN_NETWORK, row.geo.asn);
    LastAnswerMore(h, ev, At(ip), OF_ORG, row.geo.asOrg);
    hide Spans, LastAnswer;
  }

  lemma RowOpened(h: History, ev: Observation)
    requires forall e <- h :: e.destIp != ev.destIp
    ensures forall id :: RowTells(h + [ev], ev.destIp, DestRow(id, ev.name, ev.geo, ev.ts, ev.ts))
  {
    var ip := ev.destIp;
    SpansNew(h, ev, At(ip));
    LastAnswerNone(h, At(ip), NAMED);
    LastAnswerMore(h, ev, At(ip), NAMED, None);
    LastAnswerNone(h, At(ip), IN_COUNTRY);
    LastAnswerMore(h, ev, At(ip), IN_COUNTRY, None);
    LastAnswerNone(h, At(ip), IN_NETWORK);
    LastAnswerMore(h, ev, At(ip), IN_NETWORK, None);
    LastAnswerNone(h, At(ip), OF_ORG);
    LastAnswerMore(h, ev, At(ip), OF_ORG, None);
    hide Spans, LastAnswer;
  }

  lemma DestinationWritten(db: Tables, ev: Observation)
    ensures var was, r := db.destinations, WithDestination(db, ev.destIp, ev.name, ev.geo, ev.ts).destinations;
      && ev.destIp in r && r == was[ev.destIp := r[ev.destIp]]
      && var next := r[ev.destIp];
        if ev.destIp !in was then next == DestRow(|was| + 1, ev.name, ev.geo, ev.ts, ev.ts) else
        var row := was[ev.destIp];
        && next.id == row.id && next.firstSeen == row.firstSeen && next.lastSeen == ev.ts
        && next.bestName == OrElse(ev.name, row.bestName) && next.geo.country == OrElse(ev.geo.country, row.geo.country)
        && next.geo.asn == OrElse(ev.geo.asn, row.geo.asn) && next.geo.asOrg == OrElse(ev.geo.asOrg, row.geo.asOrg)
  {
    hide OrElse;
  }

  lemma SizeMore(was: map<string, DestRow>, ip: string, next: DestRow)
    ensures |was[ip := next]| == if ip in was then |was| else |was| + 1
  {
    var now := was[ip := next];
    assert now.Keys == was.Keys + {ip};
    assert |now.Keys| == |now| && |was.Keys| == |was|;
    if ip in was {
      assert was.Keys + {ip} == was.Keys;
    }
  }

  lemma CountedMore(was: map<string, DestRow>, ip: string, next: DestRow)
    requires Counted(was) && next.id == if ip in was then was[ip].id else |was| + 1
    ensures Counted(was[ip := next])
  {
    var now := was[ip := next];
    SizeMore(was, ip, next);
    forall k | k in now
      ensures 1 <= now[k].id <= |now|
    {
      assert k == ip || k in was;
    }
    forall a, b | a in now && b in now && now[a].id == now[b].id
      ensures a == b
    {
      assert (a == ip || a in was) && (b == ip || b in was);
    }
  }

  lemma AllTellMore(h: History, was: map<string, DestRow>, ev: Observation, next: DestRow)
    requires AllTell(h, was) && RowTells(h + [ev], ev.destIp, next)
    ensures AllTell(h + [ev], was[ev.destIp := next])
  {
    hide RowTells;
    var now := was[ev.destIp := next];
    forall ip | ip in now
      ensures RowTells(h + [ev], ip, now[ip])
    {
      if ip != ev.destIp {
        RowKept(h, ev, ip, was[ip]);
      }
    }
  }

  lemma DestinationStep(h: History, was: map<string, DestRow>, ev: Observation, next: DestRow)
    requires DestinationsTell(h, was) && RowTells(h + [ev], ev.destIp, next)
    requires next.id == if ev.destIp in was then was[ev.destIp].id else |was| + 1
    ensures DestinationsTell(h + [ev], was[ev.destIp := next])
  {
    hide RowTells, AllTell, Counted;
    CountedMore(was, ev.destIp, next);
    AllTellMore(h, was, ev, next);
  }

  lemma DestinationsMore(h: History, db: Tables, ev: Observation)
    requires DestinationsTell(h, db.destinations)
    ensures DestinationsTell(h + [ev], WithDestination(db, ev.destIp, ev.name, ev.geo, ev.ts).destinations)
  {
    var was, now, ip := db.destinations, WithDestination(db, ev.destIp, ev.name, ev.geo, ev.ts).destinations, ev.destIp;
    DestinationWritten(db, ev);
    if ip in was {
      assert AllTell(h, was) && RowTells(h, ip, was[ip]);
      hide RowTells, WithDestination, OrElse, DestinationsTell;
      RowUpdated(h, ev, was[ip], now[ip]);
      DestinationStep(h, was, ev, now[ip]);
    } else {
      assert forall e <- h :: e.destIp != ip;
      hide RowTells, WithDestination, OrElse, DestinationsTell;
      RowOpened(h, ev);
      DestinationStep(h, was, ev, now[ip]);
    }
  }

  lemma ObserveDestinations(cfg: Config, db: Tables, ev: Observation)
    requires Numbered(db)
    ensures Observe(cfg, db, ev).destinations == WithDestination(db, ev.destIp, ev.name, ev.geo, ev.ts).destinations
  {
    assert Opened(cfg, db, ev).destinations == WithDestination(db, ev.destIp, ev.name, ev.geo, ev.ts).destinations by {
      StartedIsLocal(cfg, db, ev.ts);
    }
    if ev.process.Some? {
      ObserveIsSignals(cfg, db, ev);
      KnownWrites(cfg, db, ev);
      hide Numbered, Observe, Signals, KnownBy, Opened, WithDestination, IdentityStage, Exe;
      SignalsWrite(cfg, KnownBy(cfg, db, ev), ev, Exe(ev.process.value), PidAfter(db.pids, Exe(ev.process.value)));
    }
  }

  lemma RunNumbered(cfg: Config, h: History)
    ensures Numbered(After(cfg, h))
  {
    RunFollows(cfg, h);
    hide After, Numbered, Records, LifecycleIs, Spent, VolumesFollow, IdentitiesFollow;
  }

  /** DESTINATIONS. After any history the table tells each address contacted as the history does. */
  lemma {:induction false} DestinationsFollow(cfg: Config, h: History)
    ensures DestinationsTell(h, After(cfg, h).destinations)
  {
    hide Observe;
    if h != [] {
      var init, last := h[..|h| - 1], h[|h| - 1];
      assert After(cfg, h) == Observe(cfg, After(cfg, init), last) && h == init + [last];
      hide After, DestinationsTell, WithDestination, Numbered;
      DestinationsFollow(cfg, init);
      RunNumbered(cfg, init);
      ObserveDestinations(cfg, After(cfg, init), last);
      DestinationsMore(init, After(cfg, init), last);
    }
  }

  // ---------------------------------------------------------------- processes

  function Run(exe: string): Observation -> bool {
    (e: Observation) => By(e, exe)
  }

  const CALLED := (e: Observation) => if e.process.Some? then Some(e.process.value.name) else None

  /** A process's row: first and last sighting and the name it was last seen under. */
  ghost predicate ProcessTells(h: History, exe: string, row: ProcessRow) {
    Spans(h, Run(exe), row.firstSeen, row.lastSeen) && LastAnswer(h, Run(exe), CALLED, Some(row.name))
  }

  /** One row per executable observed, under its id. */
  ghost predicate ProcessesTell(h: History, db: Tables) {
    && (forall e <- h :: e.process.Some? ==> Exe(e.process.value) in db.pids)
    && forall exe <- db.pids :: db.pids[exe] in db.processes && ProcessTells(h, exe, db.processes[db.pids[exe]])
  }

  /** What a sighting leaves in the row of its process; `was` is the row before, if there was one. */
  predicate Updates(was: Option<ProcessRow>, next: ProcessRow, p: SocketProc, ts: int) {
    next.name == p.name && next.lastSeen == ts && next.firstSeen == if was.Some? then was.value.firstSeen else ts
  }

  predicate SameSighting(was: ProcessRow, next: ProcessRow) {
    next.(current := None) == was.(current := None)
  }

  lemma ProcessWritten(db: Tables, exe: string, p: SocketProc, ts: int)
    requires Numbered(db)
    ensures var r, pid := WithProcess(db, exe, p.name, ts), PidAfter(db.pids, exe);
      && pid in r.processes && r.processes == db.processes[pid := r.processes[pid]]
      && Updates(if exe in db.pids && pid in db.processes then Some(db.processes[pid]) else None, r.processes[pid], p, ts)
      && (exe in db.pids ==> pid in db.processes)
  {
    if exe in db.pids {
      RowExists(db, exe);
    }
    hide Numbered;
  }

  lemma IdentityKeepsSighting(cfg: Config, db: Tables, ev: Observation, exe: string, pid: nat)
    requires pid in db.processes
    ensures var r := IdentityStage(cfg, db, ev, exe, pid);
      r.processes.Keys == db.processes.Keys && forall q <- db.processes :: SameSighting(db.processes[q], r.processes[q])
  {
    hide Cooling, ChangedSince, CurrentIdentity;
  }

  /** The process rows after one attributed observation. */
  lemma ObserveProcesses(cfg: Config, db: Tables, ev: Observation)
    requires Numbered(db) && ev.process.Some?
    ensures var p, r := ev.process.value, Observe(cfg, db, ev);
      var pid, known := PidAfter(db.pids, Exe(p)), WithProcess(db, Exe(p), p.name, ev.ts).processes;
      && r.pids == db.pids[Exe(p) := pid]
      && r.processes.Keys == known.Keys && forall q <- known :: SameSighting(known[q], r.processes[q])
  {
    var p := ev.process.value;
    var exe, pid, d := Exe(p), PidAfter(db.pids, Exe(p)), KnownBy(cfg, db, ev);
    ObserveIsSignals(cfg, db, ev);
    KnownWrites(cfg, db, ev);
    assert d.processes == WithProcess(db, exe, p.name, ev.ts).processes by { KnownProcesses(cfg, db, ev); }
    hide Numbered, Observe, Signals, KnownBy, Opened, WithProcess, IdentityStage, Exe, SameSighting;
    SignalsWrite(cfg, d, ev, exe, pid);
    IdentityKeepsSighting(cfg, d, ev, exe, pid);
  }

  lemma KnownProcesses(cfg: Config, db: Tables, ev: Observation)
    requires ev.process.Some?
    ensures KnownBy(cfg, db, ev).processes == WithProcess(db, Exe(ev.process.value), ev.process.value.name, ev.ts).processes
  {
    OpenedIsLocal(cfg, db, ev);
    hide Opened, Exe, Cooling;
  }

  lemma SightedRow(h: History, ev: Observation, exe: string, was: Option<ProcessRow>, next: ProcessRow)
    requires By(ev, exe) && Updates(was, next, ev.process.value, ev.ts)
    requires if was.Some? then ProcessTells(h, exe, was.value) else forall e <- h :: !By(e, exe)
    ensures ProcessTells(h + [ev], exe, next)
  {
    if was.Some? {
      SpansMore(h, ev, Run(exe), was.value.firstSeen, was.value.lastSeen);
      LastAnswerMore(h, ev, Run(exe), CALLED, Some(was.value.name));
    } else {
      SpansNew(h, ev, Run(exe));
      LastAnswerNone(h, Run(exe), CALLED);
      LastAnswerMore(h, ev, Run(exe), CALLED, None);
    }
    hide Spans, LastAnswer, By;
  }

  lemma UnsightedRow(h: History, ev: Observation, exe: string, was: ProcessRow, next: ProcessRow)
    requires !By(ev, exe) && SameSighting(was, next) && ProcessTells(h, exe, was)
    ensures ProcessTells(h + [ev], exe, next)
  {
    SpansMore(h, ev, Run(exe), was.firstSeen, was.lastSeen);
    LastAnswerMore(h, ev, Run(exe), CALLED, Some(was.name));
    hide Spans, LastAnswer, By;
  }

  lemma OwnRowSame(h: History, exe: string, row: ProcessRow, next: ProcessRow)
    requires ProcessTells(h, exe, row) && SameSighting(row, next)
    ensures ProcessTells(h, exe, next)
  {
    hide Spans, LastAnswer;
  }

  lemma OthersElsewhere(db: Tables, exe: string)
    requires Numbered(db)
    ensures forall other <- db.pids :: other != exe ==> db.pids[other] != PidAfter(db.pids, exe)
  {
  }

  lemma AttributedStep(cfg: Config, h: History, db: Tables, ev: Observation)
    requires Numbered(db) && ProcessesTell(h, db) && ev.process.Some?
    ensures ProcessesTell(h + [ev], Observe(cfg, db, ev))
  {
    hide Observe, WithProcess, ProcessTells, SameSighting, Exe;
    var p, r, own := ev.process.value, Observe(cfg, db, ev), Exe(ev.process.value);
    var pid, known := PidAfter(db.pids, own), WithProcess(db, own, p.name, ev.ts).processes;
    ObserveProcesses(cfg, db, ev);
    ProcessWritten(db, own, p, ev.ts);
    OthersElsewhere(db, own);
    hide Numbered, PidAfter, Updates;
    forall exe | exe in r.pids
      ensures r.pids[exe] in r.processes && ProcessTells(h + [ev], exe, r.processes[r.pids[exe]])
    {
      if exe == own {
        SightedRow(h, ev, exe, if exe in db.pids then Some(db.processes[pid]) else None, known[pid]);
        OwnRowSame(h + [ev], exe, known[pid], r.processes[pid]);
      } else {
        var q := db.pids[exe];
        assert known[q] == db.processes[q] && !By(ev, exe);
        UnsightedRow(h, ev, exe, db.processes[q], r.processes[q]);
      }
    }
  }

  lemma UnattributedStep(cfg: Config, h: History, db: Tables, ev: Observation)
    requires ProcessesTell(h, db) && ev.process.None?
    ensures ProcessesTell(h + [ev], Observe(cfg, db, ev))
  {
    var r := Observe(cfg, db, ev);
    OpenedIsLocal(cfg, db, ev);
    assert r.pids == db.pids && r.processes == db.processes;
    hide Observe, Opened, ProcessTells;
    forall exe | exe in r.pids
      ensures ProcessTells(h + [ev], exe, r.processes[r.pids[exe]])
    {
      assert !By(ev, exe);
      assert SameSighting(db.processes[db.pids[exe]], r.processes[r.pids[exe]]);
      UnsightedRow(h, ev, exe, db.processes[db.pids[exe]], r.processes[r.pids[exe]]);
    }
  }

  /** PROCESSES. After any history the table tells each executable observed as the history does. */
  lemma {:induction false} ProcessesFollow(cfg: Config, h: History)
    ensures ProcessesTell(h, After(cfg, h))
  {
    hide Observe;
    if h != [] {
      var init, last := h[..|h| - 1], h[|h| - 1];
      assert After(cfg, h) == Observe(cfg, After(cfg, init), last) && h == init + [last];
      hide After, ProcessesTell, Numbered;
      ProcessesFollow(cfg, init);
      RunNumbered(cfg, init);
      if last.process.Some? {
        AttributedStep(cfg, init, After(cfg, init), last);
      } else {
        UnattributedStep(cfg, init, After(cfg, init), last);
      }
    }
  }
}
