/** Which alerts fire, stated over the whole history of committed observations. */
module AlertHistory {
  import opened Bytes
  import opened AlertTypes
  import opened AlertStore
  import opened AlertBaseline
  import opened DedupKeys
  import opened AlertEngine
  import opened AlertWrites
  import opened AlertFirings
  import opened VolumeLaws

  type History = seq<Observation>

  /** The tables after a fresh store has committed these observations. */
  function After(cfg: Config, h: History): Tables {
    if h == [] then FRESH else Observe(cfg, After(cfg, h[..|h| - 1]), h[|h| - 1])
  }

  lemma AfterMore(cfg: Config, h: History, ev: Observation)
    ensures After(cfg, h + [ev]) == Observe(cfg, After(cfg, h), ev)
  {
    assert (h + [ev])[..|h|] == h;
  }

  // ---------------------------------------------------------------- what history says

  /** Some observation came at or after the end of the learning window the first one opened. */
  ghost predicate WindowOver(cfg: Config, h: History) {
    exists i :: 0 <= i < |h| && h[i].ts >= Saturate(h[0].ts + cfg.learningWindow)
  }

  ghost function Executables(h: History): set<string> {
    set ev | ev in h && ev.process.Some? :: Exe(ev.process.value)
  }

  ghost function Contacts(h: History): set<(string, string)> {
    set ev | ev in h && ev.process.Some? :: (Exe(ev.process.value), StableLabel(ev))
  }

  ghost function Countries(h: History): set<(string, string)> {
    set ev | ev in h && ev.process.Some? && ev.geo.country.Some? :: (Exe(ev.process.value), ev.geo.country.value)
  }

  ghost function Networks(h: History): set<(string, nat)> {
    set ev | ev in h && ev.process.Some? && ev.geo.asn.Some? :: (Exe(ev.process.value), ev.geo.asn.value)
  }

  predicate By(ev: Observation, exe: string) {
    ev.process.Some? && Exe(ev.process.value) == exe
  }

  function FeedsOf(h: History, exe: string): seq<Feed> {
    if h == [] then [] else
    var last := h[|h| - 1];
    FeedsOf(h[..|h| - 1], exe) + if By(last, exe) then [(last.bytesUp, last.ts as int)] else []
  }

  // ---------------------------------------------------------------- the lifecycle

  ghost predicate LifecycleIs(cfg: Config, h: History, db: Tables) {
    if h == [] then db.lifecycle == None else
    && db.lifecycle.Some? && db.learningStarted == Some(h[0].ts)
    && db.learningEnds == Some(Saturate(h[0].ts + cfg.learningWindow))
    && (IsActive(db) <==> WindowOver(cfg, h))
  }

  lemma StartedFollows(cfg: Config, h: History, db: Tables, ev: Observation)
    requires LifecycleIs(cfg, h, db)
    ensures LifecycleIs(cfg, h + [ev], Started(cfg, db, ev.ts))
  {
    var all := h + [ev];
    assert all[0] == if h == [] then ev else h[0];
    assert WindowOver(cfg, all) <==> WindowOver(cfg, h) || ev.ts >= Saturate(all[0].ts + cfg.learningWindow) by {
      if WindowOver(cfg, h) {
        var i :| 0 <= i < |h| && h[i].ts >= Saturate(h[0].ts + cfg.learningWindow);
        assert all[i].ts >= Saturate(all[0].ts + cfg.learningWindow);
      }
      assert all[|h|] == ev;
    }
  }

  /** Only the lifecycle part of the tables matters to the lifecycle. */
  lemma SameLifecycle(cfg: Config, h: History, a: Tables, b: Tables)
    requires LifecycleIs(cfg, h, a)
    requires b.lifecycle == a.lifecycle && b.learningStarted == a.learningStarted && b.learningEnds == a.learningEnds
    ensures LifecycleIs(cfg, h, b)
  {
  }

  /** What each table remembers of the history. */
  ghost predicate Records<T(!new)>(pids: map<string, nat>, marks: set<(nat, T)>, seen: set<(string, T)>) {
    && (forall exe, x :: exe in pids ==> ((pids[exe], x) in marks <==> (exe, x) in seen))
    && (forall m <- marks :: m.0 in pids.Values)
    && (forall s <- seen :: s.0 in pids)
  }

  lemma ProcessAdded<T(!new)>(pids: map<string, nat>, marks: set<(nat, T)>, seen: set<(string, T)>, exe: string)
    requires Distinct(pids) && Records(pids, marks, seen)
    ensures Records(pids[exe := PidAfter(pids, exe)], marks, seen)
  {
    var now := pids[exe := PidAfter(pids, exe)];
    if exe in pids {
      assert now == pids;
    } else {
      assert |pids| + 1 !in pids.Values;
      forall m | m in marks
        ensures m.0 in now.Values
      {
        var k :| k in pids && pids[k] == m.0;
        assert now[k] == m.0;
      }
    }
  }

  lemma MarkAdded<T(!new)>(pids: map<string, nat>, marks: set<(nat, T)>, seen: set<(string, T)>, exe: string, x: Option<T>)
    requires Distinct(pids) && Records(pids, marks, seen)
    ensures var pid := PidAfter(pids, exe);
      Records(pids[exe := pid], marks + (if x.Some? then {(pid, x.value)} else {}),
              seen + (if x.Some? then {(exe, x.value)} else {}))
  {
    ProcessAdded(pids, marks, seen, exe);
    var pid := PidAfter(pids, exe);
    var now := pids[exe := pid];
    if x.Some? {
      assert now[exe] in now.Values;
      if exe !in pids {
        NextIdIsFresh(pids, exe);
      } else {
        assert now == pids;
      }
    } else {
      NoMore(marks);
      NoMore(seen);
    }
  }

  lemma NoMore<T>(s: set<T>)
    ensures s + {} == s
  {
  }

  ghost predicate LabelsNoted(h: History, db: Tables) {
    Records(db.pids, db.labels, Contacts(h))
  }

  ghost predicate CountriesNoted(h: History, db: Tables) {
    Records(db.pids, db.countries, Countries(h))
  }

  ghost predicate NetworksNoted(h: History, db: Tables) {
    Records(db.pids, db.asns, Networks(h))
  }

  ghost predicate ProcessesNoted(h: History, db: Tables) {
    Numbered(db) && db.pids.Keys == Executables(h)
  }

  /** The processes and the three novelty tables, as the history determines them. */
  ghost predicate Noted(h: History, db: Tables) {
    ProcessesNoted(h, db) && LabelsNoted(h, db) && CountriesNoted(h, db) && NetworksNoted(h, db)
  }

  lemma HistoryGrows(h: History, ev: Observation)
    ensures var all := h + [ev];
      && (ev.process.None? ==>
          Executables(all) == Executables(h) && Contacts(all) == Contacts(h)
          && Countries(all) == Countries(h) && Networks(all) == Networks(h))
      && (ev.process.Some? ==>
          var exe := Exe(ev.process.value);
          && Executables(all) == Executables(h) + {exe}
          && Contacts(all) == Contacts(h) + {(exe, StableLabel(ev))}
          && Countries(all) == Countries(h) + (if ev.geo.country.Some? then {(exe, ev.geo.country.value)} else {})
          && Networks(all) == Networks(h) + (if ev.geo.asn.Some? then {(exe, ev.geo.asn.value)} else {}))
  {
    hide Exe, StableLabel;
    assert forall e :: e in h + [ev] <==> e in h || e == ev;
    assert ev in h + [ev];
  }

  lemma LifecycleMore(cfg: Config, h: History, db: Tables, ev: Observation)
    requires Numbered(db) && LifecycleIs(cfg, h, db)
    ensures LifecycleIs(cfg, h + [ev], Opened(cfg, db, ev)) && LifecycleIs(cfg, h + [ev], Observe(cfg, db, ev))
  {
    hide Numbered, LifecycleIs;
    StartedFollows(cfg, h, db, ev);
    SameLifecycle(cfg, h + [ev], Started(cfg, db, ev.ts), Opened(cfg, db, ev));
    if ev.process.Some? {
      VolumesWrite(cfg, db, ev);
      hide Observe, Opened;
      SameLifecycle(cfg, h + [ev], Opened(cfg, db, ev), Observe(cfg, db, ev));
    }
  }

  lemma LabelsMore(h: History, db: Tables, cfg: Config, ev: Observation)
    requires Numbered(db) && LabelsNoted(h, db) && ev.process.Some?
    ensures LabelsNoted(h + [ev], Observe(cfg, db, ev))
  {
    hide Records, Numbered, Distinct, Observe, Exe, StableLabel, PidAfter, Executables, Contacts, Countries, Networks;
    HistoryGrows(h, ev);
    NoveltyWrites(cfg, db, ev);
    NumberedIds(db);
    MarkAdded(db.pids, db.labels, Contacts(h), Exe(ev.process.value), Some(StableLabel(ev)));
  }

  lemma CountriesMore(h: History, db: Tables, cfg: Config, ev: Observation)
    requires Numbered(db) && CountriesNoted(h, db) && ev.process.Some?
    ensures CountriesNoted(h + [ev], Observe(cfg, db, ev))
  {
    hide Records, Numbered, Distinct, Observe, Exe, StableLabel, PidAfter, Executables, Contacts, Countries, Networks;
    HistoryGrows(h, ev);
    NoveltyWrites(cfg, db, ev);
    NumberedIds(db);
    MarkAdded(db.pids, db.countries, Countries(h), Exe(ev.process.value), ev.geo.country);
  }

  lemma NetworksMore(h: History, db: Tables, cfg: Config, ev: Observation)
    requires Numbered(db) && NetworksNoted(h, db) && ev.process.Some?
    ensures NetworksNoted(h + [ev], Observe(cfg, db, ev))
  {
    hide Records, Numbered, Distinct, Observe, Exe, StableLabel, PidAfter, Executables, Contacts, Countries, Networks;
    HistoryGrows(h, ev);
    NoveltyWrites(cfg, db, ev);
    NumberedIds(db);
    MarkAdded(db.pids, db.asns, Networks(h), Exe(ev.process.value), ev.geo.asn);
  }

  lemma NotedMore(h: History, db: Tables, cfg: Config, ev: Observation)
    requires Noted(h, db) && ev.process.Some?
    ensures Noted(h + [ev], Observe(cfg, db, ev))
  {
    hide Numbered, Observe, Executables, LabelsNoted, CountriesNoted, NetworksNoted, Exe, PidAfter, StableLabel;
    LabelsMore(h, db, cfg, ev);
    CountriesMore(h, db, cfg, ev);
    NetworksMore(h, db, cfg, ev);
    HistoryGrows(h, ev);
    NoveltyWrites(cfg, db, ev);
  }

  lemma NumberedIds(db: Tables)
    requires Numbered(db)
    ensures Distinct(db.pids)
  {
  }

  lemma NotedUnattributed(h: History, db: Tables, cfg: Config, ev: Observation)
    requires Noted(h, db) && ev.process.None?
    ensures Noted(h + [ev], Observe(cfg, db, ev))
  {
    OpenedIsLocal(cfg, db, ev);
    OpenedKeeps(cfg, db, ev);
    HistoryGrows(h, ev);
    hide Records, Numbered, Opened, Executables, Contacts, Countries, Networks;
  }

  lemma NotesStep(cfg: Config, h: History, db: Tables, ev: Observation)
    requires Noted(h, db) && LifecycleIs(cfg, h, db)
    ensures Noted(h + [ev], Observe(cfg, db, ev)) && LifecycleIs(cfg, h + [ev], Observe(cfg, db, ev))
  {
    hide Noted, LifecycleIs, Observe;
    NotedNumbers(h, db);
    LifecycleMore(cfg, h, db, ev);
    if ev.process.Some? {
      NotedMore(h, db, cfg, ev);
    } else {
      NotedUnattributed(h, db, cfg, ev);
    }
  }

  lemma NotedNumbers(h: History, db: Tables)
    requires Noted(h, db)
    ensures Numbered(db) && ProcessesNoted(h, db)
  {
  }

  // ---------------------------------------------------------------- the volume rows

  function RowOf(volumes: map<nat, VolumeStat>, pid: nat): Option<VolumeStat> {
    if pid in volumes then Some(volumes[pid]) else None
  }

  /** Every row is the replay of what its process fed it. */
  ghost predicate VolumesFollow(cfg: Config, h: History, pids: map<string, nat>, volumes: map<nat, VolumeStat>) {
    && (forall exe <- pids :: RowOf(volumes, pids[exe]) == Replay(cfg, FeedsOf(h, exe)).0)
    && volumes.Keys <= pids.Values
  }

  lemma {:induction false} UnseenIsSilent(h: History, exe: string)
    requires exe !in Executables(h)
    ensures FeedsOf(h, exe) == []
  {
    if h != [] {
      var n := |h| - 1;
      HistoryGrows(h[..n], h[n]);
      assert h == h[..n] + [h[n]];
      UnseenIsSilent(h[..n], exe);
    }
  }

  lemma FeedsGrow(h: History, ev: Observation, exe: string)
    ensures By(ev, exe) ==> FeedsOf(h + [ev], exe) == FeedsOf(h, exe) + [(ev.bytesUp, ev.ts as int)]
    ensures !By(ev, exe) ==> FeedsOf(h + [ev], exe) == FeedsOf(h, exe)
  {
    assert (h + [ev])[..|h|] == h;
    assert FeedsOf(h, exe) + [] == FeedsOf(h, exe);
  }

  /** The row an observation will find, whether or not the process is known. */
  lemma RowBefore(cfg: Config, h: History, db: Tables, exe: string)
    requires ProcessesNoted(h, db) && VolumesFollow(cfg, h, db.pids, db.volumes)
    ensures StatOf(db, PidAfter(db.pids, exe)) == Replay(cfg, FeedsOf(h, exe)).0
  {
    hide Replay, Executables;
    if exe !in db.pids {
      UnseenIsSilent(h, exe);
      assert |db.pids| + 1 !in db.pids.Values;
      assert Replay(cfg, []).0 == None by { EmptyReplay(cfg); }
    } else {
      assert RowOf(db.volumes, db.pids[exe]) == StatOf(db, db.pids[exe]);
    }
  }

  lemma EmptyReplay(cfg: Config)
    ensures Replay(cfg, []) == (None, [])
  {
  }

  lemma RowAdded(cfg: Config, h: History, pids: map<string, nat>, volumes: map<nat, VolumeStat>, ev: Observation, exe: string,
                 v: VolumeStat)
    requires Distinct(pids) && VolumesFollow(cfg, h, pids, volumes)
    requires By(ev, exe) && Replay(cfg, FeedsOf(h + [ev], exe)).0 == Some(v)
    ensures var pid := PidAfter(pids, exe);
      VolumesFollow(cfg, h + [ev], pids[exe := pid], volumes[pid := v])
  {
    hide Replay, FeedsOf, Distinct;
    var pid := PidAfter(pids, exe);
    var now := pids[exe := pid];
    forall other <- now
      ensures RowOf(volumes[pid := v], now[other]) == Replay(cfg, FeedsOf(h + [ev], other)).0
    {
      FeedsGrow(h, ev, other);
      OtherIds(pids, exe, other);
    }
    OwnersAdded(pids, volumes.Keys, exe);
  }

  lemma OtherIds(pids: map<string, nat>, exe: string, other: string)
    requires Distinct(pids)
    ensures other in pids && other != exe ==> pids[other] != PidAfter(pids, exe)
  {
  }

  lemma OwnersAdded(pids: map<string, nat>, owners: set<nat>, exe: string)
    requires owners <= pids.Values
    ensures var pid := PidAfter(pids, exe); owners + {pid} <= pids[exe := pid].Values
  {
    if exe in pids {
      assert pids == pids[exe := pids[exe]];
      assert pids[exe] in pids.Values;
    } else {
      ValuesGrow(pids, exe, |pids| + 1);
    }
  }

  lemma VolumesMore(cfg: Config, h: History, db: Tables, ev: Observation)
    requires ProcessesNoted(h, db) && VolumesFollow(cfg, h, db.pids, db.volumes) && ev.process.Some?
    ensures VolumesFollow(cfg, h + [ev], Observe(cfg, db, ev).pids, Observe(cfg, db, ev).volumes)
  {
    var exe := Exe(ev.process.value);
    hide VolumesFollow, Observe, Opened, Fed, Replay, Exe, PidAfter, Executables, Distinct, FeedsOf, StableLabel;
    NoveltyWrites(cfg, db, ev);
    VolumesWrite(cfg, db, ev);
    RowBefore(cfg, h, db, exe);
    FeedsGrow(h, ev, exe);
    RowAdded(cfg, h, db.pids, db.volumes, ev, exe, Fed(cfg, StatOf(db, PidAfter(db.pids, exe)), ev.bytesUp, ev.ts).0);
  }
}
