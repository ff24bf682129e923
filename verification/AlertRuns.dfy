/** The alerts of a whole run, from its history alone. */
module AlertRuns {
  import opened Bytes
  import opened AlertTypes
  import opened AlertStore
  import opened AlertBaseline
  import opened DedupKeys
  import opened AlertEngine
  import opened AlertWrites
  import opened AlertFirings
  import opened AlertHistory
  import opened AlertIdentities
  import opened VolumeLaws

  /** Everything the tables remember, and nothing else. */
  ghost predicate Follows(cfg: Config, h: History, db: Tables) {
    && Noted(h, db) && LifecycleIs(cfg, h, db) && Spent(db)
    && VolumesFollow(cfg, h, db.pids, db.volumes) && IdentitiesFollow(h, db)
  }

  lemma UnattributedVolumes(cfg: Config, h: History, db: Tables, ev: Observation)
    requires VolumesFollow(cfg, h, db.pids, db.volumes) && ev.process.None?
    ensures VolumesFollow(cfg, h + [ev], db.pids, db.volumes)
  {
    hide FeedsOf, Replay;
    forall exe <- db.pids
      ensures RowOf(db.volumes, db.pids[exe]) == Replay(cfg, FeedsOf(h + [ev], exe)).0
    {
      FeedsGrow(h, ev, exe);
    }
  }

  lemma UnattributedIdentities(h: History, db: Tables, now: Tables, ev: Observation)
    requires IdentitiesFollow(h, db) && ev.process.None?
    requires now.pids == db.pids && now.processes == db.processes && now.identities == db.identities
    ensures IdentitiesFollow(h + [ev], now)
  {
    hide LatestKey, FirstWith, RowWith, CurrentOf;
    forall exe, key | exe in now.pids
      ensures RowFollows(h + [ev], now, exe, now.pids[exe], key)
    {
      assert RowFollows(h, db, exe, db.pids[exe], key);
      LatestGrows(h, ev, exe, key);
      SameRecords(db, now, db.pids[exe], key);
    }
    forall q: nat, key | q > |now.pids|
      ensures RowWith(now, q, key).None?
    {
      SameRecords(db, now, q, key);
    }
  }

  lemma UnattributedFollows(cfg: Config, h: History, db: Tables, ev: Observation)
    requires VolumesFollow(cfg, h, db.pids, db.volumes) && IdentitiesFollow(h, db) && Spent(db) && ev.process.None?
    ensures var r := Observe(cfg, db, ev);
      VolumesFollow(cfg, h + [ev], r.pids, r.volumes) && IdentitiesFollow(h + [ev], r) && Spent(r) && r.alerts == db.alerts
  {
    hide VolumesFollow, IdentitiesFollow, Spent, Opened;
    OpenedIsLocal(cfg, db, ev);
    SpentOpened(cfg, db, ev);
    UnattributedVolumes(cfg, h, db, ev);
    UnattributedIdentities(h, db, Observe(cfg, db, ev), ev);
  }

  lemma FollowsStep(cfg: Config, h: History, db: Tables, ev: Observation)
    requires Follows(cfg, h, db)
    ensures Follows(cfg, h + [ev], Observe(cfg, db, ev))
  {
    hide Noted, LifecycleIs, Spent, VolumesFollow, IdentitiesFollow, Observe;
    NotesStep(cfg, h, db, ev);
    NotedNumbers(h, db);
    hide ProcessesNoted;
    if ev.process.Some? {
      ObserveFires(cfg, db, ev);
      VolumesMore(cfg, h, db, ev);
      IdentitiesMore(cfg, h, db, ev);
    } else {
      UnattributedFollows(cfg, h, db, ev);
    }
  }

  /** The tables a history can have led to. */
  ghost function Consistent(cfg: Config, h: History): iset<Tables> {
    iset db: Tables | Follows(cfg, h, db)
  }

  lemma ConsistentStep(cfg: Config, h: History, db: Tables, ev: Observation)
    requires db in Consistent(cfg, h)
    ensures Observe(cfg, db, ev) in Consistent(cfg, h + [ev])
  {
    assert Follows(cfg, h, db) && Follows(cfg, h + [ev], Observe(cfg, db, ev)) by {
      hide Noted, LifecycleIs, Spent, VolumesFollow, IdentitiesFollow, Observe;
      FollowsStep(cfg, h, db, ev);
    }
    hide Follows;
  }

  lemma RunMore(cfg: Config, h: History, ev: Observation)
    requires After(cfg, h) in Consistent(cfg, h)
    ensures After(cfg, h + [ev]) in Consistent(cfg, h + [ev])
  {
    hide *;
    AfterMore(cfg, h, ev);
    ConsistentStep(cfg, h, After(cfg, h), ev);
  }

  lemma {:induction false} RunFollows(cfg: Config, h: History)
    ensures After(cfg, h) in Consistent(cfg, h)
  {
    if h == [] {
    } else {
      var init, last := h[..|h| - 1], h[|h| - 1];
      assert h == init + [last];
      RunFollows(cfg, init);
      hide *;
      RunMore(cfg, init, last);
    }
  }

  // ---------------------------------------------------------------- the alerts of one observation

  /** The alerts an attributed observation must raise, in order, given everything committed before it. */
  ghost function Expected(cfg: Config, h: History, ev: Observation, pid: nat, did: nat): seq<Alert>
    requires ev.process.Some?
  {
    var exe, active, stored := Exe(ev.process.value), WindowOver(cfg, h + [ev]), After(cfg, h).alerts;
    EgressPart(ev, exe, pid, did, active && exe !in Executables(h))
    + (IdentityPart(cfg, Baseline(h, exe), ev, exe, pid, did, active, stored)
       + DestPart(ev, pid, did, active && (exe, StableLabel(ev)) !in Contacts(h))
       + CountryPart(ev, pid, did, active && ev.geo.country.Some? && (exe, ev.geo.country.value) !in Countries(h))
       + AsnPart(ev, pid, did, active && ev.geo.asn.Some? && (exe, ev.geo.asn.value) !in Networks(h)))
    + VolumePart(cfg, Replay(cfg, FeedsOf(h, exe)).0, ev, pid, did, active, stored)
  }

  lemma MarkBefore<T(!new)>(pids: map<string, nat>, marks: set<(nat, T)>, seen: set<(string, T)>, exe: string, x: T)
    requires Distinct(pids) && Records(pids, marks, seen)
    ensures (PidAfter(pids, exe), x) in marks <==> (exe, x) in seen
  {
    if exe !in pids {
      assert |pids| + 1 !in pids.Values;
      assert forall m <- marks :: m != (|pids| + 1, x);
    }
  }

  /** The conditions of each signal, in terms of the history. */
  lemma PartsFollow(cfg: Config, h: History, db: Tables, ev: Observation, did: nat)
    requires ev.process.Some? && Follows(cfg, h, db) && db.alerts == After(cfg, h).alerts
    ensures var exe := Exe(ev.process.value);
      Parts(cfg, db, ev, exe, did, WindowOver(cfg, h + [ev])) == Expected(cfg, h, ev, PidAfter(db.pids, exe), did)
  {
    hide Spent, LifecycleIs, WindowOver, Numbered, Records, Distinct, Contacts, Countries, Networks, Executables, After,
      Exe, StableLabel, Replay, FeedsOf, VolumesFollow, IdentitiesFollow, CurrentIdentity, Baseline, StatOf, PidAfter,
      EgressPart, IdentityPart, DestPart, CountryPart, AsnPart, VolumePart;
    var exe := Exe(ev.process.value);
    NumberedIds(db);
    MarkBefore(db.pids, db.labels, Contacts(h), exe, StableLabel(ev));
    if ev.geo.country.Some? {
      MarkBefore(db.pids, db.countries, Countries(h), exe, ev.geo.country.value);
    }
    if ev.geo.asn.Some? {
      MarkBefore(db.pids, db.asns, Networks(h), exe, ev.geo.asn.value);
    }
    RowBefore(cfg, h, db, exe);
    BaselineIsFirstSighting(h, db, exe);
  }

  /**
   The alerts of every run. An attributed observation stores exactly what its history calls for:
   a first egress, label, country or network fires if and only if the learning window is over, the
   flow is outbound and no earlier observation of the same executable had it, cooldown or not.
   */
  lemma AlertsFollowHistory(cfg: Config, h: History, ev: Observation)
    ensures var was, now := After(cfg, h), After(cfg, h + [ev]);
      if ev.process.None? then now.alerts == was.alerts else
      && Exe(ev.process.value) in now.pids
      && now.alerts == was.alerts + Expected(cfg, h, ev, now.pids[Exe(ev.process.value)], DestId(now, ev))
  {
    var db := After(cfg, h);
    RunFollows(cfg, h);
    AfterMore(cfg, h, ev);
    assert Follows(cfg, h, db);
    hide Spent, VolumesFollow, IdentitiesFollow, LifecycleIs, Observe, Opened, Expected, Parts, After, WindowOver, Exe, PidAfter,
      LabelsNoted, CountriesNoted, NetworksNoted, Executables, Numbered, Fed, StatOf, StableLabel;
    if ev.process.None? {
      UnattributedFollows(cfg, h, db, ev);
    } else {
      LifecycleMore(cfg, h, db, ev);
      ObserveFires(cfg, db, ev);
      NoveltyWrites(cfg, db, ev);
      VolumesWrite(cfg, db, ev);
      PartsFollow(cfg, h, db, ev, DestId(Opened(cfg, db, ev), ev));
    }
  }

  predicate Raises(alerts: seq<Alert>, kind: Kind) {
    exists a <- alerts :: a.kind == kind
  }

  lemma ExpectedDest(cfg: Config, h: History, ev: Observation, pid: nat, did: nat)
    requires ev.process.Some?
    ensures Raises(Expected(cfg, h, ev, pid, did), NewProcessDest)
       <==> ev.outbound && WindowOver(cfg, h + [ev]) && (Exe(ev.process.value), StableLabel(ev)) !in Contacts(h)
  {
    hide After, WindowOver, IsSpike, Fed, Cooling, Baseline, ChangedSince, Exe, StableLabel, Replay, FeedsOf, SpikeSeverity,
      Contacts, Countries, Networks, Executables, DestKey, CountryKey, AsnKey, EgressKey, VolumeKey;
    var novel := WindowOver(cfg, h + [ev]) && (Exe(ev.process.value), StableLabel(ev)) !in Contacts(h);
    if novel && ev.outbound {
      assert DestPart(ev, pid, did, novel)[0] in Expected(cfg, h, ev, pid, did);
    }
  }

  /** A new-destination alert fires exactly on the first contact after the learning window. */
  lemma NewDestinationFires(cfg: Config, h: History, ev: Observation)
    ensures var was, now := After(cfg, h).alerts, After(cfg, h + [ev]).alerts;
      && was <= now
      && (Raises(now[|was|..], NewProcessDest) <==>
          && ev.process.Some? && ev.outbound && WindowOver(cfg, h + [ev])
          && (Exe(ev.process.value), StableLabel(ev)) !in Contacts(h))
  {
    AlertsFollowHistory(cfg, h, ev);
    if ev.process.Some? {
      hide After, Expected, Exe, StableLabel, Contacts, Raises, DestId, WindowOver;
      var was, now := After(cfg, h), After(cfg, h + [ev]);
      var pid, did := now.pids[Exe(ev.process.value)], DestId(now, ev);
      ExpectedDest(cfg, h, ev, pid, did);
      assert now.alerts[|was.alerts|..] == Expected(cfg, h, ev, pid, did);
    }
  }

  // ---------------------------------------------------------------- what follows for whole runs

  lemma WindowStaysOver(cfg: Config, h: History, ev: Observation)
    requires WindowOver(cfg, h)
    ensures WindowOver(cfg, h + [ev])
  {
    var i :| 0 <= i < |h| && h[i].ts >= Saturate(h[0].ts + cfg.learningWindow);
    assert (h + [ev])[i] == h[i];
  }

  /** Learning ends exactly when an observation comes at or after the window's end, and never resumes. */
  lemma LearningEndsOnce(cfg: Config, h: History, more: History)
    ensures IsActive(After(cfg, h)) <==> WindowOver(cfg, h)
    ensures IsActive(After(cfg, h)) ==> IsActive(After(cfg, h + more))
  {
    RunFollows(cfg, h);
    RunFollows(cfg, h + more);
    if WindowOver(cfg, h) {
      var i :| 0 <= i < |h| && h[i].ts >= Saturate(h[0].ts + cfg.learningWindow);
      assert (h + more)[i] == h[i] && (h + more)[0] == h[0];
    }
  }

  /** Nothing is ever stored while learning. */
  lemma {:induction false} LearningIsSilent(cfg: Config, h: History)
    requires !WindowOver(cfg, h)
    ensures After(cfg, h).alerts == []
  {
    if h == [] {
    } else {
      var init, last := h[..|h| - 1], h[|h| - 1];
      assert h == init + [last];
      hide After, WindowOver, IsSpike, Fed, Cooling, Baseline, ChangedSince, Exe, StableLabel;
      if WindowOver(cfg, init) {
        WindowStaysOver(cfg, init, last);
      }
      LearningIsSilent(cfg, init);
      AlertsFollowHistory(cfg, init, last);
    }
  }

  lemma EmittedSeparates(cfg: Config, was: Tables, marked: Tables, a: Alert, wanted: bool)
    requires Separated(was.alerts, cfg.cooldown) && marked.alerts == was.alerts
    ensures Separated(Emitted(cfg, marked, a, wanted).alerts, cfg.cooldown)
  {
    hide Separated, Cooling;
    InsertSeparates(marked, a, cfg.cooldown);
  }

  /** A stage stores at most one alert, through the cooldown. */
  ghost predicate Emits(cfg: Config, was: Tables, now: Tables) {
    exists marked: Tables, a, wanted :: marked.alerts == was.alerts && now == Emitted(cfg, marked, a, wanted)
  }

  lemma EmitsSeparates(cfg: Config, was: Tables, now: Tables)
    requires Emits(cfg, was, now) && Separated(was.alerts, cfg.cooldown)
    ensures Separated(now.alerts, cfg.cooldown)
  {
    hide Separated, Emitted;
    var marked: Tables, a, wanted :| marked.alerts == was.alerts && now == Emitted(cfg, marked, a, wanted);
    EmittedSeparates(cfg, was, marked, a, wanted);
  }

  lemma EarlyEmits(cfg: Config, db: Tables, ev: Observation, exe: string, pid: nat)
    requires pid in db.processes
    ensures Emits(cfg, db, IdentityStage(cfg, db, ev, exe, pid))
    ensures Emits(cfg, db, LabelStage(cfg, db, ev, pid))
  {
    hide WithAlert, ChangedSince, CurrentIdentity, StableLabel;
    var dest := StableLabel(ev);
    assert LabelStage(cfg, db, ev, pid) == Emitted(cfg, db.(labels := db.labels + {(pid, dest)}),
      AlertFor(NewProcessDest, Notice, db, ev, pid, DestKey(pid, dest)), IsActive(db) && (pid, dest) !in db.labels && ev.outbound);
    if ev.identity.None? {
      QuietEmits(cfg, db, db);
    } else {
      var ident, base := ev.identity.value, CurrentIdentity(db, pid);
      assert IdentityStage(cfg, db, ev, exe, pid) == Emitted(cfg, WithIdentity(db, pid, ident),
        AlertFor(IdentityChange, Critical, db, ev, pid, IdentityKey(exe, ident.value)),
        IsActive(db) && ev.outbound && base.Some? && ChangedSince(base.value, ident, cfg.flagSignedUpdates));
    }
  }

  lemma QuietEmits(cfg: Config, was: Tables, now: Tables)
    requires now.alerts == was.alerts
    ensures Emits(cfg, was, now)
  {
    hide WithAlert;
    assert now == Emitted(cfg, now, Alert(NewGeo, Notice, 0, 0, 0, ""), false);
  }

  lemma CountryEmits(cfg: Config, db: Tables, ev: Observation, pid: nat)
    ensures Emits(cfg, db, CountryStage(cfg, db, ev, pid))
  {
    hide WithAlert;
    QuietEmits(cfg, db, db);
    if ev.geo.country.Some? {
      var cc := ev.geo.country.value;
      assert CountryStage(cfg, db, ev, pid) == Emitted(cfg, db.(countries := db.countries + {(pid, cc)}),
        AlertFor(NewGeo, Notice, db, ev, pid, CountryKey(pid, cc)), IsActive(db) && (pid, cc) !in db.countries && ev.outbound);
    }
  }

  lemma AsnEmits(cfg: Config, db: Tables, ev: Observation, pid: nat)
    ensures Emits(cfg, db, AsnStage(cfg, db, ev, pid))
  {
    hide WithAlert;
    QuietEmits(cfg, db, db);
    if ev.geo.asn.Some? {
      var asn := ev.geo.asn.value;
      assert AsnStage(cfg, db, ev, pid) == Emitted(cfg, db.(asns := db.asns + {(pid, asn)}),
        AlertFor(NewGeo, Notice, db, ev, pid, AsnKey(pid, asn)), IsActive(db) && (pid, asn) !in db.asns && ev.outbound);
    }
  }

  lemma VolumeEmits(cfg: Config, db: Tables, ev: Observation, pid: nat)
    ensures Emits(cfg, db, VolumeStage(cfg, db, ev, pid))
  {
    hide WithAlert, Fed, IsSpike;
    var (v, sample) := Fed(cfg, StatOf(db, pid), ev.bytesUp, ev.ts);
    var fed := db.(volumes := db.volumes[pid := v]);
    QuietEmits(cfg, db, fed);
    if sample.Some? {
      assert VolumeStage(cfg, db, ev, pid) == Emitted(cfg, fed,
        AlertFor(VolumeSpike, SpikeSeverity(sample.value), db, ev, pid, VolumeKey(pid)), IsActive(db) && IsSpike(cfg, sample.value));
    }
  }

  lemma SignalsSeparate(cfg: Config, db: Tables, ev: Observation, exe: string, pid: nat)
    requires pid in db.processes && Separated(db.alerts, cfg.cooldown)
    ensures Separated(Signals(cfg, db, ev, exe, pid).alerts, cfg.cooldown)
  {
    IdentityWrites(cfg, db, ev, exe, pid);
    hide Separated, Emits, IdentityStage, LabelStage, CountryStage, AsnStage, VolumeStage;
    var d2 := IdentityStage(cfg, db, ev, exe, pid);
    EarlyEmits(cfg, db, ev, exe, pid);
    EmitsSeparates(cfg, db, d2);
    var d3 := LabelStage(cfg, d2, ev, pid);
    EarlyEmits(cfg, d2, ev, exe, pid);
    EmitsSeparates(cfg, d2, d3);
    var d4 := CountryStage(cfg, d3, ev, pid);
    CountryEmits(cfg, d3, ev, pid);
    EmitsSeparates(cfg, d3, d4);
    var d5 := AsnStage(cfg, d4, ev, pid);
    AsnEmits(cfg, d4, ev, pid);
    EmitsSeparates(cfg, d4, d5);
    VolumeEmits(cfg, d5, ev, pid);
    EmitsSeparates(cfg, d5, VolumeStage(cfg, d5, ev, pid));
  }

  /** However the clock moves, two stored alerts with one key are at least a cooldown apart. */
  lemma {:induction false} CooldownSeparates(cfg: Config, h: History)
    ensures Separated(After(cfg, h).alerts, cfg.cooldown)
  {
    if h == [] {
    } else {
      var db, ev := After(cfg, h[..|h| - 1]), h[|h| - 1];
      CooldownSeparates(cfg, h[..|h| - 1]);
      OpenedIsLocal(cfg, db, ev);
      hide Separated, Opened, EgressStage, Signals;
      if ev.process.Some? {
        var known := EgressStage(cfg, Opened(cfg, db, ev), ev, ev.process.value);
        EmitsSeparates(cfg, Opened(cfg, db, ev), known);
        SignalsSeparate(cfg, known, ev, Exe(ev.process.value), known.pids[Exe(ev.process.value)]);
      }
    }
  }

  /**
   The interval an observation closes: every byte not yet in a sample, judged against the
   exponentially weighted statistics of all the samples before it.
   */
  lemma SpikesAreJudgedOnHistory(cfg: Config, feeds: seq<Feed>, feed: Feed)
    ensures var closed := Replay(cfg, feeds).1;
      var s := Fed(cfg, Replay(cfg, feeds).0, feed.0, feed.1).1;
      s.Some? ==>
        && s.value.samples == |closed| + 1
        && s.value.x == BytesFed(feeds + [feed]) as real - Total(Values(closed))
        && Summarizes(cfg.alpha, s.value.mean, s.value.variance, Values(closed))
  {
    var all, closed := feeds + [feed], Replay(cfg, feeds).1;
    assert all[..|feeds|] == feeds;
    hide Summarizes;
    if feeds == [] {
      EmptySummary(cfg.alpha);
    } else {
      StatisticsAreWeighted(cfg, feeds);
      BytesConserved(cfg, feeds);
    }
  }
}
