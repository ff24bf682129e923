/** Stage by stage, which alerts are stored: a novelty alert is never held back by the cooldown. */
module AlertFirings {
  import opened Bytes
  import opened AlertTypes
  import opened AlertStore
  import opened AlertBaseline
  import opened Decimals
  import opened DedupKeys
  import opened AlertEngine
  import opened AlertWrites

  /** A novelty key names something the tables already hold. */
  ghost predicate KeyUsed(db: Tables, key: string) {
    && (forall pid: nat, dest :: key == DestKey(pid, dest) ==> (pid, dest) in db.labels)
    && (forall pid: nat, cc :: key == CountryKey(pid, cc) ==> (pid, cc) in db.countries)
    && (forall pid: nat, asn: nat :: key == AsnKey(pid, asn) ==> (pid, asn) in db.asns)
    && (forall exe :: key == EgressKey(exe) ==> exe in db.pids)
  }

  ghost predicate Spent(db: Tables) {
    forall a <- db.alerts :: KeyUsed(db, a.dedupKey)
  }

  /** Tables only ever gain novelty rows. */
  ghost predicate Grown(was: Tables, now: Tables) {
    && was.labels <= now.labels && was.countries <= now.countries && was.asns <= now.asns
    && was.pids.Keys <= now.pids.Keys && was.alerts == now.alerts
  }

  function One(a: Alert, wanted: bool): seq<Alert> {
    if wanted then [a] else []
  }

  lemma SpentGrows(was: Tables, now: Tables)
    requires Spent(was) && Grown(was, now)
    ensures Spent(now)
  {
    forall a | a in now.alerts
      ensures KeyUsed(now, a.dedupKey)
    {
      assert KeyUsed(was, a.dedupKey);
    }
  }

  lemma EmitSpends(cfg: Config, db: Tables, a: Alert, wanted: bool)
    requires Spent(db) && KeyUsed(db, a.dedupKey)
    ensures Spent(Emitted(cfg, db, a, wanted))
  {
    var r := Emitted(cfg, db, a, wanted);
    forall b | b in r.alerts
      ensures KeyUsed(r, b.dedupKey)
    {
      assert KeyUsed(db, b.dedupKey);
    }
  }

  lemma EmitStores(cfg: Config, db: Tables, a: Alert, wanted: bool)
    ensures Emitted(cfg, db, a, wanted).alerts
         == db.alerts + One(a, wanted && !Cooling(db.alerts, a.dedupKey, a.ts, cfg.cooldown))
  {
    assert db.alerts + [] == db.alerts;
  }

  /** A key no stored alert carries cannot be cooling. */
  lemma UnusedIsReady(db: Tables, now: Tables, key: string, ts: int, cooldown: int)
    requires Spent(db) && !KeyUsed(db, key) && now.alerts == db.alerts
    ensures !Cooling(now.alerts, key, ts, cooldown)
  {
    hide KeyUsed;
  }

  // ---------------------------------------------------------------- keys of each signal

  lemma DestUses(db: Tables, pid: nat, dest: string)
    ensures KeyUsed(db, DestKey(pid, dest)) <==> (pid, dest) in db.labels
  {
    hide Decimal;
    var key := DestKey(pid, dest);
    assert key[0] == 'd';
    forall p: nat, d | key == DestKey(p, d)
      ensures p == pid && d == dest
    {
      DestKeyUnique(p, d, pid, dest);
    }
  }

  lemma CountryUses(db: Tables, pid: nat, cc: string)
    ensures KeyUsed(db, CountryKey(pid, cc)) <==> (pid, cc) in db.countries
  {
    hide Decimal;
    var key := CountryKey(pid, cc);
    assert key[0] == 'g';
    forall p: nat, c | key == CountryKey(p, c)
      ensures p == pid && c == cc
    {
      CountryKeyUnique(p, c, pid, cc);
    }
    forall p: nat, asn: nat
      ensures key != AsnKey(p, asn)
    {
      GeoKeysApart(pid, cc, p, asn);
    }
  }

  lemma AsnUses(db: Tables, pid: nat, asn: nat)
    ensures KeyUsed(db, AsnKey(pid, asn)) <==> (pid, asn) in db.asns
  {
    hide Decimal;
    var key := AsnKey(pid, asn);
    assert key[0] == 'g';
    forall p: nat, n: nat | key == AsnKey(p, n)
      ensures p == pid && n == asn
    {
      AsnKeyUnique(p, n, pid, asn);
    }
    forall p: nat, cc
      ensures key != CountryKey(p, cc)
    {
      GeoKeysApart(p, cc, pid, asn);
    }
  }

  lemma EgressUses(db: Tables, exe: string)
    ensures KeyUsed(db, EgressKey(exe)) <==> exe in db.pids
  {
    hide Decimal;
    var key := EgressKey(exe);
    assert key[0] == 'e';
    forall other | key == EgressKey(other)
      ensures other == exe
    {
      EgressKeyUnique(other, exe);
    }
  }

  lemma OtherKeysUse(db: Tables, exe: string, value: string, pid: nat)
    ensures KeyUsed(db, IdentityKey(exe, value)) && KeyUsed(db, VolumeKey(pid))
  {
    hide Decimal;
    assert IdentityKey(exe, value)[0] == 'i';
    assert VolumeKey(pid)[0] == 'v';
  }

  // ---------------------------------------------------------------- what each signal raises

  /** At most one alert about this observation. */
  function Raise(kind: Kind, severity: Severity, ev: Observation, pid: nat, did: nat, key: string, wanted: bool): seq<Alert> {
    One(Alert(kind, severity, ev.ts, pid, did, key), wanted)
  }

  function EgressPart(ev: Observation, exe: string, pid: nat, did: nat, novel: bool): seq<Alert> {
    Raise(NewProcessEgress, Warning, ev, pid, did, EgressKey(exe), novel && ev.outbound)
  }

  function IdentityPart(cfg: Config, base: Option<Identity>, ev: Observation, exe: string, pid: nat, did: nat,
                        active: bool, stored: seq<Alert>): seq<Alert>
  {
    if ev.identity.None? then [] else
    var (ident, key) := (ev.identity.value, IdentityKey(exe, ev.identity.value.value));
    Raise(IdentityChange, Critical, ev, pid, did, key,
          && active && ev.outbound && base.Some? && ChangedSince(base.value, ident, cfg.flagSignedUpdates)
          && !Cooling(stored, key, ev.ts, cfg.cooldown))
  }

  function DestPart(ev: Observation, pid: nat, did: nat, novel: bool): seq<Alert> {
    Raise(NewProcessDest, Notice, ev, pid, did, DestKey(pid, StableLabel(ev)), novel && ev.outbound)
  }

  function CountryPart(ev: Observation, pid: nat, did: nat, novel: bool): seq<Alert> {
    if ev.geo.country.None? then [] else
    Raise(NewGeo, Notice, ev, pid, did, CountryKey(pid, ev.geo.country.value), novel && ev.outbound)
  }

  function AsnPart(ev: Observation, pid: nat, did: nat, novel: bool): seq<Alert> {
    if ev.geo.asn.None? then [] else
    Raise(NewGeo, Notice, ev, pid, did, AsnKey(pid, ev.geo.asn.value), novel && ev.outbound)
  }

  function VolumePart(cfg: Config, was: Option<VolumeStat>, ev: Observation, pid: nat, did: nat,
                      active: bool, stored: seq<Alert>): seq<Alert>
  {
    var sample := Fed(cfg, was, ev.bytesUp, ev.ts).1;
    if sample.None? then [] else
    Raise(VolumeSpike, SpikeSeverity(sample.value), ev, pid, did, VolumeKey(pid),
          active && IsSpike(cfg, sample.value) && !Cooling(stored, VolumeKey(pid), ev.ts, cfg.cooldown))
  }

  predicate NewCountry(db: Tables, ev: Observation, pid: nat) {
    ev.geo.country.Some? && (pid, ev.geo.country.value) !in db.countries
  }

  predicate NewNetwork(db: Tables, ev: Observation, pid: nat) {
    ev.geo.asn.Some? && (pid, ev.geo.asn.value) !in db.asns
  }

  // ---------------------------------------------------------------- stages

  lemma EgressFires(cfg: Config, db: Tables, ev: Observation, p: SocketProc)
    requires Numbered(db) && Spent(db)
    ensures var (r, exe) := (EgressStage(cfg, db, ev, p), Exe(p));
      && Spent(r)
      && r.alerts == db.alerts + EgressPart(ev, exe, PidAfter(db.pids, exe), DestId(db, ev), IsActive(db) && exe !in db.pids)
  {
    var exe := Exe(p);
    var seen := WithProcess(db, exe, p.name, ev.ts);
    ProcessIsLocal(db, exe, p.name, ev.ts);
    PidIsNext(db, exe, p.name, ev.ts);
    hide Exe, EgressKey, KeyUsed, Spent, WithProcess, Numbered, Cooling;
    var a := AlertFor(NewProcessEgress, Warning, db, ev, seen.pids[exe], EgressKey(exe));
    SpentGrows(db, seen);
    EgressUses(seen, exe);
    EgressUses(db, exe);
    var wanted := IsActive(db) && exe !in db.pids && ev.outbound;
    EmitSpends(cfg, seen, a, wanted);
    EmitStores(cfg, seen, a, wanted);
    if wanted {
      UnusedIsReady(db, seen, a.dedupKey, a.ts, cfg.cooldown);
    }
  }

  lemma PidIsNext(db: Tables, exe: string, name: string, ts: int)
    requires Numbered(db)
    ensures var r := WithProcess(db, exe, name, ts);
      r.pids == db.pids[exe := PidAfter(db.pids, exe)] && r.pids.Keys == db.pids.Keys + {exe}
  {
    hide Numbered;
    KeysGrow(db.pids, exe, PidAfter(db.pids, exe));
    if exe in db.pids {
      RowExists(db, exe);
    }
  }

  lemma KeysGrow(pids: map<string, nat>, exe: string, pid: nat)
    ensures pids[exe := pid].Keys == pids.Keys + {exe}
  {
  }

  lemma LabelFires(cfg: Config, db: Tables, ev: Observation, pid: nat)
    requires Spent(db)
    ensures var (r, dest) := (LabelStage(cfg, db, ev, pid), StableLabel(ev));
      && Spent(r)
      && r.alerts == db.alerts + DestPart(ev, pid, DestId(db, ev), IsActive(db) && (pid, dest) !in db.labels)
  {
    hide StableLabel, DestKey, KeyUsed, Spent, Cooling;
    var dest := StableLabel(ev);
    var noted := db.(labels := db.labels + {(pid, dest)});
    var a := AlertFor(NewProcessDest, Notice, db, ev, pid, DestKey(pid, dest));
    SpentGrows(db, noted);
    DestUses(noted, pid, dest);
    DestUses(db, pid, dest);
    var wanted := IsActive(db) && (pid, dest) !in db.labels && ev.outbound;
    EmitSpends(cfg, noted, a, wanted);
    EmitStores(cfg, noted, a, wanted);
    if wanted {
      UnusedIsReady(db, noted, a.dedupKey, a.ts, cfg.cooldown);
    }
  }

  lemma CountryFires(cfg: Config, db: Tables, ev: Observation, pid: nat)
    requires Spent(db)
    ensures Spent(CountryStage(cfg, db, ev, pid))
    ensures CountryStage(cfg, db, ev, pid).alerts
         == db.alerts + CountryPart(ev, pid, DestId(db, ev), IsActive(db) && NewCountry(db, ev, pid))
  {
    hide CountryKey, KeyUsed, Spent, Cooling;
    if ev.geo.country.None? {
      assert db.alerts + [] == db.alerts;
    } else {
      var cc := ev.geo.country.value;
      var noted := db.(countries := db.countries + {(pid, cc)});
      var a := AlertFor(NewGeo, Notice, db, ev, pid, CountryKey(pid, cc));
      SpentGrows(db, noted);
      CountryUses(noted, pid, cc);
      CountryUses(db, pid, cc);
      var wanted := IsActive(db) && (pid, cc) !in db.countries && ev.outbound;
      EmitSpends(cfg, noted, a, wanted);
      EmitStores(cfg, noted, a, wanted);
      if wanted {
        UnusedIsReady(db, noted, a.dedupKey, a.ts, cfg.cooldown);
      }
    }
  }

  lemma AsnFires(cfg: Config, db: Tables, ev: Observation, pid: nat)
    requires Spent(db)
    ensures Spent(AsnStage(cfg, db, ev, pid))
    ensures AsnStage(cfg, db, ev, pid).alerts
         == db.alerts + AsnPart(ev, pid, DestId(db, ev), IsActive(db) && NewNetwork(db, ev, pid))
  {
    hide AsnKey, KeyUsed, Spent, Cooling;
    if ev.geo.asn.None? {
      assert db.alerts + [] == db.alerts;
    } else {
      var asn := ev.geo.asn.value;
      var noted := db.(asns := db.asns + {(pid, asn)});
      var a := AlertFor(NewGeo, Notice, db, ev, pid, AsnKey(pid, asn));
      SpentGrows(db, noted);
      AsnUses(noted, pid, asn);
      AsnUses(db, pid, asn);
      var wanted := IsActive(db) && (pid, asn) !in db.asns && ev.outbound;
      EmitSpends(cfg, noted, a, wanted);
      EmitStores(cfg, noted, a, wanted);
      if wanted {
        UnusedIsReady(db, noted, a.dedupKey, a.ts, cfg.cooldown);
      }
    }
  }

  lemma IdentityFires(cfg: Config, db: Tables, ev: Observation, exe: string, pid: nat)
    requires pid in db.processes && Spent(db)
    ensures Spent(IdentityStage(cfg, db, ev, exe, pid))
    ensures IdentityStage(cfg, db, ev, exe, pid).alerts
         == db.alerts + IdentityPart(cfg, CurrentIdentity(db, pid), ev, exe, pid, DestId(db, ev), IsActive(db), db.alerts)
  {
    hide IdentityKey, KeyUsed, Spent, Cooling, CurrentIdentity, ChangedSince;
    if ev.identity.None? {
      assert db.alerts + [] == db.alerts;
    } else {
      var ident, base := ev.identity.value, CurrentIdentity(db, pid);
      var noted := WithIdentity(db, pid, ident);
      var a := AlertFor(IdentityChange, Critical, db, ev, pid, IdentityKey(exe, ident.value));
      SpentGrows(db, noted);
      OtherKeysUse(noted, exe, ident.value, pid);
      var wanted := IsActive(db) && ev.outbound && base.Some? && ChangedSince(base.value, ident, cfg.flagSignedUpdates);
      EmitSpends(cfg, noted, a, wanted);
      EmitStores(cfg, noted, a, wanted);
    }
  }

  lemma VolumeFires(cfg: Config, db: Tables, ev: Observation, pid: nat)
    requires Spent(db)
    ensures Spent(VolumeStage(cfg, db, ev, pid))
    ensures VolumeStage(cfg, db, ev, pid).alerts
         == db.alerts + VolumePart(cfg, StatOf(db, pid), ev, pid, DestId(db, ev), IsActive(db), db.alerts)
  {
    hide VolumeKey, KeyUsed, Spent, Cooling, Fed, IsSpike;
    var (v, sample) := Fed(cfg, StatOf(db, pid), ev.bytesUp, ev.ts);
    var fed := db.(volumes := db.volumes[pid := v]);
    SpentGrows(db, fed);
    if sample.None? {
      assert db.alerts + [] == db.alerts;
    } else {
      var a := AlertFor(VolumeSpike, SpikeSeverity(sample.value), db, ev, pid, VolumeKey(pid));
      OtherKeysUse(fed, "", "", pid);
      EmitSpends(cfg, fed, a, IsActive(db) && IsSpike(cfg, sample.value));
      EmitStores(cfg, fed, a, IsActive(db) && IsSpike(cfg, sample.value));
    }
  }

  // ---------------------------------------------------------------- one observation

  /** The signals before the last. */
  function EarlyParts(cfg: Config, db: Tables, ev: Observation, exe: string, pid: nat, did: nat, active: bool,
                      stored: seq<Alert>): seq<Alert>
  {
    IdentityPart(cfg, CurrentIdentity(db, pid), ev, exe, pid, did, active, stored)
    + DestPart(ev, pid, did, active && (pid, StableLabel(ev)) !in db.labels)
    + CountryPart(ev, pid, did, active && NewCountry(db, ev, pid))
    + AsnPart(ev, pid, did, active && NewNetwork(db, ev, pid))
  }

  lemma {:induction false} CoolingIgnores(stored: seq<Alert>, more: seq<Alert>, key: string, now: int, cooldown: int)
    requires forall a <- more :: a.dedupKey != key
    ensures LastFired(stored + more, key) == LastFired(stored, key)
    ensures Cooling(stored + more, key, now, cooldown) == Cooling(stored, key, now, cooldown)
  {
    if more == [] {
      assert stored + more == stored;
    } else {
      var n := |more| - 1;
      CoolingIgnores(stored, more[..n], key, now, cooldown);
      assert more[n] in more;
      assert (stored + more)[..|stored + more| - 1] == stored + more[..n];
    }
  }

  lemma EarlyPartsApart(cfg: Config, db: Tables, ev: Observation, exe: string, pid: nat, did: nat, active: bool,
                        stored: seq<Alert>)
    ensures forall a <- EarlyParts(cfg, db, ev, exe, pid, did, active, stored) :: a.dedupKey != VolumeKey(pid)
  {
    hide Decimal, Cooling, CurrentIdentity, ChangedSince, StableLabel;
    assert VolumeKey(pid)[0] == 'v';
  }

  lemma EarlyFire(cfg: Config, db: Tables, ev: Observation, exe: string, pid: nat)
    requires Spent(db) && pid in db.processes
    ensures var d := AsnStage(cfg, CountryStage(cfg, LabelStage(cfg, IdentityStage(cfg, db, ev, exe, pid), ev, pid), ev, pid), ev, pid);
      Spent(d) && d.alerts == db.alerts + EarlyParts(cfg, db, ev, exe, pid, DestId(db, ev), IsActive(db), db.alerts)
  {
    hide Spent, IdentityStage, LabelStage, CountryStage, AsnStage, IdentityPart, DestPart, CountryPart, AsnPart,
      CurrentIdentity, StableLabel;
    IdentityFires(cfg, db, ev, exe, pid);
    IdentityWrites(cfg, db, ev, exe, pid);
    var d2 := IdentityStage(cfg, db, ev, exe, pid);
    LabelFires(cfg, d2, ev, pid);
    LabelWrites(cfg, d2, ev, pid);
    var d3 := LabelStage(cfg, d2, ev, pid);
    CountryFires(cfg, d3, ev, pid);
    CountryWrites(cfg, d3, ev, pid);
    var d4 := CountryStage(cfg, d3, ev, pid);
    AsnFires(cfg, d4, ev, pid);
  }

  /** Everything one attributed observation raises, from the tables before it. */
  function Parts(cfg: Config, db: Tables, ev: Observation, exe: string, did: nat, active: bool): seq<Alert> {
    var pid := PidAfter(db.pids, exe);
    EgressPart(ev, exe, pid, did, active && exe !in db.pids)
    + EarlyParts(cfg, db, ev, exe, pid, did, active, db.alerts)
    + VolumePart(cfg, StatOf(db, pid), ev, pid, did, active, db.alerts)
  }

  lemma EarlyPartsSame(cfg: Config, was: Tables, now: Tables, ev: Observation, exe: string, pid: nat, did: nat, active: bool,
                       more: seq<Alert>)
    requires now.labels == was.labels && now.countries == was.countries && now.asns == was.asns
    requires CurrentIdentity(now, pid) == CurrentIdentity(was, pid) && now.alerts == was.alerts + more
    requires forall a <- more :: a.dedupKey == EgressKey(exe)
    ensures EarlyParts(cfg, now, ev, exe, pid, did, active, now.alerts)
         == EarlyParts(cfg, was, ev, exe, pid, did, active, was.alerts)
  {
    hide CurrentIdentity, ChangedSince, StableLabel, DestPart, CountryPart, AsnPart, Cooling;
    if ev.identity.Some? {
      var key := IdentityKey(exe, ev.identity.value.value);
      assert key[0] == 'i' && EgressKey(exe)[0] == 'e';
      CoolingIgnores(was.alerts, more, key, ev.ts, cfg.cooldown);
    }
  }

  lemma VolumePartSame(cfg: Config, stat: Option<VolumeStat>, ev: Observation, pid: nat, did: nat, active: bool,
                       stored: seq<Alert>, more: seq<Alert>)
    requires forall a <- more :: a.dedupKey != VolumeKey(pid)
    ensures VolumePart(cfg, stat, ev, pid, did, active, stored + more) == VolumePart(cfg, stat, ev, pid, did, active, stored)
  {
    hide Cooling, Fed, IsSpike, VolumeKey;
    CoolingIgnores(stored, more, VolumeKey(pid), ev.ts, cfg.cooldown);
  }

  lemma KnownKeepsIdentity(cfg: Config, db: Tables, ev: Observation)
    requires ev.process.Some? && Numbered(db)
    ensures var pid := PidAfter(db.pids, Exe(ev.process.value));
      && pid in KnownBy(cfg, db, ev).processes && KnownBy(cfg, db, ev).pids[Exe(ev.process.value)] == pid
      && CurrentIdentity(KnownBy(cfg, db, ev), pid) == CurrentIdentity(db, pid)
  {
    OpenedIsLocal(cfg, db, ev);
    hide Distinct, Cooling, Opened, Exe;
    var exe := Exe(ev.process.value);
    if exe in db.pids {
      RowExists(db, exe);
    } else {
      NextIdIsNew(db, exe);
    }
  }

  lemma NextIdIsNew(db: Tables, exe: string)
    requires Numbered(db)
    ensures |db.pids| + 1 !in db.processes
  {
  }

  lemma SpentOpened(cfg: Config, db: Tables, ev: Observation)
    requires Spent(db)
    ensures Spent(Opened(cfg, db, ev))
  {
    OpenedIsLocal(cfg, db, ev);
    hide Spent, Opened;
    SpentGrows(db, Opened(cfg, db, ev));
  }

  /** The last signal, whose stored alerts include those raised just before it. */
  lemma SignalsFire(cfg: Config, db: Tables, ev: Observation, exe: string, pid: nat)
    requires Spent(db) && pid in db.processes
    ensures var r := Signals(cfg, db, ev, exe, pid);
      && Spent(r)
      && r.alerts == db.alerts + EarlyParts(cfg, db, ev, exe, pid, DestId(db, ev), IsActive(db), db.alerts)
         + VolumePart(cfg, StatOf(db, pid), ev, pid, DestId(db, ev), IsActive(db), db.alerts)
  {
    EarlyFire(cfg, db, ev, exe, pid);
    EarlyWrites(cfg, db, ev, exe, pid);
    hide Spent, IdentityStage, LabelStage, CountryStage, AsnStage, VolumeStage, EarlyParts, VolumePart;
    var d := AsnStage(cfg, CountryStage(cfg, LabelStage(cfg, IdentityStage(cfg, db, ev, exe, pid), ev, pid), ev, pid), ev, pid);
    VolumeFires(cfg, d, ev, pid);
    EarlyPartsApart(cfg, db, ev, exe, pid, DestId(db, ev), IsActive(db), db.alerts);
    VolumePartSame(cfg, StatOf(db, pid), ev, pid, DestId(db, ev), IsActive(db), db.alerts,
                   EarlyParts(cfg, db, ev, exe, pid, DestId(db, ev), IsActive(db), db.alerts));
  }

  lemma EarlyWrites(cfg: Config, db: Tables, ev: Observation, exe: string, pid: nat)
    requires pid in db.processes
    ensures var d := AsnStage(cfg, CountryStage(cfg, LabelStage(cfg, IdentityStage(cfg, db, ev, exe, pid), ev, pid), ev, pid), ev, pid);
      d.lifecycle == db.lifecycle && d.destinations == db.destinations && d.volumes == db.volumes
  {
    hide IdentityStage, LabelStage, CountryStage, AsnStage;
    IdentityWrites(cfg, db, ev, exe, pid);
    var d2 := IdentityStage(cfg, db, ev, exe, pid);
    LabelWrites(cfg, d2, ev, pid);
    var d3 := LabelStage(cfg, d2, ev, pid);
    CountryWrites(cfg, d3, ev, pid);
    AsnWrites(cfg, CountryStage(cfg, d3, ev, pid), ev, pid);
  }

  lemma EgressPartKeys(ev: Observation, exe: string, pid: nat, did: nat, novel: bool)
    ensures forall a <- EgressPart(ev, exe, pid, did, novel) :: a.dedupKey == EgressKey(exe) && a.dedupKey != VolumeKey(pid)
  {
    hide Decimal;
    assert VolumeKey(pid)[0] == 'v' && EgressKey(exe)[0] == 'e';
  }

  /** The tables the later signals work on, compared with those before the observation. */
  lemma KnownFires(cfg: Config, db: Tables, ev: Observation)
    requires ev.process.Some? && Numbered(db) && Spent(db)
    ensures var r, d, exe := KnownBy(cfg, db, ev), Opened(cfg, db, ev), Exe(ev.process.value);
      && Spent(r) && DestId(r, ev) == DestId(d, ev) && IsActive(r) == IsActive(d) && r.volumes == db.volumes
      && r.labels == db.labels && r.countries == db.countries && r.asns == db.asns
      && r.alerts == db.alerts + EgressPart(ev, exe, PidAfter(db.pids, exe), DestId(d, ev), IsActive(d) && exe !in db.pids)
  {
    OpenedKeeps(cfg, db, ev);
    SpentOpened(cfg, db, ev);
    OpenedIsLocal(cfg, db, ev);
    KnownWrites(cfg, db, ev);
    hide Spent, Numbered, Opened, EgressStage, EgressPart, Exe, PidAfter;
    EgressFires(cfg, Opened(cfg, db, ev), ev, ev.process.value);
  }

  lemma ObserveIsSignals(cfg: Config, db: Tables, ev: Observation)
    requires ev.process.Some? && Numbered(db)
    ensures var (d, pid) := (KnownBy(cfg, db, ev), PidAfter(db.pids, Exe(ev.process.value)));
      pid in d.processes && Observe(cfg, db, ev) == Signals(cfg, d, ev, Exe(ev.process.value), pid)
  {
    KnownKeepsIdentity(cfg, db, ev);
    hide Signals, EgressStage, Opened, Exe, PidAfter, Numbered, CurrentIdentity;
  }

  /** The later signals see the tables as they were before the observation. */
  lemma KnownParts(cfg: Config, db: Tables, ev: Observation, did: nat, active: bool)
    requires ev.process.Some? && Numbered(db) && Spent(db)
    requires did == DestId(Opened(cfg, db, ev), ev) && active == IsActive(Opened(cfg, db, ev))
    ensures var d, exe := KnownBy(cfg, db, ev), Exe(ev.process.value);
      var pid := PidAfter(db.pids, exe);
      && EarlyParts(cfg, d, ev, exe, pid, did, active, d.alerts) == EarlyParts(cfg, db, ev, exe, pid, did, active, db.alerts)
      && VolumePart(cfg, StatOf(d, pid), ev, pid, did, active, d.alerts)
         == VolumePart(cfg, StatOf(db, pid), ev, pid, did, active, db.alerts)
  {
    hide Spent, Numbered, Opened, KnownBy, EarlyParts, VolumePart, EgressPart, Exe, PidAfter, CurrentIdentity, DestId, IsActive;
    KnownFires(cfg, db, ev);
    KnownKeepsIdentity(cfg, db, ev);
    var exe := Exe(ev.process.value);
    var pid := PidAfter(db.pids, exe);
    var egress := EgressPart(ev, exe, pid, did, active && exe !in db.pids);
    EgressPartKeys(ev, exe, pid, did, active && exe !in db.pids);
    EarlyPartsSame(cfg, db, KnownBy(cfg, db, ev), ev, exe, pid, did, active, egress);
    VolumePartSame(cfg, StatOf(db, pid), ev, pid, did, active, db.alerts, egress);
  }

  lemma ObserveFires(cfg: Config, db: Tables, ev: Observation)
    requires ev.process.Some? && Numbered(db) && Spent(db)
    ensures var r, d := Observe(cfg, db, ev), Opened(cfg, db, ev);
      && Spent(r)
      && r.alerts == db.alerts + Parts(cfg, db, ev, Exe(ev.process.value), DestId(d, ev), IsActive(d))
  {
    hide Spent, Numbered, Opened, KnownBy, Signals, EarlyParts, VolumePart, EgressPart, Exe, PidAfter, CurrentIdentity,
      DestId, IsActive, Observe, StatOf;
    var d, exe := Opened(cfg, db, ev), Exe(ev.process.value);
    ObserveIsSignals(cfg, db, ev);
    KnownFires(cfg, db, ev);
    KnownParts(cfg, db, ev, DestId(d, ev), IsActive(d));
    SignalsFire(cfg, KnownBy(cfg, db, ev), ev, exe, PidAfter(db.pids, exe));
  }
}
