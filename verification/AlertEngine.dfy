/** The five egress signals (`alert/detectors.rs`), evaluated on one observation at a time. */
module AlertEngine {
  import opened Bytes
  import opened AlertTypes
  import opened AlertStore
  import opened AlertBaseline
  import opened DedupKeys

  // ---------------------------------------------------------------- labels

  /** The key a process is known by. */
  function Exe(p: SocketProc): string {
    if p.exePath.Some? then p.exePath.value else PidName(p.pid)
  }

  /** Organisation, else registrable domain, else address. */
  function StableLabel(ev: Observation): string {
    if ev.geo.asOrg.Some? then ev.geo.asOrg.value
    else if ev.name.Some? then ev.domain
    else ev.destIp
  }

  /** `BinaryIdentity::changed_since` */
  predicate ChangedSince(base: Identity, current: Identity, flagSignedUpdates: bool) {
    base.status != Unreadable && current.status != Unreadable &&
    var regressed := base.status == Valid && current.status != Valid;
    if base.kind == MacCodesign && current.kind == MacCodesign then
      || base.teamId != current.teamId || base.signingId != current.signingId
      || regressed || (base.value != current.value && flagSignedUpdates)
    else base.value != current.value || regressed
  }

  // ---------------------------------------------------------------- the signals

  function DestId(db: Tables, ev: Observation): nat {
    if ev.destIp in db.destinations then db.destinations[ev.destIp].id else 0
  }

  function AlertFor(kind: Kind, severity: Severity, db: Tables, ev: Observation, pid: nat, key: string): Alert {
    Alert(kind, severity, ev.ts, pid, DestId(db, ev), key)
  }

  function Emitted(cfg: Config, db: Tables, a: Alert, wanted: bool): Tables {
    if wanted then WithAlert(db, a, cfg.cooldown) else db
  }

  /** Signal 2: the first outbound connection of an executable. */
  function EgressStage(cfg: Config, db: Tables, ev: Observation, p: SocketProc): (r: Tables)
    ensures Exe(p) in r.pids && r.pids[Exe(p)] in r.processes
  {
    var exe := Exe(p);
    var seen := WithProcess(db, exe, p.name, ev.ts);
    var a := AlertFor(NewProcessEgress, Warning, db, ev, seen.pids[exe], EgressKey(exe));
    Emitted(cfg, seen, a, IsActive(db) && exe !in db.pids && ev.outbound)
  }

  /** Signal 5: the binary behind the process is not the one recorded before. */
  function IdentityStage(cfg: Config, db: Tables, ev: Observation, exe: string, pid: nat): Tables
    requires pid in db.processes
  {
    if ev.identity.None? then db else
    var ident, base := ev.identity.value, CurrentIdentity(db, pid);
    var a := AlertFor(IdentityChange, Critical, db, ev, pid, IdentityKey(exe, ident.value));
    Emitted(cfg, WithIdentity(db, pid, ident), a,
            IsActive(db) && ev.outbound && base.Some? && ChangedSince(base.value, ident, cfg.flagSignedUpdates))
  }

  /** Signal 1: a destination the process has never contacted. */
  function LabelStage(cfg: Config, db: Tables, ev: Observation, pid: nat): Tables {
    var dest := StableLabel(ev);
    var a := AlertFor(NewProcessDest, Notice, db, ev, pid, DestKey(pid, dest));
    Emitted(cfg, db.(labels := db.labels + {(pid, dest)}), a,
            IsActive(db) && (pid, dest) !in db.labels && ev.outbound)
  }

  /** Signal 3, first half: a country the process has never contacted. */
  function CountryStage(cfg: Config, db: Tables, ev: Observation, pid: nat): Tables {
    if ev.geo.country.None? then db else
    var cc := ev.geo.country.value;
    var a := AlertFor(NewGeo, Notice, db, ev, pid, CountryKey(pid, cc));
    Emitted(cfg, db.(countries := db.countries + {(pid, cc)}), a,
            IsActive(db) && (pid, cc) !in db.countries && ev.outbound)
  }

  /** Signal 3, second half: a network the process has never contacted. */
  function AsnStage(cfg: Config, db: Tables, ev: Observation, pid: nat): Tables {
    if ev.geo.asn.None? then db else
    var asn := ev.geo.asn.value;
    var a := AlertFor(NewGeo, Notice, db, ev, pid, AsnKey(pid, asn));
    Emitted(cfg, db.(asns := db.asns + {(pid, asn)}), a,
            IsActive(db) && (pid, asn) !in db.asns && ev.outbound)
  }

  predicate IsSpike(cfg: Config, s: Sample) {
    && s.samples >= cfg.minSamples && s.x.Floor >= cfg.floor
    && ScoreReaches(s.x, s.mean, s.variance, cfg.zThreshold)
  }

  function SpikeSeverity(s: Sample): Severity {
    if s.x >= 10.0 * (if s.mean > 1.0 then s.mean else 1.0) then Critical else Warning
  }

  /** Signal 4: an interval far above the process's own history, inbound flows included. */
  function VolumeStage(cfg: Config, db: Tables, ev: Observation, pid: nat): Tables {
    var (v, sample) := Fed(cfg, StatOf(db, pid), ev.bytesUp, ev.ts);
    var fed := db.(volumes := db.volumes[pid := v]);
    if sample.None? then fed else
    var a := AlertFor(VolumeSpike, SpikeSeverity(sample.value), db, ev, pid, VolumeKey(pid));
    Emitted(cfg, fed, a, IsActive(db) && IsSpike(cfg, sample.value))
  }

  /** The signals after the first, in the order they are raised. */
  function Signals(cfg: Config, db: Tables, ev: Observation, exe: string, pid: nat): Tables
    requires pid in db.processes
  {
    var labelled := LabelStage(cfg, IdentityStage(cfg, db, ev, exe, pid), ev, pid);
    VolumeStage(cfg, AsnStage(cfg, CountryStage(cfg, labelled, ev, pid), ev, pid), ev, pid)
  }

  /** The tables before any per-process signal. */
  function Opened(cfg: Config, db: Tables, ev: Observation): Tables {
    WithDestination(Started(cfg, db, ev.ts), ev.destIp, ev.name, ev.geo, ev.ts)
  }

  /** The tables after the whole of `run_detectors`. */
  function Observe(cfg: Config, db: Tables, ev: Observation): Tables {
    var opened' := Opened(cfg, db, ev);
    if ev.process.None? then opened' else
    var p := ev.process.value;
    var known := EgressStage(cfg, opened', ev, p);
    Signals(cfg, known, ev, Exe(p), known.pids[Exe(p)])
  }

  /** What every signal leaves alone: the lifecycle, the ids and the alerts stored before. */
  ghost predicate Kept(was: Tables, now: Tables) {
    && IsActive(now) == IsActive(was) && was.alerts <= now.alerts
    && was.destinations == now.destinations && Numbered(now) && was.processes.Keys <= now.processes.Keys
  }

  /** The alerts stored since. */
  function Since(was: Tables, now: Tables): seq<Alert> {
    if |was.alerts| <= |now.alerts| then now.alerts[|was.alerts|..] else []
  }

  lemma KeptJoins(a: Tables, b: Tables, c: Tables)
    requires Kept(a, b) && Kept(b, c)
    ensures Kept(a, c) && Since(a, c) == Since(a, b) + Since(b, c)
  {
    hide Numbered;
    assert c.alerts[..|b.alerts|] == b.alerts;
  }

  lemma KeptMeans(was: Tables, now: Tables)
    requires Kept(was, now)
    ensures IsActive(now) == IsActive(was) && Numbered(now)
    ensures was.alerts <= now.alerts && Since(was, now) == now.alerts[|was.alerts|..]
  {
  }

  lemma SameRows(was: Tables, now: Tables)
    requires Numbered(was) && now.pids == was.pids && now.processes.Keys == was.processes.Keys
    ensures Numbered(now)
  {
  }

  lemma ProcessIsLocal(db: Tables, exe: string, name: string, ts: int)
    requires Numbered(db)
    ensures var r := WithProcess(db, exe, name, ts);
      && r == db.(pids := r.pids, processes := r.processes)
      && exe in r.pids && r.pids[exe] in r.processes && Numbered(r) && db.processes.Keys <= r.processes.Keys
  {
    ProcessKeepsNumbered(db, exe, name, ts);
  }

  lemma OpenedKeeps(cfg: Config, db: Tables, ev: Observation)
    requires Numbered(db)
    ensures Numbered(Opened(cfg, db, ev)) && Opened(cfg, db, ev).alerts == db.alerts
    ensures ev.destIp in Opened(cfg, db, ev).destinations
    ensures IsActive(Opened(cfg, db, ev)) == IsActive(Started(cfg, db, ev.ts))
  {
    hide Distinct;
  }

  datatype Result<+T> = Ok(value: T) | Err

  /** What the database refuses: `step` numbers the first store step that fails, nine and beyond none. */
  datatype Faults = Faults(begin: bool, step: nat, commit: bool, rollback: bool)

  class Engine {
    const cfg: Config

    constructor (cfg: Config)
      ensures this.cfg == cfg
    {
      this.cfg := cfg;
    }

    /** Store the alert unless its key is cooling down; `grown` also lists what was stored. */
    method Emit(store: Store, fired: seq<Alert>, a: Alert) returns (grown: seq<Alert>)
      modifies store`db
      ensures store.db == WithAlert(old(store.db), a, cfg.cooldown)
      ensures grown == fired + store.db.alerts[|old(store.db).alerts|..]
    {
      grown := fired;
      var id := store.InsertAlert(a, cfg.cooldown);
      if id.Some? {
        grown := grown + [a];
      }
    }

    method EgressSignal(store: Store, ev: Observation, p: SocketProc, active: bool) returns (pid: nat, fired: seq<Alert>)
      requires Numbered(store.db) && active == IsActive(store.db) && ev.destIp in store.db.destinations
      modifies store`db
      ensures store.db == EgressStage(cfg, old(store.db), ev, p) && Kept(old(store.db), store.db)
      ensures Exe(p) in store.db.pids && pid == store.db.pids[Exe(p)] && pid in store.db.processes
      ensures fired == Since(old(store.db), store.db)
    {
      hide Numbered, Cooling, WithProcess;
      var exe := Exe(p);
      var wasNew;
      pid, wasNew := store.UpsertProcess(exe, p.name, ev.ts);
      fired := [];
      ProcessIsLocal(old(store.db), exe, p.name, ev.ts);
      if active && wasNew && ev.outbound {
        fired := Emit(store, fired, AlertFor(NewProcessEgress, Warning, store.db, ev, pid, EgressKey(exe)));
      }
      SameRows(WithProcess(old(store.db), exe, p.name, ev.ts), store.db);
    }

    method IdentitySignal(store: Store, ev: Observation, exe: string, pid: nat, active: bool) returns (fired: seq<Alert>)
      requires Numbered(store.db) && active == IsActive(store.db) && pid in store.db.processes
      modifies store`db
      ensures store.db == IdentityStage(cfg, old(store.db), ev, exe, pid) && Kept(old(store.db), store.db)
      ensures fired == Since(old(store.db), store.db)
    {
      hide Numbered, Cooling, ChangedSince, CurrentIdentity;
      fired := [];
      if ev.identity.Some? {
        var ident, base := ev.identity.value, CurrentIdentity(store.db, pid);
        var _ := store.RecordIdentity(pid, ident);
        if active && ev.outbound {
          if base.Some? {
            if ChangedSince(base.value, ident, cfg.flagSignedUpdates) {
              fired := Emit(store, fired, AlertFor(IdentityChange, Critical, store.db, ev, pid, IdentityKey(exe, ident.value)));
            }
          }
        }
      }
      SameRows(old(store.db), store.db);
    }

    method LabelSignal(store: Store, ev: Observation, pid: nat, active: bool) returns (fired: seq<Alert>)
      requires Numbered(store.db) && active == IsActive(store.db)
      modifies store`db
      ensures store.db == LabelStage(cfg, old(store.db), ev, pid) && Kept(old(store.db), store.db)
      ensures fired == Since(old(store.db), store.db)
    {
      hide Numbered, Cooling;
      var dest := StableLabel(ev);
      var isNew := store.NoteLabel(pid, dest);
      fired := [];
      if active && isNew && ev.outbound {
        fired := Emit(store, fired, AlertFor(NewProcessDest, Notice, store.db, ev, pid, DestKey(pid, dest)));
      }
      SameRows(old(store.db), store.db);
    }

    method CountrySignal(store: Store, ev: Observation, pid: nat, active: bool) returns (fired: seq<Alert>)
      requires Numbered(store.db) && active == IsActive(store.db)
      modifies store`db
      ensures store.db == CountryStage(cfg, old(store.db), ev, pid) && Kept(old(store.db), store.db)
      ensures fired == Since(old(store.db), store.db)
    {
      hide Numbered, Cooling;
      fired := [];
      if ev.geo.country.Some? {
        var cc := ev.geo.country.value;
        var isNew := store.NoteCountry(pid, cc);
        if isNew && active && ev.outbound {
          fired := Emit(store, fired, AlertFor(NewGeo, Notice, store.db, ev, pid, CountryKey(pid, cc)));
        }
      }
      SameRows(old(store.db), store.db);
    }

    method AsnSignal(store: Store, ev: Observation, pid: nat, active: bool) returns (fired: seq<Alert>)
      requires Numbered(store.db) && active == IsActive(store.db)
      modifies store`db
      ensures store.db == AsnStage(cfg, old(store.db), ev, pid) && Kept(old(store.db), store.db)
      ensures fired == Since(old(store.db), store.db)
    {
      hide Numbered, Cooling;
      fired := [];
      if ev.geo.asn.Some? {
        var asn := ev.geo.asn.value;
        var isNew := store.NoteAsn(pid, asn);
        if isNew && active && ev.outbound {
          fired := Emit(store, fired, AlertFor(NewGeo, Notice, store.db, ev, pid, AsnKey(pid, asn)));
        }
      }
      SameRows(old(store.db), store.db);
    }

    method VolumeSignal(store: Store, ev: Observation, pid: nat, active: bool) returns (fired: seq<Alert>)
      requires Numbered(store.db) && active == IsActive(store.db)
      modifies store`db
      ensures store.db == VolumeStage(cfg, old(store.db), ev, pid) && Kept(old(store.db), store.db)
      ensures fired == Since(old(store.db), store.db)
    {
      hide Numbered, Cooling, Fed, ScoreReaches;
      fired := [];
      var sample := UpdateVolume(store, cfg, pid, ev.bytesUp, ev.ts);
      if sample.Some? {
        var s := sample.value;
        if active && s.samples >= cfg.minSamples && s.x.Floor >= cfg.floor {
          if ScoreReaches(s.x, s.mean, s.variance, cfg.zThreshold) {
            fired := Emit(store, fired, AlertFor(VolumeSpike, SpikeSeverity(s), store.db, ev, pid, VolumeKey(pid)));
          }
        }
      }
      SameRows(old(store.db), store.db);
    }

    /** `failAt` numbers the store step that fails; nine and beyond let the evaluation finish. */
    method RunDetectors(store: Store, ev: Observation, failAt: nat) returns (r: Result<Outcome>)
      requires Numbered(store.db)
      modifies store`db
      ensures r.Ok? ==> store.db == Observe(cfg, old(store.db), ev) && Numbered(store.db)
      ensures r.Ok? ==> old(store.db).alerts <= store.db.alerts && r.value.alerts == store.db.alerts[|old(store.db).alerts|..]
      ensures r.Err? ==> failAt < 9
    {
      hide Numbered, IsActive, EgressStage, IdentityStage, LabelStage, CountryStage, AsnStage, VolumeStage, Kept, Since;
      ghost var db0 := store.db;
      if failAt == 0 { return Err; }
      var active := EnsureStarted(store, cfg, ev.ts);
      if failAt == 1 { return Err; }
      var destId := store.UpsertDestination(ev.destIp, ev.name, ev.geo, ev.ts);
      OpenedKeeps(cfg, db0, ev);
      if failAt == 2 { return Err; }
      if ev.process.None? {
        return Ok(Outcome([], None, destId));
      }
      var p := ev.process.value;
      ghost var d2 := store.db;
      var pid, fired := EgressSignal(store, ev, p, active);
      if failAt == 3 { return Err; }
      ghost var d3 := store.db;
      KeptMeans(d2, d3);
      var more := IdentitySignal(store, ev, Exe(p), pid, active);
      fired := fired + more;
      if failAt == 4 { return Err; }
      ghost var d4 := store.db;
      KeptJoins(d2, d3, d4);
      KeptMeans(d2, d4);
      more := LabelSignal(store, ev, pid, active);
      fired := fired + more;
      if failAt == 5 { return Err; }
      ghost var d5 := store.db;
      KeptJoins(d2, d4, d5);
      KeptMeans(d2, d5);
      more := CountrySignal(store, ev, pid, active);
      fired := fired + more;
      if failAt == 6 { return Err; }
      ghost var d6 := store.db;
      KeptJoins(d2, d5, d6);
      KeptMeans(d2, d6);
      more := AsnSignal(store, ev, pid, active);
      fired := fired + more;
      if failAt == 7 { return Err; }
      ghost var d7 := store.db;
      KeptJoins(d2, d6, d7);
      KeptMeans(d2, d7);
      more := VolumeSignal(store, ev, pid, active);
      fired := fired + more;
      if failAt == 8 { return Err; }
      KeptJoins(d2, d7, store.db);
      KeptMeans(d2, store.db);
      r := Ok(Outcome(fired, Some(pid), destId));
    }

    /**
     One observation in one transaction. Either all of it is stored, or nothing is and the evaluation
     answers an error. A commit or rollback that fails leaves the transaction open, and then every
     later evaluation is refused: from there on nothing is stored any more.
     */
    method EvaluateFull(store: Store, ev: Observation, faults: Faults) returns (r: Result<Outcome>)
      requires Numbered(store.db) && Numbered(store.Durable())
      modifies store
      ensures r.Ok? ==> old(store.begun).None? && store.begun.None?
      ensures r.Ok? ==> store.db == Observe(cfg, old(store.db), ev) && Numbered(store.db)
      ensures r.Ok? ==> store.db.alerts == old(store.db).alerts + r.value.alerts
      ensures r.Err? ==> store.Durable() == old(store.Durable())
      ensures old(store.begun).Some? ==> r.Err? && store.db == old(store.db) && store.begun == old(store.begun)
      ensures old(store.begun).None? && !faults.begin && !faults.commit && faults.step >= 9 ==> r.Ok?
      ensures r.Err? && store.begun.Some? ==> old(store.begun).Some? || faults.commit || faults.rollback
    {
      hide Observe, Numbered;
      var ok := store.Begin(faults.begin);
      if !ok {
        return Err;
      }
      r := RunDetectors(store, ev, faults.step);
      if r.Ok? {
        store.Commit(faults.commit);
        if faults.commit {
          r := Err;
        }
      } else {
        store.Rollback(faults.rollback);
      }
    }
  }
}
