/** Table by table, what each stage of one observation writes. */
module AlertWrites {
  import opened Bytes
  import opened AlertTypes
  import opened AlertStore
  import opened AlertBaseline
  import opened DedupKeys
  import opened AlertEngine

  /** The id an executable has after it was seen once more. */
  function PidAfter(pids: map<string, nat>, exe: string): nat {
    if exe in pids then pids[exe] else |pids| + 1
  }

  lemma EgressWrites(cfg: Config, db: Tables, ev: Observation, p: SocketProc)
    requires Numbered(db)
    ensures var r := EgressStage(cfg, db, ev, p);
      && r == db.(pids := db.pids[Exe(p) := PidAfter(db.pids, Exe(p))], processes := r.processes, alerts := r.alerts)
      && Numbered(r)
  {
    hide Cooling, Numbered, Exe;
    ProcessKeepsNumbered(db, Exe(p), p.name, ev.ts);
    SameRows(WithProcess(db, Exe(p), p.name, ev.ts), EgressStage(cfg, db, ev, p));
    if Exe(p) in db.pids {
      RowExists(db, Exe(p));
      assert db.pids == db.pids[Exe(p) := db.pids[Exe(p)]];
    }
  }

  lemma IdentityWrites(cfg: Config, db: Tables, ev: Observation, exe: string, pid: nat)
    requires pid in db.processes
    ensures var r := IdentityStage(cfg, db, ev, exe, pid);
      && r == db.(identities := r.identities, processes := r.processes, alerts := r.alerts)
      && r.processes.Keys == db.processes.Keys
  {
    hide Cooling, ChangedSince, CurrentIdentity;
  }

  lemma LabelWrites(cfg: Config, db: Tables, ev: Observation, pid: nat)
    ensures var r := LabelStage(cfg, db, ev, pid);
      r == db.(labels := db.labels + {(pid, StableLabel(ev))}, alerts := r.alerts)
  {
    hide Cooling;
  }

  lemma CountryWrites(cfg: Config, db: Tables, ev: Observation, pid: nat)
    ensures var r := CountryStage(cfg, db, ev, pid);
      r == db.(countries := db.countries + (if ev.geo.country.Some? then {(pid, ev.geo.country.value)} else {}), alerts := r.alerts)
  {
    hide Cooling;
  }

  lemma AsnWrites(cfg: Config, db: Tables, ev: Observation, pid: nat)
    ensures var r := AsnStage(cfg, db, ev, pid);
      r == db.(asns := db.asns + (if ev.geo.asn.Some? then {(pid, ev.geo.asn.value)} else {}), alerts := r.alerts)
  {
    hide Cooling;
  }

  lemma VolumeWrites(cfg: Config, db: Tables, ev: Observation, pid: nat)
    ensures var r := VolumeStage(cfg, db, ev, pid);
      r == db.(volumes := db.volumes[pid := Fed(cfg, StatOf(db, pid), ev.bytesUp, ev.ts).0], alerts := r.alerts)
  {
    hide Cooling, Fed;
  }

  lemma SignalsWrite(cfg: Config, db: Tables, ev: Observation, exe: string, pid: nat)
    requires pid in db.processes
    ensures var r, d := Signals(cfg, db, ev, exe, pid), IdentityStage(cfg, db, ev, exe, pid);
      && r.processes.Keys == db.processes.Keys
      && r == db.(
        identities := d.identities, processes := d.processes, alerts := r.alerts,
        labels := db.labels + {(pid, StableLabel(ev))},
        countries := db.countries + (if ev.geo.country.Some? then {(pid, ev.geo.country.value)} else {}),
        asns := db.asns + (if ev.geo.asn.Some? then {(pid, ev.geo.asn.value)} else {}),
        volumes := db.volumes[pid := Fed(cfg, StatOf(db, pid), ev.bytesUp, ev.ts).0])
  {
    hide Fed, IdentityStage, LabelStage, CountryStage, AsnStage, VolumeStage;
    IdentityWrites(cfg, db, ev, exe, pid);
    var d2 := IdentityStage(cfg, db, ev, exe, pid);
    LabelWrites(cfg, d2, ev, pid);
    var d3 := LabelStage(cfg, d2, ev, pid);
    CountryWrites(cfg, d3, ev, pid);
    var d4 := CountryStage(cfg, d3, ev, pid);
    AsnWrites(cfg, d4, ev, pid);
    VolumeWrites(cfg, AsnStage(cfg, d4, ev, pid), ev, pid);
  }

  /** What is known of the process before the signals that need its row. */
  function KnownBy(cfg: Config, db: Tables, ev: Observation): Tables
    requires ev.process.Some?
  {
    EgressStage(cfg, Opened(cfg, db, ev), ev, ev.process.value)
  }

  lemma KnownWrites(cfg: Config, db: Tables, ev: Observation)
    requires ev.process.Some? && Numbered(db)
    ensures var r, d, exe := KnownBy(cfg, db, ev), Opened(cfg, db, ev), Exe(ev.process.value);
      && Numbered(r)
      && r == db.(lifecycle := d.lifecycle, learningStarted := d.learningStarted, learningEnds := d.learningEnds,
                  destinations := d.destinations, pids := db.pids[exe := PidAfter(db.pids, exe)],
                  processes := r.processes, alerts := r.alerts)
  {
    OpenedKeeps(cfg, db, ev);
    OpenedIsLocal(cfg, db, ev);
    hide Numbered, Opened, EgressStage, Exe;
    EgressWrites(cfg, Opened(cfg, db, ev), ev, ev.process.value);
  }

  lemma OpenedIsLocal(cfg: Config, db: Tables, ev: Observation)
    ensures var d := Opened(cfg, db, ev);
      d == db.(lifecycle := d.lifecycle, learningStarted := d.learningStarted, learningEnds := d.learningEnds,
               destinations := d.destinations)
  {
    hide Started, Saturate, OrElse, IsActive;
    StartedIsLocal(cfg, db, ev.ts);
  }

  lemma StartedIsLocal(cfg: Config, db: Tables, now: i64)
    ensures var d := Started(cfg, db, now);
      d == db.(lifecycle := d.lifecycle, learningStarted := d.learningStarted, learningEnds := d.learningEnds)
  {
    hide Saturate;
  }

  /** The three novelty tables after an attributed observation. */
  lemma NoveltyWrites(cfg: Config, db: Tables, ev: Observation)
    requires ev.process.Some? && Numbered(db)
    ensures var r, pid := Observe(cfg, db, ev), PidAfter(db.pids, Exe(ev.process.value));
      && Numbered(r) && r.pids == db.pids[Exe(ev.process.value) := pid]
      && r.labels == db.labels + {(pid, StableLabel(ev))}
      && r.countries == db.countries + (if ev.geo.country.Some? then {(pid, ev.geo.country.value)} else {})
      && r.asns == db.asns + (if ev.geo.asn.Some? then {(pid, ev.geo.asn.value)} else {})
  {
    hide Numbered, Fed, Opened, EgressStage, Signals, Exe, StableLabel;
    KnownWrites(cfg, db, ev);
    var d := KnownBy(cfg, db, ev);
    SignalsWrite(cfg, d, ev, Exe(ev.process.value), PidAfter(db.pids, Exe(ev.process.value)));
    SameRows(d, Observe(cfg, db, ev));
  }

  /** The lifecycle, the destinations and the volume rows after an attributed observation. */
  lemma VolumesWrite(cfg: Config, db: Tables, ev: Observation)
    requires ev.process.Some? && Numbered(db)
    ensures var r, d, pid := Observe(cfg, db, ev), Opened(cfg, db, ev), PidAfter(db.pids, Exe(ev.process.value));
      && r.lifecycle == d.lifecycle && r.learningStarted == d.learningStarted && r.learningEnds == d.learningEnds
      && r.destinations == d.destinations
      && r.volumes == db.volumes[pid := Fed(cfg, StatOf(db, pid), ev.bytesUp, ev.ts).0]
  {
    hide Numbered, Fed, Opened, EgressStage, Signals, Exe;
    KnownWrites(cfg, db, ev);
    SignalsWrite(cfg, KnownBy(cfg, db, ev), ev, Exe(ev.process.value), PidAfter(db.pids, Exe(ev.process.value)));
  }
}
