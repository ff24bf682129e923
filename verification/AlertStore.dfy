/** The tables behind the alert engine (`store/mod.rs`), one SQLite connection. */
module AlertStore {
  import opened Bytes
  import opened AlertTypes

  datatype Lifecycle = Learning | Active

  datatype ProcessRow = ProcessRow(name: string, firstSeen: int, lastSeen: int, current: Option<(IdentityKind, string)>)

  datatype DestRow = DestRow(id: nat, bestName: Option<string>, geo: GeoInfo, firstSeen: int, lastSeen: int)

  datatype VolumeStat = VolumeStat(mean: real, variance: real, acc: real, start: int, samples: nat)

  /**
   `pids` is the unique index on the executable path, `processes` the rows by id; identities are
   unique per process, kind and value; the three novelty tables are sets of pairs.
   */
  datatype Tables = Tables(
    lifecycle: Option<Lifecycle>, learningStarted: Option<i64>, learningEnds: Option<i64>,
    pids: map<string, nat>, processes: map<nat, ProcessRow>,
    identities: map<(nat, IdentityKind, string), Identity>, destinations: map<string, DestRow>,
    labels: set<(nat, string)>, countries: set<(nat, string)>, asns: set<(nat, nat)>,
    volumes: map<nat, VolumeStat>, alerts: seq<Alert>)

  const FRESH := Tables(None, None, None, map[], map[], map[], map[], {}, {}, {}, map[], [])

  /** Anything but the text "active" reads as learning. */
  predicate IsActive(db: Tables) {
    db.lifecycle == Some(Active)
  }

  function OrElse<T>(newer: Option<T>, older: Option<T>): Option<T> {
    if newer.Some? then newer else older
  }

  function WithDestination(db: Tables, ip: string, name: Option<string>, geo: GeoInfo, ts: int): (r: Tables)
    ensures ip in r.destinations
  {
    db.(destinations := db.destinations[ip :=
      if ip in db.destinations then
        var d := db.destinations[ip];
        DestRow(d.id, OrElse(name, d.bestName),
                GeoInfo(OrElse(geo.country, d.geo.country), OrElse(geo.asn, d.geo.asn), OrElse(geo.asOrg, d.geo.asOrg)),
                d.firstSeen, ts)
      else DestRow(|db.destinations| + 1, name, geo, ts, ts)])
  }

  /** Ids are distinct and run up to the number of executables. */
  ghost predicate Distinct(pids: map<string, nat>) {
    && (forall exe <- pids :: 1 <= pids[exe] <= |pids|)
    && (forall a, b :: a in pids && b in pids && pids[a] == pids[b] ==> a == b)
  }

  /** Every known executable has its own row, and there are no other rows. */
  ghost predicate Numbered(db: Tables) {
    Distinct(db.pids) && db.pids.Values == db.processes.Keys
  }

  lemma ValuesGrow(pids: map<string, nat>, exe: string, pid: nat)
    requires exe !in pids
    ensures pids[exe := pid].Values == pids.Values + {pid}
  {
    var r := pids[exe := pid];
    assert r[exe] in r.Values;
    forall v | v in pids.Values
      ensures v in r.Values
    {
      var k :| k in pids && pids[k] == v;
      assert r[k] in r.Values;
    }
  }

  lemma NextIdIsFresh(pids: map<string, nat>, exe: string)
    requires Distinct(pids) && exe !in pids
    ensures Distinct(pids[exe := |pids| + 1])
  {
    var r := pids[exe := |pids| + 1];
    assert r.Keys == pids.Keys + {exe};
    assert |r| == |pids| + 1;
  }

  function WithProcess(db: Tables, exe: string, name: string, ts: int): (r: Tables)
    ensures exe in r.pids && r.pids[exe] in r.processes
  {
    if exe in db.pids && db.pids[exe] in db.processes then
      var pid := db.pids[exe];
      db.(processes := db.processes[pid := db.processes[pid].(name := name, lastSeen := ts)])
    else
      var pid := |db.pids| + 1;
      db.(pids := db.pids[exe := pid], processes := db.processes[pid := ProcessRow(name, ts, ts, None)])
  }

  lemma ProcessKeepsNumbered(db: Tables, exe: string, name: string, ts: int)
    requires Numbered(db)
    ensures Numbered(WithProcess(db, exe, name, ts))
  {
    hide Distinct;
    if exe in db.pids {
      assert db.pids[exe] in db.pids.Values;
    } else {
      NextIdIsFresh(db.pids, exe);
      ValuesGrow(db.pids, exe, |db.pids| + 1);
    }
  }

  lemma RowExists(db: Tables, exe: string)
    requires Numbered(db) && exe in db.pids
    ensures db.pids[exe] in db.processes
  {
    hide Distinct;
    assert db.pids[exe] in db.pids.Values;
  }

  /** The first row recorded for a process, kind and value stays; the process now points at it. */
  function WithIdentity(db: Tables, pid: nat, ident: Identity): Tables
    requires pid in db.processes
  {
    var key := (pid, ident.kind, ident.value);
    db.(identities := if key in db.identities then db.identities else db.identities[key := ident],
        processes := db.processes[pid := db.processes[pid].(current := Some((ident.kind, ident.value)))])
  }

  function CurrentIdentity(db: Tables, pid: nat): Option<Identity> {
    if pid !in db.processes || db.processes[pid].current.None? then None else
    var (kind, value) := db.processes[pid].current.value;
    if (pid, kind, value) in db.identities then Some(db.identities[(pid, kind, value)]) else None
  }

  // ---------------------------------------------------------------- alerts

  /** `SELECT MAX(ts_ms) FROM alerts WHERE dedup_key = key` */
  function LastFired(alerts: seq<Alert>, key: string): (r: Option<i64>)
    ensures r.None? <==> forall a <- alerts :: a.dedupKey != key
    ensures r.Some? ==> forall a <- alerts :: a.dedupKey == key ==> a.ts <= r.value
    ensures r.Some? ==> exists a <- alerts :: a.dedupKey == key && a.ts == r.value
  {
    if alerts == [] then None else
    var rest, last := LastFired(alerts[..|alerts| - 1], key), alerts[|alerts| - 1];
    assert alerts == alerts[..|alerts| - 1] + [last];
    if last.dedupKey != key then rest
    else if rest.Some? && rest.value > last.ts then rest
    else Some(last.ts)
  }

  predicate Cooling(alerts: seq<Alert>, key: string, now: int, cooldown: int) {
    var prev := LastFired(alerts, key);
    prev.Some? && now - prev.value < cooldown
  }

  function WithAlert(db: Tables, a: Alert, cooldown: int): Tables {
    if Cooling(db.alerts, a.dedupKey, a.ts, cooldown) then db else db.(alerts := db.alerts + [a])
  }

  ghost predicate Separated(alerts: seq<Alert>, cooldown: int) {
    forall i, j :: 0 <= i < j < |alerts| && alerts[i].dedupKey == alerts[j].dedupKey
      ==> alerts[j].ts - alerts[i].ts >= cooldown
  }

  /** However the clock moves, stored alerts with one key are a whole cooldown apart, in order. */
  lemma InsertSeparates(db: Tables, a: Alert, cooldown: int)
    requires Separated(db.alerts, cooldown)
    ensures Separated(WithAlert(db, a, cooldown).alerts, cooldown)
  {
    if !Cooling(db.alerts, a.dedupKey, a.ts, cooldown) {
      forall i | 0 <= i < |db.alerts| && db.alerts[i].dedupKey == a.dedupKey
        ensures a.ts - db.alerts[i].ts >= cooldown
      {
        assert db.alerts[i] in db.alerts;
      }
    }
  }

  class Store {
    var db: Tables
    /** The tables as they stood when the transaction that is still open began. */
    var begun: Option<Tables>

    constructor ()
      ensures db == FRESH && begun == None
    {
      db, begun := FRESH, None;
    }

    /** What another connection sees, and what is left after the process ends. */
    function Durable(): Tables
      reads this
    {
      if begun.Some? then begun.value else db
    }

    /** `BEGIN IMMEDIATE`: refused inside a transaction. */
    method Begin(fails: bool) returns (ok: bool)
      modifies this`begun
      ensures ok == (old(begun).None? && !fails)
      ensures begun == if ok then Some(db) else old(begun)
    {
      ok := begun.None? && !fails;
      if ok {
        begun := Some(db);
      }
    }

    /** A commit that fails leaves the transaction open. */
    method Commit(fails: bool)
      modifies this`begun
      ensures begun == if fails then old(begun) else None
    {
      if !fails {
        begun := None;
      }
    }

    method Rollback(fails: bool)
      requires begun.Some?
      modifies this
      ensures begun == (if fails then old(begun) else None) && db == if fails then old(db) else old(begun).value
    {
      if !fails {
        db, begun := begun.value, None;
      }
    }

    method UpsertDestination(ip: string, name: Option<string>, geo: GeoInfo, ts: int) returns (id: nat)
      modifies this`db
      ensures db == WithDestination(old(db), ip, name, geo, ts) && id == db.destinations[ip].id
    {
      if ip in db.destinations {
        var d := db.destinations[ip];
        var merged := GeoInfo(OrElse(geo.country, d.geo.country), OrElse(geo.asn, d.geo.asn), OrElse(geo.asOrg, d.geo.asOrg));
        id := d.id;
        db := db.(destinations := db.destinations[ip := d.(bestName := OrElse(name, d.bestName), geo := merged, lastSeen := ts)]);
      } else {
        id := |db.destinations| + 1;
        db := db.(destinations := db.destinations[ip := DestRow(id, name, geo, ts, ts)]);
      }
    }

    method UpsertProcess(exe: string, name: string, ts: int) returns (id: nat, wasNew: bool)
      requires Numbered(db)
      modifies this`db
      ensures db == WithProcess(old(db), exe, name, ts) && Numbered(db)
      ensures db.pids[exe] == id && wasNew == (exe !in old(db).pids)
    {
      ProcessKeepsNumbered(db, exe, name, ts);
      if exe in db.pids {
        id, wasNew := db.pids[exe], false;
        assert id in db.pids.Values;
        db := db.(processes := db.processes[id := db.processes[id].(name := name, lastSeen := ts)]);
      } else {
        id, wasNew := |db.pids| + 1, true;
        db := db.(pids := db.pids[exe := id], processes := db.processes[id := ProcessRow(name, ts, ts, None)]);
      }
    }

    method RecordIdentity(pid: nat, ident: Identity) returns (inserted: bool)
      requires pid in db.processes
      modifies this`db
      ensures db == WithIdentity(old(db), pid, ident)
      ensures inserted == ((pid, ident.kind, ident.value) !in old(db).identities)
    {
      var key := (pid, ident.kind, ident.value);
      inserted := key !in db.identities;
      if inserted {
        db := db.(identities := db.identities[key := ident]);
      }
      db := db.(processes := db.processes[pid := db.processes[pid].(current := Some((ident.kind, ident.value)))]);
    }

    method NoteLabel(pid: nat, dest: string) returns (isNew: bool)
      modifies this`db
      ensures isNew == ((pid, dest) !in old(db).labels)
      ensures db == old(db).(labels := old(db).labels + {(pid, dest)})
    {
      isNew := (pid, dest) !in db.labels;
      db := db.(labels := db.labels + {(pid, dest)});
    }

    method NoteCountry(pid: nat, country: string) returns (isNew: bool)
      modifies this`db
      ensures isNew == ((pid, country) !in old(db).countries)
      ensures db == old(db).(countries := old(db).countries + {(pid, country)})
    {
      isNew := (pid, country) !in db.countries;
      db := db.(countries := db.countries + {(pid, country)});
    }

    method NoteAsn(pid: nat, asn: nat) returns (isNew: bool)
      modifies this`db
      ensures isNew == ((pid, asn) !in old(db).asns)
      ensures db == old(db).(asns := old(db).asns + {(pid, asn)})
    {
      isNew := (pid, asn) !in db.asns;
      db := db.(asns := db.asns + {(pid, asn)});
    }

    /** The new row's id, or nothing when an alert with this key is still cooling down. */
    method InsertAlert(a: Alert, cooldown: int) returns (id: Option<nat>)
      modifies this`db
      ensures db == WithAlert(old(db), a, cooldown)
      ensures id == if db.alerts == old(db).alerts then None else Some(|db.alerts|)
      ensures id.Some? ==> db.alerts == old(db).alerts + [a]
    {
      var recent := LastFired(db.alerts, a.dedupKey);
      if recent.Some? {
        if a.ts - recent.value < cooldown {
          return None;
        }
      }
      db := db.(alerts := db.alerts + [a]);
      id := Some(|db.alerts|);
    }
  }
}
