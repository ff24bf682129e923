/** The recorded identity of a process, over the whole history. */
module AlertIdentities {
  import opened Bytes
  import opened AlertTypes
  import opened AlertStore
  import opened AlertBaseline
  import opened AlertEngine
  import opened AlertWrites
  import opened AlertFirings
  import opened AlertHistory

  type BinaryKey = (IdentityKind, string)

  function KeyOf(ident: Identity): BinaryKey {
    (ident.kind, ident.value)
  }

  /** The kind and value last observed for an executable. */
  function LatestKey(h: History, exe: string): Option<BinaryKey> {
    if h == [] then None else
    var last := h[|h| - 1];
    if By(last, exe) && last.identity.Some? then Some(KeyOf(last.identity.value)) else LatestKey(h[..|h| - 1], exe)
  }

  /** The first identity with this kind and value observed for an executable. */
  function FirstWith(h: History, exe: string, key: BinaryKey): Option<Identity> {
    if h == [] then None else
    var before, last := FirstWith(h[..|h| - 1], exe, key), h[|h| - 1];
    if before.Some? then before
    else if By(last, exe) && last.identity.Some? && KeyOf(last.identity.value) == key then last.identity
    else None
  }

  /** What the identity signal compares with: the first sighting of the latest kind and value. */
  function Baseline(h: History, exe: string): Option<Identity> {
    var key := LatestKey(h, exe);
    if key.None? then None else FirstWith(h, exe, key.value)
  }

  function CurrentOf(db: Tables, pid: nat): Option<BinaryKey> {
    if pid in db.processes then db.processes[pid].current else None
  }

  function RowWith(db: Tables, pid: nat, key: BinaryKey): Option<Identity> {
    if (pid, key.0, key.1) in db.identities then Some(db.identities[(pid, key.0, key.1)]) else None
  }

  lemma CurrentIsRow(db: Tables, pid: nat)
    ensures CurrentIdentity(db, pid)
         == if CurrentOf(db, pid).None? then None else RowWith(db, pid, CurrentOf(db, pid).value)
  {
  }

  // ---------------------------------------------------------------- what one observation records

  lemma KnownRecords(cfg: Config, db: Tables, ev: Observation, q: nat)
    requires ev.process.Some? && Numbered(db)
    ensures CurrentOf(KnownBy(cfg, db, ev), q) == CurrentOf(db, q)
    ensures KnownBy(cfg, db, ev).identities == db.identities
  {
    OpenedIsLocal(cfg, db, ev);
    var exe := Exe(ev.process.value);
    if exe in db.pids {
      RowExists(db, exe);
    } else {
      NextIdIsNew(db, exe);
    }
    hide Numbered, WithAlert, Opened, Exe;
  }

  lemma StageRecords(cfg: Config, db: Tables, ev: Observation, exe: string, pid: nat, q: nat, key: BinaryKey)
    requires pid in db.processes
    ensures var r, mine := IdentityStage(cfg, db, ev, exe, pid), q == pid && ev.identity.Some?;
      && CurrentOf(r, q) == (if mine then Some(KeyOf(ev.identity.value)) else CurrentOf(db, q))
      && RowWith(r, q, key) ==
         if RowWith(db, q, key).None? && mine && KeyOf(ev.identity.value) == key then ev.identity else RowWith(db, q, key)
  {
    hide Cooling, ChangedSince, CurrentIdentity;
  }

  lemma ObserveRecords(cfg: Config, db: Tables, ev: Observation, q: nat, key: BinaryKey)
    requires ev.process.Some? && Numbered(db)
    ensures var r, mine := Observe(cfg, db, ev), q == PidAfter(db.pids, Exe(ev.process.value)) && ev.identity.Some?;
      && CurrentOf(r, q) == (if mine then Some(KeyOf(ev.identity.value)) else CurrentOf(db, q))
      && RowWith(r, q, key) ==
         if RowWith(db, q, key).None? && mine && KeyOf(ev.identity.value) == key then ev.identity else RowWith(db, q, key)
  {
    var pid, d := PidAfter(db.pids, Exe(ev.process.value)), KnownBy(cfg, db, ev);
    ObserveIsSignals(cfg, db, ev);
    hide Numbered, Observe, Signals, KnownBy, Exe, PidAfter, IdentityStage, KeyOf;
    KnownRecords(cfg, db, ev, q);
    SignalsWrite(cfg, d, ev, Exe(ev.process.value), pid);
    StageRecords(cfg, d, ev, Exe(ev.process.value), pid, q, key);
    SameRecords(Signals(cfg, d, ev, Exe(ev.process.value), pid), IdentityStage(cfg, d, ev, Exe(ev.process.value), pid), q, key);
    SameRecords(d, db.(processes := d.processes), q, key);
  }

  lemma SameRecords(a: Tables, b: Tables, q: nat, key: BinaryKey)
    requires a.processes == b.processes && a.identities == b.identities
    ensures CurrentOf(a, q) == CurrentOf(b, q) && RowWith(a, q, key) == RowWith(b, q, key)
  {
  }

  // ---------------------------------------------------------------- the identity rows

  ghost predicate RowFollows(h: History, db: Tables, exe: string, pid: nat, key: BinaryKey) {
    CurrentOf(db, pid) == LatestKey(h, exe) && RowWith(db, pid, key) == FirstWith(h, exe, key)
  }

  ghost predicate IdentitiesFollow(h: History, db: Tables) {
    && (forall exe, key :: exe in db.pids ==> RowFollows(h, db, exe, db.pids[exe], key))
    && (forall q: nat, key :: q > |db.pids| ==> RowWith(db, q, key).None?)
  }

  lemma {:induction false} UnseenHasNone(h: History, exe: string, key: BinaryKey)
    requires exe !in Executables(h)
    ensures LatestKey(h, exe) == None && FirstWith(h, exe, key) == None
  {
    if h != [] {
      var n := |h| - 1;
      HistoryGrows(h[..n], h[n]);
      assert h == h[..n] + [h[n]];
      UnseenHasNone(h[..n], exe, key);
    }
  }

  /** Known or not, the process is found as the history leaves it. */
  lemma FoundAsRecorded(h: History, db: Tables, exe: string, key: BinaryKey)
    requires ProcessesNoted(h, db) && IdentitiesFollow(h, db)
    ensures RowFollows(h, db, exe, PidAfter(db.pids, exe), key)
  {
    if exe !in db.pids {
      hide Executables, FirstWith, LatestKey, RowWith;
      UnseenHasNone(h, exe, key);
      NextIdIsNew(db, exe);
    }
  }

  lemma LatestGrows(h: History, ev: Observation, exe: string, key: BinaryKey)
    ensures LatestKey(h + [ev], exe)
         == if By(ev, exe) && ev.identity.Some? then Some(KeyOf(ev.identity.value)) else LatestKey(h, exe)
    ensures FirstWith(h + [ev], exe, key)
         == if FirstWith(h, exe, key).None? && By(ev, exe) && ev.identity.Some? && KeyOf(ev.identity.value) == key
            then ev.identity else FirstWith(h, exe, key)
  {
    assert (h + [ev])[..|h|] == h;
  }

  lemma RowFollowsMore(cfg: Config, h: History, db: Tables, ev: Observation, exe: string, pid: nat, key: BinaryKey)
    requires ev.process.Some? && Numbered(db) && RowFollows(h, db, exe, pid, key)
    requires By(ev, exe) <==> pid == PidAfter(db.pids, Exe(ev.process.value))
    ensures RowFollows(h + [ev], Observe(cfg, db, ev), exe, pid, key)
  {
    hide Numbered, Observe, Exe, PidAfter, CurrentOf, RowWith, LatestKey, FirstWith, KeyOf, By;
    ObserveRecords(cfg, db, ev, pid, key);
    LatestGrows(h, ev, exe, key);
  }

  lemma KnownRowFollows(cfg: Config, h: History, db: Tables, ev: Observation, exe: string, key: BinaryKey)
    requires ev.process.Some? && ProcessesNoted(h, db) && IdentitiesFollow(h, db) && exe in Observe(cfg, db, ev).pids
    ensures var r := Observe(cfg, db, ev); RowFollows(h + [ev], r, exe, r.pids[exe], key)
  {
    var mine := Exe(ev.process.value);
    NoveltyWrites(cfg, db, ev);
    NumberedIds(db);
    hide Numbered, Observe, Exe, RowFollows, Executables, StableLabel;
    var pid := Observe(cfg, db, ev).pids[exe];
    if exe == mine {
      FoundAsRecorded(h, db, exe, key);
    } else {
      assert RowFollows(h, db, exe, db.pids[exe], key);
      OtherIds(db.pids, mine, exe);
    }
    RowFollowsMore(cfg, h, db, ev, exe, pid, key);
  }

  lemma IdentitiesMore(cfg: Config, h: History, db: Tables, ev: Observation)
    requires ev.process.Some? && ProcessesNoted(h, db) && IdentitiesFollow(h, db)
    ensures IdentitiesFollow(h + [ev], Observe(cfg, db, ev))
  {
    var r := Observe(cfg, db, ev);
    NoveltyWrites(cfg, db, ev);
    hide Numbered, Observe, Exe, RowFollows, Executables, StableLabel, RowWith;
    forall exe, key | exe in r.pids
      ensures RowFollows(h + [ev], r, exe, r.pids[exe], key)
    {
      KnownRowFollows(cfg, h, db, ev, exe, key);
    }
    PidInRange(db, Exe(ev.process.value));
    forall q: nat, key | q > |r.pids|
      ensures RowWith(r, q, key).None?
    {
      ObserveRecords(cfg, db, ev, q, key);
    }
  }

  lemma PidInRange(db: Tables, exe: string)
    requires Numbered(db)
    ensures var pid := PidAfter(db.pids, exe); |db.pids| <= |db.pids[exe := pid]| && pid <= |db.pids[exe := pid]|
  {
    if exe in db.pids {
      assert db.pids == db.pids[exe := db.pids[exe]];
    }
  }

  /** The identity an observation is compared with is the first sighting of the latest one. */
  lemma BaselineIsFirstSighting(h: History, db: Tables, exe: string)
    requires ProcessesNoted(h, db) && IdentitiesFollow(h, db)
    ensures CurrentIdentity(db, PidAfter(db.pids, exe)) == Baseline(h, exe)
  {
    hide Executables, FirstWith, LatestKey, RowWith, CurrentOf, IdentitiesFollow, ProcessesNoted, CurrentIdentity, PidAfter;
    var pid, key := PidAfter(db.pids, exe), LatestKey(h, exe);
    CurrentIsRow(db, pid);
    FoundAsRecorded(h, db, exe, if key.Some? then key.value else (Unknown, ""));
  }
}
