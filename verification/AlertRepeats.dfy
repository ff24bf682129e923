/** When the identity signal fires, from the history alone, and when it fires for an unchanged binary. */
module AlertRepeats {
  import opened Bytes
  import opened AlertTypes
  import opened AlertStore
  import opened AlertBaseline
  import opened DedupKeys
  import opened AlertEngine
  import opened AlertWrites
  import opened AlertFirings
  import opened AlertHistory
  import opened AlertIdentities
  import opened AlertRuns
  import opened VolumeLaws

  /** The alerts an observation adds to those of its history. */
  function NewAlerts(cfg: Config, h: History, ev: Observation): seq<Alert> {
    Since(After(cfg, h), After(cfg, h + [ev]))
  }

  /** The cooldown of the alert this identity would raise is running. */
  predicate IdentityCooling(cfg: Config, h: History, ev: Observation, exe: string, ident: Identity) {
    Cooling(After(cfg, h).alerts, IdentityKey(exe, ident.value), ev.ts, cfg.cooldown)
  }

  lemma ExpectedIdentity(cfg: Config, h: History, ev: Observation, pid: nat, did: nat)
    requires ev.process.Some?
    ensures var exe := Exe(ev.process.value);
      Raises(Expected(cfg, h, ev, pid, did), IdentityChange) <==>
        && ev.identity.Some? && ev.outbound && WindowOver(cfg, h + [ev]) && Baseline(h, exe).Some?
        && ChangedSince(Baseline(h, exe).value, ev.identity.value, cfg.flagSignedUpdates)
        && !IdentityCooling(cfg, h, ev, exe, ev.identity.value)
  {
    hide After, WindowOver, IsSpike, Fed, Cooling, Baseline, ChangedSince, Exe, StableLabel, Replay, FeedsOf, SpikeSeverity,
      Contacts, Countries, Networks, Executables, DestKey, CountryKey, AsnKey, EgressKey, VolumeKey, IdentityKey;
    var exe := Exe(ev.process.value);
    var part := IdentityPart(cfg, Baseline(h, exe), ev, exe, pid, did, WindowOver(cfg, h + [ev]), After(cfg, h).alerts);
    if part != [] {
      assert part[0] in Expected(cfg, h, ev, pid, did);
    }
  }

  lemma NewAreExpected(cfg: Config, h: History, ev: Observation) returns (pid: nat, did: nat)
    ensures NewAlerts(cfg, h, ev) == if ev.process.None? then [] else Expected(cfg, h, ev, pid, did)
  {
    AlertsFollowHistory(cfg, h, ev);
    hide After, Expected, Exe, DestId;
    var was, now := After(cfg, h), After(cfg, h + [ev]);
    pid, did := 0, 0;
    if ev.process.Some? {
      pid, did := now.pids[Exe(ev.process.value)], DestId(now, ev);
    }
  }

  /**
   IDENTITY. An identity alert fires exactly on an outbound observation after the learning window
   whose binary changed since the first sighting of the kind and value last seen, out of cooldown.
   */
  lemma IdentityFires(cfg: Config, h: History, ev: Observation)
    ensures Raises(NewAlerts(cfg, h, ev), IdentityChange) <==>
      && ev.process.Some? && ev.identity.Some? && ev.outbound && WindowOver(cfg, h + [ev])
      && var exe, ident := Exe(ev.process.value), ev.identity.value;
        && Baseline(h, exe).Some? && ChangedSince(Baseline(h, exe).value, ident, cfg.flagSignedUpdates)
        && !IdentityCooling(cfg, h, ev, exe, ident)
  {
    hide NewAlerts, Expected, Raises, WindowOver, Baseline, ChangedSince, IdentityCooling, Exe;
    var pid, did := NewAreExpected(cfg, h, ev);
    if ev.process.Some? {
      ExpectedIdentity(cfg, h, ev, pid, did);
    } else {
      NothingRaised(IdentityChange);
    }
  }

  lemma NothingRaised(kind: Kind)
    ensures !Raises([], kind)
  {
  }

  /** The identity last observed for an executable. */
  function LatestIdentity(h: History, exe: string): Option<Identity> {
    if h == [] then None else
    var last := h[|h| - 1];
    if By(last, exe) && last.identity.Some? then last.identity else LatestIdentity(h[..|h| - 1], exe)
  }

  lemma {:induction false} LatestHasKey(h: History, exe: string)
    ensures LatestIdentity(h, exe).Some? ==>
      && LatestKey(h, exe) == Some(KeyOf(LatestIdentity(h, exe).value))
      && FirstWith(h, exe, KeyOf(LatestIdentity(h, exe).value)).Some?
  {
    if h != [] {
      hide By, KeyOf;
      LatestHasKey(h[..|h| - 1], exe);
    }
  }

  /**
   REPEATS. A binary seen exactly as it was seen last has not changed, and yet it raises an identity
   alert if and only if it differs from the first sighting of its kind and value and the alert
   is not cooling: the change is reported again after every cooldown.
   */
  lemma UnchangedYetRaised(cfg: Config, h: History, ev: Observation, exe: string)
    requires By(ev, exe) && ev.outbound && ev.identity.Some? && LatestIdentity(h, exe) == ev.identity
    ensures var ident := ev.identity.value;
      && FirstWith(h, exe, KeyOf(ident)).Some?
      && (Raises(NewAlerts(cfg, h, ev), IdentityChange) <==>
          && WindowOver(cfg, h + [ev])
          && ChangedSince(FirstWith(h, exe, KeyOf(ident)).value, ident, cfg.flagSignedUpdates)
          && !IdentityCooling(cfg, h, ev, exe, ident))
  {
    hide NewAlerts, Raises, WindowOver, ChangedSince, IdentityCooling, FirstWith, LatestIdentity, LatestKey, Exe;
    LatestHasKey(h, exe);
    IdentityFires(cfg, h, ev);
  }

  // ---------------------------------------------------------------- an input on which it happens

  const TOOL := SocketProc(7, "tool", Some("/bin/tool"))

  /** The same file under the same hash, its signature in the given state. */
  function Sighting(ts: i64, status: IdentityStatus): Observation {
    Observation(ts, Some(TOOL), Some(Identity(Sha256, "ab", None, None, status)),
                "192.0.2.1", None, "", GeoInfo(None, None, None), 0, true)
  }

  /** Signed, then twice not, a cooldown of a hundred apart and after a learning window of ten. */
  const TWICE_INVALID: History := [Sighting(0, Valid), Sighting(20, Invalid), Sighting(120, Invalid)]

  predicate Stamped(alerts: seq<Alert>, ts: i64) {
    forall a <- alerts :: a.ts == ts
  }

  lemma NoveltyStamped(ev: Observation, exe: string, pid: nat, did: nat, novel: bool)
    ensures Stamped(EgressPart(ev, exe, pid, did, novel), ev.ts) && Stamped(DestPart(ev, pid, did, novel), ev.ts)
    ensures Stamped(CountryPart(ev, pid, did, novel), ev.ts) && Stamped(AsnPart(ev, pid, did, novel), ev.ts)
  {
    hide StableLabel, DestKey, CountryKey, AsnKey, EgressKey;
  }

  lemma OthersStamped(cfg: Config, base: Option<Identity>, was: Option<VolumeStat>, ev: Observation, exe: string,
                      pid: nat, did: nat, active: bool, stored: seq<Alert>)
    ensures Stamped(IdentityPart(cfg, base, ev, exe, pid, did, active, stored), ev.ts)
    ensures Stamped(VolumePart(cfg, was, ev, pid, did, active, stored), ev.ts)
  {
    hide IsSpike, Fed, Cooling, ChangedSince, SpikeSeverity, IdentityKey, VolumeKey;
  }

  lemma StampedJoin(xs: seq<Alert>, ys: seq<Alert>, ts: i64)
    requires Stamped(xs, ts) && Stamped(ys, ts)
    ensures Stamped(xs + ys, ts)
  {
  }

  lemma ExpectedStamped(cfg: Config, h: History, ev: Observation, pid: nat, did: nat)
    requires ev.process.Some?
    ensures Stamped(Expected(cfg, h, ev, pid, did), ev.ts)
  {
    var exe, active, stored := Exe(ev.process.value), WindowOver(cfg, h + [ev]), After(cfg, h).alerts;
    var egress := EgressPart(ev, exe, pid, did, active && exe !in Executables(h));
    var identity := IdentityPart(cfg, Baseline(h, exe), ev, exe, pid, did, active, stored);
    var dest := DestPart(ev, pid, did, active && (exe, StableLabel(ev)) !in Contacts(h));
    var country := CountryPart(ev, pid, did, active && ev.geo.country.Some? && (exe, ev.geo.country.value) !in Countries(h));
    var asn := AsnPart(ev, pid, did, active && ev.geo.asn.Some? && (exe, ev.geo.asn.value) !in Networks(h));
    var volume := VolumePart(cfg, Replay(cfg, FeedsOf(h, exe)).0, ev, pid, did, active, stored);
    assert Expected(cfg, h, ev, pid, did) == egress + (identity + dest + country + asn) + volume;
    hide *;
    NoveltyStamped(ev, exe, pid, did, active && exe !in Executables(h));
    NoveltyStamped(ev, exe, pid, did, active && (exe, StableLabel(ev)) !in Contacts(h));
    NoveltyStamped(ev, exe, pid, did, active && ev.geo.country.Some? && (exe, ev.geo.country.value) !in Countries(h));
    NoveltyStamped(ev, exe, pid, did, active && ev.geo.asn.Some? && (exe, ev.geo.asn.value) !in Networks(h));
    OthersStamped(cfg, Baseline(h, exe), Replay(cfg, FeedsOf(h, exe)).0, ev, exe, pid, did, active, stored);
    StampedJoin(identity, dest, ev.ts);
    StampedJoin(identity + dest, country, ev.ts);
    StampedJoin(identity + dest + country, asn, ev.ts);
    StampedJoin(egress, identity + dest + country + asn, ev.ts);
    StampedJoin(egress + (identity + dest + country + asn), volume, ev.ts);
  }

  lemma SecondIsStamped(cfg: Config)
    requires cfg.learningWindow == 10
    ensures Stamped(After(cfg, TWICE_INVALID[..2]).alerts, 20)
  {
    var h, ev := TWICE_INVALID[..1], TWICE_INVALID[1];
    assert TWICE_INVALID[..2] == h + [ev];
    assert !WindowOver(cfg, h);
    LearningIsSilent(cfg, h);
    AlertsFollowHistory(cfg, h, ev);
    hide After, Expected, Exe, DestId, Stamped;
    var now := After(cfg, h + [ev]);
    assert now.alerts == Expected(cfg, h, ev, now.pids[Exe(TOOL)], DestId(now, ev));
    ExpectedStamped(cfg, h, ev, now.pids[Exe(TOOL)], DestId(now, ev));
  }

  lemma SecondHasRested(cfg: Config, key: string)
    requires cfg.learningWindow == 10 && cfg.cooldown == 100
    ensures !Cooling(After(cfg, TWICE_INVALID[..2]).alerts, key, 120, cfg.cooldown)
  {
    SecondIsStamped(cfg);
    hide After;
  }

  lemma SecondIsLatest()
    ensures var h, first := TWICE_INVALID[..2], TWICE_INVALID[0].identity.value;
      && LatestIdentity(h, "/bin/tool") == TWICE_INVALID[1].identity
      && FirstWith(h, "/bin/tool", KeyOf(first)) == Some(first)
  {
    var h, first := TWICE_INVALID[..2], TWICE_INVALID[0].identity.value;
    assert h[..1][..0] == [] && h[..1][0] == TWICE_INVALID[0];
    assert FirstWith(h[..1], "/bin/tool", KeyOf(first)) == Some(first);
  }

  lemma ThirdIsPastWindow(cfg: Config)
    requires cfg.learningWindow == 10
    ensures WindowOver(cfg, TWICE_INVALID)
  {
    assert TWICE_INVALID[1].ts >= Saturate(TWICE_INVALID[0].ts + cfg.learningWindow);
  }

  lemma ThirdIsUnsigned(flag: bool)
    ensures var first, ev := TWICE_INVALID[0].identity.value, TWICE_INVALID[2];
      && By(ev, "/bin/tool") && KeyOf(ev.identity.value) == KeyOf(first) && ChangedSince(first, ev.identity.value, flag)
  {
  }

  /** The third observation equals the second but for its time, and raises the alert all the same. */
  lemma RaisedTwice(cfg: Config)
    requires cfg.learningWindow == 10 && cfg.cooldown == 100
    ensures var h, ev := TWICE_INVALID[..2], TWICE_INVALID[2];
      && LatestIdentity(h, "/bin/tool") == ev.identity
      && Raises(NewAlerts(cfg, h, ev), IdentityChange)
  {
    var h, ev, exe := TWICE_INVALID[..2], TWICE_INVALID[2], "/bin/tool";
    assert h + [ev] == TWICE_INVALID;
    assert ev.outbound && ev.ts == 120 && ev.identity.value.value == "ab" && ev.identity == TWICE_INVALID[1].identity;
    SecondIsLatest();
    ThirdIsPastWindow(cfg);
    ThirdIsUnsigned(cfg.flagSignedUpdates);
    SecondHasRested(cfg, IdentityKey(exe, "ab"));
    assert !IdentityCooling(cfg, h, ev, exe, ev.identity.value) by {
      hide After, Cooling, IdentityKey;
    }
    hide *;
    UnchangedYetRaised(cfg, h, ev, exe);
  }
}
