/** What the alerts say: changed binaries, volume spikes, severities, executables and the learning window. */
module AlertMeanings {
  import opened Bytes
  import opened Decimals
  import opened AlertTypes
  import opened AlertStore
  import opened AlertBaseline
  import opened DedupKeys
  import opened AlertEngine
  import opened AlertFirings
  import opened AlertHistory
  import opened AlertIdentities
  import opened AlertRuns
  import opened AlertRepeats
  import opened VolumeLaws

  // ---------------------------------------------------------------- changed binaries

  /** Both are signed for macOS by the same team under the same signing id. */
  predicate SameSigner(a: Identity, b: Identity) {
    a.kind == b.kind == MacCodesign && a.teamId == b.teamId && a.signingId == b.signingId
  }

  /** A valid signature that no longer is. */
  predicate Regressed(a: Identity, b: Identity) {
    a.status == Valid && b.status in {Unsigned, AdHoc, Invalid}
  }

  /**
   CHANGES. A binary that could be read both times has changed exactly when its signature regressed or its
   value differs, except that a signed update counts only if the setting says so and
   another signer counts whatever the value.
   */
  lemma ChangesExactly(a: Identity, b: Identity, flag: bool)
    ensures Unreadable in {a.status, b.status} ==> !ChangedSince(a, b, flag)
    ensures Unreadable !in {a.status, b.status} && Regressed(a, b) ==> ChangedSince(a, b, flag)
    ensures Unreadable !in {a.status, b.status} && !Regressed(a, b) && SameSigner(a, b) ==>
      (ChangedSince(a, b, flag) <==> flag && a.value != b.value)
    ensures Unreadable !in {a.status, b.status} && !SameSigner(a, b) && a.kind == b.kind == MacCodesign ==>
      ChangedSince(a, b, flag)
    ensures Unreadable !in {a.status, b.status} && !Regressed(a, b) && !(a.kind == b.kind == MacCodesign) ==>
      (ChangedSince(a, b, flag) <==> a.value != b.value)
  {
  }

  /** An update by the same signer is silent in every history, unless the setting asks for it or the signature regressed. */
  lemma SignedUpdateIsSilent(cfg: Config, h: History, ev: Observation, exe: string)
    requires By(ev, exe) && ev.identity.Some? && !cfg.flagSignedUpdates
    requires Baseline(h, exe).Some? && SameSigner(Baseline(h, exe).value, ev.identity.value)
    requires !Regressed(Baseline(h, exe).value, ev.identity.value)
    ensures !Raises(NewAlerts(cfg, h, ev), IdentityChange)
  {
    hide NewAlerts, Raises, Baseline, ChangedSince;
    ChangesExactly(Baseline(h, exe).value, ev.identity.value, false);
    AlertRepeats.IdentityFires(cfg, h, ev);
  }

  /** Another signer raises an alert on the first outbound observation after the window, out of cooldown. */
  lemma OtherSignerFires(cfg: Config, h: History, ev: Observation, exe: string)
    requires By(ev, exe) && ev.outbound && WindowOver(cfg, h + [ev]) && ev.identity.Some? && Baseline(h, exe).Some?
    requires var a, b := Baseline(h, exe).value, ev.identity.value;
      a.kind == b.kind == MacCodesign && !SameSigner(a, b) && Unreadable !in {a.status, b.status}
    ensures Raises(NewAlerts(cfg, h, ev), IdentityChange) <==> !IdentityCooling(cfg, h, ev, exe, ev.identity.value)
  {
    hide NewAlerts, Raises, Baseline, ChangedSince, WindowOver, IdentityCooling;
    ChangesExactly(Baseline(h, exe).value, ev.identity.value, cfg.flagSignedUpdates);
    AlertRepeats.IdentityFires(cfg, h, ev);
  }

  // ---------------------------------------------------------------- executables

  /** A process is known by its path, and without one by its number. */
  lemma ExecutableIs(ev: Observation, exe: string)
    ensures By(ev, exe) <==> ev.process.Some? && var p := ev.process.value;
      p.exePath == Some(exe) || (p.exePath == None && exe == ['p', 'i', 'd', ':'] + Decimal(p.pid))
  {
  }

  /** Processes without a path are told apart by their numbers. */
  lemma PathlessAreApart(a: SocketProc, b: SocketProc)
    requires a.exePath == None == b.exePath
    ensures Exe(a) == Exe(b) <==> a.pid == b.pid
  {
    if Exe(a) == Exe(b) {
      assert Decimal(a.pid) == Exe(a)[4..] == Exe(b)[4..] == Decimal(b.pid);
      DecimalUnique(a.pid, b.pid);
    }
  }

  // ---------------------------------------------------------------- the learning window

  /**
   THE WINDOW ends once an observation came a whole window after the first one. A window that would end
   beyond the last 64-bit instant ends at that instant.
   */
  lemma WindowOverExactly(cfg: Config, h: History)
    requires cfg.learningWindow >= 0
    ensures WindowOver(cfg, h) <==>
      exists e <- h :: e.ts as int - h[0].ts as int >= cfg.learningWindow as int || e.ts == 0x7FFF_FFFF_FFFF_FFFF
  {
    if WindowOver(cfg, h) {
      var i :| 0 <= i < |h| && h[i].ts >= Saturate(h[0].ts + cfg.learningWindow);
      assert h[i] in h;
    }
  }

  // ---------------------------------------------------------------- volume spikes

  /** The sample the observation closes for its process, if its interval has passed. */
  function SampleOf(cfg: Config, h: History, ev: Observation, exe: string): Option<Sample> {
    Fed(cfg, Replay(cfg, FeedsOf(h, exe)).0, ev.bytesUp, ev.ts).1
  }

  /** How far above its history a sample is, in standard deviations; without any spread, more is infinitely far. */
  predicate FarAbove(s: Sample, std: real, threshold: real)
    requires std >= 0.0
  {
    if std > 0.0 then (s.x - s.mean) / std >= threshold else s.x > s.mean || threshold <= 0.0
  }

  lemma SpikeIs(cfg: Config, s: Sample, std: real)
    requires std >= 0.0 && std * std == s.variance
    ensures IsSpike(cfg, s) <==> s.samples >= cfg.minSamples && s.x >= cfg.floor as real && FarAbove(s, std, cfg.zThreshold)
  {
    if std > 0.0 {
      ScoreIsDeviations(s.x, s.mean, std, cfg.zThreshold);
    }
  }

  /** The process the tables know the executable by, after the observation. */
  function RowIdOf(cfg: Config, h: History, ev: Observation, exe: string): nat {
    var pids := After(cfg, h + [ev]).pids;
    if exe in pids then pids[exe] else 0
  }

  lemma ExpectedSpike(cfg: Config, h: History, ev: Observation, pid: nat, did: nat)
    requires ev.process.Some?
    ensures var s := SampleOf(cfg, h, ev, Exe(ev.process.value));
      Raises(Expected(cfg, h, ev, pid, did), VolumeSpike) <==>
        && WindowOver(cfg, h + [ev]) && s.Some? && IsSpike(cfg, s.value)
        && !Cooling(After(cfg, h).alerts, VolumeKey(pid), ev.ts, cfg.cooldown)
  {
    hide After, WindowOver, IsSpike, Fed, Cooling, Baseline, ChangedSince, Exe, StableLabel, Replay, FeedsOf, SpikeSeverity,
      Contacts, Countries, Networks, Executables, DestKey, CountryKey, AsnKey, EgressKey, VolumeKey, IdentityKey;
    var exe := Exe(ev.process.value);
    var part := VolumePart(cfg, Replay(cfg, FeedsOf(h, exe)).0, ev, pid, did, WindowOver(cfg, h + [ev]), After(cfg, h).alerts);
    if part != [] {
      assert part[0] in Expected(cfg, h, ev, pid, did);
    }
  }

  /**
   SPIKES. A volume alert fires exactly when the window is over and the interval just closed has enough
   samples behind it, reaches the floor and lies the threshold above its history, out of cooldown.
   The direction of the observation does not matter.
   */
  lemma SpikesExactly(cfg: Config, h: History, ev: Observation, exe: string, std: real)
    requires By(ev, exe)
    requires std >= 0.0 && (SampleOf(cfg, h, ev, exe).Some? ==> std * std == SampleOf(cfg, h, ev, exe).value.variance)
    ensures var s := SampleOf(cfg, h, ev, exe);
      Raises(NewAlerts(cfg, h, ev), VolumeSpike) <==>
        && WindowOver(cfg, h + [ev]) && s.Some?
        && s.value.samples >= cfg.minSamples && s.value.x >= cfg.floor as real && FarAbove(s.value, std, cfg.zThreshold)
        && !Cooling(After(cfg, h).alerts, VolumeKey(RowIdOf(cfg, h, ev, exe)), ev.ts, cfg.cooldown)
  {
    AlertsFollowHistory(cfg, h, ev);
    var was, now := After(cfg, h), After(cfg, h + [ev]);
    var s := SampleOf(cfg, h, ev, exe);
    hide After, Expected, Exe, Raises, DestId, WindowOver, SampleOf, IsSpike, Cooling, FarAbove;
    var pid, did := now.pids[exe], DestId(now, ev);
    ExpectedSpike(cfg, h, ev, pid, did);
    assert now.alerts[|was.alerts|..] == Expected(cfg, h, ev, pid, did);
    if s.Some? {
      SpikeIs(cfg, s.value, std);
    }
  }

  // ---------------------------------------------------------------- severities

  /** How an alert is graded; a volume spike by whether it reaches ten times the mean and ten bytes. */
  predicate Graded(a: Alert, s: Option<Sample>) {
    match a.kind
    case NewProcessDest => a.severity == Notice
    case NewGeo => a.severity == Notice
    case NewProcessEgress => a.severity == Warning
    case IdentityChange => a.severity == Critical
    case VolumeSpike =>
      && s.Some?
      && a.severity == if s.value.x >= 10.0 && s.value.x >= 10.0 * s.value.mean then Critical else Warning
  }

  ghost predicate AllGraded(alerts: seq<Alert>, s: Option<Sample>) {
    forall a <- alerts :: Graded(a, s)
  }

  lemma AllGradedJoin(xs: seq<Alert>, ys: seq<Alert>, s: Option<Sample>)
    requires AllGraded(xs, s) && AllGraded(ys, s)
    ensures AllGraded(xs + ys, s)
  {
  }

  lemma NoveltyGraded(ev: Observation, exe: string, pid: nat, did: nat, novel: bool, s: Option<Sample>)
    ensures AllGraded(EgressPart(ev, exe, pid, did, novel), s) && AllGraded(DestPart(ev, pid, did, novel), s)
    ensures AllGraded(CountryPart(ev, pid, did, novel), s) && AllGraded(AsnPart(ev, pid, did, novel), s)
  {
    hide StableLabel, DestKey, CountryKey, AsnKey, EgressKey;
  }

  lemma OthersGraded(cfg: Config, base: Option<Identity>, was: Option<VolumeStat>, ev: Observation, exe: string,
                     pid: nat, did: nat, active: bool, stored: seq<Alert>)
    ensures var s := Fed(cfg, was, ev.bytesUp, ev.ts).1;
      && AllGraded(IdentityPart(cfg, base, ev, exe, pid, did, active, stored), s)
      && AllGraded(VolumePart(cfg, was, ev, pid, did, active, stored), s)
  {
    hide IsSpike, Fed, Cooling, ChangedSince, IdentityKey, VolumeKey;
  }

  lemma ExpectedGraded(cfg: Config, h: History, ev: Observation, pid: nat, did: nat)
    requires ev.process.Some?
    ensures AllGraded(Expected(cfg, h, ev, pid, did), SampleOf(cfg, h, ev, Exe(ev.process.value)))
  {
    var exe, active, stored := Exe(ev.process.value), WindowOver(cfg, h + [ev]), After(cfg, h).alerts;
    var s := SampleOf(cfg, h, ev, exe);
    var egress := EgressPart(ev, exe, pid, did, active && exe !in Executables(h));
    var identity := IdentityPart(cfg, Baseline(h, exe), ev, exe, pid, did, active, stored);
    var dest := DestPart(ev, pid, did, active && (exe, StableLabel(ev)) !in Contacts(h));
    var country := CountryPart(ev, pid, did, active && ev.geo.country.Some? && (exe, ev.geo.country.value) !in Countries(h));
    var asn := AsnPart(ev, pid, did, active && ev.geo.asn.Some? && (exe, ev.geo.asn.value) !in Networks(h));
    var volume := VolumePart(cfg, Replay(cfg, FeedsOf(h, exe)).0, ev, pid, did, active, stored);
    assert Expected(cfg, h, ev, pid, did) == egress + (identity + dest + country + asn) + volume;
    assert s == Fed(cfg, Replay(cfg, FeedsOf(h, exe)).0, ev.bytesUp, ev.ts).1;
    hide *;
    NoveltyGraded(ev, exe, pid, did, active && exe !in Executables(h), s);
    NoveltyGraded(ev, exe, pid, did, active && (exe, StableLabel(ev)) !in Contacts(h), s);
    NoveltyGraded(ev, exe, pid, did, active && ev.geo.country.Some? && (exe, ev.geo.country.value) !in Countries(h), s);
    NoveltyGraded(ev, exe, pid, did, active && ev.geo.asn.Some? && (exe, ev.geo.asn.value) !in Networks(h), s);
    OthersGraded(cfg, Baseline(h, exe), Replay(cfg, FeedsOf(h, exe)).0, ev, exe, pid, did, active, stored);
    AllGradedJoin(identity, dest, s);
    AllGradedJoin(identity + dest, country, s);
    AllGradedJoin(identity + dest + country, asn, s);
    AllGradedJoin(egress, identity + dest + country + asn, s);
    AllGradedJoin(egress + (identity + dest + country + asn), volume, s);
  }

  /** SEVERITIES. Every alert an observation adds is graded by its kind, a spike by its size. */
  lemma AlertsAreGraded(cfg: Config, h: History, ev: Observation, exe: string)
    requires By(ev, exe)
    ensures AllGraded(NewAlerts(cfg, h, ev), SampleOf(cfg, h, ev, exe))
  {
    hide NewAlerts, Expected, AllGraded, SampleOf;
    var pid, did := NewAreExpected(cfg, h, ev);
    ExpectedGraded(cfg, h, ev, pid, did);
  }
}
