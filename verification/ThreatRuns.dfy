/** The sliding windows of the threat tracker, over whole packet streams. */
module ThreatRuns {
  import opened Bytes
  import opened FlowKeys
  import opened Threats

  type Stream = seq<Packet>

  function After(h: Stream): map<IpAddr, seq<Attempt>> {
    if h == [] then map[] else Advance(After(h[..|h| - 1]), h[|h| - 1])
  }

  /** A connection attempt by this source. */
  predicate AttemptBy(p: Packet, src: IpAddr) {
    ConnOf(p).Some? && Initiates(ConnOf(p).value) && ConnOf(p).value.src == src
  }

  function AttemptOf(p: Packet): Attempt
    requires ConnOf(p).Some?
  {
    (p.ts, ConnOf(p).value.dst, ConnOf(p).value.dport)
  }

  /** Every connection attempt of a source, in order. */
  function Attempts(h: Stream, src: IpAddr): seq<Attempt> {
    if h == [] then [] else
    var before, last := Attempts(h[..|h| - 1], src), h[|h| - 1];
    if AttemptBy(last, src) then before + [AttemptOf(last)] else before
  }

  function WindowOf(attempts: seq<Attempt>): seq<Attempt> {
    if attempts == [] then [] else Recorded(WindowOf(attempts[..|attempts| - 1]), attempts[|attempts| - 1])
  }

  /** The table holds one window per source, each built from that source's attempts alone. */
  lemma {:induction false} WindowsAreSeparate(h: Stream, src: IpAddr)
    ensures WindowIn(After(h), src) == WindowOf(Attempts(h, src))
    ensures src in After(h) <==> Attempts(h, src) != []
  {
    if h == [] {
    } else {
      hide Gather, Recorded;
      var n, last := |h| - 1, h[|h| - 1];
      WindowsAreSeparate(h[..n], src);
      if AttemptBy(last, src) {
        var before := Attempts(h[..n], src);
        assert (before + [AttemptOf(last)])[..|before|] == before;
      }
    }
  }

  // ---------------------------------------------------------------- monotone clocks

  ghost predicate Monotone(attempts: seq<Attempt>) {
    forall i, j :: 0 <= i < j < |attempts| ==> attempts[i].0 <= attempts[j].0
  }

  function Since(attempts: seq<Attempt>, cutoff: int): seq<Attempt> {
    if attempts == [] then [] else
    var before, last := Since(attempts[..|attempts| - 1], cutoff), attempts[|attempts| - 1];
    if last.0 >= cutoff then before + [last] else before
  }

  lemma {:induction false} SinceMember(attempts: seq<Attempt>, cutoff: int, e: Attempt)
    ensures e in Since(attempts, cutoff) <==> e in attempts && e.0 >= cutoff
  {
    if attempts != [] {
      SinceMember(attempts[..|attempts| - 1], cutoff, e);
      assert attempts == attempts[..|attempts| - 1] + [attempts[|attempts| - 1]];
    }
  }

  lemma {:induction false} SinceMonotone(attempts: seq<Attempt>, cutoff: int)
    requires Monotone(attempts)
    ensures Monotone(Since(attempts, cutoff))
  {
    if attempts != [] {
      var n, last := |attempts| - 1, attempts[|attempts| - 1];
      SinceMonotone(attempts[..n], cutoff);
      var before := Since(attempts[..n], cutoff);
      forall i | 0 <= i < |before|
        ensures before[i].0 <= last.0
      {
        SinceMember(attempts[..n], cutoff, before[i]);
        var j :| 0 <= j < n && attempts[..n][j] == before[i];
        assert attempts[j].0 <= attempts[n].0;
      }
    }
  }

  /** On times in order, dropping the old front drops everything old. */
  lemma {:induction false} TrimIsSince(attempts: seq<Attempt>, cutoff: int)
    requires Monotone(attempts)
    ensures Trim(attempts, cutoff) == Since(attempts, cutoff)
  {
    if attempts == [] {
    } else if attempts[0].0 >= cutoff {
      AllSince(attempts, cutoff);
    } else {
      TrimIsSince(attempts[1..], cutoff);
      SinceTail(attempts, cutoff);
    }
  }

  lemma {:induction false} AllSince(attempts: seq<Attempt>, cutoff: int)
    requires forall e <- attempts :: e.0 >= cutoff
    ensures Since(attempts, cutoff) == attempts
  {
    if attempts != [] {
      AllSince(attempts[..|attempts| - 1], cutoff);
      assert attempts[|attempts| - 1] in attempts;
    }
  }

  lemma {:induction false} SinceTail(attempts: seq<Attempt>, cutoff: int)
    requires attempts != [] && attempts[0].0 < cutoff
    ensures Since(attempts, cutoff) == Since(attempts[1..], cutoff)
  {
    var n := |attempts| - 1;
    if n > 0 {
      SinceTail(attempts[..n], cutoff);
      assert attempts[..n][1..] == attempts[1..][..n - 1];
    } else {
      assert attempts[1..] == [] && attempts[..0] == [];
    }
  }

  lemma {:induction false} SinceAgain(attempts: seq<Attempt>, early: int, late: int)
    requires early <= late
    ensures Since(Since(attempts, early), late) == Since(attempts, late)
  {
    if attempts != [] {
      var before := Since(attempts[..|attempts| - 1], early);
      SinceAgain(attempts[..|attempts| - 1], early, late);
      var last := attempts[|attempts| - 1];
      assert (before + [last])[..|before|] == before;
    }
  }

  /** For times in order the window is exactly the attempts of the last ten seconds. */
  lemma {:induction false} WindowIsRecent(attempts: seq<Attempt>)
    requires attempts != [] && Monotone(attempts)
    ensures WindowOf(attempts) == Since(attempts, attempts[|attempts| - 1].0 - 10_000)
  {
    var n, last := |attempts| - 1, attempts[|attempts| - 1];
    var cutoff := last.0 - SCAN_WINDOW_MS;
    if n == 0 {
      assert attempts == [last];
      FirstWindow(last);
    } else {
      var early := attempts[n - 1].0 - SCAN_WINDOW_MS;
      WindowIsRecent(attempts[..n]);
      assert Since(attempts, early) == Since(attempts[..n], early) + [last];
      assert WindowOf(attempts) == Trim(Since(attempts, early), cutoff);
      SinceMonotone(attempts, early);
      hide Trim, Monotone, Since, WindowOf;
      TrimIsSince(Since(attempts, early), cutoff);
      SinceAgain(attempts, early, cutoff);
    }
  }

  lemma FirstWindow(e: Attempt)
    ensures WindowOf([e]) == [e] == Since([e], e.0 - SCAN_WINDOW_MS)
  {
    assert [e][..0] == [] && [] + [e] == [e];
  }

  // ---------------------------------------------------------------- detection, from the packets alone

  /** Distinct ports a source tried at one host since `from`. */
  ghost function ProbedPorts(h: Stream, src: IpAddr, dst: IpAddr, start: int): set<u16> {
    set p | p in h && AttemptBy(p, src) && ConnOf(p).value.dst == dst && p.ts >= start :: ConnOf(p).value.dport
  }

  /** Distinct hosts a source tried since `start`. */
  ghost function TriedHosts(h: Stream, src: IpAddr, start: int): set<IpAddr> {
    set p | p in h && AttemptBy(p, src) && p.ts >= start :: ConnOf(p).value.dst
  }

  ghost predicate OrderedPerSource(h: Stream, src: IpAddr) {
    forall i, j :: 0 <= i < j < |h| && AttemptBy(h[i], src) && AttemptBy(h[j], src) ==> h[i].ts <= h[j].ts
  }

  lemma {:induction false} AttemptsOrdered(h: Stream, src: IpAddr)
    requires OrderedPerSource(h, src)
    ensures Monotone(Attempts(h, src))
  {
    hide ConnOf;
    if h != [] {
      var n := |h| - 1;
      AttemptsOrdered(h[..n], src);
      if AttemptBy(h[n], src) {
        var before := Attempts(h[..n], src);
        forall i | 0 <= i < |before|
          ensures before[i].0 <= h[n].ts
        {
          var k := AttemptFrom(h[..n], src, i);
          assert h[k].ts <= h[n].ts;
        }
      }
    }
  }

  /** The packet an attempt came from. */
  lemma {:induction false} AttemptFrom(h: Stream, src: IpAddr, i: nat) returns (k: nat)
    requires i < |Attempts(h, src)|
    ensures k < |h| && AttemptBy(h[k], src) && Attempts(h, src)[i] == AttemptOf(h[k])
  {
    hide ConnOf;
    var n := |h| - 1;
    if i < |Attempts(h[..n], src)| {
      k := AttemptFrom(h[..n], src, i);
    } else {
      k := n;
    }
  }

  lemma {:induction false} PacketAttempts(h: Stream, src: IpAddr, p: Packet)
    requires p in h && AttemptBy(p, src)
    ensures AttemptOf(p) in Attempts(h, src)
  {
    hide ConnOf;
    var n := |h| - 1;
    if h[n] != p {
      assert p in h[..n];
      PacketAttempts(h[..n], src, p);
    }
  }

  lemma PortsAreProbed(h: Stream, src: IpAddr, dst: IpAddr, start: int)
    ensures Ports(Since(Attempts(h, src), start), dst) == ProbedPorts(h, src, dst, start)
  {
    hide ConnOf, Attempts, Since;
    var recent := Since(Attempts(h, src), start);
    forall e | e in recent && e.1 == dst
      ensures e.2 in ProbedPorts(h, src, dst, start)
    {
      SinceMember(Attempts(h, src), start, e);
      var i :| 0 <= i < |Attempts(h, src)| && Attempts(h, src)[i] == e;
      var k := AttemptFrom(h, src, i);
      assert h[k] in h;
    }
    forall p | p in h && AttemptBy(p, src) && ConnOf(p).value.dst == dst && p.ts >= start
      ensures ConnOf(p).value.dport in Ports(recent, dst)
    {
      PacketAttempts(h, src, p);
      SinceMember(Attempts(h, src), start, AttemptOf(p));
    }
  }

  lemma HostsAreTried(h: Stream, src: IpAddr, start: int)
    ensures Hosts(Since(Attempts(h, src), start)) == TriedHosts(h, src, start)
  {
    hide ConnOf, Attempts, Since;
    var recent := Since(Attempts(h, src), start);
    forall e | e in recent
      ensures e.1 in TriedHosts(h, src, start)
    {
      SinceMember(Attempts(h, src), start, e);
      var i :| 0 <= i < |Attempts(h, src)| && Attempts(h, src)[i] == e;
      var k := AttemptFrom(h, src, i);
      assert h[k] in h;
    }
    forall p | p in h && AttemptBy(p, src) && p.ts >= start
      ensures ConnOf(p).value.dst in Hosts(recent)
    {
      PacketAttempts(h, src, p);
      SinceMember(Attempts(h, src), start, AttemptOf(p));
    }
  }

  /** The window after a source's own attempt. */
  lemma WindowAfter(h: Stream, p: Packet, src: IpAddr)
    requires AttemptBy(p, src) && OrderedPerSource(h + [p], src)
    ensures WindowIn(After(h + [p]), src) == Since(Attempts(h + [p], src), p.ts - SCAN_WINDOW_MS)
  {
    var all := h + [p];
    assert all[..|h|] == h;
    hide ConnOf, AttemptBy, After, WindowOf, Since;
    WindowsAreSeparate(all, src);
    AttemptsOrdered(all, src);
    WindowIsRecent(Attempts(all, src));
  }

  ghost predicate ScanSince(h: Stream, src: IpAddr, start: int) {
    exists dst :: |ProbedPorts(h, src, dst, start)| >= 15
  }

  /**
   When each source's clock runs forward, a connection attempt is annotated as a port scan exactly
   when some host saw fifteen distinct ports from its source in the last ten seconds, and as a host
   sweep exactly when that fails and twelve distinct hosts were tried.
   */
  lemma ScansAndSweepsExactly(h: Stream, p: Packet, src: IpAddr, r: Option<Threat>)
    requires AttemptBy(p, src) && OrderedPerSource(h + [p], src)
    requires Reports(WindowIn(After(h + [p]), src), p, r)
    ensures var all, start := h + [p], p.ts - 10_000;
      && (r.Some? && r.value.PortScan? <==> ScanSince(all, src, start))
      && (r.Some? && r.value.HostSweep? <==> !ScanSince(all, src, start) && |TriedHosts(all, src, start)| >= 12)
  {
    var all, start := h + [p], p.ts - SCAN_WINDOW_MS;
    WindowAfter(h, p, src);
    hide ConnOf, After, Attempts, Since, Ports, Hosts, ProbedPorts, TriedHosts, IsRare, OrderedPerSource;
    var recent := Since(Attempts(all, src), start);
    forall dst { PortsAreProbed(all, src, dst, start); }
    HostsAreTried(all, src, start);
    assert Scans(recent) <==> ScanSince(all, src, start) by {
      if Scans(recent) {
        var dst :| |Ports(recent, dst)| >= PORT_SCAN_MIN_PORTS;
        assert |ProbedPorts(all, src, dst, start)| >= PORT_SCAN_MIN_PORTS;
      }
      if ScanSince(all, src, start) {
        var dst :| |ProbedPorts(all, src, dst, start)| >= PORT_SCAN_MIN_PORTS;
        assert |Ports(recent, dst)| >= PORT_SCAN_MIN_PORTS;
      }
    }
  }

  // ---------------------------------------------------------------- public addresses

  /** The reserved IPv4 blocks, by first and last address. */
  predicate Reserved(v: u32) {
    || 0x0000_0000 <= v <= 0x00FF_FFFF || 0x0A00_0000 <= v <= 0x0AFF_FFFF || 0x6440_0000 <= v <= 0x647F_FFFF
    || 0x7F00_0000 <= v <= 0x7FFF_FFFF || 0xA9FE_0000 <= v <= 0xA9FE_FFFF || 0xAC10_0000 <= v <= 0xAC1F_FFFF
    || 0xC000_0200 <= v <= 0xC000_02FF || 0xC0A8_0000 <= v <= 0xC0A8_FFFF || 0xC633_6400 <= v <= 0xC633_64FF
    || 0xCB00_7100 <= v <= 0xCB00_71FF || 0xE000_0000 <= v <= 0xEFFF_FFFF || v == 0xFFFF_FFFF
  }

  /** The octet tests accept exactly the addresses outside every reserved block. */
  lemma PublicIsUnreserved(v: u32)
    ensures IsPublic4(v) <==> !Reserved(v)
  {
    hide IsPublic4, Reserved;
    OctetTests(v);
  }

  lemma OctetTests(v: u32)
    requires v == 0x100_0000 * Octet(v, 0) + 0x1_0000 * Octet(v, 1) + 0x100 * Octet(v, 2) + Octet(v, 3)
    requires forall i: nat :: i < 4 ==> Octet(v, i) < 0x100
    ensures IsPublic4(v) <==> !Reserved(v)
  {
    hide Octet;
  }
}
