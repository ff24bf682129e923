/** Live reconnaissance heuristics over the packet stream (`analysis/threat.rs`). */
module Threats {
  import opened Bytes
  import opened FlowKeys

  const SCAN_WINDOW_MS := 10_000
  const PORT_SCAN_MIN_PORTS := 15
  const HOST_SWEEP_MIN_HOSTS := 12

  const COMMON_PORTS: set<u16> :=
    {20, 21, 22, 25, 53, 80, 110, 123, 143, 443, 465, 587, 853, 993, 995, 3389, 8080, 8443}

  /** The parts of a decoded layer the heuristics look at. */
  datatype Layer =
    | Ip(src: IpAddr, dst: IpAddr)
    | Tcp(tcpDst: u16, syn: bool, ack: bool)
    | Udp(udpDst: u16)
    | Icmp(icmpType: byte)
    | Icmpv6(icmp6Type: byte)
    | Encrypted
    | OtherLayer

  datatype Packet = Packet(layers: seq<Layer>, ts: int)

  datatype Conn = Conn(src: IpAddr, dst: IpAddr, dport: u16, synOnly: bool, icmpEcho: bool)

  datatype Threat = PortScan(scanner: IpAddr, victim: IpAddr, ports: nat) | HostSweep(sweeper: IpAddr, hosts: nat)
                  | RareExternal(dst: IpAddr, port: u16)

  // ---------------------------------------------------------------- one packet

  /** What the layers read so far say; the innermost of each kind wins. */
  datatype Partial = Partial(ends: Option<(IpAddr, IpAddr)>, dport: u16, synOnly: bool, icmpEcho: bool)

  function Gather(layers: seq<Layer>): Partial {
    if layers == [] then Partial(None, 0, false, false) else
    var p := Gather(layers[..|layers| - 1]);
    match layers[|layers| - 1]
    case Ip(s, d) => p.(ends := Some((s, d)))
    case Tcp(port, syn, ack) => p.(dport := port, synOnly := syn && !ack)
    case Udp(port) => p.(dport := port)
    case Icmp(t) => p.(icmpEcho := t == 8)
    case Icmpv6(t) => p.(icmpEcho := t == 128)
    case Encrypted => p
    case OtherLayer => p
  }

  function ConnOf(p: Packet): Option<Conn> {
    var g := Gather(p.layers);
    if g.ends.None? then None else Some(Conn(g.ends.value.0, g.ends.value.1, g.dport, g.synOnly, g.icmpEcho))
  }

  method ExtractConn(p: Packet) returns (r: Option<Conn>)
    ensures r == ConnOf(p)
  {
    var src: Option<IpAddr>, dst: Option<IpAddr> := None, None;
    var dport: u16, synOnly, icmpEcho := 0, false, false;
    for i := 0 to |p.layers|
      invariant src.Some? == dst.Some?
      invariant Gather(p.layers[..i]) ==
        Partial(if src.Some? && dst.Some? then Some((src.value, dst.value)) else None, dport, synOnly, icmpEcho)
    {
      assert p.layers[..i + 1][..i] == p.layers[..i];
      match p.layers[i] {
        case Ip(s, d) => { src, dst := Some(s), Some(d); }
        case Tcp(port, syn, ack) => { dport := port; synOnly := syn && !ack; }
        case Udp(port) => { dport := port; }
        case Icmp(t) => { icmpEcho := t == 8; }
        case Icmpv6(t) => { icmpEcho := t == 128; }
        case Encrypted => {}
        case OtherLayer => {}
      }
    }
    assert p.layers[..|p.layers|] == p.layers;
    if src.None? || dst.None? {
      return None;
    }
    r := Some(Conn(src.value, dst.value, dport, synOnly, icmpEcho));
  }

  /** A connection attempt: a pure SYN or an ICMP echo request. */
  predicate Initiates(c: Conn) {
    c.synOnly || c.icmpEcho
  }

  predicate IsCleartext(p: Packet) {
    Encrypted !in p.layers
  }

  // ---------------------------------------------------------------- public addresses

  function Octet(v: u32, i: nat): nat
    requires i < 4
  {
    if i == 0 then v / 0x100_0000 else if i == 1 then v / 0x1_0000 % 0x100 else if i == 2 then v / 0x100 % 0x100 else v % 0x100
  }

  /** The address tests of the standard library, octet by octet. */
  predicate IsPublic4(v: u32) {
    var a, b, c := Octet(v, 0), Octet(v, 1), Octet(v, 2);
    !(|| a == 10 || (a == 172 && 16 <= b <= 31) || (a == 192 && b == 168)
      || a == 127
      || (a == 169 && b == 254)
      || v == 0xFFFF_FFFF
      || (a == 192 && b == 0 && c == 2) || (a == 198 && b == 51 && c == 100) || (a == 203 && b == 0 && c == 113)
      || v == 0
      || 224 <= a <= 239
      || a == 0
      || (a == 100 && b / 64 == 1))
  }

  predicate IsPublic6(v: u128) {
    var s := v / 0x1_0000_0000_0000_0000_0000_0000_0000;
    !(v == 1 || v == 0 || s / 0x100 == 0xFF || s / 0x200 == 0x7E || s / 0x40 == 0x3FA)
  }

  predicate IsPublic(ip: IpAddr) {
    match ip
    case V4(v) => IsPublic4(v)
    case V6(v) => IsPublic6(v)
  }

  // ---------------------------------------------------------------- one source's window

  /** Time, destination and port of a connection attempt. */
  type Attempt = (int, IpAddr, u16)

  function Trim(events: seq<Attempt>, cutoff: int): seq<Attempt> {
    if events == [] || events[0].0 >= cutoff then events else Trim(events[1..], cutoff)
  }

  function Recorded(events: seq<Attempt>, e: Attempt): seq<Attempt> {
    Trim(events + [e], e.0 - SCAN_WINDOW_MS)
  }

  function Ports(events: seq<Attempt>, dst: IpAddr): set<u16> {
    set e | e in events && e.1 == dst :: e.2
  }

  function Hosts(events: seq<Attempt>): set<IpAddr> {
    set e | e in events :: e.1
  }

  lemma PortsMore(events: seq<Attempt>, e: Attempt, dst: IpAddr)
    ensures Ports(events + [e], dst) == Ports(events, dst) + if e.1 == dst then {e.2} else {}
  {
    assert forall x :: x in events + [e] <==> x in events || x == e;
    assert e in events + [e];
  }

  lemma NoHosts(events: seq<Attempt>)
    ensures Hosts(events) == {} <==> events == []
  {
    if events != [] {
      assert events[0] in events;
      assert events[0].1 in Hosts(events);
    }
  }

  class SrcWindow {
    var events: seq<Attempt>

    constructor ()
      ensures events == []
    {
      events := [];
    }

    method Record(ts: int, dst: IpAddr, port: u16, cutoff: int)
      modifies this
      ensures events == Trim(old(events) + [(ts, dst, port)], cutoff)
    {
      events := events + [(ts, dst, port)];
      while |events| > 0 && events[0].0 < cutoff
        invariant Trim(events, cutoff) == Trim(old(events) + [(ts, dst, port)], cutoff)
        decreases |events|
      {
        events := events[1..];
      }
    }

    /** The distinct ports tried at each destination. */
    method PortsPerDst() returns (perDst: map<IpAddr, set<u16>>)
      ensures perDst.Keys == Hosts(events) && forall dst <- perDst :: perDst[dst] == Ports(events, dst)
    {
      perDst := map[];
      for i := 0 to |events|
        invariant perDst.Keys == Hosts(events[..i])
        invariant forall dst <- perDst :: perDst[dst] == Ports(events[..i], dst)
      {
        hide Hosts, Ports;
        var e := events[i];
        assert events[..i + 1] == events[..i] + [e];
        forall dst { PortsMore(events[..i], e, dst); }
        perDst := perDst[e.1 := (if e.1 in perDst then perDst[e.1] else {}) + {e.2}];
      }
      assert events[..|events|] == events;
    }

    /** The destination with the most distinct ports; ties may go to any of them. */
    method BusiestDst() returns (r: Option<(IpAddr, nat)>)
      ensures r.None? <==> events == []
      ensures r.Some? ==> r.value.1 == |Ports(events, r.value.0)|
      ensures forall dst :: |Ports(events, dst)| <= if r.Some? then r.value.1 else 0
    {
      var perDst := PortsPerDst();
      assert events != [] ==> events[0].1 in Hosts(events);
      hide Hosts, Ports;
      r := None;
      var left := perDst.Keys;
      while left != {}
        invariant left <= perDst.Keys
        invariant r.None? <==> left == perDst.Keys
        invariant r.Some? ==> r.value.0 in perDst.Keys && r.value.1 == |perDst[r.value.0]|
        invariant r.Some? ==> forall dst <- perDst.Keys - left :: |perDst[dst]| <= r.value.1
        decreases |left|
      {
        var dst :| dst in left;
        left := left - {dst};
        if r.None? || |perDst[dst]| >= r.value.1 {
          r := Some((dst, |perDst[dst]|));
        }
      }
      forall dst | dst !in perDst.Keys
        ensures Ports(events, dst) == {}
      {
      }
      NoHosts(events);
    }

    method DistinctHosts() returns (n: nat)
      ensures n == |Hosts(events)|
    {
      n := |set e | e in events :: e.1|;
    }
  }

  // ---------------------------------------------------------------- the tracker

  function WindowIn(view: map<IpAddr, seq<Attempt>>, src: IpAddr): seq<Attempt> {
    if src in view then view[src] else []
  }

  /** What the window of a source becomes; other sources keep theirs. */
  function Advance(view: map<IpAddr, seq<Attempt>>, p: Packet): map<IpAddr, seq<Attempt>> {
    var c := ConnOf(p);
    if c.None? || !Initiates(c.value) then view else
    view[c.value.src := Recorded(WindowIn(view, c.value.src), (p.ts, c.value.dst, c.value.dport))]
  }

  predicate IsRare(p: Packet, c: Conn) {
    IsCleartext(p) && c.dport != 0 && IsPublic(c.dst) && c.dport !in COMMON_PORTS
  }

  ghost predicate Scans(events: seq<Attempt>) {
    exists dst :: |Ports(events, dst)| >= PORT_SCAN_MIN_PORTS
  }

  /** The annotation a packet gets, given its source's window after it. */
  ghost predicate Reports(events: seq<Attempt>, p: Packet, r: Option<Threat>) {
    var conn := ConnOf(p);
    if conn.None? then r == None else
    var c := conn.value;
    if Initiates(c) && Scans(events) then
      && r.Some? && r.value.PortScan? && r.value.scanner == c.src
      && r.value.ports == |Ports(events, r.value.victim)| && forall dst :: |Ports(events, dst)| <= r.value.ports
    else if Initiates(c) && |Hosts(events)| >= HOST_SWEEP_MIN_HOSTS then r == Some(HostSweep(c.src, |Hosts(events)|))
    else if IsRare(p, c) then r == Some(RareExternal(c.dst, c.dport))
    else r == None
  }

  class ThreatTracker {
    var sources: map<IpAddr, SrcWindow>

    ghost predicate Valid()
      reads this
    {
      forall a, b :: a in sources && b in sources && sources[a] == sources[b] ==> a == b
    }

    ghost function View(): map<IpAddr, seq<Attempt>>
      reads this, sources.Values
    {
      map src | src in sources :: sources[src].events
    }

    constructor ()
      ensures Valid() && View() == map[]
    {
      sources := map[];
    }

    /** `sources.entry(src).or_default()`, then `record`. */
    method RecordAttempt(c: Conn, ts: int) returns (win: SrcWindow)
      requires Valid()
      modifies this, sources.Values
      ensures Valid() && fresh(sources.Values - old(sources.Values))
      ensures c.src in sources && sources[c.src] == win
      ensures View() == old(View())[c.src := Recorded(WindowIn(old(View()), c.src), (ts, c.dst, c.dport))]
    {
      hide Trim;
      if c.src !in sources {
        var window := new SrcWindow();
        sources := sources[c.src := window];
      }
      win := sources[c.src];
      win.Record(ts, c.dst, c.dport, ts - SCAN_WINDOW_MS);
    }

    method Observe(p: Packet) returns (r: Option<Threat>)
      requires Valid()
      modifies this, sources.Values
      ensures Valid() && fresh(sources.Values - old(sources.Values))
      ensures View() == Advance(old(View()), p)
      ensures ConnOf(p).Some? ==> Reports(WindowIn(View(), ConnOf(p).value.src), p, r)
      ensures ConnOf(p).None? ==> r == None
    {
      hide Gather, Trim, Hosts, Ports, IsPublic, Valid, Recorded;
      var conn := ExtractConn(p);
      if conn.None? {
        return None;
      }
      var c := conn.value;
      if c.synOnly || c.icmpEcho {
        var win := RecordAttempt(c, p.ts);
        assert WindowIn(View(), c.src) == win.events;
        var busiest := win.BusiestDst();
        if busiest.Some? {
          if busiest.value.1 >= PORT_SCAN_MIN_PORTS {
            return Some(PortScan(c.src, busiest.value.0, busiest.value.1));
          }
        }
        var hosts := win.DistinctHosts();
        if hosts >= HOST_SWEEP_MIN_HOSTS {
          return Some(HostSweep(c.src, hosts));
        }
      }
      if IsCleartext(p) && c.dport != 0 && IsPublic(c.dst) && c.dport !in COMMON_PORTS {
        return Some(RareExternal(c.dst, c.dport));
      }
      r := None;
    }
  }
}
