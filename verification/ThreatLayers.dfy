/** Connection attempts and rare destinations, said of a packet's layers and addresses. */
module ThreatLayers {
  import opened Bytes
  import opened FlowKeys
  import opened Threats
  import opened ThreatRuns

  /** The position of the innermost layer of a kind. */
  ghost predicate Innermost(layers: seq<Layer>, i: nat, kind: Layer -> bool) {
    i < |layers| && kind(layers[i]) && forall j :: i < j < |layers| ==> !kind(layers[j])
  }

  ghost predicate NoLayer(layers: seq<Layer>, kind: Layer -> bool) {
    forall l <- layers :: !kind(l)
  }

  const ADDRESSED := (l: Layer) => l.Ip?
  const CONTROLLED := (l: Layer) => l.Tcp?
  const PORTED := (l: Layer) => l.Tcp? || l.Udp?
  const ECHOING := (l: Layer) => l.Icmp? || l.Icmpv6?

  lemma OneMore(layers: seq<Layer>, i: nat, kind: Layer -> bool)
    requires layers != [] && Innermost(layers, i, kind)
    ensures !kind(layers[|layers| - 1]) ==> Innermost(layers[..|layers| - 1], i, kind)
    ensures kind(layers[|layers| - 1]) ==> i == |layers| - 1
  {
  }

  lemma OneFewer(layers: seq<Layer>, kind: Layer -> bool)
    requires layers != [] && NoLayer(layers, kind)
    ensures !kind(layers[|layers| - 1]) && NoLayer(layers[..|layers| - 1], kind)
  {
  }

  lemma {:induction false} EndsAreInnermost(layers: seq<Layer>, i: nat)
    ensures NoLayer(layers, ADDRESSED) ==> Gather(layers).ends == None
    ensures Innermost(layers, i, ADDRESSED) ==> Gather(layers).ends == Some((layers[i].src, layers[i].dst))
  {
    if layers == [] {
    } else {
      EndsAreInnermost(layers[..|layers| - 1], i);
      if NoLayer(layers, ADDRESSED) {
        OneFewer(layers, ADDRESSED);
      }
    }
  }

  lemma {:induction false} SynIsInnermost(layers: seq<Layer>, i: nat)
    ensures NoLayer(layers, CONTROLLED) ==> !Gather(layers).synOnly
    ensures Innermost(layers, i, CONTROLLED) ==> (Gather(layers).synOnly <==> layers[i].syn && !layers[i].ack)
  {
    if layers == [] {
    } else {
      SynIsInnermost(layers[..|layers| - 1], i);
      if NoLayer(layers, CONTROLLED) {
        OneFewer(layers, CONTROLLED);
      }
    }
  }

  lemma {:induction false} PortIsInnermost(layers: seq<Layer>, i: nat)
    ensures NoLayer(layers, PORTED) ==> Gather(layers).dport == 0
    ensures Innermost(layers, i, PORTED) ==>
      Gather(layers).dport == if layers[i].Tcp? then layers[i].tcpDst else layers[i].udpDst
  {
    if layers == [] {
    } else {
      PortIsInnermost(layers[..|layers| - 1], i);
      if NoLayer(layers, PORTED) {
        OneFewer(layers, PORTED);
      }
    }
  }

  lemma {:induction false} EchoIsInnermost(layers: seq<Layer>, i: nat)
    ensures NoLayer(layers, ECHOING) ==> !Gather(layers).icmpEcho
    ensures Innermost(layers, i, ECHOING) ==> (Gather(layers).icmpEcho <==> layers[i] in {Icmp(8), Icmpv6(128)})
  {
    if layers == [] {
    } else {
      EchoIsInnermost(layers[..|layers| - 1], i);
      if NoLayer(layers, ECHOING) {
        OneFewer(layers, ECHOING);
      }
    }
  }

  lemma {:induction false} FindInnermost(layers: seq<Layer>, kind: Layer -> bool) returns (i: nat)
    ensures NoLayer(layers, kind) || Innermost(layers, i, kind)
  {
    if layers == [] {
      i := 0;
    } else if kind(layers[|layers| - 1]) {
      i := |layers| - 1;
    } else {
      i := FindInnermost(layers[..|layers| - 1], kind);
    }
  }

  /** A packet asks for a connection: its innermost TCP layer is a bare SYN, or its innermost ICMP layer an echo request. */
  ghost predicate Asks(layers: seq<Layer>) {
    || (exists i: nat :: Innermost(layers, i, CONTROLLED) && layers[i].syn && !layers[i].ack)
    || (exists i: nat :: Innermost(layers, i, ECHOING) && layers[i] in {Icmp(8), Icmpv6(128)})
  }

  /** The attempt of a source: the packet asks for a connection and its innermost IP layer comes from there. */
  lemma AttemptExactly(p: Packet, src: IpAddr)
    ensures AttemptBy(p, src) <==>
      Asks(p.layers) && exists i: nat :: Innermost(p.layers, i, ADDRESSED) && p.layers[i].src == src
  {
    var ip := FindInnermost(p.layers, ADDRESSED);
    var tcp := FindInnermost(p.layers, CONTROLLED);
    var icmp := FindInnermost(p.layers, ECHOING);
    EndsAreInnermost(p.layers, ip);
    SynIsInnermost(p.layers, tcp);
    EchoIsInnermost(p.layers, icmp);
    hide Gather;
  }

  /** What is recorded of an attempt: the time, the innermost destination and the innermost port, 0 without one. */
  lemma AttemptRecords(p: Packet, src: IpAddr, i: nat)
    requires AttemptBy(p, src) && Innermost(p.layers, i, ADDRESSED)
    ensures AttemptOf(p).0 == p.ts && AttemptOf(p).1 == p.layers[i].dst
    ensures NoLayer(p.layers, PORTED) ==> AttemptOf(p).2 == 0
    ensures forall j: nat | Innermost(p.layers, j, PORTED) ::
      AttemptOf(p).2 == if p.layers[j].Tcp? then p.layers[j].tcpDst else p.layers[j].udpDst
  {
    EndsAreInnermost(p.layers, i);
    PortIsInnermost(p.layers, 0);
    hide Gather;
    forall j: nat | Innermost(p.layers, j, PORTED)
      ensures AttemptOf(p).2 == if p.layers[j].Tcp? then p.layers[j].tcpDst else p.layers[j].udpDst
    {
      PortIsInnermost(p.layers, j);
    }
  }

  /** The answer to a SYN is no attempt. */
  lemma AnswersAreNoAttempts(p: Packet, src: IpAddr, i: nat)
    requires Innermost(p.layers, i, CONTROLLED) && p.layers[i].ack && NoLayer(p.layers, ECHOING)
    ensures !AttemptBy(p, src)
  {
    SynIsInnermost(p.layers, i);
    EchoIsInnermost(p.layers, 0);
  }

  // ---------------------------------------------------------------- rare destinations

  /** The reserved IPv6 blocks, by first and last address: ::, ::1, fc00::/7, fe80::/10 and ff00::/8. */
  predicate Reserved6(v: u128) {
    || v <= 1
    || 0xFC00_0000_0000_0000_0000_0000_0000_0000 <= v <= 0xFDFF_FFFF_FFFF_FFFF_FFFF_FFFF_FFFF_FFFF
    || 0xFE80_0000_0000_0000_0000_0000_0000_0000 <= v <= 0xFEBF_FFFF_FFFF_FFFF_FFFF_FFFF_FFFF_FFFF
    || 0xFF00_0000_0000_0000_0000_0000_0000_0000 <= v
  }

  lemma Public6IsUnreserved(v: u128)
    ensures IsPublic6(v) <==> !Reserved6(v)
  {
  }

  predicate InReservedBlock(ip: IpAddr) {
    match ip
    case V4(v) => Reserved(v)
    case V6(v) => Reserved6(v)
  }

  /** The ports of the services the detector knows, in increasing order. */
  const SERVICE_PORTS: seq<int> :=
    [20, 21, 22, 25, 53, 80, 110, 123, 143, 443, 465, 587, 853, 993, 995, 3389, 8080, 8443]

  /**
   A packet that raises no scan or sweep is annotated exactly when it is not encrypted and goes, by
   its innermost layers, to a port that is no known service's on a host outside every reserved block.
   */
  lemma RareExactly(events: seq<Attempt>, p: Packet, r: Option<Threat>, i: nat, j: nat)
    requires Reports(events, p, r) && (r.Some? ==> r.value.RareExternal?)
    requires Innermost(p.layers, i, ADDRESSED) && Innermost(p.layers, j, PORTED)
    ensures var port := if p.layers[j].Tcp? then p.layers[j].tcpDst else p.layers[j].udpDst;
      && (r.Some? <==> port != 0 && Encrypted !in p.layers && port as int !in SERVICE_PORTS && !InReservedBlock(p.layers[i].dst))
      && (r.Some? ==> r.value == RareExternal(p.layers[i].dst, port))
  {
    EndsAreInnermost(p.layers, i);
    PortIsInnermost(p.layers, j);
    hide Gather, IsPublic4, IsPublic6, Reserved, Reserved6;
    match p.layers[i].dst {
      case V4(v) => PublicIsUnreserved(v);
      case V6(v) => Public6IsUnreserved(v);
    }
  }
}
