/** Which flow a packet belongs to, said of its layers. */
module FlowLayers {
  import opened Bytes
  import opened FlowKeys
  import opened FlowStates
  import opened FlowTracker

  predicate IsTransport(l: Layer) {
    l.Tcp? || l.Udp?
  }

  predicate IsIp(l: Layer) {
    l.Ipv4? || l.Ipv6?
  }

  /** The first transport layer. */
  ghost predicate FirstTransport(layers: seq<Layer>, i: nat) {
    i < |layers| && IsTransport(layers[i]) && forall k :: 0 <= k < i ==> !IsTransport(layers[k])
  }

  /** The last IP layer before position `i`. */
  ghost predicate LastIp(layers: seq<Layer>, i: nat, j: nat) {
    j < i <= |layers| && IsIp(layers[j]) && forall k :: j < k < i ==> !IsIp(layers[k])
  }

  /** The flow is that of the transport layer's ports between the IP layer's addresses. */
  predicate Describes(ip: Layer, transport: Layer, info: FlowInfo)
    requires IsIp(ip) && IsTransport(transport)
  {
    && (match ip {
        case Ipv4(s, d, p) => (info.src.ip, info.dst.ip, info.protocol) == (V4(s), V4(d), p)
        case Ipv6(s, d, p) => (info.src.ip, info.dst.ip, info.protocol) == (V6(s), V6(d), p)
      })
    && (match transport {
        case Tcp(s, d, bits) => (info.src.port, info.dst.port, info.tcp) == (s, d, Some(bits))
        case Udp(s, d) => (info.src.port, info.dst.port, info.tcp) == (s, d, None)
      })
  }

  /** What the IP layers before `i` leave for the transport layer. */
  ghost predicate Addressed(layers: seq<Layer>, i: nat, ip: Option<IpPart>) {
    if ip.None? then forall k :: 0 <= k < i <= |layers| ==> !IsIp(layers[k])
    else exists j: nat :: LastIp(layers, i, j) && (layers[j] == match (ip.value.src, ip.value.dst)
      case (V4(s), V4(d)) => Ipv4(s, d, ip.value.protocol)
      case (V6(s), V6(d)) => Ipv6(s, d, ip.value.protocol)
      case _ => OtherLayer)
  }

  lemma AddressedMore(layers: seq<Layer>, i: nat, ip: Option<IpPart>, next: Option<IpPart>)
    requires i < |layers| && Addressed(layers, i, ip)
    requires next == match layers[i]
      case Ipv4(s, d, p) => Some(IpPart(V4(s), V4(d), p))
      case Ipv6(s, d, p) => Some(IpPart(V6(s), V6(d), p))
      case _ => ip
    ensures Addressed(layers, i + 1, next)
  {
    if IsIp(layers[i]) {
      assert LastIp(layers, i + 1, i);
    } else if ip.Some? {
      var j: nat :| LastIp(layers, i, j) && (layers[j] == match (ip.value.src, ip.value.dst)
        case (V4(s), V4(d)) => Ipv4(s, d, ip.value.protocol)
        case (V6(s), V6(d)) => Ipv6(s, d, ip.value.protocol)
        case _ => OtherLayer);
      assert LastIp(layers, i + 1, j);
    }
  }

  ghost predicate NoTransport(layers: seq<Layer>, i: nat) {
    forall k :: 0 <= k < i <= |layers| ==> !IsTransport(layers[k])
  }

  lemma {:induction false} InfoFromExactly(layers: seq<Layer>, i: nat, ip: Option<IpPart>)
    requires i <= |layers| && Addressed(layers, i, ip) && NoTransport(layers, i)
    ensures var info := InfoFrom(layers[i..], ip);
      && (info.Some? ==> exists t: nat, j: nat :: FirstTransport(layers, t) && LastIp(layers, t, j)
                                        && Describes(layers[j], layers[t], info.value))
      && (info.None? ==> !exists t: nat, j: nat :: FirstTransport(layers, t) && LastIp(layers, t, j))
    decreases |layers| - i
  {
    if i < |layers| {
      assert layers[i..][0] == layers[i] && layers[i..][1..] == layers[i + 1..];
      if IsTransport(layers[i]) {
        assert FirstTransport(layers, i);
      } else {
        var next := match layers[i]
          case Ipv4(s, d, p) => Some(IpPart(V4(s), V4(d), p))
          case Ipv6(s, d, p) => Some(IpPart(V6(s), V6(d), p))
          case _ => ip;
        AddressedMore(layers, i, ip, next);
        InfoFromExactly(layers, i + 1, next);
      }
    }
  }

  /**
   FLOWS OF PACKETS. A packet belongs to a flow exactly when it has a TCP or UDP layer with an IP layer before
   it; the flow is between the first transport layer's ports and the addresses of the last IP layer
   before that, and carries that layer's protocol number.
   */
  lemma InfoExactly(p: Packet)
    ensures Info(p).None? <==> !exists t: nat, j: nat :: FirstTransport(p.layers, t) && LastIp(p.layers, t, j)
    ensures Info(p).Some? ==> exists t: nat, j: nat ::
      FirstTransport(p.layers, t) && LastIp(p.layers, t, j) && Describes(p.layers[j], p.layers[t], Info(p).value)
  {
    assert p.layers[0..] == p.layers;
    InfoFromExactly(p.layers, 0, None);
    hide InfoFrom, Describes, FirstTransport, LastIp;
  }
}
