/** Normalized connection keys (`flow/mod.rs`). */
module FlowKeys {
  import opened Bytes

  const IPV6_LIMIT := 0x1_0000_0000_0000_0000_0000_0000_0000_0000

  type u128 = x: int | 0 <= x < IPV6_LIMIT

  datatype IpAddr = V4(v4: u32) | V6(v6: u128)

  datatype Endpoint = Endpoint(ip: IpAddr, port: u16)

  datatype Dir = LowToHigh | HighToLow

  datatype FlowKey = FlowKey(addrLow: IpAddr, portLow: u16, addrHigh: IpAddr, portHigh: u16, protocol: int)

  /** The derived order on addresses: every IPv4 address sorts before every IPv6 address. */
  predicate IpLess(a: IpAddr, b: IpAddr) {
    match (a, b)
    case (V4(x), V4(y)) => x < y
    case (V4(_), V6(_)) => true
    case (V6(_), V4(_)) => false
    case (V6(x), V6(y)) => x < y
  }

  /** `(a.ip, a.port) <= (b.ip, b.port)` */
  predicate EndpointLeq(a: Endpoint, b: Endpoint) {
    IpLess(a.ip, b.ip) || (a.ip == b.ip && a.port <= b.port)
  }

  function NewKey(src: Endpoint, dst: Endpoint, protocol: int): FlowKey {
    if EndpointLeq(src, dst) then FlowKey(src.ip, src.port, dst.ip, dst.port, protocol)
    else FlowKey(dst.ip, dst.port, src.ip, src.port, protocol)
  }

  function DirOf(src: Endpoint, dst: Endpoint): Dir {
    if EndpointLeq(src, dst) then LowToHigh else HighToLow
  }

  /** The packet's source and destination, rebuilt from the key and the direction. */
  function Endpoints(key: FlowKey, dir: Dir): (Endpoint, Endpoint) {
    match dir
    case LowToHigh => (Endpoint(key.addrLow, key.portLow), Endpoint(key.addrHigh, key.portHigh))
    case HighToLow => (Endpoint(key.addrHigh, key.portHigh), Endpoint(key.addrLow, key.portLow))
  }

  /**
   The key forgets only the direction: both directions share it, key and direction together
   give the endpoints back, and two conversations share a key only if they are the same.
   */
  lemma KeyNormalization(src: Endpoint, dst: Endpoint, src': Endpoint, dst': Endpoint, protocol: int, protocol': int)
    ensures NewKey(src, dst, protocol) == NewKey(dst, src, protocol)
    ensures Endpoints(NewKey(src, dst, protocol), DirOf(src, dst)) == (src, dst)
    ensures src != dst ==> DirOf(src, dst) != DirOf(dst, src)
    ensures NewKey(src, dst, protocol) == NewKey(src', dst', protocol')
            <==> protocol == protocol' && ((src, dst) == (src', dst') || (src, dst) == (dst', src'))
  {
  }

  /** An address as one number, the IPv6 addresses after all IPv4 ones. */
  function Rank(ip: IpAddr): nat {
    match ip
    case V4(x) => x
    case V6(x) => 0x1_0000_0000 + x
  }

  /** The low end of a key is the one with the smaller address, or port if they share it, and a packet from it goes up. */
  lemma LowIsSmaller(src: Endpoint, dst: Endpoint, protocol: int)
    ensures var k := NewKey(src, dst, protocol);
      Rank(k.addrLow) < Rank(k.addrHigh) || (k.addrLow == k.addrHigh && k.portLow <= k.portHigh)
    ensures DirOf(src, dst) == LowToHigh <==> Rank(src.ip) < Rank(dst.ip) || (src.ip == dst.ip && src.port <= dst.port)
  {
  }
}
