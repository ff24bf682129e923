/** Filter expressions (`filter/ast.rs`) and the lexical rules of their parser. */
module FilterSyntax {
  import opened Decimals

  datatype ProtocolAtom = Ethernet | Arp | Ip | Ipv4 | Ipv6 | Tcp | Udp | Icmp | Icmpv6 | Dns | Tls

  datatype CompareOp = Eq | Ne

  datatype FilterValue = Integer(n: nat) | IpAddr(a: nat, b: nat, c: nat, d: nat) | Str(s: string)

  datatype FilterExpr =
    | ProtocolPresent(p: ProtocolAtom)
    | Comparison(field: string, op: CompareOp, value: FilterValue)
    | Contains(field: string, pattern: string)
    | FreeText(text: string)
    | Threat
    | And(left: FilterExpr, right: FilterExpr)
    | Or(left: FilterExpr, right: FilterExpr)
    | Not(inner: FilterExpr)

  /** A parser's answer: failure, or a value and the input left. */
  datatype Parsed<+T> = Fail | Ok(value: T, rest: string)

  const I64_MAX := 0x7fff_ffff_ffff_ffff

  // ---------------------------------------------------------------- characters

  predicate IsBlank(c: char) {
    c == ' ' || c == '\t' || c == '\r' || c == '\n'
  }

  predicate IsIdent(c: char) {
    IsDigit(c) || 'a' <= c <= 'z' || 'A' <= c <= 'Z' || c == '_'
  }

  predicate IsWordChar(c: char) {
    !IsBlank(c) && c != ')'
  }

  /** Unicode white space, which `trim` removes. */
  predicate IsSpace(c: char) {
    var x := c as int;
    9 <= x <= 13 || x == 0x20 || x == 0x85 || x == 0xA0 || x == 0x1680 || 0x2000 <= x <= 0x200A
    || x == 0x2028 || x == 0x2029 || x == 0x202F || x == 0x205F || x == 0x3000
  }

  // ---------------------------------------------------------------- lexing

  /** Length of the longest prefix whose characters all satisfy `p`. */
  function Span(p: char -> bool, s: string): (n: nat)
    ensures n <= |s|
  {
    if s == "" || !p(s[0]) then 0 else 1 + Span(p, s[1..])
  }

  function SkipWs(s: string): (r: string)
    ensures |r| <= |s|
  {
    if s == "" || !IsBlank(s[0]) then s else SkipWs(s[1..])
  }

  function Tag(t: string, s: string): (r: Parsed<()>)
    ensures r.Ok? ==> |r.rest| == |s| - |t|
  {
    if t <= s then Ok((), s[|t|..]) else Fail
  }

  /** `alt((tag(t), tag(u)))` */
  function Either(t: string, u: string, s: string): (r: Parsed<()>)
    ensures r.Ok? && t != "" && u != "" ==> |r.rest| < |s|
  {
    if t <= s then Tag(t, s) else Tag(u, s)
  }

  /** `ws(alt((tag(t), tag(u))))` */
  function WsEither(t: string, u: string, s: string): (r: Parsed<()>)
    ensures r.Ok? && t != "" && u != "" ==> |r.rest| < |s|
  {
    var k := Either(t, u, SkipWs(s));
    if k.Fail? then Fail else Ok((), SkipWs(k.rest))
  }

  function Take1(p: char -> bool, s: string): (r: Parsed<string>)
    ensures r.Ok? ==> |r.rest| < |s|
  {
    var n := Span(p, s);
    if n == 0 then Fail else Ok(s[..n], s[n..])
  }

  /** The part of a field path after its first identifier: as many `.name` as follow. */
  function DotNames(s: string): (n: nat)
    ensures n <= |s|
  {
    if s == "" || s[0] != '.' then 0 else
    var k := Span(IsIdent, s[1..]);
    if k == 0 then 0 else 1 + k + DotNames(s[1 + k..])
  }

  /** A dotted path; a single identifier is not a field. */
  function FieldPath(s: string): (r: Parsed<string>)
    ensures r.Ok? ==> |r.rest| < |s|
  {
    var n := Span(IsIdent, s);
    if n == 0 then Fail else
    var m := DotNames(s[n..]);
    if m == 0 then Fail else Ok(s[..n + m], s[n + m..])
  }

  /** What `Ipv4Addr` accepts for one octet: no leading zero, at most three digits, at most 255. */
  predicate IsOctet(digits: string) {
    1 <= |digits| <= 3 && Number(digits) <= 255 && (|digits| > 1 ==> digits[0] != '0')
  }

  /** `digit1` followed by a dot */
  function DigitsDot(s: string): (r: Parsed<string>)
    ensures r.Ok? ==> |r.rest| < |s|
  {
    var n := Span(IsDigit, s);
    if n == 0 || n == |s| || s[n] != '.' then Fail else Ok(s[..n], s[n + 1..])
  }

  function IpValue(s: string): (r: Parsed<FilterValue>)
    ensures r.Ok? ==> |r.rest| < |s|
  {
    var a := DigitsDot(s);
    if a.Fail? then Fail else
    var b := DigitsDot(a.rest);
    if b.Fail? then Fail else
    var c := DigitsDot(b.rest);
    if c.Fail? then Fail else
    var d := Take1(IsDigit, c.rest);
    if d.Fail? then Fail else
    if IsOctet(a.value) && IsOctet(b.value) && IsOctet(c.value) && IsOctet(d.value)
    then Ok(IpAddr(Number(a.value), Number(b.value), Number(c.value), Number(d.value)), d.rest)
    else Fail
  }

  function IntegerValue(s: string): (r: Parsed<FilterValue>)
    ensures r.Ok? ==> |r.rest| < |s|
  {
    var d := Take1(IsDigit, s);
    if d.Fail? || Number(d.value) > I64_MAX then Fail else Ok(Integer(Number(d.value)), d.rest)
  }

  function Value(s: string): (r: Parsed<FilterValue>)
    ensures r.Ok? ==> |r.rest| < |s|
  {
    var ip := IpValue(s);
    if ip.Ok? then ip else
    var n := IntegerValue(s);
    if n.Ok? then n else
    var w := Take1(IsWordChar, s);
    if w.Fail? then Fail else Ok(Str(w.value), w.rest)
  }

  function Keyword(p: ProtocolAtom): string {
    match p
    case Icmpv6 => "icmpv6"
    case Icmp => "icmp"
    case Ipv6 => "ipv6"
    case Ipv4 => "ipv4"
    case Ethernet => "eth"
    case Tcp => "tcp"
    case Udp => "udp"
    case Arp => "arp"
    case Dns => "dns"
    case Tls => "tls"
    case Ip => "ip"
  }

  /** Ordered choice: longer keywords before their prefixes. */
  const ORDER := [Icmpv6, Icmp, Ipv6, Ipv4, Ethernet, Tcp, Udp, Arp, Dns, Tls, Ip]

  function FirstOf(ps: seq<ProtocolAtom>, s: string): (r: Parsed<ProtocolAtom>)
    ensures r.Ok? ==> |r.rest| < |s|
  {
    if ps == [] then Fail
    else if Keyword(ps[0]) <= s then Ok(ps[0], s[|Keyword(ps[0])|..])
    else FirstOf(ps[1..], s)
  }

  // ---------------------------------------------------------------- laws of the lexer

  /** A run of `p` characters followed by something else is taken whole. */
  lemma {:induction false} SpanExact(p: char -> bool, w: string, rest: string)
    requires forall i :: 0 <= i < |w| ==> p(w[i])
    requires rest == "" || !p(rest[0])
    ensures Span(p, w + rest) == |w|
  {
    if w == "" {
      assert w + rest == rest;
    } else {
      assert (w + rest)[1..] == w[1..] + rest;
      SpanExact(p, w[1..], rest);
    }
  }

  lemma Take1Exact(p: char -> bool, w: string, rest: string)
    requires w != "" && forall i :: 0 <= i < |w| ==> p(w[i])
    requires rest == "" || !p(rest[0])
    ensures Take1(p, w + rest) == Ok(w, rest)
  {
    SpanExact(p, w, rest);
    assert (w + rest)[..|w|] == w && (w + rest)[|w|..] == rest;
  }

  /** A keyword cannot be read where the text departs from it at some position. */
  lemma TagMisses(t: string, s: string, i: nat)
    requires i < |t| && (i >= |s| || t[i] != s[i])
    ensures Tag(t, s) == Fail && !(t <= s)
  {
  }
}
