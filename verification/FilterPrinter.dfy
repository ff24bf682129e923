/**
 A printer for filter expressions that writes only the parentheses required by precedence and
 left association, in any of the parser's spellings of the operators.
 */
module FilterPrinter {
  import opened Decimals
  import opened FilterSyntax

  /** Which spelling of each keyword is written. */
  datatype Style = Style(orWord: bool, andWord: bool, notWord: bool, alertWord: bool)

  function OrTok(st: Style): string { if st.orWord then "or" else "||" }

  function AndTok(st: Style): string { if st.andWord then "and" else "&&" }

  function NotTok(st: Style): string { if st.notWord then "not " else "!" }

  function ThreatTok(st: Style): string { if st.alertWord then "alert" else "threat" }

  function OpTok(op: CompareOp): string { if op == Eq then "==" else "!=" }

  /** How a protocol is written. */
  function Spelling(p: ProtocolAtom): string {
    if p == Ethernet then "eth"
    else if p == Arp then "arp"
    else if p == Ip then "ip"
    else if p == Ipv4 then "ipv4"
    else if p == Ipv6 then "ipv6"
    else if p == Tcp then "tcp"
    else if p == Udp then "udp"
    else if p == Icmp then "icmp"
    else if p == Icmpv6 then "icmpv6"
    else if p == Dns then "dns"
    else "tls"
  }

  // ---------------------------------------------------------------- what can be printed

  /** A path the parser takes as a field: dotted, and not opening with another construct's keyword. */
  predicate IsField(f: string) {
    && FieldPath(f) == Ok(f, "")
    && !("not" <= f) && !("threat" <= f) && !("alert" <= f)
  }

  /** A nonempty run of word characters that does not end in white space. */
  predicate IsWord(w: string) {
    && w != "" && (forall i :: 0 <= i < |w| ==> IsWordChar(w[i]))
    && !IsSpace(w[|w| - 1])
  }

  /** A string value is read back as one unless its leading digits are a number that fits. */
  predicate ReadsAsString(w: string) {
    var n := Span(IsDigit, w);
    n == 0 || Number(w[..n]) > 0x7fff_ffff_ffff_ffff
  }

  predicate PrintableValue(v: FilterValue) {
    match v
    case Integer(n) => n <= 0x7fff_ffff_ffff_ffff
    case IpAddr(a, b, c, d) => a <= 255 && b <= 255 && c <= 255 && d <= 255
    case Str(s) => IsWord(s) && ReadsAsString(s)
  }

  predicate Printable(e: FilterExpr) {
    match e
    case ProtocolPresent(_) => true
    case Threat => true
    case Comparison(f, _, v) => IsField(f) && PrintableValue(v)
    case Contains(f, w) => IsField(f) && IsWord(w)
    case FreeText(_) => false
    case And(l, r) => Printable(l) && Printable(r)
    case Or(l, r) => Printable(l) && Printable(r)
    case Not(x) => Printable(x)
  }

  // ---------------------------------------------------------------- printing

  function PrintValue(v: FilterValue): string {
    match v
    case Integer(n) => Decimal(n)
    case IpAddr(a, b, c, d) => Decimal(a) + ("." + (Decimal(b) + ("." + (Decimal(c) + ("." + Decimal(d))))))
    case Str(s) => s
  }

  predicate IsAtomic(e: FilterExpr) {
    e.ProtocolPresent? || e.Threat? || e.Comparison? || e.Contains?
  }

  function PrintAtom(st: Style, e: FilterExpr): string
    requires IsAtomic(e)
  {
    match e
    case ProtocolPresent(p) => Spelling(p)
    case Threat => ThreatTok(st)
    case Comparison(f, op, v) => f + (" " + (OpTok(op) + (" " + PrintValue(v))))
    case Contains(f, w) => f + (" " + ("contains" + (" " + w)))
  }

  function PrintOr(st: Style, e: FilterExpr): string
    decreases e, 2
  {
    if e.Or? then PrintOr(st, e.left) + (" " + (OrTok(st) + (" " + PrintAnd(st, e.right)))) else PrintAnd(st, e)
  }

  function PrintAnd(st: Style, e: FilterExpr): string
    decreases e, 1
  {
    if e.And? then PrintAnd(st, e.left) + (" " + (AndTok(st) + (" " + PrintUnary(st, e.right)))) else PrintUnary(st, e)
  }

  function PrintUnary(st: Style, e: FilterExpr): string
    decreases e, 0
  {
    match e
    case Not(x) => NotTok(st) + PrintUnary(st, x)
    case And(l, r) => "(" + (PrintAnd(st, l) + (" " + (AndTok(st) + (" " + PrintUnary(st, r)))) + ")")
    case Or(l, r) => "(" + (PrintOr(st, l) + (" " + (OrTok(st) + (" " + PrintAnd(st, r)))) + ")")
    case FreeText(t) => t
    case ProtocolPresent(_) => PrintAtom(st, e)
    case Threat => PrintAtom(st, e)
    case Comparison(_, _, _) => PrintAtom(st, e)
    case Contains(_, _) => PrintAtom(st, e)
  }

  function Print(st: Style, e: FilterExpr): string {
    PrintOr(st, e)
  }
}
