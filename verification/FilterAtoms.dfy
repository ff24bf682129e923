/** Printed atoms are read back by the lexical part of the filter parser. */
module FilterAtoms {
  import opened Decimals
  import opened FilterSyntax
  import opened FilterParser
  import opened FilterPrinter

  /** What may follow a printed atom: nothing, a space, or a closing parenthesis. */
  predicate Follow(rest: string) {
    rest == "" || rest[0] == ' ' || rest[0] == ')'
  }

  lemma SkipSpace(s: string)
    requires s == "" || !IsBlank(s[0])
    ensures SkipWs(" " + s) == s
  {
    assert (" " + s)[1..] == s;
  }

  // ---------------------------------------------------------------- fields

  lemma {:induction false} SpanExtends(p: char -> bool, s: string, rest: string)
    requires Span(p, s) < |s| || rest == "" || !p(rest[0])
    ensures Span(p, s + rest) == Span(p, s)
  {
    if s == "" {
      assert s + rest == rest;
    } else if p(s[0]) {
      assert (s + rest)[1..] == s[1..] + rest;
      SpanExtends(p, s[1..], rest);
    }
  }

  lemma DotNamesStep(s: string, k: nat)
    requires s != "" && s[0] == '.' && k == Span(IsIdent, s[1..]) && k > 0
    ensures DotNames(s) == 1 + k + DotNames(s[1..][k..])
  {
    assert s[1..][k..] == s[1 + k..];
  }

  /** A path of dotted names opens with one and goes on with the rest. */
  lemma DotNamesOpen(s: string) returns (k: nat)
    requires s != "" && DotNames(s) == |s|
    ensures s[0] == '.' && k == Span(IsIdent, s[1..]) && 0 < k <= |s| - 1
    ensures DotNames(s[1..][k..]) == |s| - 1 - k
  {
    hide Span, IsIdent;
    k := Span(IsIdent, s[1..]);
    DotNamesStep(s, k);
  }

  lemma DotNamesGlue(s: string, rest: string, k: nat)
    requires s != "" && s[0] == '.' && 0 < k <= |s| - 1 && k == Span(IsIdent, s[1..] + rest)
    ensures DotNames(s + rest) == 1 + k + DotNames(s[1..][k..] + rest)
  {
    hide Span, IsIdent, DotNames;
    assert (s + rest)[1..] == s[1..] + rest;
    DotNamesStep(s + rest, k);
    assert (s[1..] + rest)[k..] == s[1..][k..] + rest;
  }

  lemma {:induction false} DotNamesExtends(s: string, rest: string)
    requires DotNames(s) == |s| && (rest == "" || (!IsIdent(rest[0]) && rest[0] != '.'))
    ensures DotNames(s + rest) == |s|
  {
    if s == "" {
      assert s + rest == rest;
    } else {
      hide Span, IsIdent, DotNames;
      var k := DotNamesOpen(s);
      SpanExtends(IsIdent, s[1..], rest);
      DotNamesGlue(s, rest, k);
      DotNamesExtends(s[1..][k..], rest);
    }
  }

  lemma FieldInverts(f: string, rest: string)
    requires IsField(f) && (rest == "" || (!IsIdent(rest[0]) && rest[0] != '.'))
    ensures FieldPath(f + rest) == Ok(f, rest)
    ensures f != "" && IsIdent(f[0])
  {
    var n := Span(IsIdent, f);
    var m := DotNames(f[n..]);
    assert FieldPath(f) == Ok(f, "") && f != "" && n > 0 && m > 0 && IsIdent(f[0]);
    assert f[..n + m] == f && n + m == |f|;
    hide IsField, IsIdent, Span, DotNames;
    SpanExtends(IsIdent, f, rest);
    assert (f + rest)[n..] == f[n..] + rest;
    DotNamesExtends(f[n..], rest);
    assert (f + rest)[..n + m] == f && (f + rest)[n + m..] == rest;
  }

  lemma WsFieldInverts(f: string, rest: string)
    requires IsField(f) && (rest == "" || !IsBlank(rest[0]))
    ensures WsField(f + (" " + rest)) == Ok(f, rest)
  {
    hide IsField, FieldPath;
    FieldInverts(f, " " + rest);
    SkipSpace(rest);
    assert f + (" " + rest) == SkipWs(f + (" " + rest));
  }

  // ---------------------------------------------------------------- values

  lemma DigitsDotInverts(n: nat, rest: string)
    ensures DigitsDot(Decimal(n) + ("." + rest)) == Ok(Decimal(n), rest)
  {
    var d, s := Decimal(n), Decimal(n) + ("." + rest);
    SpanExact(IsDigit, d, "." + rest);
    assert s[..|d|] == d && s[|d|] == '.' && s[|d| + 1..] == rest;
  }

  lemma OctetInverts(n: nat)
    requires n <= 255
    ensures IsOctet(Decimal(n)) && Number(Decimal(n)) == n
  {
    DecimalInverts(n);
    assert n == 0 ==> |Decimal(n)| == 1;
  }

  lemma IpInverts(a: nat, b: nat, c: nat, d: nat, rest: string)
    requires a <= 255 && b <= 255 && c <= 255 && d <= 255 && Follow(rest)
    ensures Value(PrintValue(IpAddr(a, b, c, d)) + rest) == Ok(IpAddr(a, b, c, d), rest)
  {
    hide IsOctet, Number, Decimal, DigitsDot;
    OctetInverts(a); OctetInverts(b); OctetInverts(c); OctetInverts(d);
    var r3 := Decimal(d) + rest;
    var r2 := Decimal(c) + ("." + r3);
    var r1 := Decimal(b) + ("." + r2);
    assert PrintValue(IpAddr(a, b, c, d)) + rest == Decimal(a) + ("." + r1);
    DigitsDotInverts(a, r1);
    DigitsDotInverts(b, r2);
    DigitsDotInverts(c, r3);
    Take1Exact(IsDigit, Decimal(d), rest);
  }

  lemma IntegerInverts(n: nat, rest: string)
    requires n <= 0x7fff_ffff_ffff_ffff && Follow(rest)
    ensures Value(Decimal(n) + rest) == Ok(Integer(n), rest)
  {
    hide Number, Decimal;
    var d := Decimal(n);
    SpanExact(IsDigit, d, rest);
    Take1Exact(IsDigit, d, rest);
    DecimalInverts(n);
  }

  /**
   STRING VALUES. A word is read back as a string value exactly when it does not open with
   digits that fit a 64-bit integer.
   */
  lemma StringInverts(w: string, rest: string)
    requires IsWord(w) && Follow(rest)
    ensures Value(w + rest) == Ok(Str(w), rest) <==> ReadsAsString(w)
  {
    hide Number, IsOctet;
    var n := Span(IsDigit, w);
    SpanExtends(IsDigit, w, rest);
    Take1Exact(IsWordChar, w, rest);
    assert (w + rest)[..n] == w[..n];
    if ReadsAsString(w) {
      assert IpValue(w + rest) == Fail by {
        if n > 0 {
          BigIsNoOctet(w[..n]);
        }
      }
    }
  }

  lemma BigIsNoOctet(digits: string)
    requires Number(digits) > 0x7fff_ffff_ffff_ffff
    ensures !IsOctet(digits)
  {
  }

  lemma ValueInverts(v: FilterValue, rest: string)
    requires PrintableValue(v) && Follow(rest)
    ensures Value(PrintValue(v) + rest) == Ok(v, rest)
    ensures PrintValue(v) != "" && !IsBlank(PrintValue(v)[0])
  {
    match v
    case Integer(n) => IntegerInverts(n, rest);
    case IpAddr(a, b, c, d) => IpInverts(a, b, c, d, rest);
    case Str(s) => StringInverts(s, rest);
  }

  // ---------------------------------------------------------------- atoms

  /** The keywords that other constructs open with are not read here. */
  predicate NoKeyword(s: string) {
    && s != "" && !IsBlank(s[0]) && s[0] != '(' && s[0] != '!'
    && !("not" <= s) && !("threat" <= s) && !("alert" <= s)
  }

  lemma NoThreat(s: string)
    requires NoKeyword(s)
    ensures ThreatAtom(s) == Fail
  {
  }

  lemma FieldStarts(f: string)
    requires IsField(f)
    ensures NoKeyword(f)
  {
    FieldInverts(f, " ");
    hide FieldPath;
  }

  lemma FieldOpensNothing(f: string, rest: string)
    requires IsField(f)
    ensures NoKeyword(f + (" " + rest))
  {
    FieldStarts(f);
    hide IsField;
    var s := f + (" " + rest);
    NoPrefixThroughSpace("not", f, rest);
    NoPrefixThroughSpace("threat", f, rest);
    NoPrefixThroughSpace("alert", f, rest);
    assert s[0] == f[0];
  }

  lemma NoPrefixThroughSpace(t: string, f: string, rest: string)
    requires !(t <= f) && forall i :: 0 <= i < |t| ==> t[i] != ' '
    ensures !(t <= f + (" " + rest))
  {
    var s := f + (" " + rest);
    if |t| > |f| {
      assert s[|f|] == ' ';
      TagMisses(t, s, |f|);
    } else {
      assert s[..|t|] == f[..|t|];
    }
  }

  lemma ContainsInverts(f: string, w: string, rest: string)
    requires IsField(f) && IsWord(w) && Follow(rest)
    ensures SimpleAtom(f + (" " + ("contains" + (" " + w))) + rest) == Ok(Contains(f, w), SkipWs(rest))
  {
    hide FieldPath, ThreatAtom;
    var s := f + (" " + ("contains" + (" " + (w + rest))));
    assert f + (" " + ("contains" + (" " + w))) + rest == s;
    FieldOpensNothing(f, "contains" + (" " + (w + rest)));
    NoThreat(s);
    WsFieldInverts(f, "contains" + (" " + (w + rest)));
    SkipSpace(w + rest);
    Take1Exact(IsWordChar, w, rest);
  }

  lemma OpInverts(op: CompareOp, rest: string)
    ensures CompareOpAt(OpTok(op) + rest) == Ok(op, rest)
    ensures !IsBlank((OpTok(op) + rest)[0])
    ensures Tag("contains", OpTok(op) + rest) == Fail
  {
    var s := OpTok(op) + rest;
    assert s[2..] == rest;
    TagMisses("contains", s, 0);
    if op == Eq {
      TagMisses("!=", s, 0);
    }
  }

  /** After a field and an operator, whatever value can be read makes the comparison. */
  lemma ComparisonReads(f: string, op: CompareOp, val: string)
    requires IsField(f) && val != "" && !IsBlank(val[0])
    ensures var v := Value(val);
      v.Ok? ==> SimpleAtom(f + (" " + (OpTok(op) + (" " + val)))) == Ok(Comparison(f, op, v.value), SkipWs(v.rest))
  {
    hide FieldPath, ThreatAtom, Value, CompareOpAt, OpTok;
    var tail := OpTok(op) + (" " + val);
    var s := f + (" " + tail);
    FieldOpensNothing(f, tail);
    NoThreat(s);
    OpInverts(op, " " + val);
    WsFieldInverts(f, tail);
    assert ContainsExpr(s) == Fail;
    SkipSpace(val);
  }

  lemma ComparisonInverts(f: string, op: CompareOp, v: FilterValue, rest: string)
    requires IsField(f) && PrintableValue(v) && Follow(rest)
    ensures SimpleAtom(f + (" " + (OpTok(op) + (" " + PrintValue(v)))) + rest)
            == Ok(Comparison(f, op, v), SkipWs(rest))
  {
    hide Value, PrintableValue, PrintValue, OpTok, IsField, SimpleAtom;
    var val := PrintValue(v) + rest;
    assert f + (" " + (OpTok(op) + (" " + PrintValue(v)))) + rest == f + (" " + (OpTok(op) + (" " + val)));
    ValueInverts(v, rest);
    assert val[0] == PrintValue(v)[0];
    ComparisonReads(f, op, val);
  }

  lemma ThreatInverts(st: Style, rest: string)
    requires Follow(rest)
    ensures SimpleAtom(ThreatTok(st) + rest) == Ok(Threat, SkipWs(rest))
  {
    var s := ThreatTok(st) + rest;
    if st.alertWord {
      TagMisses("threat", s, 0);
    }
  }

  // ---------------------------------------------------------------- protocols

  /** The parser reads the spelling that is printed. */
  lemma KeywordIsSpelling(p: ProtocolAtom)
    ensures Keyword(p) == Spelling(p)
  {
  }

  lemma KeywordIsIdent(p: ProtocolAtom)
    ensures Keyword(p) != "" && forall i :: 0 <= i < |Keyword(p)| ==> IsIdent(Keyword(p)[i])
  {
  }

  lemma KeywordOpensNothing(p: ProtocolAtom, rest: string)
    requires Follow(rest)
    ensures NoKeyword(Keyword(p) + rest)
  {
    var s := Keyword(p) + rest;
    assert s[0] == Keyword(p)[0] && s[1] == Keyword(p)[1];
    TagMisses("not", s, if p == Ipv4 then 0 else 0);
    TagMisses("threat", s, if s[0] == 't' then 1 else 0);
    TagMisses("alert", s, if s[0] == 'a' then 1 else 0);
  }

  /** A keyword that is no prefix of `q` is no prefix of `q` followed by `rest` either. */
  lemma OtherMisses(p: ProtocolAtom, q: ProtocolAtom, rest: string)
    requires Follow(rest) && !(Keyword(p) <= Keyword(q))
    ensures !(Keyword(p) <= Keyword(q) + rest)
  {
    var s := Keyword(q) + rest;
    KeywordIsIdent(p);
    if |Keyword(p)| > |Keyword(q)| {
      TagMisses(Keyword(p), s, |Keyword(q)|);
    } else {
      assert s[..|Keyword(p)|] == Keyword(q)[..|Keyword(p)|];
    }
  }

  lemma {:induction false} FirstOfInverts(ps: seq<ProtocolAtom>, k: nat, rest: string)
    requires Follow(rest) && k < |ps|
    requires forall i :: 0 <= i < k ==> !(Keyword(ps[i]) <= Keyword(ps[k]))
    ensures FirstOf(ps, Keyword(ps[k]) + rest) == Ok(ps[k], rest)
  {
    hide Keyword, Follow;
    var q := ps[k];
    var s := Keyword(q) + rest;
    if k == 0 {
      assert s[|Keyword(q)|..] == rest;
    } else {
      OtherMisses(ps[0], q, rest);
      FirstOfInverts(ps[1..], k - 1, rest);
    }
  }

  /** The order of the alternatives puts every keyword before its own prefixes. */
  lemma OrderIsRight(q: ProtocolAtom)
    ensures forall i :: 0 <= i < IndexInOrder(q) ==> !(Keyword(ORDER[i]) <= Keyword(q))
  {
    forall i | 0 <= i < IndexInOrder(q)
      ensures !(Keyword(ORDER[i]) <= Keyword(q))
    {
      assert IndexInOrder(ORDER[i]) == i;
      if Keyword(ORDER[i]) <= Keyword(q) {
        PrefixesComeLater(ORDER[i], q);
      }
    }
  }

  function IndexInOrder(p: ProtocolAtom): (i: nat)
    ensures i < |ORDER| && ORDER[i] == p
  {
    match p
    case Icmpv6 => 0
    case Icmp => 1
    case Ipv6 => 2
    case Ipv4 => 3
    case Ethernet => 4
    case Tcp => 5
    case Udp => 6
    case Arp => 7
    case Dns => 8
    case Tls => 9
    case Ip => 10
  }

  lemma PrefixesComeLater(p: ProtocolAtom, q: ProtocolAtom)
    requires Keyword(p) <= Keyword(q)
    ensures IndexInOrder(q) <= IndexInOrder(p)
  {
    assert Keyword(p)[0] == Keyword(q)[0] && Keyword(p)[1] == Keyword(q)[1];
    assert |Keyword(p)| >= 4 ==> Keyword(p)[3] == Keyword(q)[3];
  }

  /** A bare identifier is not a field. */
  lemma BareIsNoField(name: string, rest: string)
    requires name != "" && (forall i :: 0 <= i < |name| ==> IsIdent(name[i])) && Follow(rest)
    ensures WsField(name + rest) == Fail && SkipWs(name + rest) == name + rest
  {
    var s := name + rest;
    SpanExact(IsIdent, name, rest);
    assert s[|name|..] == rest;
  }

  lemma ProtocolInverts(p: ProtocolAtom, rest: string)
    requires Follow(rest)
    ensures SimpleAtom(Spelling(p) + rest) == Ok(ProtocolPresent(p), SkipWs(rest))
  {
    KeywordIsSpelling(p);
    hide Keyword, Spelling, ThreatAtom, WsField, FirstOf, Follow, IsIdent, IndexInOrder;
    var s := Keyword(p) + rest;
    KeywordOpensNothing(p, rest);
    NoThreat(s);
    KeywordIsIdent(p);
    BareIsNoField(Keyword(p), rest);
    OrderIsRight(p);
    FirstOfInverts(ORDER, IndexInOrder(p), rest);
  }

  // ---------------------------------------------------------------- all atoms

  lemma AtomInverts(st: Style, e: FilterExpr, rest: string)
    requires IsAtomic(e) && Printable(e) && Follow(rest)
    ensures SimpleAtom(PrintAtom(st, e) + rest) == Ok(e, SkipWs(rest))
  {
    match e
    case ProtocolPresent(p) => ProtocolInverts(p, rest);
    case Threat => ThreatInverts(st, rest);
    case Comparison(f, op, v) => ComparisonInverts(f, op, v, rest);
    case Contains(f, w) => ContainsInverts(f, w, rest);
  }

  /** A printed atom opens neither a group nor a negation. */
  lemma AtomOpens(st: Style, e: FilterExpr, rest: string)
    requires IsAtomic(e) && Printable(e) && Follow(rest)
    ensures var s := PrintAtom(st, e) + rest;
      s != "" && IsIdent(s[0]) && !("not" <= s)
  {
    hide IsField, IsWord, PrintableValue, PrintValue, FieldPath, Keyword, Spelling;
    var s := PrintAtom(st, e) + rest;
    match e
    case ProtocolPresent(p) =>
      KeywordIsSpelling(p);
      KeywordOpensNothing(p, rest);
      KeywordIsIdent(p);
    case Threat =>
      TagMisses("not", s, 0);
    case Comparison(f, op, v) =>
      var tail := OpTok(op) + (" " + PrintValue(v)) + rest;
      assert s == f + (" " + tail);
      FieldOpensNothing(f, tail);
      FieldInverts(f, "");
    case Contains(f, w) =>
      var tail := "contains" + (" " + w) + rest;
      assert s == f + (" " + tail);
      FieldOpensNothing(f, tail);
      FieldInverts(f, "");
  }

  // ---------------------------------------------------------------- field names

  predicate IsName(n: string) {
    n != "" && forall i :: 0 <= i < |n| ==> IsIdent(n[i])
  }

  function Dots(names: seq<string>): string {
    if names == [] then "" else "." + (names[0] + Dots(names[1..]))
  }

  lemma {:induction false} DotsTaken(names: seq<string>)
    requires forall n <- names :: IsName(n)
    ensures DotNames(Dots(names)) == |Dots(names)|
  {
    if names != [] {
      var rest := Dots(names[1..]);
      var s := Dots(names);
      assert s[1..] == names[0] + rest;
      assert IsName(names[0]);
      SpanExact(IsIdent, names[0], rest);
      assert s[1 + |names[0]|..] == rest;
      DotsTaken(names[1..]);
    }
  }

  /** Any dotted path of names is a field, unless it opens with another construct's keyword. */
  lemma DottedIsField(first: string, more: seq<string>)
    requires IsName(first) && more != [] && forall n <- more :: IsName(n)
    ensures var f := first + Dots(more);
      IsField(f) <==> !("not" <= f) && !("threat" <= f) && !("alert" <= f)
  {
    var f := first + Dots(more);
    SpanExact(IsIdent, first, Dots(more));
    assert f[|first|..] == Dots(more) && f[..|f|] == f && f[|f|..] == "";
    DotsTaken(more);
  }
}
