/** Parsing undoes printing: precedence, left association and negation come back as written. */
module FilterRoundTrip {
  import opened Decimals
  import opened FilterSyntax
  import opened FilterParser
  import opened FilterPrinter
  import opened FilterAtoms

  predicate Good(s: string) {
    s != "" && !IsSpace(s[0]) && !IsSpace(s[|s| - 1])
  }

  lemma {:induction false} DigitsGood(n: nat)
    ensures Good(Decimal(n))
  {
    var s := Decimal(n);
    assert IsDigit(s[0]) && IsDigit(s[|s| - 1]);
  }

  lemma AtomGood(st: Style, e: FilterExpr)
    requires IsAtomic(e) && Printable(e)
    ensures Good(PrintAtom(st, e))
  {
    hide IsField, PrintValue, PrintableValue, Good;
    match e
    case ProtocolPresent(p) => KeywordGood(p);
    case Threat => ThreatGood();
    case Comparison(f, op, v) =>
      ValueGood(v);
      FieldThenGood(f, " " + (OpTok(op) + (" " + PrintValue(v))));
    case Contains(f, w) =>
      FieldThenGood(f, " " + ("contains" + (" " + w)));
  }

  lemma ThreatGood()
    ensures Good("alert") && Good("threat")
  {
  }

  lemma KeywordGood(p: ProtocolAtom)
    ensures Good(Spelling(p))
  {
  }

  lemma FieldThenGood(f: string, tail: string)
    requires IsField(f) && tail != "" && !IsSpace(tail[|tail| - 1])
    ensures Good(f + tail)
  {
    FieldInverts(f, "");
    var s := f + tail;
    assert s[0] == f[0] && s[|s| - 1] == tail[|tail| - 1];
  }

  lemma ValueGood(v: FilterValue)
    requires PrintableValue(v)
    ensures PrintValue(v) != "" && !IsSpace(PrintValue(v)[|PrintValue(v)| - 1])
  {
    match v
    case Integer(n) => DigitsGood(n);
    case IpAddr(a, b, c, d) =>
      DigitsGood(d);
      var s := PrintValue(v);
      assert s[|s| - 1] == Decimal(d)[|Decimal(d)| - 1];
    case Str(s) =>
  }

  /** Printed text starts and ends with something other than white space. */
  lemma {:induction false} PrintGood(st: Style, e: FilterExpr)
    requires Printable(e)
    ensures Good(PrintUnary(st, e)) && Good(PrintAnd(st, e)) && Good(PrintOr(st, e))
  {
    hide Good, IsField, IsWord, PrintableValue;
    match e
    case Not(x) =>
      PrintGood(st, x);
      NegationGood(st, PrintUnary(st, x));
    case And(l, r) =>
      PrintGood(st, l);
      PrintGood(st, r);
      var body := AndTok(st) + (" " + PrintUnary(st, r));
      BinaryGood(PrintAnd(st, l), AndTok(st), PrintUnary(st, r));
      ParenGood(PrintAnd(st, l) + (" " + body));
    case Or(l, r) =>
      PrintGood(st, l);
      PrintGood(st, r);
      BinaryGood(PrintOr(st, l), OrTok(st), PrintAnd(st, r));
      ParenGood(PrintOr(st, l) + (" " + (OrTok(st) + (" " + PrintAnd(st, r)))));
    case ProtocolPresent(_) => AtomGood(st, e);
    case Threat => AtomGood(st, e);
    case Comparison(_, _, _) => AtomGood(st, e);
    case Contains(_, _) => AtomGood(st, e);
  }

  lemma NegationGood(st: Style, x: string)
    requires Good(x)
    ensures Good(NotTok(st) + x)
  {
    var s := NotTok(st) + x;
    assert s[|s| - 1] == x[|x| - 1];
  }

  lemma BinaryGood(l: string, tok: string, r: string)
    requires Good(l) && Good(r)
    ensures Good(l + (" " + (tok + (" " + r))))
  {
    var s := l + (" " + (tok + (" " + r)));
    assert s[0] == l[0] && s[|s| - 1] == r[|r| - 1];
  }

  lemma ParenGood(body: string)
    ensures Good("(" + (body + ")"))
  {
    var s := "(" + (body + ")");
    assert s[|s| - 1] == ')';
  }

  lemma GoodStaysPut(s: string, rest: string)
    requires Good(s)
    ensures SkipWs(s + rest) == s + rest && SkipWs(" " + (s + rest)) == s + rest
  {
    assert (s + rest)[0] == s[0];
    SkipSpace(s + rest);
  }

  // ---------------------------------------------------------------- operators

  /** An operator written between spaces is read, whichever of its spellings. */
  lemma OperatorRead(t: string, u: string, word: bool, s: string)
    requires t != "" && u != "" && t[0] != u[0] && !IsBlank(t[0]) && !IsBlank(u[0])
    requires s != "" && !IsBlank(s[0])
    ensures WsEither(t, u, (if word then u else t) + (" " + s)) == Ok((), s)
  {
    var tok := if word then u else t;
    var q := tok + (" " + s);
    assert q[0] == tok[0];
    if word {
      TagMisses(t, q, 0);
    }
    SkipSpace(s);
  }

  /** What cannot be read as another `and` term. */
  predicate NoAnd(rest: string) {
    AndTail(SkipWs(rest)) == ([], SkipWs(rest))
  }

  lemma NotAnOperator(t: string, u: string, s: string)
    requires t != "" && u != "" && (s == "" || (!IsBlank(s[0]) && s[0] != t[0] && s[0] != u[0]))
    ensures WsEither(t, u, s) == Fail && SkipWs(s) == s
  {
    TagMisses(t, s, 0);
    TagMisses(u, s, 0);
  }

  lemma OrEndsAnd(st: Style, s: string)
    ensures NoAnd(" " + (OrTok(st) + (" " + s)))
  {
    var q := OrTok(st) + (" " + s);
    assert q[0] == OrTok(st)[0];
    SkipSpace(q);
    NotAnOperator("&&", "and", q);
  }

  lemma CloseEnds(rest: string)
    requires rest == "" || rest[0] == ')'
    ensures NoAnd(rest) && SkipWs(rest) == rest && OrTail(rest) == ([], rest)
  {
    NotAnOperator("&&", "and", rest);
    NotAnOperator("||", "or", rest);
  }

  // ---------------------------------------------------------------- the levels

  lemma NoNegation(s: string)
    requires s != "" && !IsBlank(s[0]) && s[0] != '!' && !("not" <= s)
    ensures Negation(s) == Fail
  {
    TagMisses("!", s, 0);
  }

  lemma NoGroup(s: string)
    requires s != "" && !IsBlank(s[0]) && s[0] != '('
    ensures Group(s) == Fail
  {
  }

  lemma AtomicUnary(st: Style, e: FilterExpr, rest: string)
    requires IsAtomic(e) && Printable(e) && Follow(rest)
    ensures Unary(PrintUnary(st, e) + rest) == Ok(e, SkipWs(rest))
  {
    hide SimpleAtom, Group, Negation, PrintAtom, Printable, Follow;
    var s := PrintAtom(st, e) + rest;
    assert PrintUnary(st, e) == PrintAtom(st, e);
    AtomOpens(st, e, rest);
    NoNegation(s);
    NoGroup(s);
    AtomInverts(st, e, rest);
  }

  lemma NegatedUnary(st: Style, x: FilterExpr, rest: string)
    requires Good(PrintUnary(st, x)) && Unary(PrintUnary(st, x) + rest) == Ok(x, SkipWs(rest))
    ensures Unary(NotTok(st) + PrintUnary(st, x) + rest) == Ok(Not(x), SkipWs(rest))
  {
    hide Atom, PrintUnary, Good;
    var s := PrintUnary(st, x) + rest;
    var q := NotTok(st) + PrintUnary(st, x) + rest;
    assert q == NotTok(st) + s;
    GoodStaysPut(PrintUnary(st, x), rest);
    NegationRead(st, s);
  }

  lemma NegationRead(st: Style, s: string)
    requires SkipWs(s) == s && SkipWs(" " + s) == s
    ensures WsEither("not", "!", NotTok(st) + s) == Ok((), s)
  {
    var q := NotTok(st) + s;
    if st.notWord {
      assert q == "not" + (" " + s);
    } else {
      TagMisses("not", q, 0);
    }
  }

  lemma GroupedUnary(body: string, e: FilterExpr, rest: string)
    requires Good(body) && Expr(body + (")" + rest)) == Ok(e, ")" + rest)
    ensures Unary("(" + (body + ")") + rest) == Ok(e, SkipWs(rest))
  {
    hide Expr, SimpleAtom, Good, Negation;
    var s1, q := body + (")" + rest), "(" + (body + ")") + rest;
    assert q == "(" + s1 && q[0] == '(' && q[1..] == s1;
    TagMisses("not", q, 0);
    NoNegation(q);
    GoodStaysPut(body, ")" + rest);
    assert (")" + rest)[1..] == rest;
    assert Group(q) == Ok(e, SkipWs(rest));
    assert Atom(q) == Group(q);
  }

  lemma {:induction false} UnaryInverts(st: Style, e: FilterExpr, rest: string)
    requires Printable(e) && Follow(rest)
    ensures Unary(PrintUnary(st, e) + rest) == Ok(e, SkipWs(rest))
    decreases e, if e.And? || e.Or? then 3 else 0
  {
    hide Unary, Expr, Good, IsField, IsWord, PrintableValue;
    PrintGood(st, e);
    match e
    case Not(x) =>
      PrintGood(st, x);
      UnaryInverts(st, x, rest);
      NegatedUnary(st, x, rest);
    case And(l, r) =>
      WholeInverts(st, e, ")" + rest);
      GroupedUnary(PrintOr(st, e), e, rest);
    case Or(l, r) =>
      WholeInverts(st, e, ")" + rest);
      GroupedUnary(PrintOr(st, e), e, rest);
    case ProtocolPresent(_) => AtomicUnary(st, e, rest);
    case Threat => AtomicUnary(st, e, rest);
    case Comparison(_, _, _) => AtomicUnary(st, e, rest);
    case Contains(_, _) => AtomicUnary(st, e, rest);
  }

  /** The printed terms of an `and` chain, read left to right, fold back to the left-nested chain. */
  lemma {:induction false} AndInverts(st: Style, e: FilterExpr, rest: string)
    requires Printable(e) && Follow(rest)
    ensures var (more, left) := AndTail(SkipWs(rest));
      AndTerm(PrintAnd(st, e) + rest) == Ok(FoldAnd(e, more), left)
    decreases e, if e.Or? then 4 else 1
  {
    if e.And? {
      var s := PrintUnary(st, e.right) + rest;
      var tail := " " + (AndTok(st) + (" " + s));
      assert PrintAnd(st, e) + rest == PrintAnd(st, e.left) + tail;
      AndInverts(st, e.left, tail);
      PrintGood(st, e.right);
      UnaryInverts(st, e.right, rest);
      NextAnd(st, PrintUnary(st, e.right), rest, e.right);
    } else {
      UnaryInverts(st, e, rest);
    }
  }

  lemma NextAnd(st: Style, text: string, rest: string, e: FilterExpr)
    requires Good(text) && Unary(text + rest) == Ok(e, SkipWs(rest))
    ensures var (more, left) := AndTail(SkipWs(rest));
      AndTail(SkipWs(" " + (AndTok(st) + (" " + (text + rest))))) == ([e] + more, left)
  {
    hide Unary;
    var s := text + rest;
    assert s[0] == text[0];
    OperatorRead("&&", "and", st.andWord, s);
    SkipSpace(AndTok(st) + (" " + s));
  }

  lemma {:induction false} OrInverts(st: Style, e: FilterExpr, rest: string)
    requires Printable(e) && Follow(rest) && NoAnd(rest)
    ensures var (more, left) := OrTail(SkipWs(rest));
      Expr(PrintOr(st, e) + rest) == Ok(FoldOr(e, more), left)
    decreases e, 2, 0
  {
    if e.Or? {
      var s := PrintAnd(st, e.right) + rest;
      var tail := " " + (OrTok(st) + (" " + s));
      assert PrintOr(st, e) + rest == PrintOr(st, e.left) + tail;
      OrEndsAnd(st, s);
      OrInverts(st, e.left, tail);
      PrintGood(st, e.right);
      AndInverts(st, e.right, rest);
      NextOr(st, PrintAnd(st, e.right), rest, e.right);
    } else {
      AndInverts(st, e, rest);
    }
  }

  lemma NextOr(st: Style, text: string, rest: string, e: FilterExpr)
    requires Good(text) && AndTerm(text + rest) == Ok(e, SkipWs(rest))
    ensures var (more, left) := OrTail(SkipWs(rest));
      OrTail(SkipWs(" " + (OrTok(st) + (" " + (text + rest))))) == ([e] + more, left)
  {
    hide AndTerm;
    var s := text + rest;
    assert s[0] == text[0];
    OperatorRead("||", "or", st.orWord, s);
    SkipSpace(OrTok(st) + (" " + s));
  }

  lemma WholeInverts(st: Style, e: FilterExpr, rest: string)
    requires Printable(e) && (rest == "" || rest[0] == ')')
    ensures Expr(PrintOr(st, e) + rest) == Ok(e, rest)
    decreases e, 2, 1
  {
    CloseEnds(rest);
    OrInverts(st, e, rest);
  }

  /**
   PRINT AND PARSE. Every printable expression, printed in any spelling of the operators with
   only the parentheses that precedence and left association require, parses back to itself.
   */
  lemma ParseInvertsPrint(st: Style, e: FilterExpr)
    requires Printable(e)
    ensures ParseFilter(Print(st, e)) == Ok(e, "")
  {
    var s := Print(st, e);
    PrintGood(st, e);
    assert Trim(s) == s;
    WholeInverts(st, e, "");
    assert s + "" == s;
  }

  /** So printing is injective: the parentheses written are never too few. */
  lemma PrintInjective(st: Style, e: FilterExpr, e': FilterExpr)
    requires Printable(e) && Printable(e') && Print(st, e) == Print(st, e')
    ensures e == e'
  {
    ParseInvertsPrint(st, e);
    ParseInvertsPrint(st, e');
  }

  // ---------------------------------------------------------------- string values

  /** A text that opens with a comparison, as far as the comparison is read. */
  lemma OpensWithComparison(f: string, op: CompareOp, val: string)
    requires IsField(f) && val != "" && !IsBlank(val[0]) && Value(val).Ok?
    ensures Unary(f + (" " + (OpTok(op) + (" " + val)))) == Ok(Comparison(f, op, Value(val).value), SkipWs(Value(val).rest))
  {
    hide Value, SimpleAtom, OpTok, FieldPath;
    var s := f + (" " + (OpTok(op) + (" " + val)));
    ComparisonReads(f, op, val);
    FieldOpensNothing(f, OpTok(op) + (" " + val));
    NoNegation(s);
    NoGroup(s);
  }

  lemma {:induction false} FoldsGrow(e: FilterExpr, more: seq<FilterExpr>)
    ensures FoldAnd(e, more).Comparison? ==> more == [] && FoldAnd(e, more) == e
    ensures FoldOr(e, more).Comparison? ==> more == [] && FoldOr(e, more) == e
    decreases |more|
  {
    if more != [] {
      FoldsGrow(And(e, more[0]), more[1..]);
      FoldsGrow(Or(e, more[0]), more[1..]);
    }
  }

  /** If a whole text is read as a comparison, it is the comparison it opens with. */
  lemma ReadAsOpened(s: string, e: FilterExpr)
    requires Unary(s).Ok? && Expr(s) == Ok(e, "") && e.Comparison?
    ensures Unary(s).value == e
  {
    hide Unary, AndTail, OrTail;
    var u := Unary(s);
    var (more, rest) := AndTail(u.rest);
    var (terms, _) := OrTail(rest);
    FoldsGrow(FoldAnd(u.value, more), terms);
    FoldsGrow(u.value, more);
  }

  /** A word is read as a string value whole or not at all. */
  lemma WordIsWhole(w: string, x: string, rest: string)
    requires IsWord(w) && Value(w) == Ok(Str(x), rest)
    ensures x == w && rest == ""
  {
    hide IsOctet, Number;
    assert w + "" == w;
    Take1Exact(IsWordChar, w, "");
  }

  /**
   STRING COMPARISONS. A comparison with a word, as a whole filter, comes back as one with that string
   if and only if the word does not open with digits that fit a 64-bit integer.
   */
  lemma StringComparisonRead(f: string, op: CompareOp, w: string)
    requires IsField(f) && IsWord(w)
    ensures ParseFilter(f + (" " + (OpTok(op) + (" " + w)))) == Ok(Comparison(f, op, Str(w)), "") <==> ReadsAsString(w)
  {
    hide IsField, ReadsAsString, Value, Expr, Unary, OpTok, Take1;
    var st, e := Style(false, false, false, false), Comparison(f, op, Str(w));
    var s := f + (" " + (OpTok(op) + (" " + w)));
    StringInverts(w, "");
    assert w + "" == w;
    if ReadsAsString(w) {
      assert PrintUnary(st, e) == PrintAtom(st, e) == s;
      assert PrintAnd(st, e) == s && PrintOr(st, e) == s;
      ParseInvertsPrint(st, e);
    } else if ParseFilter(s) == Ok(e, "") {
      TextGood(f, op, w);
      assert Trim(s) == s;
      WordHasValue(w);
      OpensWithComparison(f, op, w);
      ReadAsOpened(s, e);
      WordIsWhole(w, w, Value(w).rest);
    }
  }

  lemma WordHasValue(w: string)
    requires IsWord(w)
    ensures Value(w).Ok?
  {
    hide IsOctet, Number;
    assert w + "" == w;
    Take1Exact(IsWordChar, w, "");
  }

  lemma TextGood(f: string, op: CompareOp, w: string)
    requires IsField(f) && IsWord(w)
    ensures Good(f + (" " + (OpTok(op) + (" " + w))))
  {
    hide IsField;
    var tail := " " + (OpTok(op) + (" " + w));
    assert tail[|tail| - 1] == w[|w| - 1];
    FieldThenGood(f, tail);
  }

  /** A number with a suffix that opens no operator is no value: the filter is a search for its text. */
  lemma SuffixedNumber(f: string, op: CompareOp, n: nat, x: string)
    requires IsField(f) && n <= 0x7fff_ffff_ffff_ffff && IsWord(x)
    requires !IsDigit(x[0]) && x[0] != '.' && x[0] != 'a' && x[0] != 'o' && x[0] != '&' && x[0] != '|'
    ensures var s := f + (" " + (OpTok(op) + (" " + (Decimal(n) + x))));
      ParseFilter(s) == Ok(FreeText(s), "")
  {
    hide IsField, Number, Decimal, Unary, OpTok, IsOctet;
    var w := Decimal(n) + x;
    var s := f + (" " + (OpTok(op) + (" " + w)));
    var tail := " " + (OpTok(op) + (" " + w));
    DigitsGood(n);
    assert tail[|tail| - 1] == x[|x| - 1];
    FieldThenGood(f, tail);
    assert Trim(s) == s;
    SpanExact(IsDigit, Decimal(n), x);
    Take1Exact(IsDigit, Decimal(n), x);
    DecimalInverts(n);
    assert Value(w) == Ok(Integer(n), x);
    assert w[0] == Decimal(n)[0];
    OpensWithComparison(f, op, w);
    NotAnOperator("&&", "and", x);
    NotAnOperator("||", "or", x);
    var e := Comparison(f, op, Integer(n));
    assert Unary(s) == Ok(e, x);
    assert AndTerm(s) == Ok(e, x) && Expr(s) == Ok(e, x);
  }

  // ---------------------------------------------------------------- filters as typed

  lemma ProtocolRead(p: ProtocolAtom)
    ensures ParseFilter(Spelling(p)) == Ok(ProtocolPresent(p), "")
  {
    var st, e := Style(false, false, false, false), ProtocolPresent(p);
    ParseInvertsPrint(st, e);
    hide ParseFilter, Spelling;
    assert PrintUnary(st, e) == PrintAtom(st, e) == Spelling(p);
    assert PrintAnd(st, e) == Spelling(p) && PrintOr(st, e) == Spelling(p);
  }

  /** Each protocol by its keyword. */
  lemma ProtocolKeywords()
    ensures ParseFilter("eth") == Ok(ProtocolPresent(Ethernet), "") && ParseFilter("arp") == Ok(ProtocolPresent(Arp), "")
    ensures ParseFilter("ip") == Ok(ProtocolPresent(Ip), "") && ParseFilter("ipv4") == Ok(ProtocolPresent(Ipv4), "")
    ensures ParseFilter("ipv6") == Ok(ProtocolPresent(Ipv6), "") && ParseFilter("tcp") == Ok(ProtocolPresent(Tcp), "")
    ensures ParseFilter("udp") == Ok(ProtocolPresent(Udp), "") && ParseFilter("icmp") == Ok(ProtocolPresent(Icmp), "")
    ensures ParseFilter("icmpv6") == Ok(ProtocolPresent(Icmpv6), "") && ParseFilter("dns") == Ok(ProtocolPresent(Dns), "")
    ensures ParseFilter("tls") == Ok(ProtocolPresent(Tls), "")
  {
    hide ParseFilter;
    ProtocolRead(Ethernet);
    ProtocolRead(Arp);
    ProtocolRead(Ip);
    ProtocolRead(Ipv4);
    ProtocolRead(Ipv6);
    ProtocolRead(Tcp);
    ProtocolRead(Udp);
    ProtocolRead(Icmp);
    ProtocolRead(Icmpv6);
    ProtocolRead(Dns);
    ProtocolRead(Tls);
  }
}
