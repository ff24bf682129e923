/**
 The filter parser (`filter/parser.rs`): a recursive-descent grammar with ordered choice, two
 levels of left-associative operators and prefix negation, and free text as the fallback.
 */
module FilterParser {
  import opened FilterSyntax

  type Result = Parsed<FilterExpr>

  // ---------------------------------------------------------------- atoms

  function ThreatAtom(s: string): (r: Result)
    ensures r.Ok? ==> |r.rest| < |s|
  {
    var k := WsEither("threat", "alert", s);
    if k.Fail? then Fail else Ok(Threat, k.rest)
  }

  /** `ws(field_path)` */
  function WsField(s: string): (r: Parsed<string>)
    ensures r.Ok? ==> |r.rest| < |s|
  {
    var f := FieldPath(SkipWs(s));
    if f.Fail? then Fail else Ok(f.value, SkipWs(f.rest))
  }

  function ContainsExpr(s: string): (r: Result)
    ensures r.Ok? ==> |r.rest| < |s|
  {
    var f := WsField(s);
    if f.Fail? then Fail else
    var k := Tag("contains", SkipWs(f.rest));
    if k.Fail? then Fail else
    var w := Take1(IsWordChar, SkipWs(k.rest));
    if w.Fail? then Fail else Ok(Contains(f.value, w.value), SkipWs(w.rest))
  }

  function CompareOpAt(s: string): (r: Parsed<CompareOp>)
    ensures r.Ok? ==> |r.rest| < |s|
  {
    if "!=" <= s then Ok(Ne, s[2..]) else if "==" <= s then Ok(Eq, s[2..]) else Fail
  }

  function ComparisonExpr(s: string): (r: Result)
    ensures r.Ok? ==> |r.rest| < |s|
  {
    var f := WsField(s);
    if f.Fail? then Fail else
    var op := CompareOpAt(SkipWs(f.rest));
    if op.Fail? then Fail else
    var v := Value(SkipWs(op.rest));
    if v.Fail? then Fail else Ok(Comparison(f.value, op.value, v.value), SkipWs(v.rest))
  }

  function ProtocolExpr(s: string): (r: Result)
    ensures r.Ok? ==> |r.rest| < |s|
  {
    var p := FirstOf(ORDER, SkipWs(s));
    if p.Fail? then Fail else Ok(ProtocolPresent(p.value), SkipWs(p.rest))
  }

  /** The alternatives of an atom after the parenthesized one. */
  function SimpleAtom(s: string): (r: Result)
    ensures r.Ok? ==> |r.rest| < |s|
  {
    var t := ThreatAtom(s);
    if t.Ok? then t else
    var c := ContainsExpr(s);
    if c.Ok? then c else
    var m := ComparisonExpr(s);
    if m.Ok? then m else ProtocolExpr(s)
  }

  // ---------------------------------------------------------------- the grammar

  function Group(s: string): (r: Result)
    ensures r.Ok? ==> |r.rest| < |s|
    decreases |s|, 0
  {
    var s1 := SkipWs(s);
    if s1 == "" || s1[0] != '(' then Fail else
    var e := Expr(SkipWs(s1[1..]));
    if e.Fail? then Fail else
    var s2 := SkipWs(e.rest);
    if s2 == "" || s2[0] != ')' then Fail else Ok(e.value, SkipWs(s2[1..]))
  }

  function Atom(s: string): (r: Result)
    ensures r.Ok? ==> |r.rest| < |s|
    decreases |s|, 1
  {
    var g := Group(s);
    if g.Ok? then g else SimpleAtom(s)
  }

  function Negation(s: string): (r: Result)
    ensures r.Ok? ==> |r.rest| < |s|
    decreases |s|, 2
  {
    var k := WsEither("not", "!", s);
    if k.Fail? then Fail else
    var e := Unary(k.rest);
    if e.Fail? then Fail else Ok(Not(e.value), e.rest)
  }

  function Unary(s: string): (r: Result)
    ensures r.Ok? ==> |r.rest| < |s|
    decreases |s|, 3
  {
    var n := Negation(s);
    if n.Ok? then n else Atom(s)
  }

  /** `many0(preceded(and, unary))`: the terms found and the input before the first that fails. */
  function AndTail(s: string): (r: (seq<FilterExpr>, string))
    ensures |r.1| <= |s|
    decreases |s|, 3
  {
    var k := WsEither("&&", "and", s);
    if k.Fail? then ([], s) else
    var e := Unary(k.rest);
    if e.Fail? then ([], s) else
    var (more, rest) := AndTail(e.rest);
    ([e.value] + more, rest)
  }

  function FoldAnd(first: FilterExpr, more: seq<FilterExpr>): FilterExpr
    decreases |more|
  {
    if more == [] then first else FoldAnd(And(first, more[0]), more[1..])
  }

  function AndTerm(s: string): (r: Result)
    ensures r.Ok? ==> |r.rest| < |s|
    decreases |s|, 4
  {
    var e := Unary(s);
    if e.Fail? then Fail else
    var (more, rest) := AndTail(e.rest);
    Ok(FoldAnd(e.value, more), rest)
  }

  function OrTail(s: string): (r: (seq<FilterExpr>, string))
    ensures |r.1| <= |s|
    decreases |s|, 5
  {
    var k := WsEither("||", "or", s);
    if k.Fail? then ([], s) else
    var e := AndTerm(k.rest);
    if e.Fail? then ([], s) else
    var (more, rest) := OrTail(e.rest);
    ([e.value] + more, rest)
  }

  function FoldOr(first: FilterExpr, more: seq<FilterExpr>): FilterExpr
    decreases |more|
  {
    if more == [] then first else FoldOr(Or(first, more[0]), more[1..])
  }

  function Expr(s: string): (r: Result)
    ensures r.Ok? ==> |r.rest| < |s|
    decreases |s|, 6
  {
    var e := AndTerm(s);
    if e.Fail? then Fail else
    var (more, rest) := OrTail(e.rest);
    Ok(FoldOr(e.value, more), rest)
  }

  // ---------------------------------------------------------------- the entry point

  function TrimStart(s: string): (r: string)
    ensures |r| <= |s|
  {
    if s != "" && IsSpace(s[0]) then TrimStart(s[1..]) else s
  }

  function TrimEnd(s: string): (r: string)
    ensures |r| <= |s|
  {
    if s != "" && IsSpace(s[|s| - 1]) then TrimEnd(s[..|s| - 1]) else s
  }

  function Trim(s: string): string {
    TrimEnd(TrimStart(s))
  }

  /** None for the empty filter; anything that is not a whole expression is free text. */
  function ParseFilter(input: string): Parsed<FilterExpr> {
    var s := Trim(input);
    if s == "" then Fail else
    var e := Expr(s);
    if e.Ok? && e.rest == "" then Ok(e.value, "") else Ok(FreeText(s), "")
  }
}
