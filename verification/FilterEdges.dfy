/** The characters the filter language is made of, and what surrounds a filter as typed. */
module FilterEdges {
  import opened Decimals
  import opened FilterSyntax
  import opened FilterParser

  // ---------------------------------------------------------------- characters

  /** The characters of names: digits, letters and the underscore, written out. */
  const DIGITS: set<char> := {
    '0', '1', '2', '3', '4', '5', '6', '7', '8', '9'}
  const CAPITALS: set<char> := {
    'A', 'B', 'C', 'D', 'E', 'F', 'G', 'H', 'I', 'J', 'K', 'L', 'M', 'N', 'O', 'P', 'Q', 'R', 'S', 'T', 'U',
    'V', 'W', 'X', 'Y', 'Z'}
  const SMALLS: set<char> := {
    'a', 'b', 'c', 'd', 'e', 'f', 'g', 'h', 'i', 'j', 'k', 'l', 'm', 'n', 'o', 'p', 'q', 'r', 's', 't', 'u',
    'v', 'w', 'x', 'y', 'z'}

  lemma DigitsAre(c: char)
    ensures IsDigit(c) <==> c in DIGITS
  {
  }

  lemma LettersAre(c: char)
    ensures 'A' <= c <= 'Z' <==> c in CAPITALS
    ensures 'a' <= c <= 'z' <==> c in SMALLS
  {
  }

  lemma NameCharsAre(c: char)
    ensures IsIdent(c) <==> c in DIGITS || c in CAPITALS || c in SMALLS || c == '_'
  {
    DigitsAre(c);
    LettersAre(c);
    hide IsDigit;
  }

  /** A word runs up to a space, a tab, a line break or a closing parenthesis. */
  lemma WordCharsAre(c: char)
    ensures IsWordChar(c) <==> c as int !in {0x20, 0x09, 0x0A, 0x0D, 0x29}
    ensures IsBlank(c) <==> c as int in {0x20, 0x09, 0x0A, 0x0D}
  {
  }

  // ---------------------------------------------------------------- surroundings

  predicate AllSpace(s: string) {
    forall c <- s :: IsSpace(c)
  }

  /** Text that neither begins nor ends with white space. */
  predicate Bare(s: string) {
    s != "" && !IsSpace(s[0]) && !IsSpace(s[|s| - 1])
  }

  lemma {:induction false} TrimStartDrops(left: string, rest: string)
    requires AllSpace(left) && (rest != "" ==> !IsSpace(rest[0]))
    ensures TrimStart(left + rest) == rest
  {
    if left == "" {
      assert left + rest == rest;
    } else {
      assert left[0] in left && forall c <- left[1..] :: c in left;
      assert (left + rest)[1..] == left[1..] + rest;
      TrimStartDrops(left[1..], rest);
    }
  }

  lemma {:induction false} TrimEndDrops(rest: string, right: string)
    requires AllSpace(right) && (rest != "" ==> !IsSpace(rest[|rest| - 1]))
    ensures TrimEnd(rest + right) == rest
  {
    if right == "" {
      assert rest + right == rest;
    } else {
      var n := |right| - 1;
      assert right[n] in right && forall c <- right[..n] :: c in right;
      assert (rest + right)[..|rest + right| - 1] == rest + right[..n];
      TrimEndDrops(rest, right[..n]);
    }
  }

  lemma TrimDrops(left: string, core: string, right: string)
    requires AllSpace(left) && AllSpace(right) && Bare(core)
    ensures Trim(left + core + right) == core
  {
    assert left + core + right == left + (core + right);
    TrimStartDrops(left, core + right);
    TrimEndDrops(core, right);
  }

  lemma AllSpaceTrims(s: string)
    requires AllSpace(s)
    ensures Trim(s) == ""
  {
    assert s + "" == s;
    TrimStartDrops(s, "");
  }

  /** Every text is all white space, or bare text with white space around it. */
  lemma {:induction false} Surrounded(s: string) returns (left: string, core: string, right: string)
    ensures s == left + core + right && AllSpace(left) && AllSpace(right) && (core == "" || Bare(core))
    decreases |s|
  {
    if s == "" || Bare(s) {
      left, core, right := "", s, "";
    } else if IsSpace(s[0]) {
      left, core, right := Surrounded(s[1..]);
      assert s == ([s[0]] + left) + core + right;
      left := [s[0]] + left;
    } else {
      var n := |s| - 1;
      left, core, right := Surrounded(s[..n]);
      assert s == left + core + (right + [s[n]]);
      right := right + [s[n]];
    }
  }

  /**
   SURROUNDINGS. White space around a filter makes no difference, nothing but white space is no filter, and
   text that is no whole expression is searched for exactly as typed without its surroundings.
   */
  lemma SurroundingsIgnored(left: string, core: string, right: string)
    requires AllSpace(left) && AllSpace(right) && Bare(core)
    ensures ParseFilter(left + core + right) == ParseFilter(core)
    ensures (Expr(core).Fail? || Expr(core).rest != "") ==> ParseFilter(core) == Ok(FreeText(core), "")
    ensures Expr(core).Ok? && Expr(core).rest == "" ==> ParseFilter(core) == Ok(Expr(core).value, "")
  {
    TrimDrops(left, core, right);
    TrimDrops("", core, "");
    assert "" + core + "" == core;
    hide Trim, Expr;
  }

  /** The only texts refused are those of nothing but white space. */
  lemma RefusedExactly(s: string)
    ensures ParseFilter(s).Fail? <==> AllSpace(s)
  {
    var left, core, right := Surrounded(s);
    if core == "" {
      AllSpaceTrims(s);
    } else {
      SurroundingsIgnored(left, core, right);
      assert core[0] == s[|left|] && core[0] in s;
    }
  }

  /** White space as Unicode has it, by code point. */
  const SPACES: set<int> := {
    0x09, 0x0A, 0x0B, 0x0C, 0x0D, 0x20, 0x85, 0xA0, 0x1680, 0x2000, 0x2001, 0x2002, 0x2003, 0x2004, 0x2005, 0x2006,
    0x2007, 0x2008, 0x2009, 0x200A, 0x2028, 0x2029, 0x202F, 0x205F, 0x3000}

  lemma SpacesAre(c: char)
    ensures IsSpace(c) <==> c as int in SPACES
  {
  }
}
