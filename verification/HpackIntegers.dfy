/** Prefix integers and string literals of HPACK (section 5 of RFC 7541). */
module HpackIntegers {
  import opened Bytes
  import opened HpackStatic
  import Decimals

  /** `x << n`, without a width */
  function Shl(x: nat, n: nat): (y: nat)
    ensures y >= x
  {
    if n == 0 then x else 2 * Shl(x, n - 1)
  }

  function Pow2(n: nat): (p: nat)
    ensures p > 0
  {
    Shl(1, n)
  }

  /** `(1 << prefix) - 1` */
  function Mask(prefix: nat): nat {
    Pow2(prefix) - 1
  }

  // ---------------------------------------------------------------- decoding

  /** Continuation bytes from `pos`, seven bits each; at most five are accepted. */
  function Continue(buf: seq<byte>, pos: nat, value: nat, shift: nat): (r: Option<(nat, nat)>)
    ensures r.Some? ==> pos < r.value.1 <= |buf|
    decreases 35 - shift
  {
    if pos >= |buf| then None else
    var value' := value + Shl(buf[pos] % 128, shift);
    if buf[pos] < 128 then Some((value', pos + 1))
    else if shift + 7 > 28 then None
    else Continue(buf, pos + 1, value', shift + 7)
  }

  function DecodeInt(buf: seq<byte>, pos: nat, prefix: nat): (r: Option<(nat, nat)>)
    ensures r.Some? ==> pos < r.value.1 <= |buf|
  {
    if pos >= |buf| then None else
    var value := buf[pos] % Pow2(prefix);
    if value < Mask(prefix) then Some((value, pos + 1)) else Continue(buf, pos + 1, value, 0)
  }

  /** What is shown for a Huffman-coded string, which is not expanded. */
  function Placeholder(n: nat): Str {
    HUFFMAN_OPEN + Decimal(n) + HUFFMAN_CLOSE
  }

  /** The ASCII bytes of "<huffman:" and "b>". */
  const HUFFMAN_OPEN: Str := [60, 104, 117, 102, 102, 109, 97, 110, 58]
  const HUFFMAN_CLOSE: Str := [98, 62]

  function Decimal(n: nat): Str {
    if n < 10 then [48 + n] else Decimal(n / 10) + [48 + n % 10]
  }

  function DecodeStr(buf: seq<byte>, pos: nat): (r: Option<(Str, nat)>)
    ensures r.Some? ==> pos < r.value.1 <= |buf|
  {
    if pos >= |buf| then None else
    var len := DecodeInt(buf, pos, 7);
    if len.None? then None else
    var (n, p) := len.value;
    if p + n > |buf| then None else
    Some((if buf[pos] >= 128 then Placeholder(n) else buf[p..p + n], p + n))
  }

  /** `decode_int`, byte by byte. */
  method DecodeIntLoop(buf: seq<byte>, start: nat, prefix: nat) returns (r: Option<(nat, nat)>)
    ensures r == DecodeInt(buf, start, prefix)
  {
    if start >= |buf| {
      return None;
    }
    var pos, mask := start, Mask(prefix);
    var value: nat := buf[pos] % Pow2(prefix);
    pos := pos + 1;
    if value < mask {
      return Some((value, pos));
    }
    var shift := 0;
    while true
      invariant 0 <= shift <= 28 && pos >= 0
      invariant DecodeInt(buf, start, prefix) == Continue(buf, pos, value, shift)
      decreases 35 - shift
    {
      if pos >= |buf| {
        return None;
      }
      var b := buf[pos];
      pos := pos + 1;
      value := value + Shl(b % 128, shift);
      shift := shift + 7;
      if b < 128 {
        break;
      }
      if shift > 28 {
        return None;
      }
    }
    return Some((value, pos));
  }

  // ---------------------------------------------------------------- reference encoding

  /** Seven bits at a time, least significant first, with the continuation bit on all but the last. */
  function EncodeRest(v: nat): seq<byte> {
    if v < 128 then [v] else [128 + v % 128] + EncodeRest(v / 128)
  }

  /** Section 5.1: `top` holds the bits of the first byte above the prefix. */
  function EncodeInt(prefix: nat, top: nat, v: nat): seq<byte>
    requires top + Mask(prefix) < 256
  {
    if v < Mask(prefix) then [top + v] else [top + Mask(prefix)] + EncodeRest(v - Mask(prefix))
  }

  function EncodeStr(s: Str): seq<byte> {
    EncodeInt(7, 0, |s|) + s
  }

  /** `enc` stands in `buf` at `pos`. */
  predicate Stands(buf: seq<byte>, pos: nat, enc: seq<byte>) {
    pos + |enc| <= |buf| && buf[pos..pos + |enc|] == enc
  }

  lemma StandsParts(buf: seq<byte>, pos: nat, xs: seq<byte>, ys: seq<byte>)
    requires Stands(buf, pos, xs + ys)
    ensures Stands(buf, pos, xs) && Stands(buf, pos + |xs|, ys)
    ensures xs != [] ==> buf[pos] == xs[0]
  {
    var w := buf[pos..pos + |xs + ys|];
    assert buf[pos..pos + |xs|] == w[..|xs|] == xs;
    assert buf[pos + |xs|..pos + |xs| + |ys|] == w[|xs|..] == ys;
    if xs != [] {
      assert buf[pos] == w[0];
    }
  }

  lemma Shl7(x: nat, n: nat)
    ensures Shl(x, n + 7) == 128 * Shl(x, n)
  {
    assert Shl(x, n + 7) == 2 * Shl(x, n + 6) == 4 * Shl(x, n + 5) == 8 * Shl(x, n + 4);
    assert Shl(x, n + 4) == 2 * Shl(x, n + 3) == 4 * Shl(x, n + 2) == 8 * Shl(x, n + 1) == 16 * Shl(x, n);
  }

  /** The low seven bits and the rest, shifted into place, make up the value. */
  lemma {:induction false} Regroup(v: nat, n: nat)
    ensures Shl(v % 128, n) + Shl(v / 128, n + 7) == Shl(v, n)
  {
    if n == 0 {
      Shl7(v / 128, n);
    } else {
      Regroup(v, n - 1);
    }
  }

  /** One continuation byte of the encoding of `v`, read back. */
  lemma ContinueStep(buf: seq<byte>, pos: nat, value: nat, shift: nat, v: nat)
    requires v >= 128 && Stands(buf, pos, EncodeRest(v))
    ensures Stands(buf, pos + 1, EncodeRest(v / 128)) && |EncodeRest(v)| == 1 + |EncodeRest(v / 128)|
    ensures Continue(buf, pos, value, shift)
            == if shift + 7 > 28 then None else Continue(buf, pos + 1, value + Shl(v % 128, shift), shift + 7)
  {
    StandsParts(buf, pos, [128 + v % 128], EncodeRest(v / 128));
    assert buf[pos] == 128 + v % 128;
  }

  lemma ContinueLast(buf: seq<byte>, pos: nat, value: nat, shift: nat, v: nat)
    requires v < 128 && Stands(buf, pos, EncodeRest(v))
    ensures Continue(buf, pos, value, shift) == Some((value + Shl(v, shift), pos + |EncodeRest(v)|))
  {
    StandsParts(buf, pos, [v], []);
  }

  lemma RoomStep(k: nat, v: nat)
    requires k >= 1
    ensures v < 128 ==> v < Pow2(7 * k)
    ensures v < Pow2(7 * k) <==> v / 128 < Pow2(7 * (k - 1))
  {
    Shl7(1, 7 * (k - 1));
  }

  /** With `k` bytes still accepted, exactly the values of `7 * k` bits are read back. */
  lemma {:induction false} ContinueInverts(buf: seq<byte>, pos: nat, value: nat, k: nat, v: nat)
    requires 1 <= k <= 5
    requires Stands(buf, pos, EncodeRest(v))
    ensures Continue(buf, pos, value, 35 - 7 * k)
            == if v < Pow2(7 * k) then Some((value + Shl(v, 35 - 7 * k), pos + |EncodeRest(v)|)) else None
    decreases k
  {
    var shift := 35 - 7 * k;
    RoomStep(k, v);
    if v < 128 {
      ContinueLast(buf, pos, value, shift, v);
    } else {
      ContinueStep(buf, pos, value, shift, v);
      if k > 1 {
        ContinueInverts(buf, pos + 1, value + Shl(v % 128, shift), k - 1, v / 128);
        Regroup(v, shift);
      }
    }
  }

  const TWO_TO_35 := 0x8_0000_0000

  lemma ContinueFromStart(buf: seq<byte>, pos: nat, value: nat, v: nat)
    requires Stands(buf, pos, EncodeRest(v))
    ensures Continue(buf, pos, value, 0)
            == if v < TWO_TO_35 then Some((value + v, pos + |EncodeRest(v)|)) else None
  {
    ContinueInverts(buf, pos, value, 5, v);
    TwoTo35();
  }

  lemma TwoTo35()
    ensures Pow2(35) == TWO_TO_35 && Pow2(0) == 1
  {
    var zero := 0;
    Shl7(1, zero);
    Shl7(1, zero + 7);
    Shl7(1, zero + 14);
    Shl7(1, zero + 21);
    Shl7(1, zero + 28);
  }

  lemma MulSmall(k: int, p: nat)
    requires 0 - (p as int) < k * p < p
    ensures k == 0
  {
  }

  lemma LowBits(top: nat, low: nat, p: nat)
    requires p > 0 && top % p == 0 && low < p
    ensures (top + low) % p == low
  {
    var q, x := top / p, top + low;
    var d, r := x / p, x % p;
    assert x == d * p + r && top == q * p;
    assert (d - q) * p == low - r;
    MulSmall(d - q, p);
  }

  lemma FirstByte(buf: seq<byte>, pos: nat, prefix: nat, top: nat, low: nat)
    requires top % Pow2(prefix) == 0 && low <= Mask(prefix)
    requires pos < |buf| && buf[pos] == top + low
    ensures DecodeInt(buf, pos, prefix)
            == if low < Mask(prefix) then Some((low, pos + 1)) else Continue(buf, pos + 1, low, 0)
  {
    LowBits(top, low, Pow2(prefix));
  }

  /**
   INTEGERS. Decoding undoes the section 5.1 encoding exactly for the values below the prefix
   mask plus 2^35; every larger value is refused.
   */
  lemma DecodeIntInverts(buf: seq<byte>, pos: nat, prefix: nat, top: nat, v: nat)
    requires top % Pow2(prefix) == 0 && top + Mask(prefix) < 256
    requires Stands(buf, pos, EncodeInt(prefix, top, v))
    ensures DecodeInt(buf, pos, prefix)
            == if v < Mask(prefix) + TWO_TO_35 then Some((v, pos + |EncodeInt(prefix, top, v)|)) else None
  {
    var mask := Mask(prefix);
    if v < mask {
      StandsParts(buf, pos, [top + v], []);
      FirstByte(buf, pos, prefix, top, v);
    } else {
      StandsParts(buf, pos, [top + mask], EncodeRest(v - mask));
      FirstByte(buf, pos, prefix, top, mask);
      ContinueFromStart(buf, pos + 1, mask, v - mask);
    }
  }

  lemma DecodeStrInverts(buf: seq<byte>, pos: nat, s: Str)
    requires Stands(buf, pos, EncodeStr(s)) && |s| < 127 + TWO_TO_35
    ensures DecodeStr(buf, pos) == Some((s, pos + |EncodeStr(s)|))
  {
    var len := EncodeInt(7, 0, |s|);
    StandsParts(buf, pos, len, s);
    DecodeIntInverts(buf, pos, 7, 0, |s|);
    assert len[0] < 128;
  }

  /** A Huffman-coded string ends where its bytes do, and its placeholder tells how many they are. */
  lemma HuffmanRead(buf: seq<byte>, pos: nat, coded: seq<byte>)
    requires Stands(buf, pos, EncodeInt(7, 128, |coded|) + coded) && |coded| < 127 + TWO_TO_35
    ensures DecodeStr(buf, pos) == Some((Placeholder(|coded|), pos + |EncodeInt(7, 128, |coded|)| + |coded|))
  {
    var len := EncodeInt(7, 128, |coded|);
    StandsParts(buf, pos, len, coded);
    DecodeIntInverts(buf, pos, 7, 128, |coded|);
    assert len[0] >= 128;
  }

  lemma {:induction false} DigitsAsOctets(n: nat)
    ensures Decimal(n) == Ascii(Decimals.Decimal(n))
  {
    if n >= 10 {
      DigitsAsOctets(n / 10);
    }
  }

  /** The placeholder is the text "<huffman:", the number of bytes, and "b>". */
  lemma PlaceholderText(n: nat)
    ensures Placeholder(n) == Ascii("<huffman:" + Decimals.Decimal(n) + "b>")
  {
    DigitsAsOctets(n);
    var digits := Decimals.Decimal(n);
    assert Ascii("<huffman:" + digits + "b>") == Ascii("<huffman:") + Ascii(digits) + Ascii("b>");
    assert Ascii("<huffman:") == HUFFMAN_OPEN && Ascii("b>") == HUFFMAN_CLOSE;
  }
}
