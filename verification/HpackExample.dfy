/** The two requests of Appendix C.3 of RFC 7541, byte by byte, and the integers of Appendix C.1. */
module HpackExample {
  import opened Bytes
  import opened HpackStatic
  import opened HpackAppendix
  import opened HpackIntegers
  import opened Hpack
  import opened HpackRoundTrip

  // ---------------------------------------------------------------- integers

  lemma Masks()
    ensures Pow2(4) == 16 && Pow2(5) == 32 && Pow2(6) == 64 && Pow2(7) == 128 && Pow2(8) == 256
    ensures Mask(4) == 15 && Mask(5) == 31 && Mask(6) == 63 && Mask(7) == 127 && Mask(8) == 255
  {
    assert Shl(1, 2) == 4 && Shl(1, 4) == 16 && Shl(1, 6) == 64;
  }

  /** C.1.1 to C.1.3: ten and 1337 in five bits, and 42 on a byte boundary. */
  lemma IntegersSpelled()
    ensures DecodeInt([10], 0, 5) == Some((10, 1)) && EncodeInt(5, 0, 10) == [10]
    ensures DecodeInt([31, 154, 10], 0, 5) == Some((1337, 3)) && EncodeInt(5, 0, 1337) == [31, 154, 10]
    ensures DecodeInt([42], 0, 8) == Some((42, 1)) && EncodeInt(8, 0, 42) == [42]
  {
    Masks();
    Shl7(10, 0);
    assert Shl(26, 0) == 26 && Shl(10, 7) == 1280;
    var buf: seq<byte> := [31, 154, 10];
    assert Continue(buf, 2, 57, 7) == Some((1337, 3));
    assert Continue(buf, 1, 31, 0) == Some((1337, 3));
    assert EncodeRest(1306) == [154] + EncodeRest(10);
  }

  // ---------------------------------------------------------------- names and values

  const METHOD: Str := [58, 109, 101, 116, 104, 111, 100]
  const GET: Str := [71, 69, 84]
  const SCHEME: Str := [58, 115, 99, 104, 101, 109, 101]
  const HTTP: Str := [104, 116, 116, 112]
  const PATH: Str := [58, 112, 97, 116, 104]
  const SLASH: Str := [47]
  const AUTHORITY: Str := [58, 97, 117, 116, 104, 111, 114, 105, 116, 121]
  const CACHE_CONTROL: Str := [99, 97, 99, 104, 101, 45, 99, 111, 110, 116, 114, 111, 108]

  /** "www.example.com" and "no-cache" */
  const HOST: Str := [119, 119, 119, 46, 101, 120, 97, 109, 112, 108, 101, 46, 99, 111, 109]
  const NO_CACHE: Str := [110, 111, 45, 99, 97, 99, 104, 101]

  lemma RowsSpelled()
    ensures |StaticHeaders()| == 61
    ensures StaticHeaders()[0].0 == AUTHORITY && StaticHeaders()[23].0 == CACHE_CONTROL
    ensures StaticHeaders()[1] == (METHOD, GET) && StaticHeaders()[3] == (PATH, SLASH) && StaticHeaders()[5] == (SCHEME, HTTP)
  {
    AsciiIs(":authority", AUTHORITY);
    AsciiIs("cache-control", CACHE_CONTROL);
    AsciiIs(":method", METHOD);
    AsciiIs("GET", GET);
    AsciiIs(":path", PATH);
    AsciiIs("/", SLASH);
    AsciiIs(":scheme", SCHEME);
    AsciiIs("http", HTTP);
    hide Ascii;
  }

  // ---------------------------------------------------------------- the first request

  const REQUEST: seq<Repr> := [IndexedField(2), IndexedField(6), IndexedField(4), WithIndexing(NameIndex(1), HOST)]

  const REQUEST_BYTES: seq<byte> := [0x82, 0x86, 0x84, 0x41, 0x0F] + HOST

  const REQUEST_HEADERS: seq<Header> := [(METHOD, GET), (SCHEME, HTTP), (PATH, SLASH), (AUTHORITY, HOST)]

  lemma OneRepr(r: Repr, rest: seq<Repr>)
    ensures EncodeAll([r] + rest) == EncodeRepr(r) + EncodeAll(rest)
  {
    assert ([r] + rest)[1..] == rest;
  }

  lemma OneMeaning(e: Encoder, r: Repr, rest: seq<Repr>)
    requires Valid(e, r) && AllValid(Meaning(e, r).1, rest)
    ensures AllValid(e, [r] + rest)
    ensures MeaningAll(e, [r] + rest)
         == (Meaning(e, r).0 + MeaningAll(Meaning(e, r).1, rest).0, MeaningAll(Meaning(e, r).1, rest).1)
  {
    assert ([r] + rest)[1..] == rest;
  }

  lemma IndexSpelled(i: nat)
    requires i < 127
    ensures EncodeRepr(IndexedField(i)) == [128 + i]
  {
    Masks();
  }

  lemma LiteralSpelled(i: nat, v: Str)
    requires i < 63 && |v| < 127
    ensures EncodeRepr(WithIndexing(NameIndex(i), v)) == [64 + i, |v|] + v
  {
    Masks();
    assert EncodeStr(v) == [|v|] + v;
  }

  lemma RequestSpelled()
    ensures EncodeAll(REQUEST) == REQUEST_BYTES
  {
    IndexSpelled(2);
    IndexSpelled(6);
    IndexSpelled(4);
    LiteralSpelled(1, HOST);
    hide EncodeAll, EncodeRepr;
    OneRepr(WithIndexing(NameIndex(1), HOST), []);
    OneRepr(IndexedField(4), [WithIndexing(NameIndex(1), HOST)]);
    OneRepr(IndexedField(6), [IndexedField(4), WithIndexing(NameIndex(1), HOST)]);
    OneRepr(IndexedField(2), [IndexedField(6), IndexedField(4), WithIndexing(NameIndex(1), HOST)]);
    assert EncodeAll([]) == [] by { NothingEncoded(); }
  }

  lemma NothingEncoded()
    ensures EncodeAll([]) == []
  {
  }

  function AfterRequest(): Encoder {
    FreshEncoder().(dynamic := [(AUTHORITY, HOST)])
  }

  lemma RowsMeant(e: Encoder)
    requires e.fixed == AppendixA() && e.max == 4096
    ensures Valid(e, IndexedField(2)) && Meaning(e, IndexedField(2)) == ([(METHOD, GET)], e)
    ensures Valid(e, IndexedField(6)) && Meaning(e, IndexedField(6)) == ([(SCHEME, HTTP)], e)
    ensures Valid(e, IndexedField(4)) && Meaning(e, IndexedField(4)) == ([(PATH, SLASH)], e)
  {
    RowsSpelled();
    StaticIsAppendix();
    hide StaticHeaders, AppendixA, AddEntry;
  }

  lemma HostMeant()
    ensures var e, r := FreshEncoder(), WithIndexing(NameIndex(1), HOST);
      Valid(e, r) && Meaning(e, r) == ([(AUTHORITY, HOST)], AfterRequest())
  {
    RowsSpelled();
    StaticIsAppendix();
    hide StaticHeaders, AppendixA;
    assert EntrySize((AUTHORITY, HOST)) == 57;
    assert [(AUTHORITY, HOST)] + [] == [(AUTHORITY, HOST)];
  }

  lemma NothingMeant(e: Encoder)
    ensures AllValid(e, []) && MeaningAll(e, []) == ([], e)
  {
  }

  /** Both requests open alike. */
  lemma OpeningMeant(e: Encoder, rest: seq<Repr>)
    requires e.fixed == AppendixA() && e.max == 4096 && AllValid(e, rest)
    ensures var rs := [IndexedField(2)] + ([IndexedField(6)] + ([IndexedField(4)] + rest));
      && AllValid(e, rs)
      && MeaningAll(e, rs).0 == [(METHOD, GET), (SCHEME, HTTP), (PATH, SLASH)] + MeaningAll(e, rest).0
      && MeaningAll(e, rs).1 == MeaningAll(e, rest).1
  {
    RowsMeant(e);
    hide Meaning, Valid, AllValid, MeaningAll, AppendixA;
    OneMeaning(e, IndexedField(4), rest);
    OneMeaning(e, IndexedField(6), [IndexedField(4)] + rest);
    OneMeaning(e, IndexedField(2), [IndexedField(6)] + ([IndexedField(4)] + rest));
  }

  lemma RequestMeant()
    ensures AllValid(FreshEncoder(), REQUEST) && MeaningAll(FreshEncoder(), REQUEST) == (REQUEST_HEADERS, AfterRequest())
  {
    var e, last := FreshEncoder(), WithIndexing(NameIndex(1), HOST);
    HostMeant();
    hide Meaning, Valid, AllValid, MeaningAll, AppendixA;
    NothingMeant(AfterRequest());
    OneMeaning(e, last, []);
    OpeningMeant(e, [last] + []);
    assert REQUEST == [IndexedField(2)] + ([IndexedField(6)] + ([IndexedField(4)] + ([last] + [])));
    var opening := [(METHOD, GET), (SCHEME, HTTP), (PATH, SLASH)];
    assert opening + ([(AUTHORITY, HOST)] + []) == REQUEST_HEADERS;
  }

  // ---------------------------------------------------------------- the second request

  const AGAIN: seq<Repr> :=
    [IndexedField(2), IndexedField(6), IndexedField(4), IndexedField(62), WithIndexing(NameIndex(24), NO_CACHE)]

  const AGAIN_BYTES: seq<byte> := [0x82, 0x86, 0x84, 0xBE, 0x58, 0x08] + NO_CACHE

  const AGAIN_HEADERS: seq<Header> :=
    [(METHOD, GET), (SCHEME, HTTP), (PATH, SLASH), (AUTHORITY, HOST), (CACHE_CONTROL, NO_CACHE)]

  lemma AgainSpelled()
    ensures EncodeAll(AGAIN) == AGAIN_BYTES
  {
    IndexSpelled(2);
    IndexSpelled(6);
    IndexSpelled(4);
    IndexSpelled(62);
    LiteralSpelled(24, NO_CACHE);
    hide EncodeAll, EncodeRepr;
    var last := WithIndexing(NameIndex(24), NO_CACHE);
    OneRepr(last, []);
    OneRepr(IndexedField(62), [last]);
    OneRepr(IndexedField(4), [IndexedField(62), last]);
    OneRepr(IndexedField(6), [IndexedField(4), IndexedField(62), last]);
    OneRepr(IndexedField(2), [IndexedField(6), IndexedField(4), IndexedField(62), last]);
    assert EncodeAll([]) == [] by { NothingEncoded(); }
  }

  function AfterAgain(): Encoder {
    FreshEncoder().(dynamic := [(CACHE_CONTROL, NO_CACHE), (AUTHORITY, HOST)])
  }

  lemma HostIndexed()
    ensures var e := AfterRequest(); Valid(e, IndexedField(62)) && Meaning(e, IndexedField(62)) == ([(AUTHORITY, HOST)], e)
  {
    RowsSpelled();
    StaticIsAppendix();
    hide StaticHeaders, AppendixA;
  }

  lemma CacheMeant()
    ensures var e, r := AfterRequest(), WithIndexing(NameIndex(24), NO_CACHE);
      Valid(e, r) && Meaning(e, r) == ([(CACHE_CONTROL, NO_CACHE)], AfterAgain())
  {
    RowsSpelled();
    StaticIsAppendix();
    hide StaticHeaders, AppendixA;
    var old' := [(AUTHORITY, HOST)];
    assert old'[..0] == [] && TotalSize([]) == 0 && TotalSize(old') == 57;
    assert EntrySize((CACHE_CONTROL, NO_CACHE)) == 53;
    assert [(CACHE_CONTROL, NO_CACHE)] + old' == [(CACHE_CONTROL, NO_CACHE), (AUTHORITY, HOST)];
  }

  lemma AgainMeant()
    ensures AllValid(AfterRequest(), AGAIN) && MeaningAll(AfterRequest(), AGAIN) == (AGAIN_HEADERS, AfterAgain())
  {
    var e, last := AfterRequest(), WithIndexing(NameIndex(24), NO_CACHE);
    HostIndexed();
    CacheMeant();
    hide Meaning, Valid, AllValid, MeaningAll, AppendixA;
    NothingMeant(AfterAgain());
    OneMeaning(e, last, []);
    OneMeaning(e, IndexedField(62), [last] + []);
    OpeningMeant(e, [IndexedField(62)] + ([last] + []));
    assert AGAIN == [IndexedField(2)] + ([IndexedField(6)] + ([IndexedField(4)] + ([IndexedField(62)] + ([last] + []))));
    var opening := [(METHOD, GET), (SCHEME, HTTP), (PATH, SLASH)];
    assert opening + ([(AUTHORITY, HOST)] + ([(CACHE_CONTROL, NO_CACHE)] + [])) == AGAIN_HEADERS;
  }

  lemma SizesAre()
    ensures TotalSize([(AUTHORITY, HOST)]) == 57
    ensures TotalSize([(CACHE_CONTROL, NO_CACHE), (AUTHORITY, HOST)]) == 110
  {
    var one, two := [(AUTHORITY, HOST)], [(CACHE_CONTROL, NO_CACHE), (AUTHORITY, HOST)];
    var newest := two[..1];
    assert one[..0] == [] && newest == [(CACHE_CONTROL, NO_CACHE)] && newest[..0] == [];
  }

  /**
   C.3: the decoder reads both requests as the standard lists them, and its dynamic table afterwards holds
   the standard's entries in the standard's order and size.
   */
  lemma RequestsRead()
    ensures var (first, t1) := Decode(Initial(), REQUEST_BYTES);
      var (second, t2) := Decode(t1, AGAIN_BYTES);
      && first == REQUEST_HEADERS && t1.dynamic == [(AUTHORITY, HOST)] && t1.size == 57
      && second == AGAIN_HEADERS && t2.dynamic == [(CACHE_CONTROL, NO_CACHE), (AUTHORITY, HOST)] && t2.size == 110
  {
    FreshInStep();
    RequestSpelled();
    RequestMeant();
    AgainSpelled();
    AgainMeant();
    SizesAre();
    hide Decode, EncodeAll, MeaningAll, AllValid, Initial, FreshEncoder, TotalSize, Sound;
    WholeBlockInverts(Initial(), FreshEncoder(), REQUEST);
    WholeBlockInverts(Decode(Initial(), REQUEST_BYTES).1, AfterRequest(), AGAIN);
  }
}
