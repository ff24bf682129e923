/** Header blocks the HTTP/2 walk does not look into, and what they cost the blocks after them. */
module Http2Skips {
  import opened Bytes
  import opened HpackStatic
  import opened HpackAppendix
  import opened HpackIntegers
  import opened Hpack
  import opened HpackRoundTrip
  import opened Http2

  /** The decoder's table after the frames `fs`. */
  function TableAfterFrames(t: Table, fs: seq<Raw>): Table
    decreases |fs|
  {
    if fs == [] then t else
    TableAfterFrames(FrameHeaders(t, fs[0].frameType, fs[0].flags, fs[0].payload).1, fs[1..])
  }

  function SenderAfter(e: Encoder, fs: seq<Sent>): Encoder
    requires AllSendable(e, fs)
    decreases |fs|
  {
    if fs == [] then e else SenderAfter(Meant(e, fs[0]).1, fs[1..])
  }

  lemma {:induction false} FramesKeepTable(t: Table, fs: seq<Raw>)
    requires Accounted(t)
    ensures Accounted(TableAfterFrames(t, fs)) && TableAfterFrames(t, fs).fixed == t.fixed
    decreases |fs|
  {
    if fs != [] {
      DecodeKeepsAccounted(t, fs[0].payload, 0);
      FramesKeepTable(FrameHeaders(t, fs[0].frameType, fs[0].flags, fs[0].payload).1, fs[1..]);
    }
  }

  lemma {:induction false} SenderStaysSound(e: Encoder, fs: seq<Sent>)
    requires Sound(e) && AllSendable(e, fs)
    ensures Sound(SenderAfter(e, fs)) && SenderAfter(e, fs).fixed == e.fixed
    decreases |fs|
  {
    if fs != [] {
      StaysSound(e, fs[0].rs);
      SenderStaysSound(Meant(e, fs[0]).1, fs[1..]);
    }
  }

  /**
   LOST STEP. After any frames whatever, read or unread, every plain header block that can follow is
   read as meant if and only if the decoder's table covers the sender's at that point.
   */
  lemma StreamReadsOn(fs: seq<Sent>)
    requires AllSendable(FreshEncoder(), fs)
    ensures var (t, e) := (TableAfterFrames(Initial(), ToRaws(fs)), SenderAfter(FreshEncoder(), fs));
      ReadsOn(t, e) <==> Covers(t, e)
  {
    FreshInStep();
    FramesKeepTable(Initial(), ToRaws(fs));
    SenderStaysSound(FreshEncoder(), fs);
    ReadsOnIffCovers(TableAfterFrames(Initial(), ToRaws(fs)), SenderAfter(FreshEncoder(), fs));
  }

  /** A padded HEADERS frame that indexes a field, then a plain one that refers to it. */
  function PaddedThenPlain(name: Str, value: Str): seq<Sent> {
    var r := WithIndexing(NewName(name), value);
    [Unread(Raw(1, false, 1, 8 + 4, [0] + EncodeRepr(r)), [r]), HeaderBlock(3, false, 4, [IndexedField(62)], Whole)]
  }

  lemma ShortRest(v: nat)
    requires v < 0x4000
    ensures |EncodeRest(v)| <= 2
  {
    assert v >= 128 ==> |EncodeRest(v / 128)| == 1;
  }

  lemma ShortText(s: Str)
    requires |s| < 0x4000
    ensures |EncodeStr(s)| <= |s| + 3
  {
    if |s| >= Mask(7) {
      ShortRest(|s| - Mask(7));
    }
  }

  lemma ShortLiteral(name: Str, value: Str)
    requires |name| + |value| <= 4096
    ensures |EncodeRepr(WithIndexing(NewName(name), value))| <= 4110
  {
    hide EncodeStr;
    ShortText(name);
    ShortText(value);
    assert Mask(6) > 0;
  }

  lemma IndexByte()
    ensures EncodeRepr(IndexedField(62)) == [0xBE]
  {
    assert Mask(7) == 127 by {
      Shl7(1, 0);
    }
  }

  lemma FreshAdds(name: Str, value: Str)
    requires |name| + |value| + 32 <= 4096
    ensures AddEntry(FreshEncoder(), (name, value)).dynamic == [(name, value)]
  {
  }

  /** Where the second frame of the pair finds the sender. */
  lemma PaddedSent(name: Str, value: Str) returns (e': Encoder)
    requires |name| + |value| + 32 <= 4096
    ensures var fs, e := PaddedThenPlain(name, value), FreshEncoder();
      && Sendable(e, fs[0]) && Meant(e, fs[0]).1 == e'
      && Sendable(e', fs[1]) && Meant(e', fs[1]) == ([(name, value)], e')
      && Sound(e') && e'.fixed == e.fixed && e'.dynamic == [(name, value)] && !Forgets(e, e')
  {
    var fs, e := PaddedThenPlain(name, value), FreshEncoder();
    var r, i := fs[0].rs[0], IndexedField(62);
    FreshInStep();
    FreshAdds(name, value);
    ShortLiteral(name, value);
    IndexByte();
    assert e.dynamic == [];
    hide EncodeRepr, AddEntry, FreshEncoder;
    OneRepr(e, r);
    e' := Meaning(e, r).1;
    OneRepr(e', i);
    assert EncodeAll([i]) + CutBytes(Whole) == [0xBE];
    StaysSound(e, [r]);
  }

  lemma PairSplits(fs: seq<Sent>, e: Encoder)
    requires |fs| == 2 && Sendable(e, fs[0]) && Sendable(Meant(e, fs[0]).1, fs[1])
    ensures AllSendable(e, fs) && |AllMeant(e, fs)| == 2
    ensures AllMeant(e, fs)[1].headers == if fs[1].Unread? then [] else Meant(Meant(e, fs[0]).1, fs[1]).0
    ensures AllForget(e, fs) ==> fs[0].Unread? ==> Forgets(e, Meant(e, fs[0]).1)
  {
    hide Sendable, Meant, ToRaw, Forgets;
    var e1, rest := Meant(e, fs[0]).1, fs[1..];
    assert rest == [fs[1]] && rest[1..] == [];
    assert AllSendable(e1, rest) && |AllMeant(e1, rest)| == 1;
  }

  lemma PairReported(t: Table, raws: seq<Raw>)
    requires |raws| == 2
    ensures var t' := FrameHeaders(t, raws[0].frameType, raws[0].flags, raws[0].payload).1;
      && |Report(t, raws)| == 2
      && Report(t, raws)[1].headers == FrameHeaders(t', raws[1].frameType, raws[1].flags, raws[1].payload).0
  {
    hide FrameHeaders;
    var rest := raws[1..];
    assert rest == [raws[1]] && rest[1..] == [];
    assert |Report(FrameHeaders(t, raws[0].frameType, raws[0].flags, raws[0].payload).1, rest)| == 1;
  }

  /** The header lists of the frames a connection is reported to have. */
  function Reported(raws: seq<Raw>): seq<seq<Header>>
    requires forall f <- raws :: Framable(f)
  {
    var r := TryDecode(Connection(raws, []));
    if r.None? then [] else seq(|r.value|, i requires 0 <= i < |r.value| => r.value[i].headers)
  }

  /** The second frame stands on the wire as the byte 0xBE, means the field, and is reported empty. */
  lemma SkippedHeaders(name: Str, value: Str)
    requires |name| + |value| + 32 <= 4096
    ensures var fs, e := PaddedThenPlain(name, value), FreshEncoder();
      && AllSendable(e, fs) && !AllForget(e, fs)
      && (forall f <- ToRaws(fs) :: Framable(f))
      && ToRaw(fs[1]).payload == [0xBE]
      && |AllMeant(e, fs)| == 2 && AllMeant(e, fs)[1].headers == [(name, value)]
      && |Reported(ToRaws(fs))| == 2 && Reported(ToRaws(fs))[1] == []
  {
    var fs, e := PaddedThenPlain(name, value), FreshEncoder();
    var e' := PaddedSent(name, value);
    PairSplits(fs, e);
    SendableIsFramable(e, fs);
    ConnectionReports(ToRaws(fs), []);
    IndexByte();
    FreshInStep();
    hide EncodeRepr, FreshEncoder, Initial, TryDecode, Connection, Report, Sendable, Meant, AllSendable, AllMeant, AllForget;
    assert EncodeAll([IndexedField(62)]) + CutBytes(Whole) == [0xBE] by {
      assert [IndexedField(62)][1..] == [];
      assert EncodeRepr(IndexedField(62)) + [] == [0xBE];
    }
    assert [0xBE as byte][0..] == [0xBE];
    IndexRead(Initial(), e', [0xBE], 0, 62);
    assert Indexed(Initial(), 62) == None;
    PairReported(Initial(), ToRaws(fs));
  }

  // ---------------------------------------------------------------- a capture, byte by byte

  /** The preface, and a HEADERS frame on stream 1 whose block is the byte 0x82. */
  function GetCapture(): seq<byte> {
    PREFACE_OCTETS + [0x00, 0x00, 0x01, 0x01, 0x04, 0x00, 0x00, 0x00, 0x01, 0x82]
  }

  /** ":method" and "GET" */
  const METHOD_GET: Header := ([58, 109, 101, 116, 104, 111, 100], [71, 69, 84])

  lemma MethodGetRow()
    ensures |StaticHeaders()| > 1 && StaticHeaders()[1] == METHOD_GET
  {
    AsciiIs(StaticRow(2).0, METHOD_GET.0);
    AsciiIs(StaticRow(2).1, METHOD_GET.1);
  }

  lemma MethodGetFrame()
    ensures FrameHeaders(Initial(), 1, 4, [0x82]).0 == [METHOD_GET]
  {
    MethodGetRow();
    hide Ascii, StaticRow;
    assert DecodeInt([0x82], 0, 7) == Some((2, 1)) by {
      Shl7(1, 0);
    }
    hide DecodeInt, StaticHeaders;
    assert DecodeOne(Initial(), [0x82], 0) == Some(([METHOD_GET], Initial(), 1));
    assert [METHOD_GET] + [] == [METHOD_GET];
  }

  lemma GetFramed(raw: Raw)
    requires raw == Raw(1, false, 1, 4, [0x82])
    ensures Framable(raw) && Connection([raw], []) == GetCapture()
  {
    assert [raw][1..] == [];
    assert OnWire([raw]) == [0, 0, 1, 1, 4, 0, 0, 0, 1] + [0x82] + [];
  }

  lemma OneReported(t: Table, raw: Raw)
    ensures Report(t, [raw]) ==
      [Frame(raw.streamId, raw.frameType, raw.flags, |raw.payload|,
             FrameHeaders(t, raw.frameType, raw.flags, raw.payload).0)]
    ensures Limit(Report(t, [raw]), 128) == Report(t, [raw])
  {
    hide FrameHeaders;
    assert [raw][1..] == [];
  }

  /** The capture of a request for method GET is reported as just that. */
  lemma GetIsReported()
    ensures TryDecode(GetCapture()) == Some([Frame(1, 1, 4, 1, [METHOD_GET])])
  {
    hide *;
    var raw := Raw(1, false, 1, 4, [0x82]);
    GetFramed(raw);
    MethodGetFrame();
    assert Unfinished([]) by { NothingUnfinished(); }
    ConnectionReports([raw], []);
    OneReported(Initial(), raw);
  }

  lemma NothingUnfinished()
    ensures Unfinished([])
  {
  }

  /** A HEADERS frame is read as a bare header block unless its PADDED or its PRIORITY bit is set. */
  lemma PlainExactly(frameType: byte, flags: byte, b0: bool, b1: bool, b2: bool, padded: bool, b4: bool, priority: bool,
                     b6: bool, b7: bool)
    requires flags as int == Bit(b0, 1) + Bit(b1, 2) + Bit(b2, 4) + Bit(padded, 8) + Bit(b4, 16) + Bit(priority, 32)
                             + Bit(b6, 64) + Bit(b7, 128)
    ensures PlainHeaders(frameType, flags) <==> frameType == 1 && !padded && !priority
  {
  }

  function Bit(set': bool, weight: nat): nat {
    if set' then weight else 0
  }
}
