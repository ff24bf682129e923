/**
 The cleartext HTTP/2 frame walk (`decode/http2.rs`): a connection preface, then frames, with
 one HPACK decoder threaded through the plain HEADERS frames.
 */
module Http2 {
  import opened Bytes
  import opened HpackStatic
  import opened HpackAppendix
  import opened Hpack
  import opened HpackRoundTrip

  const MAX_FRAMES := 128

  datatype Frame = Frame(streamId: nat, frameType: byte, flags: byte, length: nat, headers: seq<Header>)

  function Preface(): (p: seq<byte>)
    ensures |p| == 24
  {
    Ascii("PRI * HTTP/2.0\r\n\r\nSM\r\n\r\n")
  }

  predicate StartsWithPreface(stream: seq<byte>) {
    |stream| >= 24 && stream[..24] == Preface()
  }

  /** A HEADERS frame without the PADDED and PRIORITY flags: its payload is the header block. */
  predicate PlainHeaders(frameType: byte, flags: byte) {
    frameType == 1 && (flags / 8) % 2 == 0 && (flags / 32) % 2 == 0
  }

  function LengthAt(stream: seq<byte>, pos: nat): nat
    requires pos + 9 <= |stream|
  {
    Be24(stream[pos], stream[pos + 1], stream[pos + 2])
  }

  function StreamIdAt(stream: seq<byte>, pos: nat): nat
    requires pos + 9 <= |stream|
  {
    Be32(stream[pos + 5] % 128, stream[pos + 6], stream[pos + 7], stream[pos + 8])
  }

  /** The headers one frame yields and the table afterwards. */
  function FrameHeaders(t: Table, frameType: byte, flags: byte, payload: seq<byte>): (seq<Header>, Table) {
    if PlainHeaders(frameType, flags) then Decode(t, payload) else ([], t)
  }

  function Walk(t: Table, stream: seq<byte>, pos: nat, room: nat): seq<Frame>
    decreases room
  {
    if room == 0 || pos + 9 > |stream| then [] else
    var length := LengthAt(stream, pos);
    if pos + 9 + length > |stream| then [] else
    var frameType, flags := stream[pos + 3], stream[pos + 4];
    var (headers, t') := FrameHeaders(t, frameType, flags, stream[pos + 9..pos + 9 + length]);
    [Frame(StreamIdAt(stream, pos), frameType, flags, length, headers)]
    + Walk(t', stream, pos + 9 + length, room - 1)
  }

  function TryDecode(stream: seq<byte>): Option<seq<Frame>> {
    if !StartsWithPreface(stream) then None else Some(Walk(Initial(), stream, 24, MAX_FRAMES))
  }

  lemma WalkStep(t: Table, stream: seq<byte>, pos: nat, room: nat)
    requires room > 0 && pos + 9 <= |stream|
    ensures var length, frameType, flags := LengthAt(stream, pos), stream[pos + 3], stream[pos + 4];
      Walk(t, stream, pos, room) ==
        if pos + 9 + length > |stream| then [] else
        var (headers, t') := FrameHeaders(t, frameType, flags, stream[pos + 9..pos + 9 + length]);
        [Frame(StreamIdAt(stream, pos), frameType, flags, length, headers)] + Walk(t', stream, pos + 9 + length, room - 1)
  {
    hide LengthAt, StreamIdAt, FrameHeaders;
  }

  lemma WalkEnds(t: Table, stream: seq<byte>, pos: nat, room: nat)
    requires room == 0 || pos + 9 > |stream|
    ensures Walk(t, stream, pos, room) == []
  {
  }

  /** The frame whose header stands at `pos`, its headers decoded in place. */
  method NextFrame(hpack: Decoder, stream: seq<byte>, pos: nat, ghost room: nat) returns (frame: Frame, next: nat)
    requires hpack.Valid() && room > 0 && pos + 9 <= |stream| && pos + 9 + LengthAt(stream, pos) <= |stream|
    modifies hpack
    ensures hpack.Valid()
    ensures Walk(old(hpack.Model()), stream, pos, room) == [frame] + Walk(hpack.Model(), stream, next, room - 1)
  {
    hide LengthAt, StreamIdAt, PlainHeaders, Accounted, Walk, Decode;
    WalkStep(hpack.Model(), stream, pos, room);
    var length := LengthAt(stream, pos);
    var frameType, flags, streamId := stream[pos + 3], stream[pos + 4], StreamIdAt(stream, pos);
    next := pos + 9;
    var payload := stream[next..next + length];
    var headers: seq<Header> := [];
    if PlainHeaders(frameType, flags) {
      headers := hpack.DecodeBlock(payload);
    }
    frame := Frame(streamId, frameType, flags, length, headers);
    next := next + length;
  }

  method TryDecodeHttp2(stream: seq<byte>) returns (info: Option<seq<Frame>>)
    ensures info == TryDecode(stream)
  {
    hide Preface, LengthAt, Initial, Accounted, Walk;
    if !StartsWithPreface(stream) {
      return None;
    }
    var pos: nat := 24;
    var hpack := new Decoder();
    var frames: seq<Frame> := [];
    assert [] + Walk(Initial(), stream, 24, MAX_FRAMES) == Walk(Initial(), stream, 24, MAX_FRAMES);
    while pos + 9 <= |stream| && |frames| < MAX_FRAMES
      invariant |frames| <= MAX_FRAMES && hpack.Valid() && fresh(hpack)
      invariant frames + Walk(hpack.Model(), stream, pos, MAX_FRAMES - |frames|) == Walk(Initial(), stream, 24, MAX_FRAMES)
      decreases MAX_FRAMES - |frames|
    {
      ghost var room := MAX_FRAMES - |frames|;
      if pos + 9 + LengthAt(stream, pos) > |stream| {
        WalkStep(hpack.Model(), stream, pos, room);
        assert frames + [] == frames;
        return Some(frames);
      }
      var frame, next := NextFrame(hpack, stream, pos, room);
      Regrouped(frames, frame, Walk(hpack.Model(), stream, next, room - 1));
      frames := frames + [frame];
      pos := next;
    }
    WalkEnds(hpack.Model(), stream, pos, MAX_FRAMES - |frames|);
    assert frames + [] == frames;
    return Some(frames);
  }

  lemma Regrouped(frames: seq<Frame>, frame: Frame, rest: seq<Frame>)
    ensures frames + ([frame] + rest) == (frames + [frame]) + rest
  {
  }

  // ---------------------------------------------------------------- framing

  /** A frame as it stands on the wire. */
  datatype Raw = Raw(streamId: nat, reserved: bool, frameType: byte, flags: byte, payload: seq<byte>)

  predicate Framable(f: Raw) {
    f.streamId < 0x8000_0000 && |f.payload| < 0x100_0000
  }

  /** The 9-byte frame header of section 4.1 of RFC 9113, with the reserved bit as given. */
  function FrameHead(f: Raw): (head: seq<byte>)
    requires Framable(f)
    ensures |head| == 9
  {
    var n, id := |f.payload|, f.streamId;
    [n / 0x1_0000, n / 0x100 % 0x100, n % 0x100, f.frameType, f.flags,
     (if f.reserved then 128 else 0) + id / 0x100_0000, id / 0x1_0000 % 0x100, id / 0x100 % 0x100, id % 0x100]
  }

  function OnWire(fs: seq<Raw>): seq<byte>
    requires forall f <- fs :: Framable(f)
  {
    if fs == [] then [] else FrameHead(fs[0]) + fs[0].payload + OnWire(fs[1..])
  }

  /** The frames a receiver reports for `fs`, with its decoder threaded through them. */
  function Report(t: Table, fs: seq<Raw>): seq<Frame>
    decreases |fs|
  {
    if fs == [] then [] else
    var f := fs[0];
    var (headers, t') := FrameHeaders(t, f.frameType, f.flags, f.payload);
    [Frame(f.streamId, f.frameType, f.flags, |f.payload|, headers)] + Report(t', fs[1..])
  }

  /** A capture that stops before the next frame is complete. */
  predicate Unfinished(tail: seq<byte>) {
    |tail| < 9 || |tail| < 9 + LengthAt(tail, 0)
  }

  /** Frame `f` stands complete in `stream` at `pos`. */
  predicate FrameAt(stream: seq<byte>, pos: nat, f: Raw) {
    var n := |f.payload|;
    && pos + 9 + n <= |stream|
    && LengthAt(stream, pos) == n && StreamIdAt(stream, pos) == f.streamId
    && stream[pos + 3] == f.frameType && stream[pos + 4] == f.flags
    && stream[pos + 9..pos + 9 + n] == f.payload
  }

  /** The frames `fs` stand one after another from `pos`, then only `tail`. */
  predicate Carries(stream: seq<byte>, pos: nat, fs: seq<Raw>, tail: seq<byte>)
    decreases |fs|
  {
    if fs == [] then pos <= |stream| && stream[pos..] == tail
    else FrameAt(stream, pos, fs[0]) && Carries(stream, pos + 9 + |fs[0].payload|, fs[1..], tail)
  }

  lemma HeadInverts(stream: seq<byte>, pos: nat, f: Raw)
    requires Framable(f) && pos + 9 <= |stream| && stream[pos..pos + 9] == FrameHead(f)
    ensures LengthAt(stream, pos) == |f.payload| && StreamIdAt(stream, pos) == f.streamId
    ensures stream[pos + 3] == f.frameType && stream[pos + 4] == f.flags
  {
    var head := FrameHead(f);
    var w := stream[pos..pos + 9];
    assert w[0] == stream[pos] && w[1] == stream[pos + 1] && w[2] == stream[pos + 2];
    assert w[3] == stream[pos + 3] && w[4] == stream[pos + 4];
    assert w[5] == stream[pos + 5] && w[6] == stream[pos + 6] && w[7] == stream[pos + 7] && w[8] == stream[pos + 8];
    Split24(|f.payload|);
    Split32(f.streamId);
    assert head[5] % 128 == f.streamId / 0x100_0000;
  }

  lemma Cut(stream: seq<byte>, pos: nat, head: seq<byte>, payload: seq<byte>, rest: seq<byte>)
    requires pos <= |stream| && stream[pos..] == head + payload + rest
    ensures var p, n := pos + |head|, pos + |head| + |payload|;
      n <= |stream| && stream[pos..p] == head && stream[p..n] == payload && stream[n..] == rest
  {
    var w, h, n := stream[pos..], |head|, |head| + |payload|;
    assert stream[pos..pos + h] == w[..h] == head;
    assert stream[pos + h..pos + n] == w[h..n] == payload;
    assert stream[pos + n..] == w[n..] == rest;
  }

  lemma FrameStands(stream: seq<byte>, pos: nat, f: Raw, rest: seq<byte>)
    requires Framable(f) && pos <= |stream| && stream[pos..] == FrameHead(f) + f.payload + rest
    ensures FrameAt(stream, pos, f) && stream[pos + 9 + |f.payload|..] == rest
  {
    hide FrameHead, LengthAt, StreamIdAt;
    Cut(stream, pos, FrameHead(f), f.payload, rest);
    HeadInverts(stream, pos, f);
  }

  lemma {:induction false} WireCarries(stream: seq<byte>, pos: nat, fs: seq<Raw>, tail: seq<byte>)
    requires forall f <- fs :: Framable(f)
    requires pos <= |stream| && stream[pos..] == OnWire(fs) + tail
    ensures Carries(stream, pos, fs, tail)
    decreases |fs|
  {
    hide FrameHead, LengthAt, StreamIdAt, FrameAt, Framable;
    if fs == [] {
      assert OnWire(fs) + tail == tail;
    } else {
      var f, more := fs[0], fs[1..];
      assert forall g <- more :: g in fs;
      assert OnWire(fs) + tail == FrameHead(f) + f.payload + (OnWire(more) + tail);
      FrameStands(stream, pos, f, OnWire(more) + tail);
      WireCarries(stream, pos + 9 + |f.payload|, more, tail);
    }
  }

  lemma WalkStops(t: Table, stream: seq<byte>, pos: nat, room: nat, tail: seq<byte>)
    requires pos <= |stream| && stream[pos..] == tail && Unfinished(tail)
    ensures Walk(t, stream, pos, room) == []
  {
    if pos + 9 <= |stream| {
      assert stream[pos] == tail[0] && stream[pos + 1] == tail[1] && stream[pos + 2] == tail[2];
    }
  }

  function Limit<T>(s: seq<T>, n: nat): seq<T> {
    if |s| <= n then s else s[..n]
  }

  lemma LimitCons<T>(x: T, s: seq<T>, n: nat)
    requires n > 0
    ensures Limit([x] + s, n) == [x] + Limit(s, n - 1)
  {
  }

  /** FRAMING. Whatever the payloads, the walk reports the frames sent, up to the frame limit. */
  lemma {:induction false} WalkReports(t: Table, stream: seq<byte>, pos: nat, room: nat, fs: seq<Raw>, tail: seq<byte>)
    requires Carries(stream, pos, fs, tail) && Unfinished(tail)
    ensures Walk(t, stream, pos, room) == Limit(Report(t, fs), room)
    decreases |fs|
  {
    if room == 0 {
    } else if fs == [] {
      WalkStops(t, stream, pos, room, tail);
    } else {
      var f, more := fs[0], fs[1..];
      var (headers, t') := FrameHeaders(t, f.frameType, f.flags, f.payload);
      WalkReports(t', stream, pos + 9 + |f.payload|, room - 1, more, tail);
      LimitCons(Frame(f.streamId, f.frameType, f.flags, |f.payload|, headers), Report(t', more), room);
    }
  }

  // ---------------------------------------------------------------- a reference sender

  /**
   A frame as meant. A plain HEADERS frame carries a block, or the beginning of one that breaks off
   inside a representation and goes on in CONTINUATION frames. Every other frame is one the walk
   does not look into: with `rs` the representations that end in it, this is a padded or prioritised
   HEADERS frame, a PUSH_PROMISE, a CONTINUATION, or with none of them any frame without headers.
   */
  datatype Sent =
    | HeaderBlock(streamId: nat, reserved: bool, flags: byte, rs: seq<Repr>, cut: Cut)
    | Unread(raw: Raw, rs: seq<Repr>)

  function ToRaw(f: Sent): Raw {
    match f
    case HeaderBlock(id, reserved, flags, rs, cut) => Raw(id, reserved, 1, flags, EncodeAll(rs) + CutBytes(cut))
    case Unread(raw, _) => raw
  }

  function ToRaws(fs: seq<Sent>): (raws: seq<Raw>)
    ensures |raws| == |fs| && forall i :: 0 <= i < |fs| ==> raws[i] == ToRaw(fs[i])
  {
    seq(|fs|, i requires 0 <= i < |fs| => ToRaw(fs[i]))
  }

  predicate Sendable(e: Encoder, f: Sent) {
    && Framable(ToRaw(f)) && AllValid(e, f.rs)
    && match f {
      case HeaderBlock(_, _, flags, rs, cut) => PlainHeaders(1, flags) && ValidCut(MeaningAll(e, rs).1, cut)
      case Unread(raw, _) => !PlainHeaders(raw.frameType, raw.flags)
    }
  }

  /** The header fields the sender meant by the representations of a frame, and its state afterwards. */
  function Meant(e: Encoder, f: Sent): (seq<Header>, Encoder)
    requires Sendable(e, f)
  {
    MeaningAll(e, f.rs)
  }

  predicate AllSendable(e: Encoder, fs: seq<Sent>)
    decreases |fs|
  {
    fs == [] || (Sendable(e, fs[0]) && AllSendable(Meant(e, fs[0]).1, fs[1..]))
  }

  /** No frame that is not looked into does more to the sender's table than shrink it. */
  predicate AllForget(e: Encoder, fs: seq<Sent>)
    requires AllSendable(e, fs)
    decreases |fs|
  {
    fs == [] ||
    (var e' := Meant(e, fs[0]).1; (fs[0].Unread? ==> Forgets(e, e')) && AllForget(e', fs[1..]))
  }

  /** The frames as sent, each plain header block with the fields its sender meant. */
  function AllMeant(e: Encoder, fs: seq<Sent>): seq<Frame>
    requires AllSendable(e, fs)
    decreases |fs|
  {
    if fs == [] then [] else
    var f, (headers, e') := ToRaw(fs[0]), Meant(e, fs[0]);
    [Frame(f.streamId, f.frameType, f.flags, |f.payload|, if fs[0].Unread? then [] else headers)] + AllMeant(e', fs[1..])
  }

  lemma FrameInverts(t: Table, e: Encoder, f: Sent)
    requires Covers(t, e) && Sendable(e, f) && (f.Unread? ==> Forgets(e, Meant(e, f).1))
    ensures var raw := ToRaw(f);
      var (headers, t') := FrameHeaders(t, raw.frameType, raw.flags, raw.payload);
      headers == (if f.Unread? then [] else Meant(e, f).0) && Covers(t', Meant(e, f).1)
  {
    if f.HeaderBlock? {
      var block := EncodeAll(f.rs) + CutBytes(f.cut);
      assert block[0..] == block;
      BlockInverts(t, e, block, 0, f.rs, f.cut);
    } else {
      StaysSound(e, f.rs);
    }
  }

  lemma ToRawsSplit(fs: seq<Sent>)
    requires fs != []
    ensures ToRaws(fs) == [ToRaw(fs[0])] + ToRaws(fs[1..]) && ToRaws(fs)[1..] == ToRaws(fs[1..])
  {
    hide ToRaw;
  }

  lemma {:induction false} ReportIsMeant(t: Table, e: Encoder, fs: seq<Sent>)
    requires Covers(t, e) && AllSendable(e, fs) && AllForget(e, fs)
    ensures Report(t, ToRaws(fs)) == AllMeant(e, fs)
    decreases |fs|
  {
    if fs != [] {
      ToRawsSplit(fs);
      hide FrameHeaders, Sendable, Meant, Covers, ToRaw, ToRaws, Forgets;
      FrameInverts(t, e, fs[0]);
      var raw := ToRaw(fs[0]);
      var t' := FrameHeaders(t, raw.frameType, raw.flags, raw.payload).1;
      ReportIsMeant(t', Meant(e, fs[0]).1, fs[1..]);
    }
  }

  lemma {:induction false} SendableIsFramable(e: Encoder, fs: seq<Sent>)
    requires AllSendable(e, fs)
    ensures forall f <- ToRaws(fs) :: Framable(f)
    decreases |fs|
  {
    if fs != [] {
      ToRawsSplit(fs);
      hide ToRaws, Framable, Meant, ToRaw;
      SendableIsFramable(Meant(e, fs[0]).1, fs[1..]);
    }
  }

  /** The bytes of a connection: preface, frames, and whatever of the next frame was captured. */
  function Connection(raws: seq<Raw>, tail: seq<byte>): seq<byte>
    requires forall f <- raws :: Framable(f)
  {
    PREFACE_OCTETS + (OnWire(raws) + tail)
  }

  lemma ConnectionReports(raws: seq<Raw>, tail: seq<byte>)
    requires (forall f <- raws :: Framable(f)) && Unfinished(tail)
    ensures TryDecode(Connection(raws, tail)) == Some(Limit(Report(Initial(), raws), 128))
  {
    PrefaceOctets();
    hide Ascii, OnWire, Carries, Walk, Report, Limit, Framable, Unfinished, Initial;
    var stream := Connection(raws, tail);
    assert |Preface()| == 24;
    assert stream[..24] == Preface() && stream[24..] == OnWire(raws) + tail;
    WireCarries(stream, 24, raws, tail);
    WalkReports(Initial(), stream, 24, MAX_FRAMES, raws, tail);
  }

  /**
   HTTP/2. For every sequence of sendable frames after the preface, followed by at most an
   unfinished frame, the walk returns exactly the frames sent, a longer capture being cut after 128.
   Each plain header block is read as meant, as long as the header-bearing frames that are not
   looked into do no more to the sender's table than shrink it.
   */
  lemma StreamInverts(fs: seq<Sent>, tail: seq<byte>)
    requires AllSendable(FreshEncoder(), fs) && AllForget(FreshEncoder(), fs) && Unfinished(tail)
    ensures forall f <- ToRaws(fs) :: Framable(f)
    ensures TryDecode(Connection(ToRaws(fs), tail)) == Some(Limit(AllMeant(FreshEncoder(), fs), 128))
  {
    SendableIsFramable(FreshEncoder(), fs);
    ConnectionReports(ToRaws(fs), tail);
    FreshInStep();
    ReportIsMeant(Initial(), FreshEncoder(), fs);
  }

  /** A guard that needs no tables: unread frames only refer to entries and never add or resize. */
  lemma {:induction false} QuietFramesForget(e: Encoder, fs: seq<Sent>)
    requires AllSendable(e, fs) && forall f <- fs :: f.Unread? ==> forall r <- f.rs :: Quiet(r)
    ensures AllForget(e, fs)
    decreases |fs|
  {
    if fs != [] {
      if fs[0].Unread? {
        QuietBlock(e, fs[0].rs);
      }
      QuietFramesForget(Meant(e, fs[0]).1, fs[1..]);
    }
  }
}
