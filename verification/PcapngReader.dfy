/**
 A reference reader for section 4 of draft-ietf-opsawg-pcapng, and the round trip: what the
 writer writes is read back, from the front by leading lengths or from the back by trailing ones.
 */
module PcapngReader {
  import opened Bytes
  import opened Pcapng

  datatype Block = Block(kind: u32, body: seq<byte>)

  datatype Capture = Capture(linktype: u16, snaplen: u32, packets: seq<Packet>)

  function U32At(s: seq<byte>, i: nat): u32
    requires i + 4 <= |s|
  {
    Be32(s[i + 3], s[i + 2], s[i + 1], s[i])
  }

  function U16At(s: seq<byte>, i: nat): u16
    requires i + 2 <= |s|
  {
    Be16(s[i + 1], s[i])
  }

  function Be64(hi: u32, lo: u32): nat {
    (hi as int) * 0x1_0000_0000 + lo
  }

  /** A usable block length: whole words, at least the fixed fields, no more than there is. */
  predicate Fits(n: nat, available: nat) {
    12 <= n <= available && n % 4 == 0
  }

  predicate FrontOk(s: seq<byte>) {
    |s| >= 12 && Fits(U32At(s, 4), |s|) && U32At(s, U32At(s, 4) - 4) == U32At(s, 4)
  }

  /** All blocks, walking forward by leading lengths. */
  function Forward(s: seq<byte>): Option<seq<Block>>
    decreases |s|
  {
    if s == [] then Some([]) else
    if !FrontOk(s) then None else
    var n := U32At(s, 4);
    var rest := Forward(s[n..]);
    if rest.None? then None else Some([Block(U32At(s, 0), s[8..n - 4])] + rest.value)
  }

  predicate BackOk(s: seq<byte>) {
    |s| >= 12 && Fits(U32At(s, |s| - 4), |s|) && U32At(s, |s| - U32At(s, |s| - 4) + 4) == U32At(s, |s| - 4)
  }

  /** All blocks, walking backward by trailing lengths. */
  function Backward(s: seq<byte>): Option<seq<Block>>
    decreases |s|
  {
    if s == [] then Some([]) else
    if !BackOk(s) then None else
    var at := |s| - U32At(s, |s| - 4);
    var before := Backward(s[..at]);
    if before.None? then None else Some(before.value + [Block(U32At(s, at), s[at + 8..|s| - 4])])
  }

  function PacketOf(b: Block): Option<Packet> {
    if b.kind != EPB || |b.body| < 20 || U32At(b.body, 12) > |b.body| - 20 then None else
    var micros := Be64(U32At(b.body, 4), U32At(b.body, 8));
    if micros >= 0x8000_0000_0000_0000 then None else
    Some(Packet(micros, b.body[20..20 + U32At(b.body, 12)], U32At(b.body, 16)))
  }

  function PacketsOf(blocks: seq<Block>): Option<seq<Packet>> {
    if blocks == [] then Some([]) else
    var p, rest := PacketOf(blocks[0]), PacketsOf(blocks[1..]);
    if p.None? || rest.None? then None else Some([p.value] + rest.value)
  }

  /** One section with one interface and packets. */
  function CaptureOf(blocks: seq<Block>): Option<Capture> {
    if |blocks| < 2 || blocks[0].kind != SHB || |blocks[0].body| < 16 || U32At(blocks[0].body, 0) != MAGIC then None else
    if blocks[1].kind != IDB || |blocks[1].body| < 8 then None else
    var ps := PacketsOf(blocks[2..]);
    if ps.None? then None else Some(Capture(U16At(blocks[1].body, 0), U32At(blocks[1].body, 4), ps.value))
  }

  function Read(blocks: Option<seq<Block>>): Option<Capture> {
    if blocks.None? then None else CaptureOf(blocks.value)
  }

  // ---------------------------------------------------------------- words

  lemma WordRead(a: seq<byte>, x: u32, b: seq<byte>)
    ensures U32At(a + Le32(x) + b, |a|) == x
  {
    Split32(x);
  }

  lemma HalfRead(a: seq<byte>, x: u16, b: seq<byte>)
    ensures U16At(a + Le16(x) + b, |a|) == x
  {
  }

  // ---------------------------------------------------------------- one block

  /** The lengths at both ends are the block's own. */
  ghost predicate Sized(body: seq<byte>) {
    |body| % 4 == 0 && 12 + |body| < 0x1_0000_0000
  }

  lemma BlockParts(kind: u32, body: seq<byte>)
    requires Sized(body)
    ensures var (s, n) := (BlockBytes(kind, body), 12 + |body|);
      && |s| == n && U32At(s, 0) == kind && U32At(s, 4) == n && U32At(s, n - 4) == n && s[8..n - 4] == body
  {
    hide Le32, U32At;
    var s, n := BlockBytes(kind, body), 12 + |body|;
    WordRead([], kind, Le32(n) + body + Le32(n));
    assert s == [] + Le32(kind) + (Le32(n) + body + Le32(n));
    WordRead(Le32(kind), n, body + Le32(n));
    assert s == Le32(kind) + Le32(n) + (body + Le32(n));
    WordRead(Le32(kind) + Le32(n) + body, n, []);
    assert s == Le32(kind) + Le32(n) + body + Le32(n) + [];
  }

  function Then(b: Block, rest: Option<seq<Block>>): Option<seq<Block>> {
    if rest.None? then None else Some([b] + rest.value)
  }

  function After(before: Option<seq<Block>>, b: Block): Option<seq<Block>> {
    if before.None? then None else Some(before.value + [b])
  }

  lemma FrontStep(s: seq<byte>, n: nat)
    requires 12 <= n <= |s| && n % 4 == 0 && U32At(s, 4) == n && U32At(s, n - 4) == n
    ensures Forward(s) == Then(Block(U32At(s, 0), s[8..n - 4]), Forward(s[n..]))
  {
    hide U32At;
  }

  lemma BackStep(s: seq<byte>, n: nat)
    requires 12 <= n <= |s| && n % 4 == 0 && U32At(s, |s| - 4) == n && U32At(s, |s| - n + 4) == n
    ensures Backward(s) == After(Backward(s[..|s| - n]), Block(U32At(s, |s| - n), s[|s| - n + 8..|s| - 4]))
  {
    hide U32At;
    assert BackOk(s);
    hide BackOk;
  }

  /** A block's words are where they were, whatever surrounds it. */
  lemma Surrounded(before: seq<byte>, kind: u32, body: seq<byte>, rest: seq<byte>)
    requires Sized(body)
    ensures var s, at, n := before + BlockBytes(kind, body) + rest, |before|, 12 + |body|;
      && |s| == at + n + |rest| && U32At(s, at) == kind && U32At(s, at + 4) == n && U32At(s, at + n - 4) == n
      && s[at + 8..at + n - 4] == body
  {
    var b, n := BlockBytes(kind, body), 12 + |body|;
    BlockParts(kind, body);
    hide U32At, BlockBytes;
    assert (before + b + rest)[|before| + 8..|before| + n - 4] == b[8..n - 4];
  }

  lemma ForwardBlock(kind: u32, body: seq<byte>, rest: seq<byte>)
    requires Sized(body)
    ensures Forward(BlockBytes(kind, body) + rest) == Then(Block(kind, body), Forward(rest))
  {
    hide U32At, BlockBytes, Forward, Then;
    var all := BlockBytes(kind, body) + rest;
    Surrounded([], kind, body, rest);
    assert all == [] + BlockBytes(kind, body) + rest;
    FrontStep(all, 12 + |body|);
    assert all[12 + |body|..] == rest;
  }

  lemma BackwardBlock(before: seq<byte>, kind: u32, body: seq<byte>)
    requires Sized(body)
    ensures Backward(before + BlockBytes(kind, body)) == After(Backward(before), Block(kind, body))
  {
    hide U32At, BlockBytes, Backward, After;
    var all := before + BlockBytes(kind, body);
    Surrounded(before, kind, body, []);
    assert all == before + BlockBytes(kind, body) + [];
    BackStep(all, 12 + |body|);
    assert all[..|before|] == before;
  }

  // ---------------------------------------------------------------- one packet

  /** What a packet is read back as: times before the epoch become the epoch. */
  function Kept(p: Packet): Packet {
    p.(micros := Clamped(p.micros))
  }

  function KeptAll(ps: seq<Packet>): (r: seq<Packet>)
    ensures |r| == |ps|
  {
    if ps == [] then [] else KeptAll(ps[..|ps| - 1]) + [Kept(ps[|ps| - 1])]
  }

  /** The whole block's length fits its length field. */
  predicate Writable(p: Packet) {
    32 + |p.data| + Pad(|p.data|) < 0x1_0000_0000
  }

  lemma BodyLength(p: Packet)
    ensures |EpbBody(p)| == 20 + |p.data| + Pad(|p.data|) && |EpbBody(p)| % 4 == 0
    ensures Writable(p) <==> Sized(EpbBody(p))
  {
    hide Le32, Wrap32, Zeros, Pad;
  }

  /** The fixed fields of a packet block and its data, wherever the body starts. */
  lemma FieldsRead(hi: u32, lo: u32, len: u32, wire: u32, tail: seq<byte>)
    ensures var b := Le32(0) + Le32(hi) + Le32(lo) + Le32(len) + Le32(wire) + tail;
      && |b| == 20 + |tail| && b[20..] == tail
      && U32At(b, 4) == hi && U32At(b, 8) == lo && U32At(b, 12) == len && U32At(b, 16) == wire
  {
    hide Le32, U32At;
    var b := Le32(0) + Le32(hi) + Le32(lo) + Le32(len) + Le32(wire) + tail;
    WordRead(Le32(0), hi, Le32(lo) + Le32(len) + Le32(wire) + tail);
    assert b == Le32(0) + Le32(hi) + (Le32(lo) + Le32(len) + Le32(wire) + tail);
    WordRead(Le32(0) + Le32(hi), lo, Le32(len) + Le32(wire) + tail);
    assert b == Le32(0) + Le32(hi) + Le32(lo) + (Le32(len) + Le32(wire) + tail);
    WordRead(Le32(0) + Le32(hi) + Le32(lo), len, Le32(wire) + tail);
    assert b == Le32(0) + Le32(hi) + Le32(lo) + Le32(len) + (Le32(wire) + tail);
    WordRead(Le32(0) + Le32(hi) + Le32(lo) + Le32(len), wire, tail);
  }

  lemma TimeKept(t: nat)
    requires t < 0x8000_0000_0000_0000
    ensures Be64(Wrap32(t / 0x1_0000_0000), Wrap32(t)) == t
  {
  }

  lemma EpbParts(p: Packet)
    requires Writable(p)
    ensures var t := Clamped(p.micros);
      EpbBody(p) == Le32(0) + Le32(Wrap32(t / 0x1_0000_0000)) + Le32(Wrap32(t)) + Le32(|p.data|) + Le32(p.wireLen)
                    + (p.data + Zeros(Pad(|p.data|)))
  {
    assert Wrap32(|p.data|) == |p.data|;
    hide Le32, Wrap32, Zeros, Pad;
  }

  lemma PacketRead(p: Packet)
    requires Writable(p)
    ensures PacketOf(Block(EPB, EpbBody(p))) == Some(Kept(p))
  {
    var t, tail := Clamped(p.micros), p.data + Zeros(Pad(|p.data|));
    EpbParts(p);
    TimeKept(t);
    hide Le32, U32At, Zeros, Be64, Wrap32, EpbBody, Pad;
    FieldsRead(Wrap32(t / 0x1_0000_0000), Wrap32(t), |p.data|, p.wireLen, tail);
    assert EpbBody(p)[20..][..|p.data|] == p.data;
  }

  // ---------------------------------------------------------------- whole files

  function Blocks(ps: seq<Packet>): seq<Block> {
    if ps == [] then [] else Blocks(ps[..|ps| - 1]) + [Block(EPB, EpbBody(ps[|ps| - 1]))]
  }

  predicate AllWritable(ps: seq<Packet>) {
    forall i :: 0 <= i < |ps| ==> Writable(ps[i])
  }

  function ThenAll(bs: seq<Block>, rest: Option<seq<Block>>): Option<seq<Block>> {
    if rest.None? then None else Some(bs + rest.value)
  }

  /** Blocks before an arbitrary rest are read first. */
  lemma {:induction false} ForwardBody(ps: seq<Packet>, rest: seq<byte>)
    requires AllWritable(ps)
    ensures Forward(Body(ps) + rest) == ThenAll(Blocks(ps), Forward(rest))
  {
    hide Forward, BlockBytes, EpbBody, Writable;
    if ps == [] {
      assert Body(ps) + rest == rest;
      assert forall r: seq<Block> :: [] + r == r;
    } else {
      var init, last := ps[..|ps| - 1], ps[|ps| - 1];
      var b := BlockBytes(EPB, EpbBody(last));
      ForwardBody(init, b + rest);
      assert Body(ps) + rest == Body(init) + (b + rest);
      BodyLength(last);
      ForwardBlock(EPB, EpbBody(last), rest);
      ThenAssociates(Blocks(init), Block(EPB, EpbBody(last)), Forward(rest));
    }
  }

  lemma ThenAssociates(bs: seq<Block>, b: Block, rest: Option<seq<Block>>)
    ensures ThenAll(bs, Then(b, rest)) == ThenAll(bs + [b], rest)
  {
    if rest.Some? {
      assert bs + ([b] + rest.value) == bs + [b] + rest.value;
    }
  }

  lemma HeaderSized(linktype: u16, snaplen: u32)
    ensures Sized(ShbBody()) && Sized(IdbBody(linktype, snaplen))
    ensures |ShbBody()| == 16 && |IdbBody(linktype, snaplen)| == 8
  {
    hide Le32, Le16;
  }

  function HeaderBlocks(linktype: u16, snaplen: u32): seq<Block> {
    [Block(SHB, ShbBody()), Block(IDB, IdbBody(linktype, snaplen))]
  }

  lemma ForwardFile(linktype: u16, snaplen: u32, rest: seq<byte>)
    ensures Forward(Header(linktype, snaplen) + rest) == ThenAll(HeaderBlocks(linktype, snaplen), Forward(rest))
  {
    hide Forward, BlockBytes, ShbBody, IdbBody;
    HeaderSized(linktype, snaplen);
    var shb, idb := BlockBytes(SHB, ShbBody()), BlockBytes(IDB, IdbBody(linktype, snaplen));
    assert Header(linktype, snaplen) + rest == shb + (idb + rest);
    ForwardBlock(SHB, ShbBody(), idb + rest);
    ForwardBlock(IDB, IdbBody(linktype, snaplen), rest);
    ThenTwice(Block(SHB, ShbBody()), Block(IDB, IdbBody(linktype, snaplen)), Forward(rest));
  }

  lemma ThenTwice(a: Block, b: Block, rest: Option<seq<Block>>)
    ensures Then(a, Then(b, rest)) == ThenAll([a, b], rest)
    ensures After(After(Some([]), a), b) == Some([a, b])
  {
    if rest.Some? {
      assert [a] + ([b] + rest.value) == [a, b] + rest.value;
    }
    assert [] + [a] + [b] == [a, b];
  }

  lemma {:induction false} BackwardBody(before: seq<byte>, ps: seq<Packet>, found: seq<Block>)
    requires AllWritable(ps) && Backward(before) == Some(found)
    ensures Backward(before + Body(ps)) == Some(found + Blocks(ps))
  {
    hide Backward, BlockBytes, EpbBody, Writable;
    if ps == [] {
      assert before + Body(ps) == before && found + Blocks(ps) == found;
    } else {
      var init, last := ps[..|ps| - 1], ps[|ps| - 1];
      BackwardBody(before, init, found);
      assert before + Body(ps) == before + Body(init) + BlockBytes(EPB, EpbBody(last));
      BodyLength(last);
      BackwardBlock(before + Body(init), EPB, EpbBody(last));
      assert found + Blocks(init) + [Block(EPB, EpbBody(last))] == found + Blocks(ps);
    }
  }

  lemma BackwardHeader(linktype: u16, snaplen: u32)
    ensures Backward(Header(linktype, snaplen)) == Some(HeaderBlocks(linktype, snaplen))
  {
    hide Backward, BlockBytes, ShbBody, IdbBody, After;
    HeaderSized(linktype, snaplen);
    NothingBackward();
    var shb, a, b := BlockBytes(SHB, ShbBody()), Block(SHB, ShbBody()), Block(IDB, IdbBody(linktype, snaplen));
    BackwardBlock([], SHB, ShbBody());
    assert [] + shb == shb;
    BackwardBlock(shb, IDB, IdbBody(linktype, snaplen));
    ThenTwice(a, b, None);
  }

  lemma NothingBackward()
    ensures Backward([]) == Some([])
  {
  }

  lemma {:induction false} PacketsRead(ps: seq<Packet>, more: seq<Block>)
    requires AllWritable(ps)
    ensures PacketsOf(Blocks(ps) + more) ==
      if PacketsOf(more).None? then None else Some(KeptAll(ps) + PacketsOf(more).value)
  {
    hide PacketOf, EpbBody, Writable, Kept;
    if ps == [] {
      assert Blocks(ps) + more == more;
      assert forall r: seq<Packet> :: [] + r == r;
    } else {
      var init, last := ps[..|ps| - 1], ps[|ps| - 1];
      var b := Block(EPB, EpbBody(last));
      PacketRead(last);
      assert Blocks(ps) + more == Blocks(init) + ([b] + more);
      PacketsRead(init, [b] + more);
      assert ([b] + more)[1..] == more;
      if PacketsOf(more).Some? {
        assert KeptAll(init) + ([Kept(last)] + PacketsOf(more).value) == KeptAll(ps) + PacketsOf(more).value;
      }
    }
  }

  lemma HeaderRead(linktype: u16, snaplen: u32)
    ensures U32At(ShbBody(), 0) == MAGIC
    ensures U16At(IdbBody(linktype, snaplen), 0) == linktype && U32At(IdbBody(linktype, snaplen), 4) == snaplen
  {
    hide Le32, Le16, Ones, U32At, U16At;
    WordRead([], MAGIC, Le16(1) + Le16(0) + Ones(8));
    assert ShbBody() == [] + Le32(MAGIC) + (Le16(1) + Le16(0) + Ones(8));
    HalfRead([], linktype, Le16(0) + Le32(snaplen));
    assert IdbBody(linktype, snaplen) == [] + Le16(linktype) + (Le16(0) + Le32(snaplen));
    WordRead(Le16(linktype) + Le16(0), snaplen, []);
    assert IdbBody(linktype, snaplen) == Le16(linktype) + Le16(0) + Le32(snaplen) + [];
  }

  /** A header and any packet blocks after it. */
  lemma CaptureRead(linktype: u16, snaplen: u32, blocks: seq<Block>)
    ensures CaptureOf(HeaderBlocks(linktype, snaplen) + blocks) ==
      if PacketsOf(blocks).None? then None else Some(Capture(linktype, snaplen, PacketsOf(blocks).value))
  {
    HeaderRead(linktype, snaplen);
    HeaderSized(linktype, snaplen);
    hide ShbBody, IdbBody, U32At, U16At, PacketsOf;
    assert (HeaderBlocks(linktype, snaplen) + blocks)[2..] == blocks;
  }

  lemma {:induction false} KeptAt(ps: seq<Packet>, i: nat)
    requires i < |ps|
    ensures KeptAll(ps)[i] == Kept(ps[i])
  {
    if i < |ps| - 1 {
      KeptAt(ps[..|ps| - 1], i);
    }
  }

  lemma {:induction false} BodySplit(ps: seq<Packet>, i: nat) returns (tail: seq<byte>)
    requires i < |ps|
    ensures Body(ps) == Body(ps[..i]) + (BlockBytes(EPB, EpbBody(ps[i])) + tail)
  {
    hide BlockBytes, EpbBody;
    var n := |ps| - 1;
    if i == n {
      tail := [];
    } else {
      var rest := BodySplit(ps[..n], i);
      tail := rest + BlockBytes(EPB, EpbBody(ps[n]));
      assert ps[..n][..i] == ps[..i];
    }
  }

  /** The first block read is as long as its length word says, and a packet in it is shorter still. */
  lemma FirstIsShort(s: seq<byte>)
    requires |s| >= 12 && Forward(s).Some?
    ensures |Forward(s).value| > 0
    ensures var b := Forward(s).value[0]; PacketOf(b).Some? ==> |PacketOf(b).value.data| + 32 <= U32At(s, 4)
  {
    hide U32At, Be64;
  }

  /** A block whose length does not fit reads as one too short to hold its packet. */
  lemma OversizeReadsShort(p: Packet, tail: seq<byte>)
    requires !Writable(p)
    ensures var blocks := Forward(BlockBytes(EPB, EpbBody(p)) + tail);
      blocks.Some? ==> |blocks.value| > 0 && (PacketOf(blocks.value[0]).Some? ==> |PacketOf(blocks.value[0]).value.data| < |p.data|)
  {
    BodyLength(p);
    WrapShrinks(12 + |EpbBody(p)|);
    hide BlockBytes, EpbBody, U32At, Forward, PacketOf, Wrap32;
    var s := BlockBytes(EPB, EpbBody(p)) + tail;
    if Forward(s).Some? {
      FirstIsShort(s);
    }
  }

  lemma WrapShrinks(n: nat)
    ensures n >= 0x1_0000_0000 ==> Wrap32(n) <= n - 0x1_0000_0000
  {
  }

  lemma OversizeLoses(linktype: u16, snaplen: u32, ps: seq<Packet>, i: nat)
    requires i < |ps| && !Writable(ps[i]) && AllWritable(ps[..i])
    ensures Read(Forward(File(linktype, snaplen, ps))) != Some(Capture(linktype, snaplen, KeptAll(ps)))
  {
    var tail := BodySplit(ps, i);
    hide Forward, BlockBytes, EpbBody, Writable, PacketOf, Header, Kept, CaptureOf, HeaderBlocks;
    var bad := BlockBytes(EPB, EpbBody(ps[i])) + tail;
    ForwardBody(ps[..i], bad);
    ForwardFile(linktype, snaplen, Body(ps));
    OversizeReadsShort(ps[i], tail);
    if Forward(bad).Some? {
      var bs := Forward(bad).value;
      CaptureRead(linktype, snaplen, Blocks(ps[..i]) + bs);
      PacketsRead(ps[..i], bs);
      KeptAt(ps, i);
      assert Kept(ps[i]).data == ps[i].data by { KeptData(ps[i]); }
    }
  }

  lemma KeptData(p: Packet)
    ensures Kept(p).data == p.data
  {
  }

  /** Both walks give back every packet written, and the file's parameters. */
  lemma RoundTrip(linktype: u16, snaplen: u32, ps: seq<Packet>)
    requires AllWritable(ps)
    ensures Read(Forward(File(linktype, snaplen, ps))) == Some(Capture(linktype, snaplen, KeptAll(ps)))
    ensures Backward(File(linktype, snaplen, ps)) == Forward(File(linktype, snaplen, ps))
  {
    NothingForward();
    hide Forward, Backward, Body, Header, Blocks, CaptureOf, HeaderBlocks, PacketsOf, KeptAll, Writable;
    assert Body(ps) + [] == Body(ps);
    ForwardBody(ps, []);
    ForwardFile(linktype, snaplen, Body(ps));
    assert Blocks(ps) + [] == Blocks(ps);
    CaptureRead(linktype, snaplen, Blocks(ps));
    PacketsRead(ps, []);
    assert KeptAll(ps) + [] == KeptAll(ps);
    BackwardHeader(linktype, snaplen);
    BackwardBody(Header(linktype, snaplen), ps, HeaderBlocks(linktype, snaplen));
  }

  lemma NothingForward()
    ensures Forward([]) == Some([]) && PacketsOf([]) == Some([])
  {
  }

  /** The file reads back as written if and only if every block's length fits its 32-bit field. */
  lemma ReadsBackIffLengthsFit(linktype: u16, snaplen: u32, ps: seq<Packet>)
    ensures Read(Forward(File(linktype, snaplen, ps))) == Some(Capture(linktype, snaplen, KeptAll(ps))) <==> AllWritable(ps)
  {
    if AllWritable(ps) {
      RoundTrip(linktype, snaplen, ps);
    } else {
      var i := FirstOversize(ps);
      OversizeLoses(linktype, snaplen, ps, i);
    }
  }

  lemma {:induction false} FirstOversize(ps: seq<Packet>) returns (i: nat)
    requires !AllWritable(ps)
    ensures i < |ps| && !Writable(ps[i]) && AllWritable(ps[..i])
  {
    hide Writable;
    var n := |ps| - 1;
    if AllWritable(ps[..n]) {
      i := n;
      assert forall j :: 0 <= j < n ==> ps[j] == ps[..n][j];
    } else {
      i := FirstOversize(ps[..n]);
      assert ps[..n][..i] == ps[..i];
    }
  }
}
