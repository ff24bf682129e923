/** The capture-file writer (`output/pcapng_writer.rs`): little-endian blocks with their length at both ends. */
module Pcapng {
  import opened Bytes

  const SHB := 0x0A0D0D0A
  const IDB := 1
  const EPB := 6
  const MAGIC := 0x1A2B3C4D

  /** A packet as handed to the writer; the time is in microseconds and may be negative. */
  datatype Packet = Packet(micros: i64, data: seq<byte>, wireLen: u32)

  function Wrap32(n: nat): u32 {
    n % 0x1_0000_0000
  }

  /** `to_le_bytes` */
  function Le32(x: u32): (r: seq<byte>)
    ensures |r| == 4
  {
    [x % 0x100, x / 0x100 % 0x100, x / 0x1_0000 % 0x100, x / 0x100_0000]
  }

  function Le16(x: u16): (r: seq<byte>)
    ensures |r| == 2
  {
    [x % 0x100, x / 0x100]
  }

  function Zeros(n: nat): (r: seq<byte>)
    ensures |r| == n
  {
    if n == 0 then [] else [0] + Zeros(n - 1)
  }

  function Ones(n: nat): (r: seq<byte>)
    ensures |r| == n
  {
    if n == 0 then [] else [0xFF] + Ones(n - 1)
  }

  /** Bytes that fill up to a multiple of four. */
  function Pad(n: nat): (p: nat)
    ensures p < 4 && (n + p) % 4 == 0
  {
    (4 - n % 4) % 4
  }

  // ---------------------------------------------------------------- blocks as written

  /** A block: its kind, its whole length, its body, its whole length again. */
  function BlockBytes(kind: u32, body: seq<byte>): seq<byte> {
    Le32(kind) + Le32(Wrap32(12 + |body|)) + body + Le32(Wrap32(12 + |body|))
  }

  function ShbBody(): seq<byte> {
    Le32(MAGIC) + Le16(1) + Le16(0) + Ones(8)
  }

  function IdbBody(linktype: u16, snaplen: u32): seq<byte> {
    Le16(linktype) + Le16(0) + Le32(snaplen)
  }

  function Clamped(micros: int): nat {
    if micros < 0 then 0 else micros
  }

  function EpbBody(p: Packet): seq<byte> {
    var t := Clamped(p.micros);
    Le32(0) + Le32(Wrap32(t / 0x1_0000_0000)) + Le32(Wrap32(t)) + Le32(Wrap32(|p.data|)) + Le32(p.wireLen)
    + p.data + Zeros(Pad(|p.data|))
  }

  function Header(linktype: u16, snaplen: u32): seq<byte> {
    BlockBytes(SHB, ShbBody()) + BlockBytes(IDB, IdbBody(linktype, snaplen))
  }

  function Body(ps: seq<Packet>): seq<byte> {
    if ps == [] then [] else Body(ps[..|ps| - 1]) + BlockBytes(EPB, EpbBody(ps[|ps| - 1]))
  }

  /** Everything written for a capture. */
  function File(linktype: u16, snaplen: u32, ps: seq<Packet>): seq<byte> {
    Header(linktype, snaplen) + Body(ps)
  }

  lemma FileGrows(linktype: u16, snaplen: u32, ps: seq<Packet>, p: Packet)
    ensures File(linktype, snaplen, ps + [p]) == File(linktype, snaplen, ps) + BlockBytes(EPB, EpbBody(p))
  {
    hide BlockBytes, EpbBody, Header;
    assert (ps + [p])[..|ps|] == ps;
  }

  class Writer {
    var out: seq<byte>
    ghost var linktype: u16
    ghost var snaplen: u32
    ghost var written: seq<Packet>

    ghost predicate Valid()
      reads this
    {
      out == File(linktype, snaplen, written)
    }

    method WriteShb()
      modifies this`out
      ensures out == old(out) + BlockBytes(SHB, ShbBody())
    {
      hide Le32, Le16, Ones;
      var total: u32 := 28;
      out := out + Le32(SHB);
      out := out + Le32(total);
      out := out + Le32(MAGIC);
      out := out + Le16(1);
      out := out + Le16(0);
      out := out + Ones(8);
      out := out + Le32(total);
    }

    method WriteIdb(linktype: u16, snaplen: u32)
      modifies this`out
      ensures out == old(out) + BlockBytes(IDB, IdbBody(linktype, snaplen))
    {
      hide Le32, Le16;
      var total: u32 := 20;
      out := out + Le32(IDB);
      out := out + Le32(total);
      out := out + Le16(linktype);
      out := out + Le16(0);
      out := out + Le32(snaplen);
      out := out + Le32(total);
    }

    constructor (linktype: u16, snaplen: u32)
      ensures Valid() && written == [] && this.linktype == linktype && this.snaplen == snaplen
    {
      out, written := [], [];
      this.linktype, this.snaplen := linktype, snaplen;
      new;
      hide BlockBytes, ShbBody, IdbBody;
      WriteShb();
      WriteIdb(linktype, snaplen);
    }

    method WritePacket(p: Packet)
      requires Valid()
      modifies this
      ensures Valid() && written == old(written) + [p]
      ensures linktype == old(linktype) && snaplen == old(snaplen)
    {
      hide BlockBytes, EpbBody, File;
      WriteEpb(p);
      FileGrows(linktype, snaplen, written, p);
      written := written + [p];
    }

    method WriteEpb(p: Packet)
      modifies this`out
      ensures out == old(out) + BlockBytes(EPB, EpbBody(p))
    {
      hide Le32, Wrap32, Zeros;
      var micros := if p.micros < 0 then 0 else p.micros;
      var tsHigh := Wrap32(micros / 0x1_0000_0000);
      var tsLow := Wrap32(micros);
      var caplen := Wrap32(|p.data|);
      var pad := (4 - |p.data| % 4) % 4;
      var total := 32 + |p.data| + pad;
      ghost var start := out;
      out := out + Le32(EPB);
      out := out + Le32(Wrap32(total));
      ghost var body := out;
      WriteFixed(tsHigh, tsLow, caplen, p.wireLen);
      out := out + p.data;
      if pad > 0 {
        out := out + Zeros(pad);
      }
      assert out == body + EpbBody(p);
      out := out + Le32(Wrap32(total));
    }

    /** The fixed fields of a packet block after its length. */
    method WriteFixed(tsHigh: u32, tsLow: u32, caplen: u32, wireLen: u32)
      modifies this`out
      ensures out == old(out) + (Le32(0) + Le32(tsHigh) + Le32(tsLow) + Le32(caplen) + Le32(wireLen))
    {
      hide Le32;
      out := out + Le32(0);
      out := out + Le32(tsHigh);
      out := out + Le32(tsLow);
      out := out + Le32(caplen);
      out := out + Le32(wireLen);
    }
  }

}
