/** The bytes of a capture file, written out as section 4 of draft-ietf-opsawg-pcapng lays them out. */
module PcapngOctets {
  import opened Bytes
  import opened Pcapng
  import opened PcapngReader

  /** A section header of version 1.0 and unknown length: 28 bytes, the byte-order magic in little-endian order. */
  const SECTION_OCTETS: seq<byte> :=
    [0x0A, 0x0D, 0x0D, 0x0A, 28, 0, 0, 0, 0x4D, 0x3C, 0x2B, 0x1A, 1, 0, 0, 0,
     0xFF, 0xFF, 0xFF, 0xFF, 0xFF, 0xFF, 0xFF, 0xFF, 28, 0, 0, 0]

  /** An interface description: 20 bytes, link type, reserved, snapshot length. */
  function InterfaceOctets(linktype: u16, snaplen: u32): seq<byte> {
    [1, 0, 0, 0, 20, 0, 0, 0, linktype % 256, linktype / 256, 0, 0,
     snaplen % 256, snaplen / 256 % 256, snaplen / 65536 % 256, snaplen / 16777216, 20, 0, 0, 0]
  }

  lemma EightOnes()
    ensures Ones(8) == [0xFF, 0xFF, 0xFF, 0xFF, 0xFF, 0xFF, 0xFF, 0xFF]
  {
    assert Ones(4) == [0xFF, 0xFF, 0xFF, 0xFF];
    assert Ones(6) == [0xFF, 0xFF] + Ones(4);
  }

  lemma SectionWords()
    ensures Le32(SHB) == [0x0A, 0x0D, 0x0D, 0x0A] && Le32(28) == [28, 0, 0, 0] && Wrap32(28) == 28
    ensures Le32(MAGIC) == [0x4D, 0x3C, 0x2B, 0x1A] && Le16(1) == [1, 0] && Le16(0) == [0, 0]
  {
  }

  lemma ShbSpelled()
    ensures ShbBody() == [0x4D, 0x3C, 0x2B, 0x1A, 1, 0, 0, 0, 0xFF, 0xFF, 0xFF, 0xFF, 0xFF, 0xFF, 0xFF, 0xFF]
  {
    SectionWords();
    EightOnes();
    hide Ones, Le32, Le16, Wrap32;
    assert ShbBody() == [0x4D, 0x3C, 0x2B, 0x1A] + [1, 0] + [0, 0] + Ones(8);
  }

  lemma SectionSpelled()
    ensures BlockBytes(SHB, ShbBody()) == SECTION_OCTETS
  {
    SectionWords();
    ShbSpelled();
    hide Le32, ShbBody, Wrap32;
    assert BlockBytes(SHB, ShbBody()) == Le32(SHB) + [28, 0, 0, 0] + ShbBody() + [28, 0, 0, 0];
  }

  lemma InterfaceSpelled(linktype: u16, snaplen: u32)
    ensures BlockBytes(IDB, IdbBody(linktype, snaplen)) == InterfaceOctets(linktype, snaplen)
  {
    assert Le32(1) == [1, 0, 0, 0] && Le32(20) == [20, 0, 0, 0];
  }

  /** Every file opens with exactly these 48 bytes. */
  lemma FileSpelled(linktype: u16, snaplen: u32, ps: seq<Packet>)
    ensures |File(linktype, snaplen, ps)| >= 48
    ensures File(linktype, snaplen, ps)[..48] == SECTION_OCTETS + InterfaceOctets(linktype, snaplen)
  {
    SectionSpelled();
    InterfaceSpelled(linktype, snaplen);
    hide BlockBytes, ShbBody, IdbBody;
  }

  lemma PacketWords()
    ensures Le32(0) == [0, 0, 0, 0] && Le32(5) == [5, 0, 0, 0] && Le32(258) == [2, 1, 0, 0] && Le32(1) == [1, 0, 0, 0]
    ensures Le32(60) == [60, 0, 0, 0] && Le32(EPB) == [6, 0, 0, 0] && Le32(36) == [36, 0, 0, 0]
    ensures Wrap32(5) == 5 && Wrap32(0x5_0000_0102) == 258 && Wrap32(1) == 1 && Wrap32(36) == 36 && Pad(1) == 3
    ensures Zeros(3) == [0, 0, 0]
  {
    assert Zeros(2) == [0, 0];
  }

  /** One byte of sixty captured 5 * 2^32 + 258 microseconds after the epoch. */
  lemma PacketSpelled()
    ensures BlockBytes(EPB, EpbBody(Packet(0x5_0000_0102, [0xAB], 60))) ==
      [6, 0, 0, 0, 36, 0, 0, 0, 0, 0, 0, 0, 5, 0, 0, 0, 2, 1, 0, 0, 1, 0, 0, 0, 60, 0, 0, 0, 0xAB, 0, 0, 0, 36, 0, 0, 0]
  {
    PacketWords();
    assert 0x5_0000_0102 / 0x1_0000_0000 == 5;
    hide Le32, Wrap32, Zeros, Pad;
    var body := EpbBody(Packet(0x5_0000_0102, [0xAB], 60));
    assert body == [0, 0, 0, 0] + [5, 0, 0, 0] + [2, 1, 0, 0] + [1, 0, 0, 0] + [60, 0, 0, 0] + [0xAB] + [0, 0, 0];
    assert |body| == 24;
    assert BlockBytes(EPB, body) == [6, 0, 0, 0] + [36, 0, 0, 0] + body + [36, 0, 0, 0];
  }

  /** A packet is read back as it was, except that a time before the epoch becomes the epoch. */
  lemma TimesKept(p: Packet)
    ensures p.micros >= 0 ==> Kept(p) == p
    ensures p.micros < 0 ==> Kept(p) == Packet(0, p.data, p.wireLen)
  {
  }
}
