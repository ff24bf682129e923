/** Names as dotted text, pointers by their two bytes, and one whole message written out byte by byte. */
module DnsExample {
  import opened Bytes
  import opened DnsNames
  import opened DnsMessages
  import opened DnsLayouts

  /** The pieces of a text between its dots, which are bytes 46. */
  function Pieces(t: Text): (r: seq<Text>)
    ensures r != []
  {
    if t == [] then [[]] else
    var rest := Pieces(t[1..]);
    if t[0] == 46 then [[]] + rest else [[t[0]] + rest[0]] + rest[1..]
  }

  lemma {:induction false} PiecesOfOne(l: Text)
    requires 46 !in l
    ensures Pieces(l) == [l]
  {
    if l != [] {
      assert l[0] in l && forall b <- l[1..] :: b in l;
      PiecesOfOne(l[1..]);
      assert [l[0]] + l[1..] == l;
    }
  }

  lemma {:induction false} PiecesAfterDot(l: Text, t: Text)
    requires 46 !in l
    ensures Pieces(l + ([46] + t)) == [l] + Pieces(t)
  {
    if l == [] {
      assert l + ([46] + t) == [46] + t;
      assert ([46] + t)[1..] == t;
    } else {
      assert l[0] in l && forall b <- l[1..] :: b in l;
      PiecesAfterDot(l[1..], t);
      assert (l + ([46] + t))[1..] == l[1..] + ([46] + t);
      assert [l[0]] + l[1..] == l;
    }
  }

  /** The labels of a name can be told from its text as long as none of them holds a dot. */
  lemma {:induction false} PiecesInvertJoin(labels: seq<Text>)
    requires labels != [] && forall l <- labels :: 46 !in l
    ensures Pieces(Join(labels)) == labels
  {
    if |labels| == 1 {
      PiecesOfOne(labels[0]);
    } else {
      assert labels[0] in labels && forall l <- labels[1..] :: l in labels;
      PiecesInvertJoin(labels[1..]);
      PiecesAfterDot(labels[0], Join(labels[1..]));
    }
  }

  /** A pointer is two bytes, and its offset what they count above 0xC000 (section 4.1.4 of RFC 1035). */
  lemma PointerOffset(data: seq<byte>, pos: nat)
    requires pos + 1 < |data| && data[pos] >= 0xC0
    ensures 256 * data[pos] as int + data[pos + 1] as int == 0xC000 + PointerAt(data, pos)
  {
  }

  // ---------------------------------------------------------------- a message, byte by byte

  /** The answer "www.de is at 192.168.0.1 for an hour" to a question for its address, the name given by a pointer. */
  const ANSWER: seq<byte> := HEAD + (ASKED + REPLY)

  const HEAD: seq<byte> := [0x12, 0x34, 0x81, 0x83, 0, 1, 0, 1, 0, 0, 0, 0]

  const ASKED: seq<byte> := [3, 119, 119, 119, 2, 100, 101, 0, 0, 1, 0, 1]

  const REPLY: seq<byte> := [0xC0, 12, 0, 1, 0, 1, 0, 0, 0x0E, 0x10, 0, 4, 192, 168, 0, 1]

  const WWW: Name := Label([119, 119, 119], Label([100, 101], Root))

  const WWW_TEXT: Text := [119, 119, 119, 46, 100, 101]

  const AS_MEANT: Message := Message(
    0x1234, 0x8183, [Asked(WWW, 1, 1)], [Laid(Pointer(12, WWW), 1, 3600, 4, Address4([192, 168, 0, 1]))], [], [])

  lemma LabelStands(data: seq<byte>, base: nat, pos: nat, text: Text, next: Name)
    requires 1 <= |text| < 192 && pos + 1 + |text| <= |data|
    requires data[pos] == |text| && data[pos + 1..pos + 1 + |text|] == text && Encodes(data, base, pos + 1 + |text|, next)
    ensures Encodes(data, base, pos, Label(text, next))
  {
  }

  lemma PartsStand()
    ensures |HEAD| == 12 && |ASKED| == 12 && |REPLY| == 16 && |ANSWER| == 40
    ensures ANSWER[..12] == HEAD && ANSWER[12..24] == ASKED && ANSWER[24..40] == REPLY
    ensures forall i :: 0 <= i < 12 ==> ANSWER[i] == HEAD[i]
    ensures forall i :: 12 <= i < 24 ==> ANSWER[i] == ASKED[i - 12]
    ensures forall i :: 24 <= i < 40 ==> ANSWER[i] == REPLY[i - 24]
  {
    var h, a, r := HEAD, ASKED, REPLY;
    assert |h| == 12 && |a| == 12 && |r| == 16;
    assert (h + (a + r))[12..] == a + r;
  }

  lemma NameEncoded()
    ensures Encodes(ANSWER, 0, 12, WWW) && Encodes(ANSWER, 0, 24, Pointer(12, WWW))
  {
    PartsStand();
    assert ASKED[1..4] == [119, 119, 119] && ASKED[5..7] == [100, 101];
    assert ANSWER[13..16] == ANSWER[12..24][1..4] && ANSWER[17..19] == ANSWER[12..24][5..7];
    assert ANSWER[19] == ASKED[7] == 0 && ANSWER[16] == ASKED[4] == 2 && ANSWER[12] == ASKED[0] == 3;
    assert ANSWER[24] == REPLY[0] == 0xC0 && ANSWER[25] == REPLY[1] == 12;
    assert Encodes(ANSWER, 0, 19, Root);
    LabelStands(ANSWER, 0, 16, [100, 101], Root);
    LabelStands(ANSWER, 0, 12, [119, 119, 119], Label([100, 101], Root));
  }

  lemma NameIs()
    ensures AllLabels(WWW) == [[119, 119, 119], [100, 101]] && !Dangling(WWW) && Hops(WWW) == 0 && Linear(WWW) == 8
    ensures Join([[119, 119, 119], [100, 101]]) == WWW_TEXT
  {
    assert AllLabels(Label([100, 101], Root)) == [[100, 101]] && Linear(Label([100, 101], Root)) == 4;
    assert Join([[100, 101]]) == [100, 101] && [[119, 119, 119], [100, 101]][1..] == [[100, 101]];
    assert [119, 119, 119] + ([DOT] + [100, 101]) == WWW_TEXT;
  }

  lemma NameStands()
    ensures NameAt(ANSWER, 0, 12, WWW) && NameAt(ANSWER, 0, 24, Pointer(12, WWW))
    ensures Shown(WWW) == WWW_TEXT == Shown(Pointer(12, WWW)) && Linear(WWW) == 8
  {
    NameEncoded();
    NameIs();
    hide Encodes, Join;
    assert WWW_TEXT + [] == WWW_TEXT;
  }

  lemma HalfStands(data: seq<byte>, pos: nat, hi: byte, lo: byte)
    requires pos + 2 <= |data| && data[pos] == hi && data[pos + 1] == lo
    ensures At(data, pos, U16(256 * hi as int + lo as int))
  {
  }

  lemma HeadStands()
    ensures HeaderAt(ANSWER, 0, AS_MEANT)
  {
    PartsStand();
    var h := HEAD;
    assert h[0] == 0x12 && h[1] == 0x34 && h[2] == 0x81 && h[3] == 0x83 && h[4] == 0 && h[5] == 1 && h[6] == 0 && h[7] == 1;
    assert h[8] == 0 && h[9] == 0 && h[10] == 0 && h[11] == 0;
    hide At, U16;
    HalfStands(ANSWER, 0, 0x12, 0x34);
    HalfStands(ANSWER, 2, 0x81, 0x83);
    HalfStands(ANSWER, 4, 0, 1);
    HalfStands(ANSWER, 6, 0, 1);
    HalfStands(ANSWER, 8, 0, 0);
    HalfStands(ANSWER, 10, 0, 0);
  }

  lemma TailStands()
    ensures At(ANSWER, 30, U32(3600)) && At(ANSWER, 36, [192, 168, 0, 1])
  {
    PartsStand();
    assert REPLY[6..10] == [0, 0, 0x0E, 0x10] == U32(3600) && REPLY[12..16] == [192, 168, 0, 1];
    assert ANSWER[30..34] == ANSWER[24..40][6..10] && ANSWER[36..40] == ANSWER[24..40][12..16];
  }

  lemma FieldsStand()
    ensures At(ANSWER, 20, U16(1)) && At(ANSWER, 22, U16(1)) && At(ANSWER, 26, U16(1)) && At(ANSWER, 28, U16(1))
    ensures At(ANSWER, 34, U16(4))
  {
    PartsStand();
    var q, r := ASKED, REPLY;
    assert q[8] == 0 && q[9] == 1 && q[10] == 0 && q[11] == 1 && r[2] == 0 && r[3] == 1 && r[4] == 0 && r[5] == 1;
    assert r[10] == 0 && r[11] == 4;
    hide At, U16, U32;
    HalfStands(ANSWER, 20, 0, 1);
    HalfStands(ANSWER, 22, 0, 1);
    HalfStands(ANSWER, 26, 0, 1);
    HalfStands(ANSWER, 28, 0, 1);
    HalfStands(ANSWER, 34, 0, 4);
  }

  lemma SectionsEnd()
    ensures AnswersStart(0, AS_MEANT) == 24 && AuthoritiesStart(0, AS_MEANT) == 40 == AdditionalsStart(0, AS_MEANT)
    ensures AS_MEANT.questions[1..] == [] && AS_MEANT.answers[1..] == []
    ensures QuestionsOf(AS_MEANT.questions) == [Question(Shown(WWW), 1, 1)]
    ensures RecordsOf(AS_MEANT.answers) == [Record(Shown(Pointer(12, WWW)), 1, 1, 3600, A([192, 168, 0, 1]))]
  {
    NameIs();
    hide Linear, Shown, AllLabels, Join, Dangling, Hops;
    assert Linear(Pointer(12, WWW)) == 2 by { PointerIsShort(); }
    assert AskedEnd(12, AS_MEANT.questions) == AskedEnd(24, AS_MEANT.questions[1..]) == 24;
    assert AllEnd(24, AS_MEANT.answers) == AllEnd(40, AS_MEANT.answers[1..]) == 40;
    assert QuestionsOf([]) == [] && RecordsOf([]) == [];
  }

  lemma PointerIsShort()
    ensures Linear(Pointer(12, WWW)) == 2
  {
  }

  lemma MessageStands()
    ensures MessageAt(ANSWER, 0, AS_MEANT)
  {
    NameStands();
    PointerIsShort();
    HeadStands();
    FieldsStand();
    TailStands();
    PartsStand();
    SectionsEnd();
    hide At, U16, U32, NameAt, HeaderAt, Linear, Shown, AnswersStart, AuthoritiesStart, AdditionalsStart;
    assert LaidAt(ANSWER, 0, 24, AS_MEANT.answers[0]);
    assert AllLaid(ANSWER, 0, 24, AS_MEANT.answers);
    assert AllAsked(ANSWER, 0, 12, AS_MEANT.questions);
  }

  /** The decoder reads exactly that: a response with code 3, one question, one address, from the first byte to the last. */
  lemma AnswerRead()
    ensures TryDecode(ANSWER, 0) == Some(Info(
      0x1234, true, 3, [Question(WWW_TEXT, 1, 1)], [Record(WWW_TEXT, 1, 1, 3600, A([192, 168, 0, 1]))], [], [], 0, 40))
  {
    MessageStands();
    NameStands();
    SectionsEnd();
    hide MessageAt, NameAt, Shown, Encodes, TryDecode, Linear, RecordsOf, QuestionsOf, AnswersStart, AuthoritiesStart,
      AdditionalsStart;
    MessageRead(ANSWER, 0, AS_MEANT);
    assert RecordsOf([]) == [] && AllEnd(40, []) == 40 by { NoRecords(); }
  }

  lemma NoRecords()
    ensures RecordsOf([]) == [] && AllEnd(40, []) == 40
  {
  }
}
