/**
 Whole DNS messages as they are laid out (sections 3.3 and 4.1 of RFC 1035, RFC 2782, RFC 3596), with
 names compressed in any way, and the proof that the decoder reads them back.
 */
module DnsLayouts {
  import opened Bytes
  import opened DnsNames
  import opened DnsMessages

  // ---------------------------------------------------------------- fixed fields

  function U16(x: u16): seq<byte> {
    [x / 0x100, x % 0x100]
  }

  function U32(x: u32): seq<byte> {
    [x / 0x100_0000, x / 0x1_0000 % 0x100, x / 0x100 % 0x100, x % 0x100]
  }

  predicate At(data: seq<byte>, pos: nat, enc: seq<byte>) {
    pos + |enc| <= |data| && data[pos..pos + |enc|] == enc
  }

  lemma U16Read(data: seq<byte>, pos: nat, x: u16)
    requires At(data, pos, U16(x))
    ensures pos + 2 <= |data| && U16At(data, pos) == x
  {
    var w := data[pos..pos + 2];
    assert w[0] == data[pos] && w[1] == data[pos + 1];
  }

  lemma U32Read(data: seq<byte>, pos: nat, x: u32)
    requires At(data, pos, U32(x))
    ensures pos + 4 <= |data| && U32At(data, pos) == x
  {
    var w := data[pos..pos + 4];
    assert w[0] == data[pos] && w[1] == data[pos + 1] && w[2] == data[pos + 2] && w[3] == data[pos + 3];
    Split32(x);
  }

  // ---------------------------------------------------------------- names

  /** `n` stands at `pos` and is within the parser's reach. */
  predicate NameAt(data: seq<byte>, base: nat, pos: nat, n: Name) {
    Encodes(data, base, pos, n) && Hops(n) <= 128
  }

  /** The text the parser shows for a name. */
  function Shown(n: Name): Text {
    Join(AllLabels(n)) + if Dangling(n) then [DOT] else []
  }

  lemma NameShown(data: seq<byte>, base: nat, pos: nat, n: Name)
    requires NameAt(data, base, pos, n)
    ensures ParseName(data, pos, base, 0) == Some((Shown(n), pos + Linear(n)))
  {
    NameParsed(data, base, pos, n);
  }

  // ---------------------------------------------------------------- character strings

  /** TXT data: each string preceded by its length (section 3.3 of RFC 1035). */
  function EncodeStrings(ss: seq<Text>): seq<byte>
    requires forall s <- ss :: |s| < 256
  {
    if ss == [] then [] else [|ss[0]|] + ss[0] + EncodeStrings(ss[1..])
  }

  lemma {:induction false} StringsInvert(data: seq<byte>, p: nat, ss: seq<Text>)
    requires forall s <- ss :: |s| < 256
    requires var enc := EncodeStrings(ss); p + |enc| <= |data| && data[p..p + |enc|] == enc
    ensures Strings(data, p, p + |EncodeStrings(ss)|) == ss
    decreases |ss|
  {
    if ss != [] {
      var enc, s, rest := EncodeStrings(ss), ss[0], EncodeStrings(ss[1..]);
      var w := data[p..p + |enc|];
      assert data[p] == w[0] == |s|;
      assert data[p + 1..p + 1 + |s|] == w[1..1 + |s|] == s;
      assert data[p + 1 + |s|..p + |enc|] == w[1 + |s|..] == rest;
      StringsInvert(data, p + 1 + |s|, ss[1..]);
    }
  }

  // ---------------------------------------------------------------- record data

  /** The data of a record as meant; `Other` is data the decoder hands on unread. */
  datatype Payload =
    | Address4(octets: seq<byte>)
    | Address6(octets: seq<byte>)
    | Alias(name: Name)
    | Server(name: Name)
    | Reverse(name: Name)
    | Mail(preference: u16, name: Name)
    | Notes(strings: seq<Text>)
    | Service(priority: u16, weight: u16, port: u16, name: Name)
    | Authority(mname: Name, rname: Name, serial: u32, refresh: u32, retry: u32, expire: u32, minimum: u32)
    | Other(rtype: u16, bytes: seq<byte>)

  function TypeOf(d: Payload): u16 {
    match d
    case Address4(_) => 1
    case Address6(_) => 28
    case Alias(_) => 5
    case Server(_) => 2
    case Reverse(_) => 12
    case Mail(_, _) => 15
    case Notes(_) => 16
    case Service(_, _, _, _) => 33
    case Authority(_, _, _, _, _, _, _) => 6
    case Other(t, _) => t
  }

  /** Types the decoder does not know, and data too short or too long for the type. */
  predicate Unread(t: u16, len: nat) {
    match t
    case 1 => len != 4
    case 28 => len != 16
    case 15 => len < 3
    case 33 => len < 6
    case _ => t !in {2, 5, 6, 12, 16}
  }

  /** The payload stands at `pos` in `len` bytes. */
  predicate PayloadAt(data: seq<byte>, base: nat, pos: nat, len: nat, d: Payload) {
    && pos + len <= |data|
    && match d {
      case Address4(octets) => len == |octets| == 4 && At(data, pos, octets)
      case Address6(octets) => len == |octets| == 16 && At(data, pos, octets)
      case Alias(n) => len == Linear(n) && NameAt(data, base, pos, n)
      case Server(n) => len == Linear(n) && NameAt(data, base, pos, n)
      case Reverse(n) => len == Linear(n) && NameAt(data, base, pos, n)
      case Mail(p, n) => len == 2 + Linear(n) && At(data, pos, U16(p)) && NameAt(data, base, pos + 2, n)
      case Notes(ss) => (forall s <- ss :: |s| < 256) && len == |EncodeStrings(ss)| && At(data, pos, EncodeStrings(ss))
      case Service(p, w, port, n) =>
        && len == 6 + Linear(n) && At(data, pos, U16(p)) && At(data, pos + 2, U16(w)) && At(data, pos + 4, U16(port))
        && NameAt(data, base, pos + 6, n)
      case Authority(m, r, serial, refresh, retry, expire, minimum) =>
        var q := pos + Linear(m);
        var p := q + Linear(r);
        && len == Linear(m) + Linear(r) + 20 && NameAt(data, base, pos, m) && NameAt(data, base, q, r)
        && At(data, p, U32(serial)) && At(data, p + 4, U32(refresh)) && At(data, p + 8, U32(retry))
        && At(data, p + 12, U32(expire)) && At(data, p + 16, U32(minimum))
      case Other(t, bytes) => Unread(t, len) && len == |bytes| && At(data, pos, bytes)
    }
  }

  /** What the decoder is to report for it. */
  function Reported(d: Payload): Rdata {
    match d
    case Address4(octets) => A(octets)
    case Address6(octets) => Aaaa(octets)
    case Alias(n) => Cname(Shown(n))
    case Server(n) => Ns(Shown(n))
    case Reverse(n) => Ptr(Shown(n))
    case Mail(p, n) => Mx(p, Shown(n))
    case Notes(ss) => Txt(ss)
    case Service(p, w, port, n) => Srv(p, w, port, Shown(n))
    case Authority(m, r, serial, refresh, retry, expire, minimum) =>
      Soa(Shown(m), Shown(r), serial, refresh, retry, expire, minimum)
    case Other(t, bytes) => Unknown(t, bytes)
  }

  lemma AuthorityRead(data: seq<byte>, base: nat, pos: nat, len: nat, d: Payload)
    requires d.Authority? && PayloadAt(data, base, pos, len, d)
    ensures ParseRdata(data, pos, len, base, 6) == Reported(d)
  {
    hide Encodes, Hops, U32, U32At, Join, AllLabels, Dangling;
    var q := pos + Linear(d.mname);
    var p := q + Linear(d.rname);
    NameShown(data, base, pos, d.mname);
    NameShown(data, base, q, d.rname);
    U32Read(data, p, d.serial);
    U32Read(data, p + 4, d.refresh);
    U32Read(data, p + 8, d.retry);
    U32Read(data, p + 12, d.expire);
    U32Read(data, p + 16, d.minimum);
    assert SoaAt(data, pos, base) == Some(Reported(d));
  }

  lemma ServiceRead(data: seq<byte>, base: nat, pos: nat, len: nat, d: Payload)
    requires d.Service? && PayloadAt(data, base, pos, len, d)
    ensures ParseRdata(data, pos, len, base, 33) == Reported(d)
  {
    hide NameAt, U16, U16At, Shown, SoaAt;
    U16Read(data, pos, d.priority);
    U16Read(data, pos + 2, d.weight);
    U16Read(data, pos + 4, d.port);
    NameShown(data, base, pos + 6, d.name);
  }

  lemma MailRead(data: seq<byte>, base: nat, pos: nat, len: nat, d: Payload)
    requires d.Mail? && PayloadAt(data, base, pos, len, d)
    ensures ParseRdata(data, pos, len, base, 15) == Reported(d)
  {
    hide NameAt, U16, U16At, Shown, SoaAt;
    U16Read(data, pos, d.preference);
    NameShown(data, base, pos + 2, d.name);
  }

  /** The data of a record is read as meant, for every type. */
  lemma PayloadRead(data: seq<byte>, base: nat, pos: nat, len: nat, d: Payload)
    requires PayloadAt(data, base, pos, len, d)
    ensures ParseRdata(data, pos, len, base, TypeOf(d)) == Reported(d)
  {
    hide NameAt, U16, U32, U16At, Shown, SoaAt;
    match d
    case Alias(n) => NameShown(data, base, pos, n);
    case Server(n) => NameShown(data, base, pos, n);
    case Reverse(n) => NameShown(data, base, pos, n);
    case Mail(_, _) => MailRead(data, base, pos, len, d);
    case Notes(ss) => StringsInvert(data, pos, ss);
    case Service(_, _, _, _) => ServiceRead(data, base, pos, len, d);
    case Authority(_, _, _, _, _, _, _) => AuthorityRead(data, base, pos, len, d);
    case _ =>
  }

  // ---------------------------------------------------------------- records

  /** A record as laid out: an encoded name, ten fixed bytes, and its data in `len` bytes. */
  datatype Laid = Laid(name: Name, rclass: u16, ttl: u32, len: u16, payload: Payload)

  predicate LaidAt(data: seq<byte>, base: nat, pos: nat, l: Laid) {
    var p := pos + Linear(l.name);
    && NameAt(data, base, pos, l.name)
    && At(data, p, U16(TypeOf(l.payload))) && At(data, p + 2, U16(l.rclass)) && At(data, p + 4, U32(l.ttl))
    && At(data, p + 8, U16(l.len)) && PayloadAt(data, base, p + 10, l.len, l.payload)
  }

  function LaidEnd(pos: nat, l: Laid): nat {
    pos + Linear(l.name) + 10 + l.len
  }

  predicate AllLaid(data: seq<byte>, base: nat, pos: nat, ls: seq<Laid>)
    decreases |ls|
  {
    ls == [] || (LaidAt(data, base, pos, ls[0]) && AllLaid(data, base, LaidEnd(pos, ls[0]), ls[1..]))
  }

  function AllEnd(pos: nat, ls: seq<Laid>): nat
    decreases |ls|
  {
    if ls == [] then pos else AllEnd(LaidEnd(pos, ls[0]), ls[1..])
  }

  function RecordOf(l: Laid): Record {
    Record(Shown(l.name), TypeOf(l.payload), l.rclass, l.ttl, Reported(l.payload))
  }

  function RecordsOf(ls: seq<Laid>): seq<Record> {
    if ls == [] then [] else [RecordOf(ls[0])] + RecordsOf(ls[1..])
  }

  lemma RecordRead(data: seq<byte>, base: nat, pos: nat, l: Laid)
    requires LaidAt(data, base, pos, l)
    ensures ParseRr(data, pos, base) == Some((RecordOf(l), LaidEnd(pos, l)))
  {
    hide ParseRdata, U16, U32, U16At, U32At, NameAt, Shown, Reported, PayloadAt, TypeOf;
    var p := pos + Linear(l.name);
    NameShown(data, base, pos, l.name);
    U16Read(data, p, TypeOf(l.payload));
    U16Read(data, p + 2, l.rclass);
    U32Read(data, p + 4, l.ttl);
    U16Read(data, p + 8, l.len);
    PayloadFits(data, base, p + 10, l.len, l.payload);
    PayloadRead(data, base, p + 10, l.len, l.payload);
  }

  lemma PayloadFits(data: seq<byte>, base: nat, pos: nat, len: nat, d: Payload)
    requires PayloadAt(data, base, pos, len, d)
    ensures pos + len <= |data|
  {
  }

  lemma OneMore(data: seq<byte>, base: nat, pos: nat, count: nat, r: Record, end: nat)
    requires count > 0 && ParseRr(data, pos, base) == Some((r, end))
    ensures var (more, last) := ParseRecords(data, end, base, count - 1);
      ParseRecords(data, pos, base, count) == ([r] + more, last)
  {
    hide ParseRr;
  }

  /** However its names are compressed, a section of laid-out records is read as exactly those records. */
  lemma {:induction false} SectionRead(data: seq<byte>, base: nat, pos: nat, ls: seq<Laid>)
    requires AllLaid(data, base, pos, ls)
    ensures ParseRecords(data, pos, base, |ls|) == (RecordsOf(ls), AllEnd(pos, ls))
    decreases |ls|
  {
    hide LaidAt, ParseRr, RecordOf, LaidEnd;
    if ls != [] {
      RecordRead(data, base, pos, ls[0]);
      OneMore(data, base, pos, |ls|, RecordOf(ls[0]), LaidEnd(pos, ls[0]));
      hide ParseRecords;
      SectionRead(data, base, LaidEnd(pos, ls[0]), ls[1..]);
    }
  }

  // ---------------------------------------------------------------- messages

  datatype Asked = Asked(name: Name, qtype: u16, qclass: u16)

  predicate AllAsked(data: seq<byte>, base: nat, pos: nat, qs: seq<Asked>)
    decreases |qs|
  {
    qs == [] ||
    (var p := pos + Linear(qs[0].name);
     && NameAt(data, base, pos, qs[0].name) && At(data, p, U16(qs[0].qtype)) && At(data, p + 2, U16(qs[0].qclass))
     && AllAsked(data, base, p + 4, qs[1..]))
  }

  function AskedEnd(pos: nat, qs: seq<Asked>): nat
    decreases |qs|
  {
    if qs == [] then pos else AskedEnd(pos + Linear(qs[0].name) + 4, qs[1..])
  }

  function QuestionsOf(qs: seq<Asked>): (r: seq<Question>)
    ensures |r| == |qs|
  {
    if qs == [] then [] else [Question(Shown(qs[0].name), qs[0].qtype, qs[0].qclass)] + QuestionsOf(qs[1..])
  }

  lemma {:induction false} QuestionsRead(data: seq<byte>, base: nat, pos: nat, qs: seq<Asked>)
    requires AllAsked(data, base, pos, qs)
    ensures ParseQuestions(data, pos, base, |qs|) == Some((QuestionsOf(qs), AskedEnd(pos, qs)))
    decreases |qs|
  {
    if qs != [] {
      hide NameAt, U16, U16At, Shown;
      var p := pos + Linear(qs[0].name);
      NameShown(data, base, pos, qs[0].name);
      U16Read(data, p, qs[0].qtype);
      U16Read(data, p + 2, qs[0].qclass);
      QuestionsRead(data, base, p + 4, qs[1..]);
    }
  }

  datatype Message = Message(
    id: u16, flags: u16, questions: seq<Asked>, answers: seq<Laid>, authorities: seq<Laid>, additionals: seq<Laid>)

  /** The header's counts are within 16 bits. */
  predicate Countable(m: Message) {
    && 1 <= |m.questions| < 0x1_0000
    && |m.answers| < 0x1_0000 && |m.authorities| < 0x1_0000 && |m.additionals| < 0x1_0000
  }

  /** The twelve bytes every message opens with. */
  predicate HeaderAt(data: seq<byte>, offset: nat, m: Message)
    requires Countable(m)
  {
    && At(data, offset, U16(m.id)) && At(data, offset + 2, U16(m.flags))
    && At(data, offset + 4, U16(|m.questions|)) && At(data, offset + 6, U16(|m.answers|))
    && At(data, offset + 8, U16(|m.authorities|)) && At(data, offset + 10, U16(|m.additionals|))
  }

  /** The message stands at `offset`, its sections one after another. */
  predicate MessageAt(data: seq<byte>, offset: nat, m: Message) {
    && Countable(m) && HeaderAt(data, offset, m)
    && AllAsked(data, offset, offset + 12, m.questions)
    && AllLaid(data, offset, AnswersStart(offset, m), m.answers)
    && AllLaid(data, offset, AuthoritiesStart(offset, m), m.authorities)
    && AllLaid(data, offset, AdditionalsStart(offset, m), m.additionals)
  }

  function AnswersStart(offset: nat, m: Message): nat {
    AskedEnd(offset + 12, m.questions)
  }

  function AuthoritiesStart(offset: nat, m: Message): nat {
    AllEnd(AnswersStart(offset, m), m.answers)
  }

  function AdditionalsStart(offset: nat, m: Message): nat {
    AllEnd(AuthoritiesStart(offset, m), m.authorities)
  }

  /** The decoder's bounds on the counts. */
  predicate WithinBounds(m: Message) {
    |m.questions| <= 100 && |m.answers| <= 4096 && |m.authorities| <= 4096 && |m.additionals| <= 4096
  }

  function InfoOf(offset: nat, m: Message): Info {
    Info(m.id, m.flags >= 0x8000, m.flags % 16, QuestionsOf(m.questions), RecordsOf(m.answers),
         RecordsOf(m.authorities), RecordsOf(m.additionals), offset, AllEnd(AdditionalsStart(offset, m), m.additionals))
  }

  lemma {:induction false} SectionEnds(data: seq<byte>, base: nat, pos: nat, ls: seq<Laid>)
    requires AllLaid(data, base, pos, ls) && pos <= |data|
    ensures pos <= AllEnd(pos, ls) <= |data|
    decreases |ls|
  {
    if ls != [] {
      PayloadFits(data, base, pos + Linear(ls[0].name) + 10, ls[0].len, ls[0].payload);
      hide LaidAt;
      SectionEnds(data, base, LaidEnd(pos, ls[0]), ls[1..]);
    }
  }

  lemma {:induction false} QuestionsEnd(data: seq<byte>, base: nat, pos: nat, qs: seq<Asked>)
    requires AllAsked(data, base, pos, qs) && pos <= |data|
    ensures pos <= AskedEnd(pos, qs) <= |data|
    decreases |qs|
  {
    if qs != [] {
      QuestionsEnd(data, base, pos + Linear(qs[0].name) + 4, qs[1..]);
    }
  }

  lemma HeaderRead(data: seq<byte>, offset: nat, m: Message)
    requires Countable(m) && HeaderAt(data, offset, m)
    ensures offset + 12 <= |data| && U16At(data, offset) == m.id && U16At(data, offset + 2) == m.flags
    ensures U16At(data, offset + 4) == |m.questions| && U16At(data, offset + 6) == |m.answers|
    ensures U16At(data, offset + 8) == |m.authorities| && U16At(data, offset + 10) == |m.additionals|
  {
    hide U16, U16At;
    U16Read(data, offset, m.id);
    U16Read(data, offset + 2, m.flags);
    U16Read(data, offset + 4, |m.questions|);
    U16Read(data, offset + 6, |m.answers|);
    U16Read(data, offset + 8, |m.authorities|);
    U16Read(data, offset + 10, |m.additionals|);
  }

  /**
   MESSAGES. A whole message laid out anywhere in the data, its names compressed in any way, is read
   back: header, questions and all three sections, if and only if its counts are within bounds.
   */
  lemma MessageRead(data: seq<byte>, offset: nat, m: Message)
    requires MessageAt(data, offset, m)
    ensures TryDecode(data, offset) == if WithinBounds(m) then Some(InfoOf(offset, m)) else None
  {
    hide HeaderAt, U16At, AllAsked, AllLaid, ParseQuestions, ParseRecords, RecordsOf, QuestionsOf, AskedEnd, AllEnd;
    HeaderRead(data, offset, m);
    QuestionsRead(data, offset, offset + 12, m.questions);
    SectionRead(data, offset, AnswersStart(offset, m), m.answers);
    SectionRead(data, offset, AuthoritiesStart(offset, m), m.authorities);
    SectionRead(data, offset, AdditionalsStart(offset, m), m.additionals);
    QuestionsEnd(data, offset, offset + 12, m.questions);
    SectionEnds(data, offset, AnswersStart(offset, m), m.answers);
    SectionEnds(data, offset, AuthoritiesStart(offset, m), m.authorities);
    SectionEnds(data, offset, AdditionalsStart(offset, m), m.additionals);
  }
}
