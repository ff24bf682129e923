/**
 DNS messages (`decode/dns.rs`, section 4.1 of RFC 1035): header, questions and resource
 records, read from any byte string.
 */
module DnsMessages {
  import opened Bytes
  import opened DnsNames

  datatype Rdata =
    | A(octets: seq<byte>)
    | Aaaa(octets: seq<byte>)
    | Cname(name: Text)
    | Ns(name: Text)
    | Ptr(name: Text)
    | Mx(preference: u16, name: Text)
    | Txt(strings: seq<Text>)
    | Srv(priority: u16, weight: u16, port: u16, name: Text)
    | Soa(mname: Text, rname: Text, serial: u32, refresh: u32, retry: u32, expire: u32, minimum: u32)
    | Unknown(rtype: u16, data: seq<byte>)

  datatype Record = Record(name: Text, rtype: u16, rclass: u16, ttl: u32, rdata: Rdata)

  datatype Question = Question(qname: Text, qtype: u16, qclass: u16)

  datatype Info = Info(
    transactionId: u16, isResponse: bool, rcode: int, questions: seq<Question>,
    answers: seq<Record>, authorities: seq<Record>, additionals: seq<Record>, start: nat, end: nat)

  function U16At(data: seq<byte>, pos: nat): u16
    requires pos + 2 <= |data|
  {
    Be16(data[pos], data[pos + 1])
  }

  function U32At(data: seq<byte>, pos: nat): u32
    requires pos + 4 <= |data|
  {
    Be32(data[pos], data[pos + 1], data[pos + 2], data[pos + 3])
  }

  // ---------------------------------------------------------------- record data

  /** Character strings up to `end`; one that does not fit ends the list. */
  function Strings(data: seq<byte>, p: nat, end: nat): seq<Text>
    requires end <= |data|
    decreases end - p
  {
    if p >= end then [] else
    var next := p + 1 + data[p];
    if next > end then [] else [data[p + 1..next]] + Strings(data, next, end)
  }

  function SoaAt(data: seq<byte>, pos: nat, base: nat): Option<Rdata> {
    var m := ParseName(data, pos, base, 0);
    if m.None? then None else
    var r := ParseName(data, m.value.1, base, 0);
    if r.None? then None else
    var p := r.value.1;
    if p + 20 > |data| then None else
    Some(Soa(m.value.0, r.value.0, U32At(data, p), U32At(data, p + 4), U32At(data, p + 8), U32At(data, p + 12), U32At(data, p + 16)))
  }

  function ParseRdata(data: seq<byte>, pos: nat, rdlen: nat, base: nat, rtype: u16): Rdata
    requires pos + rdlen <= |data|
  {
    var unknown := Unknown(rtype, data[pos..pos + rdlen]);
    if rtype == 1 && rdlen == 4 then A(data[pos..pos + 4])
    else if rtype == 28 && rdlen == 16 then Aaaa(data[pos..pos + 16])
    else if rtype == 5 || rtype == 2 || rtype == 12 then
      var n := ParseName(data, pos, base, 0);
      if n.None? then unknown
      else if rtype == 5 then Cname(n.value.0) else if rtype == 2 then Ns(n.value.0) else Ptr(n.value.0)
    else if rtype == 15 && rdlen >= 3 then
      var n := ParseName(data, pos + 2, base, 0);
      if n.None? then unknown else Mx(U16At(data, pos), n.value.0)
    else if rtype == 16 then Txt(Strings(data, pos, pos + rdlen))
    else if rtype == 33 && rdlen >= 6 then
      var n := ParseName(data, pos + 6, base, 0);
      if n.None? then unknown else Srv(U16At(data, pos), U16At(data, pos + 2), U16At(data, pos + 4), n.value.0)
    else if rtype == 6 then
      var soa := SoaAt(data, pos, base);
      if soa.None? then unknown else soa.value
    else unknown
  }

  // ---------------------------------------------------------------- records and questions

  function ParseRr(data: seq<byte>, start: nat, base: nat): (r: Option<(Record, nat)>)
    ensures r.Some? ==> start + 11 <= r.value.1 <= |data|
  {
    var n := ParseName(data, start, base, 0);
    if n.None? then None else
    var pos := n.value.1;
    if pos + 10 > |data| then None else
    var rdlen := U16At(data, pos + 8);
    if pos + 10 + rdlen > |data| then None else
    var rtype := U16At(data, pos);
    Some((Record(n.value.0, rtype, U16At(data, pos + 2), U32At(data, pos + 4), ParseRdata(data, pos + 10, rdlen, base, rtype)),
          pos + 10 + rdlen))
  }

  /** Up to `count` records from `pos`, and where they end. */
  function ParseRecords(data: seq<byte>, pos: nat, base: nat, count: nat): (r: (seq<Record>, nat))
    decreases count
  {
    if count == 0 then ([], pos) else
    var rr := ParseRr(data, pos, base);
    if rr.None? then ([], pos) else
    var (more, end) := ParseRecords(data, rr.value.1, base, count - 1);
    ([rr.value.0] + more, end)
  }

  /** The questions; a bad name refuses the message, a cut-off question ends the list after its name. */
  function ParseQuestions(data: seq<byte>, pos: nat, base: nat, count: nat): (r: Option<(seq<Question>, nat)>)
    decreases count
  {
    if count == 0 then Some(([], pos)) else
    var n := ParseName(data, pos, base, 0);
    if n.None? then None else
    var p := n.value.1;
    if p + 4 > |data| then Some(([], p)) else
    var more := ParseQuestions(data, p + 4, base, count - 1);
    if more.None? then None
    else Some(([Question(n.value.0, U16At(data, p), U16At(data, p + 2))] + more.value.0, more.value.1))
  }

  function TryDecode(data: seq<byte>, offset: nat): Option<Info> {
    if offset > |data| || |data| - offset < 12 then None else
    var flags := U16At(data, offset + 2);
    var qd, an, ns, ar := U16At(data, offset + 4), U16At(data, offset + 6), U16At(data, offset + 8), U16At(data, offset + 10);
    if qd > 100 || an > 4096 || ns > 4096 || ar > 4096 then None else
    var qs := ParseQuestions(data, offset + 12, offset, qd);
    if qs.None? || qs.value.0 == [] then None else
    var (answers, p1) := ParseRecords(data, qs.value.1, offset, an);
    var (authorities, p2) := ParseRecords(data, p1, offset, ns);
    var (additionals, p3) := ParseRecords(data, p2, offset, ar);
    Some(Info(U16At(data, offset), flags >= 0x8000, flags % 16, qs.value.0, answers, authorities, additionals,
              offset, if p3 <= |data| then p3 else |data|))
  }

  // ---------------------------------------------------------------- the loops

  method ReadStrings(data: seq<byte>, start: nat, end: nat) returns (strings: seq<Text>)
    requires end <= |data|
    ensures strings == Strings(data, start, end)
  {
    strings := [];
    var p := start;
    while p < end
      invariant p >= 0
      invariant strings + Strings(data, p, end) == Strings(data, start, end)
      decreases end - p
    {
      ghost var rest := Strings(data, p, end);
      var len := data[p];
      p := p + 1;
      if p + len > end {
        assert rest == [];
        break;
      }
      assert strings + rest == (strings + [data[p..p + len]]) + Strings(data, p + len, end);
      strings := strings + [data[p..p + len]];
      p := p + len;
    }
  }

  method ReadRecords(data: seq<byte>, start: nat, base: nat, count: nat) returns (out: seq<Record>, pos: nat)
    ensures (out, pos) == ParseRecords(data, start, base, count)
  {
    hide ParseRr;
    out, pos := [], start;
    assert [] + ParseRecords(data, start, base, count).0 == ParseRecords(data, start, base, count).0;
    for i := 0 to count
      invariant var (rest, end) := ParseRecords(data, pos, base, count - i);
        (out + rest, end) == ParseRecords(data, start, base, count)
    {
      ghost var rest := ParseRecords(data, pos, base, count - i).0;
      var rr := ParseRr(data, pos, base);
      if rr.None? {
        assert out + [] == out;
        return;
      }
      assert out + rest == (out + [rr.value.0]) + ParseRecords(data, rr.value.1, base, count - i - 1).0;
      out := out + [rr.value.0];
      pos := rr.value.1;
    }
    assert out + [] == out;
  }

  method ReadQuestions(data: seq<byte>, start: nat, base: nat, count: nat) returns (ok: bool, out: seq<Question>, pos: nat)
    ensures ParseQuestions(data, start, base, count) == if ok then Some((out, pos)) else None
  {
    hide U16At, ParseName;
    ok, out, pos := true, [], start;
    assert ParseQuestions(data, start, base, count).Some? ==>
      [] + ParseQuestions(data, start, base, count).value.0 == ParseQuestions(data, start, base, count).value.0;
    for i := 0 to count
      invariant ok
      invariant var rest := ParseQuestions(data, pos, base, count - i);
        ParseQuestions(data, start, base, count)
        == if rest.None? then None else Some((out + rest.value.0, rest.value.1))
    {
      ghost var rest := ParseQuestions(data, pos, base, count - i);
      var n := ParseName(data, pos, base, 0);
      if n.None? {
        ok := false;
        return;
      }
      pos := n.value.1;
      if pos + 4 > |data| {
        assert out + [] == out;
        return;
      }
      var q := Question(n.value.0, U16At(data, pos), U16At(data, pos + 2));
      ghost var more := ParseQuestions(data, pos + 4, base, count - i - 1);
      assert more.Some? ==> out + ([q] + more.value.0) == (out + [q]) + more.value.0;
      out := out + [q];
      pos := pos + 4;
    }
    assert out + [] == out;
  }

  method TryDecodeDns(data: seq<byte>, offset: nat) returns (info: Option<Info>)
    ensures info == TryDecode(data, offset)
  {
    if offset > |data| || |data| - offset < 12 {
      return None;
    }
    var flags := U16At(data, offset + 2);
    var qd, an := U16At(data, offset + 4), U16At(data, offset + 6);
    var ns, ar := U16At(data, offset + 8), U16At(data, offset + 10);
    if qd > 100 || an > 4096 || ns > 4096 || ar > 4096 {
      return None;
    }
    var ok, questions, pos := ReadQuestions(data, offset + 12, offset, qd);
    if !ok || questions == [] {
      return None;
    }
    var answers, authorities, additionals;
    answers, pos := ReadRecords(data, pos, offset, an);
    authorities, pos := ReadRecords(data, pos, offset, ns);
    additionals, pos := ReadRecords(data, pos, offset, ar);
    return Some(Info(U16At(data, offset), flags >= 0x8000, flags % 16, questions, answers, authorities, additionals,
                     offset, if pos <= |data| then pos else |data|));
  }

  // ---------------------------------------------------------------- bounds

  lemma {:induction false} RecordsBounded(data: seq<byte>, pos: nat, base: nat, count: nat)
    requires pos <= |data|
    ensures var (rs, end) := ParseRecords(data, pos, base, count);
      |rs| <= count && pos + 11 * |rs| <= end <= |data|
    decreases count
  {
    hide ParseRr;
    if count > 0 {
      var rr := ParseRr(data, pos, base);
      if rr.Some? {
        RecordsBounded(data, rr.value.1, base, count - 1);
      }
    }
  }

  lemma {:induction false} QuestionsBounded(data: seq<byte>, pos: nat, base: nat, count: nat)
    requires pos <= |data|
    ensures var r := ParseQuestions(data, pos, base, count);
      r.Some? ==> |r.value.0| <= count && pos + 5 * |r.value.0| <= r.value.1 <= |data|
    decreases count
  {
    if count > 0 {
      var n := ParseName(data, pos, base, 0);
      if n.Some? && n.value.1 + 4 <= |data| {
        QuestionsBounded(data, n.value.1 + 4, base, count - 1);
      }
    }
  }

  /**
   BOUNDS. For every byte string and offset, decoding terminates with every index in range,
   and a decoded message has room for all it reports: 12 bytes of header, at least 5 for each
   question and at least 11 for each record, all inside the data.
   */
  lemma MessageBounded(data: seq<byte>, offset: nat)
    requires TryDecode(data, offset).Some?
    ensures var m := TryDecode(data, offset).value;
      && m.start == offset && m.questions != []
      && offset + 12 + 5 * |m.questions| + 11 * (|m.answers| + |m.authorities| + |m.additionals|) <= m.end <= |data|
  {
    var qd, an, ns, ar := U16At(data, offset + 4), U16At(data, offset + 6), U16At(data, offset + 8), U16At(data, offset + 10);
    QuestionsBounded(data, offset + 12, offset, qd);
    var p0 := ParseQuestions(data, offset + 12, offset, qd).value.1;
    RecordsBounded(data, p0, offset, an);
    var p1 := ParseRecords(data, p0, offset, an).1;
    RecordsBounded(data, p1, offset, ns);
    RecordsBounded(data, ParseRecords(data, p1, offset, ns).1, offset, ar);
  }
}
