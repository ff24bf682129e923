/**
 A reference HPACK encoder written from RFC 7541, and the proof that the decoder stays in step
 with it: across successive header blocks it returns the encoder's headers and holds the
 encoder's dynamic table.
 */
module HpackRoundTrip {
  import opened Bytes
  import opened HpackStatic
  import opened HpackAppendix
  import opened HpackIntegers
  import opened Hpack

  // ---------------------------------------------------------------- the reference encoder

  datatype NameRef = NameIndex(i: nat) | NewName(name: Str)

  /** The header field representations of section 6. */
  datatype Repr =
    | IndexedField(i: nat)
    | WithIndexing(name: NameRef, value: Str)
    | WithoutIndexing(name: NameRef, value: Str)
    | NeverIndexed(name: NameRef, value: Str)
    | SizeUpdate(max: nat)

  /** The encoder's own state: static table, dynamic table, and the maximum it last announced. */
  datatype Encoder = Encoder(fixed: seq<Header>, dynamic: seq<Header>, max: nat)

  function FreshEncoder(): Encoder {
    Encoder(AppendixA(), [], 4096)
  }

  /** Section 4.3: entries leave from the end until the rest fits in `room`. */
  function Shrink(dynamic: seq<Header>, room: int): seq<Header> {
    if dynamic == [] || TotalSize(dynamic) <= room then dynamic else Shrink(dynamic[..|dynamic| - 1], room)
  }

  /** Section 4.4: room is made first; an entry larger than the table is not added. */
  function AddEntry(e: Encoder, h: Header): Encoder {
    if EntrySize(h) > e.max then e.(dynamic := [])
    else e.(dynamic := [h] + Shrink(e.dynamic, e.max - EntrySize(h)))
  }

  /** Section 2.3.3: static entries first, then dynamic ones, newest first. */
  function Entry(e: Encoder, i: nat): Header
    requires ValidIndex(e, i)
  {
    if i <= |e.fixed| then e.fixed[i - 1] else e.dynamic[i - |e.fixed| - 1]
  }

  predicate ValidIndex(e: Encoder, i: nat) {
    1 <= i <= |e.fixed| + |e.dynamic|
  }

  predicate ValidName(e: Encoder, n: NameRef) {
    match n
    case NameIndex(i) => ValidIndex(e, i)
    case NewName(s) => ValidText(s)
  }

  /** A length the decoder's integers can carry. */
  predicate ValidText(s: Str) {
    |s| < 127 + TWO_TO_35
  }

  predicate Valid(e: Encoder, r: Repr) {
    match r
    case IndexedField(i) => ValidIndex(e, i)
    case WithIndexing(n, v) => ValidName(e, n) && ValidText(v)
    case WithoutIndexing(n, v) => ValidName(e, n) && ValidText(v)
    case NeverIndexed(n, v) => ValidName(e, n) && ValidText(v)
    case SizeUpdate(max) => max < 31 + TWO_TO_35
  }

  function NameOf(e: Encoder, n: NameRef): Str
    requires ValidName(e, n)
  {
    match n
    case NameIndex(i) => Entry(e, i).0
    case NewName(s) => s
  }

  /** The headers a representation stands for, and the encoder afterwards. */
  function Meaning(e: Encoder, r: Repr): (seq<Header>, Encoder)
    requires Valid(e, r)
  {
    match r
    case IndexedField(i) => ([Entry(e, i)], e)
    case WithIndexing(n, v) => ([(NameOf(e, n), v)], AddEntry(e, (NameOf(e, n), v)))
    case WithoutIndexing(n, v) => ([(NameOf(e, n), v)], e)
    case NeverIndexed(n, v) => ([(NameOf(e, n), v)], e)
    case SizeUpdate(max) => ([], e.(dynamic := Shrink(e.dynamic, max), max := max))
  }

  function EncodeLiteral(prefix: nat, top: nat, n: NameRef, v: Str): seq<byte>
    requires top + Mask(prefix) < 256
  {
    EncodeInt(prefix, top, NameNumber(n)) + AfterNumber(n, v)
  }

  function EncodeRepr(r: Repr): seq<byte> {
    match r
    case IndexedField(i) => EncodeInt(7, 128, i)
    case WithIndexing(n, v) => EncodeLiteral(6, 64, n, v)
    case WithoutIndexing(n, v) => EncodeLiteral(4, 0, n, v)
    case NeverIndexed(n, v) => EncodeLiteral(4, 16, n, v)
    case SizeUpdate(max) => EncodeInt(5, 32, max)
  }

  /** Every representation is valid where it stands. */
  predicate AllValid(e: Encoder, rs: seq<Repr>)
    decreases |rs|
  {
    rs == [] || (Valid(e, rs[0]) && AllValid(Meaning(e, rs[0]).1, rs[1..]))
  }

  function EncodeAll(rs: seq<Repr>): seq<byte> {
    if rs == [] then [] else EncodeRepr(rs[0]) + EncodeAll(rs[1..])
  }

  function MeaningAll(e: Encoder, rs: seq<Repr>): (seq<Header>, Encoder)
    requires AllValid(e, rs)
    decreases |rs|
  {
    if rs == [] then ([], e) else
    var (hs, e1) := Meaning(e, rs[0]);
    var (rest, e2) := MeaningAll(e1, rs[1..]);
    (hs + rest, e2)
  }

  // ---------------------------------------------------------------- tables in step

  ghost predicate Sound(e: Encoder) {
    |e.fixed| == STATIC_LEN && TotalSize(e.dynamic) <= e.max < 31 + TWO_TO_35
  }

  /** The decoder's table is the encoder's. */
  ghost predicate InStep(t: Table, e: Encoder) {
    Accounted(t) && Sound(e) && t.fixed == e.fixed && t.dynamic == e.dynamic && t.maxSize == e.max
  }

  /** The decoder holds at least what the encoder does, and has room for all it can add. */
  ghost predicate Covers(t: Table, e: Encoder) {
    && Accounted(t) && Sound(e) && t.fixed == e.fixed
    && e.dynamic <= t.dynamic && (e.max <= t.maxSize || e.max < 32)
  }

  lemma {:induction false} EvictIsShrink(t: Table)
    requires t.size == TotalSize(t.dynamic)
    ensures Evict(t).dynamic == Shrink(t.dynamic, t.maxSize)
    decreases |t.dynamic|
  {
    if t.size > t.maxSize {
      var n := |t.dynamic| - 1;
      EvictIsShrink(t.(dynamic := t.dynamic[..n], size := t.size - EntrySize(t.dynamic[n])));
    }
  }

  /** Making room and then adding is adding and then evicting. */
  lemma {:induction false} ShrinkAfterAdd(h: Header, dynamic: seq<Header>, max: nat)
    ensures Shrink([h] + dynamic, max)
            == if EntrySize(h) > max then [] else [h] + Shrink(dynamic, max - EntrySize(h))
    decreases |dynamic|
  {
    TotalSizeCons(h, dynamic);
    var all := [h] + dynamic;
    if TotalSize(all) > max {
      if dynamic == [] {
        assert all[..0] == [];
      } else {
        var n := |dynamic| - 1;
        assert all[..|all| - 1] == [h] + dynamic[..n];
        ShrinkAfterAdd(h, dynamic[..n], max);
      }
    }
  }

  lemma {:induction false} ShrinkFits(dynamic: seq<Header>, room: nat)
    ensures Shrink(dynamic, room) <= dynamic && TotalSize(Shrink(dynamic, room)) <= room
  {
    if dynamic != [] && TotalSize(dynamic) > room {
      ShrinkFits(dynamic[..|dynamic| - 1], room);
    }
  }

  /** The longest prefix that fits contains every prefix that fits. */
  lemma FitsWithin(small: seq<Header>, kept: seq<Header>, all: seq<Header>, max: nat)
    requires LongestFit(kept, all, max) && small <= all && TotalSize(small) <= max
    ensures small <= kept
  {
    assert small == all[..|small|];
  }

  lemma AddEntryFits(e: Encoder, h: Header)
    requires Sound(e)
    ensures Sound(AddEntry(e, h)) && AddEntry(e, h).dynamic <= [h] + e.dynamic
    ensures e.max < 32 ==> AddEntry(e, h).dynamic == []
  {
    if EntrySize(h) <= e.max {
      var kept := Shrink(e.dynamic, e.max - EntrySize(h));
      ShrinkFits(e.dynamic, e.max - EntrySize(h));
      TotalSizeCons(h, kept);
    }
  }

  lemma InsertSame(t: Table, h: Header)
    requires Accounted(t)
    ensures Insert(t, h).dynamic
         == if EntrySize(h) > t.maxSize then [] else [h] + Shrink(t.dynamic, t.maxSize - EntrySize(h))
  {
    hide Evict, Shrink;
    TotalSizeCons(h, t.dynamic);
    EvictIsShrink(t.(dynamic := [h] + t.dynamic, size := t.size + EntrySize(h)));
    ShrinkAfterAdd(h, t.dynamic, t.maxSize);
  }

  lemma InsertInStep(t: Table, e: Encoder, h: Header)
    requires Covers(t, e)
    ensures Covers(Insert(t, h), AddEntry(e, h))
    ensures InStep(t, e) ==> InStep(Insert(t, h), AddEntry(e, h))
  {
    InsertFits(t, h);
    InsertSame(t, h);
    AddEntryFits(e, h);
    hide Insert, Shrink, TotalSize, EntrySize;
    if e.max <= t.maxSize {
      assert [h] + e.dynamic <= [h] + t.dynamic;
      FitsWithin(AddEntry(e, h).dynamic, Insert(t, h).dynamic, [h] + t.dynamic, t.maxSize);
    }
  }

  lemma ResizeInStep(t: Table, e: Encoder, max: nat)
    requires Covers(t, e) && max < 31 + TWO_TO_35
    ensures var e' := e.(dynamic := Shrink(e.dynamic, max), max := max);
      Covers(Resize(t, max), e') && (InStep(t, e) ==> InStep(Resize(t, max), e'))
  {
    ResizeFits(t, max);
    ShrinkFits(e.dynamic, max);
    FitsWithin(Shrink(e.dynamic, max), Resize(t, max).dynamic, t.dynamic, max);
    EvictIsShrink(t.(maxSize := max));
  }

  lemma IndexSmall(e: Encoder, i: nat)
    requires Sound(e) && ValidIndex(e, i)
    ensures i < TWO_TO_35
  {
    TotalSizeGrows(e.dynamic, 0, |e.dynamic|);
    assert e.dynamic[..|e.dynamic|] == e.dynamic && e.dynamic[..0] == [];
  }

  /** The table is small enough for every index to be read back. */
  lemma IndexReadable(t: Table, e: Encoder, i: nat)
    requires Covers(t, e) && ValidIndex(e, i)
    ensures i < TWO_TO_35 && Indexed(t, i) == Some(Entry(e, i))
  {
    IndexSmall(e, i);
  }

  // ---------------------------------------------------------------- one representation

  lemma IndexedNameInverts(t: Table, e: Encoder, block: seq<byte>, i: nat, prefix: nat, p: nat, idx: nat, v: Str)
    requires Covers(t, e) && ValidIndex(e, idx) && ValidText(v)
    requires DecodeInt(block, i, prefix) == Some((idx, p)) && Stands(block, p, EncodeStr(v))
    ensures Literal(t, block, i, prefix) == Some(((Entry(e, idx).0, v), p + |EncodeStr(v)|))
  {
    IndexReadable(t, e, idx);
    DecodeStrInverts(block, p, v);
  }

  lemma TwoStringsInvert(block: seq<byte>, p: nat, s: Str, v: Str)
    requires ValidText(s) && ValidText(v) && Stands(block, p, EncodeStr(s) + EncodeStr(v))
    ensures DecodeStr(block, p) == Some((s, p + |EncodeStr(s)|))
    ensures DecodeStr(block, p + |EncodeStr(s)|) == Some((v, p + |EncodeStr(s)| + |EncodeStr(v)|))
  {
    hide EncodeStr, DecodeStr, Stands;
    StandsParts(block, p, EncodeStr(s), EncodeStr(v));
    DecodeStrInverts(block, p, s);
    DecodeStrInverts(block, p + |EncodeStr(s)|, v);
  }

  lemma LiteralFromParts(t: Table, block: seq<byte>, i: nat, prefix: nat, p: nat, s: Str, q: nat, v: Str, r: nat)
    requires DecodeInt(block, i, prefix) == Some((0, p))
    requires DecodeStr(block, p) == Some((s, q)) && DecodeStr(block, q) == Some((v, r))
    ensures Literal(t, block, i, prefix) == Some(((s, v), r))
  {
  }

  lemma NewNameInverts(t: Table, block: seq<byte>, i: nat, prefix: nat, p: nat, s: Str, v: Str)
    requires ValidText(s) && ValidText(v)
    requires DecodeInt(block, i, prefix) == Some((0, p)) && Stands(block, p, EncodeStr(s) + EncodeStr(v))
    ensures Literal(t, block, i, prefix) == Some(((s, v), p + |EncodeStr(s)| + |EncodeStr(v)|))
  {
    hide *;
    TwoStringsInvert(block, p, s, v);
    LiteralFromParts(t, block, i, prefix, p, s, p + |EncodeStr(s)|, v, p + |EncodeStr(s)| + |EncodeStr(v)|);
  }

  /** The number that opens a literal, and what follows it. */
  function NameNumber(n: NameRef): nat {
    match n
    case NameIndex(i) => i
    case NewName(_) => 0
  }

  function AfterNumber(n: NameRef, v: Str): seq<byte> {
    match n
    case NameIndex(_) => EncodeStr(v)
    case NewName(s) => EncodeStr(s) + EncodeStr(v)
  }

  lemma LiteralInverts(t: Table, e: Encoder, block: seq<byte>, i: nat, prefix: nat, p: nat, n: NameRef, v: Str)
    requires Covers(t, e) && ValidName(e, n) && ValidText(v)
    requires DecodeInt(block, i, prefix) == Some((NameNumber(n), p)) && Stands(block, p, AfterNumber(n, v))
    ensures Literal(t, block, i, prefix) == Some(((NameOf(e, n), v), p + |AfterNumber(n, v)|))
  {
    hide EncodeStr, DecodeStr, DecodeInt, Literal, Stands, Covers, ValidText;
    match n
    case NameIndex(idx) => IndexedNameInverts(t, e, block, i, prefix, p, idx, v);
    case NewName(s) => NewNameInverts(t, block, i, prefix, p, s, v);
  }

  lemma NumberReadable(t: Table, e: Encoder, n: NameRef)
    requires Covers(t, e) && ValidName(e, n)
    ensures NameNumber(n) < TWO_TO_35
  {
    if n.NameIndex? {
      IndexReadable(t, e, n.i);
    }
  }

  /** The decoder's table after a representation the encoder wrote. */
  function TableAfter(t: Table, e: Encoder, r: Repr): Table
    requires Valid(e, r)
  {
    match r
    case WithIndexing(n, v) => Insert(t, (NameOf(e, n), v))
    case SizeUpdate(max) => Resize(t, max)
    case _ => t
  }

  lemma StaysInStep(t: Table, e: Encoder, r: Repr)
    requires Covers(t, e) && Valid(e, r)
    ensures Covers(TableAfter(t, e, r), Meaning(e, r).1)
    ensures InStep(t, e) ==> InStep(TableAfter(t, e, r), Meaning(e, r).1)
  {
    match r
    case WithIndexing(n, v) => InsertInStep(t, e, (NameOf(e, n), v));
    case SizeUpdate(max) => ResizeInStep(t, e, max);
    case _ =>
  }

  /** Reading at `i` gives the representation's headers and its effect on the table, and ends where it ends. */
  ghost predicate ReadsBack(t: Table, e: Encoder, block: seq<byte>, i: nat, r: Repr)
    requires Valid(e, r) && i < |block|
  {
    var one := DecodeOne(t, block, i);
    && one.Some?
    && one.value.0 == Meaning(e, r).0
    && one.value.1 == TableAfter(t, e, r)
    && one.value.2 == i + |EncodeRepr(r)|
  }

  lemma FirstByteStands(block: seq<byte>, i: nat, enc: seq<byte>)
    requires Stands(block, i, enc) && enc != []
    ensures i < |block| && block[i] == enc[0]
  {
    assert enc + [] == enc;
    StandsParts(block, i, enc, []);
  }

  lemma OpeningNumber(block: seq<byte>, i: nat, prefix: nat, top: nat, n: NameRef, v: Str) returns (p: nat)
    requires top % Pow2(prefix) == 0 && Mask(prefix) > 0 && top + Mask(prefix) < 256
    requires NameNumber(n) < TWO_TO_35 && Stands(block, i, EncodeLiteral(prefix, top, n, v))
    ensures i < |block| && top <= block[i] <= top + Mask(prefix)
    ensures DecodeInt(block, i, prefix) == Some((NameNumber(n), p))
    ensures Stands(block, p, AfterNumber(n, v))
    ensures p + |AfterNumber(n, v)| == i + |EncodeLiteral(prefix, top, n, v)|
  {
    var num := EncodeInt(prefix, top, NameNumber(n));
    StandsParts(block, i, num, AfterNumber(n, v));
    DecodeIntInverts(block, i, prefix, top, NameNumber(n));
    FirstByteStands(block, i, num);
    p := i + |num|;
  }

  lemma IndexedInverts(t: Table, e: Encoder, block: seq<byte>, i: nat, idx: nat)
    requires Covers(t, e) && ValidIndex(e, idx) && Stands(block, i, EncodeRepr(IndexedField(idx)))
    ensures i < |block| && ReadsBack(t, e, block, i, IndexedField(idx))
  {
    FirstByteStands(block, i, EncodeInt(7, 128, idx));
    IndexReadable(t, e, idx);
    DecodeIntInverts(block, i, 7, 128, idx);
  }

  lemma DecodeOneWith(t: Table, block: seq<byte>, i: nat, h: Header, p: nat)
    requires i < |block| && 64 <= block[i] < 128 && Literal(t, block, i, 6) == Some((h, p))
    ensures DecodeOne(t, block, i) == Some(([h], Insert(t, h), p))
  {
  }

  lemma DecodeOnePlain(t: Table, block: seq<byte>, i: nat, h: Header, p: nat)
    requires i < |block| && block[i] < 32 && Literal(t, block, i, 4) == Some((h, p))
    ensures DecodeOne(t, block, i) == Some(([h], t, p))
  {
  }

  /** The three literal forms and the prefix each opens with. */
  predicate OpensLiteral(block: seq<byte>, i: nat, prefix: nat, p: nat, n: NameRef, v: Str, enc: seq<byte>) {
    && i < |block|
    && DecodeInt(block, i, prefix) == Some((NameNumber(n), p))
    && Stands(block, p, AfterNumber(n, v))
    && p + |AfterNumber(n, v)| == i + |enc|
  }

  lemma OpenWithIndexing(block: seq<byte>, i: nat, n: NameRef, v: Str) returns (p: nat)
    requires NameNumber(n) < TWO_TO_35 && Stands(block, i, EncodeRepr(WithIndexing(n, v)))
    ensures OpensLiteral(block, i, 6, p, n, v, EncodeRepr(WithIndexing(n, v))) && 64 <= block[i] < 128
  {
    p := OpeningNumber(block, i, 6, 64, n, v);
  }

  lemma OpenWithout(block: seq<byte>, i: nat, n: NameRef, v: Str) returns (p: nat)
    requires NameNumber(n) < TWO_TO_35 && Stands(block, i, EncodeRepr(WithoutIndexing(n, v)))
    ensures OpensLiteral(block, i, 4, p, n, v, EncodeRepr(WithoutIndexing(n, v))) && block[i] < 32
  {
    p := OpeningNumber(block, i, 4, 0, n, v);
  }

  lemma OpenNever(block: seq<byte>, i: nat, n: NameRef, v: Str) returns (p: nat)
    requires NameNumber(n) < TWO_TO_35 && Stands(block, i, EncodeRepr(NeverIndexed(n, v)))
    ensures OpensLiteral(block, i, 4, p, n, v, EncodeRepr(NeverIndexed(n, v))) && block[i] < 32
  {
    p := OpeningNumber(block, i, 4, 16, n, v);
  }

  lemma WithIndexingInverts(t: Table, e: Encoder, block: seq<byte>, i: nat, p: nat, n: NameRef, v: Str, enc: seq<byte>)
    requires Covers(t, e) && ValidName(e, n) && ValidText(v)
    requires OpensLiteral(block, i, 6, p, n, v, enc) && 64 <= block[i] < 128
    ensures DecodeOne(t, block, i) == Some(([(NameOf(e, n), v)], Insert(t, (NameOf(e, n), v)), i + |enc|))
  {
    hide Literal, DecodeOne, DecodeInt, DecodeStr, Covers, Stands, ValidText, ValidName, AfterNumber, NameNumber, NameOf;
    LiteralInverts(t, e, block, i, 6, p, n, v);
    DecodeOneWith(t, block, i, (NameOf(e, n), v), i + |enc|);
  }

  lemma PlainLiteralInverts(t: Table, e: Encoder, block: seq<byte>, i: nat, p: nat, n: NameRef, v: Str, enc: seq<byte>)
    requires Covers(t, e) && ValidName(e, n) && ValidText(v)
    requires OpensLiteral(block, i, 4, p, n, v, enc) && block[i] < 32
    ensures DecodeOne(t, block, i) == Some(([(NameOf(e, n), v)], t, i + |enc|))
  {
    hide Literal, DecodeOne, DecodeInt, DecodeStr, Covers, Stands, ValidText, ValidName, AfterNumber, NameNumber, NameOf;
    LiteralInverts(t, e, block, i, 4, p, n, v);
    DecodeOnePlain(t, block, i, (NameOf(e, n), v), i + |enc|);
  }

  lemma SizeUpdateInverts(t: Table, e: Encoder, block: seq<byte>, i: nat, max: nat)
    requires Covers(t, e) && max < 31 + TWO_TO_35 && Stands(block, i, EncodeRepr(SizeUpdate(max)))
    ensures i < |block| && ReadsBack(t, e, block, i, SizeUpdate(max))
  {
    FirstByteStands(block, i, EncodeInt(5, 32, max));
    DecodeIntInverts(block, i, 5, 32, max);
  }

  /** The decoder reads back any valid representation. */
  lemma ReprInverts(t: Table, e: Encoder, block: seq<byte>, i: nat, r: Repr)
    requires Covers(t, e) && Valid(e, r) && Stands(block, i, EncodeRepr(r))
    ensures i < |block| && ReadsBack(t, e, block, i, r)
  {
    match r
    case IndexedField(idx) => IndexedInverts(t, e, block, i, idx);
    case WithIndexing(n, v) =>
      NumberReadable(t, e, n);
      var p := OpenWithIndexing(block, i, n, v);
      WithIndexingInverts(t, e, block, i, p, n, v, EncodeRepr(r));
    case WithoutIndexing(n, v) =>
      NumberReadable(t, e, n);
      var p := OpenWithout(block, i, n, v);
      PlainLiteralInverts(t, e, block, i, p, n, v, EncodeRepr(r));
    case NeverIndexed(n, v) =>
      NumberReadable(t, e, n);
      var p := OpenNever(block, i, n, v);
      PlainLiteralInverts(t, e, block, i, p, n, v, EncodeRepr(r));
    case SizeUpdate(max) => SizeUpdateInverts(t, e, block, i, max);
  }

  // ---------------------------------------------------------------- representations cut short

  lemma {:induction false} ContinueExtends(buf: seq<byte>, more: seq<byte>, pos: nat, value: nat, shift: nat)
    requires Continue(buf, pos, value, shift).Some?
    ensures Continue(buf + more, pos, value, shift) == Continue(buf, pos, value, shift)
    decreases 35 - shift
  {
    if buf[pos] >= 128 {
      ContinueExtends(buf, more, pos + 1, value + Shl(buf[pos] % 128, shift), shift + 7);
    }
  }

  lemma DecodeIntExtends(buf: seq<byte>, more: seq<byte>, pos: nat, prefix: nat)
    requires DecodeInt(buf, pos, prefix).Some?
    ensures DecodeInt(buf + more, pos, prefix) == DecodeInt(buf, pos, prefix)
  {
    var value := buf[pos] % Pow2(prefix);
    if value >= Mask(prefix) {
      ContinueExtends(buf, more, pos + 1, value, 0);
    }
  }

  lemma DecodeStrExtends(buf: seq<byte>, more: seq<byte>, pos: nat)
    requires DecodeStr(buf, pos).Some?
    ensures DecodeStr(buf + more, pos) == DecodeStr(buf, pos)
  {
    DecodeIntExtends(buf, more, pos, 7);
    var (n, p) := DecodeInt(buf, pos, 7).value;
    assert (buf + more)[p..p + n] == buf[p..p + n];
  }

  lemma LiteralExtends(t: Table, block: seq<byte>, more: seq<byte>, i: nat, prefix: nat)
    requires Literal(t, block, i, prefix).Some?
    ensures Literal(t, block + more, i, prefix) == Literal(t, block, i, prefix)
  {
    hide DecodeInt, DecodeStr;
    DecodeIntExtends(block, more, i, prefix);
    var (idx, p) := DecodeInt(block, i, prefix).value;
    DecodeStrExtends(block, more, p);
    if idx == 0 {
      DecodeStrExtends(block, more, DecodeStr(block, p).value.1);
    }
  }

  /** What is read does not depend on what comes after it. */
  lemma DecodeOneExtends(t: Table, block: seq<byte>, more: seq<byte>, i: nat)
    requires i < |block| && DecodeOne(t, block, i).Some?
    ensures DecodeOne(t, block + more, i) == DecodeOne(t, block, i)
  {
    hide DecodeInt, Literal, Insert, Resize, Indexed;
    var b := block[i];
    if b >= 128 {
      DecodeIntExtends(block, more, i, 7);
    } else if b >= 64 {
      LiteralExtends(t, block, more, i, 6);
    } else if b >= 32 {
      DecodeIntExtends(block, more, i, 5);
    } else {
      LiteralExtends(t, block, more, i, 4);
    }
  }

  /** The first bytes of a representation whose rest comes in a later frame. */
  datatype Cut = Whole | Broken(r: Repr, n: nat)

  predicate ValidCut(e: Encoder, c: Cut) {
    c.Broken? ==> Valid(e, c.r) && 0 < c.n < |EncodeRepr(c.r)|
  }

  function CutBytes(c: Cut): seq<byte> {
    if c.Broken? && c.n <= |EncodeRepr(c.r)| then EncodeRepr(c.r)[..c.n] else []
  }

  lemma WholeStands(block: seq<byte>, i: nat, enc: seq<byte>)
    requires i <= |block| && block[i..] == enc
    ensures Stands(block, i, enc)
  {
    assert block[i..] == block[i..|block|];
  }

  /** What is read must have ended inside the block. */
  lemma BeginningUnread(t: Table, e: Encoder, block: seq<byte>, more: seq<byte>, i: nat, r: Repr)
    requires Covers(t, e) && Valid(e, r) && i < |block| && more != []
    requires (block + more)[i..] == EncodeRepr(r)
    ensures DecodeOne(t, block, i) == None
  {
    hide EncodeRepr, DecodeOne, Covers, Valid;
    var full := block + more;
    WholeStands(full, i, EncodeRepr(r));
    ReprInverts(t, e, full, i, r);
    if DecodeOne(t, block, i).Some? {
      DecodeOneExtends(t, block, more, i);
    }
  }

  /** A representation cut short is not read at all. */
  lemma CutStops(t: Table, e: Encoder, block: seq<byte>, i: nat, c: Cut)
    requires Covers(t, e) && ValidCut(e, c) && i <= |block| && block[i..] == CutBytes(c)
    ensures DecodeFrom(t, block, i) == ([], t)
  {
    hide EncodeRepr, DecodeOne, Covers;
    if c.Broken? {
      var enc := EncodeRepr(c.r);
      assert (block + enc[c.n..])[i..] == block[i..] + enc[c.n..] == enc;
      BeginningUnread(t, e, block, enc[c.n..], i, c.r);
    }
  }

  // ---------------------------------------------------------------- blocks

  lemma SplitBlock(block: seq<byte>, i: nat, rs: seq<Repr>, end: seq<byte>)
    requires rs != [] && i <= |block| && block[i..] == EncodeAll(rs) + end
    ensures Stands(block, i, EncodeRepr(rs[0]))
    ensures block[i + |EncodeRepr(rs[0])|..] == EncodeAll(rs[1..]) + end
  {
    hide EncodeRepr, Stands;
    var enc, rest := EncodeRepr(rs[0]), EncodeAll(rs[1..]) + end;
    assert block[i..|block|] == enc + rest by {
      assert EncodeAll(rs) + end == enc + (EncodeAll(rs[1..]) + end);
    }
    WholeStands(block, i, enc + rest);
    StandsParts(block, i, enc, rest);
    assert block[i + |enc|..] == rest;
  }

  /** A block of whole representations, and possibly the beginning of one more. */
  lemma {:induction false} BlockInverts(t: Table, e: Encoder, block: seq<byte>, i: nat, rs: seq<Repr>, c: Cut)
    requires Covers(t, e) && AllValid(e, rs) && ValidCut(MeaningAll(e, rs).1, c)
    requires i <= |block| && block[i..] == EncodeAll(rs) + CutBytes(c)
    ensures var ((hs, t'), e') := (DecodeFrom(t, block, i), MeaningAll(e, rs).1);
      hs == MeaningAll(e, rs).0 && Covers(t', e') && (InStep(t, e) ==> InStep(t', e'))
    decreases |rs|
  {
    hide Covers, InStep, Valid, Meaning, EncodeRepr, CutBytes, ValidCut, DecodeOne, TableAfter;
    if rs == [] {
      assert EncodeAll(rs) + CutBytes(c) == CutBytes(c);
      CutStops(t, e, block, i, c);
    } else {
      SplitBlock(block, i, rs, CutBytes(c));
      ReprInverts(t, e, block, i, rs[0]);
      StaysInStep(t, e, rs[0]);
      var one := DecodeOne(t, block, i).value;
      BlockInverts(one.1, Meaning(e, rs[0]).1, block, one.2, rs[1..], c);
    }
  }

  lemma WholeBlockInverts(t: Table, e: Encoder, rs: seq<Repr>)
    requires Covers(t, e) && AllValid(e, rs)
    ensures var ((hs, t'), e') := (Decode(t, EncodeAll(rs)), MeaningAll(e, rs).1);
      hs == MeaningAll(e, rs).0 && Covers(t', e') && (InStep(t, e) ==> InStep(t', e'))
  {
    var block := EncodeAll(rs);
    assert block[0..] == block + CutBytes(Whole);
    BlockInverts(t, e, block, 0, rs, Whole);
  }

  function DecodeBlocks(t: Table, blocks: seq<seq<byte>>): (seq<seq<Header>>, Table)
    decreases |blocks|
  {
    if blocks == [] then ([], t) else
    var (hs, t1) := Decode(t, blocks[0]);
    var (rest, t2) := DecodeBlocks(t1, blocks[1..]);
    ([hs] + rest, t2)
  }

  predicate AllBlocksValid(e: Encoder, blocks: seq<seq<Repr>>)
    decreases |blocks|
  {
    blocks == [] || (AllValid(e, blocks[0]) && AllBlocksValid(MeaningAll(e, blocks[0]).1, blocks[1..]))
  }

  function BlocksMeaning(e: Encoder, blocks: seq<seq<Repr>>): (seq<seq<Header>>, Encoder)
    requires AllBlocksValid(e, blocks)
    decreases |blocks|
  {
    if blocks == [] then ([], e) else
    var (hs, e1) := MeaningAll(e, blocks[0]);
    var (rest, e2) := BlocksMeaning(e1, blocks[1..]);
    ([hs] + rest, e2)
  }

  function EncodeBlocks(blocks: seq<seq<Repr>>): seq<seq<byte>> {
    if blocks == [] then [] else [EncodeAll(blocks[0])] + EncodeBlocks(blocks[1..])
  }

  /**
   HPACK ROUND TRIP. For every sequence of header blocks made of valid representations, the
   decoder returns each block's header list and its dynamic table is the encoder's throughout.
   */
  lemma {:induction false} RoundTrip(t: Table, e: Encoder, blocks: seq<seq<Repr>>)
    requires InStep(t, e) && AllBlocksValid(e, blocks)
    ensures var (lists, t') := DecodeBlocks(t, EncodeBlocks(blocks));
      lists == BlocksMeaning(e, blocks).0 && InStep(t', BlocksMeaning(e, blocks).1)
    decreases |blocks|
  {
    if blocks != [] {
      var block := EncodeAll(blocks[0]);
      WholeBlockInverts(t, e, blocks[0]);
      assert EncodeBlocks(blocks)[1..] == EncodeBlocks(blocks[1..]);
      RoundTrip(Decode(t, block).1, MeaningAll(e, blocks[0]).1, blocks[1..]);
    }
  }

  lemma FreshInStep()
    ensures InStep(Initial(), FreshEncoder())
  {
    StaticIsAppendix();
    hide StaticHeaders, AppendixA;
  }

  // ---------------------------------------------------------------- what later blocks need

  /** Everything the encoder may still send in one block is read as meant. */
  ghost predicate ReadsOn(t: Table, e: Encoder) {
    forall rs :: AllValid(e, rs) ==> Decode(t, EncodeAll(rs)).0 == MeaningAll(e, rs).0
  }

  lemma IndexRead(t: Table, e: Encoder, block: seq<byte>, i: nat, idx: nat)
    requires Sound(e) && ValidIndex(e, idx) && i <= |block| && block[i..] == EncodeRepr(IndexedField(idx))
    ensures DecodeFrom(t, block, i) == (if Indexed(t, idx).Some? then [Indexed(t, idx).value] else [], t)
  {
    var enc := EncodeInt(7, 128, idx);
    assert block[i..i + |enc|] == enc;
    FirstByteStands(block, i, enc);
    IndexSmall(e, idx);
    DecodeIntInverts(block, i, 7, 128, idx);
    hide DecodeInt, EncodeInt;
    var hs := if Indexed(t, idx).Some? then [Indexed(t, idx).value] else [];
    assert DecodeOne(t, block, i) == Some((hs, t, |block|));
    assert hs + [] == hs;
  }

  lemma OneRepr(e: Encoder, r: Repr)
    requires Valid(e, r)
    ensures AllValid(e, [r]) && EncodeAll([r]) == EncodeRepr(r) && MeaningAll(e, [r]) == Meaning(e, r)
  {
    hide EncodeRepr, Valid, Meaning;
    assert [r][1..] == [];
    assert EncodeRepr(r) + [] == EncodeRepr(r);
    assert Meaning(e, r).0 + [] == Meaning(e, r).0;
  }

  lemma TwoReprs(e: Encoder, r: Repr, r': Repr)
    requires Valid(e, r) && Valid(Meaning(e, r).1, r')
    ensures AllValid(e, [r, r']) && EncodeAll([r, r']) == EncodeRepr(r) + EncodeRepr(r')
    ensures MeaningAll(e, [r, r']).0 == Meaning(e, r).0 + Meaning(Meaning(e, r).1, r').0
  {
    hide EncodeRepr, Valid, Meaning;
    assert [r, r'][1..] == [r'];
    OneRepr(Meaning(e, r).1, r');
  }

  /** An entry the decoder lacks, or has another one in place of, is read wrongly when referred to. */
  lemma MissingEntryShows(t: Table, e: Encoder, i: nat)
    requires Sound(e) && t.fixed == e.fixed && i < |e.dynamic|
    requires i < |t.dynamic| ==> t.dynamic[i] != e.dynamic[i]
    ensures !ReadsOn(t, e)
  {
    var idx := |e.fixed| + 1 + i;
    var r := IndexedField(idx);
    OneRepr(e, r);
    var block := EncodeAll([r]);
    assert block == block[0..];
    hide EncodeRepr;
    IndexRead(t, e, block, 0, idx);
    assert MeaningAll(e, [r]).0 == [e.dynamic[i]];
  }

  lemma NewEntryRead(t: Table, s: Str, rest: seq<byte>)
    requires |s| < TWO_TO_35
    ensures var enc := EncodeRepr(WithIndexing(NewName(s), []));
      DecodeOne(t, enc + rest, 0) == Some(([(s, [])], Insert(t, (s, [])), |enc|))
  {
    var n, enc := NewName(s), EncodeRepr(WithIndexing(NewName(s), []));
    var block := enc + rest;
    hide EncodeRepr, DecodeOne, Literal, DecodeInt, EncodeStr, Insert;
    assert block[0..|enc|] == enc;
    var p := OpenWithIndexing(block, 0, n, []);
    NewNameInverts(t, block, 0, 6, p, s, []);
    DecodeOneWith(t, block, 0, (s, []), |enc|);
  }

  /** A decoder with less room drops an entry the encoder keeps. */
  lemma LackOfRoomShows(t: Table, e: Encoder)
    requires Accounted(t) && Sound(e) && t.fixed == e.fixed && 32 <= e.max && t.maxSize < e.max
    ensures !ReadsOn(t, e)
  {
    var s: Str := seq(e.max - 32, _ => 0);
    var h: Header := (s, []);
    var first, again := WithIndexing(NewName(s), []), IndexedField(STATIC_LEN + 1);
    var e' := AddEntry(e, h);
    AddEntryFits(e, h);
    TwoReprs(e, first, again);
    InsertFits(t, h);
    hide EncodeRepr;
    var block := EncodeAll([first, again]);
    NewEntryRead(t, s, EncodeRepr(again));
    assert block[|EncodeRepr(first)|..] == EncodeRepr(again);
    IndexRead(Insert(t, h), e', block, |EncodeRepr(first)|, STATIC_LEN + 1);
    assert Decode(t, block).0 == [h] + [];
    assert MeaningAll(e, [first, again]).0 == [h] + [h];
  }

  /**
   OUT OF STEP. Whatever led to the two tables, the decoder reads everything the encoder may still
   send if and only if its table covers the encoder's: the encoder's entries stand at the front of
   it, and it has at least the encoder's room.
   */
  lemma ReadsOnIffCovers(t: Table, e: Encoder)
    requires Accounted(t) && Sound(e) && t.fixed == e.fixed
    ensures ReadsOn(t, e) <==> Covers(t, e)
  {
    hide Sound, Accounted, Decode, EncodeAll, AllValid;
    if Covers(t, e) {
      forall rs | AllValid(e, rs)
        ensures Decode(t, EncodeAll(rs)).0 == MeaningAll(e, rs).0
      {
        WholeBlockInverts(t, e, rs);
      }
    } else if e.dynamic <= t.dynamic {
      LackOfRoomShows(t, e);
    } else {
      var i := FirstDifference(e.dynamic, t.dynamic);
      MissingEntryShows(t, e, i);
    }
  }

  lemma FirstDifference(a: seq<Header>, b: seq<Header>) returns (i: nat)
    requires !(a <= b)
    ensures i < |a| && (i < |b| ==> b[i] != a[i])
  {
    if |a| > |b| {
      i := |b|;
    } else {
      i :| 0 <= i < |a| && b[i] != a[i];
    }
  }

  lemma {:induction false} StaysSound(e: Encoder, rs: seq<Repr>)
    requires Sound(e) && AllValid(e, rs)
    ensures Sound(MeaningAll(e, rs).1) && MeaningAll(e, rs).1.fixed == e.fixed
    decreases |rs|
  {
    if rs != [] {
      match rs[0]
      case WithIndexing(n, v) => AddEntryFits(e, (NameOf(e, n), v)); StaysSound(Meaning(e, rs[0]).1, rs[1..]);
      case SizeUpdate(max) => ShrinkFits(e.dynamic, max); StaysSound(Meaning(e, rs[0]).1, rs[1..]);
      case _ => StaysSound(e, rs[1..]);
    }
  }

  /** The encoder only let entries and room go. */
  predicate Forgets(e: Encoder, e': Encoder) {
    e'.dynamic <= e.dynamic && (e'.max <= e.max || e'.max < 32)
  }

  /**
   SKIPPED BLOCKS. A block the decoder does not see leaves it able to read on exactly when the
   block only shrank the encoder's table.
   */
  lemma SkippedBlock(t: Table, e: Encoder, rs: seq<Repr>)
    requires InStep(t, e) && AllValid(e, rs)
    ensures ReadsOn(t, MeaningAll(e, rs).1) <==> Forgets(e, MeaningAll(e, rs).1)
  {
    StaysSound(e, rs);
    ReadsOnIffCovers(t, MeaningAll(e, rs).1);
  }

  /** Neither an insertion nor a size update. */
  predicate Quiet(r: Repr) {
    !r.WithIndexing? && !r.SizeUpdate?
  }

  lemma {:induction false} QuietBlock(e: Encoder, rs: seq<Repr>)
    requires AllValid(e, rs) && forall r <- rs :: Quiet(r)
    ensures MeaningAll(e, rs).1 == e
    decreases |rs|
  {
    if rs != [] {
      assert Quiet(rs[0]);
      QuietBlock(e, rs[1..]);
    }
  }
}
