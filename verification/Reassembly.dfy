/**
 TCP stream reassembly (`flow/reassembly.rs`): one direction of a byte stream rebuilt from
 segments that arrive out of order, duplicated or overlapping, with 32-bit wrapping numbers.

 `Buffer` is the value of the program's struct, `Insert` and `Drain` are its operations on
 values, and the class `ReassemblyBuffer` updates the same fields in place.
 */
module Reassembly {
  import opened Bytes
  import opened SerialNumbers

  const MAX_STREAM_BUFFER := 1024 * 1024
  const MAX_FORWARD_GAP := 0x4000_0000

  datatype ReassemblyResult = Contiguous | Gap | Buffered | Duplicate | Capped

  datatype Buffer = Buffer(
    pending: seq<byte>,
    segments: map<u32, seq<byte>>,
    baseSeq: Option<u32>,
    nextSeq: u32,
    totalBuffered: int,
    fin: bool,
    capped: bool
  )

  const EMPTY := Buffer([], map[], None, 0, 0, false, false)

  /** Appends every stored segment that has become adjacent to the contiguous bytes. */
  function PullIn(b: Buffer): Buffer
    decreases |b.segments|
  {
    if b.nextSeq !in b.segments then b else
    var segment := b.segments[b.nextSeq];
    PullIn(b.(segments := b.segments - {b.nextSeq},
              nextSeq := WrapAdd(b.nextSeq, |segment|),
              pending := b.pending + segment))
  }

  /** Data that continues the contiguous bytes, before anything is pulled in. */
  function Appended(b: Buffer, data: seq<byte>): Buffer {
    b.(pending := b.pending + data,
       nextSeq := WrapAdd(b.nextSeq, |data|),
       totalBuffered := b.totalBuffered + |data|)
  }

  /** The part of an insertion that follows classification and front trimming. */
  function Store(b: Buffer, number: u32, data: seq<byte>): (Buffer, ReassemblyResult) {
    if b.capped then
      (b, Capped)
    else if b.totalBuffered + |data| > MAX_STREAM_BUFFER then
      (b.(capped := true), Capped)
    else if number == b.nextSeq then
      (PullIn(Appended(b, data)), Contiguous)
    else if number in b.segments then
      (b, Duplicate)
    else
      (b.(segments := b.segments[number := data],
          totalBuffered := b.totalBuffered + |data|), Gap)
  }

  /** The first nonempty segment anchors the stream. */
  function Anchor(b: Buffer, number: u32): Buffer {
    if b.baseSeq.None? then b.(baseSeq := Some(number), nextSeq := number) else b
  }

  function Insert(b0: Buffer, number: u32, data: seq<byte>): (Buffer, ReassemblyResult) {
    if data == [] then (b0, Buffered) else
    var b := Anchor(b0, number);
    if SeqLt(b.nextSeq, number) && WrapSub(number, b.nextSeq) > MAX_FORWARD_GAP then
      (b, Duplicate)
    else if !SeqLt(b.nextSeq, WrapAdd(number, |data|)) then
      (b, Duplicate)
    else if SeqLt(number, b.nextSeq) then
      var skip := WrapSub(b.nextSeq, number);
      if skip >= |data| then (b, Duplicate) else Store(b, b.nextSeq, data[skip..])
    else
      Store(b, number, data)
  }

  function Drain(b: Buffer): (Buffer, Option<seq<byte>>) {
    if b.pending == [] then (b, None)
    else (b.(pending := [], totalBuffered := b.totalBuffered - |b.pending|), Some(b.pending))
  }

  function MarkFin(b: Buffer): Buffer {
    b.(fin := true)
  }

  predicate IsComplete(b: Buffer) {
    b.fin && b.segments == map[]
  }

  // ---------------------------------------------------------------- accounting

  ghost function TotalLength(m: map<u32, seq<byte>>): nat
    decreases |m|
  {
    if m == map[] then 0 else
    var k :| k in m;
    |m[k]| + TotalLength(m - {k})
  }

  lemma {:induction false} TotalLengthRemove(m: map<u32, seq<byte>>, k: u32)
    requires k in m
    ensures TotalLength(m) == |m[k]| + TotalLength(m - {k})
    decreases |m|
  {
    var c :| c in m && TotalLength(m) == |m[c]| + TotalLength(m - {c});
    if c != k {
      TotalLengthRemove(m - {c}, k);
      TotalLengthRemove(m - {k}, c);
      assert m - {c} - {k} == m - {k} - {c};
    }
  }

  lemma TotalLengthAdd(m: map<u32, seq<byte>>, k: u32, d: seq<byte>)
    requires k !in m
    ensures TotalLength(m[k := d]) == TotalLength(m) + |d|
  {
    TotalLengthRemove(m[k := d], k);
    assert m[k := d] - {k} == m;
  }

  /**
   What every operation keeps: the counter is exactly what is held and under the cap, the
   next expected number is never waiting among the stored segments, and nothing is held
   before the stream is anchored.
   */
  ghost predicate WellFormed(b: Buffer) {
    && b.totalBuffered == |b.pending| + TotalLength(b.segments)
    && b.totalBuffered <= MAX_STREAM_BUFFER
    && b.nextSeq !in b.segments
    && (b.baseSeq.None? ==> b.pending == [] && b.segments == map[])
  }

  lemma {:induction false} PullInAccounting(b: Buffer)
    ensures var r := PullIn(b);
      && |r.pending| + TotalLength(r.segments) == |b.pending| + TotalLength(b.segments)
      && r.nextSeq !in r.segments
      && r.segments.Keys <= b.segments.Keys
      && r == b.(pending := r.pending, segments := r.segments, nextSeq := r.nextSeq)
    decreases |b.segments|
  {
    if b.nextSeq in b.segments {
      TotalLengthRemove(b.segments, b.nextSeq);
      var segment := b.segments[b.nextSeq];
      PullInAccounting(b.(segments := b.segments - {b.nextSeq},
                          nextSeq := WrapAdd(b.nextSeq, |segment|),
                          pending := b.pending + segment));
    }
  }

  lemma StoreKeepsWellFormed(b: Buffer, number: u32, data: seq<byte>)
    requires WellFormed(b) && b.baseSeq.Some?
    ensures WellFormed(Store(b, number, data).0)
  {
    if !b.capped && b.totalBuffered + |data| <= MAX_STREAM_BUFFER {
      if number == b.nextSeq {
        PullInAccounting(Appended(b, data));
      } else if number !in b.segments {
        TotalLengthAdd(b.segments, number, data);
      }
    }
  }

  lemma InsertKeepsWellFormed(b: Buffer, number: u32, data: seq<byte>)
    requires WellFormed(b)
    ensures WellFormed(Insert(b, number, data).0)
  {
    if data != [] {
      var a := Anchor(b, number);
      StoreKeepsWellFormed(a, number, data);
      if SeqLt(number, a.nextSeq) && WrapSub(a.nextSeq, number) < |data| {
        StoreKeepsWellFormed(a, a.nextSeq, data[WrapSub(a.nextSeq, number)..]);
      }
    }
  }

  // ---------------------------------------------------------------- the class

  class ReassemblyBuffer {
    var pending: seq<byte>
    var segments: map<u32, seq<byte>>
    var baseSeq: Option<u32>
    var nextSeq: u32
    var totalBuffered: nat
    var fin: bool
    var capped: bool

    function Model(): Buffer
      reads this
    {
      Buffer(pending, segments, baseSeq, nextSeq, totalBuffered, fin, capped)
    }

    ghost predicate Valid()
      reads this
    {
      WellFormed(Model())
    }

    constructor ()
      ensures Valid() && Model() == EMPTY
    {
      pending, segments, baseSeq, nextSeq := [], map[], None, 0;
      totalBuffered, fin, capped := 0, false, false;
    }

    method InsertSegment(number: u32, data: seq<byte>) returns (r: ReassemblyResult)
      requires Valid()
      modifies this
      ensures Valid()
      ensures (Model(), r) == Insert(old(Model()), number, data)
    {
      InsertKeepsWellFormed(Model(), number, data);
      if |data| == 0 {
        return Buffered;
      }
      if baseSeq.None? {
        baseSeq := Some(number);
        nextSeq := number;
      }
      var num, rest := number, data;
      if SeqLt(nextSeq, num) && WrapSub(num, nextSeq) > MAX_FORWARD_GAP {
        return Duplicate;
      }
      var end := WrapAdd(num, |rest|);
      if !SeqLt(nextSeq, end) {
        return Duplicate;
      }
      if SeqLt(num, nextSeq) {
        var skip := WrapSub(nextSeq, num);
        if skip >= |rest| {
          return Duplicate;
        }
        rest := rest[skip..];
        num := nextSeq;
      }
      r := StoreSegment(num, rest);
    }

    /** The tail of an insertion: cap check, append with pull-in, or store ahead of a gap. */
    method StoreSegment(num: u32, rest: seq<byte>) returns (r: ReassemblyResult)
      modifies this
      ensures (Model(), r) == Store(old(Model()), num, rest)
    {
      if capped {
        return Capped;
      }
      if totalBuffered + |rest| > MAX_STREAM_BUFFER {
        capped := true;
        return Capped;
      }
      if num == nextSeq {
        pending := pending + rest;
        nextSeq := WrapAdd(nextSeq, |rest|);
        totalBuffered := totalBuffered + |rest|;
        ghost var target := PullIn(Model());
        while nextSeq in segments
          invariant PullIn(Model()) == target
          decreases |segments|
        {
          var segment := segments[nextSeq];
          segments := segments - {nextSeq};
          nextSeq := WrapAdd(nextSeq, |segment|);
          pending := pending + segment;
        }
        return Contiguous;
      } else if num in segments {
        return Duplicate;
      } else {
        segments := segments[num := rest];
        totalBuffered := totalBuffered + |rest|;
        return Gap;
      }
    }

    method TryDrain() returns (bytes: Option<seq<byte>>)
      requires Valid()
      modifies this
      ensures Valid()
      ensures (Model(), bytes) == Drain(old(Model()))
    {
      if pending == [] {
        return None;
      }
      totalBuffered := totalBuffered - |pending|;
      bytes := Some(pending);
      pending := [];
    }

    method SetFin()
      requires Valid()
      modifies this
      ensures Valid() && Model() == MarkFin(old(Model()))
    {
      fin := true;
    }

    method Complete() returns (complete: bool)
      ensures complete == IsComplete(Model())
    {
      complete := fin && segments == map[];
    }
  }
}
