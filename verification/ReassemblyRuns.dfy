/**
 Whole runs of the reassembly buffer over one byte stream `s` whose byte 0 carries sequence
 number `isn`. A sender may deliver any slice of the stream any number of times and in any
 order, and the reader may drain at any point.
 */
module ReassemblyRuns {
  import opened Bytes
  import opened SerialNumbers
  import opened Reassembly

  datatype Op = Segment(from: nat, len: nat) | DrainOp | FinOp

  /** A buffer together with everything drained from it so far. */
  datatype Reader = Reader(buf: Buffer, drained: seq<byte>)

  const START := Reader(EMPTY, [])

  predicate IsSlice(s: seq<byte>, op: Op) {
    op.Segment? ==> op.from + op.len <= |s|
  }

  function Step(isn: u32, s: seq<byte>, r: Reader, op: Op): Reader
    requires IsSlice(s, op)
  {
    match op
    case Segment(from, len) =>
      r.(buf := Insert(r.buf, At(isn, from), s[from..from + len]).0)
    case DrainOp =>
      var (buf, bytes) := Drain(r.buf);
      Reader(buf, r.drained + if bytes.Some? then bytes.value else [])
    case FinOp => r.(buf := MarkFin(r.buf))
  }

  function Run(isn: u32, s: seq<byte>, r: Reader, ops: seq<Op>): Reader
    requires forall op <- ops :: IsSlice(s, op)
    decreases |ops|
  {
    if ops == [] then r else Run(isn, s, Step(isn, s, r, ops[0]), ops[1..])
  }

  lemma {:induction false} RunAppend(isn: u32, s: seq<byte>, r: Reader, xs: seq<Op>, ys: seq<Op>)
    requires forall op <- xs + ys :: IsSlice(s, op)
    ensures (forall op <- xs :: IsSlice(s, op)) && (forall op <- ys :: IsSlice(s, op))
    ensures Run(isn, s, r, xs + ys) == Run(isn, s, Run(isn, s, r, xs), ys)
    decreases |xs|
  {
    assert forall op <- xs :: op in xs + ys;
    assert forall op <- ys :: op in xs + ys;
    if xs == [] {
      assert xs + ys == ys;
    } else {
      assert (xs + ys)[1..] == xs[1..] + ys;
      RunAppend(isn, s, Step(isn, s, r, xs[0]), xs[1..], ys);
    }
  }

  // ---------------------------------------------------------------- safety

  /** The stream offset a stored key stands for, when the stream is shorter than 2^32. */
  function OffsetOf(isn: u32, k: u32): nat {
    WrapSub(k, isn)
  }

  lemma OffsetOfAt(isn: u32, i: nat)
    requires i < MODULUS
    ensures OffsetOf(isn, At(isn, i)) == i
  {
    Distance(isn, i, 0);
  }

  predicate StoredSlice(isn: u32, s: seq<byte>, k: u32, d: seq<byte>) {
    var o := OffsetOf(isn, k);
    d != [] && o + |d| <= |s| && d == s[o..o + |d|]
  }

  /** The number of stream bytes made contiguous, counted from the anchor offset `base`. */
  ghost function Position(r: Reader, base: nat): nat {
    base + |r.drained| + |r.buf.pending|
  }

  /**
   The safety invariant: what was drained followed by what is pending is the stream from the
   anchor up to the current position, the next expected number is that position's number, and
   every stored segment is a slice of the stream at the offset its key stands for.
   */
  ghost predicate Faithful(isn: u32, s: seq<byte>, r: Reader, base: nat) {
    && WellFormed(r.buf)
    && (r.buf.baseSeq.None? ==> r.drained == [])
    && (r.buf.baseSeq.Some? ==>
          && r.buf.baseSeq == Some(At(isn, base))
          && base <= Position(r, base) <= |s|
          && r.drained + r.buf.pending == s[base..Position(r, base)]
          && r.buf.nextSeq == At(isn, Position(r, base)))
    && forall k <- r.buf.segments :: StoredSlice(isn, s, k, r.buf.segments[k])
  }

  /** Offset of the first nonempty segment of a run, which anchors the stream. */
  function FirstOffset(ops: seq<Op>): nat {
    if ops == [] then 0
    else if ops[0].Segment? && ops[0].len > 0 then ops[0].from
    else FirstOffset(ops[1..])
  }

  lemma {:induction false} PullInFaithful(isn: u32, s: seq<byte>, r: Reader, base: nat)
    requires |s| < MODULUS
    requires base <= Position(r, base) <= |s|
    requires r.drained + r.buf.pending == s[base..Position(r, base)]
    requires r.buf.nextSeq == At(isn, Position(r, base))
    requires forall k <- r.buf.segments :: StoredSlice(isn, s, k, r.buf.segments[k])
    ensures var r' := r.(buf := PullIn(r.buf));
      && base <= Position(r', base) <= |s|
      && r'.drained + r'.buf.pending == s[base..Position(r', base)]
      && r'.buf.nextSeq == At(isn, Position(r', base))
      && (forall k <- r'.buf.segments :: StoredSlice(isn, s, k, r'.buf.segments[k]))
    decreases |r.buf.segments|
  {
    var b := r.buf;
    if b.nextSeq in b.segments {
      var m := Position(r, base);
      OffsetOfAt(isn, m);
      var d := b.segments[b.nextSeq];
      AtStep(isn, m, |d|);
      assert s[base..m] + d == s[base..m + |d|];
      assert r.drained + (b.pending + d) == (r.drained + b.pending) + d;
      PullInFaithful(isn, s, r.(buf := b.(segments := b.segments - {b.nextSeq},
                                          nextSeq := WrapAdd(b.nextSeq, |d|),
                                          pending := b.pending + d)), base);
    }
  }

  /** Appending the next `n` stream bytes, then pulling in, keeps the invariant. */
  lemma AppendFaithful(isn: u32, s: seq<byte>, r: Reader, base: nat, n: nat)
    requires Faithful(isn, s, r, base) && r.buf.baseSeq.Some?
    requires |s| < MODULUS && Position(r, base) + n <= |s|
    requires !r.buf.capped && r.buf.totalBuffered + n <= MAX_STREAM_BUFFER
    ensures var m := Position(r, base);
      Faithful(isn, s, r.(buf := Store(r.buf, r.buf.nextSeq, s[m..m + n]).0), base)
  {
    var b, m := r.buf, Position(r, base);
    var data := s[m..m + n];
    StoreKeepsWellFormed(b, b.nextSeq, data);
    AtStep(isn, m, n);
    assert s[base..m] + data == s[base..m + n];
    assert r.drained + (b.pending + data) == (r.drained + b.pending) + data;
    PullInFaithful(isn, s, r.(buf := Appended(b, data)), base);
    PullInAccounting(Appended(b, data));
  }

  /** Storing the slice at offset `o` is safe whatever the offset, as long as it is not empty. */
  lemma StoreFaithful(isn: u32, s: seq<byte>, r: Reader, base: nat, o: nat, n: nat)
    requires |s| < MODULUS && n > 0 && o + n <= |s|
    requires Faithful(isn, s, r, base) && r.buf.baseSeq.Some?
    ensures Faithful(isn, s, r.(buf := Store(r.buf, At(isn, o), s[o..o + n]).0), base)
  {
    var b, data, number := r.buf, s[o..o + n], At(isn, o);
    OffsetOfAt(isn, o);
    if b.capped || b.totalBuffered + |data| > MAX_STREAM_BUFFER {
    } else if number == b.nextSeq {
      OffsetOfAt(isn, Position(r, base));
      AppendFaithful(isn, s, r, base, n);
    } else {
      StoreKeepsWellFormed(b, number, data);
      hide WellFormed;
    }
  }

  /** An insertion into an anchored buffer: where the classification sends a true slice. */
  lemma AnchoredInsertFaithful(isn: u32, s: seq<byte>, r: Reader, base: nat, o: nat, n: nat)
    requires |s| < MODULUS && n > 0 && o + n <= |s|
    requires Faithful(isn, s, r, base) && r.buf.baseSeq.Some?
    ensures Faithful(isn, s, r.(buf := Insert(r.buf, At(isn, o), s[o..o + n]).0), base)
  {
    var b, number, data, m := r.buf, At(isn, o), s[o..o + n], Position(r, base);
    if SeqLt(number, b.nextSeq) {
      var skip := WrapSub(b.nextSeq, number);
      Distance(isn, m, o);
      if skip < n {
        assert skip == m - o;
        assert data[skip..] == s[m..m + (n - skip)];
        StoreFaithful(isn, s, r, base, m, n - skip);
      }
    } else {
      StoreFaithful(isn, s, r, base, o, n);
    }
  }

  /**
   One insertion keeps the invariant. Nothing is assumed about how far the segment lies from
   the current position: a misjudged segment is dropped or parked under a number the stream
   never reaches.
   */
  lemma InsertFaithful(isn: u32, s: seq<byte>, r: Reader, base: nat, o: nat, n: nat)
    requires |s| < MODULUS && n > 0 && o + n <= |s|
    requires Faithful(isn, s, r, base)
    requires r.buf.baseSeq.None? ==> base == o
    ensures Faithful(isn, s, r.(buf := Insert(r.buf, At(isn, o), s[o..o + n]).0), base)
    ensures Insert(r.buf, At(isn, o), s[o..o + n]).0.baseSeq.Some?
  {
    var number, data := At(isn, o), s[o..o + n];
    var a := r.(buf := Anchor(r.buf, number));
    assert Insert(r.buf, number, data) == Insert(a.buf, number, data);
    AnchoredInsertFaithful(isn, s, a, base, o, n);
    InsertAnchors(a.buf, number, data);
  }

  lemma InsertAnchors(b: Buffer, number: u32, data: seq<byte>)
    requires b.baseSeq.Some?
    ensures Insert(b, number, data).0.baseSeq == b.baseSeq
  {
    PullInAccounting(Appended(b, data));
    var skip := WrapSub(b.nextSeq, number);
    if skip < |data| {
      PullInAccounting(Appended(b, data[skip..]));
    }
  }

  lemma StepFaithful(isn: u32, s: seq<byte>, r: Reader, base: nat, op: Op)
    requires |s| < MODULUS && IsSlice(s, op)
    requires Faithful(isn, s, r, base)
    requires r.buf.baseSeq.None? && op.Segment? && op.len > 0 ==> base == op.from
    ensures Faithful(isn, s, Step(isn, s, r, op), base)
    ensures Step(isn, s, r, op).buf.baseSeq.None? <==> r.buf.baseSeq.None? && !(op.Segment? && op.len > 0)
  {
    match op
    case Segment(from, len) =>
      if len > 0 {
        InsertFaithful(isn, s, r, base, from, len);
      }
    case DrainOp =>
    case FinOp =>
  }

  lemma {:induction false} RunFaithful(isn: u32, s: seq<byte>, r: Reader, base: nat, ops: seq<Op>)
    requires |s| < MODULUS && forall op <- ops :: IsSlice(s, op)
    requires Faithful(isn, s, r, base)
    requires r.buf.baseSeq.None? ==> base == FirstOffset(ops)
    ensures Faithful(isn, s, Run(isn, s, r, ops), base)
    decreases |ops|
  {
    if ops != [] {
      StepFaithful(isn, s, r, base, ops[0]);
      RunFaithful(isn, s, Step(isn, s, r, ops[0]), base, ops[1..]);
    }
  }

  lemma {:induction false} FirstOffsetInRange(s: seq<byte>, ops: seq<Op>)
    requires forall op <- ops :: IsSlice(s, op)
    ensures FirstOffset(ops) <= |s|
  {
    if ops != [] {
      assert IsSlice(s, ops[0]);
      FirstOffsetInRange(s, ops[1..]);
    }
  }

  /** The bytes a reader has been given so far, drained or ready to be. */
  function Received(r: Reader): seq<byte> {
    r.drained + r.buf.pending
  }

  /**
   SAFETY. Over every run of slices of a stream shorter than 2^32 bytes, at any starting
   sequence number, everything drained followed by everything pending is exactly the stream
   from the first segment's offset onward, for as many bytes as were made contiguous.
   */
  lemma Safety(isn: u32, s: seq<byte>, ops: seq<Op>)
    requires |s| < MODULUS && forall op <- ops :: IsSlice(s, op)
    ensures var r, base := Run(isn, s, START, ops), FirstOffset(ops);
      && base + |Received(r)| <= |s|
      && Received(r) == s[base..base + |Received(r)|]
      && (r.buf.baseSeq.Some? ==> r.buf.nextSeq == At(isn, base + |Received(r)|))
      && r.buf.totalBuffered == |r.buf.pending| + TotalLength(r.buf.segments) <= MAX_STREAM_BUFFER
      && r.buf.nextSeq !in r.buf.segments
  {
    FirstOffsetInRange(s, ops);
    RunFaithful(isn, s, START, FirstOffset(ops), ops);
  }
}
