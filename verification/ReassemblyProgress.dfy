/**
 What one insertion does, in stream offsets instead of wrapping numbers, and how far it brings
 the reader: nothing that starts at or before the current position is lost.
 */
module ReassemblyProgress {
  import opened Bytes
  import opened SerialNumbers
  import opened Reassembly
  import opened ReassemblyRuns

  /** The buffer is anchored and expects the byte at offset `m`. */
  predicate Expects(isn: u32, b: Buffer, m: nat) {
    b.baseSeq.Some? && b.nextSeq == At(isn, m)
  }

  /** Where the answers of an insertion come from, by offset: position `m`, data from `o` to `e`. */
  datatype Place = Behind | Overlapping | Next | Ahead | TooFar

  function PlaceOf(m: nat, o: nat, e: nat): Place {
    if e <= m then Behind
    else if o < m then Overlapping
    else if o == m then Next
    else if o - m <= 0x4000_0000 then Ahead
    else TooFar
  }

  /** Data that reaches past the position extends the pending bytes by at least its new part. */
  predicate Extends(b: Buffer, r: Buffer, more: seq<byte>) {
    && b.pending + more <= r.pending
    && r == b.(pending := r.pending, segments := r.segments, nextSeq := r.nextSeq,
               totalBuffered := b.totalBuffered + |more|)
    && r.segments.Keys <= b.segments.Keys
  }

  lemma {:induction false} PullInExtends(b: Buffer)
    ensures b.pending <= PullIn(b).pending && PullIn(b).segments.Keys <= b.segments.Keys
    ensures PullIn(b) == b.(pending := PullIn(b).pending, segments := PullIn(b).segments, nextSeq := PullIn(b).nextSeq)
    decreases |b.segments|
  {
    if b.nextSeq in b.segments {
      var segment := b.segments[b.nextSeq];
      PullInExtends(b.(segments := b.segments - {b.nextSeq},
                       nextSeq := WrapAdd(b.nextSeq, |segment|),
                       pending := b.pending + segment));
    }
  }

  /** What an insertion answers and changes, once its place is known; `more` is the data past the position. */
  ghost predicate Answers(b: Buffer, place: Place, number: u32, data: seq<byte>, more: seq<byte>, r: (Buffer, ReassemblyResult)) {
    if place.Behind? || place.TooFar? then r == (b, Duplicate)
    else if b.capped then r == (b, Capped)
    else if b.totalBuffered + |more| > 0x10_0000 then r == (b.(capped := true), Capped)
    else if place.Ahead? then
      if number in b.segments then r == (b, Duplicate)
      else r == (b.(segments := b.segments[number := data], totalBuffered := b.totalBuffered + |data|), Gap)
    else r.1 == Contiguous && Extends(b, r.0, more)
  }

  lemma StoreNext(b: Buffer, more: seq<byte>)
    requires !b.capped && b.totalBuffered + |more| <= 0x10_0000
    ensures var r := Store(b, b.nextSeq, more); r.1 == Contiguous && Extends(b, r.0, more)
  {
    PullInExtends(Appended(b, more));
  }

  /**
   INSERTION. With the data's start within half the number space of the position and no longer than
   the forward window, an insertion is decided by plain offsets: old data is dropped, data
   across the position is trimmed and appended, data ahead is parked, and no wrap matters.
   */
  lemma InsertByOffset(isn: u32, b: Buffer, m: nat, o: nat, data: seq<byte>)
    requires Expects(isn, b, m) && data != [] && |data| <= 0x4000_0000 && -HALF < o - m < HALF
    ensures var place := PlaceOf(m, o, o + |data|);
      var more := if place.Overlapping? then data[m - o..] else data;
      Answers(b, place, At(isn, o), data, more, Insert(b, At(isn, o), data))
  {
    var number, e := At(isn, o), o + |data|;
    AtStep(isn, o, |data|);
    Distance(isn, m, o);
    Distance(isn, o, m);
    Distance(isn, m, e);
    hide At, WrapSub, WrapAdd, PullIn;
    match PlaceOf(m, o, e) {
      case Overlapping => {
        if !b.capped && b.totalBuffered + |data[m - o..]| <= 0x10_0000 {
          StoreNext(b, data[m - o..]);
        }
      }
      case Next => {
        if !b.capped && b.totalBuffered + |data| <= 0x10_0000 {
          StoreNext(b, data);
        }
      }
      case _ => {}
    }
  }

  // ---------------------------------------------------------------- whole runs

  lemma StepGrows(isn: u32, s: seq<byte>, r: Reader, op: Op)
    requires IsSlice(s, op)
    ensures Received(r) <= Received(Step(isn, s, r, op))
    ensures r.buf.capped ==> Step(isn, s, r, op).buf.capped
  {
    match op
    case Segment(from, len) =>
      var b, data := r.buf, s[from..from + len];
      if len > 0 {
        var a := Anchor(b, At(isn, from));
        InsertGrows(a, At(isn, from), data);
        assert Insert(b, At(isn, from), data) == Insert(a, At(isn, from), data);
      }
    case _ =>
  }

  lemma InsertGrows(b: Buffer, number: u32, data: seq<byte>)
    requires b.baseSeq.Some?
    ensures b.pending <= Insert(b, number, data).0.pending
    ensures b.capped ==> Insert(b, number, data).0.capped
  {
    hide WrapSub, WrapAdd, AsI32;
    PullInExtends(Appended(b, data));
    var skip := WrapSub(b.nextSeq, number);
    if skip < |data| {
      PullInExtends(Appended(b, data[skip..]));
    }
  }

  lemma {:induction false} RunGrows(isn: u32, s: seq<byte>, r: Reader, ops: seq<Op>)
    requires forall op <- ops :: IsSlice(s, op)
    ensures Received(r) <= Received(Run(isn, s, r, ops))
    ensures r.buf.capped ==> Run(isn, s, r, ops).buf.capped
    decreases |ops|
  {
    if ops != [] {
      hide Received, Step;
      StepGrows(isn, s, r, ops[0]);
      RunGrows(isn, s, Step(isn, s, r, ops[0]), ops[1..]);
    }
  }

  /** One slice that starts at or before the position brings the reader to its end. */
  lemma StepReaches(isn: u32, s: seq<byte>, r: Reader, base: nat, o: nat, n: nat)
    requires |s| < MODULUS && o + n <= |s| && 0 < n <= 0x4000_0000
    requires Faithful(isn, s, r, base) && r.buf.baseSeq.Some? && o <= Position(r, base)
    requires !Step(isn, s, r, Segment(o, n)).buf.capped
    ensures Position(Step(isn, s, r, Segment(o, n)), base) >= o + n
  {
    var m, data := Position(r, base), s[o..o + n];
    if m < o + n {
      InsertByOffset(isn, r.buf, m, o, data);
    } else {
      StepGrows(isn, s, r, Segment(o, n));
    }
  }

  /** What a run has anchored, and that what comes after does not change it. */
  lemma {:induction false} AnchorOf(isn: u32, s: seq<byte>, r: Reader, ops: seq<Op>, more: seq<Op>)
    requires |s| < MODULUS && forall op <- ops :: IsSlice(s, op)
    requires r.buf.baseSeq.None? && Faithful(isn, s, r, FirstOffset(ops))
    ensures FirstOffset(ops + more) == FirstOffset(if Run(isn, s, r, ops).buf.baseSeq.None? then more else ops)
    decreases |ops|
  {
    if ops == [] {
      assert [] + more == more;
    } else {
      StepFaithful(isn, s, r, FirstOffset(ops), ops[0]);
      var r' := Step(isn, s, r, ops[0]);
      assert (ops + more)[0] == ops[0] && (ops + more)[1..] == ops[1..] + more;
      if r'.buf.baseSeq.None? {
        AnchorOf(isn, s, r', ops[1..], more);
      } else {
        StaysAnchored(isn, s, r', ops[1..]);
      }
    }
  }

  lemma {:induction false} StaysAnchored(isn: u32, s: seq<byte>, r: Reader, ops: seq<Op>)
    requires forall op <- ops :: IsSlice(s, op)
    requires r.buf.baseSeq.Some?
    ensures Run(isn, s, r, ops).buf.baseSeq == r.buf.baseSeq
    decreases |ops|
  {
    if ops != [] {
      assert IsSlice(s, ops[0]);
      match ops[0] {
        case Segment(from, len) => { InsertAnchors(r.buf, At(isn, from), s[from..from + len]); }
        case _ => {}
      }
      hide Insert;
      StaysAnchored(isn, s, Step(isn, s, r, ops[0]), ops[1..]);
    }
  }

  lemma AnchoredFaithful(isn: u32, s: seq<byte>, r: Reader, first: nat, o: nat)
    requires o <= |s| && Faithful(isn, s, r, first)
    ensures Faithful(isn, s, r.(buf := Anchor(r.buf, At(isn, o))), if r.buf.baseSeq.None? then o else first)
  {
  }

  /** The reader on which the next slice falls, anchored by it if nothing came before. */
  lemma ReaderBefore(isn: u32, s: seq<byte>, xs: seq<Op>, o: nat, n: nat, ys: seq<Op>)
    requires |s| < MODULUS && n > 0 && o + n <= |s| && forall op <- xs :: IsSlice(s, op)
    ensures var r := Run(isn, s, START, xs);
      Faithful(isn, s, r.(buf := Anchor(r.buf, At(isn, o))), FirstOffset(xs + ([Segment(o, n)] + ys)))
  {
    var rest := [Segment(o, n)] + ys;
    assert FirstOffset(rest) == o;
    assert Faithful(isn, s, START, FirstOffset(xs));
    hide Run, At, Faithful, FirstOffset, Anchor;
    AnchorOf(isn, s, START, xs, rest);
    RunFaithful(isn, s, START, FirstOffset(xs), xs);
    AnchoredFaithful(isn, s, Run(isn, s, START, xs), FirstOffset(xs), o);
  }

  lemma SplitRun(isn: u32, s: seq<byte>, xs: seq<Op>, op: Op, ys: seq<Op>)
    requires forall x <- xs + ([op] + ys) :: IsSlice(s, x)
    ensures (forall x <- xs :: IsSlice(s, x)) && (forall y <- ys :: IsSlice(s, y)) && IsSlice(s, op)
    ensures Run(isn, s, START, xs + ([op] + ys)) == Run(isn, s, Step(isn, s, Run(isn, s, START, xs), op), ys)
  {
    hide Step;
    var rest := [op] + ys;
    RunAppend(isn, s, START, xs, rest);
    assert rest[1..] == ys && rest[0] == op && op in rest;
    assert forall y <- ys :: y in rest;
  }

  /**
   PROGRESS. In every run that ends without the cap, a slice that starts at or before the reader's
   position when it arrives is received to its end, however much of it was there before.
   */
  lemma DeliveredIsReceived(isn: u32, s: seq<byte>, xs: seq<Op>, o: nat, n: nat, ys: seq<Op>)
    requires |s| < MODULUS && forall op <- xs + ([Segment(o, n)] + ys) :: IsSlice(s, op)
    requires 0 < n <= 0x4000_0000 && !Run(isn, s, START, xs + ([Segment(o, n)] + ys)).buf.capped
    requires (forall op <- xs :: IsSlice(s, op))
      && o <= FirstOffset(xs + ([Segment(o, n)] + ys)) + |Received(Run(isn, s, START, xs))|
    ensures FirstOffset(xs + ([Segment(o, n)] + ys)) + |Received(Run(isn, s, START, xs + ([Segment(o, n)] + ys)))| >= o + n
  {
    var op, base := Segment(o, n), FirstOffset(xs + ([Segment(o, n)] + ys));
    SplitRun(isn, s, xs, op, ys);
    var r := Run(isn, s, START, xs);
    var r' := Step(isn, s, r, op);
    RunGrows(isn, s, r', ys);
    ReaderBefore(isn, s, xs, o, n, ys);
    var a := r.(buf := Anchor(r.buf, At(isn, o)));
    assert Step(isn, s, a, op) == r' && Position(a, base) == base + |Received(r)|;
    hide Faithful, Step, Run, FirstOffset;
    StepReaches(isn, s, a, base, o, n);
  }
}
