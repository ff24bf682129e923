/**
 Order independence of reassembly: a stream cut into consecutive pieces is recovered whole
 from any delivery order, with repeats and drains anywhere, as long as the piece at the start
 comes first and the buffer cap is never hit.
 */
module ReassemblyOrder {
  import opened Bytes
  import opened SerialNumbers
  import opened Reassembly
  import opened ReassemblyRuns

  /** Piece `i` is the stream from `cuts[i]` to `cuts[i + 1]`. */
  datatype Delivery = Piece(i: nat) | DrainNow | FinNow

  predicate IsCut(s: seq<byte>, cuts: seq<nat>) {
    && |cuts| >= 2 && cuts[0] == 0 && cuts[|cuts| - 1] == |s|
    && forall i, j :: 0 <= i < j < |cuts| ==> cuts[i] < cuts[j]
  }

  predicate IsDelivery(cuts: seq<nat>, d: Delivery) {
    d.Piece? ==> d.i + 1 < |cuts|
  }

  function ToOp(s: seq<byte>, cuts: seq<nat>, d: Delivery): (op: Op)
    requires IsCut(s, cuts) && IsDelivery(cuts, d)
    ensures IsSlice(s, op)
  {
    match d
    case Piece(i) =>
      assert cuts[i + 1] <= cuts[|cuts| - 1];
      Segment(cuts[i], cuts[i + 1] - cuts[i])
    case DrainNow => DrainOp
    case FinNow => FinOp
  }

  function ToOps(s: seq<byte>, cuts: seq<nat>, ds: seq<Delivery>): (ops: seq<Op>)
    requires IsCut(s, cuts) && forall d <- ds :: IsDelivery(cuts, d)
    ensures |ops| == |ds| && forall op <- ops :: IsSlice(s, op)
  {
    if ds == [] then [] else [ToOp(s, cuts, ds[0])] + ToOps(s, cuts, ds[1..])
  }

  function Deliver(isn: u32, s: seq<byte>, cuts: seq<nat>, r: Reader, ds: seq<Delivery>): Reader
    requires IsCut(s, cuts) && forall d <- ds :: IsDelivery(cuts, d)
    decreases |ds|
  {
    if ds == [] then r
    else Deliver(isn, s, cuts, Step(isn, s, r, ToOp(s, cuts, ds[0])), ds[1..])
  }

  lemma {:induction false} DeliverIsRun(isn: u32, s: seq<byte>, cuts: seq<nat>, r: Reader, ds: seq<Delivery>)
    requires IsCut(s, cuts) && forall d <- ds :: IsDelivery(cuts, d)
    ensures Deliver(isn, s, cuts, r, ds) == Run(isn, s, r, ToOps(s, cuts, ds))
    decreases |ds|
  {
    if ds != [] {
      var ops := ToOps(s, cuts, ds);
      assert ops[0] == ToOp(s, cuts, ds[0]) && ops[1..] == ToOps(s, cuts, ds[1..]);
      DeliverIsRun(isn, s, cuts, Step(isn, s, r, ops[0]), ds[1..]);
    }
  }

  function Pieces(ds: seq<Delivery>): set<nat> {
    set d <- ds | d.Piece? :: d.i
  }

  // ---------------------------------------------------------------- the invariant

  /** Delivered piece `i` waits under its own number. */
  predicate Waiting(isn: u32, s: seq<byte>, cuts: seq<nat>, segments: map<u32, seq<byte>>, i: nat)
    requires IsCut(s, cuts) && i + 1 < |cuts|
  {
    var k := At(isn, cuts[i]);
    k in segments && cuts[i] <= cuts[i + 1] <= |s| && segments[k] == s[cuts[i]..cuts[i + 1]]
  }

  /** Key `k` is the number of a delivered piece at or after `p`. */
  ghost predicate KeyOfPiece(isn: u32, cuts: seq<nat>, done: set<nat>, p: nat, k: u32) {
    exists i: nat :: i in done && p <= i && i < |cuts| && k == At(isn, cuts[i])
  }

  /** The stored segments are exactly the delivered pieces at or after `p`. */
  ghost predicate Parked(isn: u32, s: seq<byte>, cuts: seq<nat>, segments: map<u32, seq<byte>>, done: set<nat>, p: nat) {
    && IsCut(s, cuts)
    && (forall i <- done :: i + 1 < |cuts|)
    && (forall i <- done :: p <= i ==> Waiting(isn, s, cuts, segments, i))
    && (forall k <- segments :: KeyOfPiece(isn, cuts, done, p, k))
  }

  /** Pieces before `p` are contiguous, `p` is missing, and exactly the later delivered ones wait. */
  ghost predicate Ordered(isn: u32, s: seq<byte>, cuts: seq<nat>, r: Reader, done: set<nat>, p: nat) {
    && Parked(isn, s, cuts, r.buf.segments, done, p)
    && p < |cuts|
    && (forall i: nat :: i < p ==> i in done)
    && p !in done
    && r.buf.baseSeq == Some(At(isn, 0))
    && Received(r) == s[..cuts[p]]
    && r.buf.nextSeq == At(isn, cuts[p])
  }

  lemma CutsDiffer(isn: u32, s: seq<byte>, cuts: seq<nat>, i: nat, j: nat)
    requires IsCut(s, cuts) && |s| < MODULUS && i < |cuts| && j < |cuts|
    ensures At(isn, cuts[i]) == At(isn, cuts[j]) ==> i == j
    ensures cuts[i] <= |s| && cuts[j] <= |s|
  {
    OffsetOfAt(isn, cuts[i]);
    OffsetOfAt(isn, cuts[j]);
  }

  lemma UnparkNext(isn: u32, s: seq<byte>, cuts: seq<nat>, segments: map<u32, seq<byte>>, done: set<nat>, p: nat)
    requires Parked(isn, s, cuts, segments, done, p) && |s| < MODULUS && p < |cuts|
    ensures At(isn, cuts[p]) in segments <==> p in done
    ensures p in done ==> p + 1 < |cuts| && Waiting(isn, s, cuts, segments, p)
    ensures Parked(isn, s, cuts, segments - {At(isn, cuts[p])}, done, p + 1)
  {
    var key := At(isn, cuts[p]);
    var rest := segments - {key};
    if key in segments {
      assert KeyOfPiece(isn, cuts, done, p, key);
      var i: nat :| i in done && p <= i && i < |cuts| && key == At(isn, cuts[i]);
      CutsDiffer(isn, s, cuts, i, p);
    }
    forall j <- done | p + 1 <= j
      ensures Waiting(isn, s, cuts, rest, j)
    {
      assert Waiting(isn, s, cuts, segments, j);
      CutsDiffer(isn, s, cuts, j, p);
    }
    forall k <- rest
      ensures KeyOfPiece(isn, cuts, done, p + 1, k)
    {
      assert KeyOfPiece(isn, cuts, done, p, k);
    }
  }

  lemma ParkPiece(isn: u32, s: seq<byte>, cuts: seq<nat>, segments: map<u32, seq<byte>>, done: set<nat>, p: nat, i: nat)
    requires Parked(isn, s, cuts, segments, done, p) && |s| < MODULUS && p <= i && i + 1 < |cuts|
    requires cuts[i] <= cuts[i + 1] <= |s|
    ensures At(isn, cuts[i]) in segments ==> i in done
    ensures Parked(isn, s, cuts, segments[At(isn, cuts[i]) := s[cuts[i]..cuts[i + 1]]], done + {i}, p)
  {
    var key := At(isn, cuts[i]);
    var more := segments[key := s[cuts[i]..cuts[i + 1]]];
    if key in segments {
      assert KeyOfPiece(isn, cuts, done, p, key);
      var j: nat :| j in done && p <= j && j < |cuts| && key == At(isn, cuts[j]);
      CutsDiffer(isn, s, cuts, i, j);
    }
    forall j <- done + {i} | p <= j
      ensures Waiting(isn, s, cuts, more, j)
    {
      CutsDiffer(isn, s, cuts, i, j);
      if j != i {
        assert Waiting(isn, s, cuts, segments, j);
      }
    }
    forall k <- more
      ensures KeyOfPiece(isn, cuts, done + {i}, p, k)
    {
      if k == key {
        assert i in done + {i};
      } else {
        assert KeyOfPiece(isn, cuts, done, p, k);
      }
    }
  }

  /** Adding piece `p` to what is done leaves what waits after `p` unchanged. */
  lemma ParkedBeyond(isn: u32, s: seq<byte>, cuts: seq<nat>, segments: map<u32, seq<byte>>, done: set<nat>, p: nat)
    requires Parked(isn, s, cuts, segments, done, p) && p !in done && p + 1 < |cuts| && |s| < MODULUS
    ensures Parked(isn, s, cuts, segments, done + {p}, p + 1)
  {
    UnparkNext(isn, s, cuts, segments, done, p);
    assert segments - {At(isn, cuts[p])} == segments;
    forall k <- segments
      ensures KeyOfPiece(isn, cuts, done + {p}, p + 1, k)
    {
      assert KeyOfPiece(isn, cuts, done, p + 1, k);
    }
  }

  /** Pulling in when the pieces before `p` are contiguous and the later delivered ones wait. */
  lemma {:induction false} PullInOrdered(isn: u32, s: seq<byte>, cuts: seq<nat>, r: Reader, done: set<nat>, p: nat)
    returns (q: nat)
    requires Parked(isn, s, cuts, r.buf.segments, done, p) && |s| < MODULUS && p < |cuts|
    requires forall i: nat :: i < p ==> i in done
    requires r.buf.baseSeq == Some(At(isn, 0))
    requires Received(r) == s[..cuts[p]]
    requires r.buf.nextSeq == At(isn, cuts[p])
    ensures Ordered(isn, s, cuts, r.(buf := PullIn(r.buf)), done, q)
    decreases |cuts| - p
  {
    var b := r.buf;
    UnparkNext(isn, s, cuts, b.segments, done, p);
    if p !in done {
      return p;
    }
    var d := b.segments[b.nextSeq];
    AtStep(isn, cuts[p], |d|);
    ExtendReceived(s, cuts, r, p, d);
    q := PullInOrdered(isn, s, cuts, r.(buf := b.(segments := b.segments - {b.nextSeq},
                                                  nextSeq := WrapAdd(b.nextSeq, |d|),
                                                  pending := b.pending + d)), done, p + 1);
  }

  lemma ExtendReceived(s: seq<byte>, cuts: seq<nat>, r: Reader, p: nat, d: seq<byte>)
    requires IsCut(s, cuts) && p + 1 < |cuts| && cuts[p] <= cuts[p + 1] <= |s|
    requires Received(r) == s[..cuts[p]] && d == s[cuts[p]..cuts[p + 1]]
    ensures r.drained + (r.buf.pending + d) == s[..cuts[p + 1]]
    ensures |d| == cuts[p + 1] - cuts[p]
  {
    assert s[..cuts[p]] + d == s[..cuts[p + 1]];
    assert r.drained + (r.buf.pending + d) == (r.drained + r.buf.pending) + d;
  }

  lemma AppendOrdered(isn: u32, s: seq<byte>, cuts: seq<nat>, r: Reader, done: set<nat>, p: nat)
    returns (q: nat)
    requires Ordered(isn, s, cuts, r, done, p) && p + 1 < |cuts| && |s| < MODULUS
    requires cuts[p] <= cuts[p + 1] <= |s|
    requires !Store(r.buf, At(isn, cuts[p]), s[cuts[p]..cuts[p + 1]]).0.capped
    ensures Ordered(isn, s, cuts, r.(buf := Store(r.buf, At(isn, cuts[p]), s[cuts[p]..cuts[p + 1]]).0), done + {p}, q)
  {
    var b, d := r.buf, s[cuts[p]..cuts[p + 1]];
    AtStep(isn, cuts[p], |d|);
    ExtendReceived(s, cuts, r, p, d);
    ParkedBeyond(isn, s, cuts, b.segments, done, p);
    var r' := r.(buf := Appended(b, d));
    assert Received(r') == s[..cuts[p + 1]];
    q := PullInOrdered(isn, s, cuts, r', done + {p}, p + 1);
  }

  lemma ReplaceParked(isn: u32, s: seq<byte>, cuts: seq<nat>, r: Reader, b': Buffer, done: set<nat>, p: nat, i: nat)
    requires Ordered(isn, s, cuts, r, done, p) && p < i
    requires Parked(isn, s, cuts, b'.segments, done + {i}, p)
    requires b' == r.buf.(segments := b'.segments, totalBuffered := b'.totalBuffered)
    ensures Ordered(isn, s, cuts, r.(buf := b'), done + {i}, p)
  {
  }

  function WithSegment(segments: map<u32, seq<byte>>, number: u32, data: seq<byte>): map<u32, seq<byte>> {
    if number in segments then segments else segments[number := data]
  }

  lemma StoreParks(b: Buffer, number: u32, data: seq<byte>)
    requires number != b.nextSeq && !Store(b, number, data).0.capped
    ensures var b' := Store(b, number, data).0;
      b' == b.(segments := WithSegment(b.segments, number, data), totalBuffered := b'.totalBuffered)
  {
  }

  lemma ParkOrdered(isn: u32, s: seq<byte>, cuts: seq<nat>, r: Reader, done: set<nat>, p: nat, i: nat)
    requires Ordered(isn, s, cuts, r, done, p) && p < i && i + 1 < |cuts| && |s| < MODULUS
    requires cuts[i] <= cuts[i + 1] <= |s|
    requires !Store(r.buf, At(isn, cuts[i]), s[cuts[i]..cuts[i + 1]]).0.capped
    ensures Ordered(isn, s, cuts, r.(buf := Store(r.buf, At(isn, cuts[i]), s[cuts[i]..cuts[i + 1]]).0), done + {i}, p)
  {
    var number, d := At(isn, cuts[i]), s[cuts[i]..cuts[i + 1]];
    CutsDiffer(isn, s, cuts, i, p);
    StoreParks(r.buf, number, d);
    ParkPiece(isn, s, cuts, r.buf.segments, done, p, i);
    if number in r.buf.segments {
      assert done + {i} == done;
    }
    ReplaceParked(isn, s, cuts, r, Store(r.buf, number, d).0, done, p, i);
  }

  /** A segment that ends at or before the current position changes nothing. */
  lemma InsertConsumed(isn: u32, s: seq<byte>, b: Buffer, m: nat, from: nat, upTo: nat)
    requires b.baseSeq.Some? && b.nextSeq == At(isn, m) && |s| <= MAX_FORWARD_GAP
    requires from < upTo <= m <= |s|
    ensures Insert(b, At(isn, from), s[from..upTo]).0 == b
  {
    AtStep(isn, from, upTo - from);
    Distance(isn, m, from);
    Distance(isn, m, upTo);
  }

  /** A segment that starts at or beyond the current position is stored untrimmed. */
  lemma InsertAhead(isn: u32, s: seq<byte>, b: Buffer, m: nat, from: nat, upTo: nat)
    requires b.baseSeq.Some? && b.nextSeq == At(isn, m) && |s| <= MAX_FORWARD_GAP
    requires m <= from < upTo <= |s|
    ensures Insert(b, At(isn, from), s[from..upTo]) == Store(b, At(isn, from), s[from..upTo])
  {
    AtStep(isn, from, upTo - from);
    Distance(isn, from, m);
    Distance(isn, m, from);
    Distance(isn, m, upTo);
  }

  /** Delivering piece `i` to an anchored buffer: consumed, next, or still ahead of a gap. */
  lemma DeliverPiece(isn: u32, s: seq<byte>, cuts: seq<nat>, r: Reader, done: set<nat>, p: nat, i: nat)
    returns (q: nat)
    requires Ordered(isn, s, cuts, r, done, p) && i + 1 < |cuts| && |s| <= MAX_FORWARD_GAP
    requires !Step(isn, s, r, ToOp(s, cuts, Piece(i))).buf.capped
    ensures Ordered(isn, s, cuts, Step(isn, s, r, ToOp(s, cuts, Piece(i))), done + {i}, q)
  {
    hide Store, Received, At;
    CutsDiffer(isn, s, cuts, i, i + 1);
    CutsDiffer(isn, s, cuts, i, p);
    if i < p {
      assert cuts[i + 1] <= cuts[p];
      InsertConsumed(isn, s, r.buf, cuts[p], cuts[i], cuts[i + 1]);
      assert done + {i} == done;
      q := p;
    } else {
      InsertAhead(isn, s, r.buf, cuts[p], cuts[i], cuts[i + 1]);
      if i == p {
        q := AppendOrdered(isn, s, cuts, r, done, p);
      } else {
        ParkOrdered(isn, s, cuts, r, done, p, i);
        q := p;
      }
    }
  }

  lemma StepKeepsCapped(isn: u32, s: seq<byte>, r: Reader, op: Op)
    requires IsSlice(s, op) && r.buf.capped
    ensures Step(isn, s, r, op).buf.capped
  {
  }

  lemma {:induction false} CappedIsSticky(isn: u32, s: seq<byte>, cuts: seq<nat>, r: Reader, ds: seq<Delivery>)
    requires IsCut(s, cuts) && (forall d <- ds :: IsDelivery(cuts, d)) && r.buf.capped
    ensures Deliver(isn, s, cuts, r, ds).buf.capped
    decreases |ds|
  {
    if ds != [] {
      StepKeepsCapped(isn, s, r, ToOp(s, cuts, ds[0]));
      CappedIsSticky(isn, s, cuts, Step(isn, s, r, ToOp(s, cuts, ds[0])), ds[1..]);
    }
  }

  lemma {:induction false} DeliverOrdered(isn: u32, s: seq<byte>, cuts: seq<nat>, r: Reader, done: set<nat>, p: nat, ds: seq<Delivery>)
    returns (q: nat)
    requires Ordered(isn, s, cuts, r, done, p) && |s| <= MAX_FORWARD_GAP
    requires forall d <- ds :: IsDelivery(cuts, d)
    requires !Deliver(isn, s, cuts, r, ds).buf.capped
    ensures Ordered(isn, s, cuts, Deliver(isn, s, cuts, r, ds), done + Pieces(ds), q)
    decreases |ds|
  {
    if ds == [] {
      assert done + Pieces(ds) == done;
      return p;
    }
    var d := ds[0];
    var next := Step(isn, s, r, ToOp(s, cuts, d));
    if next.buf.capped {
      CappedIsSticky(isn, s, cuts, next, ds[1..]);
    }
    var done' := if d.Piece? then done + {d.i} else done;
    var q0 := p;
    if d.Piece? {
      q0 := DeliverPiece(isn, s, cuts, r, done, p, d.i);
    } else {
      assert Received(next) == Received(r);
    }
    q := DeliverOrdered(isn, s, cuts, next, done', q0, ds[1..]);
    assert ds == [d] + ds[1..];
    assert done + Pieces(ds) == done' + Pieces(ds[1..]);
  }

  /** The very first piece, delivered to an empty buffer, anchors the stream at its start. */
  lemma FirstPiece(isn: u32, s: seq<byte>, cuts: seq<nat>)
    requires IsCut(s, cuts) && |s| <= MAX_FORWARD_GAP
    requires !Step(isn, s, START, ToOp(s, cuts, Piece(0))).buf.capped
    ensures Ordered(isn, s, cuts, Step(isn, s, START, ToOp(s, cuts, Piece(0))), {0}, 1)
  {
    CutsDiffer(isn, s, cuts, 0, 1);
    var d := s[cuts[0]..cuts[1]];
    Distance(isn, 0, cuts[1]);
    AtStep(isn, 0, |d|);
    assert s[..cuts[1]] == d;
    assert START.drained + ([] + d) == d;
  }

  /**
   ORDER INDEPENDENCE. When every piece is delivered at least once and the cap is never hit,
   the reader holds the whole stream exactly when the piece at the start came first; then no
   segment is left behind and the stream is complete once FIN is marked.
   */
  lemma OrderIndependence(isn: u32, s: seq<byte>, cuts: seq<nat>, ds: seq<Delivery>)
    requires IsCut(s, cuts) && |s| <= MAX_FORWARD_GAP
    requires forall d <- ds :: IsDelivery(cuts, d)
    requires ds != [] && ds[0].Piece?
    requires forall i: nat :: i + 1 < |cuts| ==> i in Pieces(ds)
    requires !Deliver(isn, s, cuts, START, ds).buf.capped
    ensures var r := Deliver(isn, s, cuts, START, ds);
      && (Received(r) == s <==> ds[0] == Piece(0))
      && (ds[0] == Piece(0) ==> r.buf.segments == map[] && IsComplete(MarkFin(r.buf)))
  {
    var r := Deliver(isn, s, cuts, START, ds);
    if ds[0] == Piece(0) {
      var r1 := Step(isn, s, START, ToOp(s, cuts, ds[0]));
      if r1.buf.capped {
        CappedIsSticky(isn, s, cuts, r1, ds[1..]);
      }
      FirstPiece(isn, s, cuts);
      var q := DeliverOrdered(isn, s, cuts, r1, {0}, 1, ds[1..]);
      assert ds == [ds[0]] + ds[1..];
      assert {0} + Pieces(ds[1..]) == Pieces(ds);
      assert q + 1 == |cuts|;
      assert s[..cuts[q]] == s;
    } else {
      DeliverIsRun(isn, s, cuts, START, ds);
      var ops := ToOps(s, cuts, ds);
      assert ops[0] == ToOp(s, cuts, ds[0]);
      Safety(isn, s, ops);
      assert FirstOffset(ops) == cuts[ds[0].i] > 0;
    }
  }

  // ---------------------------------------------------------------- when the cap cannot be hit

  function Weight(cuts: seq<nat>, i: nat, counted: bool): int
    requires i + 1 < |cuts|
  {
    if counted then (cuts[i + 1] as int) - cuts[i] else 0
  }

  /** Total length of the pieces in `done` with index below `n`. */
  function Held(cuts: seq<nat>, done: set<nat>, n: nat): int
    requires n < |cuts|
  {
    if n == 0 then 0
    else Held(cuts, done, n - 1) + Weight(cuts, n - 1, n - 1 in done)
  }

  lemma {:induction false} HeldBounded(cuts: seq<nat>, done: set<nat>, n: nat)
    requires n < |cuts| && forall i, j :: 0 <= i < j < |cuts| ==> cuts[i] < cuts[j]
    ensures 0 <= Held(cuts, done, n) <= cuts[n] - cuts[0]
  {
    if n > 0 {
      HeldBounded(cuts, done, n - 1);
    }
  }

  lemma {:induction false} HeldAdd(cuts: seq<nat>, done: set<nat>, i: nat, n: nat)
    requires n < |cuts| && i !in done
    requires i + 1 < |cuts|
    ensures Held(cuts, done + {i}, n) == Held(cuts, done, n) + Weight(cuts, i, i < n)
  {
    if n > 0 {
      HeldAdd(cuts, done, i, n - 1);
    }
  }

  lemma InsertGrowth(b: Buffer, number: u32, data: seq<byte>)
    requires !b.capped && b.totalBuffered + |data| <= MAX_STREAM_BUFFER
    ensures var r := Insert(b, number, data).0; !r.capped && r.totalBuffered <= b.totalBuffered + |data|
  {
    var a := Anchor(b, number);
    var skip := WrapSub(a.nextSeq, number);
    var rest := if SeqLt(number, a.nextSeq) && skip < |data| then data[skip..] else data;
    PullInAccounting(Appended(a, rest));
  }

  lemma {:induction false} NeverCapped(isn: u32, s: seq<byte>, cuts: seq<nat>, r: Reader, done: set<nat>, ds: seq<Delivery>)
    requires IsCut(s, cuts) && |s| <= MAX_STREAM_BUFFER
    requires forall d <- ds :: IsDelivery(cuts, d)
    requires forall i, j :: 0 <= i < j < |ds| && ds[i].Piece? ==> ds[i] != ds[j]
    requires Pieces(ds) !! done
    requires !r.buf.capped && r.buf.totalBuffered <= Held(cuts, done, |cuts| - 1)
    ensures !Deliver(isn, s, cuts, r, ds).buf.capped
    decreases |ds|
  {
    if ds != [] {
      hide Insert, Held, Weight, Received, At;
      var d := ds[0];
      var next := Step(isn, s, r, ToOp(s, cuts, d));
      assert Pieces(ds[1..]) <= Pieces(ds);
      if d.Piece? {
        assert d.i in Pieces(ds);
        HeldAdd(cuts, done, d.i, |cuts| - 1);
        HeldBounded(cuts, done + {d.i}, |cuts| - 1);
        InsertGrowth(r.buf, At(isn, cuts[d.i]), s[cuts[d.i]..cuts[d.i + 1]]);
        assert d.i !in Pieces(ds[1..]);
        NeverCapped(isn, s, cuts, next, done + {d.i}, ds[1..]);
      } else {
        NeverCapped(isn, s, cuts, next, done, ds[1..]);
      }
    }
  }

  /** Pieces totalling at most the cap, each delivered exactly once, in any order after the first. */
  lemma EachPieceOnce(isn: u32, s: seq<byte>, cuts: seq<nat>, ds: seq<Delivery>)
    requires IsCut(s, cuts) && |s| <= MAX_STREAM_BUFFER
    requires forall d <- ds :: IsDelivery(cuts, d)
    requires ds != [] && ds[0] == Piece(0)
    requires forall i: nat :: i + 1 < |cuts| ==> i in Pieces(ds)
    requires forall i, j :: 0 <= i < j < |ds| && ds[i].Piece? ==> ds[i] != ds[j]
    ensures var r := Deliver(isn, s, cuts, START, ds);
      Received(r) == s && r.buf.segments == map[] && IsComplete(MarkFin(r.buf))
  {
    HeldBounded(cuts, {}, |cuts| - 1);
    NeverCapped(isn, s, cuts, START, {}, ds);
    OrderIndependence(isn, s, cuts, ds);
  }

  /** Over any run, the stream is complete exactly when its end was announced and no segment waits. */
  lemma {:induction false} CompleteExactly(isn: u32, s: seq<byte>, ops: seq<Op>)
    requires forall op <- ops :: IsSlice(s, op)
    ensures var b := Run(isn, s, START, ops).buf; IsComplete(b) <==> FinOp in ops && b.segments == map[]
  {
    FinNoted(isn, s, START, ops);
  }

  lemma {:induction false} FinNoted(isn: u32, s: seq<byte>, r: Reader, ops: seq<Op>)
    requires forall op <- ops :: IsSlice(s, op)
    ensures Run(isn, s, r, ops).buf.fin <==> r.buf.fin || FinOp in ops
    decreases |ops|
  {
    if ops != [] {
      FinStep(isn, s, r, ops[0]);
      FinNoted(isn, s, Step(isn, s, r, ops[0]), ops[1..]);
      assert FinOp in ops <==> ops[0] == FinOp || FinOp in ops[1..];
    }
  }

  lemma FinStep(isn: u32, s: seq<byte>, r: Reader, op: Op)
    requires IsSlice(s, op)
    ensures Step(isn, s, r, op).buf.fin <==> r.buf.fin || op == FinOp
  {
    match op
    case Segment(from, len) =>
      InsertKeepsFin(r.buf, At(isn, from), s[from..from + len]);
    case _ =>
  }

  lemma InsertKeepsFin(b: Buffer, number: u32, data: seq<byte>)
    ensures Insert(b, number, data).0.fin == b.fin
  {
    if data != [] {
      var b1 := Anchor(b, number);
      StoreKeepsFin(b1, number, data);
      var skip := WrapSub(b1.nextSeq, number);
      if skip < |data| {
        StoreKeepsFin(b1, b1.nextSeq, data[skip..]);
      }
    }
    hide SeqLt, WrapSub, Store, WrapAdd;
  }

  lemma StoreKeepsFin(b: Buffer, number: u32, data: seq<byte>)
    ensures Store(b, number, data).0.fin == b.fin
  {
    PullInKeepsFin(Appended(b, data));
  }

  lemma {:induction false} PullInKeepsFin(b: Buffer)
    ensures PullIn(b).fin == b.fin
    decreases |b.segments|
  {
    if b.nextSeq in b.segments {
      var segment := b.segments[b.nextSeq];
      PullInKeepsFin(b.(segments := b.segments - {b.nextSeq},
                        nextSeq := WrapAdd(b.nextSeq, |segment|),
                        pending := b.pending + segment));
    }
  }
}
