/**
 The length limit in `Safety` is exact. Once a stream reaches 2^32 bytes, a retransmission of
 its first byte can be parked as a "future" segment and is pulled in after the number wraps.
 */
module ReassemblyLimits {
  import opened Bytes
  import opened SerialNumbers
  import opened Reassembly
  import opened ReassemblyRuns

  /** The run's output is the stream from its anchor onward, as far as it goes. */
  predicate SafeRun(isn: u32, s: seq<byte>, ops: seq<Op>)
    requires forall op <- ops :: IsSlice(s, op)
  {
    var out, base := Received(Run(isn, s, START, ops)), FirstOffset(ops);
    base + |out| <= |s| && out == s[base..base + |out|]
  }

  ghost predicate AlwaysSafe(n: nat) {
    forall isn, s: seq<byte>, ops | |s| == n && (forall op <- ops :: IsSlice(s, op)) :: SafeRun(isn, s, ops)
  }

  /** A reader that has drained the first `m` bytes and holds only `parked`. */
  function Drained(isn: u32, s: seq<byte>, m: nat, parked: map<u32, seq<byte>>): Reader
    requires m <= |s|
  {
    Reader(Buffer([], parked, Some(isn), At(isn, m), if parked == map[] then 0 else 1, false, false), s[..m])
  }

  /** Bytes `from` to `to`, one segment each, drained as they come. */
  function FeedOps(from: int, upto: int): (ops: seq<Op>)
    requires 0 <= from <= upto
    ensures forall op <- ops :: (op.Segment? ==> op.from + op.len <= upto)
    decreases upto - from
  {
    if from == upto then [] else [Segment(from, 1), DrainOp] + FeedOps(from + 1, upto)
  }

  /** The parked map is empty or holds the first byte under the anchor's own number. */
  predicate StaleOnly(isn: u32, s: seq<byte>, parked: map<u32, seq<byte>>) {
    parked == map[] || (s != [] && parked == map[isn := s[..1]])
  }

  lemma FeedByte(isn: u32, s: seq<byte>, m: nat, parked: map<u32, seq<byte>>)
    requires m < |s| && m + 1 < MODULUS && StaleOnly(isn, s, parked)
    ensures var r := Step(isn, s, Drained(isn, s, m, parked), Segment(m, 1));
      Step(isn, s, r, DrainOp) == Drained(isn, s, m + 1, parked)
  {
    Distance(isn, m, m + 1);
    AtStep(isn, m, 1);
    assert At(isn, m + 1) != isn;
    var b := Drained(isn, s, m, parked).buf;
    assert PullIn(Appended(b, s[m..m + 1])) == Appended(b, s[m..m + 1]);
    assert s[..m] + s[m..m + 1] == s[..m + 1];
  }

  lemma {:induction false} Feed(isn: u32, s: seq<byte>, from: int, upto: int, parked: map<u32, seq<byte>>)
    requires 0 <= from <= upto <= |s| && upto < MODULUS && StaleOnly(isn, s, parked)
    ensures forall op <- FeedOps(from, upto) :: IsSlice(s, op)
    ensures Run(isn, s, Drained(isn, s, from, parked), FeedOps(from, upto)) == Drained(isn, s, upto, parked)
    decreases upto - from
  {
    if from < upto {
      FeedByte(isn, s, from, parked);
      Feed(isn, s, from + 1, upto, parked);
      var ops := FeedOps(from, upto);
      var r1 := Step(isn, s, Drained(isn, s, from, parked), ops[0]);
      assert ops[1..][1..] == FeedOps(from + 1, upto);
      assert Run(isn, s, r1, ops[1..]) == Run(isn, s, Step(isn, s, r1, ops[1]), ops[1..][1..]);
    }
  }

  const STALE_AT := 0xC000_0000

  /** The first byte, retransmitted when 3 * 2^30 bytes were consumed, is parked as if it were ahead. */
  lemma ParkStale(isn: u32, s: seq<byte>)
    requires |s| >= MODULUS
    ensures Step(isn, s, Drained(isn, s, STALE_AT, map[]), Segment(0, 1))
            == Drained(isn, s, STALE_AT, map[isn := s[..1]])
  {
    Distance(isn, STALE_AT, 0);
    Distance(isn, 0, STALE_AT);
    Distance(isn, STALE_AT, 1);
    AtStep(isn, 0, 1);
  }

  /** Consuming byte 2^32 - 1 wraps the next expected number onto the parked byte. */
  lemma PullStale(isn: u32, s: seq<byte>)
    requires |s| >= MODULUS
    ensures Received(Step(isn, s, Drained(isn, s, MODULUS - 1, map[isn := s[..1]]), Segment(MODULUS - 1, 1)))
            == s[..MODULUS] + [s[0]]
  {
    var m := MODULUS - 1;
    var r := Drained(isn, s, m, map[isn := s[..1]]);
    AtStep(isn, m, 1);
    var a := Appended(r.buf, s[m..m + 1]);
    assert a.nextSeq == isn;
    assert PullIn(a).pending == s[m..m + 1] + s[..1] by {
      var b := a.(segments := a.segments - {isn}, nextSeq := WrapAdd(isn, 1), pending := a.pending + s[..1]);
      assert b.segments == map[];
      assert PullIn(a) == PullIn(b);
    }
    Distance(isn, m, 0);
    assert !SeqLt(r.buf.nextSeq, At(isn, m));
    assert WrapSub(r.buf.nextSeq, At(isn, m)) == 0;
    assert SeqLt(r.buf.nextSeq, WrapAdd(At(isn, m), 1));
    assert s[..m] + (s[m..m + 1] + s[..1]) == s[..MODULUS] + [s[0]];
  }

  lemma Opening(isn: u32, s: seq<byte>)
    requires |s| >= MODULUS
    ensures Step(isn, s, Step(isn, s, START, Segment(0, 1)), DrainOp) == Drained(isn, s, 1, map[])
  {
    Distance(isn, 0, 1);
    AtStep(isn, 0, 1);
    assert START.drained + s[0..1] == s[..1];
    var a := Appended(Anchor(EMPTY, isn), s[0..1]);
    assert PullIn(a) == a;
  }

  lemma UpToStale(isn: u32, s: seq<byte>)
    requires |s| >= MODULUS
    ensures var ops := [Segment(0, 1), DrainOp] + FeedOps(1, STALE_AT);
      && (forall op <- ops :: IsSlice(s, op))
      && Run(isn, s, START, ops) == Drained(isn, s, STALE_AT, map[])
  {
    var ops := [Segment(0, 1), DrainOp] + FeedOps(1, STALE_AT);
    Feed(isn, s, 1, STALE_AT, map[]);
    Opening(isn, s);
    var first := Step(isn, s, START, ops[0]);
    assert ops[1..][1..] == FeedOps(1, STALE_AT);
    assert Run(isn, s, first, ops[1..]) == Run(isn, s, Step(isn, s, first, ops[1]), ops[1..][1..]);
  }

  lemma PastWrap(isn: u32, s: seq<byte>)
    requires |s| >= MODULUS
    ensures var ops := FeedOps(STALE_AT, MODULUS - 1) + [Segment(MODULUS - 1, 1)];
      && (forall op <- ops :: IsSlice(s, op))
      && Received(Run(isn, s, Drained(isn, s, STALE_AT, map[isn := s[..1]]), ops)) == s[..MODULUS] + [s[0]]
  {
    var feed, last := FeedOps(STALE_AT, MODULUS - 1), Segment(MODULUS - 1, 1);
    var stale := map[isn := s[..1]];
    Feed(isn, s, STALE_AT, MODULUS - 1, stale);
    RunAppend(isn, s, Drained(isn, s, STALE_AT, stale), feed, [last]);
    PullStale(isn, s);
    var r := Drained(isn, s, MODULUS - 1, stale);
    assert Run(isn, s, r, [last]) == Run(isn, s, Step(isn, s, r, last), []);
  }

  /** Retransmitting the first byte once, late, appends it again after byte 2^32 - 1. */
  lemma StaleRun(isn: u32, s: seq<byte>) returns (ops: seq<Op>)
    requires |s| >= MODULUS
    ensures forall op <- ops :: IsSlice(s, op)
    ensures Received(Run(isn, s, START, ops)) == s[..MODULUS] + [s[0]]
    ensures FirstOffset(ops) == 0
  {
    UpToStale(isn, s);
    ParkStale(isn, s);
    PastWrap(isn, s);
    var early := [Segment(0, 1), DrainOp] + FeedOps(1, STALE_AT);
    var late := FeedOps(STALE_AT, MODULUS - 1) + [Segment(MODULUS - 1, 1)];
    RunAppend(isn, s, START, early, [Segment(0, 1)] + late);
    assert ([Segment(0, 1)] + late)[1..] == late;
    ops := early + ([Segment(0, 1)] + late);
    assert ops[0] == Segment(0, 1);
  }

  /** The exact limit: every run over a stream of `n` bytes is safe if and only if `n` is below 2^32. */
  lemma SafetyLimit(n: nat)
    ensures AlwaysSafe(n) <==> n < 0x1_0000_0000
  {
    if n < MODULUS {
      forall isn, s: seq<byte>, ops | |s| == n && (forall op <- ops :: IsSlice(s, op))
        ensures SafeRun(isn, s, ops)
      {
        Safety(isn, s, ops);
      }
    } else {
      var s: seq<byte> := seq(n, i => if i == 0 then 1 else 0);
      Unsafe(s);
    }
  }

  lemma Unsafe(s: seq<byte>)
    requires |s| >= MODULUS && s[0] == 1 && (|s| > MODULUS ==> s[MODULUS] == 0)
    ensures exists ops :: (forall op <- ops :: IsSlice(s, op)) && !SafeRun(0, s, ops)
  {
    var ops := StaleRun(0, s);
    var out := s[..MODULUS] + [s[0]];
    if |s| > MODULUS {
      assert out[MODULUS] != s[MODULUS];
    }
    assert !SafeRun(0, s, ops);
  }
}
