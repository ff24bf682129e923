/** What the running volume statistics mean over the whole history of one process. */
module VolumeLaws {
  import opened Bytes
  import opened AlertTypes
  import opened AlertStore
  import opened AlertBaseline

  /** Bytes and the time they were seen. */
  type Feed = (nat, int)

  /** The row and the samples closed so far, from every feed in order. */
  function Replay(cfg: Config, feeds: seq<Feed>): (r: (Option<VolumeStat>, seq<Sample>))
    ensures r.0.Some? <==> feeds != []
  {
    if feeds == [] then (None, []) else
    var before, last := Replay(cfg, feeds[..|feeds| - 1]), feeds[|feeds| - 1];
    var fed := Fed(cfg, before.0, last.0, last.1);
    (Some(fed.0), if fed.1.Some? then before.1 + [fed.1.value] else before.1)
  }

  function Values(closed: seq<Sample>): (xs: seq<real>)
    ensures |xs| == |closed|
  {
    if closed == [] then [] else Values(closed[..|closed| - 1]) + [closed[|closed| - 1].x]
  }

  // ---------------------------------------------------------------- weighted sums

  function Pow(b: real, n: nat): real {
    if n == 0 then 1.0 else b * Pow(b, n - 1)
  }

  /** The weight of sample `i` among `n`: the first seeds the mean, each later one enters with `alpha`. */
  function Weight(alpha: real, i: nat, n: nat): real
    requires i < n
  {
    if i == 0 then Pow(1.0 - alpha, n - 1) else alpha * Pow(1.0 - alpha, n - 1 - i)
  }

  function Times(w: real, x: real): real {
    w * x
  }

  /** The weighted sum of the first samples of `n`. */
  function Weighted(alpha: real, n: nat, xs: seq<real>): real
    requires |xs| <= n
  {
    if xs == [] then 0.0 else
    Weighted(alpha, n, xs[..|xs| - 1]) + Times(Weight(alpha, |xs| - 1, n), xs[|xs| - 1])
  }

  lemma Append(alpha: real, n: nat, xs: seq<real>, x: real)
    requires |xs| < n
    ensures Weighted(alpha, n, xs + [x]) == Weighted(alpha, n, xs) + Times(Weight(alpha, |xs|, n), x)
  {
    var all := xs + [x];
    assert all[..|xs|] == xs && all[|xs|] == x;
  }

  function MeanOf(alpha: real, xs: seq<real>): real {
    Weighted(alpha, |xs|, xs)
  }

  function Square(d: real): real {
    d * d
  }

  /** Squared deviations from `m`. */
  function Deviations(xs: seq<real>, m: real): (r: seq<real>)
    ensures |r| == |xs|
  {
    if xs == [] then [] else
    Deviations(xs[..|xs| - 1], m) + [Square(xs[|xs| - 1] - m)]
  }

  /** Second moment less the squared mean. */
  function VarianceOf(alpha: real, xs: seq<real>): real {
    MeanOf(alpha, Deviations(xs, 0.0)) - MeanOf(alpha, xs) * MeanOf(alpha, xs)
  }

  lemma {:induction false} Fade(alpha: real, n: nat, xs: seq<real>)
    requires 1 <= n && |xs| <= n
    ensures Weighted(alpha, n + 1, xs) == (1.0 - alpha) * Weighted(alpha, n, xs)
  {
    hide Pow, Weight;
    if xs != [] {
      var i, last := |xs| - 1, xs[|xs| - 1];
      Fade(alpha, n, xs[..i]);
      WeightFades(alpha, i, n);
    }
  }

  lemma WeightFades(alpha: real, i: nat, n: nat)
    requires i < n
    ensures Weight(alpha, i, n + 1) == (1.0 - alpha) * Weight(alpha, i, n)
  {
    var b := 1.0 - alpha;
    if i == 0 {
      assert Pow(b, n) == b * Pow(b, n - 1);
    } else {
      var p := Pow(b, n - 1 - i);
      assert Pow(b, n - i) == b * p;
      assert alpha * (b * p) == b * (alpha * p);
    }
  }

  /** One more sample: the closed form obeys the recurrence. */
  lemma MeanGrows(alpha: real, xs: seq<real>, x: real)
    requires xs != []
    ensures MeanOf(alpha, xs + [x]) == (1.0 - alpha) * MeanOf(alpha, xs) + alpha * x
  {
    var n := |xs|;
    assert Weight(alpha, n, n + 1) == alpha * 1.0;
    hide Pow, Weight;
    Fade(alpha, n, xs);
    Append(alpha, n + 1, xs, x);
  }

  lemma MeanOfOne(alpha: real, x: real)
    ensures MeanOf(alpha, [x]) == x
  {
    assert Weight(alpha, 0, 1) == 1.0;
    hide Weight;
    Append(alpha, 1, [], x);
    assert [] + [x] == [x];
  }

  lemma DeviationsGrow(xs: seq<real>, x: real, m: real)
    ensures Deviations(xs + [x], m) == Deviations(xs, m) + [Square(x - m)]
  {
    hide Square;
    var all := xs + [x];
    assert all[..|xs|] == xs && all[|xs|] == x;
  }

  lemma VarianceGrows(alpha: real, xs: seq<real>, x: real)
    requires xs != []
    ensures var d := x - MeanOf(alpha, xs);
      VarianceOf(alpha, xs + [x]) == (1.0 - alpha) * (VarianceOf(alpha, xs) + alpha * d * d)
  {
    var all, sq := xs + [x], Deviations(xs, 0.0);
    DeviationsGrow(xs, x, 0.0);
    hide MeanOf, Deviations;
    assert x - 0.0 == x;
    assert Deviations(all, 0.0) == sq + [Square(x)];
    MeanGrows(alpha, xs, x);
    MeanGrows(alpha, sq, x * x);
  }

  lemma {:induction false} MeanInRange(alpha: real, xs: seq<real>, lo: real, hi: real)
    requires 0.0 <= alpha <= 1.0 && xs != []
    requires forall x <- xs :: lo <= x <= hi
    ensures lo <= MeanOf(alpha, xs) <= hi
  {
    hide MeanOf;
    var n, x := |xs| - 1, xs[|xs| - 1];
    assert x in xs;
    if n == 0 {
      MeanOfOne(alpha, x);
      assert xs == [x];
    } else {
      assert forall y <- xs[..n] :: y in xs;
      MeanInRange(alpha, xs[..n], lo, hi);
      MeanGrows(alpha, xs[..n], x);
      Between(alpha, MeanOf(alpha, xs[..n]), x, lo, hi);
      assert xs == xs[..n] + [x];
    }
  }

  lemma Between(a: real, m: real, x: real, lo: real, hi: real)
    requires 0.0 <= a <= 1.0 && lo <= m <= hi && lo <= x <= hi
    ensures lo <= (1.0 - a) * m + a * x <= hi
  {
    Mix(a, m - lo, x - lo);
    Mix(a, hi - m, hi - x);
  }

  lemma Mix(a: real, u: real, v: real)
    requires 0.0 <= a <= 1.0 && u >= 0.0 && v >= 0.0
    ensures (1.0 - a) * u + a * v >= 0.0
  {
    var b := 1.0 - a;
    assert b * u >= 0.0;
  }

  function Ones(n: nat): (r: seq<real>)
    ensures |r| == n
  {
    if n == 0 then [] else Ones(n - 1) + [1.0]
  }

  lemma {:induction false} WeightsSumToOne(alpha: real, n: nat)
    requires n > 0
    ensures MeanOf(alpha, Ones(n)) == 1.0
  {
    hide MeanOf;
    if n == 1 {
      MeanOfOne(alpha, 1.0);
      assert Ones(1) == [1.0];
    } else {
      WeightsSumToOne(alpha, n - 1);
      MeanGrows(alpha, Ones(n - 1), 1.0);
      assert (1.0 - alpha) * 1.0 + alpha * 1.0 == 1.0;
    }
  }

  /** `sum w (x - m)^2`, from the sums of `w x^2`, `w x` and `w`. */
  function Shifted(squares: real, sum: real, ones: real, m: real): real {
    squares - 2.0 * m * sum + m * m * ones
  }

  lemma {:induction false} WeightedDeviations(alpha: real, n: nat, xs: seq<real>, m: real)
    requires |xs| <= n
    ensures Weighted(alpha, n, Deviations(xs, m))
         == Shifted(Weighted(alpha, n, Deviations(xs, 0.0)), Weighted(alpha, n, xs), Weighted(alpha, n, Ones(|xs|)), m)
  {
    if xs == [] {
      assert Shifted(0.0, 0.0, 0.0, m) == 0.0;
    } else {
      var init, x := xs[..|xs| - 1], xs[|xs| - 1];
      WeightedDeviations(alpha, n, init, m);
      assert Ones(|xs|) == Ones(|init|) + [1.0];
      assert xs == init + [x];
      hide *;
      DeviationsGrow(init, x, m);
      DeviationsGrow(init, x, 0.0);
      Append(alpha, n, Deviations(init, m), Square(x - m));
      Append(alpha, n, Deviations(init, 0.0), Square(x - 0.0));
      Append(alpha, n, init, x);
      Append(alpha, n, Ones(|init|), 1.0);
      Expand(Weight(alpha, |init|, n), x, m,
             Weighted(alpha, n, Deviations(init, 0.0)), Weighted(alpha, n, init), Weighted(alpha, n, Ones(|init|)));
    }
  }

  lemma Expand(w: real, x: real, m: real, squares: real, sum: real, ones: real)
    ensures Shifted(squares, sum, ones, m) + Times(w, Square(x - m))
         == Shifted(squares + Times(w, Square(x - 0.0)), sum + Times(w, x), ones + Times(w, 1.0), m)
  {
  }

  /** The second moment less the squared mean is the weighted mean of the squared deviations. */
  lemma VarianceIsCentral(alpha: real, xs: seq<real>)
    requires xs != []
    ensures VarianceOf(alpha, xs) == MeanOf(alpha, Deviations(xs, MeanOf(alpha, xs)))
  {
    var m := MeanOf(alpha, xs);
    WeightedDeviations(alpha, |xs|, xs, m);
    WeightsSumToOne(alpha, |xs|);
    hide Weighted, Deviations, Ones;
    AroundMean(MeanOf(alpha, Deviations(xs, 0.0)), m);
  }

  lemma AroundMean(squares: real, m: real)
    ensures Shifted(squares, m, 1.0, m) == squares - m * m
  {
  }

  lemma VarianceNonNegative(alpha: real, xs: seq<real>)
    requires 0.0 <= alpha <= 1.0 && xs != []
    ensures VarianceOf(alpha, xs) >= 0.0
  {
    var m := MeanOf(alpha, xs);
    var ds := Deviations(xs, m);
    VarianceIsCentral(alpha, xs);
    DeviationsNonNegative(xs, m);
    var top := Largest(ds);
    MeanInRange(alpha, ds, 0.0, top);
  }

  function Largest(xs: seq<real>): (top: real)
    ensures forall x <- xs :: x <= top
  {
    if xs == [] then 0.0 else
    var rest := Largest(xs[1..]);
    assert forall x <- xs :: x == xs[0] || x in xs[1..];
    if xs[0] > rest then xs[0] else rest
  }

  lemma {:induction false} DeviationsNonNegative(xs: seq<real>, m: real)
    ensures forall d <- Deviations(xs, m) :: d >= 0.0
  {
    if xs != [] {
      DeviationsNonNegative(xs[..|xs| - 1], m);
    }
  }

  // ---------------------------------------------------------------- the running statistics

  /** The row's mean and variance are the closed forms over `xs`. */
  ghost predicate Summarizes(alpha: real, mean: real, variance: real, xs: seq<real>) {
    if xs == [] then mean == 0.0 && variance == 0.0
    else mean == MeanOf(alpha, xs) && variance == VarianceOf(alpha, xs)
  }

  lemma FoldSummarizes(alpha: real, v: VolumeStat, xs: seq<real>, x: real)
    requires v.samples == |xs| && Summarizes(alpha, v.mean, v.variance, xs)
    ensures Summarizes(alpha, FoldMean(alpha, v, x), FoldVariance(alpha, v, x), xs + [x])
  {
    hide MeanOf, VarianceOf;
    if xs == [] {
      MeanOfOne(alpha, x);
      assert xs + [x] == [x];
      VarianceOfOne(alpha, x);
    } else {
      MeanGrows(alpha, xs, x);
      VarianceGrows(alpha, xs, x);
    }
  }

  lemma VarianceOfOne(alpha: real, x: real)
    ensures VarianceOf(alpha, [x]) == 0.0
  {
    DeviationsGrow([], x, 0.0);
    assert [] + [x] == [x];
    assert x - 0.0 == x;
    MeanOfOne(alpha, x);
    MeanOfOne(alpha, Square(x));
    hide MeanOf, Deviations;
    assert Deviations([x], 0.0) == [Square(x)];
  }

  /** Each sample carries its number and the statistics of the samples before it. */
  ghost predicate Judged(alpha: real, closed: seq<Sample>) {
    forall i :: 0 <= i < |closed| ==>
      && closed[i].samples == i + 1 && closed[i].x == Values(closed)[i]
      && Summarizes(alpha, closed[i].mean, closed[i].variance, Values(closed)[..i])
  }

  lemma JudgedGrows(alpha: real, closed: seq<Sample>, s: Sample)
    requires Judged(alpha, closed) && s.samples == |closed| + 1
    requires Summarizes(alpha, s.mean, s.variance, Values(closed))
    ensures Judged(alpha, closed + [s]) && Values(closed + [s]) == Values(closed) + [s.x]
  {
    hide Summarizes;
    var all := closed + [s];
    assert all[..|closed|] == closed;
    forall i | 0 <= i < |all|
      ensures all[i].samples == i + 1 && all[i].x == Values(all)[i]
      ensures Summarizes(alpha, all[i].mean, all[i].variance, Values(all)[..i])
    {
      assert Values(all)[..i] == Values(closed)[..i];
      assert Values(closed)[..|closed|] == Values(closed);
    }
  }

  /**
   After any history the statistics are the exponentially weighted mean and variance of the
   closed samples, and every sample was judged against those of the samples before it.
   */
  lemma {:induction false} StatisticsAreWeighted(cfg: Config, feeds: seq<Feed>)
    requires feeds != []
    ensures var (v, closed) := Replay(cfg, feeds);
      && v.value.samples == |closed| && Judged(cfg.alpha, closed)
      && Summarizes(cfg.alpha, v.value.mean, v.value.variance, Values(closed))
  {
    hide Summarizes, Judged, FoldMean, FoldVariance;
    var n, last := |feeds| - 1, feeds[|feeds| - 1];
    var (was, before) := Replay(cfg, feeds[..n]);
    var start := if was.Some? then was.value else Initial(last.1);
    if n > 0 {
      StatisticsAreWeighted(cfg, feeds[..n]);
    } else {
      EmptySummary(cfg.alpha);
    }
    var v := start.(acc := start.acc + last.0 as real);
    if Closes(cfg, v, last.1) {
      FoldSummarizes(cfg.alpha, v, Values(before), v.acc);
      JudgedGrows(cfg.alpha, before, Sample(v.acc, v.mean, v.variance, v.samples + 1));
    }
  }

  lemma EmptySummary(alpha: real)
    ensures Summarizes(alpha, 0.0, 0.0, []) && Judged(alpha, [])
  {
  }

  // ---------------------------------------------------------------- bytes and phase

  function Total(xs: seq<real>): real {
    if xs == [] then 0.0 else Total(xs[..|xs| - 1]) + xs[|xs| - 1]
  }

  function BytesFed(feeds: seq<Feed>): nat {
    if feeds == [] then 0 else BytesFed(feeds[..|feeds| - 1]) + feeds[|feeds| - 1].0
  }

  /** No byte is lost or counted twice between the closed samples and the open interval. */
  lemma {:induction false} BytesConserved(cfg: Config, feeds: seq<Feed>)
    requires feeds != []
    ensures var (v, closed) := Replay(cfg, feeds);
      Total(Values(closed)) + v.value.acc == BytesFed(feeds) as real
  {
    var n := |feeds| - 1;
    if n > 0 {
      BytesConserved(cfg, feeds[..n]);
    }
    var before, closed := Replay(cfg, feeds[..n]).1, Replay(cfg, feeds).1;
    if |closed| > |before| {
      assert closed[..|before|] == before;
      assert Values(closed)[..|before|] == Values(before);
    }
  }

  ghost predicate Monotone(feeds: seq<Feed>) {
    forall i, j :: 0 <= i < j < |feeds| ==> feeds[i].1 <= feeds[j].1
  }

  function Boundary(first: int, interval: int, k: int): int {
    first + k * interval
  }

  lemma BoundaryMoves(first: int, interval: int, k: int, e: int)
    ensures Boundary(first, interval, k) + e * interval == Boundary(first, interval, k + e)
  {
  }

  /** Whatever the clock does, the interval starts a whole number of intervals after the first feed. */
  lemma {:induction false} PhaseKept(cfg: Config, feeds: seq<Feed>)
    requires feeds != []
    ensures exists k: nat :: Replay(cfg, feeds).0.value.start == Boundary(feeds[0].1, cfg.interval, k)
  {
    var n, last := |feeds| - 1, feeds[|feeds| - 1];
    var start := Replay(cfg, feeds).0.value.start;
    if n == 0 {
      assert last == feeds[0];
      if cfg.interval > 0 {
        assert !Closes(cfg, Initial(last.1), last.1);
      }
      assert start == Boundary(feeds[0].1, cfg.interval, 0);
    } else {
      PhaseKept(cfg, feeds[..n]);
      hide FoldMean, FoldVariance, Boundary;
      var was := Replay(cfg, feeds[..n]).0.value;
      var k: nat :| was.start == Boundary(feeds[0].1, cfg.interval, k);
      if Closes(cfg, was, last.1) {
        var e := (last.1 - was.start) / cfg.interval;
        BoundaryMoves(feeds[0].1, cfg.interval, k, e);
      }
    }
  }

  lemma BoundaryIsLatest(start: int, interval: int, now: int)
    requires interval > 0
    ensures var b := LastBoundary(start, interval, now); b <= now < b + interval
  {
    var d := now - start;
    assert d == d / interval * interval + d % interval;
  }

  /** With a clock that never runs backwards, the open interval contains the present. */
  lemma {:induction false} PhaseIsCurrent(cfg: Config, feeds: seq<Feed>)
    requires feeds != [] && Monotone(feeds) && cfg.interval > 0
    ensures var start, now := Replay(cfg, feeds).0.value.start, feeds[|feeds| - 1].1;
      start <= now < start + cfg.interval
  {
    hide FoldMean, FoldVariance, LastBoundary;
    var n, now := |feeds| - 1, feeds[|feeds| - 1].1;
    if n > 0 {
      PhaseIsCurrent(cfg, feeds[..n]);
      assert feeds[n - 1].1 <= now;
      BoundaryIsLatest(Replay(cfg, feeds[..n]).0.value.start, cfg.interval, now);
    }
  }
}
