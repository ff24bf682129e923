/** The learning window and the per-process volume baseline (`alert/baseline.rs`), over reals. */
module AlertBaseline {
  import opened Bytes
  import opened AlertTypes
  import opened AlertStore

  // ---------------------------------------------------------------- lifecycle

  function Saturate(x: int): i64 {
    if x < -0x8000_0000_0000_0000 then -0x8000_0000_0000_0000
    else if x > 0x7FFF_FFFF_FFFF_FFFF then 0x7FFF_FFFF_FFFF_FFFF
    else x
  }

  /** The tables after `ensure_started` at time `now`. */
  function Started(cfg: Config, db: Tables, now: i64): Tables {
    var opened' := if db.lifecycle.Some? then db else
      db.(lifecycle := Some(Learning), learningStarted := Some(now),
          learningEnds := Some(Saturate(now + cfg.learningWindow)));
    if !IsActive(opened') && opened'.learningEnds.Some? && now >= opened'.learningEnds.value
    then opened'.(lifecycle := Some(Active)) else opened'
  }

  method EnsureStarted(store: Store, cfg: Config, now: i64) returns (active: bool)
    modifies store`db
    ensures store.db == Started(cfg, old(store.db), now) && active == IsActive(store.db)
  {
    if store.db.lifecycle.None? {
      store.db := store.db.(lifecycle := Some(Learning));
      store.db := store.db.(learningStarted := Some(now));
      store.db := store.db.(learningEnds := Some(Saturate(now + cfg.learningWindow)));
    }
    if !IsActive(store.db) {
      if store.db.learningEnds.Some? {
        if now >= store.db.learningEnds.value {
          store.db := store.db.(lifecycle := Some(Active));
        }
      }
    }
    active := IsActive(store.db);
  }

  // ---------------------------------------------------------------- volume

  /** A closed interval with the statistics it is judged against; `variance` is the square of `std`. */
  datatype Sample = Sample(x: real, mean: real, variance: real, samples: nat)

  function Initial(now: int): VolumeStat {
    VolumeStat(0.0, 0.0, 0.0, now, 0)
  }

  predicate Closes(cfg: Config, v: VolumeStat, now: int) {
    cfg.interval > 0 && now - v.start >= cfg.interval
  }

  /** Folding one closed interval into the mean and the variance. */
  function FoldMean(alpha: real, v: VolumeStat, x: real): real {
    if v.samples == 0 then x else v.mean + alpha * (x - v.mean)
  }

  function FoldVariance(alpha: real, v: VolumeStat, x: real): real {
    if v.samples == 0 then 0.0 else (1.0 - alpha) * (v.variance + alpha * (x - v.mean) * (x - v.mean))
  }

  /** The latest interval boundary at or before `now`. */
  function LastBoundary(start: int, interval: int, now: int): int
    requires interval > 0
  {
    start + (now - start) / interval * interval
  }

  function Fed(cfg: Config, was: Option<VolumeStat>, bytes: nat, now: int): (VolumeStat, Option<Sample>) {
    var opened' := if was.Some? then was.value else Initial(now);
    var v := opened'.(acc := opened'.acc + bytes as real);
    if !Closes(cfg, v, now) then (v, None) else
      (VolumeStat(FoldMean(cfg.alpha, v, v.acc), FoldVariance(cfg.alpha, v, v.acc), 0.0,
                  LastBoundary(v.start, cfg.interval, now), v.samples + 1),
       Some(Sample(v.acc, v.mean, v.variance, v.samples + 1)))
  }

  function StatOf(db: Tables, pid: nat): Option<VolumeStat> {
    if pid in db.volumes then Some(db.volumes[pid]) else None
  }

  method UpdateVolume(store: Store, cfg: Config, pid: nat, bytesUp: nat, now: int) returns (sample: Option<Sample>)
    modifies store`db
    ensures store.db == old(store.db).(volumes := old(store.db).volumes[pid := Fed(cfg, StatOf(old(store.db), pid), bytesUp, now).0])
    ensures sample == Fed(cfg, StatOf(old(store.db), pid), bytesUp, now).1
  {
    var v := if pid in store.db.volumes then store.db.volumes[pid] else Initial(now);
    v := v.(acc := v.acc + bytesUp as real);
    sample := None;
    if cfg.interval > 0 && now - v.start >= cfg.interval {
      var x, prevMean, prevVariance := v.acc, v.mean, v.variance;
      if v.samples == 0 {
        v := v.(mean := x, variance := 0.0);
      } else {
        var delta := x - v.mean;
        v := v.(mean := v.mean + cfg.alpha * delta);
        v := v.(variance := (1.0 - cfg.alpha) * (v.variance + cfg.alpha * delta * delta));
      }
      v := v.(samples := v.samples + 1, acc := 0.0);
      var elapsed := (now - v.start) / cfg.interval;
      v := v.(start := v.start + elapsed * cfg.interval);
      sample := Some(Sample(x, prevMean, prevVariance, v.samples));
    }
    assert v == Fed(cfg, StatOf(store.db, pid), bytesUp, now).0;
    store.db := store.db.(volumes := store.db.volumes[pid := v]);
  }

  // ---------------------------------------------------------------- the z-score test

  /** `z >= threshold`, with the square root in `std` squared away. */
  predicate ScoreReaches(x: real, mean: real, variance: real, threshold: real) {
    var d, bar := x - mean, threshold * threshold * variance;
    if variance > 0.0 then
      if threshold >= 0.0 then d >= 0.0 && d * d >= bar else d >= 0.0 || d * d <= bar
    else d > 0.0 || 0.0 >= threshold
  }

  /** For any standard deviation whose square is the variance, the test is the code's division. */
  lemma ScoreIsDeviations(x: real, mean: real, std: real, threshold: real)
    requires std > 0.0
    ensures (x - mean) / std >= threshold <==> ScoreReaches(x, mean, std * std, threshold)
  {
    var d, t := x - mean, threshold * std;
    assert std * std > 0.0;
    assert d / std >= threshold <==> d >= t by {
      assert d == d / std * std;
      ScaleOrder(d / std, threshold, std);
    }
    assert t * t == threshold * threshold * (std * std);
    assert threshold >= 0.0 <==> t >= 0.0 by { ScaleOrder(threshold, 0.0, std); }
    SquareOrder(d, t);
  }

  lemma ScaleOrder(a: real, b: real, s: real)
    requires s > 0.0
    ensures a >= b <==> a * s >= b * s
  {
    if a >= b {
      assert (a - b) * s >= 0.0;
    } else {
      assert (b - a) * s > 0.0;
    }
  }

  lemma SquareOrder(d: real, t: real)
    ensures t >= 0.0 ==> (d >= t <==> d >= 0.0 && d * d >= t * t)
    ensures t < 0.0 ==> (d >= t <==> d >= 0.0 || d * d <= t * t)
  {
    if d >= 0.0 && t >= 0.0 {
      SquaresGrow(d, t);
    } else if d < 0.0 && t < 0.0 {
      SquaresGrow(-t, -d);
      assert d * d == (-d) * (-d) && t * t == (-t) * (-t);
    }
  }

  lemma SquaresGrow(d: real, t: real)
    requires d >= 0.0 && t >= 0.0
    ensures d >= t <==> d * d >= t * t
  {
    if d > t {
      StrictlyGrow(t, d);
    } else if d < t {
      StrictlyGrow(d, t);
    }
  }

  lemma StrictlyGrow(d: real, t: real)
    requires 0.0 <= d < t
    ensures d * d < t * t
  {
    var a, b := t - d, t + d;
    assert a * b > 0.0;
    assert a * b == t * t - d * d;
  }
}
