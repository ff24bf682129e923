/** Comparing two captures by packet content (`diff/mod.rs`), duplicates counted. */
module CaptureDiff {
  import opened Bytes

  type Data = seq<byte>

  /** The content hash, any function of the bytes. */
  type Hash = Data -> int

  datatype DiffResult = DiffResult(onlyA: seq<nat>, onlyB: seq<nat>, common: nat)

  function Hashed(hash: Hash, packets: seq<Data>): (r: seq<int>)
    ensures |r| == |packets| && forall i :: 0 <= i < |r| ==> r[i] == hash(packets[i])
  {
    if packets == [] then [] else Hashed(hash, packets[..|packets| - 1]) + [hash(packets[|packets| - 1])]
  }

  function Count(s: seq<int>, k: int): nat {
    multiset(s)[k]
  }

  /** The positions among the first `n` of `a` that come after all their partners in `b` are used up. */
  function Unmatched(a: seq<int>, b: seq<int>, n: nat): (r: seq<nat>)
    requires n <= |a|
    ensures forall j :: 0 <= j < |r| ==> r[j] < n
    ensures Increasing(r) && |r| <= n
  {
    if n == 0 then [] else
    var before := Unmatched(a, b, n - 1);
    if Count(a[..n - 1], a[n - 1]) >= Count(b, a[n - 1]) then before + [n - 1] else before
  }

  ghost predicate Increasing(at: seq<nat>) {
    forall i, j :: 0 <= i < j < |at| ==> at[i] < at[j]
  }

  /** The elements at these positions. */
  function Picked<T>(s: seq<T>, at: seq<nat>): (r: seq<T>)
    requires forall j :: 0 <= j < |at| ==> at[j] < |s|
    ensures |r| == |at|
  {
    if at == [] then [] else Picked(s, at[..|at| - 1]) + [s[at[|at| - 1]]]
  }

  // ---------------------------------------------------------------- the two counting passes

  /** `counts` holds how often each key occurs in `s`. */
  ghost predicate Counts(counts: map<int, nat>, s: seq<int>) {
    forall k :: Count(s, k) == if k in counts then counts[k] else 0
  }

  lemma CountMore(s: seq<int>, n: nat, k: int)
    requires n < |s|
    ensures Count(s[..n + 1], k) == Count(s[..n], k) + if s[n] == k then 1 else 0
  {
    assert s[..n + 1] == s[..n] + [s[n]];
  }

  method Tally(hash: Hash, packets: seq<Data>) returns (counts: map<int, nat>)
    ensures Counts(counts, Hashed(hash, packets))
  {
    counts := map[];
    ghost var keys := Hashed(hash, packets);
    for i := 0 to |packets|
      invariant Counts(counts, keys[..i])
    {
      var h := hash(packets[i]);
      forall k { CountMore(keys, i, k); }
      counts := counts[h := (if h in counts then counts[h] else 0) + 1];
    }
    assert keys[..|packets|] == keys;
  }

  /** What is left of the other side's count after `n` of ours were matched. */
  ghost predicate Remaining(counts: map<int, nat>, ours: seq<int>, theirs: seq<int>, n: nat)
    requires n <= |ours|
  {
    forall k :: (if k in counts then counts[k] else 0) ==
      if Count(ours[..n], k) >= Count(theirs, k) then 0 else Count(theirs, k) - Count(ours[..n], k)
  }

  lemma UseOne(counts: map<int, nat>, ours: seq<int>, theirs: seq<int>, i: nat)
    requires i < |ours| && Remaining(counts, ours, theirs, i)
    ensures var h := ours[i];
      if h in counts && counts[h] > 0
      then Unmatched(ours, theirs, i + 1) == Unmatched(ours, theirs, i)
           && Remaining(counts[h := counts[h] - 1], ours, theirs, i + 1)
      else Unmatched(ours, theirs, i + 1) == Unmatched(ours, theirs, i) + [i]
           && Remaining(counts, ours, theirs, i + 1)
  {
    hide Count;
    forall k { CountMore(ours, i, k); }
  }

  lemma StartUnused(counts: map<int, nat>, ours: seq<int>, theirs: seq<int>)
    requires Counts(counts, theirs)
    ensures Remaining(counts, ours, theirs, 0) && Unmatched(ours, theirs, 0) == []
  {
  }

  method MatchUp(hash: Hash, packets: seq<Data>, counts: map<int, nat>, ghost theirs: seq<int>)
    returns (only: seq<nat>, common: nat)
    requires Counts(counts, theirs)
    ensures only == Unmatched(Hashed(hash, packets), theirs, |packets|)
    ensures common + |only| == |packets|
  {
    hide Counts, Count, Remaining, Increasing, Unmatched, Hashed;
    var remaining := counts;
    ghost var ours := Hashed(hash, packets);
    only, common := [], 0;
    StartUnused(counts, ours, theirs);
    for i := 0 to |packets|
      invariant Remaining(remaining, ours, theirs, i)
      invariant only == Unmatched(ours, theirs, i) && common + |only| == i
    {
      var h := hash(packets[i]);
      UseOne(remaining, ours, theirs, i);
      if h in remaining && remaining[h] > 0 {
        remaining := remaining[h := remaining[h] - 1];
        common := common + 1;
      } else {
        only := only + [i];
      }
    }
  }

  method DiffByContent(hash: Hash, a: seq<Data>, b: seq<Data>) returns (r: DiffResult)
    ensures r == Diff(hash, a, b)
  {
    var bCounts := Tally(hash, b);
    var aCounts := Tally(hash, a);
    var onlyA, common := MatchUp(hash, a, bCounts, Hashed(hash, b));
    var onlyB, _ := MatchUp(hash, b, aCounts, Hashed(hash, a));
    r := DiffResult(onlyA, onlyB, common);
  }

  /** The comparison, as the two unmatched lists and the rest of `a`. */
  ghost function Diff(hash: Hash, a: seq<Data>, b: seq<Data>): DiffResult {
    var (ka, kb) := (Hashed(hash, a), Hashed(hash, b));
    var onlyA := Unmatched(ka, kb, |a|);
    DiffResult(onlyA, Unmatched(kb, ka, |b|), |a| - |onlyA|)
  }

  // ---------------------------------------------------------------- what the result means

  lemma PickMore(s: seq<int>, at: seq<nat>, i: nat, k: int)
    requires i < |s| && forall j :: 0 <= j < |at| ==> at[j] < |s|
    ensures Count(Picked(s, at + [i]), k) == Count(Picked(s, at), k) + if s[i] == k then 1 else 0
  {
    assert (at + [i])[..|at|] == at;
  }

  /** How many more of `k` there are in `a`. */
  function Over(a: seq<int>, b: seq<int>, k: int): nat {
    if Count(a, k) >= Count(b, k) then Count(a, k) - Count(b, k) else 0
  }

  lemma {:induction false} UnmatchedCount(a: seq<int>, b: seq<int>, n: nat, k: int)
    requires n <= |a|
    ensures Count(Picked(a, Unmatched(a, b, n)), k) == Over(a[..n], b, k)
  {
    if n == 0 {
    } else {
      hide Count, Picked, Increasing;
      UnmatchedCount(a, b, n - 1, k);
      CountAlong(a, b, n, Unmatched(a, b, n - 1), Unmatched(a, b, n), k);
    }
  }

  lemma CountAlong(a: seq<int>, b: seq<int>, n: nat, before: seq<nat>, all: seq<nat>, k: int)
    requires 0 < n <= |a| && forall j :: 0 <= j < |before| ==> before[j] < n - 1
    requires all == if Count(a[..n - 1], a[n - 1]) >= Count(b, a[n - 1]) then before + [n - 1] else before
    requires Count(Picked(a, before), k) == Over(a[..n - 1], b, k)
    ensures Count(Picked(a, all), k) == Over(a[..n], b, k)
  {
    hide Count, Picked;
    CountMore(a, n - 1, k);
    if Count(a[..n - 1], a[n - 1]) >= Count(b, a[n - 1]) {
      PickMore(a, before, n - 1, k);
    }
  }

  /** The unmatched packets are the multiset difference, and the matched ones the intersection. */
  lemma UnmatchedIsDifference(a: seq<int>, b: seq<int>)
    ensures multiset(Picked(a, Unmatched(a, b, |a|))) == multiset(a) - multiset(b)
    ensures |Unmatched(a, b, |a|)| + |multiset(a) * multiset(b)| == |a|
  {
    var only := Unmatched(a, b, |a|);
    var A, B := multiset(a), multiset(b);
    forall k
      ensures multiset(Picked(a, only))[k] == (A - B)[k]
    {
      UnmatchedCount(a, b, |a|, k);
      assert a[..|a|] == a;
    }
    assert A == (A - B) + (A * B);
    assert |multiset(Picked(a, only))| == |Picked(a, only)|;
  }

  /** For every hash: both captures are accounted for, and no content is listed on both sides. */
  lemma DiffAccountsForBoth(hash: Hash, a: seq<Data>, b: seq<Data>)
    ensures var r := Diff(hash, a, b);
      && |r.onlyA| + r.common == |a| && |r.onlyB| + r.common == |b|
      && r.common == |multiset(Hashed(hash, a)) * multiset(Hashed(hash, b))|
      && forall i <- r.onlyA, j <- r.onlyB :: i < |a| && j < |b| && hash(a[i]) != hash(b[j]) && a[i] != b[j]
  {
    var r, ka, kb := Diff(hash, a, b), Hashed(hash, a), Hashed(hash, b);
    hide Unmatched, Picked, Increasing, Count;
    UnmatchedIsDifference(ka, kb);
    UnmatchedIsDifference(kb, ka);
    assert multiset(ka) * multiset(kb) == multiset(kb) * multiset(ka);
    forall i, j | i in r.onlyA && j in r.onlyB
      ensures i < |a| && j < |b| && hash(a[i]) != hash(b[j])
    {
      OnlyExceeds(ka, kb, i);
      OnlyExceeds(kb, ka, j);
    }
  }

  /** A listed key occurs more often on its own side. */
  lemma OnlyExceeds(a: seq<int>, b: seq<int>, i: nat)
    requires i in Unmatched(a, b, |a|)
    ensures i < |a| && Count(a, a[i]) > Count(b, a[i])
  {
    var only := Unmatched(a, b, |a|);
    UnmatchedCount(a, b, |a|, a[i]);
    assert a[..|a|] == a;
    PickedHas(a, only, i);
  }

  lemma {:induction false} PickedHas(s: seq<int>, at: seq<nat>, i: nat)
    requires i in at && forall j :: 0 <= j < |at| ==> at[j] < |s|
    ensures s[i] in Picked(s, at)
  {
    if at[|at| - 1] != i {
      assert i in at[..|at| - 1];
      PickedHas(s, at[..|at| - 1], i);
    }
  }
}
