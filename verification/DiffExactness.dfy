/** When comparing captures by hash (`diff/mod.rs`) is comparing them by content. */
module DiffExactness {
  import opened Bytes
  import opened CaptureDiff

  /** The comparison is the one of the contents themselves. */
  ghost predicate Exact(hash: Hash, a: seq<Data>, b: seq<Data>) {
    var r := Diff(hash, a, b);
    && multiset(Picked(a, r.onlyA)) == multiset(a) - multiset(b)
    && multiset(Picked(b, r.onlyB)) == multiset(b) - multiset(a)
    && r.common == |multiset(a) * multiset(b)|
  }

  // ---------------------------------------------------------------- contents that share a hash

  /** The packets with one hash, in order of capture. */
  function OfHash(hash: Hash, s: seq<Data>, k: int): seq<Data> {
    if s == [] then [] else
    var last := s[|s| - 1];
    OfHash(hash, s[..|s| - 1], k) + if hash(last) == k then [last] else []
  }

  function Take(s: seq<Data>, n: nat): seq<Data> {
    if |s| <= n then s else s[..n]
  }

  function Drop(s: seq<Data>, n: nat): seq<Data> {
    if |s| <= n then [] else s[n..]
  }

  /** Of each hash, the packets matched with one another carry the same contents, in whatever order. */
  ghost predicate PairsAgree(hash: Hash, a: seq<Data>, b: seq<Data>) {
    forall k :: Agree(OfHash(hash, a, k), OfHash(hash, b, k))
  }

  ghost predicate Agree(xs: seq<Data>, ys: seq<Data>) {
    multiset(Take(xs, |ys|)) == multiset(Take(ys, |xs|))
  }

  lemma {:induction false} OfHashCounts(hash: Hash, s: seq<Data>, k: int)
    ensures |OfHash(hash, s, k)| == Count(Hashed(hash, s), k)
    ensures forall x <- OfHash(hash, s, k) :: x in s && hash(x) == k
  {
    if s != [] {
      var n := |s| - 1;
      OfHashCounts(hash, s[..n], k);
      CountMore(Hashed(hash, s), n, k);
      assert Hashed(hash, s)[..n] == Hashed(hash, s[..n]) && Hashed(hash, s)[..n + 1] == Hashed(hash, s);
    }
  }

  lemma {:induction false} OfHashHolds(hash: Hash, s: seq<Data>, x: Data)
    ensures multiset(s)[x] == multiset(OfHash(hash, s, hash(x)))[x]
  {
    if s != [] {
      var n := |s| - 1;
      OfHashHolds(hash, s[..n], x);
      assert s == s[..n] + [s[n]];
    }
  }

  lemma OfHashMore(hash: Hash, s: seq<Data>, x: Data, k: int)
    ensures OfHash(hash, s + [x], k) == OfHash(hash, s, k) + if hash(x) == k then [x] else []
  {
    assert (s + [x])[..|s|] == s;
  }

  lemma ListedMore(hash: Hash, a: seq<Data>, kb: seq<int>, m: nat, before: seq<nat>, all: seq<nat>, k: int)
    requires m < |a| && forall j :: 0 <= j < |before| ==> before[j] < m
    requires all == if |OfHash(hash, a[..m], hash(a[m]))| >= Count(kb, hash(a[m])) then before + [m] else before
    requires OfHash(hash, Picked(a, before), k) == Drop(OfHash(hash, a[..m], k), Count(kb, k))
    ensures OfHash(hash, Picked(a, all), k) == Drop(OfHash(hash, a[..m + 1], k), Count(kb, k))
  {
    hide Count, OfHash;
    assert a[..m + 1] == a[..m] + [a[m]];
    OfHashMore(hash, a[..m], a[m], k);
    assert (before + [m])[..|before|] == before;
    OfHashMore(hash, Picked(a, before), a[m], k);
    assert forall s: seq<Data> :: s + [] == s;
  }

  /** Of each hash, the listed packets are those after the ones that found a partner. */
  lemma {:induction false} ListedOfHash(hash: Hash, a: seq<Data>, kb: seq<int>, n: nat, k: int)
    requires n <= |a|
    ensures OfHash(hash, Picked(a, Unmatched(Hashed(hash, a), kb, n)), k) == Drop(OfHash(hash, a[..n], k), Count(kb, k))
  {
    if n == 0 {
    } else {
      var m, ka := n - 1, Hashed(hash, a);
      hide Count, Hashed, Increasing, Picked, OfHash, Drop;
      ListedOfHash(hash, a, kb, m, k);
      HashedPrefix(hash, a, m);
      OfHashCounts(hash, a[..m], ka[m]);
      ListedMore(hash, a, kb, m, Unmatched(ka, kb, m), Unmatched(ka, kb, n), k);
    }
  }

  lemma {:induction false} HashedPrefix(hash: Hash, s: seq<Data>, n: nat)
    requires n <= |s|
    ensures Hashed(hash, s)[..n] == Hashed(hash, s[..n])
  {
  }

  // ---------------------------------------------------------------- one content at a time

  /** How often a content is listed for the first capture. */
  function Listed(hash: Hash, a: seq<Data>, b: seq<Data>, x: Data): nat {
    multiset(Picked(a, Unmatched(Hashed(hash, a), Hashed(hash, b), |a|)))[x]
  }

  predicate ListedRight(hash: Hash, a: seq<Data>, b: seq<Data>, x: Data) {
    Listed(hash, a, b, x) == if multiset(a)[x] >= multiset(b)[x] then multiset(a)[x] - multiset(b)[x] else 0
  }

  predicate AgreeAt(xs: seq<Data>, ys: seq<Data>, x: Data) {
    multiset(Take(xs, |ys|))[x] == multiset(Take(ys, |xs|))[x]
  }

  lemma ListedCount(hash: Hash, a: seq<Data>, b: seq<Data>, x: Data)
    ensures var xs, ys := OfHash(hash, a, hash(x)), OfHash(hash, b, hash(x));
      Listed(hash, a, b, x) == multiset(Drop(xs, |ys|))[x] && multiset(a)[x] == multiset(xs)[x]
  {
    var only := Unmatched(Hashed(hash, a), Hashed(hash, b), |a|);
    assert a[..|a|] == a;
    hide Unmatched, Increasing;
    OfHashHolds(hash, a, x);
    OfHashHolds(hash, Picked(a, only), x);
    ListedOfHash(hash, a, Hashed(hash, b), |a|, hash(x));
    OfHashCounts(hash, b, hash(x));
  }

  lemma TakeAndDrop(s: seq<Data>, n: nat, x: Data)
    ensures multiset(s)[x] == multiset(Take(s, n))[x] + multiset(Drop(s, n))[x]
  {
    assert s == Take(s, n) + Drop(s, n);
  }

  /** A content is listed as it should be on both sides exactly when as many of it were matched on each. */
  lemma RightIffMatched(hash: Hash, a: seq<Data>, b: seq<Data>, x: Data)
    ensures ListedRight(hash, a, b, x) && ListedRight(hash, b, a, x)
      <==> AgreeAt(OfHash(hash, a, hash(x)), OfHash(hash, b, hash(x)), x)
  {
    hide Listed, OfHash;
    var xs, ys := OfHash(hash, a, hash(x)), OfHash(hash, b, hash(x));
    ListedCount(hash, a, b, x);
    ListedCount(hash, b, a, x);
    TakeAndDrop(xs, |ys|, x);
    TakeAndDrop(ys, |xs|, x);
    assert Drop(xs, |ys|) == [] || Drop(ys, |xs|) == [];
  }

  lemma AgreePointwise(hash: Hash, a: seq<Data>, b: seq<Data>)
    ensures PairsAgree(hash, a, b) <==>
      forall x :: AgreeAt(OfHash(hash, a, hash(x)), OfHash(hash, b, hash(x)), x)
  {
    hide OfHash, Take;
    if forall x :: AgreeAt(OfHash(hash, a, hash(x)), OfHash(hash, b, hash(x)), x) {
      forall k
        ensures Agree(OfHash(hash, a, k), OfHash(hash, b, k))
      {
        AgreeOneHash(hash, a, b, k);
      }
    } else {
      var x :| !AgreeAt(OfHash(hash, a, hash(x)), OfHash(hash, b, hash(x)), x);
      assert !Agree(OfHash(hash, a, hash(x)), OfHash(hash, b, hash(x)));
    }
  }

  lemma AgreeOneHash(hash: Hash, a: seq<Data>, b: seq<Data>, k: int)
    requires forall x :: AgreeAt(OfHash(hash, a, hash(x)), OfHash(hash, b, hash(x)), x)
    ensures Agree(OfHash(hash, a, k), OfHash(hash, b, k))
  {
    var xs, ys := OfHash(hash, a, k), OfHash(hash, b, k);
    OfHashCounts(hash, a, k);
    OfHashCounts(hash, b, k);
    hide OfHash, Count;
    forall x
      ensures multiset(Take(xs, |ys|))[x] == multiset(Take(ys, |xs|))[x]
    {
      if hash(x) == k {
        assert AgreeAt(xs, ys, x);
      } else {
        assert x !in Take(xs, |ys|) && x !in Take(ys, |xs|);
      }
    }
  }

  lemma ExactPointwise(hash: Hash, a: seq<Data>, b: seq<Data>)
    ensures Exact(hash, a, b) <==> forall x :: ListedRight(hash, a, b, x) && ListedRight(hash, b, a, x)
  {
    hide Unmatched, Picked, Hashed, Increasing;
    SidePointwise(hash, a, b);
    SidePointwise(hash, b, a);
  }

  /** The lists alone decide: the number of common packets is what they leave. */
  lemma SidePointwise(hash: Hash, a: seq<Data>, b: seq<Data>)
    ensures var only := Unmatched(Hashed(hash, a), Hashed(hash, b), |a|);
      && (multiset(Picked(a, only)) == multiset(a) - multiset(b) <==> forall x :: ListedRight(hash, a, b, x))
      && (multiset(Picked(a, only)) == multiset(a) - multiset(b) ==> |a| - |only| == |multiset(a) * multiset(b)|)
  {
    hide Unmatched, Hashed, Increasing;
    var c := Picked(a, Unmatched(Hashed(hash, a), Hashed(hash, b), |a|));
    var A, B := multiset(a), multiset(b);
    forall x
      ensures multiset(c)[x] == (A - B)[x] <==> ListedRight(hash, a, b, x)
    {
    }
    if forall x :: ListedRight(hash, a, b, x) {
      forall x
        ensures multiset(c)[x] == (A - B)[x]
      {
        assert ListedRight(hash, a, b, x);
      }
    }
    assert A == (A - B) + (A * B);
    assert |multiset(c)| == |c|;
  }

  // ---------------------------------------------------------------- when the comparison is exact

  /**
   EXACTNESS. The comparison lists the true differences of two captures if and only if, of each hash,
   the first packets of either side, as many as both sides have, carry the same contents.
   */
  lemma ExactIffPairsAgree(hash: Hash, a: seq<Data>, b: seq<Data>)
    ensures Exact(hash, a, b) <==> PairsAgree(hash, a, b)
  {
    hide Exact, PairsAgree, ListedRight, AgreeAt;
    ExactPointwise(hash, a, b);
    AgreePointwise(hash, a, b);
    forall x
      ensures ListedRight(hash, a, b, x) && ListedRight(hash, b, a, x)
        <==> AgreeAt(OfHash(hash, a, hash(x)), OfHash(hash, b, hash(x)), x)
    {
      RightIffMatched(hash, a, b, x);
    }
  }

  /** No two different contents of these packets share a hash. */
  ghost predicate KeepsApart(hash: Hash, packets: seq<Data>) {
    forall x, y :: x in packets && y in packets && hash(x) == hash(y) ==> x == y
  }

  lemma SameOfHash(hash: Hash, a: seq<Data>, b: seq<Data>, k: int)
    requires KeepsApart(hash, a + b)
    ensures Agree(OfHash(hash, a, k), OfHash(hash, b, k))
  {
    var xs, ys := OfHash(hash, a, k), OfHash(hash, b, k);
    OfHashCounts(hash, a, k);
    OfHashCounts(hash, b, k);
    hide OfHash, Count;
    forall i, j | 0 <= i < |xs| && 0 <= j < |ys|
      ensures xs[i] == ys[j]
    {
      assert xs[i] in a + b && ys[j] in a + b;
    }
    AllTheSame(xs, ys);
  }

  lemma AllTheSame(xs: seq<Data>, ys: seq<Data>)
    requires forall i, j :: 0 <= i < |xs| && 0 <= j < |ys| ==> xs[i] == ys[j]
    ensures Agree(xs, ys)
  {
    var tx, ty := Take(xs, |ys|), Take(ys, |xs|);
    assert |tx| == |ty| && forall i :: 0 <= i < |tx| ==> tx[i] == ty[i];
    assert tx == ty;
  }

  /** Without a collision among the packets compared, the comparison is exact. */
  lemma ExactWithoutCollision(hash: Hash, a: seq<Data>, b: seq<Data>)
    requires KeepsApart(hash, a + b)
    ensures Exact(hash, a, b)
  {
    hide KeepsApart, Exact, Agree;
    forall k
      ensures Agree(OfHash(hash, a, k), OfHash(hash, b, k))
    {
      SameOfHash(hash, a, b, k);
    }
    ExactIffPairsAgree(hash, a, b);
  }

  lemma OfHashOne(hash: Hash, x: Data, k: int)
    ensures OfHash(hash, [x], k) == if hash(x) == k then [x] else []
  {
    OfHashMore(hash, [], x, k);
    assert [] + [x] == [x];
  }

  lemma OfHashTwo(hash: Hash, x: Data, y: Data, k: int)
    requires hash(x) == hash(y)
    ensures OfHash(hash, [x, y], k) == if hash(x) == k then [x, y] else []
  {
    OfHashOne(hash, x, k);
    OfHashMore(hash, [x], y, k);
    assert [x] + [y] == [x, y];
  }

  /** Two packets that share a hash against one of them: right if and only if that one comes first. */
  lemma OrderDecides(hash: Hash, x: Data, y: Data, z: Data)
    requires hash(x) == hash(y) == hash(z)
    ensures PairsAgree(hash, [x, y], [z]) <==> x == z
  {
    hide OfHash;
    OfHashTwo(hash, x, y, hash(x));
    OfHashOne(hash, z, hash(x));
    assert Take([x, y], 1) == [x] && Take([z], 2) == [z];
    if x != z {
      assert multiset([x])[x] != multiset([z])[x];
      assert !Agree(OfHash(hash, [x, y], hash(x)), OfHash(hash, [z], hash(x)));
    } else {
      forall k
        ensures Agree(OfHash(hash, [x, y], k), OfHash(hash, [z], k))
      {
        OfHashTwo(hash, x, y, k);
        OfHashOne(hash, z, k);
      }
    }
  }

  /** After a collision the order of capture matters: what is seen first finds the partner. */
  lemma CollisionDependsOnOrder(hash: Hash, x: Data, y: Data)
    requires hash(x) == hash(y) && x != y
    ensures Exact(hash, [x, y], [x]) && !Exact(hash, [y, x], [x])
  {
    hide Exact, PairsAgree;
    OrderDecides(hash, x, y, x);
    OrderDecides(hash, y, x, x);
    ExactIffPairsAgree(hash, [x, y], [x]);
    ExactIffPairsAgree(hash, [y, x], [x]);
  }
}
