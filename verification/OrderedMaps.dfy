/** A `BTreeMap<u32, _>` as its entries in increasing key order. */
module OrderedMaps {
  import opened Bytes

  type Entries<T> = seq<(u32, T)>

  ghost predicate Sorted<T>(s: Entries<T>) {
    forall i, j :: 0 <= i < j < |s| ==> s[i].0 < s[j].0
  }

  predicate HasKey<T>(s: Entries<T>, k: u32) {
    exists i :: 0 <= i < |s| && s[i].0 == k
  }

  /** `entry(k).or_insert(v)` */
  function OrInsert<T>(s: Entries<T>, k: u32, v: T): Entries<T> {
    if s == [] || k < s[0].0 then [(k, v)] + s
    else if k == s[0].0 then s
    else [s[0]] + OrInsert(s[1..], k, v)
  }

  /** The entries with keys at most `k`, a prefix. */
  function UpTo<T>(s: Entries<T>, k: u32): Entries<T> {
    if s == [] || s[0].0 > k then [] else [s[0]] + UpTo(s[1..], k)
  }

  /** The last `n` entries: what repeated `pop_first` leaves. */
  function LastN<T>(s: Entries<T>, n: nat): Entries<T> {
    if |s| <= n then s else s[|s| - n..]
  }

  lemma {:induction false} OrInsertMember<T>(s: Entries<T>, k: u32, v: T, e: (u32, T))
    requires Sorted(s)
    ensures e in OrInsert(s, k, v) <==> e in s || (e == (k, v) && !HasKey(s, k))
  {
    if s == [] || k < s[0].0 {
    } else if k == s[0].0 {
    } else {
      OrInsertMember(s[1..], k, v, e);
      assert e in s <==> e == s[0] || e in s[1..];
    }
  }

  /** A smaller key before a sorted tail. */
  lemma SortedCons<T>(e: (u32, T), t: Entries<T>)
    requires Sorted(t) && forall x <- t :: e.0 < x.0
    ensures Sorted([e] + t)
  {
    assert forall i :: 0 < i < |[e] + t| ==> ([e] + t)[i] == t[i - 1] && t[i - 1] in t;
  }

  lemma {:induction false} OrInsertSorted<T>(s: Entries<T>, k: u32, v: T)
    requires Sorted(s)
    ensures Sorted(OrInsert(s, k, v))
    ensures |OrInsert(s, k, v)| == |s| + if HasKey(s, k) then 0 else 1
  {
    if s == [] || k < s[0].0 {
    } else if k == s[0].0 {
    } else {
      OrInsertSorted(s[1..], k, v);
      var t := OrInsert(s[1..], k, v);
      forall x | x in t
        ensures s[0].0 < x.0
      {
        OrInsertMember(s[1..], k, v, x);
        if x in s[1..] {
          var i :| 0 <= i < |s[1..]| && s[1..][i] == x;
          assert s[i + 1] == x;
        }
      }
      SortedCons(s[0], t);
    }
  }

  lemma {:induction false} UpToIsPrefix<T>(s: Entries<T>, k: u32)
    requires Sorted(s)
    ensures UpTo(s, k) <= s
    ensures forall e <- UpTo(s, k) :: e.0 <= k
    ensures forall e <- s[|UpTo(s, k)|..] :: e.0 > k
  {
    if s != [] && s[0].0 <= k {
      UpToIsPrefix(s[1..], k);
      assert s[|UpTo(s, k)|..] == s[1..][|UpTo(s[1..], k)|..];
    }
  }

  lemma AfterUpTo<T>(s: Entries<T>, k: u32)
    requires Sorted(s)
    ensures |UpTo(s, k)| <= |s|
    ensures var rest := s[|UpTo(s, k)|..];
      Sorted(rest) && forall e <- rest :: e in s && e.0 > k
  {
    UpToIsPrefix(s, k);
  }
}
