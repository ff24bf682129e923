/**
 The HPACK decoder (`decode/http2.rs`): dynamic table with size accounting and eviction, and
 the block decoder that reads header representations one after another.
 */
module Hpack {
  import opened Bytes
  import opened HpackStatic
  import opened HpackIntegers

  type Header = (Str, Str)

  /** The static table, and the dynamic table with its newest entry first. */
  datatype Table = Table(fixed: seq<Header>, dynamic: seq<Header>, maxSize: nat, size: int)

  function Initial(): Table {
    Table(StaticHeaders(), [], 4096, 0)
  }

  function EntrySize(h: Header): nat {
    |h.0| + |h.1| + 32
  }

  function TotalSize(hs: seq<Header>): nat {
    if hs == [] then 0 else EntrySize(hs[|hs| - 1]) + TotalSize(hs[..|hs| - 1])
  }

  // ---------------------------------------------------------------- the table

  function Evict(t: Table): Table
    decreases |t.dynamic|
  {
    if t.size <= t.maxSize || t.dynamic == [] then t else
    var n := |t.dynamic| - 1;
    Evict(t.(dynamic := t.dynamic[..n], size := t.size - EntrySize(t.dynamic[n])))
  }

  function Insert(t: Table, h: Header): Table {
    Evict(t.(dynamic := [h] + t.dynamic, size := t.size + EntrySize(h)))
  }

  function Resize(t: Table, max: nat): Table {
    Evict(t.(maxSize := max))
  }

  function Indexed(t: Table, idx: nat): Option<Header> {
    if idx == 0 then None
    else if idx <= |t.fixed| then Some(t.fixed[idx - 1])
    else if idx - |t.fixed| - 1 < |t.dynamic| then Some(t.dynamic[idx - |t.fixed| - 1])
    else None
  }

  // ---------------------------------------------------------------- decoding a block

  function Literal(t: Table, block: seq<byte>, pos: nat, prefix: nat): (r: Option<(Header, nat)>)
    ensures r.Some? ==> pos < r.value.1 <= |block|
  {
    var num := DecodeInt(block, pos, prefix);
    if num.None? then None else
    var (idx, p) := num.value;
    if idx == 0 then
      var name := DecodeStr(block, p);
      if name.None? then None else
      var value := DecodeStr(block, name.value.1);
      if value.None? then None else Some(((name.value.0, value.value.0), value.value.1))
    else
      var entry := Indexed(t, idx);
      if entry.None? then None else
      var value := DecodeStr(block, p);
      if value.None? then None else Some(((entry.value.0, value.value.0), value.value.1))
  }

  /** One representation at `i`: the header it yields if any, the table, and where it ends; None stops the block. */
  function DecodeOne(t: Table, block: seq<byte>, i: nat): (r: Option<(seq<Header>, Table, nat)>)
    requires i < |block|
    ensures r.Some? ==> i < r.value.2 <= |block|
  {
    var b := block[i];
    if b >= 128 then
      var num := DecodeInt(block, i, 7);
      if num.None? || num.value.0 == 0 then None else
      var h := Indexed(t, num.value.0);
      Some((if h.Some? then [h.value] else [], t, num.value.1))
    else if b >= 64 then
      var lit := Literal(t, block, i, 6);
      if lit.None? then None else Some(([lit.value.0], Insert(t, lit.value.0), lit.value.1))
    else if b >= 32 then
      var num := DecodeInt(block, i, 5);
      if num.None? then None else Some(([], Resize(t, num.value.0), num.value.1))
    else
      var lit := Literal(t, block, i, 4);
      if lit.None? then None else Some(([lit.value.0], t, lit.value.1))
  }

  function DecodeFrom(t: Table, block: seq<byte>, i: nat): (seq<Header>, Table)
    requires i <= |block|
    decreases |block| - i
  {
    if i == |block| then ([], t) else
    var one := DecodeOne(t, block, i);
    if one.None? then ([], t) else
    var (hs, t1, ni) := one.value;
    var (rest, t2) := DecodeFrom(t1, block, ni);
    (hs + rest, t2)
  }

  function Decode(t: Table, block: seq<byte>): (seq<Header>, Table) {
    DecodeFrom(t, block, 0)
  }

  // ---------------------------------------------------------------- what the table keeps

  /** The size is the sum of the entries and within the maximum (sections 4.1 and 4.2). */
  ghost predicate Accounted(t: Table) {
    t.size == TotalSize(t.dynamic) <= t.maxSize
  }

  /** `kept` is the longest newest-first prefix of `hs` that fits in `max`. */
  ghost predicate LongestFit(kept: seq<Header>, hs: seq<Header>, max: nat) {
    kept <= hs && TotalSize(kept) <= max && forall n :: |kept| < n <= |hs| ==> TotalSize(hs[..n]) > max
  }

  lemma {:induction false} TotalSizeGrows(hs: seq<Header>, m: nat, n: nat)
    requires m <= n <= |hs|
    ensures TotalSize(hs[..n]) >= TotalSize(hs[..m]) + 32 * (n - m)
    decreases n - m
  {
    if m < n {
      assert hs[..n][..n - 1] == hs[..n - 1];
      TotalSizeGrows(hs, m, n - 1);
    }
  }

  lemma {:induction false} EvictFits(t: Table)
    requires t.size == TotalSize(t.dynamic)
    ensures Accounted(Evict(t)) && Evict(t).maxSize == t.maxSize && Evict(t).fixed == t.fixed
    ensures LongestFit(Evict(t).dynamic, t.dynamic, t.maxSize)
    decreases |t.dynamic|
  {
    if t.size > t.maxSize {
      var n := |t.dynamic| - 1;
      var t' := t.(dynamic := t.dynamic[..n], size := t.size - EntrySize(t.dynamic[n]));
      EvictFits(t');
      forall k | |Evict(t').dynamic| < k <= |t.dynamic|
        ensures TotalSize(t.dynamic[..k]) > t.maxSize
      {
        if k <= n {
          assert t.dynamic[..k] == t'.dynamic[..k];
        } else {
          assert t.dynamic[..k] == t.dynamic;
        }
      }
    }
  }

  /**
   INSERTION. The table stays accounted for and holds the longest newest-first prefix, new
   entry included, that fits; an entry larger than the table leaves it empty (section 4.4).
   */
  lemma InsertFits(t: Table, h: Header)
    requires Accounted(t)
    ensures Accounted(Insert(t, h)) && Insert(t, h).maxSize == t.maxSize && Insert(t, h).fixed == t.fixed
    ensures LongestFit(Insert(t, h).dynamic, [h] + t.dynamic, t.maxSize)
    ensures EntrySize(h) > t.maxSize <==> Insert(t, h).dynamic == []
  {
    var all := [h] + t.dynamic;
    TotalSizeCons(h, t.dynamic);
    EvictFits(t.(dynamic := all, size := t.size + EntrySize(h)));
    assert all[..1] == [h] && [h][..0] == [];
    assert TotalSize([h]) == EntrySize(h);
    var kept := Insert(t, h).dynamic;
    if kept != [] {
      TotalSizeGrows(kept, 1, |kept|);
      assert kept[..|kept|] == kept && kept[..1] == [h];
    }
  }

  lemma {:induction false} TotalSizeCons(h: Header, hs: seq<Header>)
    ensures TotalSize([h] + hs) == EntrySize(h) + TotalSize(hs)
  {
    if hs == [] {
      assert [h] + hs == [h] && [h][..0] == [];
    } else {
      var all := [h] + hs;
      assert all[..|all| - 1] == [h] + hs[..|hs| - 1];
      TotalSizeCons(h, hs[..|hs| - 1]);
    }
  }

  lemma ResizeFits(t: Table, max: nat)
    requires Accounted(t)
    ensures Accounted(Resize(t, max)) && Resize(t, max).maxSize == max && Resize(t, max).fixed == t.fixed
    ensures LongestFit(Resize(t, max).dynamic, t.dynamic, max)
  {
    EvictFits(t.(maxSize := max));
  }

  lemma {:induction false} DecodeKeepsAccounted(t: Table, block: seq<byte>, i: nat)
    requires i <= |block| && Accounted(t)
    ensures Accounted(DecodeFrom(t, block, i).1) && DecodeFrom(t, block, i).1.fixed == t.fixed
    decreases |block| - i
  {
    if i < |block| {
      var one := DecodeOne(t, block, i);
      if one.Some? {
        DecodeOneKeepsAccounted(t, block, i);
        DecodeKeepsAccounted(one.value.1, block, one.value.2);
      }
    }
  }

  lemma DecodeOneKeepsAccounted(t: Table, block: seq<byte>, i: nat)
    requires i < |block| && Accounted(t) && DecodeOne(t, block, i).Some?
    ensures Accounted(DecodeOne(t, block, i).value.1) && DecodeOne(t, block, i).value.1.fixed == t.fixed
  {
    var b := block[i];
    if 64 <= b < 128 {
      InsertFits(t, Literal(t, block, i, 6).value.0);
    } else if 32 <= b < 64 {
      ResizeFits(t, DecodeInt(block, i, 5).value.0);
    }
  }

  // ---------------------------------------------------------------- in place

  class Decoder {
    const fixed: seq<Header>
    var dynamic: seq<Header>
    var maxSize: nat
    var size: int

    function Model(): Table
      reads this
    {
      Table(fixed, dynamic, maxSize, size)
    }

    ghost predicate Valid()
      reads this
    {
      Accounted(Model())
    }

    constructor ()
      ensures Valid() && Model() == Initial()
    {
      fixed := StaticHeaders();
      dynamic, maxSize, size := [], 4096, 0;
    }

    method EvictOld()
      modifies this
      ensures Model() == Evict(old(Model()))
    {
      while size > maxSize
        invariant Evict(Model()) == Evict(old(Model()))
        decreases |dynamic|
      {
        if dynamic == [] {
          break;
        }
        var last := dynamic[|dynamic| - 1];
        dynamic := dynamic[..|dynamic| - 1];
        size := size - EntrySize(last);
      }
    }

    method Add(h: Header)
      modifies this
      ensures Model() == Insert(old(Model()), h)
    {
      size := size + EntrySize(h);
      dynamic := [h] + dynamic;
      EvictOld();
    }

    method ReadLiteral(block: seq<byte>, pos: nat, prefix: nat) returns (r: Option<(Header, nat)>)
      ensures r == Literal(Model(), block, pos, prefix)
    {
      var num := DecodeIntLoop(block, pos, prefix);
      if num.None? {
        return None;
      }
      var (idx, p) := num.value;
      var name: Str;
      if idx == 0 {
        var s := DecodeStr(block, p);
        if s.None? {
          return None;
        }
        name, p := s.value.0, s.value.1;
      } else {
        var entry := Indexed(Model(), idx);
        if entry.None? {
          return None;
        }
        name := entry.value.0;
      }
      var value := DecodeStr(block, p);
      if value.None? {
        return None;
      }
      return Some(((name, value.value.0), value.value.1));
    }

    /** Reads one representation; `done` says the block cannot be read further. */
    method ReadOne(block: seq<byte>, i: nat) returns (hs: seq<Header>, next: nat, done: bool)
      requires i < |block|
      modifies this
      ensures var one := DecodeOne(old(Model()), block, i);
        if one.None? then done && hs == [] && Model() == old(Model())
        else !done && (hs, Model(), next) == one.value
    {
      hs, next, done := [], i, false;
      var b := block[i];
      if b >= 128 {
        var num := DecodeIntLoop(block, i, 7);
        if num.None? || num.value.0 == 0 {
          done := true;
          return;
        }
        next := num.value.1;
        var h := Indexed(Model(), num.value.0);
        if h.Some? {
          hs := [h.value];
        }
      } else if b >= 64 {
        var lit := ReadLiteral(block, i, 6);
        if lit.None? {
          done := true;
          return;
        }
        next := lit.value.1;
        Add(lit.value.0);
        hs := [lit.value.0];
      } else if b >= 32 {
        var num := DecodeIntLoop(block, i, 5);
        if num.None? {
          done := true;
          return;
        }
        next := num.value.1;
        maxSize := num.value.0;
        EvictOld();
      } else {
        var lit := ReadLiteral(block, i, 4);
        if lit.None? {
          done := true;
          return;
        }
        next := lit.value.1;
        hs := [lit.value.0];
      }
    }

    method DecodeBlock(block: seq<byte>) returns (headers: seq<Header>)
      requires Valid()
      modifies this
      ensures Valid()
      ensures (headers, Model()) == Decode(old(Model()), block)
    {
      DecodeKeepsAccounted(Model(), block, 0);
      headers := [];
      var i := 0;
      assert [] + DecodeFrom(Model(), block, 0).0 == Decode(Model(), block).0;
      while i < |block|
        invariant 0 <= i <= |block|
        invariant var (rest, t) := DecodeFrom(Model(), block, i);
          (headers + rest, t) == Decode(old(Model()), block)
        decreases |block| - i
      {
        ghost var before := DecodeFrom(Model(), block, i).0;
        var hs, next, done := ReadOne(block, i);
        if done {
          assert headers + [] == headers;
          return;
        }
        assert headers + before == (headers + hs) + DecodeFrom(Model(), block, next).0;
        headers := headers + hs;
        i := next;
      }
      assert headers + [] == headers;
    }
  }
}
