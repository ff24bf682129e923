/** The positions of the packets that pass a filter, and how they move when the buffer does. */
module FilterIndex {
  import opened Bytes
  import opened PacketRings

  /** The positions of the packets that pass, in order. */
  function Passing<P>(passes: P -> bool, packets: seq<P>): (r: seq<nat>)
    ensures |r| <= |packets|
  {
    if packets == [] then [] else
    var n := |packets| - 1;
    var before := Passing(passes, packets[..n]);
    if passes(packets[n]) then before + [n] else before
  }

  /** An increasing list, holding exactly the positions of packets that pass. */
  lemma {:induction false} PassingExactly<P>(passes: P -> bool, packets: seq<P>)
    ensures forall i, j :: 0 <= i < j < |Passing(passes, packets)| ==> Passing(passes, packets)[i] < Passing(passes, packets)[j]
    ensures forall k: nat :: k in Passing(passes, packets) <==> k < |packets| && passes(packets[k])
  {
    if packets != [] {
      var n := |packets| - 1;
      PassingExactly(passes, packets[..n]);
      var before := Passing(passes, packets[..n]);
      assert forall i :: 0 <= i < |before| ==> before[i] in before;
    }
  }

  /** Every position one step earlier; position zero is gone. */
  function Shifted(indices: seq<nat>): seq<nat> {
    if indices == [] then [] else
    var before, last := Shifted(indices[..|indices| - 1]), indices[|indices| - 1];
    if last == 0 then before else before + [last - 1]
  }

  /** Dropping the oldest packet shifts the index. */
  lemma {:induction false} ShiftIsTail<P>(passes: P -> bool, packets: seq<P>)
    requires packets != []
    ensures Shifted(Passing(passes, packets)) == Passing(passes, packets[1..])
  {
    var n := |packets| - 1;
    var before := Passing(passes, packets[..n]);
    if n == 0 {
      assert packets[..0] == [] && packets[1..] == [];
      assert before == [] && [] + [n] == [n];
    } else {
      ShiftIsTail(passes, packets[..n]);
      assert packets[..n][1..] == packets[1..][..n - 1];
      assert packets[1..][n - 1] == packets[n];
      assert (before + [n])[..|before|] == before;
    }
  }

  /** What one arrival does to the index. */
  lemma PassingPushed<P>(passes: P -> bool, packets: seq<P>, capacity: nat, p: P)
    ensures var r := Pushed(packets, capacity, p);
      var kept := if |packets| >= capacity && packets != [] then Shifted(Passing(passes, packets)) else Passing(passes, packets);
      Passing(passes, r) == if passes(p) then kept + [|r| - 1] else kept
  {
    var kept := if |packets| >= capacity && packets != [] then packets[1..] else packets;
    if |packets| >= capacity && packets != [] {
      ShiftIsTail(passes, packets);
    }
    assert (kept + [p])[..|kept|] == kept;
  }

  /** `retain_mut`: the loop that shifts an index in place. */
  method Shift(indices: seq<nat>) returns (r: seq<nat>)
    ensures r == Shifted(indices)
  {
    r := [];
    for i := 0 to |indices|
      invariant r == Shifted(indices[..i])
    {
      assert indices[..i + 1][..i] == indices[..i];
      if indices[i] != 0 {
        r := r + [indices[i] - 1];
      }
    }
    assert indices[..|indices|] == indices;
  }
}
