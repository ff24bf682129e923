/**
 Serial-number arithmetic on the 32-bit TCP sequence space (section 3.4 of RFC 9293):
 wrapping addition and subtraction, and the two signed comparisons the program uses.
 */
module SerialNumbers {
  import opened Bytes

  const MODULUS := 0x1_0000_0000
  const HALF := 0x8000_0000

  /** `a.wrapping_add(n as u32)` */
  function WrapAdd(a: u32, n: nat): u32 {
    (a + n) % MODULUS
  }

  /** `a.wrapping_sub(b)` */
  function WrapSub(a: u32, b: u32): u32 {
    (a - b) % MODULUS
  }

  /** `x as i32` */
  function AsI32(x: u32): int {
    if x < HALF then x else x - MODULUS
  }

  predicate SeqLt(a: u32, b: u32) {
    AsI32(WrapSub(a, b)) < 0
  }

  predicate SeqLeq(a: u32, b: u32) {
    AsI32(WrapSub(a, b)) <= 0
  }

  /** The sequence number of the byte at offset `i` of a stream whose first byte has number `isn`. */
  function At(isn: u32, i: nat): u32 {
    (isn + i) % MODULUS
  }

  lemma AtStep(isn: u32, i: nat, n: nat)
    ensures WrapAdd(At(isn, i), n) == At(isn, i + n)
  {
  }

  /** Two offsets less than 2^32 apart: their wrapped distance determines their true distance. */
  lemma Distance(isn: u32, x: nat, y: nat)
    requires -MODULUS < x - y < MODULUS
    ensures WrapSub(At(isn, x), At(isn, y)) == if y <= x then x - y else x - y + MODULUS
  {
    var d := if y <= x then x - y else x - y + MODULUS;
    var qx, qy := (isn + x) / MODULUS, (isn + y) / MODULUS;
    var w := At(isn, x) - At(isn, y);
    assert w == x - y - MODULUS * (qx - qy);
    assert -MODULUS < w < MODULUS;
    assert w % MODULUS == if w < 0 then w + MODULUS else w;
  }

  /** Serial order is the true order exactly on a window: the whole error set of the comparison. */
  lemma SeqLeqExact(isn: u32, x: nat, y: nat)
    requires -MODULUS < x - y < MODULUS
    ensures (SeqLeq(At(isn, x), At(isn, y)) <==> x <= y) <==> -HALF <= x - y < HALF
  {
    Distance(isn, x, y);
  }
}
