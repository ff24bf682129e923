/** Bytes, machine words and the Option type shared by every module. */
module Bytes {
  type byte = x: int | 0 <= x < 256
  type u16 = x: int | 0 <= x < 0x1_0000
  type u32 = x: int | 0 <= x < 0x1_0000_0000
  type i64 = x: int | -0x8000_0000_0000_0000 <= x < 0x8000_0000_0000_0000

  datatype Option<+T> = None | Some(value: T)

  /** `u16::from_be_bytes` */
  function Be16(a: byte, b: byte): u16 {
    (a as int) * 0x100 + b
  }

  /** Three bytes, most significant first. */
  function Be24(a: byte, b: byte, c: byte): nat {
    (a as int) * 0x1_0000 + (b as int) * 0x100 + c
  }

  /** `u32::from_be_bytes` */
  function Be32(a: byte, b: byte, c: byte, d: byte): u32 {
    (a as int) * 0x100_0000 + (b as int) * 0x1_0000 + (c as int) * 0x100 + d
  }

  lemma Split24(x: nat)
    requires x < 0x100_0000
    ensures Be24(x / 0x1_0000, x / 0x100 % 0x100, x % 0x100) == x
  {
  }

  lemma Split32(x: u32)
    ensures Be32(x / 0x100_0000, x / 0x1_0000 % 0x100, x / 0x100 % 0x100, x % 0x100) == x
  {
    var b1, b2 := x / 0x100, x / 0x1_0000;
    assert b2 == b1 / 0x100 && x / 0x100_0000 == b2 / 0x100;
    assert x == 0x100 * b1 + x % 0x100;
    assert b1 == 0x100 * b2 + b1 % 0x100;
    assert b2 == 0x100 * (b2 / 0x100) + b2 % 0x100;
  }
}
