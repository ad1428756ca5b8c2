/** Machine integers, wrap-around and the big-endian wire order. */
module Words {
  type byte = x: int | 0 <= x < 0x100
  type u16 = x: int | 0 <= x < 0x1_0000
  type u32 = x: int | 0 <= x < 0x1_0000_0000
  type u64 = x: int | 0 <= x < 0x1_0000_0000_0000_0000
  type i32 = x: int | -0x8000_0000 <= x < 0x8000_0000

  function Wrap8(x: int): byte { x % 0x100 }

  function Wrap16(x: int): u16 { x % 0x1_0000 }

  function Wrap32(x: int): u32 { x % 0x1_0000_0000 }

  /** The value a 32-bit word has when it is stored in a signed int. */
  function Signed32(x: int): i32 {
    var w := Wrap32(x);
    if w < 0x8000_0000 then w else w - 0x1_0000_0000
  }

  function Abs(x: int): nat { if x < 0 then -x else x }

  function Max(x: int, y: int): int { if x < y then y else x }

  /** A byte is not changed by being seen as eight bits. */
  lemma ByteValue(b: byte)
    ensures (b as bv8) as int == b
  {
    assert b % 0x100 == b;
  }
}
