/** The fixed-width unsigned integers of the connection record, and their wrap-around. */
module Words {
  const TWO16: int := 0x1_0000
  const TWO32: int := 0x1_0000_0000
  const TWO64: int := 0x1_0000_0000_0000_0000

  type U8 = x: int | 0 <= x < 256
  type U16 = x: int | 0 <= x < TWO16
  type U32 = x: int | 0 <= x < TWO32
  type U64 = x: int | 0 <= x < TWO64

  function Add16(x: U16, y: U16): U16 { if x + y < TWO16 then x + y else x + y - TWO16 }

  function Inc16(x: U16): U16 { if x == TWO16 - 1 then 0 else x + 1 }

  function Dec16(x: U16): U16 { if x == 0 then TWO16 - 1 else x - 1 }

  function Add64(x: U64, y: U64): U64 { if x + y < TWO64 then x + y else x + y - TWO64 }

  function Sub64(x: U64, y: U64): U64 { if y <= x then x - y else x - y + TWO64 }

  /** Equal up to a multiple of 2^16. */
  predicate Congruent16(x: int, y: int) { (x - y) % TWO16 == 0 }

  lemma CongruentShift(x: int, y: int, z: int)
    requires Congruent16(x, z)
    requires y == x || y == x + TWO16 || y == x - TWO16
    ensures Congruent16(y, z)
  {
  }

  lemma CongruentIsMod(x: int, y: U16)
    requires Congruent16(x, y)
    ensures x % TWO16 == y
  {
  }
}
