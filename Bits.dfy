/** Fixed-width integer types of the C driver and the conversions C applies
    when a value is stored into a narrower variable or parameter. */
module Bits {

  type u8 = x: int | 0 <= x < 0x100
  type u16 = x: int | 0 <= x < 0x1_0000

  /** Storing an int into a `uint8_t`: reduction modulo 2^8. */
  function U8(v: int): u8 { v % 0x100 }

  /** Storing an int into a `uint16_t`: reduction modulo 2^16. */
  function U16(v: int): u16 { v % 0x1_0000 }

  predicate IsI16(v: int) { -0x8000 <= v < 0x8000 }

  /** Storing an int into an `int16_t`, as GCC does it (two's complement wrap). */
  function I16(v: int): (r: int)
    ensures -0x8000 <= r < 0x8000
    ensures -0x8000 <= v < 0x8000 ==> r == v
  {
    (v + 0x8000) % 0x1_0000 - 0x8000
  }

  /** Wrapping to `int16_t` keeps the bit pattern: the `uint16_t` image is unchanged. */
  lemma I16SameBits(v: int)
    ensures U16(I16(v)) == U16(v)
  {
  }

  /** `v >> 8` of a 16-bit value: the byte sent first. */
  function Hi(v: u16): u8 { v / 0x100 }

  /** `(uint8_t)v`: the byte sent second. */
  function Lo(v: u16): u8 { v % 0x100 }

  /** Two bytes, most significant first, read back as a 16-bit value. */
  function Word(hi: u8, lo: u8): u16 { hi * 0x100 + lo }

  lemma WordOfHiLo(v: u16)
    ensures Word(Hi(v), Lo(v)) == v
  {
  }

  /** Values congruent modulo 2^16 convert to the same `uint16_t`. */
  lemma U16Congruent(a: int, b: int, k: int)
    requires a == b + k * 0x1_0000
    ensures U16(a) == U16(b)
  {
  }

  /** Truncating before an addition or after it gives the same `uint16_t`. */
  lemma U16Step(a: int, c: int)
    ensures U16(U16(a) + c) == U16(a + c)
  {
    U16Congruent(U16(a) + c, a + c, -(a / 0x1_0000));
  }

  /** Truncating before an addition or after it gives the same `uint8_t`. */
  lemma U8Step(a: int, c: int)
    ensures U8(U8(a) + c) == U8(a + c)
  {
    U8Congruent(U8(a) + c, a + c, -(a / 0x100));
  }

  /** A value in range is its own `uint8_t`. */
  lemma SmallByte(v: int)
    requires 0 <= v < 0x100
    ensures U8(v) == v
  {
  }

  /** A value in range is its own `uint16_t`. */
  lemma SmallWord(v: int)
    requires 0 <= v < 0x1_0000
    ensures U16(v) == v
  {
  }

  /** Adding the same amount to values with the same `uint8_t` image keeps them equal. */
  lemma U8Add(a: int, b: int, c: int)
    requires U8(a) == U8(b)
    ensures U8(a + c) == U8(b + c)
  {
    var qa, qb := a / 0x100, b / 0x100;
    assert a == qa * 0x100 + U8(a);
    assert b == qb * 0x100 + U8(b);
    U8Congruent(a + c, b + c, qa - qb);
  }

  /** Values congruent modulo 2^8 convert to the same `uint8_t`. */
  lemma U8Congruent(a: int, b: int, k: int)
    requires a == b + k * 0x100
    ensures U8(a) == U8(b)
  {
  }
}
