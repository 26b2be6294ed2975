/**
 * The fixed-width integer types of the C source and the conversions between
 * them. Dafny's integers are unbounded, so every narrowing the C code performs
 * (a cast, a parameter of a narrower type) is written out with these functions.
 */
module FixedWidth {
  type byte = x: int | 0 <= x < 0x100
  type u16 = x: int | 0 <= x < 0x1_0000
  type i16 = x: int | -0x8000 <= x < 0x8000

  const INT32_MIN: int := -0x8000_0000
  const INT32_MAX: int := 0x7FFF_FFFF

  /** The value is representable in a 32-bit C `int`. */
  predicate IsInt32(x: int)
  {
    INT32_MIN <= x <= INT32_MAX
  }

  /** Conversion to `uint16_t`: reduction modulo 2^16. */
  function ToU16(x: int): (r: u16)
    ensures 0 <= x < 0x1_0000 ==> r == x
  {
    x % 0x1_0000
  }

  /** The conversion keeps the value modulo 2^16. */
  lemma ToU16Congruent(x: int)
    ensures (x - ToU16(x)) % 0x1_0000 == 0
  {
    assert x == (x / 0x1_0000) * 0x1_0000 + ToU16(x);
  }

  /** Conversion to `int16_t` (two's-complement wrap-around). */
  function ToI16(x: int): (r: i16)
    ensures -0x8000 <= x < 0x8000 ==> r == x
  {
    (x + 0x8000) % 0x1_0000 - 0x8000
  }

  /** The conversion keeps the value modulo 2^16, so it is the unique signed
      16-bit value congruent to x. */
  lemma ToI16Congruent(x: int)
    ensures (x - ToI16(x)) % 0x1_0000 == 0
  {
    assert x + 0x8000 == ((x + 0x8000) / 0x1_0000) * 0x1_0000 + (x + 0x8000) % 0x1_0000;
  }

  /** C's `/` by a positive divisor: the quotient truncated toward zero, so the
      remainder has the sign of the dividend. (Dafny's own `/` is Euclidean.) */
  function CDiv(a: int, b: int): int
    requires b > 0
  {
    if a >= 0 then a / b else -((-a) / b)
  }

  /** The remainder of the truncating division is below the divisor in
      magnitude and has the sign of the dividend. */
  lemma CDivBounds(a: int, b: int)
    requires b > 0
    ensures 0 <= a ==> 0 <= a - CDiv(a, b) * b < b
    ensures a < 0 ==> -b < a - CDiv(a, b) * b <= 0
  {
    if a < 0 {
      assert -a == ((-a) / b) * b + (-a) % b;
    }
  }

  /** Incrementing commutes with truncation to 16 bits: the counter wraps from 0xFFFF to 0. */
  lemma ToU16Succ(a: int)
    ensures ToU16(a + 1) == ToU16(ToU16(a) + 1)
  {
    var q, r := a / 0x1_0000, a % 0x1_0000;
    assert a + 1 == q * 0x1_0000 + (r + 1);
    if r + 1 == 0x1_0000 {
      assert a + 1 == (q + 1) * 0x1_0000;
    }
  }
}
