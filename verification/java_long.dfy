/** Java's 64-bit `long`, with its two's-complement wrap-around written out. */
module JavaLong {

  const LONG_MIN: int := -0x8000_0000_0000_0000
  const LONG_MAX: int := 0x7FFF_FFFF_FFFF_FFFF
  const TWO_POW_64: int := 0x1_0000_0000_0000_0000

  type Long = x: int | LONG_MIN <= x <= LONG_MAX

  /** The `long` a mathematical integer wraps to: congruent to `x` modulo 2^64. */
  function Wrap(x: int): (r: Long)
    ensures LONG_MIN <= x <= LONG_MAX ==> r == x
    ensures x < LONG_MIN && LONG_MIN <= x + TWO_POW_64 ==> r == x + TWO_POW_64
    ensures LONG_MAX < x && x - TWO_POW_64 <= LONG_MAX ==> r == x - TWO_POW_64
  {
    (x - LONG_MIN) % TWO_POW_64 + LONG_MIN
  }

  /** Java's `a - b` on two longs. */
  function Sub(a: Long, b: Long): (r: Long)
    ensures LONG_MIN <= a - b <= LONG_MAX ==> r == a - b
    ensures a - b < LONG_MIN ==> r == a - b + TWO_POW_64
    ensures LONG_MAX < a - b ==> r == a - b - TWO_POW_64
  {
    Wrap(a - b)
  }

  /** Java's `a + b` on two longs. */
  function Add(a: Long, b: Long): (r: Long)
    ensures LONG_MIN <= a + b <= LONG_MAX ==> r == a + b
    ensures a + b < LONG_MIN ==> r == a + b + TWO_POW_64
    ensures LONG_MAX < a + b ==> r == a + b - TWO_POW_64
  {
    Wrap(a + b)
  }
}
