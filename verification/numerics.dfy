/** The JVM integer and rounding semantics the application relies on:
    64-bit `Long` wrap-around, division that truncates toward zero,
    `Math.round` (ties toward positive infinity), saturating conversions,
    and Kotlin's `coerceIn`. */
module Numerics {

  const LONG_MIN: int := -0x8000_0000_0000_0000
  const LONG_MAX: int := 0x7FFF_FFFF_FFFF_FFFF
  const LONG_RANGE: int := 0x1_0000_0000_0000_0000

  predicate IsLong(x: int) {
    LONG_MIN <= x <= LONG_MAX
  }

  const INT_MIN: int := -0x8000_0000
  const INT_MAX: int := 0x7FFF_FFFF

  function Max(a: int, b: int): int { if a >= b then a else b }
  function Min(a: int, b: int): int { if a <= b then a else b }
  function RealMax(a: real, b: real): real { if a >= b then a else b }
  function Abs(x: int): nat { if x < 0 then -x else x }

  /** The result of a 64-bit two's-complement `Long` operation whose exact
      value is `x`. */
  function WrapLong(x: int): (r: int)
    ensures IsLong(r)
    ensures IsLong(x) ==> r == x
    ensures (x - r) % LONG_RANGE == 0
  {
    (x - LONG_MIN) % LONG_RANGE + LONG_MIN
  }

  /** A result just above `Long.MAX_VALUE` wraps to a negative value
      exactly one `2^64` lower. */
  lemma WrapAbove(x: int)
    requires LONG_MAX < x <= LONG_MAX + LONG_RANGE
    ensures WrapLong(x) == x - LONG_RANGE
  {
    var a := x - LONG_MIN;
    assert LONG_RANGE <= a < 2 * LONG_RANGE;
    assert a / LONG_RANGE == 1;
  }

  /** `a / b` on JVM integers: the quotient is truncated toward zero. */
  function TruncDiv(a: int, b: int): (q: int)
    requires b != 0
    ensures a >= 0 && b > 0 ==> q == a / b
    ensures a < 0 && b < 0 ==> q >= 0
    ensures a >= 0 && b < 0 ==> q <= 0
    ensures a < 0 && b > 0 ==> q <= 0
  {
    if a >= 0 && b > 0 then a / b
    else if a >= 0 then -(a / -b)
    else if b > 0 then -((-a) / b)
    else (-a) / (-b)
  }

  /** `Math.round` / `roundToLong` on an unbounded value: the nearest
      integer, ties rounded toward positive infinity. */
  function RoundHalfUp(x: real): (r: int)
    ensures x - 0.5 < r as real <= x + 0.5
  {
    (x + 0.5).Floor
  }

  /** `roundToLong` saturates at the bounds of `Long`. */
  function SaturateLong(x: int): (r: int)
    ensures IsLong(r)
    ensures IsLong(x) ==> r == x
    ensures x > LONG_MAX ==> r == LONG_MAX
  {
    if x > LONG_MAX then LONG_MAX else if x < LONG_MIN then LONG_MIN else x
  }

  /** `roundToInt` saturates at the bounds of `Int`. */
  function SaturateInt(x: int): (r: int)
    ensures INT_MIN <= r <= INT_MAX
    ensures INT_MIN <= x <= INT_MAX ==> r == x
  {
    if x > INT_MAX then INT_MAX else if x < INT_MIN then INT_MIN else x
  }

  /** `Float.toLong()`: truncation toward zero, saturating at the bounds of
      `Long`. */
  function TruncToLong(x: real): (r: int)
    ensures IsLong(r)
    ensures 0.0 <= x && x < LONG_MAX as real ==> r as real <= x < r as real + 1.0
    ensures 0.0 <= x ==> 0 <= r
  {
    var t := if x >= 0.0 then x.Floor else -((-x).Floor);
    SaturateLong(t)
  }

  /** Kotlin's `coerceIn(lo, hi)` on `Long`; it throws when `lo > hi`. */
  function CoerceIn(x: int, lo: int, hi: int): (r: int)
    requires lo <= hi
    ensures lo <= r <= hi
    ensures lo <= x <= hi ==> r == x
    ensures x < lo ==> r == lo
    ensures x > hi ==> r == hi
  {
    if x < lo then lo else if x > hi then hi else x
  }

  /** Kotlin's `coerceIn(lo, hi)` on `Float`/`Double`; it throws when
      `lo > hi`. */
  function CoerceInReal(x: real, lo: real, hi: real): (r: real)
    requires lo <= hi
    ensures lo <= r <= hi
    ensures lo <= x <= hi ==> r == x
    ensures x < lo ==> r == lo
    ensures x > hi ==> r == hi
  {
    if x < lo then lo else if x > hi then hi else x
  }
}
