/**
 * Number semantics shared by the pixel and geometry code: JavaScript's `Math.round`,
 * `Math.max(lo, Math.min(hi, x))`, the store into a `Uint8ClampedArray` element and the
 * comparison `a / b > r` with IEEE division by zero.
 */
module Numeric {

  /** A value a `Uint8ClampedArray` element can hold. */
  type byte = x: int | 0 <= x < 256

  function Min(a: int, b: int): int { if a <= b then a else b }

  function MinR(a: real, b: real): real { if a <= b then a else b }

  function MaxR(a: real, b: real): real { if a >= b then a else b }

  /** `Math.round`: the nearest integer, half-way cases going toward +infinity. */
  function Round(x: real): (r: int)
    ensures x - 0.5 < r as real <= x + 0.5
  {
    (x + 0.5).Floor
  }

  /** `Math.round` leaves integers alone. */
  lemma RoundInt(n: int)
    ensures Round(n as real) == n
  {
  }

  /** `Math.round` keeps order. */
  lemma RoundMonotone(x: real, y: real)
    requires x <= y
    ensures Round(x) <= Round(y)
  {
  }

  /** `Math.round` of a value in [0, 255] is a byte. */
  lemma RoundByte(x: real)
    requires 0.0 <= x <= 255.0
    ensures 0 <= Round(x) <= 255
  {
  }

  /** `Math.max(lo, Math.min(hi, x))`. */
  function Clamp(x: real, lo: real, hi: real): (r: real)
    requires lo <= hi
    ensures lo <= r <= hi
    ensures lo <= x <= hi ==> r == x
    ensures x < lo ==> r == lo
    ensures x > hi ==> r == hi
  {
    MaxR(lo, MinR(hi, x))
  }

  /**
   * Assigning a number to a `Uint8ClampedArray` element: clamp to [0, 255], then round to
   * the nearest integer with half-way cases going to the even neighbour.
   */
  function ToClampedByte(x: real): (b: byte)
    ensures x <= 0.0 ==> b == 0
    ensures x >= 255.0 ==> b == 255
    ensures 0.0 <= x <= 255.0 ==> x - 0.5 <= b as real <= x + 0.5
  {
    if x <= 0.0 then 0
    else if x >= 255.0 then 255
    else
      var f := x.Floor;
      var d := x - f as real;
      if d < 0.5 then f
      else if d > 0.5 then f + 1
      else if f % 2 == 0 then f else f + 1
  }

  /** A `Uint8ClampedArray` store of an integer clamps it to [0, 255]. */
  lemma ToClampedByteOfInt(n: int)
    ensures ToClampedByte(n as real) == if n < 0 then 0 else if n > 255 then 255 else n
  {
  }

  /** A `Uint8ClampedArray` store of an integer byte keeps it. */
  lemma ToClampedByteInt(b: byte)
    ensures ToClampedByte(b as real) == b
  {
  }

  /**
   * The JavaScript comparison `a / b > r` for a positive constant `r`: when `b` is 0 the
   * quotient is +Infinity (a > 0), NaN (a == 0) or -Infinity (a < 0).
   */
  predicate RatioExceeds(a: real, b: real, r: real)
  {
    if b > 0.0 then a > r * b
    else if b < 0.0 then a < r * b
    else a > 0.0
  }

  /** For a positive divisor the comparison is the ordinary one on the quotient. */
  lemma RatioExceedsPositive(a: real, b: real, r: real)
    requires b > 0.0
    ensures RatioExceeds(a, b, r) <==> a / b > r
  {
    if a / b > r {
      assert a == (a / b) * b;
    } else {
      assert a == (a / b) * b;
    }
  }
}
