/** The two C conversions the program relies on, which differ from Dafny's
    Euclidean `/` and `Floor` on negative operands. */
module CArith {

  /** `FLT_MAX`, the largest finite `float`. */
  const FLT_MAX: real := 340282346638528859811704183484516925440.0

  /** `(int)x` for a float `x`: truncation toward zero. */
  function Trunc(x: real): (r: int)
    ensures x >= 0.0 ==> r as real <= x < r as real + 1.0
    ensures x < 0.0 ==> r as real - 1.0 < x <= r as real
  {
    if x >= 0.0 then x.Floor else -((-x).Floor)
  }

  /** C's `v / 2` on an `int`: the quotient truncated toward zero. */
  function Half(v: int): (r: int)
    ensures v >= 0 ==> 0 <= r && (2 * r == v || 2 * r == v - 1)
    ensures v < 0 ==> r <= 0 && (2 * r == v || 2 * r == v + 1)
  {
    if v >= 0 then v / 2 else -((-v) / 2)
  }
}
