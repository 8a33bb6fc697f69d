/** Small shared vocabulary: an option type and the scalar operations the
    controller applies to `f32` values, stated over `real`. */
module Common {

  datatype Option<+T> = None | Some(value: T)

  /** Seconds on the monotonic clock (stands in for `Instant`). */
  type Time = real

  /** `f32::powf`, supplied by the caller and left uninterpreted. */
  type Pow = (real, real) -> real

  const I32_MIN: int := -0x8000_0000
  const I32_MAX: int := 0x7FFF_FFFF

  predicate InI32(n: int) {
    I32_MIN <= n <= I32_MAX
  }

  function Abs(x: real): (r: real)
    ensures r >= 0.0
    ensures r == x || r == -x
  {
    if x < 0.0 then -x else x
  }

  function Min(a: real, b: real): (r: real)
    ensures r <= a && r <= b
    ensures r == a || r == b
  {
    if a <= b then a else b
  }

  function Max(a: real, b: real): (r: real)
    ensures r >= a && r >= b
    ensures r == a || r == b
  {
    if a >= b then a else b
  }

  /** `f32::signum`: zero is read as `+0.0`, whose signum is `1.0`. */
  function Signum(x: real): (r: real)
    ensures r == 1.0 || r == -1.0
    ensures r * x == Abs(x)
    ensures x > 0.0 ==> r == 1.0
    ensures x < 0.0 ==> r == -1.0
    ensures x == 0.0 ==> r == 1.0
  {
    if x < 0.0 then -1.0 else 1.0
  }

  /** `f32::trunc`: rounds toward zero. */
  function Trunc(x: real): (r: int)
    ensures 0.0 <= x ==> r as real <= x < r as real + 1.0
    ensures x < 0.0 ==> r as real - 1.0 < x <= r as real
  {
    if x >= 0.0 then x.Floor else -((-x).Floor)
  }

  /** `f32::round`: to the nearest integer, halves away from zero. */
  function Round(x: real): (r: int)
    ensures 0.0 <= x ==> r as real - 0.5 <= x < r as real + 0.5
    ensures x < 0.0 ==> r as real - 0.5 < x <= r as real + 0.5
  {
    if x >= 0.0 then (x + 0.5).Floor else -((-x + 0.5).Floor)
  }

  /** The saturating `as i32` cast Rust applies to an integral float. */
  function SaturateI32(n: int): (r: int)
    ensures InI32(r)
    ensures InI32(n) ==> r == n
    ensures n > I32_MAX ==> r == I32_MAX
    ensures n < I32_MIN ==> r == I32_MIN
  {
    if n > I32_MAX then I32_MAX else if n < I32_MIN then I32_MIN else n
  }

  /** The integer part never exceeds the value in magnitude, and what is
      left over is less than one unit of the same sign. */
  lemma TruncRemainder(x: real)
    ensures Abs(Trunc(x) as real) <= Abs(x)
    ensures Abs(x - Trunc(x) as real) < 1.0
    ensures (x - Trunc(x) as real) * x >= 0.0
    ensures Trunc(x) as real * x >= 0.0
  {
  }
}
