/** JavaScript numbers as the source meets them: finite values are exact reals,
    and NaN and the two infinities are separate values. Rounding of finite
    arithmetic is not modelled. */
module JsNumber {

  datatype Num = Fin(v: real) | NaN | PosInf | NegInf {

    /** JavaScript truthiness: `0` and `NaN` are falsy, every other number is truthy. */
    predicate Truthy() {
      !(this == Fin(0.0) || this == NaN)
    }

    /** `isFinite`. */
    predicate IsFinite() {
      Fin?
    }
  }

  /** `Math.min` on two integers. */
  function Min(a: int, b: int): (r: int)
    ensures r <= a && r <= b && (r == a || r == b)
  {
    if a <= b then a else b
  }

  /** `Math.trunc` on a finite value: rounds toward zero. */
  function Trunc(x: real): (r: int)
    ensures x >= 0.0 ==> r == x.Floor
    ensures x < 0.0 ==> r == -((-x).Floor)
    ensures (if r >= 0 then r else -r) as real <= (if x >= 0.0 then x else -x)
  {
    if x >= 0.0 then x.Floor else -((-x).Floor)
  }

  /** The `%` operator on finite numbers: the remainder after truncating division,
      which takes the sign of the dividend (unlike Dafny's Euclidean `%`). */
  function Rem(a: real, d: real): real
    requires d != 0.0
  {
    a - d * Trunc(a / d) as real
  }

  /** With the divisor 60 (seconds in a minute) the remainder lies within one
      divisor of zero, on the dividend's side, and the dividend is sixty times the
      truncated quotient plus the remainder. */
  lemma RemSixty(a: real)
    ensures a == 60.0 * Trunc(a / 60.0) as real + Rem(a, 60.0)
    ensures a >= 0.0 ==> 0.0 <= Rem(a, 60.0) < 60.0
    ensures a <= 0.0 ==> -60.0 < Rem(a, 60.0) <= 0.0
  {
  }
}
