/**
 * The double-precision numbers of the program, as far as the model needs them.
 *
 * A value is either a finite number, kept exactly as a `real`, or NaN.
 * Arithmetic is exact (no rounding), NaN absorbs every operation it takes part
 * in, and a division by zero gives NaN. IEEE infinities are not represented:
 * every non-finite result is folded into NaN. Ordered comparisons involving
 * NaN are false, as in IEEE 754.
 */
module Float {

  datatype Option<+T> = None | Some(value: T)

  datatype F64 = Num(val: real) | NaN

  /** The two functions of the math library that the curve fit calls. The model
      does not interpret them: every operation that needs them takes a `Math`. */
  datatype Math = Math(exp: real -> F64, ln: real -> F64)

  const Zero: F64 := Num(0.0)

  function Add(a: F64, b: F64): F64 {
    if a.Num? && b.Num? then Num(a.val + b.val) else NaN
  }

  function Sub(a: F64, b: F64): F64 {
    if a.Num? && b.Num? then Num(a.val - b.val) else NaN
  }

  function Mul(a: F64, b: F64): F64 {
    if a.Num? && b.Num? then Num(a.val * b.val) else NaN
  }

  function Div(a: F64, b: F64): F64 {
    if a.Num? && b.Num? && b.val != 0.0 then Num(a.val / b.val) else NaN
  }

  function Abs(a: F64): F64 {
    if a.NaN? then NaN else if a.val < 0.0 then Num(-a.val) else a
  }

  /** `a > b`; false when either side is NaN. */
  predicate Gt(a: F64, b: F64) {
    a.Num? && b.Num? && a.val > b.val
  }

  /** `a < b`; false when either side is NaN. */
  predicate Lt(a: F64, b: F64) {
    Gt(b, a)
  }

  function Exp(m: Math, a: F64): F64 {
    if a.Num? then m.exp(a.val) else NaN
  }

  function Ln(m: Math, a: F64): F64 {
    if a.Num? then m.ln(a.val) else NaN
  }
}
