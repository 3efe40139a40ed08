/** Shared vocabulary of the numerical routines: absolute value, the
    success-or-error record every routine returns, and the IEEE-754 special
    values that the Python code can produce, seen through exact reals. */
module Numeric {

  datatype Option<+T> = None | Some(value: T)

  /** Every routine returns either its result record or an error record. */
  datatype Result<+T, +E> = Success(value: T) | Failure(error: E)

  /** A double as the model sees it: an exact finite value, or one of the
      special values that numpy division by zero and `float('inf')` yield. */
  datatype ExtReal = Finite(value: real) | PosInf | NegInf | NaN

  function Abs(x: real): (r: real)
    ensures r >= 0.0
    ensures r == x || r == -x
    ensures r == 0.0 <==> x == 0.0
  {
    if x < 0.0 then -x else x
  }

  /** IEEE division of two finite doubles: finite when the divisor is not
      zero, otherwise an infinity signed like the numerator, or NaN for 0/0. */
  function Divide(n: real, d: real): (q: ExtReal)
    ensures q.Finite? <==> d != 0.0
    ensures q.Finite? ==> q.value * d == n
    ensures q == PosInf <==> d == 0.0 && n > 0.0
    ensures q == NegInf <==> d == 0.0 && n < 0.0
    ensures q == NaN <==> d == 0.0 && n == 0.0
  {
    if d != 0.0 then Finite(n / d)
    else if n > 0.0 then PosInf
    else if n < 0.0 then NegInf
    else NaN
  }
}
