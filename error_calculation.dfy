/** Absolute, relative and percentage error of an approximation
    (`calculate_error`). */
module ErrorCalculation {
  import opened Numeric

  /** A true value at most this large in magnitude (1e-10) counts as zero. */
  const ZeroThreshold: real := 0.0000000001

  datatype ErrorMetrics = ErrorMetrics(absolute: real, relative: ExtReal, percentage: ExtReal)

  /** The three error measures; relative and percentage error are infinite
      when the true value is (numerically) zero. */
  function CalculateError(trueValue: real, approximation: real): (m: ErrorMetrics)
    ensures m.absolute >= 0.0
    ensures m.absolute == 0.0 <==> trueValue == approximation
    ensures m.absolute == trueValue - approximation || m.absolute == approximation - trueValue
    ensures Abs(trueValue) > ZeroThreshold ==>
      && m.relative.Finite?
      && m.relative.value * Abs(trueValue) == m.absolute
      && m.percentage == Finite(100.0 * m.relative.value)
    ensures Abs(trueValue) <= ZeroThreshold ==> m.relative == PosInf && m.percentage == PosInf
  {
    var absolute := Abs(trueValue - approximation);
    if Abs(trueValue) > ZeroThreshold then
      var relative := absolute / Abs(trueValue);
      ErrorMetrics(absolute, Finite(relative), Finite(relative * 100.0))
    else
      ErrorMetrics(absolute, PosInf, PosInf)
  }

  /** The absolute error does not depend on which value is the true one. */
  lemma AbsoluteErrorSymmetric(x: real, y: real)
    ensures CalculateError(x, y).absolute == CalculateError(y, x).absolute
  {
  }

  /** With a non-zero true value, the percentage error is below 100 exactly
      when the approximation is closer to the true value than zero is. */
  lemma PercentageBelowHundred(trueValue: real, approximation: real)
    requires Abs(trueValue) > ZeroThreshold
    ensures var m := CalculateError(trueValue, approximation);
      m.percentage.value < 100.0 <==> Abs(trueValue - approximation) < Abs(trueValue)
  {
    var m := CalculateError(trueValue, approximation);
    RatioBelowOne(m.relative.value, Abs(trueValue), m.absolute);
  }

  lemma RatioBelowOne(ratio: real, whole: real, part: real)
    requires whole > 0.0 && ratio * whole == part
    ensures ratio < 1.0 <==> part < whole
  {
    assert part - whole == (ratio - 1.0) * whole;
  }
}
