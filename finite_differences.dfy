/** Forward, backward and central difference quotients (`finite_differences`),
    either of a formula at one point or of a table of samples. */
module FiniteDifferences {
  import opened Numeric

  /** A parsed formula: the function and its symbolic derivative. */
  datatype Formula = Formula(f: real -> real, df: real -> real)

  /** A difference quotient and its distance from the true derivative. */
  datatype Estimate = Estimate(value: real, error: real)

  datatype FunctionModeResult = FunctionModeResult(
    x: real, h: real, trueDerivative: real, forward: Estimate, backward: Estimate, central: Estimate)

  /** The quotients available at one sample; a slot is None when the
      neighbour it needs does not exist. */
  datatype PointResult = PointResult(x: real, forward: Option<ExtReal>, backward: Option<ExtReal>, central: Option<ExtReal>)

  datatype DataModeResult = DataModeResult(h: real, results: seq<PointResult>)

  datatype Differences = FunctionModeOutput(fm: FunctionModeResult) | DataModeOutput(dm: DataModeResult)

  datatype Error =
    | MissingPoint    // function mode without a point
    | InvalidStep     // function mode without a step: float(None) raises
    | DivisionByZero  // function mode with h = 0: the float division raises
    | LengthMismatch  // data mode with x and y of different lengths
    | MissingInput    // neither a formula nor both sample lists

  function Estimated(value: real, trueDerivative: real): Estimate
  {
    Estimate(value, Abs(trueDerivative - value))
  }

  /** Function mode: the three closed-form quotients at x with step h, each
      with its error against the true derivative df(x). */
  function FunctionModeDifferences(formula: Formula, x: Option<real>, h: Option<real>): (r: Result<FunctionModeResult, Error>)
    ensures x.None? ==> r == Failure(MissingPoint)
    ensures x.Some? && h.None? ==> r == Failure(InvalidStep)
    ensures x.Some? && h == Some(0.0) ==> r == Failure(DivisionByZero)
    ensures r.Success? <==> x.Some? && h.Some? && h.value != 0.0
    ensures r.Success? ==>
      var f, p, s, res := formula.f, x.value, h.value, r.value;
      && res.x == p && res.h == s
      && res.trueDerivative == formula.df(p)
      && res.forward.value * s == f(p + s) - f(p)
      && res.backward.value * s == f(p) - f(p - s)
      && res.central.value * (2.0 * s) == f(p + s) - f(p - s)
      && res.forward.error == Abs(res.trueDerivative - res.forward.value)
      && res.backward.error == Abs(res.trueDerivative - res.backward.value)
      && res.central.error == Abs(res.trueDerivative - res.central.value)
  {
    if x.None? then Failure(MissingPoint)
    else if h.None? then Failure(InvalidStep)
    else if h.value == 0.0 then Failure(DivisionByZero)
    else
      var f, p, s := formula.f, x.value, h.value;
      var forward := (f(p + s) - f(p)) / s;
      var backward := (f(p) - f(p - s)) / s;
      var central := (f(p + s) - f(p - s)) / (2.0 * s);
      var trueDerivative := formula.df(p);
      Success(FunctionModeResult(p, s, trueDerivative,
        Estimated(forward, trueDerivative), Estimated(backward, trueDerivative), Estimated(central, trueDerivative)))
  }

  /** In function mode the central quotient is the mean of the forward and
      backward ones, so its error is at most the mean of their errors. */
  lemma FunctionModeCentralIsMean(formula: Formula, x: real, h: real)
    requires h != 0.0
    ensures var res := FunctionModeDifferences(formula, Some(x), Some(h)).value;
      && res.central.value == (res.forward.value + res.backward.value) / 2.0
      && res.central.error <= (res.forward.error + res.backward.error) / 2.0
  {
    var f := formula.f;
    var u, v := f(x + h) - f(x), f(x) - f(x - h);
    MeanOfQuotients(u, v, h);
    MeanErrorBound(formula.df(x), u / h, v / h);
  }

  lemma MeanOfQuotients(u: real, v: real, h: real)
    requires h != 0.0
    ensures (u + v) / (2.0 * h) == (u / h + v / h) / 2.0
  {
  }

  lemma MeanErrorBound(t: real, p: real, q: real)
    ensures Abs(t - (p + q) / 2.0) <= (Abs(t - p) + Abs(t - q)) / 2.0
  {
  }

  /** The step in data mode: the given one, else the first gap, else 1. */
  function StepSize(xs: seq<real>, h: Option<real>): real
  {
    if h.Some? then h.value else if |xs| > 1 then xs[1] - xs[0] else 1.0
  }

  /** The entry data mode reports for sample i with step h. */
  function PointAt(xs: seq<real>, ys: seq<real>, h: real, i: nat): PointResult
    requires |xs| == |ys| && i < |xs|
  {
    var n := |xs|;
    PointResult(
      xs[i],
      if i < n - 1 then Some(Divide(ys[i + 1] - ys[i], h)) else None,
      if i > 0 then Some(Divide(ys[i] - ys[i - 1], h)) else None,
      if 0 < i < n - 1 then Some(Divide(ys[i + 1] - ys[i - 1], 2.0 * h)) else None)
  }

  /** What data mode returns: one entry per sample, in input order. */
  function DataModeSpec(xs: seq<real>, ys: seq<real>, h: Option<real>): (r: Result<DataModeResult, Error>)
    ensures r.Failure? <==> |xs| != |ys|
    ensures r.Failure? ==> r.error == LengthMismatch
    ensures r.Success? ==>
      && |r.value.results| == |xs|
      && forall i :: 0 <= i < |xs| ==>
           var p := r.value.results[i];
           && p.x == xs[i]
           && (p.forward.Some? <==> i < |xs| - 1)
           && (p.backward.Some? <==> i > 0)
           && (p.central.Some? <==> 0 < i < |xs| - 1)
  {
    if |xs| != |ys| then Failure(LengthMismatch)
    else
      var step := StepSize(xs, h);
      Success(DataModeResult(step, seq(|xs|, i requires 0 <= i < |xs| => PointAt(xs, ys, step, i))))
  }

  /** Data mode as the source runs it: a loop appending one entry per sample. */
  method DataModeDifferences(xs: seq<real>, ys: seq<real>, h: Option<real>) returns (r: Result<DataModeResult, Error>)
    ensures r == DataModeSpec(xs, ys, h)
  {
    if |xs| != |ys| {
      return Failure(LengthMismatch);
    }
    var step := if h.Some? then h.value else if |xs| > 1 then xs[1] - xs[0] else 1.0;
    var results: seq<PointResult> := [];
    var n := |xs|;
    for i := 0 to n
      invariant |results| == i
      invariant forall k :: 0 <= k < i ==> results[k] == PointAt(xs, ys, step, k)
    {
      var forward: Option<ExtReal> := None;
      var backward: Option<ExtReal> := None;
      var central: Option<ExtReal> := None;
      if i < n - 1 {
        forward := Some(Divide(ys[i + 1] - ys[i], step));
      }
      if i > 0 {
        backward := Some(Divide(ys[i] - ys[i - 1], step));
      }
      if i > 0 && i < n - 1 {
        central := Some(Divide(ys[i + 1] - ys[i - 1], 2.0 * step));
      }
      results := results + [PointResult(xs[i], forward, backward, central)];
    }
    assert results == seq(n, k requires 0 <= k < n => PointAt(xs, ys, step, k));
    return Success(DataModeResult(step, results));
  }

  /** With a non-zero step, data mode's central quotient is the mean of the
      forward and backward ones wherever it is reported. */
  lemma DataModeCentralIsMean(xs: seq<real>, ys: seq<real>, h: real, i: nat)
    requires |xs| == |ys| && 0 < i < |xs| - 1
    requires h != 0.0
    ensures var p := PointAt(xs, ys, h, i);
      p.central == Some(Finite((p.forward.value.value + p.backward.value.value) / 2.0))
  {
    MeanOfQuotients(ys[i + 1] - ys[i], ys[i] - ys[i - 1], h);
  }

  /** The whole routine: function mode whenever a formula is given, data mode
      when both sample lists are given, an error otherwise. */
  method FiniteDifferencesMethod(
    formula: Option<Formula>, x: Option<real>, h: Option<real>, xs: Option<seq<real>>, ys: Option<seq<real>>)
    returns (r: Result<Differences, Error>)
    ensures formula.Some? ==>
      match FunctionModeDifferences(formula.value, x, h)
      case Success(res) => r == Success(FunctionModeOutput(res))
      case Failure(e) => r == Failure(e)
    ensures formula.None? && xs.Some? && ys.Some? ==>
      match DataModeSpec(xs.value, ys.value, h)
      case Success(res) => r == Success(DataModeOutput(res))
      case Failure(e) => r == Failure(e)
    ensures formula.None? && (xs.None? || ys.None?) ==> r == Failure(MissingInput)
  {
    if formula.Some? {
      var res := FunctionModeDifferences(formula.value, x, h);
      r := if res.Success? then Success(FunctionModeOutput(res.value)) else Failure(res.error);
    } else if xs.Some? && ys.Some? {
      var res := DataModeDifferences(xs.value, ys.value, h);
      r := if res.Success? then Success(DataModeOutput(res.value)) else Failure(res.error);
    } else {
      r := Failure(MissingInput);
    }
  }
}
