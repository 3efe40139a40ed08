/** Newton-Raphson root finding (`newton_raphson`). The user's formula is the
    parameter `f` and its symbolic derivative the parameter `df`; parsing and
    differentiating the formula are not part of this model. */
module NewtonRaphson {
  import opened Numeric

  /** A derivative below this magnitude stops the method (1e-10). */
  const MinDerivative: real := 0.0000000001

  /** One entry of the step trace. */
  datatype Step = Step(iteration: nat, xn: real, fx: real, dfx: real, xNext: real, error: real)

  /** The two error records the routine can return after parsing. */
  datatype Error = DerivativeTooSmall | MaxIterationsReached

  datatype Root = Root(root: real, iterations: nat, steps: seq<Step>)

  predicate TooFlat(df: real -> real, x: real)
  {
    Abs(df(x)) < MinDerivative
  }

  /** The step record of pass number `iteration` from the point x:
      x_next = x - f(x)/f'(x) and the error |x_next - x|. */
  function MakeStep(f: real -> real, df: real -> real, x: real, iteration: nat): Step
    requires !TooFlat(df, x)
  {
    var next := x - f(x) / df(x);
    Step(iteration, x, f(x), df(x), next, Abs(next - x))
  }

  /** `steps` is the trace of a run from x0: pass j is numbered j + 1, starts
      where pass j - 1 ended (pass 0 at x0) and met a large enough derivative. */
  predicate IsTrace(f: real -> real, df: real -> real, x0: real, steps: seq<Step>)
  {
    && (|steps| > 0 ==> steps[0].xn == x0)
    && (forall j :: 0 <= j < |steps| ==>
          !TooFlat(df, steps[j].xn) && steps[j] == MakeStep(f, df, steps[j].xn, j + 1))
    && (forall j :: 0 <= j < |steps| - 1 ==> steps[j + 1].xn == steps[j].xNext)
  }

  /** The point the pass after `steps` starts from. */
  function NextPoint(x0: real, steps: seq<Step>): real
  {
    if steps == [] then x0 else steps[|steps| - 1].xNext
  }

  /** The routine itself. The ghost `trace` is the step list the loop builds,
      which the error records do not return. */
  method NewtonRaphsonMethod(f: real -> real, df: real -> real, x0: real, tolerance: real, maxIterations: nat)
    returns (r: Result<Root, Error>, ghost trace: seq<Step>)
    ensures IsTrace(f, df, x0, trace)
    ensures |trace| <= maxIterations
    ensures forall j :: 0 <= j < |trace| - 1 ==> trace[j].error >= tolerance
    ensures r == Failure(DerivativeTooSmall) ==>
      && |trace| < maxIterations
      && TooFlat(df, NextPoint(x0, trace))
      && (trace != [] ==> trace[|trace| - 1].error >= tolerance)
    ensures r == Failure(MaxIterationsReached) ==>
      && |trace| == maxIterations
      && (forall j :: 0 <= j < |trace| ==> trace[j].error >= tolerance)
    ensures r.Success? ==>
      var k, steps := r.value.iterations, r.value.steps;
      && 1 <= k <= maxIterations
      && |steps| == k
      && IsTrace(f, df, x0, steps)
      && (forall j :: 0 <= j < k - 1 ==> steps[j].error >= tolerance)
      && steps[k - 1].error < tolerance
      && r.value.root == steps[k - 1].xNext == Iterate(f, df, x0, k)
      && trace == steps
  {
    var steps: seq<Step> := [];
    var xn := x0;
    var i := 0;
    while i < maxIterations
      invariant 0 <= i <= maxIterations
      invariant |steps| == i
      invariant IsTrace(f, df, x0, steps)
      invariant xn == NextPoint(x0, steps)
      invariant forall j :: 0 <= j < i ==> steps[j].error >= tolerance
    {
      if Abs(df(xn)) < MinDerivative {
        return Failure(DerivativeTooSmall), steps;
      }
      var step := MakeStep(f, df, xn, i + 1);
      TraceExtends(f, df, x0, steps);
      steps := steps + [step];
      if step.error < tolerance {
        TraceFollowsIterates(f, df, x0, steps);
        return Success(Root(step.xNext, i + 1, steps)), steps;
      }
      xn := step.xNext;
      i := i + 1;
    }
    return Failure(MaxIterationsReached), steps;
  }

  /** A trace grows by the pass from its next point. */
  lemma TraceExtends(f: real -> real, df: real -> real, x0: real, steps: seq<Step>)
    requires IsTrace(f, df, x0, steps)
    requires !TooFlat(df, NextPoint(x0, steps))
    ensures IsTrace(f, df, x0, steps + [MakeStep(f, df, NextPoint(x0, steps), |steps| + 1)])
    ensures NextPoint(x0, steps + [MakeStep(f, df, NextPoint(x0, steps), |steps| + 1)])
      == MakeStep(f, df, NextPoint(x0, steps), |steps| + 1).xNext
  {
  }

  /** The Newton iterates x_0, x_1, ... as a closed form; where the derivative
      is too small the sequence stays put (the routine stops there). */
  function Iterate(f: real -> real, df: real -> real, x0: real, j: nat): real
  {
    if j == 0 then x0
    else
      var x := Iterate(f, df, x0, j - 1);
      if TooFlat(df, x) then x else MakeStep(f, df, x, j).xNext
  }

  /** Every trace visits the Newton iterates in order: pass j starts at x_j
      and ends at x_{j+1}. */
  lemma {:induction false} TraceFollowsIterates(f: real -> real, df: real -> real, x0: real, steps: seq<Step>)
    requires IsTrace(f, df, x0, steps)
    ensures forall j :: 0 <= j < |steps| ==>
      steps[j].xn == Iterate(f, df, x0, j) && steps[j].xNext == Iterate(f, df, x0, j + 1)
  {
    if |steps| > 0 {
      var prefix := steps[..|steps| - 1];
      assert IsTrace(f, df, x0, prefix);
      TraceFollowsIterates(f, df, x0, prefix);
      var k := |steps| - 1;
      assert steps[k].xn == Iterate(f, df, x0, k);
    }
  }

  /** The recorded error is the size of the Newton correction |f(x)| / |f'(x)|. */
  lemma StepErrorIsCorrection(f: real -> real, df: real -> real, x: real, iteration: nat)
    requires !TooFlat(df, x)
    ensures MakeStep(f, df, x, iteration).error == Abs(f(x)) / Abs(df(x))
  {
    var q := f(x) / df(x);
    assert MakeStep(f, df, x, iteration).error == Abs(-q);
    AbsOfQuotient(f(x), df(x));
  }

  lemma AbsOfQuotient(n: real, d: real)
    requires d != 0.0
    ensures Abs(-(n / d)) == Abs(n) / Abs(d)
  {
    if d < 0.0 {
      assert (n / (-d)) * (-d) == n;
      assert -(n / d) == n / (-d);
    }
  }

  /** A root of f with a usable derivative is a fixed point of the iteration:
      every later iterate equals it. */
  lemma {:induction false} RootIsFixedPoint(f: real -> real, df: real -> real, x0: real, j: nat)
    requires f(x0) == 0.0 && !TooFlat(df, x0)
    ensures Iterate(f, df, x0, j) == x0
  {
    if j > 0 {
      RootIsFixedPoint(f, df, x0, j - 1);
    }
  }
}
