/** Bisection root finding (`bisection_method`). The user's formula is the
    parameter `f`; parsing it is not part of this model. */
module Bisection {
  import opened Numeric

  /** One entry of the step trace. */
  datatype Step = Step(iteration: nat, a: real, b: real, c: real, fc: real, error: real)

  /** The two error records the routine can return after parsing. */
  datatype Error = SameSignAtEndpoints | MaxIterationsReached

  datatype Root = Root(root: real, iterations: nat, steps: seq<Step>)

  /** The step record that pass number `iteration` writes for the bracket [a, b]. */
  function MakeStep(f: real -> real, a: real, b: real, iteration: nat): Step
  {
    var c := (a + b) / 2.0;
    Step(iteration, a, b, c, f(c), Abs(b - a) / 2.0)
  }

  /** The stopping test: |f(c)| or the half-width is below the tolerance. */
  predicate Converged(tolerance: real, s: Step)
  {
    Abs(s.fc) < tolerance || s.error < tolerance
  }

  /** The bracket after a pass that did not stop: b := c when f(a)·f(c) < 0,
      otherwise a := c. */
  function NextBracket(f: real -> real, s: Step): (real, real)
  {
    if f(s.a) * s.fc < 0.0 then (s.a, s.c) else (s.c, s.b)
  }

  /** The bracket at the start of pass `j` (counted from 0) of a run from [a, b]
      in which no earlier pass stopped. */
  function Bracket(f: real -> real, a: real, b: real, j: nat): (real, real)
  {
    if j == 0 then (a, b)
    else
      var p := Bracket(f, a, b, j - 1);
      NextBracket(f, MakeStep(f, p.0, p.1, j))
  }

  /** The step record of pass `j` (counted from 0). */
  function Pass(f: real -> real, a: real, b: real, j: nat): Step
  {
    var p := Bracket(f, a, b, j);
    MakeStep(f, p.0, p.1, j + 1)
  }

  /** w halved j times, that is w / 2^j. */
  function Halved(w: real, j: nat): real
  {
    if j == 0 then w else Halved(w, j - 1) / 2.0
  }

  /** `steps` is the trace of a run from [a, b] that has not stopped before
      its last step: the first pass works on [a, b], pass j + 1 on the
      bracket pass j chose, and pass j is numbered j + 1. */
  predicate IsTrace(f: real -> real, a: real, b: real, steps: seq<Step>)
  {
    && (|steps| > 0 ==> steps[0] == MakeStep(f, a, b, 1))
    && forall j :: 0 <= j < |steps| - 1 ==>
         var p := NextBracket(f, steps[j]);
         steps[j + 1] == MakeStep(f, p.0, p.1, j + 2)
  }

  /** The routine itself: reject a bracket without a sign change, then run at
      most `maxIterations` passes, each appending its step to the trace. */
  method BisectionMethod(f: real -> real, a: real, b: real, tolerance: real, maxIterations: nat)
    returns (r: Result<Root, Error>, ghost trace: seq<Step>)
    ensures f(a) * f(b) > 0.0 <==> r == Failure(SameSignAtEndpoints)
    ensures r == Failure(SameSignAtEndpoints) ==> trace == []
    ensures r == Failure(MaxIterationsReached) ==>
      && f(a) * f(b) <= 0.0
      && |trace| == maxIterations
      && IsTrace(f, a, b, trace)
      && forall j :: 0 <= j < maxIterations ==> !Converged(tolerance, trace[j])
    ensures r.Success? ==>
      var k, steps := r.value.iterations, r.value.steps;
      && 1 <= k <= maxIterations
      && |steps| == k
      && IsTrace(f, a, b, steps)
      && (forall j :: 0 <= j < k - 1 ==> !Converged(tolerance, steps[j]))
      && Converged(tolerance, steps[k - 1])
      && r.value.root == steps[k - 1].c == Pass(f, a, b, k - 1).c
      && trace == steps
  {
    if f(a) * f(b) > 0.0 {
      return Failure(SameSignAtEndpoints), [];
    }
    var left, right := a, b;
    var steps: seq<Step> := [];
    var i := 0;
    while i < maxIterations
      invariant 0 <= i <= maxIterations
      invariant |steps| == i
      invariant IsTrace(f, a, b, steps)
      invariant i == 0 ==> left == a && right == b
      invariant i > 0 ==> (left, right) == NextBracket(f, steps[i - 1])
      invariant forall j :: 0 <= j < i ==> !Converged(tolerance, steps[j])
    {
      var step := MakeStep(f, left, right, i + 1);
      TraceExtends(f, a, b, steps, left, right);
      steps := steps + [step];
      if Abs(step.fc) < tolerance || step.error < tolerance {
        LastStepIsPass(f, a, b, steps);
        return Success(Root(step.c, i + 1, steps)), steps;
      }
      if f(step.a) * step.fc < 0.0 {
        right := step.c;
      } else {
        left := step.c;
      }
      i := i + 1;
    }
    return Failure(MaxIterationsReached), steps;
  }

  /** A trace grows by the pass on the bracket its last step chose. */
  lemma TraceExtends(f: real -> real, a: real, b: real, steps: seq<Step>, left: real, right: real)
    requires IsTrace(f, a, b, steps)
    requires steps == [] ==> left == a && right == b
    requires steps != [] ==> (left, right) == NextBracket(f, steps[|steps| - 1])
    ensures IsTrace(f, a, b, steps + [MakeStep(f, left, right, |steps| + 1)])
  {
  }

  /** A trace is the sequence of passes Pass(f, a, b, 0), Pass(f, a, b, 1), ... */
  lemma {:induction false} TraceIsPasses(f: real -> real, a: real, b: real, steps: seq<Step>)
    requires IsTrace(f, a, b, steps)
    ensures forall j :: 0 <= j < |steps| ==> steps[j] == Pass(f, a, b, j)
  {
    if |steps| > 1 {
      var prefix := steps[..|steps| - 1];
      assert IsTrace(f, a, b, prefix);
      TraceIsPasses(f, a, b, prefix);
      var k := |steps| - 1;
      assert steps[k - 1] == Pass(f, a, b, k - 1);
    }
  }

  lemma LastStepIsPass(f: real -> real, a: real, b: real, steps: seq<Step>)
    requires IsTrace(f, a, b, steps) && |steps| > 0
    ensures steps[|steps| - 1].c == Pass(f, a, b, |steps| - 1).c
  {
    TraceIsPasses(f, a, b, steps);
  }

  /** The shape of the trace: pass j is numbered j + 1, records the midpoint
      of its bracket and half the bracket's width, the first pass works on
      [a, b] and each later pass on the bracket its predecessor chose. */
  lemma PassShape(f: real -> real, a: real, b: real, j: nat)
    ensures var s := Pass(f, a, b, j);
      && s.iteration == j + 1
      && s.c == (s.a + s.b) / 2.0
      && s.fc == f(s.c)
      && s.error == Abs(s.b - s.a) / 2.0
      && (j == 0 ==> s.a == a && s.b == b)
      && (Pass(f, a, b, j + 1).a, Pass(f, a, b, j + 1).b) == NextBracket(f, s)
  {
  }

  /** A pass that does not stop keeps one endpoint, moves the other to the
      midpoint, and so halves the bracket and stays inside it. */
  lemma NextBracketHalves(f: real -> real, a: real, b: real, iteration: nat)
    ensures var s := MakeStep(f, a, b, iteration);
      var p := NextBracket(f, s);
      && ((p.0 == a && p.1 == s.c) || (p.0 == s.c && p.1 == b))
      && Abs(p.1 - p.0) == Abs(b - a) / 2.0
      && (a <= b ==> a <= p.0 <= p.1 <= b)
  {
  }

  /** After j passes the bracket is 2^j times narrower than [a, b]. */
  lemma {:induction false} BracketWidth(f: real -> real, a: real, b: real, j: nat)
    ensures Abs(Bracket(f, a, b, j).1 - Bracket(f, a, b, j).0) == Halved(Abs(b - a), j)
  {
    if j > 0 {
      var p := Bracket(f, a, b, j - 1);
      BracketWidth(f, a, b, j - 1);
      NextBracketHalves(f, p.0, p.1, j);
    }
  }

  /** Later brackets lie inside earlier ones. */
  lemma {:induction false} BracketNested(f: real -> real, a: real, b: real, j: nat, k: nat)
    requires a <= b
    requires j <= k
    ensures var outer, inner := Bracket(f, a, b, j), Bracket(f, a, b, k);
      outer.0 <= inner.0 <= inner.1 <= outer.1
  {
    if k == j {
      BracketOrdered(f, a, b, j);
    } else {
      BracketNested(f, a, b, j, k - 1);
      var p := Bracket(f, a, b, k - 1);
      NextBracketHalves(f, p.0, p.1, k);
    }
  }

  lemma {:induction false} BracketOrdered(f: real -> real, a: real, b: real, j: nat)
    requires a <= b
    ensures Bracket(f, a, b, j).0 <= Bracket(f, a, b, j).1
  {
    if j > 0 {
      BracketOrdered(f, a, b, j - 1);
      var p := Bracket(f, a, b, j - 1);
      NextBracketHalves(f, p.0, p.1, j);
    }
  }

  lemma {:induction false} HalvedPositive(w: real, j: nat)
    requires w > 0.0
    ensures Halved(w, j) > 0.0
  {
    if j > 0 {
      HalvedPositive(w, j - 1);
    }
  }

  /** The error recorded by pass j is |b - a| / 2^(j+1); on a proper bracket
      it strictly decreases from one pass to the next. */
  lemma PassErrorHalves(f: real -> real, a: real, b: real, j: nat)
    ensures Pass(f, a, b, j).error == Halved(Abs(b - a), j + 1)
    ensures a != b ==> Pass(f, a, b, j + 1).error < Pass(f, a, b, j).error
  {
    BracketWidth(f, a, b, j);
    BracketWidth(f, a, b, j + 1);
    if a != b {
      HalvedPositive(Abs(b - a), j + 1);
    }
  }

  /** Enough passes always stop: once |b - a| / 2^m is below the tolerance,
      pass m - 1 meets the half-width test, so a run with cap m never reports
      the cap. */
  lemma ConvergesWithinCap(f: real -> real, a: real, b: real, tolerance: real, m: nat)
    requires m > 0
    requires Halved(Abs(b - a), m) < tolerance
    ensures Converged(tolerance, Pass(f, a, b, m - 1))
  {
    PassErrorHalves(f, a, b, m - 1);
  }

  /** The run-level consequence: a run whose trace reaches m passes, with
      |b - a| / 2^m below the tolerance, has converged by its last pass, so
      no run with cap m ends in the cap error. */
  lemma RunConvergesWithinCap(f: real -> real, a: real, b: real, tolerance: real, steps: seq<Step>)
    requires IsTrace(f, a, b, steps)
    requires |steps| > 0
    requires Halved(Abs(b - a), |steps|) < tolerance
    ensures Converged(tolerance, steps[|steps| - 1])
    ensures !(forall j :: 0 <= j < |steps| ==> !Converged(tolerance, steps[j]))
  {
    TraceIsPasses(f, a, b, steps);
    ConvergesWithinCap(f, a, b, tolerance, |steps|);
  }

  /** A sign change between the endpoints survives a pass, provided f does
      not vanish at the left endpoint. */
  lemma NextBracketKeepsSignChange(f: real -> real, a: real, b: real, iteration: nat)
    requires f(a) * f(b) <= 0.0
    requires f(a) != 0.0
    ensures var p := NextBracket(f, MakeStep(f, a, b, iteration));
      f(p.0) * f(p.1) <= 0.0
  {
    var s := MakeStep(f, a, b, iteration);
    if f(a) * s.fc >= 0.0 {
      if f(a) > 0.0 {
        assert s.fc >= 0.0 && f(b) <= 0.0;
      } else {
        assert s.fc <= 0.0 && f(b) >= 0.0;
      }
    }
  }

  /** When f vanishes exactly at the left endpoint the test f(a)·f(c) < 0
      fails, so the first pass moves a to the midpoint and the root at a
      leaves the bracket: for f(x) = x on [0, 1] the second bracket is
      [0.5, 1], on which f has no sign change. */
  lemma LeftEndpointRootLeavesBracket()
    ensures var f := (x: real) => x;
      && f(0.0) * f(1.0) <= 0.0
      && Bracket(f, 0.0, 1.0, 1) == (0.5, 1.0)
      && f(0.5) * f(1.0) > 0.0
  {
    var f := (x: real) => x;
    assert MakeStep(f, 0.0, 1.0, 1).c == 0.5;
  }

  /** The same run to the end: for f(x) = x on [0, 1] with tolerance 0.3,
      every successful run stops at pass 2 with root 0.75, although the root
      of f is the endpoint 0. */
  lemma LeftEndpointRootMissed(steps: seq<Step>)
    requires IsTrace((x: real) => x, 0.0, 1.0, steps)
    requires |steps| > 0
    requires forall j :: 0 <= j < |steps| - 1 ==> !Converged(0.3, steps[j])
    requires Converged(0.3, steps[|steps| - 1])
    ensures |steps| == 2 && steps[1].c == 0.75
  {
    var f := (x: real) => x;
    TraceIsPasses(f, 0.0, 1.0, steps);
    assert Pass(f, 0.0, 1.0, 0) == Step(1, 0.0, 1.0, 0.5, 0.5, 0.5);
    assert Bracket(f, 0.0, 1.0, 1) == (0.5, 1.0);
    assert Pass(f, 0.0, 1.0, 1) == Step(2, 0.5, 1.0, 0.75, 0.75, 0.25);
  }

  /** The evidently intended update: keep the half [a, c] whenever
      f(a)·f(c) <= 0, so a root at the left endpoint stays in the bracket. */
  function CorrectedNextBracket(f: real -> real, s: Step): (real, real)
  {
    if f(s.a) * s.fc <= 0.0 then (s.a, s.c) else (s.c, s.b)
  }

  /** The bracket at the start of pass j under the corrected update. */
  function CorrectedBracket(f: real -> real, a: real, b: real, j: nat): (real, real)
  {
    if j == 0 then (a, b)
    else
      var p := CorrectedBracket(f, a, b, j - 1);
      CorrectedNextBracket(f, MakeStep(f, p.0, p.1, j))
  }

  /** Under the corrected update every bracket of a run that starts with
      f(a)·f(b) <= 0 keeps a sign change or a zero at an endpoint, with no
      condition on f(a). */
  lemma {:induction false} CorrectedBracketKeepsSignChange(f: real -> real, a: real, b: real, j: nat)
    requires f(a) * f(b) <= 0.0
    ensures var p := CorrectedBracket(f, a, b, j);
      f(p.0) * f(p.1) <= 0.0
  {
    if j > 0 {
      CorrectedBracketKeepsSignChange(f, a, b, j - 1);
      var p := CorrectedBracket(f, a, b, j - 1);
      CorrectedStepKeepsSignChange(f, p.0, p.1, j);
    }
  }

  lemma CorrectedStepKeepsSignChange(f: real -> real, a: real, b: real, iteration: nat)
    requires f(a) * f(b) <= 0.0
    ensures var p := CorrectedNextBracket(f, MakeStep(f, a, b, iteration));
      f(p.0) * f(p.1) <= 0.0
  {
    var s := MakeStep(f, a, b, iteration);
    if f(a) * s.fc > 0.0 {
      if f(a) > 0.0 {
        assert s.fc > 0.0 && f(b) <= 0.0;
      } else {
        assert s.fc < 0.0 && f(b) >= 0.0;
      }
    }
  }

  /** On the example above the corrected update keeps the root 0 in every
      bracket. */
  lemma {:induction false} CorrectedKeepsLeftEndpointRoot(j: nat)
    ensures CorrectedBracket((x: real) => x, 0.0, 1.0, j).0 == 0.0
    ensures CorrectedBracket((x: real) => x, 0.0, 1.0, j).1 > 0.0
  {
    if j > 0 {
      CorrectedKeepsLeftEndpointRoot(j - 1);
    }
  }
}
