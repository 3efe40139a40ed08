/** Newton's forward difference interpolation with first and second
    derivatives (`newton_forward_difference`). */
module NewtonForward {
  import opened Numeric
  import opened Polynomials

  /** The tolerances of the equal-spacing test, numpy's `allclose` defaults. */
  const AbsoluteTolerance: real := 0.00000001  // 1e-8
  const RelativeTolerance: real := 0.00001     // 1e-5

  /** One row of the reported difference table: the node and Δ^0 y, Δ^1 y, ... there. */
  datatype TableRow = TableRow(x: real, differences: seq<real>)

  datatype Interpolation = Interpolation(
    value: real, firstDerivative: real, secondDerivative: real,
    xTarget: real, u: real, h: real, table: seq<TableRow>)

  datatype Error =
    | LengthMismatch  // x and y of different lengths
    | UnequalSpacing  // the gaps between nodes are not all close to the first gap
    | ZeroSpacing     // the first gap is zero and all other gaps are close to it

  // ---------------------------------------------------------------------
  // Forward differences

  /** Δ^k y_i: Δ^0 y_i = y_i and Δ^k y_i = Δ^(k-1) y_(i+1) - Δ^(k-1) y_i. */
  function Delta(ys: seq<real>, k: nat, i: nat): real
    requires i + k < |ys|
    decreases k
  {
    if k == 0 then ys[i] else Delta(ys, k - 1, i + 1) - Delta(ys, k - 1, i)
  }

  /** Cell (i, j) of the n-by-n difference table: Δ^j y_i where it exists,
      zero below the anti-diagonal. */
  function TableEntry(ys: seq<real>, i: nat, j: nat): real
  {
    if i + j < |ys| then Delta(ys, j, i) else 0.0
  }

  predicate IsTable(t: array2<real>, ys: seq<real>)
    reads t
  {
    && t.Length0 == |ys| && t.Length1 == |ys|
    && forall i, j :: 0 <= i < |ys| && 0 <= j < |ys| ==> t[i, j] == TableEntry(ys, i, j)
  }

  /** Cell (r, c) of the table while the fill loop is at column j, row i:
      columns before j and the first i rows of column j hold their
      differences, every other cell below the anti-diagonal or ahead of the
      loop still holds its initial value. */
  function PartialEntry(ys: seq<real>, r: nat, c: nat, j: nat, i: nat): real
  {
    if c == 0 && r < |ys| then ys[r]
    else if (c < j || (c == j && r < i)) && r + c < |ys| then Delta(ys, c, r)
    else 0.0
  }

  /** The table as the source fills it: zeros with y in column 0, then
      column by column from the one before. */
  method BuildDifferenceTable(ys: seq<real>) returns (t: array2<real>)
    requires |ys| > 0
    ensures fresh(t)
    ensures IsTable(t, ys)
  {
    var n := |ys|;
    t := new real[n, n]((i: int, j: int) => if j == 0 && 0 <= i < n then ys[i] else 0.0);
    for j := 1 to n
      invariant t.Length0 == n && t.Length1 == n
      invariant forall r, c :: 0 <= r < n && 0 <= c < n ==> t[r, c] == PartialEntry(ys, r, c, j, 0)
    {
      for i := 0 to n - j
        invariant forall r, c :: 0 <= r < n && 0 <= c < n ==> t[r, c] == PartialEntry(ys, r, c, j, i)
      {
        t[i, j] := t[i + 1, j - 1] - t[i, j - 1];
      }
    }
  }

  /** The filled table has y in column 0, obeys the difference recurrence
      above the anti-diagonal and holds zeros below it. */
  lemma TableProperties(t: array2<real>, ys: seq<real>)
    requires IsTable(t, ys)
    ensures forall i :: 0 <= i < |ys| ==> t[i, 0] == ys[i]
    ensures forall i, j :: 0 <= i && 1 <= j && i + j < |ys| ==> t[i, j] == t[i + 1, j - 1] - t[i, j - 1]
    ensures forall i, j :: 0 <= i < |ys| && 0 <= j < |ys| && i + j >= |ys| ==> t[i, j] == 0.0
  {
    forall i, j | 0 <= i && 1 <= j && i + j < |ys|
      ensures t[i, j] == t[i + 1, j - 1] - t[i, j - 1]
    {
      assert t[i, j] == Delta(ys, j, i);
      assert t[i + 1, j - 1] == Delta(ys, j - 1, i + 1);
    }
  }

  /** Samples of a straight line have the slope as first difference and no
      higher differences. */
  lemma {:induction false} LinearDataDifferences(ys: seq<real>, a: real, b: real, k: nat, i: nat)
    requires forall m :: 0 <= m < |ys| ==> ys[m] == a + b * m as real
    requires i + k < |ys|
    ensures k == 1 ==> Delta(ys, k, i) == b
    ensures k >= 2 ==> Delta(ys, k, i) == 0.0
  {
    if k == 1 {
      assert ys[i + 1] - ys[i] == b * ((i + 1) as real - i as real);
    } else if k >= 2 {
      LinearDataDifferences(ys, a, b, k - 1, i + 1);
      LinearDataDifferences(ys, a, b, k - 1, i);
    }
  }

  // ---------------------------------------------------------------------
  // Equal spacing and the parameter u

  /** Every gap is within numpy's `allclose` tolerance of the first gap h:
      |gap - h| <= 1e-8 + 1e-5·|h|. */
  predicate EquallySpaced(xs: seq<real>)
    requires |xs| >= 2
  {
    var h := xs[1] - xs[0];
    forall i :: 0 <= i < |xs| - 1 ==>
      Abs((xs[i + 1] - xs[i]) - h) <= AbsoluteTolerance + RelativeTolerance * Abs(h)
  }

  /** Nodes on an exact grid x0 + i·h pass the spacing test, and at the node
      x_i the parameter u = (x_i - x0) / h is i. */
  lemma GridIsEquallySpaced(xs: seq<real>, x0: real, h: real, i: nat)
    requires |xs| >= 2 && h != 0.0
    requires forall m :: 0 <= m < |xs| ==> xs[m] == x0 + m as real * h
    requires i < |xs|
    ensures EquallySpaced(xs)
    ensures (xs[i] - xs[0]) / (xs[1] - xs[0]) == i as real
  {
    GridGapsEqual(xs, x0, h);
    GridParameter(x0, h, i);
  }

  lemma GridGapsEqual(xs: seq<real>, x0: real, h: real)
    requires |xs| >= 2
    requires forall m :: 0 <= m < |xs| ==> xs[m] == x0 + m as real * h
    ensures EquallySpaced(xs)
  {
    GridGap(x0, h, 0);
    forall m | 0 <= m < |xs| - 1
      ensures Abs((xs[m + 1] - xs[m]) - (xs[1] - xs[0])) <= AbsoluteTolerance + RelativeTolerance * Abs(xs[1] - xs[0])
    {
      GridGap(x0, h, m);
      ExactGapPasses(xs[m + 1] - xs[m], xs[1] - xs[0]);
    }
  }

  lemma ExactGapPasses(gap: real, h: real)
    requires gap == h
    ensures Abs(gap - h) <= AbsoluteTolerance + RelativeTolerance * Abs(h)
  {
  }

  lemma GridGap(x0: real, h: real, m: nat)
    ensures (x0 + (m + 1) as real * h) - (x0 + m as real * h) == h
  {
    assert (m + 1) as real * h == m as real * h + h;
  }

  lemma GridParameter(x0: real, h: real, i: nat)
    requires h != 0.0
    ensures ((x0 + i as real * h) - (x0 + 0 as real * h)) / ((x0 + 1 as real * h) - (x0 + 0 as real * h)) == i as real
  {
    assert (x0 + i as real * h) - (x0 + 0 as real * h) == i as real * h;
  }

  /** Nodes 0, 1, 3, 4 fail the spacing test. */
  lemma UnevenNodesRejected()
    ensures !EquallySpaced([0.0, 1.0, 3.0, 4.0])
  {
    var xs := [0.0, 1.0, 3.0, 4.0];
    assert Abs((xs[2] - xs[1]) - (xs[1] - xs[0])) == 1.0;
  }

  // ---------------------------------------------------------------------
  // The interpolation series

  /** The binomial coefficient C(u, k) = u(u-1)...(u-k+1) / k!, built factor
      by factor as the interpolation loop builds it. */
  function Binomial(u: real, k: nat): real
  {
    if k == 0 then 1.0 else Binomial(u, k - 1) * ((u - k as real + 1.0) / k as real)
  }

  /** The first K terms of Newton's forward series started at node s:
      Σ_{k<K} C(u, k) Δ^k y_s. */
  function Series(ys: seq<real>, s: nat, u: real, K: nat): real
    requires s + K <= |ys|
  {
    if K == 0 then 0.0 else Series(ys, s, u, K - 1) + Term(ys, s, u, K - 1)
  }

  /** The term C(u, k) Δ^k y_s of the series. */
  function Term(ys: seq<real>, s: nat, u: real, k: nat): real
    requires s + k < |ys|
  {
    Binomial(u, k) * Delta(ys, k, s)
  }

  /** The interpolation loop: running binomial term times the top row. */
  method Interpolate(t: array2<real>, ys: seq<real>, u: real) returns (value: real)
    requires |ys| > 0 && IsTable(t, ys)
    ensures value == Series(ys, 0, u, |ys|)
  {
    var n := |ys|;
    value := t[0, 0];
    var uTerm := 1.0;
    for i := 1 to n
      invariant uTerm == Binomial(u, i - 1)
      invariant value == Series(ys, 0, u, i)
    {
      var factor := (u - i as real + 1.0) / i as real;
      var next := uTerm * factor;
      SeriesStep(ys, u, i, uTerm, factor, next, value, t[0, i]);
      uTerm := next;
      value := value + next * t[0, i];
    }
  }

  /** One pass of the interpolation loop: the running term picks up its next
      factor and the series one more term. */
  lemma SeriesStep(ys: seq<real>, u: real, i: nat, term: real, factor: real, next: real, value: real, cell: real)
    requires 1 <= i < |ys|
    requires term == Binomial(u, i - 1) && value == Series(ys, 0, u, i)
    requires factor == (u - i as real + 1.0) / i as real && next == term * factor
    requires cell == Delta(ys, i, 0)
    ensures next == Binomial(u, i)
    ensures value + next * cell == Series(ys, 0, u, i + 1)
  {
    SameProduct(next, cell, Binomial(u, i), Delta(ys, i, 0));
  }

  /** C(i, k) vanishes for whole numbers i < k. */
  lemma {:induction false} BinomialVanishes(i: nat, k: nat)
    requires i < k
    ensures Binomial(i as real, k) == 0.0
  {
    if k > i + 1 {
      BinomialVanishes(i, k - 1);
    }
  }

  /** Pascal's rule C(u + 1, k + 1) = C(u, k + 1) + C(u, k), for real u. */
  lemma {:induction false} Pascal(u: real, k: nat)
    ensures Binomial(u + 1.0, k + 1) == Binomial(u, k + 1) + Binomial(u, k)
  {
    if k > 0 {
      Pascal(u, k - 1);
      PascalStep(Binomial(u, k), Binomial(u, k - 1), u, k as real);
    }
  }

  lemma PascalStep(a: real, b: real, u: real, k: real)
    requires k > 0.0
    requires a == b * ((u - k + 1.0) / k)
    ensures (a + b) * ((u + 1.0 - k) / (k + 1.0)) == a * ((u - k) / (k + 1.0)) + a
  {
    assert b * (u - k + 1.0) == a * k;
    assert (a + b) * (u + 1.0 - k) == a * (u + 1.0 - k) + a * k;
  }

  /** Moving one node ahead: the series at u + 1 from node s is the series at
      u from node s + 1 with one term fewer, plus the last term's remainder. */
  lemma {:induction false} SeriesShift(ys: seq<real>, s: nat, u: real, K: nat)
    requires K >= 1 && s + K <= |ys|
    ensures Series(ys, s, u + 1.0, K) == Series(ys, s + 1, u, K - 1) + Term(ys, s, u, K - 1)
  {
    if K > 1 {
      SeriesShift(ys, s, u, K - 1);
      TermShift(ys, s, u, K - 2);
    }
  }

  /** The two-term identity behind SeriesShift, from Pascal's rule and the
      difference recurrence. */
  lemma TermShift(ys: seq<real>, s: nat, u: real, k: nat)
    requires s + k + 1 < |ys|
    ensures Term(ys, s, u + 1.0, k + 1) + Term(ys, s, u, k) == Term(ys, s + 1, u, k) + Term(ys, s, u, k + 1)
  {
    Pascal(u, k);
    ShiftArithmetic(Binomial(u + 1.0, k + 1), Binomial(u, k + 1), Binomial(u, k),
      Delta(ys, k + 1, s), Delta(ys, k, s), Delta(ys, k, s + 1));
  }

  lemma ShiftArithmetic(bNext: real, bLast: real, bPrev: real, dLast: real, dPrev: real, dAhead: real)
    requires bNext == bLast + bPrev && dAhead == dLast + dPrev
    ensures bNext * dLast + bPrev * dPrev == bPrev * dAhead + bLast * dLast
  {
  }

  /** The series through K nodes from s takes the value y_(s+i) at u = i. */
  lemma {:induction false} SeriesAtNode(ys: seq<real>, s: nat, i: nat, K: nat)
    requires i < K && s + K <= |ys|
    ensures Series(ys, s, i as real, K) == ys[s + i]
    decreases i
  {
    if i == 0 {
      SeriesAtZero(ys, s, K);
    } else {
      SeriesShift(ys, s, (i - 1) as real, K);
      SeriesAtNode(ys, s + 1, i - 1, K - 1);
      BinomialVanishes(i - 1, K - 1);
    }
  }

  lemma {:induction false} SeriesAtZero(ys: seq<real>, s: nat, K: nat)
    requires K >= 1 && s + K <= |ys|
    ensures Series(ys, s, 0.0, K) == ys[s]
  {
    if K > 1 {
      SeriesAtZero(ys, s, K - 1);
      BinomialVanishes(0, K - 1);
    }
  }

  /** The interpolant passes through every data point: on an exact grid with
      a non-zero gap, interpolating at the node x_i yields y_i. */
  lemma InterpolationReproducesNodes(xs: seq<real>, ys: seq<real>, x0: real, h: real, i: nat)
    requires |xs| == |ys| >= 2 && h != 0.0
    requires forall m :: 0 <= m < |xs| ==> xs[m] == x0 + m as real * h
    requires i < |xs|
    ensures Series(ys, 0, (xs[i] - xs[0]) / (xs[1] - xs[0]), |ys|) == ys[i]
  {
    GridIsEquallySpaced(xs, x0, h, i);
    SeriesAtNode(ys, 0, i, |ys|);
  }

  // ---------------------------------------------------------------------
  // Derivatives

  /** The top row Δ^0 y_0, Δ^1 y_0, ... of the table. */
  function Top(ys: seq<real>): (d: seq<real>)
    ensures |d| == |ys|
  {
    seq(|ys|, k requires 0 <= k < |ys| => Delta(ys, k, 0))
  }

  /** The weight of Δ^k y0 (k = 1, 2, 3) in the first derivative:
      1, (2u-1)/2 and (3u²-6u+2)/6. */
  function SlopeCoefficient(k: nat, u: real): real
    requires 1 <= k <= 3
  {
    if k == 1 then 1.0
    else if k == 2 then (2.0 * u - 1.0) / 2.0
    else (3.0 * u * u - 6.0 * u + 2.0) / 6.0
  }

  /** The bracket Δy0 + (2u-1)/2 Δ²y0 + (3u²-6u+2)/6 Δ³y0, using the terms the
      data provide (at least Δy0). */
  function SlopeSum(d: seq<real>, u: real): real
    requires |d| > 1
  {
    var n := |d|;
    var s1 := d[1];
    var s2 := if n > 2 then s1 + SlopeCoefficient(2, u) * d[2] else s1;
    if n > 3 then s2 + SlopeCoefficient(3, u) * d[3] else s2
  }

  /** f'(x) ≈ (1/h)[Δy0 + (2u-1)/2 Δ²y0 + (3u²-6u+2)/6 Δ³y0]; zero for a single
      node. */
  function FirstDerivative(d: seq<real>, u: real, h: real): real
    requires h != 0.0
  {
    if |d| > 1 then SlopeSum(d, u) / h else 0.0
  }

  /** The weight of Δ^k y0 (k = 2, 3, 4) in the second derivative: 1, u - 1
      and (12u²-36u+22)/divisor. */
  function CurvatureCoefficient(k: nat, u: real, divisor: real): real
    requires 2 <= k <= 4 && divisor != 0.0
  {
    if k == 2 then 1.0
    else if k == 3 then u - 1.0
    else (12.0 * u * u - 36.0 * u + 22.0) / divisor
  }

  /** The bracket Δ²y0 + (u-1)Δ³y0 + (12u²-36u+22)/divisor Δ⁴y0, using the
      terms the data provide (at least Δ²y0). */
  function CurvatureSum(d: seq<real>, u: real, divisor: real): real
    requires |d| > 2 && divisor != 0.0
  {
    var n := |d|;
    var s1 := d[2];
    var s2 := if n > 3 then s1 + CurvatureCoefficient(3, u, divisor) * d[3] else s1;
    if n > 4 then s2 + CurvatureCoefficient(4, u, divisor) * d[4] else s2
  }

  /** f''(x) ≈ (1/h²)[Δ²y0 + (u-1)Δ³y0 + (12u²-36u+22)/divisor Δ⁴y0]; zero for
      fewer than three nodes. */
  function SecondDerivativeWith(d: seq<real>, u: real, h: real, divisor: real): real
    requires h != 0.0 && divisor != 0.0
  {
    if |d| > 2 then CurvatureSum(d, u, divisor) / (h * h) else 0.0
  }

  /** The second derivative with the Δ⁴ weight divided by 12, as the source
      writes it. */
  function SecondDerivativeAsWritten(d: seq<real>, u: real, h: real): real
    requires h != 0.0
  {
    SecondDerivativeWith(d, u, h, 12.0)
  }

  /** The second derivative with the Δ⁴ weight divided by 4! = 24, the second
      derivative of C(u, 4). */
  function SecondDerivative(d: seq<real>, u: real, h: real): real
    requires h != 0.0
  {
    SecondDerivativeWith(d, u, h, 24.0)
  }

  /** The first-derivative computation on the table's top row. */
  method FirstDerivativeFromTable(t: array2<real>, ys: seq<real>, u: real, h: real) returns (first: real)
    requires |ys| > 0 && IsTable(t, ys) && h != 0.0
    ensures first == FirstDerivative(Top(ys), u, h)
  {
    var n := |ys|;
    ghost var d := Top(ys);
    assert forall k :: 0 <= k < n ==> t[0, k] == d[k];
    first := 0.0;
    if n > 1 {
      first := t[0, 1];
      if n > 2 {
        first := first + (2.0 * u - 1.0) / 2.0 * t[0, 2];
      }
      if n > 3 {
        first := first + (3.0 * u * u - 6.0 * u + 2.0) / 6.0 * t[0, 3];
      }
      assert first == SlopeSum(d, u);
      first := first / h;
    }
  }

  /** The second-derivative computation on the table's top row, with the
      corrected Δ⁴ weight. */
  method SecondDerivativeFromTable(t: array2<real>, ys: seq<real>, u: real, h: real) returns (second: real)
    requires |ys| > 0 && IsTable(t, ys) && h != 0.0
    ensures second == SecondDerivative(Top(ys), u, h)
  {
    var n := |ys|;
    ghost var d := Top(ys);
    assert forall k :: 0 <= k < n ==> t[0, k] == d[k];
    second := 0.0;
    if n > 2 {
      second := t[0, 2];
      if n > 3 {
        second := second + (u - 1.0) * t[0, 3];
      }
      if n > 4 {
        second := second + (12.0 * u * u - 36.0 * u + 22.0) / 24.0 * t[0, 4];
      }
      assert second == CurvatureSum(d, u, 24.0);
      second := second / (h * h);
    }
  }

  /** C(u, k) for k <= 4 as a polynomial in u. */
  function BinomialPolynomial(k: nat): seq<real>
    requires k <= 4
  {
    match k
    case 0 => [1.0]
    case 1 => [0.0, 1.0]
    case 2 => [0.0, -1.0 / 2.0, 1.0 / 2.0]
    case 3 => [0.0, 1.0 / 3.0, -1.0 / 2.0, 1.0 / 6.0]
    case _ => [0.0, -1.0 / 4.0, 11.0 / 24.0, -1.0 / 4.0, 1.0 / 24.0]
  }

  /** The polynomials above are the binomial coefficients. */
  lemma BinomialPolynomialIsBinomial(u: real, k: nat)
    requires k <= 4
    ensures Eval(BinomialPolynomial(k), u) == Binomial(u, k)
  {
    match k
    case 0 =>
      EvalConstant(1.0, u);
    case 1 =>
      EvalLinear(0.0, 1.0, u);
    case 2 =>
      QuadraticBinomial(u);
    case 3 =>
      CubicBinomial(u);
    case _ =>
      QuarticBinomial(u);
  }

  lemma QuadraticBinomial(u: real)
    ensures Eval(BinomialPolynomial(2), u) == Binomial(u, 2)
  {
    var c1 := u;
    var c2 := c1 * ((u - 1.0) / 2.0);
    assert Binomial(u, 1) == c1;
    assert Binomial(u, 2) == c2;
    EvalQuadratic(0.0, -1.0 / 2.0, 1.0 / 2.0, u);
  }

  lemma CubicBinomial(u: real)
    ensures Eval(BinomialPolynomial(3), u) == Binomial(u, 3)
  {
    var c1 := u;
    var c2 := c1 * ((u - 1.0) / 2.0);
    var c3 := c2 * ((u - 2.0) / 3.0);
    assert Binomial(u, 1) == c1;
    assert Binomial(u, 2) == c2;
    assert Binomial(u, 3) == c3;
    EvalCubic(0.0, 1.0 / 3.0, -1.0 / 2.0, 1.0 / 6.0, u);
    assert (u - 1.0) * (u - 2.0) == u * u - 3.0 * u + 2.0;
  }

  lemma QuarticBinomial(u: real)
    ensures Eval(BinomialPolynomial(4), u) == Binomial(u, 4)
  {
    var c1 := u;
    var c2 := c1 * ((u - 1.0) / 2.0);
    var c3 := c2 * ((u - 2.0) / 3.0);
    var c4 := c3 * ((u - 3.0) / 4.0);
    assert Binomial(u, 1) == c1;
    assert Binomial(u, 2) == c2;
    assert Binomial(u, 3) == c3;
    assert Binomial(u, 4) == c4;
    EvalQuartic(0.0, -1.0 / 4.0, 11.0 / 24.0, -1.0 / 4.0, 1.0 / 24.0, u);
    assert (u - 1.0) * (u - 2.0) == u * u - 3.0 * u + 2.0;
    assert (u * u - 3.0 * u + 2.0) * (u - 3.0) == u * u * u - 6.0 * u * u + 11.0 * u - 6.0;
  }

  /** The first-derivative weights are the u-derivatives of C(u, k). */
  lemma SlopeCoefficientIsDerivative(k: nat, u: real)
    requires 1 <= k <= 3
    ensures Eval(NthDerivative(BinomialPolynomial(k), 1), u) == SlopeCoefficient(k, u)
  {
    var p := BinomialPolynomial(k);
    DerivativeUpToQuartic(p[0], p[1], if k > 1 then p[2] else 0.0, if k > 2 then p[3] else 0.0, 0.0);
    if k == 1 {
      EvalConstant(1.0, u);
    } else if k == 2 {
      EvalLinear(-1.0 / 2.0, 2.0 * (1.0 / 2.0), u);
    } else {
      EvalQuadratic(1.0 / 3.0, 2.0 * (-1.0 / 2.0), 3.0 * (1.0 / 6.0), u);
    }
  }

  /** The corrected second-derivative weights are the second u-derivatives
      of C(u, k). */
  lemma CurvatureCoefficientIsSecondDerivative(k: nat, u: real)
    requires 2 <= k <= 4
    ensures Eval(NthDerivative(BinomialPolynomial(k), 2), u) == CurvatureCoefficient(k, u, 24.0)
  {
    var p := BinomialPolynomial(k);
    assert NthDerivative(p, 1) == Derivative(p);
    assert NthDerivative(p, 2) == Derivative(Derivative(p));
    if k == 2 {
      DerivativeUpToQuartic(0.0, -1.0 / 2.0, 1.0 / 2.0, 0.0, 0.0);
      assert Derivative(p) == [-1.0 / 2.0, 1.0];
      DerivativeUpToQuartic(-1.0 / 2.0, 1.0, 0.0, 0.0, 0.0);
      assert Derivative(Derivative(p)) == [1.0];
      EvalConstant(1.0, u);
    } else if k == 3 {
      DerivativeUpToQuartic(0.0, 1.0 / 3.0, -1.0 / 2.0, 1.0 / 6.0, 0.0);
      assert Derivative(p) == [1.0 / 3.0, -1.0, 1.0 / 2.0];
      DerivativeUpToQuartic(1.0 / 3.0, -1.0, 1.0 / 2.0, 0.0, 0.0);
      assert Derivative(Derivative(p)) == [-1.0, 1.0];
      EvalLinear(-1.0, 1.0, u);
    } else {
      DerivativeUpToQuartic(0.0, -1.0 / 4.0, 11.0 / 24.0, -1.0 / 4.0, 1.0 / 24.0);
      assert Derivative(p) == [-1.0 / 4.0, 11.0 / 12.0, -3.0 / 4.0, 1.0 / 6.0];
      DerivativeUpToQuartic(-1.0 / 4.0, 11.0 / 12.0, -3.0 / 4.0, 1.0 / 6.0, 0.0);
      assert Derivative(Derivative(p)) == [11.0 / 12.0, -3.0 / 2.0, 1.0 / 2.0];
      EvalQuadratic(11.0 / 12.0, -3.0 / 2.0, 1.0 / 2.0, u);
    }
  }

  /** C(u, 0) has no derivative and C(u, 1) no second derivative. */
  lemma LowOrderDerivativesVanish(u: real)
    ensures Eval(NthDerivative(BinomialPolynomial(0), 1), u) == 0.0
    ensures Eval(NthDerivative(BinomialPolynomial(0), 2), u) == 0.0
    ensures Eval(NthDerivative(BinomialPolynomial(1), 2), u) == 0.0
  {
    DerivativeUpToQuartic(1.0, 0.0, 0.0, 0.0, 0.0);
    DerivativeUpToQuartic(0.0, 1.0, 0.0, 0.0, 0.0);
    DerivativeUpToQuartic(1.0, 0.0, 0.0, 0.0, 0.0);
  }

  /** Σ_{k<K} w[k] · d[k]. */
  function WeightedSum(d: seq<real>, w: seq<real>, K: nat): real
    requires K <= |d| && K <= |w|
  {
    if K == 0 then 0.0 else WeightedSum(d, w, K - 1) + w[K - 1] * d[K - 1]
  }

  /** The m-th u-derivatives of C(u, 0), ..., C(u, 4) at u. With them,
      WeightedSum(Top(ys), DerivativeWeights(u, m), K) is the m-th
      u-derivative of the series truncated after K terms. */
  function DerivativeWeights(u: real, m: nat): (w: seq<real>)
    ensures |w| == 5
  {
    [ Eval(NthDerivative(BinomialPolynomial(0), m), u), Eval(NthDerivative(BinomialPolynomial(1), m), u),
      Eval(NthDerivative(BinomialPolynomial(2), m), u), Eval(NthDerivative(BinomialPolynomial(3), m), u),
      Eval(NthDerivative(BinomialPolynomial(4), m), u) ]
  }

  /** Of order 0 the weights are the binomial coefficients themselves. */
  lemma BinomialWeights(u: real)
    ensures forall k :: 0 <= k < 5 ==> DerivativeWeights(u, 0)[k] == Binomial(u, k)
  {
    forall k | 0 <= k < 5
      ensures DerivativeWeights(u, 0)[k] == Binomial(u, k)
    {
      BinomialPolynomialIsBinomial(u, k);
    }
  }

  lemma {:induction false} SeriesAsWeightedSum(ys: seq<real>, u: real, w: seq<real>, K: nat)
    requires K <= |ys| && K <= |w|
    requires forall k :: 0 <= k < K ==> w[k] * Top(ys)[k] == Term(ys, 0, u, k)
    ensures WeightedSum(Top(ys), w, K) == Series(ys, 0, u, K)
  {
    if K > 0 {
      SeriesAsWeightedSum(ys, u, w, K - 1);
    }
  }

  /** The interpolation value is the order-0 derived series: the Newton
      series up to Δ⁴ is the sum of the binomial polynomials weighted by the
      top row. */
  lemma SeriesIsPolynomialSum(ys: seq<real>, u: real, K: nat)
    requires K <= 5 && K <= |ys|
    ensures WeightedSum(Top(ys), DerivativeWeights(u, 0), K) == Series(ys, 0, u, K)
  {
    BinomialWeights(u);
    BinomialWeightedSum(ys, u, DerivativeWeights(u, 0), K);
  }

  lemma BinomialWeightedSum(ys: seq<real>, u: real, w: seq<real>, K: nat)
    requires K <= |ys| && K <= |w|
    requires forall k :: 0 <= k < K ==> w[k] == Binomial(u, k)
    ensures WeightedSum(Top(ys), w, K) == Series(ys, 0, u, K)
  {
    forall k | 0 <= k < K
      ensures w[k] * Top(ys)[k] == Term(ys, 0, u, k)
    {
      SameProduct(w[k], Top(ys)[k], Binomial(u, k), Delta(ys, k, 0));
    }
    SeriesAsWeightedSum(ys, u, w, K);
  }

  lemma SlopeWeights(u: real)
    ensures var w := DerivativeWeights(u, 1);
      w[0] == 0.0 && w[1] == 1.0 && w[2] == SlopeCoefficient(2, u) && w[3] == SlopeCoefficient(3, u)
  {
    LowOrderDerivativesVanish(u);
    SlopeCoefficientIsDerivative(1, u);
    SlopeCoefficientIsDerivative(2, u);
    SlopeCoefficientIsDerivative(3, u);
  }

  lemma CurvatureWeights(u: real)
    ensures var w := DerivativeWeights(u, 2);
      && w[0] == 0.0 && w[1] == 0.0 && w[2] == 1.0
      && w[3] == CurvatureCoefficient(3, u, 24.0) && w[4] == CurvatureCoefficient(4, u, 24.0)
  {
    LowOrderDerivativesVanish(u);
    CurvatureCoefficientIsSecondDerivative(2, u);
    CurvatureCoefficientIsSecondDerivative(3, u);
    CurvatureCoefficientIsSecondDerivative(4, u);
  }

  lemma SlopeSumIsWeightedSum(d: seq<real>, u: real, w: seq<real>)
    requires |d| >= 2 && |w| >= 4
    requires w[0] == 0.0 && w[1] == 1.0 && w[2] == SlopeCoefficient(2, u) && w[3] == SlopeCoefficient(3, u)
    ensures SlopeSum(d, u) == WeightedSum(d, w, if |d| < 4 then |d| else 4)
  {
    assert WeightedSum(d, w, 0) == 0.0;
    assert WeightedSum(d, w, 1) == 0.0 * d[0];
    assert WeightedSum(d, w, 2) == d[1];
    if |d| > 2 {
      assert WeightedSum(d, w, 3) == d[1] + SlopeCoefficient(2, u) * d[2];
    }
  }

  lemma CurvatureSumIsWeightedSum(d: seq<real>, u: real, w: seq<real>)
    requires |d| >= 3 && |w| >= 5
    requires w[0] == 0.0 && w[1] == 0.0 && w[2] == 1.0
    requires w[3] == CurvatureCoefficient(3, u, 24.0) && w[4] == CurvatureCoefficient(4, u, 24.0)
    ensures CurvatureSum(d, u, 24.0) == WeightedSum(d, w, if |d| < 5 then |d| else 5)
  {
    assert WeightedSum(d, w, 0) == 0.0;
    assert WeightedSum(d, w, 1) == 0.0 * d[0];
    assert WeightedSum(d, w, 2) == 0.0 * d[0] + 0.0 * d[1];
    assert WeightedSum(d, w, 3) == d[2];
    if |d| > 3 {
      assert WeightedSum(d, w, 4) == d[2] + CurvatureCoefficient(3, u, 24.0) * d[3];
    }
  }

  /** The first derivative is the u-derivative of the series truncated after
      Δ³y0, divided by h (dx = h·du). */
  lemma FirstDerivativeIsSlope(d: seq<real>, u: real, h: real)
    requires |d| >= 2 && h != 0.0
    ensures FirstDerivative(d, u, h) * h == WeightedSum(d, DerivativeWeights(u, 1), if |d| < 4 then |d| else 4)
  {
    SlopeWeights(u);
    FirstDerivativeFromWeights(d, u, h, DerivativeWeights(u, 1));
  }

  lemma FirstDerivativeFromWeights(d: seq<real>, u: real, h: real, w: seq<real>)
    requires |d| >= 2 && h != 0.0 && |w| >= 4
    requires w[0] == 0.0 && w[1] == 1.0 && w[2] == SlopeCoefficient(2, u) && w[3] == SlopeCoefficient(3, u)
    ensures FirstDerivative(d, u, h) * h == WeightedSum(d, w, if |d| < 4 then |d| else 4)
  {
    SlopeSumIsWeightedSum(d, u, w);
    ScaledBack(FirstDerivative(d, u, h), SlopeSum(d, u), WeightedSum(d, w, if |d| < 4 then |d| else 4), h);
  }

  /** The corrected second derivative is the second u-derivative of the
      series truncated after Δ⁴y0, divided by h². */
  lemma SecondDerivativeIsCurvature(d: seq<real>, u: real, h: real)
    requires |d| >= 3 && h != 0.0
    ensures SecondDerivative(d, u, h) * (h * h) == WeightedSum(d, DerivativeWeights(u, 2), if |d| < 5 then |d| else 5)
  {
    CurvatureWeights(u);
    SecondDerivativeFromWeights(d, u, h, DerivativeWeights(u, 2));
  }

  lemma SecondDerivativeFromWeights(d: seq<real>, u: real, h: real, w: seq<real>)
    requires |d| >= 3 && h != 0.0 && |w| >= 5
    requires w[0] == 0.0 && w[1] == 0.0 && w[2] == 1.0
    requires w[3] == CurvatureCoefficient(3, u, 24.0) && w[4] == CurvatureCoefficient(4, u, 24.0)
    ensures SecondDerivative(d, u, h) * (h * h) == WeightedSum(d, w, if |d| < 5 then |d| else 5)
  {
    CurvatureSumIsWeightedSum(d, u, w);
    assert SecondDerivative(d, u, h) == SecondDerivativeWith(d, u, h, 24.0);
    ScaledBackSquare(SecondDerivative(d, u, h), CurvatureSum(d, u, 24.0), WeightedSum(d, w, if |d| < 5 then |d| else 5), h);
  }

  lemma SameProduct(a: real, b: real, c: real, d: real)
    requires a == c && b == d
    ensures a * b == c * d
  {
  }

  lemma ScaledBack(f: real, s: real, w: real, y: real)
    requires y != 0.0 && f == s / y && s == w
    ensures f * y == w
  {
  }

  lemma ScaledBackSquare(f: real, s: real, w: real, h: real)
    requires h != 0.0 && f == s / (h * h) && s == w
    ensures f * (h * h) == w
  {
    assert h * h > 0.0;
  }

  /** As written, the Δ⁴ weight of the second derivative is twice the second
      u-derivative of C(u, 4), so the result exceeds the curvature of the
      series by that derivative times Δ⁴y0 / h². */
  lemma SecondDerivativeAsWrittenOvershoots(d: seq<real>, u: real, h: real)
    requires |d| >= 5 && h != 0.0
    ensures (SecondDerivativeAsWritten(d, u, h) - SecondDerivative(d, u, h)) * (h * h)
      == DerivativeWeights(u, 2)[4] * d[4]
  {
    CurvatureWeights(u);
    AsWrittenExcess(d, u, h);
  }

  lemma AsWrittenExcess(d: seq<real>, u: real, h: real)
    requires |d| >= 5 && h != 0.0
    ensures (SecondDerivativeAsWritten(d, u, h) - SecondDerivative(d, u, h)) * (h * h)
      == CurvatureCoefficient(4, u, 24.0) * d[4]
  {
    var a, b := CurvatureSum(d, u, 12.0), CurvatureSum(d, u, 24.0);
    CurvatureSumExcess(d, u);
    assert SecondDerivativeAsWritten(d, u, h) == SecondDerivativeWith(d, u, h, 12.0);
    assert SecondDerivative(d, u, h) == SecondDerivativeWith(d, u, h, 24.0);
    DifferenceOfQuotients(a, b, h);
  }

  lemma CurvatureSumExcess(d: seq<real>, u: real)
    requires |d| >= 5
    ensures CurvatureSum(d, u, 12.0) - CurvatureSum(d, u, 24.0) == CurvatureCoefficient(4, u, 24.0) * d[4]
  {
    var x := 12.0 * u * u - 36.0 * u + 22.0;
    assert CurvatureCoefficient(3, u, 12.0) == CurvatureCoefficient(3, u, 24.0);
    assert CurvatureCoefficient(4, u, 12.0) == x / 12.0;
    assert CurvatureCoefficient(4, u, 24.0) == x / 24.0;
    HalfOfDouble(x, d[4]);
  }

  lemma HalfOfDouble(x: real, y: real)
    ensures x / 12.0 * y - x / 24.0 * y == x / 24.0 * y
  {
  }

  lemma DifferenceOfQuotients(x: real, y: real, h: real)
    requires h != 0.0
    ensures (x / (h * h) - y / (h * h)) * (h * h) == x - y
  {
    assert h * h > 0.0;
  }

  /** As written, the Δ⁴ term of the second derivative is twice the second
      u-derivative of C(u, 4). For y = x⁴ at nodes 0..4 and x = 0 (u = 0,
      h = 1) the formula gives 22, while f''(0) = 0, which the corrected
      formula reproduces. */
  lemma SecondDerivativeAsWrittenDoublesFourthTerm()
    ensures var ys := [0.0, 1.0, 16.0, 81.0, 256.0];
      && Top(ys) == [0.0, 1.0, 14.0, 36.0, 24.0]
      && SecondDerivativeAsWritten(Top(ys), 0.0, 1.0) == 22.0
      && SecondDerivative(Top(ys), 0.0, 1.0) == 0.0
  {
    var ys := [0.0, 1.0, 16.0, 81.0, 256.0];
    assert Delta(ys, 1, 0) == 1.0;
    assert Delta(ys, 2, 0) == 14.0;
    assert Delta(ys, 3, 0) == 36.0;
    assert Delta(ys, 4, 0) == 24.0;
  }

  // ---------------------------------------------------------------------
  // The reported table and the routine

  /** Row i of the reported table: x_i and Δ^0 y_i, ..., Δ^(n-1-i) y_i. */
  function RowAt(xs: seq<real>, ys: seq<real>, i: nat): (row: TableRow)
    requires |xs| == |ys| && i < |xs|
    ensures row.x == xs[i] && |row.differences| == |xs| - i
    ensures forall j :: 0 <= j < |xs| - i ==> row.differences[j] == Delta(ys, j, i)
  {
    TableRow(xs[i], seq(|xs| - i, j requires 0 <= j < |xs| - i => Delta(ys, j, i)))
  }

  /** The reported table: one row per node, in node order. */
  function TableSpec(xs: seq<real>, ys: seq<real>): (rows: seq<TableRow>)
    requires |xs| == |ys|
    ensures |rows| == |xs|
    ensures forall i :: 0 <= i < |xs| ==> rows[i] == RowAt(xs, ys, i)
  {
    seq(|xs|, i requires 0 <= i < |xs| => RowAt(xs, ys, i))
  }

  /** Row i starts with y_i and holds n - i entries, and each entry after the
      first is the difference of the two entries the recurrence names. */
  lemma TableShape(xs: seq<real>, ys: seq<real>, i: nat)
    requires |xs| == |ys| && i < |xs|
    ensures var rows := TableSpec(xs, ys);
      && rows[i].x == xs[i]
      && |rows[i].differences| == |xs| - i
      && rows[i].differences[0] == ys[i]
      && forall j :: 0 <= j < |xs| - i - 1 ==>
           rows[i].differences[j + 1] == rows[i + 1].differences[j] - rows[i].differences[j]
  {
  }

  /** The table formatting loop: one row per node, the cells of row i
      along the row. */
  method TableRows(t: array2<real>, xs: seq<real>, ys: seq<real>) returns (rows: seq<TableRow>)
    requires |xs| == |ys| && IsTable(t, ys)
    ensures rows == TableSpec(xs, ys)
  {
    var n := |ys|;
    rows := [];
    for i := 0 to n
      invariant rows == TableSpec(xs, ys)[..i]
    {
      var differences: seq<real> := [];
      for j := 0 to n - i
        invariant differences == seq(j, k requires 0 <= k < j => Delta(ys, k, i))
      {
        differences := differences + [t[i, j]];
      }
      rows := rows + [TableRow(xs[i], differences)];
    }
  }

  /** The record the routine reports at the parameter u and gap h. */
  function InterpolationAt(xs: seq<real>, ys: seq<real>, xTarget: real, u: real, h: real): Interpolation
    requires |xs| == |ys| > 0 && h != 0.0
  {
    Interpolation(Series(ys, 0, u, |ys|), FirstDerivative(Top(ys), u, h), SecondDerivative(Top(ys), u, h),
      xTarget, u, h, TableSpec(xs, ys))
  }

  /** The success path of the routine at the parameter u and gap h: the
      series value, both derivatives and the table rows. */
  method Evaluate(t: array2<real>, xs: seq<real>, ys: seq<real>, xTarget: real, u: real, h: real)
    returns (res: Interpolation)
    requires |xs| == |ys| > 0 && IsTable(t, ys) && h != 0.0
    ensures res == InterpolationAt(xs, ys, xTarget, u, h)
  {
    var value := Interpolate(t, ys, u);
    var first := FirstDerivativeFromTable(t, ys, u, h);
    var second := SecondDerivativeFromTable(t, ys, u, h);
    var rows := TableRows(t, xs, ys);
    res := Interpolation(value, first, second, xTarget, u, h, rows);
  }

  /** The routine: reject mismatched or unevenly spaced data, then
      interpolate at xTarget and estimate both derivatives there. */
  method NewtonForwardDifference(xs: seq<real>, ys: seq<real>, xTarget: real) returns (r: Result<Interpolation, Error>)
    requires |xs| == |ys| ==> |ys| >= 2
    ensures |xs| != |ys| <==> r == Failure(LengthMismatch)
    ensures |xs| == |ys| ==> (r == Failure(UnequalSpacing) <==> !EquallySpaced(xs))
    ensures r == Failure(ZeroSpacing) <==> |xs| == |ys| && EquallySpaced(xs) && xs[1] == xs[0]
    ensures r.Success? ==>
      var res := r.value;
      && res.h == xs[1] - xs[0] && res.h != 0.0
      && res.u == (xTarget - xs[0]) / (xs[1] - xs[0])
      && res == InterpolationAt(xs, ys, xTarget, res.u, res.h)
  {
    if |xs| != |ys| {
      return Failure(LengthMismatch);
    }
    var t := BuildDifferenceTable(ys);
    var h := xs[1] - xs[0];
    if !EquallySpaced(xs) {
      return Failure(UnequalSpacing);
    }
    if h == 0.0 {
      return Failure(ZeroSpacing);
    }
    var u := (xTarget - xs[0]) / h;
    var res := Evaluate(t, xs, ys, xTarget, u, h);
    return Success(res);
  }
}
