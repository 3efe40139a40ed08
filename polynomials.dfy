/** Real polynomials as coefficient lists, lowest degree first, with their
    value and their formal derivative. They serve as the reference against
    which the derivative formulas of Newton's forward interpolation are
    compared. */
module Polynomials {

  /** p[i] + p[i+1]·u + p[i+2]·u² + ..., by Horner's rule. */
  function EvalFrom(p: seq<real>, i: nat, u: real): real
    decreases |p| - i
  {
    if i >= |p| then 0.0 else p[i] + u * EvalFrom(p, i + 1, u)
  }

  /** The value of p at u. */
  function Eval(p: seq<real>, u: real): real
  {
    EvalFrom(p, 0, u)
  }

  /** The formal derivative: the coefficient of u^k is (k + 1)·p[k + 1]. */
  function Derivative(p: seq<real>): (d: seq<real>)
    ensures |d| == if |p| == 0 then 0 else |p| - 1
    ensures forall k :: 0 <= k < |d| ==> d[k] == (k + 1) as real * p[k + 1]
  {
    if |p| == 0 then [] else seq(|p| - 1, k requires 0 <= k < |p| - 1 => (k + 1) as real * p[k + 1])
  }

  /** The m-th formal derivative. */
  function NthDerivative(p: seq<real>, m: nat): seq<real>
  {
    if m == 0 then p else Derivative(NthDerivative(p, m - 1))
  }

  /** Values of polynomials of degree at most four, written out. */
  lemma EvalConstant(a: real, u: real)
    ensures Eval([a], u) == a
  {
    assert EvalFrom([a], 1, u) == 0.0;
  }

  lemma EvalLinear(a: real, b: real, u: real)
    ensures Eval([a, b], u) == a + u * b
  {
    assert EvalFrom([a, b], 1, u) == b;
  }

  lemma EvalQuadratic(a: real, b: real, c: real, u: real)
    ensures Eval([a, b, c], u) == a + u * (b + u * c)
  {
    assert EvalFrom([a, b, c], 2, u) == c;
    assert EvalFrom([a, b, c], 1, u) == b + u * c;
  }

  lemma EvalCubic(a: real, b: real, c: real, d: real, u: real)
    ensures Eval([a, b, c, d], u) == a + u * (b + u * (c + u * d))
  {
    assert EvalFrom([a, b, c, d], 3, u) == d;
    assert EvalFrom([a, b, c, d], 2, u) == c + u * d;
    assert EvalFrom([a, b, c, d], 1, u) == b + u * (c + u * d);
  }

  lemma EvalQuartic(a: real, b: real, c: real, d: real, e: real, u: real)
    ensures Eval([a, b, c, d, e], u) == a + u * (b + u * (c + u * (d + u * e)))
  {
    assert EvalFrom([a, b, c, d, e], 4, u) == e;
    assert EvalFrom([a, b, c, d, e], 3, u) == d + u * e;
    assert EvalFrom([a, b, c, d, e], 2, u) == c + u * (d + u * e);
    assert EvalFrom([a, b, c, d, e], 1, u) == b + u * (c + u * (d + u * e));
  }

  /** Formal derivatives of polynomials of degree at most four, written out. */
  lemma DerivativeUpToQuartic(a: real, b: real, c: real, d: real, e: real)
    ensures Derivative([a]) == []
    ensures Derivative([a, b]) == [b]
    ensures Derivative([a, b, c]) == [b, 2.0 * c]
    ensures Derivative([a, b, c, d]) == [b, 2.0 * c, 3.0 * d]
    ensures Derivative([a, b, c, d, e]) == [b, 2.0 * c, 3.0 * d, 4.0 * e]
  {
    assert Derivative([a, b])[0] == b;
    assert Derivative([a, b, c])[1] == 2.0 * c;
    assert Derivative([a, b, c, d])[2] == 3.0 * d;
    assert Derivative([a, b, c, d, e])[3] == 4.0 * e;
  }
}
