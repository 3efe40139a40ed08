# Numerical methods calculator: a verified model of the computational core

This project models the five routines of `backend/numerical_methods.py`, the
engine behind an educational numerical-methods calculator, and proves
properties of them in Dafny:

- **bisection** (`Bisection`, `bisection.dfy`): the sign check on the bracket,
  the loop that halves the bracket and appends a step record per pass, and the
  two ways it ends (root found, or the iteration cap reported as an error);
- **Newton-Raphson** (`NewtonRaphson`, `newton_raphson.dfy`): the iteration
  `x_{n+1} = x_n - f(x_n)/f'(x_n)` with its step trace, the "derivative too
  small" stop at `|f'(x_n)| < 1e-10` and the cap error;
- **finite differences** (`FiniteDifferences`, `finite_differences.dfy`):
  function mode (closed-form forward, backward and central quotients with their
  errors against the true derivative) and data mode (one entry per sample with
  the quotients its neighbours allow);
- **error metrics** (`ErrorCalculation`, `error_calculation.dfy`): absolute,
  relative and percentage error, infinite when `|true| <= 1e-10`;
- **Newton forward-difference interpolation** (`NewtonForward`,
  `newton_forward.dfy`): the forward-difference table filled in place in an
  `array2`, the equal-spacing test, `u = (x - x0)/h`, the interpolation loop,
  the truncated first- and second-derivative series and the reported table
  rows.

`Numeric` (`numeric.dfy`) holds what the routines share: `Option`, the
success-or-error `Result`, `Abs`, and `ExtReal`, the IEEE-754 values a numpy
division can produce (a finite value, `inf`, `-inf` or `nan`). `Polynomials`
(`polynomials.dfy`) gives polynomials as coefficient lists with their value and
formal derivative. They are the reference against which the derivative
formulas of Newton's forward interpolation are compared.

Numbers are exact `real`s. The user's formula is a parameter `f: real -> real`.
For Newton-Raphson and function-mode finite differences, its symbolic
derivative is a second parameter `df`. The loops that build step traces are
methods with loop invariants. Each method is proved against a closed-form
specification function:

- `Bracket`/`Pass` for bisection;
- `Iterate` for Newton-Raphson;
- `DataModeSpec` for data mode;
- `Delta`, `Series`, `FirstDerivative`, `SecondDerivative` and `TableSpec` for
  Newton forward.

The properties the source promises are lemmas about those functions. The
bisection and Newton methods also return the step list they built as a ghost
out-parameter, so that the error cases can state what happened before the
error.

Behaviour worth knowing, all of it followed by the model:

- Reaching the bisection cap is an error, not a capped success.
- Newton-Raphson uses the symbolic derivative. Its flatness threshold is
  `1e-10`, not machine epsilon.
- Data mode does not check the spacing.
- Data mode accepts empty sample lists and reports no entries.
- The relative error is infinite below `|true| = 1e-10`, not only at exactly
  zero.
- Bisection moves `b` to `c` when `f(a)·f(c) < 0` and otherwise moves `a` to
  `c`, including when `f(a)·f(c) = 0`. With a root exactly at `a` the root
  therefore leaves the bracket (see Findings).
- `f(a)·f(b) > 0` is the only rejected bracket. A bracket with a zero at an
  endpoint is accepted.
- Function mode's default step is `h = 0.1` when the argument is omitted.
  Data mode falls back to the first gap (or `1.0` for a single sample) only
  when `h` is passed explicitly as `None`. The model's `h: Option<real>` is
  the value the caller passed: an omitted `h` is `Some(0.1)`.

## Model

| member | source | states |
|---|---|---|
| Numeric.Divide | backend/numerical_methods.py:175-183 | numpy division of finite values: finite with `q·d = n` iff the divisor is non-zero, otherwise `inf`/`-inf` by the numerator's sign and `nan` for 0/0 |
| Bisection.BisectionMethod | backend/numerical_methods.py:5-50 | rejects exactly the brackets with `f(a)·f(b) > 0`, with no steps; on success the k ≤ cap steps form a trace from [a, b] (numbered 1..k, each pass on the bracket the previous one chose), only the last meets the tolerance test and the root is its midpoint, the midpoint of the closed-form bracket after k - 1 halvings; the cap error means `max_iterations` passes, none converged |
| Bisection.TraceIsPasses | backend/numerical_methods.py:24-48 | every trace is the sequence of closed-form passes `Pass(f, a, b, 0), Pass(f, a, b, 1), ...` |
| Bisection.PassShape | backend/numerical_methods.py:25-34 | pass j is numbered j + 1, records `c = (a+b)/2`, `f(c)` and `error = abs(b-a)/2`, the first pass works on [a, b] and each later one on the bracket its predecessor chose |
| Bisection.NextBracketHalves | backend/numerical_methods.py:45-48 | a pass that does not stop replaces exactly one endpoint by c, halves the width and stays inside the old bracket |
| Bisection.BracketWidth | backend/numerical_methods.py:45-48 | after j passes the bracket width is `abs(b-a) / 2^j` |
| Bisection.BracketNested | backend/numerical_methods.py:45-48 | for a ≤ b, later brackets lie inside earlier ones |
| Bisection.PassErrorHalves | backend/numerical_methods.py:34-48 | pass j records `abs(b-a) / 2^(j+1)`, strictly less than the pass before when a ≠ b |
| Bisection.ConvergesWithinCap | backend/numerical_methods.py:37 | once `abs(b-a) / 2^m` is below the tolerance, pass m - 1 meets the stopping test |
| Bisection.RunConvergesWithinCap | backend/numerical_methods.py:24-50 | a trace of m passes with `abs(b-a) / 2^m` below the tolerance has converged at its last pass, so not every pass of it fails the test and a run with cap m cannot end in the cap error |
| Bisection.NextBracketKeepsSignChange | backend/numerical_methods.py:45-48 | when f(a) ≠ 0, the chosen half bracket keeps a sign change |
| Bisection.LeftEndpointRootLeavesBracket | backend/numerical_methods.py:45-48 | with a root exactly at a, the update moves a to the midpoint: for f(x) = x on [0, 1] the second bracket is [0.5, 1], which has no sign change |
| Bisection.LeftEndpointRootMissed | backend/numerical_methods.py:24-50 | for f(x) = x on [0, 1] with tolerance 0.3, every trace that stops at its first converged pass has two passes and root 0.75 |
| Bisection.CorrectedBracketKeepsSignChange | backend/numerical_methods.py:45-48 | with the intended update (keep [a, c] when `f(a)·f(c) <= 0`), every bracket of a run starting with `f(a)·f(b) <= 0` keeps `f(a)·f(b) <= 0`, with no condition on f(a) |
| Bisection.CorrectedKeepsLeftEndpointRoot | backend/numerical_methods.py:45-48 | with the intended update, the example f(x) = x on [0, 1] keeps the root 0 as the left end of every bracket |
| NewtonRaphson.NewtonRaphsonMethod | backend/numerical_methods.py:53-97 | the steps form a trace from x0 (each step x_next = x_n - f/f', error = abs(x_next - x_n), step i + 1 starts at step i's x_next) of at most the cap, every step but the last with error ≥ tolerance; "derivative too small" means fewer steps than the cap and `abs(f') < 1e-10` at the next point; success means between 1 and the cap steps, only the last one's error below the tolerance, and the root its x_next, the k-th Newton iterate; the cap error means exactly the cap's steps, none below the tolerance |
| NewtonRaphson.TraceFollowsIterates | backend/numerical_methods.py:67-95 | step j of any trace starts at the Newton iterate x_j and ends at x_{j+1} |
| NewtonRaphson.StepErrorIsCorrection | backend/numerical_methods.py:76-84 | the recorded error equals `abs(f(x)) / abs(f'(x))` |
| NewtonRaphson.RootIsFixedPoint | backend/numerical_methods.py:76 | a root with a usable derivative is a fixed point: every later iterate equals it |
| FiniteDifferences.FunctionModeDifferences | backend/numerical_methods.py:111-154 | missing point, missing step and zero step are the only errors; otherwise the forward, backward and central quotients satisfy `fwd·h = f(x+h) - f(x)`, `bwd·h = f(x) - f(x-h)`, `ctr·2h = f(x+h) - f(x-h)`, and each error is its distance from `df(x)` |
| FiniteDifferences.FunctionModeCentralIsMean | backend/numerical_methods.py:123-125 | the central quotient is the mean of the forward and backward ones, and its error is at most the mean of theirs |
| FiniteDifferences.DataModeSpec | backend/numerical_methods.py:157-185 | fails iff the lengths differ; otherwise one entry per sample, in order, with x preserved, forward present iff i < n-1, backward iff i > 0, central iff 0 < i < n-1 |
| FiniteDifferences.DataModeDifferences | backend/numerical_methods.py:157-195 | the appending loop returns exactly the data-mode specification, step choice included |
| FiniteDifferences.DataModeCentralIsMean | backend/numerical_methods.py:174-183 | with a non-zero step, wherever central is present it is (forward + backward) / 2 |
| FiniteDifferences.FiniteDifferencesMethod | backend/numerical_methods.py:100-197 | a formula selects function mode, otherwise both sample lists select data mode, otherwise the missing-input error |
| ErrorCalculation.CalculateError | backend/numerical_methods.py:201-229 | absolute error is `abs(t - a)`, non-negative and zero iff t = a; for `abs(t) > 1e-10` relative·abs(t) = absolute and percentage = 100·relative; otherwise both are +inf |
| ErrorCalculation.AbsoluteErrorSymmetric | backend/numerical_methods.py:209 | swapping the true and approximate values leaves the absolute error unchanged |
| ErrorCalculation.PercentageBelowHundred | backend/numerical_methods.py:211-213 | the percentage error is below 100 iff the approximation is closer to the true value than zero is |
| NewtonForward.BuildDifferenceTable | backend/numerical_methods.py:245-251 | the nested loop fills a fresh n×n array with `Δ^j y_i` at (i, j) for i + j < n and 0 elsewhere |
| NewtonForward.TableProperties | backend/numerical_methods.py:246-251 | column 0 is y, `T[i][j] = T[i+1][j-1] - T[i][j-1]` for i + j < n, and entries with i + j ≥ n are 0 |
| NewtonForward.LinearDataDifferences | backend/numerical_methods.py:249-251 | samples of a line a + b·i have first differences b and all higher differences 0 |
| NewtonForward.GridIsEquallySpaced | backend/numerical_methods.py:254-259 | nodes on an exact grid x0 + i·h pass the spacing test and give u = i at node i |
| NewtonForward.UnevenNodesRejected | backend/numerical_methods.py:254-256 | nodes 0, 1, 3, 4 fail the spacing test |
| NewtonForward.Interpolate | backend/numerical_methods.py:262-267 | the loop with the running binomial term returns `Σ_{k<n} C(u,k)·Δ^k y_0` |
| NewtonForward.Pascal | backend/numerical_methods.py:266 | the binomial factor the loop builds obeys Pascal's rule `C(u+1, k+1) = C(u, k+1) + C(u, k)` for real u |
| NewtonForward.SeriesShift | backend/numerical_methods.py:262-267 | the series at u + 1 from node s is the series at u from node s + 1 plus the last term's remainder |
| NewtonForward.SeriesAtNode | backend/numerical_methods.py:262-267 | the series through K nodes from s takes the value y_{s+i} at u = i |
| NewtonForward.InterpolationReproducesNodes | backend/numerical_methods.py:259-267 | on an exact grid with h ≠ 0, interpolating at node x_i gives y_i |
| NewtonForward.BinomialPolynomialIsBinomial | backend/numerical_methods.py:263-266 | C(u, k) for k ≤ 4 is the stated polynomial in u |
| NewtonForward.SeriesIsPolynomialSum | backend/numerical_methods.py:262-267 | the series up to Δ⁴ is the sum of those polynomials weighted by the table's top row |
| NewtonForward.FirstDerivativeFromTable | backend/numerical_methods.py:271-279 | the computation on the top row returns the first-derivative series |
| NewtonForward.SlopeCoefficientIsDerivative | backend/numerical_methods.py:275-277 | the weights 1, (2u-1)/2 and (3u²-6u+2)/6 are the u-derivatives of C(u,1), C(u,2) and C(u,3) |
| NewtonForward.FirstDerivativeIsSlope | backend/numerical_methods.py:269-279 | h times the first derivative is the u-derivative of the series truncated after Δ³y_0 |
| NewtonForward.SecondDerivativeFromTable | backend/numerical_methods.py:281-289 | the computation on the top row returns the corrected second-derivative series |
| NewtonForward.CurvatureCoefficientIsSecondDerivative | backend/numerical_methods.py:285-287 | the weights 1, u - 1 and (12u²-36u+22)/24 are the second u-derivatives of C(u,2), C(u,3) and C(u,4) |
| NewtonForward.SecondDerivativeIsCurvature | backend/numerical_methods.py:280-289 | h² times the corrected second derivative is the second u-derivative of the series truncated after Δ⁴y_0 |
| NewtonForward.SecondDerivativeAsWrittenOvershoots | backend/numerical_methods.py:287 | with the divisor 12, the result exceeds the second u-derivative by that derivative of C(u,4) times Δ⁴y_0 / h² |
| NewtonForward.SecondDerivativeAsWrittenDoublesFourthTerm | backend/numerical_methods.py:287 | for y = x⁴ at nodes 0..4 and x = 0, the divisor-12 formula gives 22 while the corrected one gives f''(0) = 0 |
| NewtonForward.TableSpec | backend/numerical_methods.py:291-296 | one row per node, in node order, row i being x_i and `Δ^0 y_i .. Δ^(n-1-i) y_i` |
| NewtonForward.TableShape | backend/numerical_methods.py:291-296 | row i has x_i and n - i entries starting with y_i, and each later entry is the difference of the two entries the recurrence names |
| NewtonForward.TableRows | backend/numerical_methods.py:291-296 | the nested appending loop returns exactly the reported table |
| NewtonForward.Evaluate | backend/numerical_methods.py:259-296 | the success path returns the series value, both derivative series and the table at the given u and h |
| NewtonForward.NewtonForwardDifference | backend/numerical_methods.py:232-311 | length mismatch iff the lengths differ; unequal spacing iff some gap is not within `1e-8 + 1e-5·abs(h)` of the first gap h; zero spacing iff the spacing passes with h = 0; otherwise h is the first gap, `u = (x - x0)/h`, and the record holds the series value, both derivatives and the table |

## Left out

- Formula parsing and symbolic differentiation (sympy's `sympify`, `lambdify`, `diff`): `f` and `df` are parameters. The "Invalid function" error branches and their messages are not modelled.
- The `formula`/`formulas` strings, the error-message texts and the `Δ^jy` key format of table rows: errors are datatype cases and a row is `x` with a sequence of differences.
- IEEE-754 rounding, signed zero and numpy's `float` coercion: numbers are exact reals. `np.allclose` is modelled exactly as `|gap - h| <= 1e-8 + 1e-5·|h|` for every gap.
- FiniteDifferences.FunctionModeDifferences: a zero step is the `DivisionByZero` error, which is what Python-float formulas raise. A formula that numpy evaluates to numpy floats would instead give `inf`/`nan` quotients; that case is not modelled.
- NewtonForward.NewtonForwardDifference: when the first gap is 0 and all gaps pass the spacing test, the source goes on to divide by zero and reports `inf`/`nan` values. The model reports the `ZeroSpacing` error instead.
- NewtonForward.NewtonForwardDifference: fewer than two samples with equal lengths crash at `x_vals[1]`. The crash is a precondition (`|ys| >= 2`), not an error case.
- Bisection.BisectionMethod: it follows the update as written, including the left-endpoint root it loses (see Findings). The intended update is modelled only as the bracket sequence `CorrectedBracket`, not as a second routine.
- NewtonForward.Evaluate: with five or more nodes, the second derivative in the record is the corrected series (divisor 24 on the Δ⁴ weight), not the value line 287 computes (divisor 12). The source's value is `NewtonForward.SecondDerivativeAsWritten`; the difference is proved in `SecondDerivativeAsWrittenOvershoots` (see Findings).
- NewtonForward.NewtonForwardDifference: for the same reason, with five or more nodes the reported second derivative is the corrected one, not the source's. The other fields of the record are the source's.
- NewtonForward.SecondDerivativeFromTable: it uses the corrected divisor 24 for the Δ⁴ weight, not the source's 12. The source's formula is `NewtonForward.SecondDerivativeAsWritten` (see Findings).
- NewtonForward.NewtonForwardDifference: the value, derivatives and table are stated through `InterpolationAt`. Their meaning is proved in separate lemmas (node reproduction, derivative series) rather than in the method's own `ensures`.
- Convergence rates (quadratic convergence of Newton-Raphson, O(h) and O(h²) truncation errors) are real-analysis facts outside the code's structure.
- `backend/views.py`, `backend/urls.py` and the frontend (request parsing, HTTP status mapping, UI) are not part of this model.

## Findings

| source | as written | input that shows it | evidently intended | confidence | as-written member | corrected member |
|---|---|---|---|---|---|---|
| backend/numerical_methods.py:45-48 | b moves to c only when `f(a)·f(c) < 0`, otherwise a moves to c, so a root exactly at `a` (`f(a) = 0`) moves `a` to the midpoint and the root leaves the bracket | f(x) = x on [0, 1], tolerance 0.3: root 0.75 after 2 passes; with smaller tolerances the run drifts towards 1 | keep `[a, c]` when `f(a)·f(c) <= 0`, so the bracket always keeps a sign change or a zero | medium, not executed | Bisection.LeftEndpointRootMissed | Bisection.CorrectedBracketKeepsSignChange |
| backend/numerical_methods.py:287 | the Δ⁴ weight of the second derivative is (12u²-36u+22)/12 | y = x⁴ at nodes 0, 1, 2, 3, 4 and x = 0 (u = 0, h = 1): differences 1, 14, 36, 24 give 14 - 36 + 44 = 22, while f''(0) = 0 | (12u²-36u+22)/24, the second u-derivative of C(u,4) = u(u-1)(u-2)(u-3)/4!, matching the 2! and 3! divisors of the other terms | high, not executed | NewtonForward.SecondDerivativeAsWrittenDoublesFourthTerm | NewtonForward.SecondDerivativeIsCurvature |
