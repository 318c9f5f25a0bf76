# Mexican payroll salary conversion — a Dafny model

This project models the calculation core of a small web calculator that
converts Mexican monthly salaries between gross and net pay (`script.js`,
lines 14–133):

- **`calcularISR`** — monthly income tax (ISR) from a fixed table of eleven
  progressive brackets: the table is scanned from the top down for the first
  lower bound at or below the salary, and the tax is the bracket's fixed fee
  plus its marginal rate on the excess, rounded to cents (module `Isr`).
- **`calcularImssFactorIntegre`** — the employee's social-security (IMSS)
  withholding: the monthly salary over 30 days, times the integration factor,
  capped at 25 UMA; five rate components, one of them only on the excess over
  3 UMA; the sum rounded to cents (module `Imss`).
- **`calcularNetoDetallado`** — gross to net: both deductions and the rounded
  net, or the zero result for a NaN or negative gross (module `Payroll`).
- **`sueldoBrutoDesdeNeto`** — net to gross: a bounded bisection over the
  gross-to-net calculation, with a 0 result for a non-positive or NaN target,
  one widening of the upper bound to 2.5 times the target, a NaN "unreachable"
  result when that is not enough, a one-cent tolerance and a cap of 100
  halvings; the answer is the rounded midpoint of the final interval (module
  `Inverse`).

JavaScript numbers are modelled as exact reals. NaN, the only non-real value
the calculators test for, is the explicit variant `Num.NaN`.
`Math.round(x * 100) / 100` is `Round2`, that is `Floor(x * 100 + 1/2) / 100`.
`parseFloat(x.toFixed(2))` is `ToFixed2`, which rounds half-cents away from zero.
The two agree on the non-negative amounts the search returns. The bisection is
written once for any objective `f: real -> real` (`Bisect`). `GrossFromNet`
instantiates it with the net pay of a gross salary. The early exits of lines
115–122 are the pure function `InitialHigh`.

The main results:

- The bracket scan selects exactly the bracket whose interval contains the salary.
  It selects none exactly below one cent, where the tax is 0.
- The contribution base is capped, so the withholding is constant above the cap.
  It is non-negative, and with the default factor it never falls as the salary rises.
- Net pay plus the two deductions gives back the gross to within half a cent.
- The bisection keeps `net(high) >= target` at every step.
  The lower end is either the target itself or has a net below it.
  The width is exactly the initial width over `2^iterations`.
  An iteration runs only while the width is above one cent.
- With the default upper bound of 1,000,000, every positive target is reachable:
  the NaN sentinel cannot occur, because net pay keeps over 62% of the gross.
  For targets up to 4,000,000 the iteration cap is never reached.

Facts about the code that the model proves or records:

- The tax of a 10000 gross is 770.90 (`Isr.TaxExamples`).
- With the default bound no positive target is unreachable (`Inverse.DefaultBoundAlwaysReachable`).
- The rounded tax is not monotone: it drops by one cent at the 125325.21
  boundary (`Isr.TaxNotMonotone`).
- The net is not monotone either: a gross of 10000.0287 nets 8978.75, and
  10000.0288 nets 8978.74 (`Payroll.NetNotMonotone`).
- The net can even fall by two cents: a gross of 56462.759 nets 43454.02, and
  56462.761 nets 43454.00, because the tax and the withholding each step up
  by a cent in between (`Payroll.NetDropsTwoCents`).
- A salary of 0 matches no bracket; bound, fee and rate stay 0, so the tax is 0.
- The code tests `netoDeseado <= 0` twice (lines 108 and 114). The second test
  can never fire, so the model has it once.
- `low <= high` is not an invariant of the code as written. A caller-supplied bound
  below the target whose net already reaches it starts the loop with `high < low`.
  For example, a target of 0.0051 with a bound of 0.005 has net 0.01.
  The model states the ordering only when the initial interval is ordered;
  a reversed start is returned unchanged.

## Model

| member | source | states |
|---|---|---|
| Numbers.Round2 | script.js:41 | `Math.round(x*100)/100` yields whole cents within half a cent of `x` (above by at most half a cent, below by strictly less), and is non-negative for non-negative `x` |
| Numbers.Round2OfCents | script.js:41 | rounding an amount already in whole cents leaves it unchanged |
| Numbers.Round2Monotone | script.js:73 | rounding to cents preserves the order of two amounts |
| Numbers.ToFixed2 | script.js:132 | `parseFloat(x.toFixed(2))` yields whole cents within half a cent of `x`, non-negative for non-negative `x` |
| Numbers.ToFixed2AgreesOnNonNegative | script.js:131-132 | `toFixed(2)` and `Math.round` agree on non-negative amounts and differ on the negative half-cent tie |
| Isr.TableWellFormed | script.js:16-28 | the table has 11 brackets, the first at 0.01, strictly ascending lower bounds, non-decreasing rates in [0, 0.35], fixed fees at most 35% of the lower bound |
| Isr.TableContinuousWithinOneCent | script.js:16-28 | at every boundary the next bracket's fixed fee is, within one cent, what the lower bracket charges there |
| Isr.Scan | script.js:30-37 | the top-down loop returns the first index whose lower bound is at most the salary, all higher indices being above it; it returns none exactly when every lower bound is above the salary |
| Isr.SelectIsInBracket | script.js:29-37 | the bracket selected is bracket `k` if and only if the salary lies in `k`'s interval; none is selected if and only if the salary is below 0.01 |
| Isr.Tax | script.js:14-42 | the tax is whole cents and non-negative; it is 0 below 0.01, and in bracket `k` it is `round2((salary - lower_k) * rate_k + fee_k)` |
| Isr.TaxAtMostTopRate | script.js:38-41 | for a non-negative salary the tax is at most 35% of it plus half a cent |
| Isr.TaxExamples | script.js:14-41 | tax of 0 and of 0.01 is 0; tax of 10000 is 770.90 |
| Isr.TaxNotMonotone | script.js:24-27 | tax of 125325.209 is 32691.19 but tax of 125325.21 is 32691.18 |
| Imss.DailyBase | script.js:59-63 | the integrated daily base never exceeds 25 UMA nor the uncapped base, equals one of them, and is non-negative for non-negative salary and factor |
| Imss.ExcessBase | script.js:65 | the excess over 3 UMA is non-negative, at least the signed difference, and zero exactly when the base is at most 3 UMA |
| Imss.Contribution | script.js:51-74 | the withholding is the whole number of cents within half a cent of (0.4% of the capped base's excess over 3 UMA plus 2.375% of the capped base) times the days, and is non-negative for non-negative salary, factor and days |
| Imss.ContributionCapped | script.js:59-73 | any two salaries whose integrated daily base reaches the cap pay the same withholding |
| Imss.DefaultContributionCapped | script.js:51-63 | with the default factor every salary from 80888.94 upward pays the same withholding |
| Imss.DefaultContributionMonotone | script.js:51-73 | with the default factor and days the withholding never decreases as the salary grows |
| Imss.DefaultContributionAtMost | script.js:51-73 | with the default factor and days the withholding is at most 2.92% of a non-negative salary plus half a cent |
| Payroll.NetDetail | script.js:84-96 | NaN or negative gross gives `{0, 0, 0}`; otherwise tax and withholding are exactly the two calculators' results, all three amounts are whole cents, and net plus deductions is within half a cent of the gross |
| Payroll.NetAtLeast | script.js:88-92 | net pay of a non-negative gross is at least 62.08% of it less 0.015 |
| Payroll.NetNotMonotone | script.js:88-92 | a gross of 10000.0287 nets 8978.75 but a gross of 10000.0288 nets 8978.74 |
| Payroll.NetDropsTwoCents | script.js:88-92 | a gross of 56462.759 nets 43454.02 but a gross of 56462.761 nets 43454.00: tax 11405.81 → 11405.82 and withholding 1602.93 → 1602.94 |
| Payroll.NetDetailExamples | script.js:84-95 | gross 10000 gives net 8978.72, tax 770.90, withholding 250.38; gross -5 and NaN give the zero result |
| Inverse.InitialHigh | script.js:114-123 | the starting upper end has net at least the target and is non-negative; it is NaN exactly when neither the caller's bound nor 2.5 times the target reaches the target; the caller's bound is kept when it reaches the target |
| Inverse.DefaultBoundAlwaysReachable | script.js:107-122 | with the default bound 1,000,000 every positive target gets a numeric upper end, so the NaN result never occurs |
| Inverse.Bisect | script.js:124-129 | the loop keeps `f(hi) >= target`, keeps `lo` at the start or with `f(lo) < target`, stays inside an ordered initial interval, halves the width each step, runs at most 100 steps, stops at width at most 0.01 unless at the cap, runs a step only while the width is above 0.01, and returns the start unchanged when no step runs (in particular on a reversed start) |
| Inverse.ScaledIsProduct | script.js:125 | doubling `n` times is multiplication by `2^n` |
| Inverse.ScaledMonotone | script.js:124 | doubling `n` times preserves and reflects the order of two widths |
| Inverse.DefaultSearchWithinCap | script.js:124-130 | with the default bound a target up to 4,000,000 starts with an interval of width at most `0.01 * 2^99` |
| Inverse.GrossFromNet | script.js:107-133 | NaN or non-positive target gives 0; NaN is returned exactly when the start is unreachable; otherwise the result is the rounded midpoint of a final interval whose upper end's net reaches the target and whose lower end is the target or has net below it; that interval lies inside `[target, high]` when the start is ordered and is `[target, high]` itself when `high < target`, is at most one cent wide unless the cap was hit, and after the cap is exactly `[target, high]` halved 100 times; the cap is hit only for starting widths above `0.01 * 2^99` |
| Inverse.GrossFromNetDefault | script.js:254 | the calculator's one-argument call never returns NaN, returns 0 for a non-positive or NaN target, returns the midpoint of a final interval as for `GrossFromNet` with the default bound, and never hits the iteration cap for targets up to 4,000,000 |

## Left out

- DOM lookup, event listeners and key handling (script.js:165-283): user-interface wiring with no calculation in it.
- Animation helpers `animarResultado` and `mostrarConAnimacion` (script.js:141-161): CSS classes and timers.
- `console.warn`, `console.error` and `console.log` calls: side effects only. The iteration-cap warning is the `capReached` result.
- Currency formatting with `toLocaleString('es-MX')`: a locale library call.
- `parseFloat` of the input text, IEEE-754 double rounding, and infinities: numbers are exact reals, and NaN is modelled only where the code tests for it.
- Round trip net → gross → net within 0.02: the code does not promise it, and the model does not state it. A proof would need a bound on how far the net can fall as the gross rises, which the model does not state either.
- Monotonicity of the tax and of the net: it does not hold (see `Isr.TaxNotMonotone`, `Payroll.NetNotMonotone` and `Payroll.NetDropsTwoCents`). The table bounds each boundary jump of the unrounded tax by one cent (`Isr.TableContinuousWithinOneCent`), and the net can fall by two cents; the model states no general bound on these falls.
- Imss.Contribution: monotonicity, capping point and the 2.92% bound are stated only for the default factor 1.049031 and 30 days, the only parameters the calculator passes. For any other factor and days only non-negativity and the cap are stated.
- Inverse.InitialHigh: requires a positive target, because the source reaches these lines only after the non-positive and NaN targets have returned 0 at line 108.
- Inverse.Bisect: `low <= lo <= hi <= high` is stated only when the initial interval is ordered, because a caller-supplied bound can start the loop with `high < low`; for such a start no step runs and the contract states that the start is returned unchanged.
