# Riemann n-optimizer search, modelled in Dafny

This project models the search loop of `RiemannNOptimizer.findOptimumNValue`
from the picalcs program. The program estimates pi with Riemann sums. As the
iteration count `n` grows, floating-point error eventually makes the estimate
worse. The optimizer searches for the count where the error is smallest.

The search is an integer state machine over three locals:
- `n`, the current count;
- `incrementer`, the step;
- `minDiff`, the best error seen so far. It starts at `Double.MAX_VALUE`.

Each round measures the error at `n`:
- **Improvement** (`error <= minDiff`): `minDiff` becomes the error and `n` moves up one step.
- **Regression** (`error > minDiff`): `n` moves back two steps, the step is divided by ten, and `n` moves up one new step.

The loop stops when the step is 0.

The estimator behind each measurement is floating-point code. It is abstracted
into an error oracle `err: int --> real`. The oracle's domain must cover every
count the estimators accept: `0 <= n <= Long.MAX_VALUE - 1` (`PiCalc.InRange`).

Files:
- `pi_calc.dfy` (module `PiCalc`): the estimators' range check.
- `optimizer.dfy` (module `RiemannNOptimizer`): the state, one round (`Round`), runs as sequences of states, and the loop (`FindOptimumN`).
- `optimizer_properties.dfy` (module `OptimizerProperties`): properties of every run, for any oracle.
- `optimizer_scenarios.dfy` (module `OptimizerScenarios`): the documented start values and a worked search.

Key quantities:
- `Reserve(s) = 2s - s/10 + Reserve(s/10)`, with `Reserve(0) = 0`. It is how far the remaining regressions can still move `n` back.
- `Potential = n - Reserve(incrementer)`. No round decreases it. So a start with `n >= Reserve(step)` never reaches a negative count.

Termination needs an assumption about the oracle. `FindOptimumN` takes a ghost
count `rise` and requires the error to strictly increase from `rise` up to
`rise + 2 * step`. This is the single-valley assumption the source's comments
rely on, needed only on the stretch the loop can reach. Under it, the loop
measure is `(incrementer, Slack)`. Every evaluated count is then at most
`rise + 2 * step`, and the returned count is at most `rise`.

The code as written can return a count below the valley's neighbourhood. Take
start 100, step 10 and an error that falls until 150 and rises after it.
`minDiff` is never reset after a regression. So the finer pass regresses at
once, and the result is 139, not a value in [140, 160].
`OptimizerScenarios.ValleySearchReturns139` proves this. The model follows the
code.

## Model

| member | source | states |
|---|---|---|
| `RiemannNOptimizer.Round` | src/RiemannNOptimizer.java:51-59 | One loop pass. The step stays non-negative. It shrinks exactly when the error exceeds `minDiff`, and then becomes `incrementer / 10`, losing one decimal digit. `minDiff` becomes the minimum of itself and the error. `n - Reserve(incrementer)` stays the same on a regression and rises by the step on an improvement. |
| `RiemannNOptimizer.Reserve` | src/RiemannNOptimizer.java:53-55 | The total back-off the remaining regressions can cause lies between `2s` and `3s` for a step `s`. |
| `RiemannNOptimizer.Digits` | src/RiemannNOptimizer.java:54 | The number of `/10` divisions that take the step to 0 is zero exactly when the step is already 0 or below. |
| `RiemannNOptimizer.RoundKeepsSearchInvariant` | src/RiemannNOptimizer.java:34-60 | If the error rises on `[rise, rise + 2 * step]`, the measured count passes the range check. The loop invariant is kept: step bounds, potential, and `n` at most one step past `rise` or two with a regression pending. Each round decreases `(incrementer, Slack)`. |
| `RiemannNOptimizer.RegressionKeepsSearchInvariant` | src/RiemannNOptimizer.java:52-55 | A regression shrinks the step and leaves `n` at most one new step past `rise`, keeping the loop invariant. |
| `RiemannNOptimizer.ImprovementKeepsSearchInvariant` | src/RiemannNOptimizer.java:56-59 | An improvement with no regression pending keeps the step and the loop invariant. It leaves `n` at most two steps past `rise` and decreases `Slack`. |
| `RiemannNOptimizer.FindOptimumN` | src/RiemannNOptimizer.java:23-63 | If the error rises on `[rise, rise + 2 * step]`, the loop terminates. Its states form a complete run of `Round`s from `(start, step, Double.MAX_VALUE)`, and the returned `n` is the last one. Every count lies in `[start - Reserve(step), rise + 2 * step]`, so every count passes the estimators' range check. The returned `n` lies in `[start - Reserve(step), rise]`. |
| `OptimizerProperties.PrefixRunBounds` | src/RiemannNOptimizer.java:52-59 | For any oracle, along a run: the step stays in `[0, step0]` and the potential never drops. Each count is at least `start - Reserve(step0) + Reserve(step)` and at most `start + i * step0`. `minDiff` never grows. |
| `OptimizerProperties.PrefixRunInRange` | src/RiemannNOptimizer.java:37-46 | If the start covers its reserve and the number of rounds is capped so that `start + rounds * step <= Long.MAX_VALUE - 1`, every count passes the estimators' range check. |
| `OptimizerProperties.RunningMinimum` | src/RiemannNOptimizer.java:52-58 | `minDiff` is at most every error measured so far and at most its initial value. Once the first error is no larger than the sentinel, `minDiff` is one of the measured errors. |
| `OptimizerProperties.RegressionCount` | src/RiemannNOptimizer.java:54 | The regressions so far plus the digits left in the step equal the digits of the starting step. A finished run has exactly as many regressions as the starting step has digits. |
| `OptimizerProperties.RunIsDeterministic` | src/RiemannNOptimizer.java:34-62 | Two complete runs from the same state under the same oracle are equal. So the result of `FindOptimumN` depends only on its inputs. |
| `OptimizerProperties.PrefixRunKeepsPow10` | src/RiemannNOptimizer.java:31-32 | A power-of-ten starting step stays a power of ten until it reaches 0. |
| `OptimizerProperties.RunEndsWithRollback` | src/RiemannNOptimizer.java:53-62 | With a positive starting step, the last round is a regression at a step between 1 and 9. The result is the last evaluated count minus twice that step. For a power-of-ten start, that is exactly 2 below it. |
| `OptimizerScenarios.DefaultStartIsSafe` | src/RiemannNOptimizer.java:28-32 | On every run from `n = 90_000_000_000` with step `1_000_000_000`, whatever the oracle, every state has `n >= 87_888_888_889`, since `Reserve` of the step is 2_111_111_111. Two steps past the start is still in range. |
| `OptimizerScenarios.DefaultStepShape` | src/RiemannNOptimizer.java:31-32 | The documented step has ten digits and is a power of ten. A finished run from the documented start has exactly ten regressions and returns 2 below its last evaluated count. |
| `OptimizerScenarios.ValleySearchReturns139` | src/RiemannNOptimizer.java:34-62 | Start 100, step 10, error `abs(n - 150)`: the run has nine states and returns 139 with best error 0. |
| `OptimizerScenarios.ValleySearch` | src/RiemannNOptimizer.java:23-63 | Running the loop on that scenario terminates and returns 139, so a run the previous lemma speaks of exists. |

## Left out

- The estimators `RiemannPiCalc.underestimatePi`, `overestimatePi`, `calcPi` and `MaclaurenPiCalc.calcPi` are not modelled. They are double-precision sums with `Math.sqrt`, and a model over reals would misstate them. Only their range check is kept (`PiCalc.InRange`), as the domain of the error oracle.
- `Math.abs(pi - Math.PI)` and the `CalcVersion` switch are not modelled separately. Both are folded into the oracle `err`, one oracle per estimator choice.
- NaN and infinity are left out, because they are IEEE-754 behaviour. For example, a NaN `minDiff` would stop every regression. Errors are reals.
- Console progress output and the `main` methods are left out. These cover CLI parsing, `System.exit` and elapsed-time formatting, which are I/O and clock reads.
- `long` wrap-around of `n` is not modelled. `n` is an unbounded `int`. Under `FindOptimumN`'s requirements every count stays in `[0, Long.MAX_VALUE - 1]`, so no wrap-around can occur there.
- The dead initial assignment `currentDiff = Math.PI` is left out, because it is overwritten before use.
- FindOptimumN: requires a hypothesis the source does not state. The error must strictly increase on `[rise, rise + 2 * step]` for a ghost count `rise`, with `start <= rise` and `rise + 2 * step <= Long.MAX_VALUE - 1`. Without it the loop need not terminate. Properties that need no hypothesis are stated for every run in `OptimizerProperties`.
- FindOptimumN: the starting step must be non-negative and the start must cover `Reserve(step)`. The source fixes both as constants, and `DefaultStartIsSafe` shows that the documented ones meet these conditions.
