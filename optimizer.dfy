/**
 * The coarse-to-fine search of `RiemannNOptimizer.findOptimumNValue`.
 *
 * The search walks the iteration-count axis with a step (`incrementer`),
 * remembering the smallest estimation error seen so far (`minDiff`). While the
 * error does not grow it keeps walking; when it grows it backs off two steps,
 * divides the step by ten and walks on with the finer step. It stops when the
 * step reaches zero.
 *
 * The estimator and `Math.abs(pi - Math.PI)` are abstracted into an error
 * oracle `err`: a partial function defined at least on every count the
 * estimators accept (`PiCalc.InRange`).
 */
module RiemannNOptimizer {
  import opened PiCalc

  /** `Double.MAX_VALUE`, the initial best error: above every finite error. */
  const MaxDouble: real := 179769313486231570814527423731704356798070567525844996598917476803157260780028538760589558632766878171540458953514382464234321326889464182768467546703537516986049910576551282076245490090389328944075868508455133942304583236903222948165808559332123348274797826204144723168738177180919299881250404026184124858368.0

  /** The documented starting count and step. */
  const DefaultStart: int := 90_000_000_000
  const DefaultStep: int := 1_000_000_000

  /** The three local variables the search loop updates. */
  datatype SearchState = SearchState(n: int, incrementer: int, minDiff: real)

  function Min(a: real, b: real): real
  {
    if a <= b then a else b
  }

  /**
   * How far the count can still be pushed back by the remaining regressions:
   * a regression at step `s` moves `n` by `-2s + s/10`, and after it the
   * step is `s/10`.
   */
  function Reserve(s: int): (r: int)
    ensures r >= 0 && r >= 2 * s
    ensures s >= 0 ==> r <= 3 * s
    decreases s
  {
    if s <= 0 then 0 else 2 * s - s / 10 + Reserve(s / 10)
  }

  /** Number of divisions by ten that take `s` down to zero. */
  function Digits(s: int): (d: nat)
    ensures d == 0 <==> s <= 0
    decreases s
  {
    if s <= 0 then 0 else 1 + Digits(s / 10)
  }

  /** `s` is 1, 10, 100, ... */
  predicate IsPow10(s: int)
    decreases s
  {
    s == 1 || (s >= 10 && s % 10 == 0 && IsPow10(s / 10))
  }

  /** The quantity that no round decreases. */
  function Potential(s: SearchState): int
  {
    s.n - Reserve(s.incrementer)
  }

  /**
   * One pass of the loop body, given the error `diff` measured at `s.n`.
   * The loop only runs while the step is positive, where Java's truncating
   * `/` and Dafny's Euclidean `/` agree.
   */
  function Round(s: SearchState, diff: real): (r: SearchState)
    requires s.incrementer > 0
    // the step never becomes negative and shrinks exactly in a regression, by /10
    ensures 0 <= r.incrementer <= s.incrementer
    ensures r.incrementer < s.incrementer <==> diff > s.minDiff
    ensures r.incrementer < s.incrementer ==> r.incrementer == s.incrementer / 10
    ensures Digits(r.incrementer) == Digits(s.incrementer) - (if diff > s.minDiff then 1 else 0)
    // the best error is the running minimum
    ensures r.minDiff == Min(s.minDiff, diff)
    // a regression keeps the potential, an improvement raises it by the step
    ensures Potential(r) == Potential(s) + (if diff > s.minDiff then 0 else s.incrementer)
  {
    if diff > s.minDiff then
      var inc := s.incrementer / 10;
      SearchState(s.n - s.incrementer * 2 + inc, inc, s.minDiff)
    else
      SearchState(s.n + s.incrementer, s.incrementer, diff)
  }

  /** `s'` follows `s` by one round of the loop with the error measured by `err`. */
  ghost predicate Step(err: int --> real, s: SearchState, s': SearchState)
  {
    s.incrementer > 0 && err.requires(s.n) && s' == Round(s, err(s.n))
  }

  /** Consecutive states of `t` are consecutive rounds. */
  ghost predicate IsPrefixRun(err: int --> real, t: seq<SearchState>)
  {
    forall i :: 0 <= i < |t| - 1 ==> Step(err, t[i], t[i + 1])
  }

  /** `t` is the whole sequence of loop-head states of a search started in `init`. */
  ghost predicate IsRun(err: int --> real, init: SearchState, t: seq<SearchState>)
  {
    |t| > 0 && t[0] == init && IsPrefixRun(err, t) && t[|t| - 1].incrementer == 0
  }

  /**
   * The last round was an improvement past `rise`: its error is the best one,
   * so, once errors rise past `rise`, the next round is a regression.
   */
  ghost predicate RegressionPending(err: int --> real, rise: int, s: SearchState)
  {
    rise < s.n - s.incrementer && err.requires(s.n - s.incrementer) && s.minDiff == err(s.n - s.incrementer)
  }

  /**
   * What holds at the head of the search loop: the step lies between 0 and
   * the starting step, the potential has not dropped below the start's, and
   * the count is at most one step past `rise`, or at most two steps past it
   * with a regression pending.
   */
  ghost predicate SearchInvariant(err: int --> real, start: int, step: int, rise: int, s: SearchState)
  {
    && 0 <= s.incrementer <= step
    && Potential(s) >= start - Reserve(step)
    && (s.n <= rise + s.incrementer
        || (s.n <= rise + 2 * s.incrementer && RegressionPending(err, rise, s)))
  }

  /** Second component of the loop's termination measure. */
  ghost function Slack(err: int --> real, rise: int, s: SearchState): int
  {
    if RegressionPending(err, rise, s) then 0 else rise + 2 * s.incrementer - s.n + 1
  }

  /** One round keeps `SearchInvariant` and decreases `(incrementer, Slack)`. */
  lemma RoundKeepsSearchInvariant(err: int --> real, start: int, step: int, rise: int, s: SearchState)
    requires forall m :: 0 <= m <= LongMax - 1 ==> err.requires(m)
    requires Reserve(step) <= start <= rise
    requires rise + 2 * step <= LongMax - 1
    requires forall a, b :: rise <= a < b <= rise + 2 * step ==> err(a) < err(b)
    requires SearchInvariant(err, start, step, rise, s) && s.incrementer > 0
    ensures InRange(s.n)
    ensures var r := Round(s, err(s.n));
      && SearchInvariant(err, start, step, rise, r)
      && start - Reserve(step) <= r.n <= rise + 2 * step
      && 0 <= Slack(err, rise, s)
      && (r.incrementer < s.incrementer
          || (r.incrementer == s.incrementer && 0 <= Slack(err, rise, r) < Slack(err, rise, s)))
  {
    var diff := err(s.n);
    if RegressionPending(err, rise, s) {
      // both counts lie in the rising stretch, so the error has grown
      assert rise <= s.n - s.incrementer < s.n <= rise + 2 * step;
      assert diff > s.minDiff;
    }
    if diff > s.minDiff {
      RegressionKeepsSearchInvariant(err, start, step, rise, s, diff);
    } else {
      ImprovementKeepsSearchInvariant(err, start, step, rise, s, diff);
    }
  }

  /** A regression moves `n` back to at most one new step past `rise`. */
  lemma RegressionKeepsSearchInvariant(err: int --> real, start: int, step: int, rise: int, s: SearchState, diff: real)
    requires SearchInvariant(err, start, step, rise, s) && s.incrementer > 0 && diff > s.minDiff
    ensures var r := Round(s, diff);
      && r.incrementer < s.incrementer
      && r.n <= rise + r.incrementer
      && SearchInvariant(err, start, step, rise, r)
  {
  }

  /**
   * An improvement happens only with no regression pending, so from at most
   * one step past `rise`; if it was past `rise`, a regression is pending next.
   */
  lemma ImprovementKeepsSearchInvariant(err: int --> real, start: int, step: int, rise: int, s: SearchState, diff: real)
    requires SearchInvariant(err, start, step, rise, s) && s.incrementer > 0 && diff <= s.minDiff
    requires !RegressionPending(err, rise, s) && err.requires(s.n) && diff == err(s.n)
    ensures var r := Round(s, diff);
      && r.incrementer == s.incrementer
      && SearchInvariant(err, start, step, rise, r)
      && r.n <= rise + 2 * s.incrementer
      && 0 <= Slack(err, rise, r) < Slack(err, rise, s)
  {
    var r := Round(s, diff);
    assert r == SearchState(s.n + s.incrementer, s.incrementer, diff);
    if s.n > rise {
      assert RegressionPending(err, rise, r);
    }
  }

  /** Appending a round to a run gives a run. */
  lemma AppendRound(err: int --> real, t: seq<SearchState>, s: SearchState)
    requires |t| > 0 && IsPrefixRun(err, t) && Step(err, t[|t| - 1], s)
    ensures IsPrefixRun(err, t + [s])
  {
  }

  /**
   * `findOptimumNValue`, started at `start` with step `step`.
   *
   * Termination needs a hypothesis about the oracle: from the ghost count
   * `rise` up to `rise + 2 * step`, the error strictly increases. With a start no larger than
   * `rise`, no more reserve than the start, and room for two steps past `rise`
   * below `Long.MAX_VALUE`, the search ends, every count it evaluates passes
   * the estimators' range check, and the returned count is the last state of
   * the unique run of `Round`s (see `RunIsDeterministic`). The returned count
   * is never past `rise`.
   */
  method FindOptimumN(err: int --> real, start: int, step: nat, ghost rise: int)
    returns (n: int, ghost trace: seq<SearchState>)
    requires forall m :: 0 <= m <= LongMax - 1 ==> err.requires(m)
    requires Reserve(step) <= start <= rise
    requires rise + 2 * step <= LongMax - 1
    requires forall a, b :: rise <= a < b <= rise + 2 * step ==> err(a) < err(b)
    ensures IsRun(err, SearchState(start, step, MaxDouble), trace)
    ensures n == trace[|trace| - 1].n
    ensures start - Reserve(step) <= n <= rise
    ensures forall i :: 0 <= i < |trace| ==> start - Reserve(step) <= trace[i].n <= rise + 2 * step
    ensures forall i :: 0 <= i < |trace| ==> InRange(trace[i].n)
  {
    var minDiff := MaxDouble;
    n := start;
    var incrementer: int := step;
    trace := [SearchState(n, incrementer, minDiff)];
    while incrementer > 0
      invariant |trace| > 0 && trace[0] == SearchState(start, step, MaxDouble)
      invariant trace[|trace| - 1] == SearchState(n, incrementer, minDiff)
      invariant IsPrefixRun(err, trace)
      invariant SearchInvariant(err, start, step, rise, SearchState(n, incrementer, minDiff))
      invariant forall i :: 0 <= i < |trace| ==> start - Reserve(step) <= trace[i].n <= rise + 2 * step
      decreases incrementer, Slack(err, rise, SearchState(n, incrementer, minDiff))
    {
      ghost var before := SearchState(n, incrementer, minDiff);
      RoundKeepsSearchInvariant(err, start, step, rise, before);
      var currentDiff := err(n);
      if currentDiff > minDiff {
        n := n - incrementer * 2; // back to the second previous count
        incrementer := incrementer / 10;
        n := n + incrementer;
      } else {
        minDiff := currentDiff;
        n := n + incrementer;
      }
      assert SearchState(n, incrementer, minDiff) == Round(before, currentDiff);
      AppendRound(err, trace, SearchState(n, incrementer, minDiff));
      trace := trace + [SearchState(n, incrementer, minDiff)];
    }
  }
}
