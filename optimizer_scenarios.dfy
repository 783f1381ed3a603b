/**
 * Concrete searches: the documented starting values, and a search over an
 * error with a single valley.
 */
module OptimizerScenarios {
  import opened PiCalc
  import opened RiemannNOptimizer
  import opened OptimizerProperties

  /**
   * The documented start, `n = 90_000_000_000` with step `1_000_000_000`:
   * the regressions can push `n` back by at most 2_111_111_111 in all, so on
   * every run from it, whatever the oracle, `n` never drops below
   * 87_888_888_889; and two steps past the start is still in range.
   */
  lemma DefaultStartIsSafe(err: int --> real, t: seq<SearchState>, i: nat)
    requires IsPrefixRun(err, t) && i < |t|
    requires t[0] == SearchState(DefaultStart, DefaultStep, MaxDouble)
    ensures Reserve(DefaultStep) == 2_111_111_111
    ensures t[i].n >= 87_888_888_889
    ensures DefaultStart + 2 * DefaultStep <= LongMax - 1
  {
    DefaultReserve();
    PrefixRunBounds(err, t, i);
  }

  lemma DefaultReserve()
    ensures Reserve(DefaultStep) == 2_111_111_111
  {
  }

  /**
   * The documented step has ten digits and is a power of ten, so a finished
   * search from the documented start has exactly ten regressions and returns
   * two below its last evaluated count.
   */
  lemma DefaultStepShape(err: int --> real, t: seq<SearchState>)
    requires IsRun(err, SearchState(DefaultStart, DefaultStep, MaxDouble), t)
    ensures Digits(DefaultStep) == 10 && IsPow10(DefaultStep)
    ensures Regressions(t) == 10
    ensures |t| >= 2 && t[|t| - 1].n == t[|t| - 2].n - 2
  {
    RegressionCount(err, t);
    RunEndsWithRollback(err, SearchState(DefaultStart, DefaultStep, MaxDouble), t);
  }

  /** An error that falls until `n = 150` and rises after it. */
  function ValleyError(m: int): real
  {
    if m < 150 then (150 - m) as real else (m - 150) as real
  }

  /**
   * Started at `n = 100` with step 10 on `ValleyError`, the search walks up
   * to 160, backs off to 141 with step 1, regresses at once because 150's
   * error is still the best, and returns 139: one below the valley's
   * neighbourhood [140, 160] at the coarse step. Such a run exists:
   * `FindOptimumN` produces one (see `ValleySearch`).
   */
  lemma ValleySearchReturns139(t: seq<SearchState>)
    requires IsRun(ValleyError, SearchState(100, 10, MaxDouble), t)
    ensures |t| == 9
    ensures t[|t| - 1] == SearchState(139, 0, 0.0)
  {
    ValleyRound(t, 0, 50.0);
    assert t[1] == SearchState(110, 10, 50.0);
    ValleyRound(t, 1, 40.0);
    assert t[2] == SearchState(120, 10, 40.0);
    ValleyRound(t, 2, 30.0);
    assert t[3] == SearchState(130, 10, 30.0);
    ValleyRound(t, 3, 20.0);
    assert t[4] == SearchState(140, 10, 20.0);
    ValleyRound(t, 4, 10.0);
    assert t[5] == SearchState(150, 10, 10.0);
    ValleyRound(t, 5, 0.0);
    assert t[6] == SearchState(160, 10, 0.0);
    ValleyRound(t, 6, 10.0);
    assert t[7] == SearchState(141, 1, 0.0);
    ValleyRound(t, 7, 9.0);
    assert t[8] == SearchState(139, 0, 0.0);
    if |t| > 9 {
      StepAt(ValleyError, t, 8);
    }
  }

  /** One round of the valley search, at a state with a positive step. */
  lemma ValleyRound(t: seq<SearchState>, i: nat, e: real)
    requires IsPrefixRun(ValleyError, t) && i < |t| && t[|t| - 1].incrementer == 0
    requires t[i].incrementer > 0 && ValleyError(t[i].n) == e
    ensures i + 1 < |t| && t[i + 1] == Round(t[i], e)
  {
    StepAt(ValleyError, t, i);
  }

  /**
   * The valley search as the loop runs it: errors rise from 150 on, so the
   * loop ends, and it returns 139.
   */
  method ValleySearch() returns (n: int)
    ensures n == 139
  {
    ghost var t;
    n, t := FindOptimumN(ValleyError, 100, 10, 150);
    ValleySearchReturns139(t);
  }
}
