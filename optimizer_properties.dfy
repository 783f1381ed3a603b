/**
 * Properties of every run of the search, whatever the error oracle: they do
 * not depend on the termination hypothesis of `FindOptimumN`.
 */
module OptimizerProperties {
  import opened PiCalc
  import opened RiemannNOptimizer

  /**
   * Along a run the step stays between zero and the starting step, the
   * potential `n - Reserve(incrementer)` never drops, each round moves `n`
   * forward by at most the starting step, and the best error never grows.
   */
  lemma {:induction false} PrefixRunBounds(err: int --> real, t: seq<SearchState>, i: nat)
    requires IsPrefixRun(err, t) && i < |t| && t[0].incrementer >= 0
    ensures 0 <= t[i].incrementer <= t[0].incrementer
    ensures Potential(t[i]) >= Potential(t[0])
    ensures t[i].n >= t[0].n - Reserve(t[0].incrementer) + Reserve(t[i].incrementer)
    ensures t[i].n <= t[0].n + i * t[0].incrementer
    ensures t[i].minDiff <= t[0].minDiff
  {
    if i > 0 {
      PrefixRunBounds(err, t, i - 1);
      assert Step(err, t[i - 1], t[i]);
      assert t[i].n <= t[i - 1].n + t[i - 1].incrementer;
      assert (i - 1) * t[0].incrementer + t[0].incrementer == i * t[0].incrementer;
    }
  }

  /**
   * With a start that covers its reserve and a cap on the number of rounds,
   * every count of the run passes the estimators' range check: the count is
   * never negative and never above `Long.MAX_VALUE - 1`.
   */
  lemma PrefixRunInRange(err: int --> real, t: seq<SearchState>)
    requires IsPrefixRun(err, t) && |t| > 0 && t[0].incrementer >= 0
    requires Reserve(t[0].incrementer) <= t[0].n
    requires t[0].n + (|t| - 1) * t[0].incrementer <= LongMax - 1
    ensures forall i :: 0 <= i < |t| ==> InRange(t[i].n)
  {
    forall i | 0 <= i < |t|
      ensures InRange(t[i].n)
    {
      PrefixRunBounds(err, t, i);
      assert i * t[0].incrementer <= (|t| - 1) * t[0].incrementer by {
        MulMonotonic(i, |t| - 1, t[0].incrementer);
      }
    }
  }

  lemma MulMonotonic(a: nat, b: nat, c: nat)
    requires a <= b
    ensures a * c <= b * c
  {
  }

  /**
   * The best error is the running minimum: at each state it is no larger
   * than any error measured before, and once a first error no larger than the
   * initial sentinel has been measured it is one of the measured errors.
   */
  lemma {:induction false} RunningMinimum(err: int --> real, t: seq<SearchState>, i: nat)
    requires IsPrefixRun(err, t) && i < |t|
    ensures forall j :: 0 <= j < i ==> err.requires(t[j].n) && t[i].minDiff <= err(t[j].n)
    ensures t[i].minDiff <= t[0].minDiff
    ensures 0 < i && err(t[0].n) <= t[0].minDiff ==>
              exists j :: 0 <= j < i && t[i].minDiff == err(t[j].n)
  {
    if i > 0 {
      RunningMinimum(err, t, i - 1);
      assert Step(err, t[i - 1], t[i]);
      if i == 1 {
        assert err(t[0].n) <= t[0].minDiff ==> t[1].minDiff == err(t[0].n);
      } else if err(t[0].n) <= t[0].minDiff {
        var j :| 0 <= j < i - 1 && t[i - 1].minDiff == err(t[j].n);
        if t[i].minDiff != t[i - 1].minDiff {
          assert t[i].minDiff == err(t[i - 1].n);
        }
      }
    }
  }

  /** Number of rounds of `t` that shrank the step, that is, regressions. */
  function Regressions(t: seq<SearchState>): nat
  {
    if |t| < 2 then 0
    else Regressions(t[..|t| - 1]) + (if t[|t| - 1].incrementer < t[|t| - 2].incrementer then 1 else 0)
  }

  /**
   * Each regression removes one decimal digit of the step, so a finished
   * run has exactly as many regressions as the starting step has digits.
   */
  lemma {:induction false} RegressionCount(err: int --> real, t: seq<SearchState>)
    requires |t| > 0 && IsPrefixRun(err, t)
    ensures Regressions(t) + Digits(t[|t| - 1].incrementer) == Digits(t[0].incrementer)
    ensures t[|t| - 1].incrementer == 0 ==> Regressions(t) == Digits(t[0].incrementer)
  {
    if |t| >= 2 {
      var p := t[..|t| - 1];
      assert IsPrefixRun(err, p) by {
        forall i | 0 <= i < |p| - 1
          ensures Step(err, p[i], p[i + 1])
        {
          assert p[i] == t[i] && p[i + 1] == t[i + 1];
        }
      }
      RegressionCount(err, p);
      assert Step(err, t[|t| - 2], t[|t| - 1]);
    }
  }

  /** Two runs that agree at the start agree at every state both have. */
  lemma {:induction false} RunsAgree(err: int --> real, t1: seq<SearchState>, t2: seq<SearchState>, i: nat)
    requires IsPrefixRun(err, t1) && IsPrefixRun(err, t2)
    requires i < |t1| && i < |t2| && t1[0] == t2[0]
    ensures t1[i] == t2[i]
  {
    if i > 0 {
      RunsAgree(err, t1, t2, i - 1);
      assert Step(err, t1[i - 1], t1[i]) && Step(err, t2[i - 1], t2[i]);
    }
  }

  /**
   * A search has one run: the result of `FindOptimumN` is determined by the
   * oracle and the starting state.
   */
  lemma RunIsDeterministic(err: int --> real, init: SearchState, t1: seq<SearchState>, t2: seq<SearchState>)
    requires IsRun(err, init, t1) && IsRun(err, init, t2)
    ensures t1 == t2
  {
    if |t1| < |t2| {
      RunsAgree(err, t1, t2, |t1| - 1);
      StepAt(err, t2, |t1| - 1);
      assert false;
    } else if |t2| < |t1| {
      RunsAgree(err, t1, t2, |t2| - 1);
      StepAt(err, t1, |t2| - 1);
      assert false;
    } else {
      forall i | 0 <= i < |t1|
        ensures t1[i] == t2[i]
      {
        RunsAgree(err, t1, t2, i);
      }
    }
  }

  /** The round from the `i`-th state of a run to the next. */
  lemma StepAt(err: int --> real, t: seq<SearchState>, i: nat)
    requires IsPrefixRun(err, t) && i < |t| - 1
    ensures Step(err, t[i], t[i + 1])
  {
  }

  /** Starting from a power of ten, the step stays a power of ten until it is 0. */
  lemma {:induction false} PrefixRunKeepsPow10(err: int --> real, t: seq<SearchState>, i: nat)
    requires IsPrefixRun(err, t) && i < |t| && IsPow10(t[0].incrementer)
    ensures t[i].incrementer == 0 || IsPow10(t[i].incrementer)
  {
    if i > 0 {
      PrefixRunKeepsPow10(err, t, i - 1);
      assert Step(err, t[i - 1], t[i]);
    }
  }

  /**
   * A search that starts with a positive step ends with a regression at a
   * step of one digit, which leaves the returned count two such steps below
   * the last evaluated count; for a power-of-ten start, exactly 2 below.
   */
  lemma RunEndsWithRollback(err: int --> real, init: SearchState, t: seq<SearchState>)
    requires IsRun(err, init, t) && init.incrementer > 0
    ensures |t| >= 2
    ensures var last := t[|t| - 2];
      && 1 <= last.incrementer <= 9
      && err.requires(last.n) && err(last.n) > last.minDiff
      && t[|t| - 1].n == last.n - 2 * last.incrementer
    ensures IsPow10(init.incrementer) ==> t[|t| - 1].n == t[|t| - 2].n - 2
  {
    assert |t| != 1;
    var last := t[|t| - 2];
    assert Step(err, last, t[|t| - 1]);
    if IsPow10(init.incrementer) {
      PrefixRunKeepsPow10(err, t, |t| - 2);
    }
  }
}
