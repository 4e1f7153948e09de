/**
 * `calculate_progress` (app/routes/challenges.py): how many of a challenge's
 * problems a user has an accepted submission for.
 */
module Progress {
  import opened Wrappers
  import opened Judge
  import opened ChallengeData

  predicate SolvedBy(p: Problem, slugs: set<string>) {
    p.titleSlug.Some? && p.titleSlug.value in slugs
  }

  /** Specification: the number of problems whose slug is in `slugs`, counted from the front. */
  function SolvedCount(problems: seq<Problem>, slugs: set<string>): nat
    decreases |problems|
  {
    if problems == [] then 0
    else
      SolvedCount(problems[..|problems| - 1], slugs)
        + (if SolvedBy(problems[|problems| - 1], slugs) then 1 else 0)
  }

  /** The positions of the solved problems: an independent description of the same count. */
  function SolvedPositions(problems: seq<Problem>, slugs: set<string>): set<nat> {
    set i: nat | i < |problems| && SolvedBy(problems[i], slugs)
  }

  /** The value `calculate_progress(user_submissions, challenge_problems)` returns; None submissions count as []. */
  function ProgressOf(submissions: Option<seq<Submission>>, problems: seq<Problem>): (count: nat)
    ensures count == |SolvedPositions(problems, AcceptedSlugs(submissions.GetOr([])))|
    ensures count <= |problems|
  {
    var slugs := AcceptedSlugs(submissions.GetOr([]));
    SolvedCountIsPositionCount(problems, slugs);
    SolvedCountBounded(problems, slugs);
    if problems == [] then 0
    else SolvedCount(problems, slugs)
  }

  /** The count is the number of positions holding a solved problem. */
  lemma {:induction false} SolvedCountIsPositionCount(problems: seq<Problem>, slugs: set<string>)
    ensures SolvedCount(problems, slugs) == |SolvedPositions(problems, slugs)|
    decreases |problems|
  {
    if problems != [] {
      var n := |problems| - 1;
      var front := problems[..n];
      SolvedCountIsPositionCount(front, slugs);
      var before := SolvedPositions(front, slugs);
      var after := SolvedPositions(problems, slugs);
      if SolvedBy(problems[n], slugs) {
        assert after == before + {n};
        assert n !in before;
      } else {
        assert after == before;
      }
    }
  }

  /** The count never exceeds the number of problems. */
  lemma {:induction false} SolvedCountBounded(problems: seq<Problem>, slugs: set<string>)
    ensures SolvedCount(problems, slugs) <= |problems|
    decreases |problems|
  {
    if problems != [] {
      SolvedCountBounded(problems[..|problems| - 1], slugs);
    }
  }

  /** The count reaches the number of problems exactly when every problem is solved. */
  lemma {:induction false} SolvedCountFull(problems: seq<Problem>, slugs: set<string>)
    ensures SolvedCount(problems, slugs) == |problems| <==>
            forall i :: 0 <= i < |problems| ==> SolvedBy(problems[i], slugs)
    decreases |problems|
  {
    if problems != [] {
      var n := |problems| - 1;
      SolvedCountFull(problems[..n], slugs);
      SolvedCountBounded(problems[..n], slugs);
      if forall i :: 0 <= i < |problems| ==> SolvedBy(problems[i], slugs) {
        assert forall i :: 0 <= i < n ==> problems[..n][i] == problems[i];
      }
      if SolvedCount(problems, slugs) == |problems| {
        forall i | 0 <= i < |problems| ensures SolvedBy(problems[i], slugs) {
          if i < n { assert problems[..n][i] == problems[i]; }
        }
      }
    }
  }

  /** Counting splits over concatenation. */
  lemma {:induction false} SolvedCountAppend(a: seq<Problem>, b: seq<Problem>, slugs: set<string>)
    ensures SolvedCount(a + b, slugs) == SolvedCount(a, slugs) + SolvedCount(b, slugs)
    decreases |b|
  {
    if b == [] {
      assert a + b == a;
    } else {
      var n := |b| - 1;
      assert (a + b)[..|a + b| - 1] == a + b[..n];
      SolvedCountAppend(a, b[..n], slugs);
    }
  }

  /** Swapping two blocks of the problem list leaves the count unchanged: the count does not depend on order. */
  lemma SolvedCountSwap(a: seq<Problem>, b: seq<Problem>, slugs: set<string>)
    ensures SolvedCount(a + b, slugs) == SolvedCount(b + a, slugs)
  {
    SolvedCountAppend(a, b, slugs);
    SolvedCountAppend(b, a, slugs);
  }

  /**
   * `calculate_progress`: the accepted-slug set is built first (duplicate
   * accepted submissions collapse), then the problems are counted in a loop.
   */
  method CalculateProgress(userSubmissions: Option<seq<Submission>>, challengeProblems: seq<Problem>)
    returns (solvedCount: nat)
    ensures solvedCount == ProgressOf(userSubmissions, challengeProblems)
    ensures solvedCount == |SolvedPositions(challengeProblems, AcceptedSlugs(userSubmissions.GetOr([])))|
    ensures solvedCount <= |challengeProblems|
  {
    var submissions := userSubmissions.GetOr([]);
    var solvedSlugs := AcceptedSlugs(submissions);
    SolvedCountIsPositionCount(challengeProblems, solvedSlugs);
    SolvedCountBounded(challengeProblems, solvedSlugs);
    if challengeProblems == [] {
      return 0;
    }
    solvedCount := 0;
    for i := 0 to |challengeProblems|
      invariant solvedCount == SolvedCount(challengeProblems[..i], solvedSlugs)
    {
      assert challengeProblems[..i + 1][..i] == challengeProblems[..i];
      var problem := challengeProblems[i];
      if problem.titleSlug.Some? && problem.titleSlug.value in solvedSlugs {
        solvedCount := solvedCount + 1;
      }
    }
    assert challengeProblems[..|challengeProblems|] == challengeProblems;
  }
}
