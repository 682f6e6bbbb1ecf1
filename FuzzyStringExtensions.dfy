/** FuzzyEquals: approximate equality of two strings against a threshold. */
module FuzzyStringExtensions {
  import opened Wrappers
  import opened StringUtils

  /** The default threshold, 2/3. */
  const DefaultMinScore: real := 2.0 / 3.0

  predicate ValidMinScore(minScore: real) {
    0.0 <= minScore <= 1.0
  }

  /** An out-of-range threshold is rejected before anything is scored. */
  function FuzzyEquals(value1: Option<string>, value2: Option<string>, minScore: real): (r: Result<bool>)
    ensures !ValidMinScore(minScore) <==> r == Err(ArgumentOutOfRange("minScore"))
    ensures ValidMinScore(minScore) ==> r == Ok(AtLeast(Score(value1, value2), minScore))
  {
    if minScore < 0.0 || minScore > 1.0 then Err(ArgumentOutOfRange("minScore"))
    else Ok(AtLeast(Score(value1, value2), minScore))
  }

  /** FuzzyEquals with the default threshold never fails. */
  function FuzzyEqualsDefault(value1: Option<string>, value2: Option<string>): (r: Result<bool>)
    ensures r.Ok?
    ensures r == FuzzyEquals(value1, value2, 2.0 / 3.0)
  {
    FuzzyEquals(value1, value2, DefaultMinScore)
  }

  /** Strings equal after simplification are fuzzy-equal at every valid threshold. */
  lemma SimplifiedEqualIsFuzzyEqual(value1: Option<string>, value2: Option<string>, minScore: real)
    requires ValidMinScore(minScore)
    requires Simplify(value1) == Simplify(value2)
    ensures FuzzyEquals(value1, value2, minScore) == Ok(true)
  {
  }

  /** At threshold 1 only the exact-match sentinel passes. */
  lemma FuzzyEqualsAtOne(value1: Option<string>, value2: Option<string>)
    ensures FuzzyEquals(value1, value2, 1.0) == Ok(Simplify(value1) == Simplify(value2))
  {
  }

  /** Lowering the threshold never turns a match into a non-match. */
  lemma FuzzyEqualsMonotone(value1: Option<string>, value2: Option<string>, lower: real, higher: real)
    requires ValidMinScore(lower) && lower <= higher
    requires FuzzyEquals(value1, value2, higher) == Ok(true)
    ensures FuzzyEquals(value1, value2, lower) == Ok(true)
  {
  }

  lemma FuzzyEqualsSymmetric(value1: Option<string>, value2: Option<string>, minScore: real)
    ensures FuzzyEquals(value1, value2, minScore) == FuzzyEquals(value2, value1, minScore)
  {
    ScoreSymmetric(value1, value2);
  }

  // ---------------------------------------------------------------------------
  // The range guard on a double threshold

  /** A C# double threshold as far as the guard and the comparison see it: a real
      value, or NaN. Every ordered comparison with NaN is false. */
  datatype Threshold = Real(r: real) | NaN

  /** `score >= minScore` on doubles: false for a NaN threshold, even for the
      double.MaxValue sentinel. */
  predicate Passes(s: SimilarityScore, minScore: Threshold): (r: bool)
    ensures minScore.NaN? ==> !r
    ensures minScore.Real? ==> (r <==> AtLeast(s, minScore.r))
  {
    minScore.Real? && AtLeast(s, minScore.r)
  }

  /** The guard as written, `minScore < 0d || minScore > 1d`: it lets NaN through. */
  predicate RejectedAsWritten(minScore: Threshold): (r: bool)
    ensures r <==> minScore.Real? && !ValidMinScore(minScore.r)
  {
    minScore.Real? && (minScore.r < 0.0 || minScore.r > 1.0)
  }

  /** FuzzyEquals as written, on a double threshold: on every real threshold it is
      FuzzyEquals, and a NaN threshold is accepted and matches nothing. */
  function FuzzyEqualsAsWritten(value1: Option<string>, value2: Option<string>, minScore: Threshold): (r: Result<bool>)
    ensures minScore.Real? ==> r == FuzzyEquals(value1, value2, minScore.r)
    ensures minScore.NaN? ==> r == Ok(false)
  {
    if RejectedAsWritten(minScore) then Err(ArgumentOutOfRange("minScore"))
    else Ok(Passes(Score(value1, value2), minScore))
  }

  /** A string is not fuzzy-equal to itself at threshold NaN, and no error is raised. */
  lemma NaNThresholdAccepted()
    ensures Score(Some("X"), Some("X")) == Exact
    ensures FuzzyEqualsAsWritten(Some("X"), Some("X"), NaN) == Ok(false)
  {
  }

  /** The intended guard: only a real threshold in [0, 1] is accepted. */
  predicate Rejected(minScore: Threshold): (r: bool)
    ensures r <==> !(minScore.Real? && ValidMinScore(minScore.r))
  {
    minScore.NaN? || minScore.r < 0.0 || minScore.r > 1.0
  }

  /** FuzzyEquals with the intended guard: NaN is rejected like any other out-of-range
      threshold, and every accepted threshold gives the answer of FuzzyEquals. */
  function FuzzyEqualsGuarded(value1: Option<string>, value2: Option<string>, minScore: Threshold): (r: Result<bool>)
    ensures r.Err? <==> !(minScore.Real? && ValidMinScore(minScore.r))
    ensures r.Err? ==> r == Err(ArgumentOutOfRange("minScore"))
    ensures minScore.Real? ==> r == FuzzyEquals(value1, value2, minScore.r)
  {
    if Rejected(minScore) then Err(ArgumentOutOfRange("minScore"))
    else Ok(Passes(Score(value1, value2), minScore))
  }

  /** With the intended guard, a string accepted at some threshold is fuzzy-equal to itself. */
  lemma GuardedSelfMatch(value: Option<string>, minScore: Threshold)
    requires FuzzyEqualsGuarded(value, value, minScore).Ok?
    ensures FuzzyEqualsGuarded(value, value, minScore) == Ok(true)
  {
  }
}
