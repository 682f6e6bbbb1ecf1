/** The similarity engine: Levenshtein edit distance, the normaliser that
    reduces a string to upper-cased letters and digits, and the length-aware
    score built from the two. */
module StringUtils {
  import opened Wrappers
  import opened Chars

  function Min(x: int, y: int): int { if x <= y then x else y }
  function Max(x: int, y: int): int { if x <= y then y else x }
  function RMin(x: real, y: real): real { if x <= y then x else y }
  function RMax(x: real, y: real): real { if x <= y then y else x }

  // ---------------------------------------------------------------------------
  // Edit distance

  /** The Wagner-Fischer recurrence: the edit distance between the first i
      characters of a and the first j characters of b. */
  function Distance(a: string, b: string, i: nat, j: nat): nat
    requires i <= |a| && j <= |b|
  {
    if i == 0 then j
    else if j == 0 then i
    else Min(Min(Distance(a, b, i - 1, j) + 1, Distance(a, b, i, j - 1) + 1),
             Distance(a, b, i - 1, j - 1) + (if b[j - 1] == a[i - 1] then 0 else 1))
  }

  /** The Levenshtein distance between two whole strings. */
  function EditDistance(a: string, b: string): (d: nat)
    ensures |a| == 0 ==> d == |b|
    ensures |b| == 0 ==> d == |a|
  {
    Distance(a, b, |a|, |b|)
  }

  /** Fills the (n+1) x (m+1) table row by row; null arguments are rejected. */
  method ComputeLevenshteinDistance(value1: Option<string>, value2: Option<string>) returns (r: Result<nat>)
    ensures value1.None? ==> r == Err(ArgumentNull("value1"))
    ensures value1.Some? && value2.None? ==> r == Err(ArgumentNull("value2"))
    ensures value1.Some? && value2.Some? ==> r == Ok(EditDistance(value1.value, value2.value))
  {
    if value1.None? { return Err(ArgumentNull("value1")); }
    if value2.None? { return Err(ArgumentNull("value2")); }
    var a, b := value1.value, value2.value;
    var n, m := |a|, |b|;
    var d := new int[n + 1, m + 1];

    if n == 0 { return Ok(m); }
    if m == 0 { return Ok(n); }

    var i := 0;
    while i <= n
      invariant 0 <= i <= n + 1
      invariant forall p :: 0 <= p < i ==> d[p, 0] == p
    {
      d[i, 0] := i;
      i := i + 1;
    }
    var j := 0;
    while j <= m
      invariant 0 <= j <= m + 1
      invariant forall p :: 0 <= p <= n ==> d[p, 0] == p
      invariant forall q :: 0 <= q < j ==> d[0, q] == q
    {
      d[0, j] := j;
      j := j + 1;
    }

    i := 1;
    while i <= n
      invariant 1 <= i <= n + 1
      invariant forall p, q :: 0 <= p < i && 0 <= q <= m ==> d[p, q] == Distance(a, b, p, q)
      invariant forall p :: i <= p <= n ==> d[p, 0] == p
    {
      assert RowFilled(d, a, b, i - 1, m + 1);
      FillRow(d, a, b, i);
      assert RowFilled(d, a, b, i, m + 1);
      i := i + 1;
    }
    return Ok(d[n, m]);
  }

  /** Cells 0 .. upto - 1 of row p hold the recurrence. */
  ghost predicate RowFilled(d: array2<int>, a: string, b: string, p: nat, upto: nat)
    reads d
    requires d.Length0 == |a| + 1 && d.Length1 == |b| + 1 && p <= |a| && upto <= |b| + 1
  {
    forall q {:trigger d[p, q]} :: 0 <= q < upto ==> d[p, q] == Distance(a, b, p, q)
  }

  /** One pass of the inner loop: row i from row i - 1, left to right. */
  method FillRow(d: array2<int>, a: string, b: string, i: nat)
    requires d.Length0 == |a| + 1 && d.Length1 == |b| + 1 && 1 <= i <= |a|
    requires RowFilled(d, a, b, i - 1, |b| + 1)
    requires d[i, 0] == Distance(a, b, i, 0)
    modifies d
    ensures RowFilled(d, a, b, i, |b| + 1)
    ensures forall p, q :: 0 <= p < d.Length0 && 0 <= q < d.Length1 && p != i ==> d[p, q] == old(d[p, q])
  {
    var j := 1;
    while j <= |b|
      invariant 1 <= j <= |b| + 1
      invariant forall q {:trigger d[i, q]} :: 0 <= q < j ==> d[i, q] == Distance(a, b, i, q)
      invariant forall p, q :: 0 <= p < d.Length0 && 0 <= q < d.Length1 && p != i ==> d[p, q] == old(d[p, q])
    {
      SetCell(d, a, b, i, j);
      j := j + 1;
    }
  }

  /** The body of the inner loop: cell (i, j) from its three neighbours. */
  method SetCell(d: array2<int>, a: string, b: string, i: nat, j: nat)
    requires d.Length0 == |a| + 1 && d.Length1 == |b| + 1 && 0 < i <= |a| && 0 < j <= |b|
    requires d[i - 1, j] == Distance(a, b, i - 1, j) && d[i, j - 1] == Distance(a, b, i, j - 1)
    requires d[i - 1, j - 1] == Distance(a, b, i - 1, j - 1)
    modifies d
    ensures d[i, j] == Distance(a, b, i, j)
    ensures forall p, q :: 0 <= p < d.Length0 && 0 <= q < d.Length1 && (p != i || q != j) ==> d[p, q] == old(d[p, q])
  {
    var cost := if b[j - 1] == a[i - 1] then 0 else 1;
    var up, left, diagonal := d[i - 1, j], d[i, j - 1], d[i - 1, j - 1];
    CellStep(a, b, i, j, up, left, diagonal);
    d[i, j] := Min(Min(up + 1, left + 1), diagonal + cost);
  }

  lemma CellStep(a: string, b: string, i: nat, j: nat, up: int, left: int, diagonal: int)
    requires 0 < i <= |a| && 0 < j <= |b|
    requires up == Distance(a, b, i - 1, j) && left == Distance(a, b, i, j - 1)
    requires diagonal == Distance(a, b, i - 1, j - 1)
    ensures Distance(a, b, i, j) == Min(Min(up + 1, left + 1), diagonal + (if b[j - 1] == a[i - 1] then 0 else 1))
  {
  }

  // The inductive facts are wrapped in predicates so that each recursive call
  // hands its conclusion to the next step as a single term.

  ghost predicate SymmetricAt(a: string, b: string, i: nat, j: nat)
    requires i <= |a| && j <= |b|
  {
    Distance(a, b, i, j) == Distance(b, a, j, i)
  }

  ghost predicate BoundedAt(a: string, b: string, i: nat, j: nat)
    requires i <= |a| && j <= |b|
  {
    i - j <= Distance(a, b, i, j) && j - i <= Distance(a, b, i, j) && Distance(a, b, i, j) <= Max(i, j)
  }

  ghost predicate ZeroIffEqualAt(a: string, b: string, i: nat, j: nat)
    requires i <= |a| && j <= |b|
  {
    Distance(a, b, i, j) == 0 <==> a[..i] == b[..j]
  }

  lemma {:induction false} DistanceSymmetric(a: string, b: string, i: nat, j: nat)
    requires i <= |a| && j <= |b|
    ensures SymmetricAt(a, b, i, j)
    decreases i, j
  {
    if i == 0 || j == 0 {
      assert Distance(a, b, i, j) == i + j == Distance(b, a, j, i);
    } else {
      DistanceSymmetric(a, b, i - 1, j);
      assert SymmetricAt(a, b, i - 1, j);
      DistanceSymmetric(a, b, i, j - 1);
      assert SymmetricAt(a, b, i, j - 1);
      DistanceSymmetric(a, b, i - 1, j - 1);
      assert SymmetricAt(a, b, i - 1, j - 1);
      SymmetryStep(a, b, i, j);
    }
  }

  lemma SymmetryStep(a: string, b: string, i: nat, j: nat)
    requires 0 < i <= |a| && 0 < j <= |b|
    requires SymmetricAt(a, b, i - 1, j)
    requires SymmetricAt(a, b, i, j - 1)
    requires SymmetricAt(a, b, i - 1, j - 1)
    ensures SymmetricAt(a, b, i, j)
  {
  }

  /** The distance is at least the difference of the lengths and at most the longer length. */
  lemma {:induction false} DistanceBounds(a: string, b: string, i: nat, j: nat)
    requires i <= |a| && j <= |b|
    ensures BoundedAt(a, b, i, j)
    decreases i, j
  {
    if i > 0 && j > 0 {
      DistanceBounds(a, b, i - 1, j);
      DistanceBounds(a, b, i, j - 1);
      DistanceBounds(a, b, i - 1, j - 1);
      BoundsStep(a, b, i, j);
    }
  }

  lemma BoundsStep(a: string, b: string, i: nat, j: nat)
    requires 0 < i <= |a| && 0 < j <= |b|
    requires BoundedAt(a, b, i - 1, j) && BoundedAt(a, b, i, j - 1) && BoundedAt(a, b, i - 1, j - 1)
    ensures BoundedAt(a, b, i, j)
  {
  }

  /** The distance is zero exactly when the two prefixes are equal. */
  lemma {:induction false} DistanceZeroIff(a: string, b: string, i: nat, j: nat)
    requires i <= |a| && j <= |b|
    ensures ZeroIffEqualAt(a, b, i, j)
    decreases i, j
  {
    if i == 0 || j == 0 {
      assert |a[..i]| == i && |b[..j]| == j;
    } else {
      DistanceZeroIff(a, b, i - 1, j - 1);
      ZeroIffStep(a, b, i, j);
    }
  }

  lemma ZeroIffStep(a: string, b: string, i: nat, j: nat)
    requires 0 < i <= |a| && 0 < j <= |b|
    requires ZeroIffEqualAt(a, b, i - 1, j - 1)
    ensures ZeroIffEqualAt(a, b, i, j)
  {
    assert a[..i] == a[..i - 1] + [a[i - 1]];
    assert b[..j] == b[..j - 1] + [b[j - 1]];
    if a[..i] == b[..j] {
      assert a[..i - 1] == a[..i][..i - 1] && b[..j - 1] == b[..j][..j - 1];
      assert a[i - 1] == a[..i][i - 1] && b[j - 1] == b[..j][j - 1];
    }
  }

  /** Levenshtein distance is symmetric, zero exactly on equal strings, and lies
      between the difference of the lengths and the longer length. */
  lemma EditDistanceFacts(a: string, b: string)
    ensures EditDistance(a, b) == EditDistance(b, a)
    ensures EditDistance(a, b) == 0 <==> a == b
    ensures |a| - |b| <= EditDistance(a, b) && |b| - |a| <= EditDistance(a, b)
    ensures EditDistance(a, b) <= Max(|a|, |b|)
  {
    DistanceSymmetric(a, b, |a|, |b|);
    DistanceZeroIff(a, b, |a|, |b|);
    assert a[..|a|] == a && b[..|b|] == b;
    DistanceBounds(a, b, |a|, |b|);
  }

  // ---------------------------------------------------------------------------
  // Normalisation

  /** What one character contributes to the simplified string. */
  function Keep(c: char): string {
    if IsLetterOrDigit(c) then [ToUpper(c)] else []
  }

  /** The letters and digits among the first n characters of s, upper-cased, in order. */
  function SimplifyPrefix(s: string, n: nat): (r: string)
    requires n <= |s|
    ensures |r| <= n
    ensures forall k :: 0 <= k < |r| ==> IsLetterOrDigit(r[k]) && r[k] == ToUpper(r[k])
  {
    if n == 0 then [] else SimplifyPrefix(s, n - 1) + Keep(s[n - 1])
  }

  /** Simplify: null is treated as the empty string. */
  function Simplify(input: Option<string>): (r: string)
    ensures input.None? ==> r == []
    ensures |r| <= |input.GetOr([])|
    ensures forall k :: 0 <= k < |r| ==> IsLetterOrDigit(r[k]) && r[k] == ToUpper(r[k])
  {
    var s := input.GetOr([]);
    SimplifyPrefix(s, |s|)
  }

  /** A string that is already simplified is left unchanged. */
  lemma {:induction false} SimplifyPrefixFixed(s: string, n: nat)
    requires n <= |s|
    requires forall k :: 0 <= k < |s| ==> IsLetterOrDigit(s[k]) && s[k] == ToUpper(s[k])
    ensures SimplifyPrefix(s, n) == s[..n]
  {
    if n > 0 {
      SimplifyPrefixFixed(s, n - 1);
      assert s[..n] == s[..n - 1] + [s[n - 1]];
    }
  }

  lemma SimplifyIdempotent(input: Option<string>)
    ensures Simplify(Some(Simplify(input))) == Simplify(input)
  {
    var r := Simplify(input);
    SimplifyPrefixFixed(r, |r|);
    assert r[..|r|] == r;
  }

  /** Simplification does not see case. */
  lemma {:induction false} SimplifyPrefixIgnoresCase(s: string, t: string, n: nat)
    requires n <= |s| && n <= |t|
    requires forall k :: 0 <= k < n ==> ToUpper(s[k]) == ToUpper(t[k])
    ensures SimplifyPrefix(s, n) == SimplifyPrefix(t, n)
  {
    if n > 0 {
      SimplifyPrefixIgnoresCase(s, t, n - 1);
      assert IsLetterOrDigit(s[n - 1]) == IsLetterOrDigit(ToUpper(s[n - 1]));
      assert IsLetterOrDigit(t[n - 1]) == IsLetterOrDigit(ToUpper(t[n - 1]));
    }
  }

  /** Strings that differ only in case simplify, and therefore score, alike. */
  lemma SimplifyIgnoresCase(s: string, t: string)
    requires |s| == |t|
    requires forall k :: 0 <= k < |s| ==> ToUpper(s[k]) == ToUpper(t[k])
    ensures Simplify(Some(s)) == Simplify(Some(t))
  {
    SimplifyPrefixIgnoresCase(s, t, |s|);
  }

  /** SimplifyPrefix(s, n) depends only on the first n characters. */
  lemma {:induction false} SimplifyPrefixLocal(s: string, t: string, n: nat)
    requires n <= |s| && n <= |t| && s[..n] == t[..n]
    ensures SimplifyPrefix(s, n) == SimplifyPrefix(t, n)
  {
    if n > 0 {
      assert s[..n - 1] == s[..n][..n - 1] && t[..n - 1] == t[..n][..n - 1];
      assert s[n - 1] == s[..n][n - 1] && t[n - 1] == t[..n][n - 1];
      SimplifyPrefixLocal(s, t, n - 1);
    }
  }

  lemma {:induction false} SimplifyPrefixAppend(s: string, t: string, k: nat)
    requires k <= |t|
    ensures SimplifyPrefix(s + t, |s| + k) == SimplifyPrefix(s, |s|) + SimplifyPrefix(t, k)
  {
    if k == 0 {
      assert (s + t)[..|s|] == s[..|s|];
      SimplifyPrefixLocal(s + t, s, |s|);
    } else {
      SimplifyPrefixAppend(s, t, k - 1);
      assert (s + t)[|s| + k - 1] == t[k - 1];
    }
  }

  /** Simplification distributes over concatenation. */
  lemma SimplifyAppend(s: string, t: string)
    ensures Simplify(Some(s + t)) == Simplify(Some(s)) + Simplify(Some(t))
  {
    SimplifyPrefixAppend(s, t, |t|);
  }

  lemma {:induction false} SimplifyPrefixAllKept(s: string, n: nat)
    requires n <= |s|
    requires forall k :: 0 <= k < |s| ==> IsLetterOrDigit(s[k])
    ensures SimplifyPrefix(s, n) == Fold(s[..n])
  {
    if n > 0 {
      SimplifyPrefixAllKept(s, n - 1);
      assert s[..n] == s[..n - 1] + [s[n - 1]];
      FoldAppend(s[..n - 1], [s[n - 1]]);
    }
  }

  /** A string of letters and digits simplifies to its upper-cased self. */
  lemma SimplifyLettersAndDigits(s: string)
    requires forall k :: 0 <= k < |s| ==> IsLetterOrDigit(s[k])
    ensures Simplify(Some(s)) == Fold(s)
  {
    SimplifyPrefixAllKept(s, |s|);
    assert s[..|s|] == s;
  }

  // ---------------------------------------------------------------------------
  // Score

  /** A similarity score: Exact stands for the double.MaxValue sentinel that
      the source returns for equal simplified strings. */
  datatype SimilarityScore = Exact | Approx(value: real)

  /** `score >= minScore` as the source compares doubles; the sentinel,
      double.MaxValue, passes every threshold. */
  predicate AtLeast(s: SimilarityScore, minScore: real): (r: bool)
    ensures s.Exact? ==> r
  {
    s.Exact? || s.value >= minScore
  }

  /** `s >= t`, the order used to sort results. The sentinel ranks first, and a
      score ranked at least as high as another passes every threshold that one passes. */
  predicate Geq(s: SimilarityScore, t: SimilarityScore): (r: bool)
    ensures s.Exact? ==> r
    ensures r ==> forall m: real :: AtLeast(t, m) ==> AtLeast(s, m)
  {
    s.Exact? || (t.Approx? && s.value >= t.value)
  }

  lemma GeqTotalPreorder(s: SimilarityScore, t: SimilarityScore, u: SimilarityScore)
    ensures Geq(s, s)
    ensures Geq(s, t) || Geq(t, s)
    ensures Geq(s, t) && Geq(t, u) ==> Geq(s, u)
    ensures Geq(s, t) && Geq(t, s) ==> s == t
  {
  }

  /** Mean length of two different strings; positive because they are not both empty. */
  function MeanLength(x: string, y: string): (mean: real)
    requires x != y
    ensures mean > 0.0
  {
    (|x| + |y|) as real / 2.0
  }

  /** The longer of two different strings' lengths; positive for the same reason. */
  function LongerLength(x: string, y: string): (high: nat)
    requires x != y
    ensures high > 0 && high >= |x| && high >= |y|
  {
    Max(|x|, |y|)
  }

  /** The length-ratio dampening factor max(min/max, 2/3). */
  function Modifier(x: string, y: string): (mod: real)
    requires x != y
    ensures 2.0 / 3.0 <= mod <= 1.0
  {
    var low := Min(|x|, |y|) as real;
    var high := LongerLength(x, y) as real;
    assert low / high * high == low;
    RMax(low / high, 2.0 / 3.0)
  }

  /** The unclamped score (mean - dist * mod) / mean; below 1 because different
      strings are at distance at least 1. */
  function RawScore(x: string, y: string): (raw: real)
    requires x != y
    ensures raw < 1.0
  {
    EditDistanceFacts(x, y);
    Dampened(EditDistance(x, y), MeanLength(x, y), Modifier(x, y))
  }

  /** (mean - dist * mod) / mean, which is below 1 once dist and mod are positive. */
  function Dampened(dist: nat, mean: real, mod: real): (raw: real)
    requires mean > 0.0 && dist >= 1 && mod > 0.0
    ensures raw < 1.0
  {
    var p := dist as real * mod;
    assert p == mod + (dist as real - 1.0) * mod;
    MulNonNegative(dist as real - 1.0, mod);
    DivBelowOne(mean, p);
    (mean - p) / mean
  }

  lemma DivBelowOne(mean: real, p: real)
    requires mean > 0.0 && p > 0.0
    ensures (mean - p) / mean < 1.0
  {
    assert (mean - p) / mean * mean == mean - p;
  }

  lemma MulNonNegative(x: real, y: real)
    requires x >= 0.0 && y >= 0.0
    ensures x * y >= 0.0
  {
  }

  /** The score of two different simplified strings, clamped to [0, 1]. */
  function Similarity(x: string, y: string): (r: real)
    requires x != y
    ensures 0.0 <= r < 1.0
  {
    RMin(RMax(RawScore(x, y), 0.0), 1.0)
  }

  /** The similarity of two strings after simplification: the exact-match sentinel when
      they simplify to the same string, otherwise a value in [0, 1). */
  function Score(a: Option<string>, b: Option<string>): (s: SimilarityScore)
    ensures s.Exact? <==> Simplify(a) == Simplify(b)
    ensures s.Approx? ==> 0.0 <= s.value < 1.0
  {
    var x, y := Simplify(a), Simplify(b);
    if x == y then Exact else Approx(Similarity(x, y))
  }

  lemma ScoreSymmetric(a: Option<string>, b: Option<string>)
    ensures Score(a, b) == Score(b, a)
  {
    var x, y := Simplify(a), Simplify(b);
    if x != y {
      RawScoreSymmetric(x, y);
    }
  }

  lemma RawScoreSymmetric(x: string, y: string)
    requires x != y
    ensures RawScore(x, y) == RawScore(y, x)
  {
    EditDistanceFacts(x, y);
    ModifierSymmetric(x, y);
    assert MeanLength(x, y) == MeanLength(y, x);
  }

  lemma ModifierSymmetric(x: string, y: string)
    requires x != y
    ensures Modifier(x, y) == Modifier(y, x)
  {
    assert Min(|x|, |y|) == Min(|y|, |x|);
    assert LongerLength(x, y) == LongerLength(y, x);
  }

  /** A non-empty simplified string scores exactly 0 against an empty one. */
  lemma ScoreAgainstEmpty(a: Option<string>, b: Option<string>)
    requires Simplify(a) != [] && Simplify(b) == []
    ensures Score(a, b) == Approx(0.0)
  {
    var x, y := Simplify(a), Simplify(b);
    assert EditDistance(x, y) == |x|;
    assert Modifier(x, y) == 2.0 / 3.0;
    DampenedAgainstEmpty(|x|, MeanLength(x, y));
  }

  /** Against an empty string the distance is n and the mean n / 2: the raw score is -1/3. */
  lemma DampenedAgainstEmpty(n: nat, h: real)
    requires n >= 1 && h == n as real / 2.0
    ensures Dampened(n, h, 2.0 / 3.0) == -1.0 / 3.0
  {
    assert n as real * (2.0 / 3.0) == h * (4.0 / 3.0);
    assert h - h * (4.0 / 3.0) == -1.0 / 3.0 * h;
    assert (-1.0 / 3.0 * h) / h == -1.0 / 3.0;
  }
}
