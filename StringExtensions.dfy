/** Extension methods on strings: null/empty tests, case-insensitive equality and
    containment, and the text before or after the first match of a search string. */
module StringExtensions {
  import opened Wrappers
  import opened Chars

  function IsNullOrEmpty(input: Option<string>): (r: bool)
    ensures r <==> input.None? || input.value == []
  {
    match input
    case None => true
    case Some(s) => |s| == 0
  }

  function IsNullOrWhiteSpace(input: Option<string>): (r: bool)
    ensures r <==> input.None? || forall k :: 0 <= k < |input.value| ==> IsWhiteSpace(input.value[k])
    ensures IsNullOrEmpty(input) ==> r
  {
    match input
    case None => true
    case Some(s) => AllWhiteSpace(s)
  }

  function AllWhiteSpace(s: string): (r: bool)
    ensures r <==> forall k :: 0 <= k < |s| ==> IsWhiteSpace(s[k])
  {
    if s == [] then true
    else IsWhiteSpace(s[0]) && AllWhiteSpace(s[1..])
  }

  /** Two present strings that agree once case-folded. */
  predicate SameIgnoringCase(a: string, b: string) {
    Fold(a) == Fold(b)
  }

  /** string.Equals with a case-insensitive comparison: null equals only null. */
  function EqualsIgnoreCase(instance: Option<string>, value: Option<string>): (r: bool)
    ensures instance.None? || value.None? ==> (r <==> instance.None? && value.None?)
    ensures instance.Some? && value.Some? ==> (r <==> SameIgnoringCase(instance.value, value.value))
  {
    match (instance, value)
    case (Some(a), Some(b)) => Fold(a) == Fold(b)
    case _ => instance.None? && value.None?
  }

  /** EqualsIgnoreCase is an equivalence, and it holds between equal strings. */
  lemma EqualsIgnoreCaseEquivalence(a: Option<string>, b: Option<string>, c: Option<string>)
    ensures EqualsIgnoreCase(a, a)
    ensures EqualsIgnoreCase(a, b) == EqualsIgnoreCase(b, a)
    ensures EqualsIgnoreCase(a, b) && EqualsIgnoreCase(b, c) ==> EqualsIgnoreCase(a, c)
  {
  }

  /** Strings of different lengths are never equal ignoring case, and a string equals
      its own case-folded form. */
  lemma EqualsIgnoreCaseLength(a: string, b: string)
    ensures EqualsIgnoreCase(Some(a), Some(b)) ==> |a| == |b|
    ensures EqualsIgnoreCase(Some(a), Some(Fold(a)))
  {
    FoldIdempotent(a);
  }

  /** Whether search matches input at position i, with or without case-folding. */
  predicate MatchesAt(input: string, search: string, i: nat, ignoreCase: bool)
    requires i + |search| <= |input|
  {
    if ignoreCase then SameIgnoringCase(input[i..i + |search|], search)
    else input[i..i + |search|] == search
  }

  /** The first match of search in input at or after position from, or -1. */
  function IndexOfFrom(input: string, search: string, ignoreCase: bool, from: nat): (r: int)
    requires from <= |input|
    ensures r == -1 || (from <= r && r + |search| <= |input| && MatchesAt(input, search, r, ignoreCase))
    ensures r >= 0 ==> forall i :: from <= i < r ==> !MatchesAt(input, search, i, ignoreCase)
    ensures r == -1 ==> forall i :: from <= i && i + |search| <= |input| ==> !MatchesAt(input, search, i, ignoreCase)
    decreases |input| - from
  {
    if from + |search| > |input| then -1
    else if MatchesAt(input, search, from, ignoreCase) then from
    else IndexOfFrom(input, search, ignoreCase, from + 1)
  }

  /** string.IndexOf: the first position where search matches input, or -1. */
  function IndexOf(input: string, search: string, ignoreCase: bool): (r: int)
    ensures r == -1 || (0 <= r && r + |search| <= |input| && MatchesAt(input, search, r, ignoreCase))
    ensures r >= 0 ==> forall i :: 0 <= i < r ==> !MatchesAt(input, search, i, ignoreCase)
    ensures r == -1 <==> forall i :: 0 <= i && i + |search| <= |input| ==> !MatchesAt(input, search, i, ignoreCase)
  {
    IndexOfFrom(input, search, ignoreCase, 0)
  }

  /** ContainsIgnoreCase: a null on either side matches only a null on the other. */
  function ContainsIgnoreCase(input: Option<string>, substringValue: Option<string>): (r: bool)
    ensures input.None? || substringValue.None? ==> (r <==> input.None? && substringValue.None?)
    ensures input.Some? && substringValue.Some? ==>
      (r <==> exists i :: 0 <= i && i + |substringValue.value| <= |input.value|
                && MatchesAt(input.value, substringValue.value, i, true))
  {
    if input.None? || substringValue.None? then input == substringValue
    else IndexOf(input.value, substringValue.value, true) >= 0
  }

  /** The empty string is contained in every string; a string contains itself in any case. */
  lemma ContainsEmptyAndSelf(input: string)
    ensures ContainsIgnoreCase(Some(input), Some(""))
    ensures ContainsIgnoreCase(Some(input), Some(Fold(input)))
  {
    assert SameIgnoringCase(input[0..0], "");
    assert input[0..|input|] == input;
    FoldIdempotent(input);
    assert SameIgnoringCase(input[0..|Fold(input)|], Fold(input));
  }

  /** Containment does not depend on the case of either side. */
  lemma ContainsIgnoresCase(input: string, substringValue: string)
    ensures ContainsIgnoreCase(Some(input), Some(substringValue))
        == ContainsIgnoreCase(Some(Fold(input)), Some(Fold(substringValue)))
  {
    forall i | 0 <= i && i + |substringValue| <= |input|
      ensures MatchesAt(input, substringValue, i, true) == MatchesAt(Fold(input), Fold(substringValue), i, true)
    {
      MatchesAtFold(input, substringValue, i);
    }
  }

  lemma MatchesAtFold(input: string, search: string, i: nat)
    requires i + |search| <= |input|
    ensures MatchesAt(input, search, i, true) == MatchesAt(Fold(input), Fold(search), i, true)
  {
    FoldIdempotent(search);
    FoldSlice(input, i, i + |search|);
    FoldIdempotent(input[i..i + |search|]);
  }

  /** The text before the first match of search; the input itself when search is
      null or empty, or when there is no match. */
  function Before(input: Option<string>, search: Option<string>, ignoreCase: bool): (r: Option<string>)
    ensures IsNullOrEmpty(search) || input.None? ==> r == input
    ensures input.Some? ==> r.Some? && r.value <= input.value
  {
    if IsNullOrEmpty(search) || input.None? then input
    else
      var idx := IndexOf(input.value, search.value, ignoreCase);
      if idx >= 0 then Some(input.value[..idx]) else input
  }

  /** The text after the first match of search, under the same conventions as Before. */
  function After(input: Option<string>, search: Option<string>, ignoreCase: bool): (r: Option<string>)
    ensures IsNullOrEmpty(search) || input.None? ==> r == input
    ensures input.Some? ==>
      r.Some? && |r.value| <= |input.value| && r.value == input.value[|input.value| - |r.value|..]
  {
    if IsNullOrEmpty(search) || input.None? then input
    else
      var idx := IndexOf(input.value, search.value, ignoreCase);
      if idx >= 0 then Some(input.value[idx + |search.value|..]) else input
  }

  /** When search first matches at idx, Before is what precedes the match and After
      what follows it. */
  lemma BeforeAfterFirstMatch(input: string, search: string, ignoreCase: bool, idx: nat)
    requires search != []
    requires idx + |search| <= |input| && MatchesAt(input, search, idx, ignoreCase)
    requires forall i :: 0 <= i < idx ==> !MatchesAt(input, search, i, ignoreCase)
    ensures Before(Some(input), Some(search), ignoreCase) == Some(input[..idx])
    ensures After(Some(input), Some(search), ignoreCase) == Some(input[idx + |search|..])
  {
    assert IndexOf(input, search, ignoreCase) == idx;
  }

  /** Without a match, both return the input unchanged. */
  lemma BeforeAfterNoMatch(input: string, search: string, ignoreCase: bool)
    requires forall i :: 0 <= i && i + |search| <= |input| ==> !MatchesAt(input, search, i, ignoreCase)
    ensures Before(Some(input), Some(search), ignoreCase) == Some(input)
    ensures After(Some(input), Some(search), ignoreCase) == Some(input)
  {
  }

  /** With a case-sensitive match of a non-empty search string, the text before, the
      search string and the text after put the input back together. (An empty search
      string leaves both sides unchanged, so it is excluded.) */
  lemma BeforeAfterRoundTrip(input: string, search: string, i: nat)
    requires search != []
    requires i + |search| <= |input| && input[i..i + |search|] == search
    ensures Before(Some(input), Some(search), false).value + search
          + After(Some(input), Some(search), false).value == input
  {
    var idx := IndexOf(input, search, false);
    assert idx != -1 by {
      assert MatchesAt(input, search, i, false);
    }
    assert input == input[..idx] + input[idx..idx + |search|] + input[idx + |search|..];
  }
}
