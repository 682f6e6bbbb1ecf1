/** FuzzySearch: score every element of a sequence against a value, keep those at or
    above a threshold, and rank them best first. */
module FuzzyCollectionExtensions {
  import opened Wrappers
  import opened StringUtils
  import opened FuzzyStringExtensions
  import opened FuzzySearchResults

  /** The converter FuzzySearch uses: the caller's, or else the element's text with
      null turned into "". `toText` stands for `x?.ToString()`. */
  function Converter<T>(converter: Option<T -> Option<string>>, toText: T -> Option<string>): (f: T -> Option<string>)
    ensures converter.Some? ==> f == converter.value
  {
    if converter.Some? then converter.value else x => Some(toText(x).GetOr(""))
  }

  /** The default converter never yields null: a null element or text becomes "". */
  lemma DefaultConverterText<T>(toText: T -> Option<string>, x: T)
    ensures Converter(None, toText)(x).Some?
    ensures toText(x).Some? ==> Converter(None, toText)(x) == toText(x)
    ensures toText(x).None? ==> Converter(None, toText)(x) == Some("")
  {
  }

  /** The array built by the `select`: element i paired with index i and its score. */
  function Indexed<T>(objects: seq<T>, value: Option<string>, f: T -> Option<string>): (r: seq<FuzzySearchResult<T>>)
    ensures |r| == |objects|
    ensures forall i :: 0 <= i < |r| ==> r[i] == FuzzySearchResult(i, objects[i], Score(value, f(objects[i])))
  {
    seq(|objects|, i requires 0 <= i < |objects| => FuzzySearchResult(i, objects[i], Score(value, f(objects[i]))))
  }

  /** The `select ... ToArray()` step, with the running counter `idx`. */
  method ScoreAll<T>(objects: seq<T>, value: Option<string>, f: T -> Option<string>) returns (results: seq<FuzzySearchResult<T>>)
    ensures results == Indexed(objects, value, f)
  {
    results := [];
    var idx := 0;
    while idx < |objects|
      invariant 0 <= idx <= |objects|
      invariant |results| == idx
      invariant forall i :: 0 <= i < idx ==> results[i] == FuzzySearchResult(i, objects[i], Score(value, f(objects[i])))
    {
      results := results + [FuzzySearchResult(idx, objects[idx], Score(value, f(objects[idx])))];
      idx := idx + 1;
    }
  }

  predicate IncreasingIndices<T>(s: seq<FuzzySearchResult<T>>) {
    forall i, j :: 0 <= i < j < |s| ==> s[i].Index < s[j].Index
  }

  /** The `Where` step: the results scoring at least minScore, in their original order. */
  function WhereAtLeast<T>(s: seq<FuzzySearchResult<T>>, minScore: real): (r: seq<FuzzySearchResult<T>>)
    ensures |r| <= |s|
    ensures forall k :: 0 <= k < |r| ==> r[k] in s && AtLeast(r[k].Score, minScore)
    ensures forall k :: 0 <= k < |s| && AtLeast(s[k].Score, minScore) ==> s[k] in r
  {
    if s == [] then []
    else if AtLeast(s[0].Score, minScore) then
      [s[0]] + WhereAtLeast(s[1..], minScore)
    else WhereAtLeast(s[1..], minScore)
  }

  /** The filter keeps the original order. */
  lemma {:induction false} WhereKeepsOrder<T>(s: seq<FuzzySearchResult<T>>, minScore: real)
    requires IncreasingIndices(s)
    ensures IncreasingIndices(WhereAtLeast(s, minScore))
  {
    if s != [] {
      WhereKeepsOrder(s[1..], minScore);
      if AtLeast(s[0].Score, minScore) {
        WhereAbove(s[1..], minScore, s[0].Index);
        ConsIncreasing(s[0], WhereAtLeast(s[1..], minScore));
      }
    }
  }

  predicate IndicesAbove<T>(s: seq<FuzzySearchResult<T>>, bound: nat) {
    forall k :: 0 <= k < |s| ==> bound < s[k].Index
  }

  lemma {:induction false} WhereAbove<T>(s: seq<FuzzySearchResult<T>>, minScore: real, bound: nat)
    requires IncreasingIndices(s) && (s != [] ==> bound < s[0].Index)
    ensures IndicesAbove(WhereAtLeast(s, minScore), bound)
  {
    if s != [] {
      if |s| > 1 {
        assert s[0].Index < s[1].Index;
      }
      WhereAbove(s[1..], minScore, bound);
    }
  }

  lemma ConsIncreasing<T>(x: FuzzySearchResult<T>, rest: seq<FuzzySearchResult<T>>)
    requires IncreasingIndices(rest) && IndicesAbove(rest, x.Index)
    ensures IncreasingIndices([x] + rest)
  {
    var r := [x] + rest;
    forall i, j | 0 <= i < j < |r|
      ensures r[i].Index < r[j].Index
    {
      assert r[j] == rest[j - 1];
      if i > 0 {
        assert r[i] == rest[i - 1];
      }
    }
  }

  /** Inserts x into a list ranked best first, ahead of every result it scores at
      least as well as: this is what makes the sort stable. */
  function Insert<T>(x: FuzzySearchResult<T>, s: seq<FuzzySearchResult<T>>): (r: seq<FuzzySearchResult<T>>)
    ensures multiset(r) == multiset(s) + multiset{x}
  {
    if s == [] then [x]
    else if Geq(x.Score, s[0].Score) then [x] + s
    else
      assert s == [s[0]] + s[1..];
      [s[0]] + Insert(x, s[1..])
  }

  /** The `OrderByDescending` step, as a stable insertion sort. */
  function SortByScoreDescending<T>(s: seq<FuzzySearchResult<T>>): (r: seq<FuzzySearchResult<T>>)
    ensures multiset(r) == multiset(s)
  {
    if s == [] then []
    else
      assert s == [s[0]] + s[1..];
      Insert(s[0], SortByScoreDescending(s[1..]))
  }

  predicate SortedByScore<T>(s: seq<FuzzySearchResult<T>>) {
    forall i, j :: 0 <= i < j < |s| ==> Geq(s[i].Score, s[j].Score)
  }

  /** Results with equal scores appear in ascending index order. */
  predicate TiesByIndex<T>(s: seq<FuzzySearchResult<T>>) {
    forall i, j :: 0 <= i < j < |s| && s[i].Score == s[j].Score ==> s[i].Index < s[j].Index
  }

  lemma InMultiset<T>(e: T, s: seq<T>, t: seq<T>)
    requires multiset(s) == multiset(t)
    ensures e in s <==> e in t
  {
    assert e in s <==> e in multiset(s);
    assert e in t <==> e in multiset(t);
  }

  lemma InInsert<T>(e: FuzzySearchResult<T>, x: FuzzySearchResult<T>, s: seq<FuzzySearchResult<T>>)
    ensures e in Insert(x, s) <==> e == x || e in s
  {
    var r := Insert(x, s);
    assert e in r <==> e in multiset(r);
    assert e in s <==> e in multiset(s);
  }

  lemma {:induction false} InsertSorted<T>(x: FuzzySearchResult<T>, s: seq<FuzzySearchResult<T>>)
    requires SortedByScore(s)
    ensures SortedByScore(Insert(x, s))
  {
    if s != [] && !Geq(x.Score, s[0].Score) {
      var t := Insert(x, s[1..]);
      InsertSorted(x, s[1..]);
      forall k | 0 <= k < |t|
        ensures Geq(s[0].Score, t[k].Score)
      {
        InInsert(t[k], x, s[1..]);
        GeqTotalPreorder(s[0].Score, x.Score, x.Score);
      }
    }
  }

  lemma {:induction false} InsertTies<T>(x: FuzzySearchResult<T>, s: seq<FuzzySearchResult<T>>)
    requires TiesByIndex(s)
    requires forall e :: e in s ==> x.Index < e.Index
    ensures TiesByIndex(Insert(x, s))
  {
    if s != [] && !Geq(x.Score, s[0].Score) {
      var t := Insert(x, s[1..]);
      InsertTies(x, s[1..]);
      forall k | 0 <= k < |t| && s[0].Score == t[k].Score
        ensures s[0].Index < t[k].Index
      {
        InInsert(t[k], x, s[1..]);
        GeqTotalPreorder(x.Score, x.Score, x.Score);
        var j :| 0 <= j < |s[1..]| && s[1..][j] == t[k];
        assert s[j + 1] == t[k];
      }
    }
  }

  /** The sort ranks best first, and keeps ties in their original order. */
  lemma {:induction false} SortFacts<T>(s: seq<FuzzySearchResult<T>>)
    requires IncreasingIndices(s)
    ensures SortedByScore(SortByScoreDescending(s))
    ensures TiesByIndex(SortByScoreDescending(s))
  {
    if s != [] {
      var t := SortByScoreDescending(s[1..]);
      SortFacts(s[1..]);
      InsertSorted(s[0], t);
      forall e | e in t
        ensures s[0].Index < e.Index
      {
        InMultiset(e, t, s[1..]);
      }
      InsertTies(s[0], t);
    }
  }

  /** The whole pipeline: score, filter, sort. At most one result per element. */
  function Ranked<T>(objects: seq<T>, value: Option<string>, minScore: real, f: T -> Option<string>): (r: seq<FuzzySearchResult<T>>)
    ensures |r| <= |objects|
  {
    var kept := WhereAtLeast(Indexed(objects, value, f), minScore);
    var sorted := SortByScoreDescending(kept);
    assert |sorted| == |multiset(sorted)| == |multiset(kept)| == |kept|;
    sorted
  }

  /** Every ranked result is an element of the input, at its own index, with its own
      score, and that score reaches the threshold. */
  lemma RankedMembers<T>(objects: seq<T>, value: Option<string>, minScore: real, f: T -> Option<string>)
    ensures var r := Ranked(objects, value, minScore, f);
      forall k :: 0 <= k < |r| ==>
        r[k].Index < |objects| && r[k].Value == objects[r[k].Index]
        && r[k].Score == Score(value, f(objects[r[k].Index]))
        && AtLeast(r[k].Score, minScore)
  {
    var all := Indexed(objects, value, f);
    var kept := WhereAtLeast(all, minScore);
    var r := SortByScoreDescending(kept);
    forall k | 0 <= k < |r|
      ensures r[k] in all && AtLeast(r[k].Score, minScore)
    {
      InMultiset(r[k], r, kept);
    }
    assert r == Ranked(objects, value, minScore, f);
  }

  /** No element is ranked twice. */
  lemma RankedDistinct<T>(objects: seq<T>, value: Option<string>, minScore: real, f: T -> Option<string>)
    ensures var r := Ranked(objects, value, minScore, f);
      forall k, l :: 0 <= k < l < |r| ==> r[k].Index != r[l].Index
  {
    RankedMembers(objects, value, minScore, f);
    RankedOrder(objects, value, minScore, f);
  }

  /** Every element whose score reaches the threshold is ranked. */
  lemma RankedComplete<T>(objects: seq<T>, value: Option<string>, minScore: real, f: T -> Option<string>,
                          i: nat)
    requires i < |objects| && AtLeast(Score(value, f(objects[i])), minScore)
    ensures exists k :: 0 <= k < |Ranked(objects, value, minScore, f)|
                     && Ranked(objects, value, minScore, f)[k].Index == i
  {
    var all := Indexed(objects, value, f);
    var kept := WhereAtLeast(all, minScore);
    var r := SortByScoreDescending(kept);
    assert all[i] in kept;
    InMultiset(all[i], r, kept);
    var k :| 0 <= k < |r| && r[k] == all[i];
    assert r == Ranked(objects, value, minScore, f);
  }

  /** The ranking is best first, and ties keep their original order. */
  lemma RankedOrder<T>(objects: seq<T>, value: Option<string>, minScore: real, f: T -> Option<string>)
    ensures SortedByScore(Ranked(objects, value, minScore, f))
    ensures TiesByIndex(Ranked(objects, value, minScore, f))
  {
    var all := Indexed(objects, value, f);
    assert IncreasingIndices(all);
    WhereKeepsOrder(all, minScore);
    SortFacts(WhereAtLeast(all, minScore));
  }

  /** FuzzySearch: a null sequence or an out-of-range threshold is rejected; otherwise a
      new collection holds the ranked results. */
  method FuzzySearch<T>(objects: Option<seq<T>>, value: Option<string>, minScore: real,
                        converter: Option<T -> Option<string>>, toText: T -> Option<string>)
    returns (r: Result<FuzzySearchResultCollection<T>>)
    ensures objects.None? ==> r == Err(ArgumentNull("objects"))
    ensures objects.Some? && !ValidMinScore(minScore) ==> r == Err(ArgumentOutOfRange("minScore"))
    ensures objects.Some? && ValidMinScore(minScore) ==>
      r.Ok? && fresh(r.value) && r.value.Items == Ranked(objects.value, value, minScore, Converter(converter, toText))
  {
    if objects.None? {
      return Err(ArgumentNull("objects"));
    }
    if minScore < 0.0 || minScore > 1.0 {
      return Err(ArgumentOutOfRange("minScore"));
    }
    var f := Converter(converter, toText);
    var scored := ScoreAll(objects.value, value, f);
    var ranked := SortByScoreDescending(WhereAtLeast(scored, minScore));
    var c := new FuzzySearchResultCollection(Some(ranked));
    return Ok(c);
  }

  /** The overload without a threshold searches at 2/3. */
  method FuzzySearchDefault<T>(objects: Option<seq<T>>, value: Option<string>,
                               converter: Option<T -> Option<string>>, toText: T -> Option<string>)
    returns (r: Result<FuzzySearchResultCollection<T>>)
    ensures objects.None? ==> r == Err(ArgumentNull("objects"))
    ensures objects.Some? ==>
      r.Ok? && fresh(r.value) && r.value.Items == Ranked(objects.value, value, 2.0 / 3.0, Converter(converter, toText))
  {
    r := FuzzySearch(objects, value, DefaultMinScore, converter, toText);
  }

  // ---------------------------------------------------------------------------
  // The range guard on a double threshold

  /** The `Where` step on a double threshold: the results whose score passes it, in order. */
  function WherePasses<T>(s: seq<FuzzySearchResult<T>>, minScore: Threshold): (r: seq<FuzzySearchResult<T>>)
    ensures minScore.Real? ==> r == WhereAtLeast(s, minScore.r)
    ensures minScore.NaN? ==> r == []
  {
    if s == [] then []
    else if Passes(s[0].Score, minScore) then [s[0]] + WherePasses(s[1..], minScore)
    else WherePasses(s[1..], minScore)
  }

  /** The search as written, on a double threshold: on a real threshold it is the
      search above, and a NaN threshold passes the guard and finds nothing. */
  function SearchAsWritten<T>(objects: Option<seq<T>>, value: Option<string>, minScore: Threshold,
                              f: T -> Option<string>): (r: Result<seq<FuzzySearchResult<T>>>)
    ensures objects.None? ==> r == Err(ArgumentNull("objects"))
    ensures objects.Some? && minScore.Real? && !ValidMinScore(minScore.r) ==> r == Err(ArgumentOutOfRange("minScore"))
    ensures objects.Some? && minScore.Real? && ValidMinScore(minScore.r) ==> r == Ok(Ranked(objects.value, value, minScore.r, f))
    ensures objects.Some? && minScore.NaN? ==> r == Ok([])
  {
    if objects.None? then Err(ArgumentNull("objects"))
    else if RejectedAsWritten(minScore) then Err(ArgumentOutOfRange("minScore"))
    else Ok(SortByScoreDescending(WherePasses(Indexed(objects.value, value, f), minScore)))
  }

  /** Searching ["goo"] for "goo" at threshold NaN raises no error and finds nothing,
      although the element matches exactly. */
  lemma NaNSearchFindsNothing()
    ensures Score(Some("goo"), Some("goo")) == Exact
    ensures SearchAsWritten(Some([Some("goo")]), Some("goo"), NaN, (x: Option<string>) => x) == Ok([])
  {
  }

  /** The search with the intended guard: NaN is rejected like any other out-of-range
      threshold, and every accepted threshold ranks as the search above. */
  function SearchGuarded<T>(objects: Option<seq<T>>, value: Option<string>, minScore: Threshold,
                            f: T -> Option<string>): (r: Result<seq<FuzzySearchResult<T>>>)
    ensures objects.None? ==> r == Err(ArgumentNull("objects"))
    ensures objects.Some? && Rejected(minScore) ==> r == Err(ArgumentOutOfRange("minScore"))
    ensures objects.Some? && !Rejected(minScore) ==> r == Ok(Ranked(objects.value, value, minScore.r, f))
  {
    if objects.None? then Err(ArgumentNull("objects"))
    else if Rejected(minScore) then Err(ArgumentOutOfRange("minScore"))
    else Ok(SortByScoreDescending(WherePasses(Indexed(objects.value, value, f), minScore)))
  }

  /** With the intended guard, a search that succeeds finds every element that
      simplifies to the same string as the value. */
  lemma GuardedSearchFindsExact<T>(objects: seq<T>, value: Option<string>, minScore: Threshold,
                                   f: T -> Option<string>, i: nat)
    requires SearchGuarded(Some(objects), value, minScore, f).Ok?
    requires i < |objects| && Simplify(f(objects[i])) == Simplify(value)
    ensures var r := SearchGuarded(Some(objects), value, minScore, f).value;
      exists k :: 0 <= k < |r| && r[k].Index == i
  {
    RankedComplete(objects, value, minScore.r, f, i);
  }
}

