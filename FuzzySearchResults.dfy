/** Fuzzy search results and the list that collects them. */
module FuzzySearchResults {
  import opened Wrappers
  import opened StringUtils

  /** One result: the element's position in the searched sequence, the element, and its score. */
  datatype FuzzySearchResult<T> = FuzzySearchResult(Index: nat, Value: T, Score: SimilarityScore)

  /** A list of results; the C# class derives from List, whose contents are Items here. */
  class FuzzySearchResultCollection<T> {
    var Items: seq<FuzzySearchResult<T>>

    /** The parameterless constructor: an empty list. */
    constructor Empty()
      ensures Items == []
    {
      Items := [];
    }

    /** Copies the given results in order; null gives an empty list. */
    constructor (items: Option<seq<FuzzySearchResult<T>>>)
      ensures items.None? ==> Items == []
      ensures items.Some? ==> Items == items.value
    {
      Items := [];
      new;
      if items.Some? {
        var k := 0;
        while k < |items.value|
          invariant 0 <= k <= |items.value|
          invariant Items == items.value[..k]
        {
          Add(items.value[k]);
          k := k + 1;
        }
      }
    }

    /** List.Add: appends one result. */
    method Add(item: FuzzySearchResult<T>)
      modifies this
      ensures Items == old(Items) + [item]
    {
      Items := Items + [item];
    }
  }
}
