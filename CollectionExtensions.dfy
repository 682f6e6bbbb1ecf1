/** Extension methods on collections: case-insensitive membership and de-duplication
    of string sequences, appending a sequence to a collection, and batching. */
module CollectionExtensions {
  import opened Wrappers
  import opened StringExtensions

  /** Whether some element of s equals value ignoring case (elements may be null). */
  function AnyEqualsIgnoreCase(s: seq<Option<string>>, value: Option<string>): (r: bool)
    ensures r <==> exists k :: 0 <= k < |s| && EqualsIgnoreCase(s[k], value)
  {
    if s == [] then false
    else EqualsIgnoreCase(s[0], value) || AnyEqualsIgnoreCase(s[1..], value)
  }

  /** ContainsIgnoreCase: false for a null source. */
  function ContainsIgnoreCase(source: Option<seq<Option<string>>>, value: Option<string>): (r: bool)
    ensures source.None? ==> !r
    ensures source.Some? ==> (r <==> exists k :: 0 <= k < |source.value| && EqualsIgnoreCase(source.value[k], value))
  {
    source.Some? && AnyEqualsIgnoreCase(source.value, value)
  }

  /** No two elements of r are equal ignoring case. */
  predicate PairwiseDistinct(r: seq<Option<string>>) {
    forall i, j :: 0 <= i < j < |r| ==> !EqualsIgnoreCase(r[i], r[j])
  }

  /** Every element of t has an equal-ignoring-case counterpart in r. */
  predicate Covers(r: seq<Option<string>>, t: seq<Option<string>>) {
    forall i :: 0 <= i < |t| ==> AnyEqualsIgnoreCase(r, t[i])
  }

  /** Distinct with a case-insensitive comparer, on the first n elements of s: each
      element is kept unless an equal one was kept before it. */
  function DistinctPrefix(s: seq<Option<string>>, n: nat): (r: seq<Option<string>>)
    requires n <= |s|
    ensures forall k :: 0 <= k < |r| ==> r[k] in s[..n]
    ensures PairwiseDistinct(r)
    ensures Covers(r, s[..n])
  {
    if n == 0 then []
    else
      var d := DistinctPrefix(s, n - 1);
      assert s[..n] == s[..n - 1] + [s[n - 1]];
      if AnyEqualsIgnoreCase(d, s[n - 1]) then
        CoversAppendCovered(d, s[..n - 1], s[n - 1]);
        d
      else
        KeepDistinct(d, s[..n - 1], s[n - 1]);
        d + [s[n - 1]]
  }

  lemma CoversAppendCovered(d: seq<Option<string>>, t: seq<Option<string>>, x: Option<string>)
    requires Covers(d, t) && AnyEqualsIgnoreCase(d, x)
    ensures Covers(d, t + [x])
  {
    assert forall i :: 0 <= i < |t| ==> (t + [x])[i] == t[i];
  }

  lemma KeepDistinct(d: seq<Option<string>>, t: seq<Option<string>>, x: Option<string>)
    requires PairwiseDistinct(d) && Covers(d, t) && !AnyEqualsIgnoreCase(d, x)
    ensures PairwiseDistinct(d + [x])
    ensures Covers(d + [x], t + [x])
  {
    var r := d + [x];
    forall i, j | 0 <= i < j < |r|
      ensures !EqualsIgnoreCase(r[i], r[j])
    {
      if j == |d| {
        assert r[i] == d[i];
      } else {
        assert r[i] == d[i] && r[j] == d[j];
      }
    }
    forall i | 0 <= i < |t + [x]|
      ensures AnyEqualsIgnoreCase(r, (t + [x])[i])
    {
      if i < |t| {
        assert (t + [x])[i] == t[i];
        var k :| 0 <= k < |d| && EqualsIgnoreCase(d[k], t[i]);
        assert r[k] == d[k];
      } else {
        EqualsIgnoreCaseEquivalence(x, x, x);
        assert r[|d|] == x;
      }
    }
  }

  /** What DistinctPrefix has kept matches a value exactly when some element of the
      prefix it was built from does. */
  lemma AnyEqualsInPrefix(s: seq<Option<string>>, n: nat, x: Option<string>)
    requires n <= |s|
    ensures AnyEqualsIgnoreCase(DistinctPrefix(s, n), x) <==> AnyEqualsIgnoreCase(s[..n], x)
  {
    AnyEqualsCovered(DistinctPrefix(s, n), s[..n], x);
  }

  lemma AnyEqualsCovered(d: seq<Option<string>>, t: seq<Option<string>>, x: Option<string>)
    requires forall k :: 0 <= k < |d| ==> d[k] in t
    requires Covers(d, t)
    ensures AnyEqualsIgnoreCase(d, x) <==> AnyEqualsIgnoreCase(t, x)
  {
    if AnyEqualsIgnoreCase(d, x) {
      var k :| 0 <= k < |d| && EqualsIgnoreCase(d[k], x);
      MemberMatches(t, d[k], x);
    }
    if AnyEqualsIgnoreCase(t, x) {
      var j :| 0 <= j < |t| && EqualsIgnoreCase(t[j], x);
      assert AnyEqualsIgnoreCase(d, t[j]);
      CoveredMatches(d, t[j], x);
    }
  }

  lemma MemberMatches(t: seq<Option<string>>, y: Option<string>, x: Option<string>)
    requires y in t && EqualsIgnoreCase(y, x)
    ensures AnyEqualsIgnoreCase(t, x)
  {
    var j :| 0 <= j < |t| && t[j] == y;
  }

  lemma CoveredMatches(d: seq<Option<string>>, y: Option<string>, x: Option<string>)
    requires AnyEqualsIgnoreCase(d, y) && EqualsIgnoreCase(y, x)
    ensures AnyEqualsIgnoreCase(d, x)
  {
    var k :| 0 <= k < |d| && EqualsIgnoreCase(d[k], y);
    EqualsIgnoreCaseEquivalence(d[k], y, x);
  }

  /** Element n is kept exactly when no earlier element equals it ignoring case: the
      result holds the first member of each class, in the order of the source. */
  lemma DistinctKeepsFirstOccurrences(s: seq<Option<string>>, n: nat)
    requires n < |s|
    ensures DistinctPrefix(s, n + 1) ==
      if AnyEqualsIgnoreCase(s[..n], s[n]) then DistinctPrefix(s, n) else DistinctPrefix(s, n) + [s[n]]
  {
    AnyEqualsInPrefix(s, n, s[n]);
  }

  /** DistinctIgnoreCase: null for a null source. */
  function DistinctIgnoreCase(source: Option<seq<Option<string>>>): (r: Option<seq<Option<string>>>)
    ensures source.None? <==> r.None?
    ensures source.Some? ==>
      (forall k :: 0 <= k < |r.value| ==> r.value[k] in source.value)
      && PairwiseDistinct(r.value)
      && (forall i :: 0 <= i < |source.value| ==> ContainsIgnoreCase(r, source.value[i]))
  {
    match source
    case None => None
    case Some(s) =>
      assert s[..|s|] == s;
      Some(DistinctPrefix(s, |s|))
  }

  /** A collection that elements can be added to (ICollection). */
  class Collection<T> {
    var Items: seq<T>

    constructor ()
      ensures Items == []
    {
      Items := [];
    }

    method Add(item: T)
      modifies this
      ensures Items == old(Items) + [item]
    {
      Items := Items + [item];
    }
  }

  /** AddRange: appends the elements one by one and returns the collection. A null
      collection fails on the first element, so it is returned as is only when there
      are none. */
  method AddRange<T>(collection: Collection?<T>, elements: Option<seq<T>>) returns (r: Result<Collection?<T>>)
    modifies collection
    ensures collection != null ==> r == Ok(collection) && collection.Items == old(collection.Items) + elements.GetOr([])
    ensures collection == null && elements.GetOr([]) == [] ==> r == Ok(null)
    ensures collection == null && elements.GetOr([]) != [] ==> r == Err(NullReference)
  {
    if elements.Some? {
      var k := 0;
      while k < |elements.value|
        invariant 0 <= k <= |elements.value|
        invariant collection != null ==> collection.Items == old(collection.Items) + elements.value[..k]
        invariant collection == null ==> k == 0
      {
        if collection == null {
          return Err(NullReference);
        }
        collection.Add(elements.value[k]);
        k := k + 1;
      }
      assert elements.value[..k] == elements.value;
    }
    return Ok(collection);
  }

  /** The concatenation of a sequence of batches. */
  function Flatten<T>(batches: seq<seq<T>>): seq<T> {
    if batches == [] then [] else batches[0] + Flatten(batches[1..])
  }

  lemma {:induction false} FlattenAppend<T>(batches: seq<seq<T>>, b: seq<T>)
    ensures Flatten(batches + [b]) == Flatten(batches) + b
  {
    if batches != [] {
      assert (batches + [b])[1..] == batches[1..] + [b];
      FlattenAppend(batches[1..], b);
    }
  }

  /** A batching of s into batches of size n: together they are s, every batch is
      non-empty, and all but the last hold exactly n elements. */
  ghost predicate IsBatching<T>(batches: seq<seq<T>>, s: seq<T>, n: int) {
    Flatten(batches) == s
    && forall i :: 0 <= i < |batches| ==>
         0 < |batches[i]| <= n && (i < |batches| - 1 ==> |batches[i]| == n)
  }

  /** The batches of s, n at a time. */
  function Batches<T>(s: seq<T>, n: int): (r: seq<seq<T>>)
    requires n > 1
    ensures forall b :: b in r ==> 0 < |b| <= n
    ensures r == [] <==> s == []
    decreases |s|
  {
    if s == [] then []
    else if |s| <= n then [s]
    else [s[..n]] + Batches(s[n..], n)
  }

  lemma {:induction false} BatchesIsBatching<T>(s: seq<T>, n: int)
    requires n > 1
    ensures IsBatching(Batches(s, n), s, n)
    decreases |s|
  {
    if s != [] && |s| > n {
      BatchesIsBatching(s[n..], n);
      var r := Batches(s, n);
      assert r[1..] == Batches(s[n..], n);
      assert s == s[..n] + s[n..];
    }
  }

  lemma {:induction false} FlattenLength<T>(batches: seq<seq<T>>)
    requires forall i :: 0 <= i < |batches| ==> |batches[i]| > 0
    ensures |Flatten(batches)| >= |batches|
  {
    if batches != [] {
      FlattenLength(batches[1..]);
    }
  }

  /** There is only one batching: Batches is it. */
  lemma {:induction false} BatchingUnique<T>(batches: seq<seq<T>>, s: seq<T>, n: int)
    requires n > 1 && IsBatching(batches, s, n)
    ensures batches == Batches(s, n)
    decreases |s|
  {
    if batches == [] {
    } else {
      var rest := batches[1..];
      assert IsBatching(rest, Flatten(rest), n);
      FlattenLength(rest);
      if rest == [] {
        assert s == batches[0];
      } else {
        assert rest[0] == batches[1];
        assert |batches[0]| == n && |s| > n;
        assert s[..n] == batches[0] && s[n..] == Flatten(rest);
        BatchingUnique(rest, s[n..], n);
      }
    }
  }

  /** Batch i holds the elements from i * n up to the next multiple of n or the end. */
  lemma {:induction false} BatchAt<T>(s: seq<T>, n: int, i: nat)
    requires n > 1 && i * n < |s|
    ensures i < |Batches(s, n)|
    ensures Batches(s, n)[i] == s[i * n .. if i * n + n <= |s| then i * n + n else |s|]
    decreases i
  {
    if i > 0 {
      MulPred(i, n);
      BatchAt(s[n..], n, i - 1);
    }
  }

  lemma MulPred(i: nat, n: int)
    requires i > 0 && n > 1
    ensures (i - 1) * n == i * n - n && i * n >= n
  {
  }

  lemma MulSucc(c: int, n: int)
    ensures (c + 1) * n == c * n + n
  {
  }

  /** There are |s| / n batches, rounded up: the smallest count c with c * n >= |s|. */
  lemma {:induction false} BatchCount<T>(s: seq<T>, n: int)
    requires n > 1
    ensures (|Batches(s, n)| - 1) * n < |s| <= |Batches(s, n)| * n
    decreases |s|
  {
    if |s| > n {
      BatchCount(s[n..], n);
      var c := |Batches(s[n..], n)|;
      MulSucc(c, n);
      MulSucc(c - 1, n);
    }
  }

  /** BatchesOf: batchSize must exceed 1; a null source has no batches. */
  method BatchesOf<T>(source: Option<seq<T>>, batchSize: int) returns (r: Result<seq<seq<T>>>)
    ensures batchSize <= 1 ==> r == Err(ArgumentOutOfRange("batchSize"))
    ensures batchSize > 1 && source.None? ==> r == Ok([])
    ensures batchSize > 1 && source.Some? ==>
      r == Ok(Batches(source.value, batchSize)) && IsBatching(r.value, source.value, batchSize)
  {
    if batchSize <= 1 {
      return Err(ArgumentOutOfRange("batchSize"));
    }
    if source.None? {
      return Ok([]);
    }
    var s := source.value;
    var batches: seq<seq<T>> := [];
    var batch: seq<T> := [];
    var k := 0;
    while k < |s|
      invariant 0 <= k <= |s|
      invariant Flatten(batches) + batch == s[..k]
      invariant |batch| < batchSize
      invariant forall i :: 0 <= i < |batches| ==> |batches[i]| == batchSize
    {
      batch := batch + [s[k]];
      assert s[..k + 1] == s[..k] + [s[k]];
      if |batch| >= batchSize {
        FlattenAppend(batches, batch);
        batches := batches + [batch];
        batch := [];
      }
      k := k + 1;
    }
    if |batch| > 0 {
      FlattenAppend(batches, batch);
      batches := batches + [batch];
    }
    assert s[..k] == s;
    BatchingUnique(batches, s, batchSize);
    return Ok(batches);
  }
}
