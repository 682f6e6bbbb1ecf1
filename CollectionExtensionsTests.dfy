/** The cases of the library's collection extension unit tests, proved about the model. */
module CollectionExtensionsTests {
  import opened Wrappers
  import opened Chars
  import opened StringExtensions
  import opened CollectionExtensions

  predicate FiveWords(words: seq<Option<string>>) {
    words == [Some("Hello"), Some("HELLO"), Some("World"), Some("world"), Some("woRLd")]
  }

  lemma ContainsCases(words: seq<Option<string>>)
    requires FiveWords(words)
    ensures CollectionExtensions.ContainsIgnoreCase(Some(words), Some("heLLo"))
    ensures CollectionExtensions.ContainsIgnoreCase(Some(words), Some("WORLD"))
    ensures !CollectionExtensions.ContainsIgnoreCase(None, Some("Pizza")) && !CollectionExtensions.ContainsIgnoreCase(Some([]), Some("Pizza"))
  {
    assert Fold("Hello") == Fold("heLLo");
    assert EqualsIgnoreCase(words[0], Some("heLLo"));
    assert Fold("World") == Fold("WORLD");
    assert EqualsIgnoreCase(words[2], Some("WORLD"));
  }

  /** Five values in two case-insensitive classes {s[0], s[1]} and {s[2], s[3], s[4]}
      keep s[0] and s[2]. */
  lemma DistinctTwoClasses(s: seq<Option<string>>)
    requires |s| == 5
    requires EqualsIgnoreCase(s[0], s[1]) && !EqualsIgnoreCase(s[0], s[2])
    requires EqualsIgnoreCase(s[2], s[3]) && EqualsIgnoreCase(s[2], s[4])
    ensures DistinctIgnoreCase(Some(s)) == Some([s[0], s[2]])
  {
    DistinctKeep(s, 1, []);
    DistinctSkip(s, 2, [s[0]]);
    NoMatchInSingleton(s[0], s[2]);
    DistinctKeep(s, 3, [s[0]]);
    DistinctSkip(s, 4, [s[0], s[2]]);
    DistinctSkip(s, 5, [s[0], s[2]]);
    DistinctWhole(s, [s[0], s[2]]);
  }

  /** An element matching the last value kept so far is dropped. */
  lemma DistinctSkip(s: seq<Option<string>>, n: nat, d: seq<Option<string>>)
    requires 0 < n <= |s| && DistinctPrefix(s, n - 1) == d
    requires |d| > 0 && EqualsIgnoreCase(d[|d| - 1], s[n - 1])
    ensures DistinctPrefix(s, n) == d
  {
    MatchesLast(d, s[n - 1]);
    DistinctStep(s, n, d);
  }

  /** An element matching nothing kept so far is kept. */
  lemma DistinctKeep(s: seq<Option<string>>, n: nat, d: seq<Option<string>>)
    requires 0 < n <= |s| && DistinctPrefix(s, n - 1) == d
    requires !AnyEqualsIgnoreCase(d, s[n - 1])
    ensures DistinctPrefix(s, n) == d + [s[n - 1]]
  {
    DistinctStep(s, n, d);
  }

  lemma DistinctWhole(s: seq<Option<string>>, r: seq<Option<string>>)
    requires DistinctPrefix(s, |s|) == r
    ensures DistinctIgnoreCase(Some(s)) == Some(r)
  {
    assert s[..|s|] == s;
  }

  lemma MatchesLast(d: seq<Option<string>>, y: Option<string>)
    requires |d| > 0 && EqualsIgnoreCase(d[|d| - 1], y)
    ensures AnyEqualsIgnoreCase(d, y)
  {
  }

  lemma NoMatchInSingleton(x: Option<string>, y: Option<string>)
    requires !EqualsIgnoreCase(x, y)
    ensures !AnyEqualsIgnoreCase([x], y)
  {
  }

  lemma DistinctStep(s: seq<Option<string>>, n: nat, d: seq<Option<string>>)
    requires 0 < n <= |s| && DistinctPrefix(s, n - 1) == d
    ensures DistinctPrefix(s, n) == if AnyEqualsIgnoreCase(d, s[n - 1]) then d else d + [s[n - 1]]
  {
  }

  /** The five words fall into two case-insensitive classes, kept by their first members. */
  lemma DistinctCases()
    ensures DistinctIgnoreCase(Some([Some("Hello"), Some("HELLO"), Some("World"), Some("world"), Some("woRLd")]))
         == Some([Some("Hello"), Some("World")])
    ensures DistinctIgnoreCase(None) == None
  {
    assert EqualsIgnoreCase(Some("Hello"), Some("HELLO")) by {
      assert Fold("Hello") == Fold("HELLO");
    }
    assert !EqualsIgnoreCase(Some("Hello"), Some("World")) by {
      assert Fold("Hello")[0] != Fold("World")[0];
    }
    assert EqualsIgnoreCase(Some("World"), Some("world")) by {
      assert Fold("World") == Fold("world");
    }
    assert EqualsIgnoreCase(Some("World"), Some("woRLd")) by {
      assert Fold("World") == Fold("woRLd");
    }
    DistinctTwoClasses([Some("Hello"), Some("HELLO"), Some("World"), Some("world"), Some("woRLd")]);
  }

  /** Fifteen elements in batches of ten: one full batch, then the remaining five. */
  lemma ExtendedBatches(s: seq<int>)
    requires s == seq(15, i => i)
    ensures Batches(s, 10) == [seq(10, i => i), seq(5, i => 10 + i)]
  {
    assert s[..10] == seq(10, i => i);
    assert s[10..] == seq(5, i => 10 + i);
  }

  /** The range 0..499 in batches of one hundred: five batches, the i-th holding
      100 * i up to 100 * i + 99. */
  lemma BasicBatches(s: seq<int>)
    requires s == seq(500, k => k)
    ensures |Batches(s, 100)| == 5
    ensures forall i :: 0 <= i < 5 ==> Batches(s, 100)[i] == seq(100, k => 100 * i + k)
  {
    BatchCount(s, 100);
    forall i | 0 <= i < 5
      ensures Batches(s, 100)[i] == seq(100, k => 100 * i + k)
    {
      BatchAt(s, 100, i);
    }
  }

  method AddRangeCases()
  {
    var c := new Collection<int>();
    var r := AddRange(c, Some(seq(100, i => i)));
    assert r == Ok(c) && c.Items == seq(100, i => i);
    var n1 := AddRange<string>(null, None);
    var n2 := AddRange<string>(null, Some([]));
    var n3 := AddRange<string>(null, Some(["This", "Must", "Throw!"]));
    assert n1 == Ok(null) && n2 == Ok(null) && n3 == Err(NullReference);
  }

  method BatchesOfCases()
  {
    var e := BatchesOf(Some(seq(15, i => i)), 1);
    assert e == Err(ArgumentOutOfRange("batchSize"));
    var b := BatchesOf(Some(seq(15, i => i)), 10);
    ExtendedBatches(seq(15, i => i));
    assert b == Ok([seq(10, i => i), seq(5, i => 10 + i)]);
    var none := BatchesOf<int>(None, 10);
    assert none == Ok([]);
  }
}
