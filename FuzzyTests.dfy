/** The cases of the library's FuzzyEquals unit tests, proved about the model. */
module FuzzyTests {
  import opened Wrappers
  import opened StringUtils
  import opened FuzzyStringExtensions
  import opened SimplifyExamples
  import opened DistanceExamples
  import opened FuzzySearchResults
  import opened FuzzyCollectionExtensions

  lemma HelloWorldFuzzyEquals()
    ensures FuzzyEqualsDefault(Some("Hello, World!"), Some("HELLO WORLD")) == Ok(true)
  {
    SimplifyHelloWorld1();
    SimplifyHelloWorld2();
  }

  /** KITTEN and AMITTEN are 2 edits apart: (6.5 - 2 * 6/7) / 6.5 = 67/91. */
  lemma KittenAMittenScore()
    ensures Score(Some("Kitten"), Some("a mitten")) == Approx(67.0 / 91.0)
  {
    SimplifyKitten();
    SimplifyAMitten();
    var x, y := "KITTEN", "AMITTEN";
    KittenAMittenDistance(x, y);
    assert MeanLength(x, y) == 6.5;
    assert Modifier(x, y) == 6.0 / 7.0;
    assert RawScore(x, y) == 67.0 / 91.0;
  }

  lemma KittenAMittenFuzzyEquals()
    ensures FuzzyEqualsDefault(Some("Kitten"), Some("a mitten")) == Ok(true)
  {
    KittenAMittenScore();
  }

  /** KITTEN and MYMITTEN are 3 edits apart: (7 - 3 * 3/4) / 7 = 19/28. */
  lemma KittenMyMittenScore()
    ensures Score(Some("Kitten"), Some("my mitten")) == Approx(19.0 / 28.0)
  {
    SimplifyKitten();
    SimplifyMyMitten();
    var x, y := "KITTEN", "MYMITTEN";
    KittenMyMittenDistance(x, y);
    assert MeanLength(x, y) == 7.0;
    assert Modifier(x, y) == 0.75;
    assert RawScore(x, y) == 19.0 / 28.0;
  }

  lemma KittenMyMittenFuzzyEquals()
    ensures FuzzyEqualsDefault(Some("Kitten"), Some("my mitten")) == Ok(true)
  {
    KittenMyMittenScore();
  }

  /** KITTEN and ABITTENBUG are 5 edits apart: (8 - 5 * 2/3) / 8 = 7/12. */
  lemma KittenABittenBugScore()
    ensures Score(Some("Kitten"), Some("a bitten bug")) == Approx(7.0 / 12.0)
  {
    SimplifyKitten();
    SimplifyABittenBug();
    var x, y := "KITTEN", "ABITTENBUG";
    KittenABittenBugDistance(x, y);
    assert MeanLength(x, y) == 8.0;
    assert Modifier(x, y) == 2.0 / 3.0;
    assert RawScore(x, y) == 7.0 / 12.0;
  }

  /** Below the default threshold, above one half. */
  lemma KittenABittenBugFuzzyEquals()
    ensures FuzzyEqualsDefault(Some("Kitten"), Some("a bitten bug")) == Ok(false)
    ensures FuzzyEquals(Some("Kitten"), Some("a bitten bug"), 0.5) == Ok(true)
  {
    KittenABittenBugScore();
  }

  lemma OutOfRangeThresholds()
    ensures FuzzyEquals(Some("X"), Some("X"), 1.1) == Err(ArgumentOutOfRange("minScore"))
    ensures FuzzyEquals(Some("X"), Some("X"), -0.1) == Err(ArgumentOutOfRange("minScore"))
  {
  }

  /** GOO and DUCK are 4 edits apart: (3.5 - 4 * 3/4) / 3.5 = 1/7. */
  lemma GooDuckScore()
    ensures Score(Some("goo"), Some("Duck")) == Approx(1.0 / 7.0)
  {
    SimplifyGoo();
    SimplifyDuck();
    var x, y := "GOO", "DUCK";
    GooDuckDistance(x, y);
    assert MeanLength(x, y) == 3.5;
    assert Modifier(x, y) == 0.75;
    assert RawScore(x, y) == 1.0 / 7.0;
  }

  /** GOO and GOOSE are 2 edits apart: (4 - 2 * 2/3) / 4 = 2/3, exactly the default threshold. */
  lemma GooGooseScore()
    ensures Score(Some("goo"), Some("Goose")) == Approx(2.0 / 3.0)
  {
    SimplifyGoo();
    SimplifyGoose();
    var x, y := "GOO", "GOOSE";
    GooGooseDistance(x, y);
    assert MeanLength(x, y) == 4.0;
    assert Modifier(x, y) == 2.0 / 3.0;
    assert RawScore(x, y) == 2.0 / 3.0;
  }

  lemma GooEmptyScore()
    ensures Score(Some("goo"), Some("")) == Approx(0.0)
  {
    SimplifyGoo();
    ScoreAgainstEmpty(Some("goo"), Some(""));
  }

  /** Searching {"Duck", "", "Duck", null, "Goose"} for "goo" finds only "Goose", at index 4. */
  lemma DuckGooseSearch(objects: seq<Option<string>>, toText: Option<string> -> Option<string>)
    requires objects == [Some("Duck"), Some(""), Some("Duck"), None, Some("Goose")]
    requires forall x :: toText(x) == x
    ensures Ranked(objects, Some("goo"), 2.0 / 3.0, Converter(None, toText))
      == [FuzzySearchResult(4, Some("Goose"), Approx(2.0 / 3.0))]
  {
    var f := Converter(None, toText);
    var all := Indexed(objects, Some("goo"), f);
    GooDuckScore();
    GooEmptyScore();
    GooGooseScore();
    DefaultConverterText(toText, objects[0]);
    DefaultConverterText(toText, objects[1]);
    DefaultConverterText(toText, objects[3]);
    DefaultConverterText(toText, objects[4]);
    assert all[0].Score == Approx(1.0 / 7.0);
    assert all[1].Score == Approx(0.0);
    assert all[2].Score == Approx(1.0 / 7.0);
    assert all[3].Score == Approx(0.0);
    assert all[4] == FuzzySearchResult(4, Some("Goose"), Approx(2.0 / 3.0));
    var m := 2.0 / 3.0;
    assert WhereAtLeast(all[4..], m) == [all[4]];
    assert WhereAtLeast(all[3..], m) == [all[4]];
    assert WhereAtLeast(all[2..], m) == [all[4]];
    assert WhereAtLeast(all[1..], m) == [all[4]];
    assert WhereAtLeast(all, m) == [all[4]];
  }
}
