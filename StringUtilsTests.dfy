/** The edit-distance cases of the library's unit tests, proved about the
    recurrence; ComputeLevenshteinDistance returns the same values. */
module StringUtilsTests {
  import opened Wrappers
  import opened StringUtils

  lemma EmptyDistance()
    ensures EditDistance("", "") == 0
  {
  }

  /** One substitution. */
  lemma GrayGrey()
    ensures EditDistance("GRAY", "GREY") == 1
  {
    GrayGreyTable("GRAY", "GREY");
  }

  lemma GrayGreyTable(a: string, b: string)
    requires a == "GRAY" && b == "GREY"
    ensures EditDistance(a, b) == 1
  {
    assert Distance(a, b, 1, 1) == 0 && Distance(a, b, 1, 2) == 1 && Distance(a, b, 1, 3) == 2 && Distance(a, b, 1, 4) == 3;
    assert Distance(a, b, 2, 1) == 1 && Distance(a, b, 2, 2) == 0 && Distance(a, b, 2, 3) == 1 && Distance(a, b, 2, 4) == 2;
    assert Distance(a, b, 3, 1) == 2 && Distance(a, b, 3, 2) == 1 && Distance(a, b, 3, 3) == 1 && Distance(a, b, 3, 4) == 2;
    assert Distance(a, b, 4, 1) == 3 && Distance(a, b, 4, 2) == 2 && Distance(a, b, 4, 3) == 2 && Distance(a, b, 4, 4) == 1;
  }

  /** Two deletions. */
  lemma HelloWorld()
    ensures EditDistance("Hello, World!", "Hello World") == 2
  {
    HelloWorldTable("Hello, World!", "Hello World");
  }

  /** Deleting ',' and '!' is optimal: the lengths differ by two. */
  lemma HelloWorldTable(a: string, b: string)
    requires a == "Hello, World!" && b == "Hello World"
    ensures EditDistance(a, b) == 2
  {
    HelloWorldFirstHalf(a, b);
    assert Distance(a, b, 9, 8) <= 1;
    assert Distance(a, b, 10, 9) <= 1;
    assert Distance(a, b, 11, 10) <= 1;
    assert Distance(a, b, 12, 11) <= 1;
    assert Distance(a, b, 13, 11) <= 2;
    EditDistanceFacts(a, b);
  }

  lemma HelloWorldFirstHalf(a: string, b: string)
    requires a == "Hello, World!" && b == "Hello World"
    ensures Distance(a, b, 8, 7) <= 1
  {
    assert a[..5] == b[..5];
    DistanceZeroIff(a, b, 5, 5);
    assert Distance(a, b, 6, 5) <= 1;
    assert Distance(a, b, 7, 6) <= 1;
  }

  /** Five edits. */
  lemma AppleBanana()
    ensures EditDistance("apple", "banana") == 5
  {
    AppleBananaTable("apple", "banana");
  }

  lemma AppleBananaRow2(a: string, b: string)
    requires a == "apple" && b == "banana"
    ensures Distance(a, b, 2, 1) == 2 && Distance(a, b, 2, 2) == 2 && Distance(a, b, 2, 3) == 2 && Distance(a, b, 2, 4) == 3 && Distance(a, b, 2, 5) == 4 && Distance(a, b, 2, 6) == 5
  {
    assert Distance(a, b, 1, 1) == 1 && Distance(a, b, 1, 2) == 1 && Distance(a, b, 1, 3) == 2 && Distance(a, b, 1, 4) == 3 && Distance(a, b, 1, 5) == 4 && Distance(a, b, 1, 6) == 5;
  }

  lemma AppleBananaRow4(a: string, b: string)
    requires a == "apple" && b == "banana"
    ensures Distance(a, b, 4, 1) == 4 && Distance(a, b, 4, 2) == 4 && Distance(a, b, 4, 3) == 4 && Distance(a, b, 4, 4) == 4 && Distance(a, b, 4, 5) == 4 && Distance(a, b, 4, 6) == 5
  {
    AppleBananaRow2(a, b);
    assert Distance(a, b, 3, 1) == 3 && Distance(a, b, 3, 2) == 3 && Distance(a, b, 3, 3) == 3 && Distance(a, b, 3, 4) == 3 && Distance(a, b, 3, 5) == 4 && Distance(a, b, 3, 6) == 5;
  }

  lemma AppleBananaTable(a: string, b: string)
    requires a == "apple" && b == "banana"
    ensures EditDistance(a, b) == 5
  {
    AppleBananaRow4(a, b);
    assert Distance(a, b, 5, 1) == 5 && Distance(a, b, 5, 2) == 5 && Distance(a, b, 5, 3) == 5 && Distance(a, b, 5, 4) == 5 && Distance(a, b, 5, 5) == 5 && Distance(a, b, 5, 6) == 5;
  }
}
