/** The cases of the library's string extension unit tests, proved about the model. */
module StringExtensionsTests {
  import opened Wrappers
  import opened Chars
  import opened StringExtensions

  lemma NullOrEmptyCases()
    ensures IsNullOrEmpty(None) && IsNullOrEmpty(Some(""))
    ensures !IsNullOrEmpty(Some("Hello World")) && !IsNullOrEmpty(Some("     "))
    ensures !IsNullOrEmpty(Some("\r\n\U{0B}\t  \r\U{0B}"))
    ensures IsNullOrWhiteSpace(None) && IsNullOrWhiteSpace(Some(""))
    ensures !IsNullOrWhiteSpace(Some("Hello World"))
    ensures IsNullOrWhiteSpace(Some("     ")) && IsNullOrWhiteSpace(Some("\r\n\U{0B}\t  \r\U{0B}"))
    ensures !IsNullOrWhiteSpace(Some("\r\n\U{0B}\tHello World!\r\U{0B}"))
  {
    assert !IsWhiteSpace("Hello World"[0]);
    assert !IsWhiteSpace("\r\n\U{0B}\tHello World!\r\U{0B}"[4]);
  }

  lemma EqualsIgnoreCaseCases()
    ensures EqualsIgnoreCase(None, None)
    ensures !EqualsIgnoreCase(Some(""), None) && !EqualsIgnoreCase(None, Some(""))
    ensures !EqualsIgnoreCase(Some("Hello"), Some("Hell"))
    ensures EqualsIgnoreCase(Some("WORLD"), Some("worLd"))
    ensures EqualsIgnoreCase(Some("Hello"), Some("Hell" + "o"))
  {
    EqualsIgnoreCaseLength("Hello", "Hell");
    assert Fold("worLd") == "WORLD";
    assert "Hell" + "o" == "Hello";
  }

  /** Hello contains ELL at position 1; it does not contain Jello, which is longer. */
  lemma ContainsIgnoreCaseCases()
    ensures ContainsIgnoreCase(None, None)
    ensures !ContainsIgnoreCase(Some(""), None) && !ContainsIgnoreCase(None, Some(""))
    ensures ContainsIgnoreCase(Some("Hello"), Some("ELL"))
    ensures !ContainsIgnoreCase(Some("Hello"), Some("Jello"))
  {
    assert Fold("Hello"[1..4]) == "ELL";
    assert MatchesAt("Hello", "ELL", 1, true);
    assert Fold("Hello"[0..5]) != Fold("Jello") by {
      assert Fold("Hello")[0] == 'H';
      assert Fold("Jello")[0] == 'J';
    }
  }

  /** Hello contains itself in upper case, and its tail ello. */
  lemma ContainsHelloCases()
    ensures ContainsIgnoreCase(Some("Hello"), Some("HELLO"))
    ensures ContainsIgnoreCase(Some("Hello"), Some("ello"))
  {
    ContainsEmptyAndSelf("Hello");
    assert Fold("Hello") == "HELLO";
    assert Fold("Hello"[1..5]) == Fold("ello");
    assert MatchesAt("Hello", "ello", 1, true);
  }

  /** A case-insensitive match starts with the search string's first character, up to case. */
  lemma MatchesAtFirst(input: string, search: string, i: nat)
    requires search != [] && i + |search| <= |input|
    ensures MatchesAt(input, search, i, true) ==> ToUpper(input[i]) == ToUpper(search[0])
  {
    if MatchesAt(input, search, i, true) {
      assert Fold(input[i..i + |search|])[0] == Fold(search)[0];
    }
  }

  /** A one-character search string matches where the characters agree. */
  lemma MatchesAtChar(input: string, c: char, i: nat, ignoreCase: bool)
    requires i < |input|
    ensures MatchesAt(input, [c], i, ignoreCase)
        <==> if ignoreCase then ToUpper(input[i]) == ToUpper(c) else input[i] == c
  {
    assert input[i..i + 1] == [input[i]];
    assert Fold([input[i]]) == [ToUpper(input[i])];
    assert Fold([c]) == [ToUpper(c)];
  }

  lemma HelloBeforeLowerO()
    ensures Before(Some("Hello"), Some("o"), false) == Some("Hell")
  {
    var s := "Hello";
    forall i | 0 <= i < 4
      ensures !MatchesAt(s, "o", i, false)
    {
      MatchesAtChar(s, 'o', i, false);
      assert i == 0 || i == 1 || i == 2 || i == 3;
    }
    MatchesAtChar(s, 'o', 4, false);
    BeforeAfterFirstMatch(s, "o", false, 4);
    assert s[..4] == "Hell";
  }

  /** Case-sensitively, "O" does not occur in "Hello". */
  lemma HelloBeforeUpperO()
    ensures Before(Some("Hello"), Some("O"), false) == Some("Hello")
  {
    var s := "Hello";
    forall i | 0 <= i && i + 1 <= 5
      ensures !MatchesAt(s, "O", i, false)
    {
      MatchesAtChar(s, 'O', i, false);
      assert i == 0 || i == 1 || i == 2 || i == 3 || i == 4;
    }
    BeforeAfterNoMatch(s, "O", false);
  }

  lemma HelloBeforeUpperOIgnoringCase()
    ensures Before(Some("Hello"), Some("O"), true) == Some("Hell")
  {
    HelloOParts("Hell", "o", "");
    FirstMatchAfterPrefix("Hell", "o", "", "O");
  }

  lemma HelloBeforeLowerH()
    ensures Before(Some("Hello"), Some("h"), true) == Some("")
  {
    MatchesAtChar("Hello", 'h', 0, true);
    BeforeAfterFirstMatch("Hello", "h", true, 0);
  }

  lemma BeforeNullCases()
    ensures Before(None, None, false) == None && Before(None, Some(""), true) == None
    ensures Before(None, Some("X"), true) == None
    ensures Before(Some(""), None, false) == Some("") && Before(Some(""), Some(""), true) == Some("")
  {
  }

  /** Hello is Hell, then o; nothing in Hell is an o in either case. */
  lemma HelloOParts(p: string, m: string, q: string)
    requires p == "Hell" && m == "o" && q == ""
    ensures p + m + q == "Hello"
    ensures forall ch :: ToUpper(ch) == 'O' ==> ch !in p
    ensures forall i :: 0 <= i < |m| ==> ToUpper(m[i]) == ToUpper("O"[i])
  {
    forall ch | ToUpper(ch) == 'O'
      ensures ch !in p
    {
      assert ch == 'o' || ch == 'O';
    }
  }

  lemma AfterNullCases()
    ensures After(None, None, false) == None && After(None, Some(""), true) == None
    ensures After(None, Some("X"), true) == None
    ensures After(Some(""), None, false) == Some("") && After(Some(""), Some(""), true) == Some("")
  {
  }

  lemma HelloAfterUpperO()
    ensures After(Some("Hello"), Some("O"), true) == Some("")
  {
    HelloOParts("Hell", "o", "");
    FirstMatchAfterPrefix("Hell", "o", "", "O");
  }

  lemma HelloAfterH()
    ensures After(Some("Hello"), Some("H"), false) == Some("ello")
    ensures After(Some("Hello"), Some("h"), true) == Some("ello")
  {
    MatchesAtChar("Hello", 'H', 0, false);
    BeforeAfterFirstMatch("Hello", "H", false, 0);
    MatchesAtChar("Hello", 'h', 0, true);
    BeforeAfterFirstMatch("Hello", "h", true, 0);
  }

  /** Case-sensitively, "h" does not occur in "Hello". */
  lemma HelloAfterLowerH()
    ensures After(Some("Hello"), Some("h"), false) == Some("Hello")
  {
    var s := "Hello";
    forall i | 0 <= i && i + 1 <= 5
      ensures !MatchesAt(s, "h", i, false)
    {
      MatchesAtChar(s, 'h', i, false);
      assert i == 0 || i == 1 || i == 2 || i == 3 || i == 4;
    }
    BeforeAfterNoMatch(s, "h", false);
  }

  /** When no character of p can start a match and m matches, the first match is m. */
  lemma FirstMatchAfterPrefix(p: string, m: string, q: string, search: string)
    requires search != [] && |m| == |search|
    requires forall i :: 0 <= i < |m| ==> ToUpper(m[i]) == ToUpper(search[i])
    requires forall ch :: ToUpper(ch) == ToUpper(search[0]) ==> ch !in p
    ensures Before(Some(p + m + q), Some(search), true) == Some(p)
    ensures After(Some(p + m + q), Some(search), true) == Some(q)
  {
    var s := p + m + q;
    forall i | 0 <= i < |p|
      ensures !MatchesAt(s, search, i, true)
    {
      assert s[i] == p[i];
      MatchesAtFirst(s, search, i);
    }
    assert s[|p|..|p| + |search|] == m;
    assert Fold(m) == Fold(search);
    BeforeAfterFirstMatch(s, search, true, |p|);
    assert s[..|p|] == p;
    assert s[|p| + |search|..] == q;
  }

  /** The first "fox" of the sentence, found ignoring case, starts at position 16. */
  lemma FoxCases(s: string)
    requires s == "The quick brown fox jumps over the lazy dog."
    ensures Before(Some(s), Some("FoX"), true) == Some("The quick brown ")
    ensures After(Some(s), Some("FoX"), true) == Some(" jumps over the lazy dog.")
  {
    var p, m, q := "The quick brown ", "fox", " jumps over the lazy dog.";
    FoxSplit(s, p, m, q);
    NoF(p);
    FoxMatches(m, "FoX");
    FirstMatchAfterPrefix(p, m, q, "FoX");
  }

  lemma FoxSplit(s: string, p: string, m: string, q: string)
    requires s == "The quick brown fox jumps over the lazy dog."
    requires p == "The quick brown " && m == "fox" && q == " jumps over the lazy dog."
    ensures s == p + m + q
  {
  }

  lemma NoF(p: string)
    requires p == "The quick brown "
    ensures forall ch :: ToUpper(ch) == 'F' ==> ch !in p
  {
    forall ch | ToUpper(ch) == 'F'
      ensures ch !in p
    {
      assert ch == 'f' || ch == 'F';
    }
  }

  lemma FoxMatches(m: string, search: string)
    requires m == "fox" && search == "FoX"
    ensures |m| == |search| && search[0] == 'F'
    ensures forall i :: 0 <= i < |m| ==> ToUpper(m[i]) == ToUpper(search[i])
  {
    forall i | 0 <= i < 3
      ensures ToUpper(m[i]) == ToUpper(search[i])
    {
      assert i == 0 || i == 1 || i == 2;
    }
  }
}
