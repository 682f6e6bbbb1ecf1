/** The inputs of the library's fuzzy unit tests after simplification. */
module SimplifyExamples {
  import opened Wrappers
  import opened StringUtils

  lemma SimplifyHelloWorld1Upto4()
    ensures SimplifyPrefix("Hello, World!", 4) == "HELL"
  {
    assert SimplifyPrefix("Hello, World!", 1) == "H";
    assert SimplifyPrefix("Hello, World!", 2) == "HE";
    assert SimplifyPrefix("Hello, World!", 3) == "HEL";
  }

  lemma SimplifyHelloWorld1Upto8()
    ensures SimplifyPrefix("Hello, World!", 8) == "HELLOW"
  {
    SimplifyHelloWorld1Upto4();
    assert SimplifyPrefix("Hello, World!", 5) == "HELLO";
    assert SimplifyPrefix("Hello, World!", 6) == "HELLO";
    assert SimplifyPrefix("Hello, World!", 7) == "HELLO";
  }

  lemma SimplifyHelloWorld1Upto12()
    ensures SimplifyPrefix("Hello, World!", 12) == "HELLOWORLD"
  {
    SimplifyHelloWorld1Upto8();
    assert SimplifyPrefix("Hello, World!", 9) == "HELLOWO";
    assert SimplifyPrefix("Hello, World!", 10) == "HELLOWOR";
    assert SimplifyPrefix("Hello, World!", 11) == "HELLOWORL";
  }

  lemma SimplifyHelloWorld1()
    ensures Simplify(Some("Hello, World!")) == "HELLOWORLD"
  {
    SimplifyHelloWorld1Upto12();
  }

  lemma SimplifyHelloWorld2Upto4()
    ensures SimplifyPrefix("HELLO WORLD", 4) == "HELL"
  {
    assert SimplifyPrefix("HELLO WORLD", 1) == "H";
    assert SimplifyPrefix("HELLO WORLD", 2) == "HE";
    assert SimplifyPrefix("HELLO WORLD", 3) == "HEL";
  }

  lemma SimplifyHelloWorld2Upto8()
    ensures SimplifyPrefix("HELLO WORLD", 8) == "HELLOWO"
  {
    SimplifyHelloWorld2Upto4();
    assert SimplifyPrefix("HELLO WORLD", 5) == "HELLO";
    assert SimplifyPrefix("HELLO WORLD", 6) == "HELLO";
    assert SimplifyPrefix("HELLO WORLD", 7) == "HELLOW";
  }

  lemma SimplifyHelloWorld2()
    ensures Simplify(Some("HELLO WORLD")) == "HELLOWORLD"
  {
    SimplifyHelloWorld2Upto8();
    assert SimplifyPrefix("HELLO WORLD", 9) == "HELLOWOR";
    assert SimplifyPrefix("HELLO WORLD", 10) == "HELLOWORL";
  }

  lemma SimplifyKittenUpto4()
    ensures SimplifyPrefix("Kitten", 4) == "KITT"
  {
    assert SimplifyPrefix("Kitten", 1) == "K";
    assert SimplifyPrefix("Kitten", 2) == "KI";
    assert SimplifyPrefix("Kitten", 3) == "KIT";
  }

  lemma SimplifyKitten()
    ensures Simplify(Some("Kitten")) == "KITTEN"
  {
    SimplifyKittenUpto4();
    assert SimplifyPrefix("Kitten", 5) == "KITTE";
  }

  lemma SimplifyAMittenUpto4()
    ensures SimplifyPrefix("a mitten", 4) == "AMI"
  {
    assert SimplifyPrefix("a mitten", 1) == "A";
    assert SimplifyPrefix("a mitten", 2) == "A";
    assert SimplifyPrefix("a mitten", 3) == "AM";
  }

  lemma SimplifyAMitten()
    ensures Simplify(Some("a mitten")) == "AMITTEN"
  {
    SimplifyAMittenUpto4();
    assert SimplifyPrefix("a mitten", 5) == "AMIT";
    assert SimplifyPrefix("a mitten", 6) == "AMITT";
    assert SimplifyPrefix("a mitten", 7) == "AMITTE";
  }

  lemma SimplifyMyMittenUpto4()
    ensures SimplifyPrefix("my mitten", 4) == "MYM"
  {
    assert SimplifyPrefix("my mitten", 1) == "M";
    assert SimplifyPrefix("my mitten", 2) == "MY";
    assert SimplifyPrefix("my mitten", 3) == "MY";
  }

  lemma SimplifyMyMittenUpto8()
    ensures SimplifyPrefix("my mitten", 8) == "MYMITTE"
  {
    SimplifyMyMittenUpto4();
    assert SimplifyPrefix("my mitten", 5) == "MYMI";
    assert SimplifyPrefix("my mitten", 6) == "MYMIT";
    assert SimplifyPrefix("my mitten", 7) == "MYMITT";
  }

  lemma SimplifyMyMitten()
    ensures Simplify(Some("my mitten")) == "MYMITTEN"
  {
    SimplifyMyMittenUpto8();
  }

  lemma SimplifyABittenBugUpto4()
    ensures SimplifyPrefix("a bitten bug", 4) == "ABI"
  {
    assert SimplifyPrefix("a bitten bug", 1) == "A";
    assert SimplifyPrefix("a bitten bug", 2) == "A";
    assert SimplifyPrefix("a bitten bug", 3) == "AB";
  }

  lemma SimplifyABittenBugUpto8()
    ensures SimplifyPrefix("a bitten bug", 8) == "ABITTEN"
  {
    SimplifyABittenBugUpto4();
    assert SimplifyPrefix("a bitten bug", 5) == "ABIT";
    assert SimplifyPrefix("a bitten bug", 6) == "ABITT";
    assert SimplifyPrefix("a bitten bug", 7) == "ABITTE";
  }

  lemma SimplifyABittenBug()
    ensures Simplify(Some("a bitten bug")) == "ABITTENBUG"
  {
    SimplifyABittenBugUpto8();
    assert SimplifyPrefix("a bitten bug", 9) == "ABITTEN";
    assert SimplifyPrefix("a bitten bug", 10) == "ABITTENB";
    assert SimplifyPrefix("a bitten bug", 11) == "ABITTENBU";
  }

  lemma SimplifyGoo()
    ensures Simplify(Some("goo")) == "GOO"
  {
    assert SimplifyPrefix("goo", 1) == "G";
    assert SimplifyPrefix("goo", 2) == "GO";
  }

  lemma SimplifyDuck()
    ensures Simplify(Some("Duck")) == "DUCK"
  {
    assert SimplifyPrefix("Duck", 1) == "D";
    assert SimplifyPrefix("Duck", 2) == "DU";
    assert SimplifyPrefix("Duck", 3) == "DUC";
  }

  lemma SimplifyGooseUpto4()
    ensures SimplifyPrefix("Goose", 4) == "GOOS"
  {
    assert SimplifyPrefix("Goose", 1) == "G";
    assert SimplifyPrefix("Goose", 2) == "GO";
    assert SimplifyPrefix("Goose", 3) == "GOO";
  }

  lemma SimplifyGoose()
    ensures Simplify(Some("Goose")) == "GOOSE"
  {
    SimplifyGooseUpto4();
  }
}

/** Edit distances between the simplified inputs of the fuzzy unit tests,
    filled in row by row as the Levenshtein table is. */
module DistanceExamples {
  import opened StringUtils

  lemma KittenAMittenDistanceRow2(a: string, b: string)
    requires a == "KITTEN" && b == "AMITTEN"
    ensures Distance(a, b, 2, 1) == 2 && Distance(a, b, 2, 2) == 2 && Distance(a, b, 2, 3) == 2 && Distance(a, b, 2, 4) == 3 && Distance(a, b, 2, 5) == 4 && Distance(a, b, 2, 6) == 5 && Distance(a, b, 2, 7) == 6
  {
    assert Distance(a, b, 1, 1) == 1 && Distance(a, b, 1, 2) == 2 && Distance(a, b, 1, 3) == 3 && Distance(a, b, 1, 4) == 4 && Distance(a, b, 1, 5) == 5 && Distance(a, b, 1, 6) == 6 && Distance(a, b, 1, 7) == 7;
  }

  lemma KittenAMittenDistanceRow4(a: string, b: string)
    requires a == "KITTEN" && b == "AMITTEN"
    ensures Distance(a, b, 4, 1) == 4 && Distance(a, b, 4, 2) == 4 && Distance(a, b, 4, 3) == 4 && Distance(a, b, 4, 4) == 3 && Distance(a, b, 4, 5) == 2 && Distance(a, b, 4, 6) == 3 && Distance(a, b, 4, 7) == 4
  {
    KittenAMittenDistanceRow2(a, b);
    assert Distance(a, b, 3, 1) == 3 && Distance(a, b, 3, 2) == 3 && Distance(a, b, 3, 3) == 3 && Distance(a, b, 3, 4) == 2 && Distance(a, b, 3, 5) == 3 && Distance(a, b, 3, 6) == 4 && Distance(a, b, 3, 7) == 5;
  }

  lemma KittenAMittenDistance(a: string, b: string)
    requires a == "KITTEN" && b == "AMITTEN"
    ensures EditDistance(a, b) == 2
  {
    KittenAMittenDistanceRow4(a, b);
    assert Distance(a, b, 5, 1) == 5 && Distance(a, b, 5, 2) == 5 && Distance(a, b, 5, 3) == 5 && Distance(a, b, 5, 4) == 4 && Distance(a, b, 5, 5) == 3 && Distance(a, b, 5, 6) == 2 && Distance(a, b, 5, 7) == 3;
    assert Distance(a, b, 6, 1) == 6 && Distance(a, b, 6, 2) == 6 && Distance(a, b, 6, 3) == 6 && Distance(a, b, 6, 4) == 5 && Distance(a, b, 6, 5) == 4 && Distance(a, b, 6, 6) == 3 && Distance(a, b, 6, 7) == 2;
  }

  lemma KittenMyMittenDistanceRow2(a: string, b: string)
    requires a == "KITTEN" && b == "MYMITTEN"
    ensures Distance(a, b, 2, 1) == 2 && Distance(a, b, 2, 2) == 2 && Distance(a, b, 2, 3) == 3 && Distance(a, b, 2, 4) == 3 && Distance(a, b, 2, 5) == 4 && Distance(a, b, 2, 6) == 5 && Distance(a, b, 2, 7) == 6 && Distance(a, b, 2, 8) == 7
  {
    assert Distance(a, b, 1, 1) == 1 && Distance(a, b, 1, 2) == 2 && Distance(a, b, 1, 3) == 3 && Distance(a, b, 1, 4) == 4 && Distance(a, b, 1, 5) == 5 && Distance(a, b, 1, 6) == 6 && Distance(a, b, 1, 7) == 7 && Distance(a, b, 1, 8) == 8;
  }

  lemma KittenMyMittenDistanceRow4(a: string, b: string)
    requires a == "KITTEN" && b == "MYMITTEN"
    ensures Distance(a, b, 4, 1) == 4 && Distance(a, b, 4, 2) == 4 && Distance(a, b, 4, 3) == 4 && Distance(a, b, 4, 4) == 4 && Distance(a, b, 4, 5) == 4 && Distance(a, b, 4, 6) == 3 && Distance(a, b, 4, 7) == 4 && Distance(a, b, 4, 8) == 5
  {
    KittenMyMittenDistanceRow2(a, b);
    assert Distance(a, b, 3, 1) == 3 && Distance(a, b, 3, 2) == 3 && Distance(a, b, 3, 3) == 3 && Distance(a, b, 3, 4) == 4 && Distance(a, b, 3, 5) == 3 && Distance(a, b, 3, 6) == 4 && Distance(a, b, 3, 7) == 5 && Distance(a, b, 3, 8) == 6;
  }

  lemma KittenMyMittenDistance(a: string, b: string)
    requires a == "KITTEN" && b == "MYMITTEN"
    ensures EditDistance(a, b) == 3
  {
    KittenMyMittenDistanceRow4(a, b);
    assert Distance(a, b, 5, 1) == 5 && Distance(a, b, 5, 2) == 5 && Distance(a, b, 5, 3) == 5 && Distance(a, b, 5, 4) == 5 && Distance(a, b, 5, 5) == 5 && Distance(a, b, 5, 6) == 4 && Distance(a, b, 5, 7) == 3 && Distance(a, b, 5, 8) == 4;
    assert Distance(a, b, 6, 1) == 6 && Distance(a, b, 6, 2) == 6 && Distance(a, b, 6, 3) == 6 && Distance(a, b, 6, 4) == 6 && Distance(a, b, 6, 5) == 6 && Distance(a, b, 6, 6) == 5 && Distance(a, b, 6, 7) == 4 && Distance(a, b, 6, 8) == 3;
  }

  lemma KittenABittenBugDistanceRow2(a: string, b: string)
    requires a == "KITTEN" && b == "ABITTENBUG"
    ensures Distance(a, b, 2, 1) == 2 && Distance(a, b, 2, 2) == 2 && Distance(a, b, 2, 3) == 2 && Distance(a, b, 2, 4) == 3 && Distance(a, b, 2, 5) == 4 && Distance(a, b, 2, 6) == 5 && Distance(a, b, 2, 7) == 6 && Distance(a, b, 2, 8) == 7 && Distance(a, b, 2, 9) == 8 && Distance(a, b, 2, 10) == 9
  {
    assert Distance(a, b, 1, 1) == 1 && Distance(a, b, 1, 2) == 2 && Distance(a, b, 1, 3) == 3 && Distance(a, b, 1, 4) == 4 && Distance(a, b, 1, 5) == 5 && Distance(a, b, 1, 6) == 6 && Distance(a, b, 1, 7) == 7 && Distance(a, b, 1, 8) == 8 && Distance(a, b, 1, 9) == 9 && Distance(a, b, 1, 10) == 10;
  }

  lemma KittenABittenBugDistanceRow4(a: string, b: string)
    requires a == "KITTEN" && b == "ABITTENBUG"
    ensures Distance(a, b, 4, 1) == 4 && Distance(a, b, 4, 2) == 4 && Distance(a, b, 4, 3) == 4 && Distance(a, b, 4, 4) == 3 && Distance(a, b, 4, 5) == 2 && Distance(a, b, 4, 6) == 3 && Distance(a, b, 4, 7) == 4 && Distance(a, b, 4, 8) == 5 && Distance(a, b, 4, 9) == 6 && Distance(a, b, 4, 10) == 7
  {
    KittenABittenBugDistanceRow2(a, b);
    assert Distance(a, b, 3, 1) == 3 && Distance(a, b, 3, 2) == 3 && Distance(a, b, 3, 3) == 3 && Distance(a, b, 3, 4) == 2 && Distance(a, b, 3, 5) == 3 && Distance(a, b, 3, 6) == 4 && Distance(a, b, 3, 7) == 5 && Distance(a, b, 3, 8) == 6 && Distance(a, b, 3, 9) == 7 && Distance(a, b, 3, 10) == 8;
  }

  lemma KittenABittenBugDistance(a: string, b: string)
    requires a == "KITTEN" && b == "ABITTENBUG"
    ensures EditDistance(a, b) == 5
  {
    KittenABittenBugDistanceRow4(a, b);
    assert Distance(a, b, 5, 1) == 5 && Distance(a, b, 5, 2) == 5 && Distance(a, b, 5, 3) == 5 && Distance(a, b, 5, 4) == 4 && Distance(a, b, 5, 5) == 3 && Distance(a, b, 5, 6) == 2 && Distance(a, b, 5, 7) == 3 && Distance(a, b, 5, 8) == 4 && Distance(a, b, 5, 9) == 5 && Distance(a, b, 5, 10) == 6;
    assert Distance(a, b, 6, 1) == 6 && Distance(a, b, 6, 2) == 6 && Distance(a, b, 6, 3) == 6 && Distance(a, b, 6, 4) == 5 && Distance(a, b, 6, 5) == 4 && Distance(a, b, 6, 6) == 3 && Distance(a, b, 6, 7) == 2 && Distance(a, b, 6, 8) == 3 && Distance(a, b, 6, 9) == 4 && Distance(a, b, 6, 10) == 5;
  }

  lemma GooDuckDistance(a: string, b: string)
    requires a == "GOO" && b == "DUCK"
    ensures EditDistance(a, b) == 4
  {
    assert Distance(a, b, 1, 1) == 1 && Distance(a, b, 1, 2) == 2 && Distance(a, b, 1, 3) == 3 && Distance(a, b, 1, 4) == 4;
    assert Distance(a, b, 2, 1) == 2 && Distance(a, b, 2, 2) == 2 && Distance(a, b, 2, 3) == 3 && Distance(a, b, 2, 4) == 4;
    assert Distance(a, b, 3, 1) == 3 && Distance(a, b, 3, 2) == 3 && Distance(a, b, 3, 3) == 3 && Distance(a, b, 3, 4) == 4;
  }

  lemma GooGooseDistance(a: string, b: string)
    requires a == "GOO" && b == "GOOSE"
    ensures EditDistance(a, b) == 2
  {
    assert Distance(a, b, 1, 1) == 0 && Distance(a, b, 1, 2) == 1 && Distance(a, b, 1, 3) == 2 && Distance(a, b, 1, 4) == 3 && Distance(a, b, 1, 5) == 4;
    assert Distance(a, b, 2, 1) == 1 && Distance(a, b, 2, 2) == 0 && Distance(a, b, 2, 3) == 1 && Distance(a, b, 2, 4) == 2 && Distance(a, b, 2, 5) == 3;
    assert Distance(a, b, 3, 1) == 2 && Distance(a, b, 3, 2) == 1 && Distance(a, b, 3, 3) == 0 && Distance(a, b, 3, 4) == 1 && Distance(a, b, 3, 5) == 2;
  }
}
