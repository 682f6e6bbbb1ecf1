# BetterStringExtensions in Dafny

A Dafny model of the core of BetterStringExtensions, a C# library of extension methods. The model covers:

- **Edit distance** (`StringUtils.ComputeLevenshteinDistance`): the Wagner–Fischer table, filled row by row in a two-dimensional array, as the C# does.
- **Simplification and fuzzy scoring** (`StringUtils.Simplify`, `StringUtils.Score`). A string is simplified by keeping its letters and digits, upper-cased. Two strings score the `double.MaxValue` sentinel when their simplified forms are equal; otherwise the score is a length-dampened edit distance, clamped to [0, 1].
- **`FuzzyEquals`**: a score compared against a threshold in [0, 1]; the default threshold is 2/3.
- **Both `FuzzySearch` overloads**: score every element of a sequence, keep those at or above the threshold, and sort them best first. The sort is stable.
- **Search results**: `FuzzySearchResult` (index, value, score) and the `FuzzySearchResultCollection` that the search returns.
- **String extensions**: `IsNullOrEmpty`, `IsNullOrWhiteSpace`, `EqualsIgnoreCase`, `ContainsIgnoreCase`, `Before` and `After`.
- **Collection extensions**: `ContainsIgnoreCase`, `DistinctIgnoreCase`, `AddRange` and `BatchesOf`.

C# `null` is `Option.None` (module `Wrappers`). A thrown `ArgumentNullException`, `ArgumentOutOfRangeException` or `NullReferenceException` is `Result.Err` carrying the parameter name. Character classification and case mapping live in module `Chars`.

The library's unit tests that fall inside this core are proved as lemmas about the model: `StringUtilsTests`, `FuzzyTests` (with `SimplifyExamples` and `DistanceExamples`), `StringExtensionsTests` and `CollectionExtensionsTests`.

How C# constructs map to the model:

| C# | Dafny |
|---|---|
| Pure functions and LINQ pipelines | functions on values, with lemmas |
| The Levenshtein table | a method over an `array2<int>`, with loop invariants |
| The running `idx++` counter of `FuzzySearch` | the method `ScoreAll` |
| The loop in `FuzzySearchResultCollection` | its constructor |
| The loop in `AddRange` | a method on a `Collection` class, whose `Items` field it extends |
| The batch loop of `BatchesOf` | a method, specified by `Batches` and `IsBatching` |

## Model

| member | source | states |
|---|---|---|
| StringUtils.Distance | BetterStringExtensions/StringUtils.cs:37-58 | The table recurrence itself, the reference the method is proved against: row 0 and column 0 hold the prefix lengths, and every other cell is the least of deletion, insertion and substitution. It has no contract of its own; DistanceSymmetric, DistanceBounds and DistanceZeroIff state its properties. |
| StringUtils.ComputeLevenshteinDistance | BetterStringExtensions/StringUtils.cs:17-63 | A null `value1` is rejected naming `value1`. Otherwise a null `value2` is rejected naming `value2`. Otherwise the table, filled row by row, returns `EditDistance` of the two strings. This includes the early returns when either string is empty. |
| StringUtils.FillRow | BetterStringExtensions/StringUtils.cs:50-59 | One run of the inner loop: given row i-1 of the recurrence, row i ends up holding the recurrence's values, and no other row changes. |
| StringUtils.SetCell | BetterStringExtensions/StringUtils.cs:53-58 | The cost and minimum step sets cell (i, j) to the recurrence's value from its three neighbours; every other cell keeps its value. |
| StringUtils.EditDistance | BetterStringExtensions/StringUtils.cs:27-35 | The distance to an empty string is the other string's length. |
| StringUtils.EditDistanceFacts | BetterStringExtensions/StringUtils.cs:17-63 | The computed distance is a metric-like measure: symmetric, zero exactly when the strings are equal, at least the difference of the lengths, at most the longer length. |
| StringUtils.DistanceSymmetric | BetterStringExtensions/StringUtils.cs:47-60 | For every pair of prefixes, swapping the strings gives the same table entry. |
| StringUtils.DistanceBounds | BetterStringExtensions/StringUtils.cs:47-60 | Every table entry lies between the difference and the maximum of the two prefix lengths. |
| StringUtils.DistanceZeroIff | BetterStringExtensions/StringUtils.cs:47-60 | A table entry is zero exactly when the two prefixes are equal. |
| StringUtils.Simplify | BetterStringExtensions/StringUtils.cs:65-76 | Null simplifies to "". The result is no longer than the input and holds only upper-case letters and digits. |
| StringUtils.SimplifyIdempotent | BetterStringExtensions/StringUtils.cs:65-76 | Simplifying a simplified string changes nothing. |
| StringUtils.SimplifyIgnoresCase | BetterStringExtensions/StringUtils.cs:75 | Two strings that agree up to case simplify to the same string. |
| StringUtils.SimplifyAppend | BetterStringExtensions/StringUtils.cs:69-73 | Simplification works character by character and keeps order: simplifying s + t gives Simplify(s) + Simplify(t). |
| StringUtils.SimplifyLettersAndDigits | BetterStringExtensions/StringUtils.cs:71-75 | A string made only of letters and digits simplifies to its upper-cased form. |
| StringUtils.AtLeast | BetterStringExtensions/Fuzzy/FuzzyStringExtensions.cs:25 | `Score >= minScore` on a real threshold. The `double.MaxValue` sentinel passes every threshold. |
| StringUtils.Geq | BetterStringExtensions/Fuzzy/Linq/FuzzyCollectionExtensions.cs:78 | The key comparison of `OrderByDescending`. The sentinel ranks at least as high as every score, and a score that ranks at least as high as another passes every threshold that the other passes (line 77). |
| StringUtils.GeqTotalPreorder | BetterStringExtensions/Fuzzy/Linq/FuzzyCollectionExtensions.cs:78 | Comparing scores, with the `double.MaxValue` sentinel above every other score, is reflexive, total, transitive and antisymmetric. |
| StringUtils.MeanLength | BetterStringExtensions/StringUtils.cs:86 | The mean length of two different simplified strings is positive, so the division in the score is defined. |
| StringUtils.LongerLength | BetterStringExtensions/StringUtils.cs:89 | The longer length is positive and at least each length. |
| StringUtils.Modifier | BetterStringExtensions/StringUtils.cs:88-90 | The dampening factor max(low/high, 2/3) lies between 2/3 and 1. |
| StringUtils.RawScore | BetterStringExtensions/StringUtils.cs:85-92 | Before clamping, the score of two different strings is below 1, because their distance is at least 1. |
| StringUtils.Similarity | BetterStringExtensions/StringUtils.cs:92 | The clamped score of two different strings lies in [0, 1). |
| StringUtils.Score | BetterStringExtensions/StringUtils.cs:78-95 | The result is the sentinel exactly when both inputs simplify to the same string; any other score lies in [0, 1). |
| StringUtils.ScoreSymmetric | BetterStringExtensions/StringUtils.cs:78-95 | Score(a, b) == Score(b, a). |
| StringUtils.RawScoreSymmetric | BetterStringExtensions/StringUtils.cs:85-90 | The unclamped score does not depend on argument order. |
| StringUtils.ModifierSymmetric | BetterStringExtensions/StringUtils.cs:88-90 | The dampening factor does not depend on argument order. |
| StringUtils.ScoreAgainstEmpty | BetterStringExtensions/StringUtils.cs:85-92 | A non-empty simplified string scores exactly 0 against an empty one: the raw value is -1/3, which the clamp raises to 0. |
| FuzzyStringExtensions.FuzzyEquals | BetterStringExtensions/Fuzzy/FuzzyStringExtensions.cs:22-26 | For a real threshold, the call fails with ArgumentOutOfRange("minScore") exactly when the threshold lies outside [0, 1]. Otherwise it answers whether Score(value1, value2) reaches the threshold. A NaN threshold is modelled by FuzzyEqualsAsWritten. |
| FuzzyStringExtensions.FuzzyEqualsDefault | BetterStringExtensions/Fuzzy/FuzzyStringExtensions.cs:22 | The default threshold is 2/3, and with it the call never fails. |
| FuzzyStringExtensions.SimplifiedEqualIsFuzzyEqual | BetterStringExtensions/Fuzzy/FuzzyStringExtensions.cs:24-25 | Strings that simplify to the same string are fuzzy-equal at every valid threshold. |
| FuzzyStringExtensions.FuzzyEqualsAtOne | BetterStringExtensions/Fuzzy/FuzzyStringExtensions.cs:25 | At threshold 1, only strings with equal simplified forms are fuzzy-equal. |
| FuzzyStringExtensions.FuzzyEqualsMonotone | BetterStringExtensions/Fuzzy/FuzzyStringExtensions.cs:25 | A pair that matches at some threshold also matches at every lower valid threshold. |
| FuzzyStringExtensions.FuzzyEqualsSymmetric | BetterStringExtensions/Fuzzy/FuzzyStringExtensions.cs:22-26 | Swapping the strings changes neither the answer nor the error. |
| FuzzyStringExtensions.Passes | BetterStringExtensions/Fuzzy/FuzzyStringExtensions.cs:25 | `Score >= minScore` on a double threshold: false for NaN, even for the sentinel, and AtLeast on a real threshold. |
| FuzzyStringExtensions.RejectedAsWritten | BetterStringExtensions/Fuzzy/FuzzyStringExtensions.cs:24 | The guard `minScore < 0d` or `minScore > 1d` as written: it rejects exactly the real thresholds outside [0, 1], so NaN is let through. |
| FuzzyStringExtensions.FuzzyEqualsAsWritten | BetterStringExtensions/Fuzzy/FuzzyStringExtensions.cs:22-26 | The method as written, on a double threshold: on a real threshold it answers as FuzzyEquals, and on NaN it returns false without an error. |
| FuzzyStringExtensions.NaNThresholdAccepted | BetterStringExtensions/Fuzzy/FuzzyStringExtensions.cs:24-25 | "X" scores the sentinel against itself, yet at threshold NaN it is not fuzzy-equal to itself, and no error is raised. |
| FuzzyStringExtensions.Rejected | BetterStringExtensions/Fuzzy/FuzzyStringExtensions.cs:19-24 | The intended guard: a threshold is rejected unless it is a real in [0, 1], NaN included. |
| FuzzyStringExtensions.FuzzyEqualsGuarded | BetterStringExtensions/Fuzzy/FuzzyStringExtensions.cs:19-26 | With the intended guard, the call fails with ArgumentOutOfRange("minScore") exactly when the threshold is not a real in [0, 1], and on every real threshold it answers as FuzzyEquals. |
| FuzzyStringExtensions.GuardedSelfMatch | BetterStringExtensions/Fuzzy/FuzzyStringExtensions.cs:19-26 | With the intended guard, every accepted threshold finds a string fuzzy-equal to itself. |
| FuzzySearchResults.FuzzySearchResultCollection.Empty | BetterStringExtensions/Fuzzy/Linq/FuzzySearchResultCollection.cs:19 | The parameterless constructor makes an empty list. |
| FuzzySearchResults.FuzzySearchResultCollection.constructor | BetterStringExtensions/Fuzzy/Linq/FuzzySearchResultCollection.cs:25-34 | A null argument gives an empty list. Otherwise the list holds the given results in their order. |
| FuzzySearchResults.FuzzySearchResultCollection.Add | BetterStringExtensions/Fuzzy/Linq/FuzzySearchResultCollection.cs:31 | Appends one result at the end. |
| FuzzyCollectionExtensions.Converter | BetterStringExtensions/Fuzzy/Linq/FuzzyCollectionExtensions.cs:57-63 | A converter supplied by the caller is used as given. |
| FuzzyCollectionExtensions.DefaultConverterText | BetterStringExtensions/Fuzzy/Linq/FuzzyCollectionExtensions.cs:59-62 | The default converter never yields null: it gives the element's text, or "" when the element or its text is null. |
| FuzzyCollectionExtensions.Indexed | BetterStringExtensions/Fuzzy/Linq/FuzzyCollectionExtensions.cs:65-75 | One result per element: result i holds index i, element i and that element's score against the value. |
| FuzzyCollectionExtensions.ScoreAll | BetterStringExtensions/Fuzzy/Linq/FuzzyCollectionExtensions.cs:65-76 | The loop with the running `idx++` counter builds exactly `Indexed`. |
| FuzzyCollectionExtensions.WhereAtLeast | BetterStringExtensions/Fuzzy/Linq/FuzzyCollectionExtensions.cs:77 | Every result kept reaches the threshold, and every result that reaches it is kept. |
| FuzzyCollectionExtensions.WhereKeepsOrder | BetterStringExtensions/Fuzzy/Linq/FuzzyCollectionExtensions.cs:76-77 | The filter keeps the results in ascending index order. |
| FuzzyCollectionExtensions.Insert | BetterStringExtensions/Fuzzy/Linq/FuzzyCollectionExtensions.cs:78 | Inserting one result adds exactly that result to the multiset. |
| FuzzyCollectionExtensions.SortByScoreDescending | BetterStringExtensions/Fuzzy/Linq/FuzzyCollectionExtensions.cs:78 | The sort is a permutation of its input. |
| FuzzyCollectionExtensions.InsertSorted | BetterStringExtensions/Fuzzy/Linq/FuzzyCollectionExtensions.cs:78 | Inserting into a list ranked best first keeps it ranked best first. |
| FuzzyCollectionExtensions.InsertTies | BetterStringExtensions/Fuzzy/Linq/FuzzyCollectionExtensions.cs:78 | Inserting a result with a smaller index than all others keeps equal scores in ascending index order. |
| FuzzyCollectionExtensions.SortFacts | BetterStringExtensions/Fuzzy/Linq/FuzzyCollectionExtensions.cs:78 | `OrderByDescending` is a stable sort: applied to results in index order, it ranks them best first and keeps ties in index order. |
| FuzzyCollectionExtensions.Ranked | BetterStringExtensions/Fuzzy/Linq/FuzzyCollectionExtensions.cs:65-78 | The whole `Select`, `Where`, `OrderByDescending` pipeline. It returns at most one result per element; RankedMembers, RankedDistinct, RankedComplete and RankedOrder state what the results are. |
| FuzzyCollectionExtensions.RankedMembers | BetterStringExtensions/Fuzzy/Linq/FuzzyCollectionExtensions.cs:65-78 | Every returned result carries an element of the input, that element's own index and its score, and the score reaches the threshold. |
| FuzzyCollectionExtensions.RankedDistinct | BetterStringExtensions/Fuzzy/Linq/FuzzyCollectionExtensions.cs:65-78 | No element is returned twice. |
| FuzzyCollectionExtensions.RankedComplete | BetterStringExtensions/Fuzzy/Linq/FuzzyCollectionExtensions.cs:76-78 | Every element whose score reaches the threshold is returned. |
| FuzzyCollectionExtensions.RankedOrder | BetterStringExtensions/Fuzzy/Linq/FuzzyCollectionExtensions.cs:76-78 | The results are ranked best first, and results with equal scores keep their original order. |
| FuzzyCollectionExtensions.FuzzySearch | BetterStringExtensions/Fuzzy/Linq/FuzzyCollectionExtensions.cs:52-81 | A null sequence fails with ArgumentNull("objects"). Otherwise a real threshold outside [0, 1] fails with ArgumentOutOfRange("minScore"); a NaN threshold is modelled by SearchAsWritten. Otherwise the result is a new collection holding the scored, filtered and sorted results. |
| FuzzyCollectionExtensions.FuzzySearchDefault | BetterStringExtensions/Fuzzy/Linq/FuzzyCollectionExtensions.cs:28-31 | The overload without a threshold searches at 2/3 and can only fail on a null sequence. |
| FuzzyCollectionExtensions.WherePasses | BetterStringExtensions/Fuzzy/Linq/FuzzyCollectionExtensions.cs:77 | The `Where` step on a double threshold: on a real threshold it is WhereAtLeast, and on NaN it keeps nothing. |
| FuzzyCollectionExtensions.SearchAsWritten | BetterStringExtensions/Fuzzy/Linq/FuzzyCollectionExtensions.cs:52-78 | The search as written, on a double threshold: the null check, then the range guard, which lets NaN through. A real threshold gives the FuzzySearch results, and NaN gives an empty result without an error. |
| FuzzyCollectionExtensions.NaNSearchFindsNothing | BetterStringExtensions/Fuzzy/Linq/FuzzyCollectionExtensions.cs:55-77 | Searching ["goo"] for "goo" at threshold NaN raises no error and finds nothing, although the element scores the sentinel. |
| FuzzyCollectionExtensions.SearchGuarded | BetterStringExtensions/Fuzzy/Linq/FuzzyCollectionExtensions.cs:40-78 | With the intended guard: a null sequence fails first, then every threshold that is not a real in [0, 1] fails with ArgumentOutOfRange("minScore"), NaN included. Every accepted threshold gives the FuzzySearch results. |
| FuzzyCollectionExtensions.GuardedSearchFindsExact | BetterStringExtensions/Fuzzy/Linq/FuzzyCollectionExtensions.cs:40-78 | With the intended guard, a search that succeeds returns every element that simplifies to the same string as the value. |
| StringExtensions.IsNullOrEmpty | BetterStringExtensions/StringExtensions.cs:16-19 | True exactly for null and "". |
| StringExtensions.IsNullOrWhiteSpace | BetterStringExtensions/StringExtensions.cs:24-27 | True exactly for null and for strings made only of white space. Anything null or empty counts. |
| StringExtensions.EqualsIgnoreCase | BetterStringExtensions/StringExtensions.cs:34-37 | Null equals only null. Two present strings are equal when they agree after upper-casing. |
| StringExtensions.EqualsIgnoreCaseEquivalence | BetterStringExtensions/StringExtensions.cs:34-37 | The comparison is reflexive, symmetric and transitive, nulls included. |
| StringExtensions.EqualsIgnoreCaseLength | BetterStringExtensions/StringExtensions.cs:34-37 | Equal strings have equal lengths, and a string equals its own upper-cased form. |
| StringExtensions.IndexOf | BetterStringExtensions/StringExtensions.cs:54 | Gives the first position where the search string matches, or -1 exactly when it matches nowhere. |
| StringExtensions.ContainsIgnoreCase | BetterStringExtensions/StringExtensions.cs:51-55 | When either side is null, the answer is whether both are. Otherwise the answer is whether the substring matches somewhere, ignoring case. |
| StringExtensions.ContainsEmptyAndSelf | BetterStringExtensions/StringExtensions.cs:54 | Every string contains "" and its own upper-cased form. |
| StringExtensions.ContainsIgnoresCase | BetterStringExtensions/StringExtensions.cs:54 | Upper-casing either side does not change the answer. |
| StringExtensions.Before | BetterStringExtensions/StringExtensions.cs:66-82 | A null or empty search string returns the input, and so does a null input. Otherwise the result is a prefix of the input. |
| StringExtensions.After | BetterStringExtensions/StringExtensions.cs:93-109 | A null or empty search string returns the input, and so does a null input. Otherwise the result is a suffix of the input. |
| StringExtensions.BeforeAfterFirstMatch | BetterStringExtensions/StringExtensions.cs:74-77 | When the first match is at idx, Before gives the text ahead of it and After the text behind it (lines 101-104). |
| StringExtensions.BeforeAfterNoMatch | BetterStringExtensions/StringExtensions.cs:74-81 | Without a match, both Before and After return the input unchanged. |
| StringExtensions.BeforeAfterRoundTrip | BetterStringExtensions/StringExtensions.cs:66-109 | For a case-sensitive match of a non-empty search string, Before + search + After rebuilds the input. |
| CollectionExtensions.ContainsIgnoreCase | BetterStringExtensions/CollectionExtensions.cs:23-26 | A null source contains nothing. Otherwise the answer is whether some element equals the value ignoring case, null elements included. |
| CollectionExtensions.DistinctPrefix | BetterStringExtensions/CollectionExtensions.cs:38 | Folding over the first n elements: everything kept comes from them, no two kept elements are equal ignoring case, and every one of them has an equal kept element. |
| CollectionExtensions.DistinctKeepsFirstOccurrences | BetterStringExtensions/CollectionExtensions.cs:38 | Element n is kept exactly when no earlier element equals it ignoring case. So the result is the first member of each class, in source order, as `Distinct` yields it. |
| CollectionExtensions.DistinctIgnoreCase | BetterStringExtensions/CollectionExtensions.cs:36-39 | Null exactly for a null source. Otherwise the elements come from the source, are pairwise distinct ignoring case, and one of them equals each source element. |
| CollectionExtensions.Collection.Add | BetterStringExtensions/CollectionExtensions.cs:61 | `ICollection.Add` appends one element. |
| CollectionExtensions.AddRange | BetterStringExtensions/CollectionExtensions.cs:50-66 | On a non-null collection, the elements are appended in order (none for a null sequence) and the same collection is returned. A null collection is returned when there is nothing to add, and fails with NullReference otherwise. |
| CollectionExtensions.BatchesOf | BetterStringExtensions/CollectionExtensions.cs:74-96 | A batch size of 1 or less fails with ArgumentOutOfRange("batchSize"). A null source gives no batches. Otherwise the loop yields exactly `Batches(source, batchSize)`, which is a batching of the source. |
| CollectionExtensions.Batches | BetterStringExtensions/CollectionExtensions.cs:83-94 | The batches the iterator yields, as a sequence. Every batch holds between 1 and n elements, and there are none exactly when the source is empty. |
| CollectionExtensions.BatchesIsBatching | BetterStringExtensions/CollectionExtensions.cs:84-94 | The batches concatenate back to the source. Each holds between 1 and n elements, and all but the last hold exactly n. |
| CollectionExtensions.BatchingUnique | BetterStringExtensions/CollectionExtensions.cs:84-94 | Any batching with those properties is the one `BatchesOf` produces. |
| CollectionExtensions.BatchAt | BetterStringExtensions/CollectionExtensions.cs:84-94 | Batch i holds the source elements from i·n up to (i+1)·n, or up to the end. |
| CollectionExtensions.BatchCount | BetterStringExtensions/CollectionExtensions.cs:84-94 | There are ceil(\|s\| / n) batches. This is stated as (count - 1)·n < \|s\| <= count·n. |
| StringUtilsTests.EmptyDistance | BetterStringExtensions.Tests/StringUtils_Tests.cs:18-22 | The distance between two empty strings is 0. |
| StringUtilsTests.GrayGrey | BetterStringExtensions.Tests/StringUtils_Tests.cs:24-28 | GRAY and GREY are 1 apart. |
| StringUtilsTests.HelloWorld | BetterStringExtensions.Tests/StringUtils_Tests.cs:30-34 | "Hello, World!" and "Hello World" are 2 apart. |
| StringUtilsTests.AppleBanana | BetterStringExtensions.Tests/StringUtils_Tests.cs:36-40 | apple and banana are 5 apart. |
| SimplifyExamples.SimplifyHelloWorld1 | BetterStringExtensions.Tests/Fuzzy_Tests.cs:22 | "Hello, World!" simplifies to HELLOWORLD. |
| SimplifyExamples.SimplifyHelloWorld2 | BetterStringExtensions.Tests/Fuzzy_Tests.cs:22 | "HELLO WORLD" simplifies to HELLOWORLD. |
| DistanceExamples.KittenAMittenDistance | BetterStringExtensions.Tests/Fuzzy_Tests.cs:25 | KITTEN and AMITTEN are 2 apart. |
| DistanceExamples.KittenMyMittenDistance | BetterStringExtensions.Tests/Fuzzy_Tests.cs:26 | KITTEN and MYMITTEN are 3 apart. |
| DistanceExamples.KittenABittenBugDistance | BetterStringExtensions.Tests/Fuzzy_Tests.cs:29-32 | KITTEN and ABITTENBUG are 5 apart. |
| DistanceExamples.GooDuckDistance | BetterStringExtensions.Tests/Fuzzy_Tests.cs:69-72 | GOO and DUCK are 4 apart. |
| DistanceExamples.GooGooseDistance | BetterStringExtensions.Tests/Fuzzy_Tests.cs:69-72 | GOO and GOOSE are 2 apart. |
| FuzzyTests.HelloWorldFuzzyEquals | BetterStringExtensions.Tests/Fuzzy_Tests.cs:22 | "Hello, World!" is fuzzy-equal to "HELLO WORLD" at the default threshold. |
| FuzzyTests.KittenAMittenScore | BetterStringExtensions.Tests/Fuzzy_Tests.cs:25 | Kitten vs "a mitten" scores 67/91. |
| FuzzyTests.KittenAMittenFuzzyEquals | BetterStringExtensions.Tests/Fuzzy_Tests.cs:25 | Kitten is fuzzy-equal to "a mitten". |
| FuzzyTests.KittenMyMittenScore | BetterStringExtensions.Tests/Fuzzy_Tests.cs:26 | Kitten vs "my mitten" scores 19/28. |
| FuzzyTests.KittenMyMittenFuzzyEquals | BetterStringExtensions.Tests/Fuzzy_Tests.cs:26 | Kitten is fuzzy-equal to "my mitten". |
| FuzzyTests.KittenABittenBugScore | BetterStringExtensions.Tests/Fuzzy_Tests.cs:29-32 | Kitten vs "a bitten bug" scores 7/12. |
| FuzzyTests.KittenABittenBugFuzzyEquals | BetterStringExtensions.Tests/Fuzzy_Tests.cs:29-32 | Not fuzzy-equal at the default threshold, but fuzzy-equal at 0.5. |
| FuzzyTests.OutOfRangeThresholds | BetterStringExtensions.Tests/Fuzzy_Tests.cs:37-47 | Thresholds 1.1 and -0.1 are rejected. |
| FuzzyTests.GooDuckScore | BetterStringExtensions.Tests/Fuzzy_Tests.cs:69-72 | goo vs Duck scores 1/7. |
| FuzzyTests.GooGooseScore | BetterStringExtensions.Tests/Fuzzy_Tests.cs:69-72 | goo vs Goose scores exactly 2/3, the default threshold. |
| FuzzyTests.GooEmptyScore | BetterStringExtensions.Tests/Fuzzy_Tests.cs:69-72 | goo vs "" scores 0. |
| FuzzyTests.DuckGooseSearch | BetterStringExtensions.Tests/Fuzzy_Tests.cs:69-72 | Searching {Duck, "", Duck, null, Goose} for goo returns only Goose, at index 4. |
| StringExtensionsTests.NullOrEmptyCases | BetterStringExtensions.Tests/StringExtensions_Tests.cs:16-34 | The IsNullOrEmpty and IsNullOrWhiteSpace test cases. |
| StringExtensionsTests.EqualsIgnoreCaseCases | BetterStringExtensions.Tests/StringExtensions_Tests.cs:37-61 | The EqualsIgnoreCase test cases. The symmetric variants follow from EqualsIgnoreCaseEquivalence. |
| StringExtensionsTests.ContainsIgnoreCaseCases | BetterStringExtensions.Tests/StringExtensions_Tests.cs:64-74 | The null cases; Hello contains ELL; Hello does not contain Jello. |
| StringExtensionsTests.ContainsHelloCases | BetterStringExtensions.Tests/StringExtensions_Tests.cs:70-72 | Hello contains HELLO and ello. |
| StringExtensionsTests.BeforeNullCases | BetterStringExtensions.Tests/StringExtensions_Tests.cs:78-94 | The Before cases with a null or empty input or search string. |
| StringExtensionsTests.HelloBeforeLowerO | BetterStringExtensions.Tests/StringExtensions_Tests.cs:99 | "Hello" before "o" is "Hell". |
| StringExtensionsTests.HelloBeforeUpperO | BetterStringExtensions.Tests/StringExtensions_Tests.cs:100-104 | Case-sensitively, "Hello" before "O" is "Hello". This is also the default-flag call on line 104. |
| StringExtensionsTests.HelloBeforeUpperOIgnoringCase | BetterStringExtensions.Tests/StringExtensions_Tests.cs:101 | Ignoring case, "Hello" before "O" is "Hell". |
| StringExtensionsTests.HelloBeforeLowerH | BetterStringExtensions.Tests/StringExtensions_Tests.cs:102 | Ignoring case, "Hello" before "h" is "". |
| StringExtensionsTests.FoxCases | BetterStringExtensions.Tests/StringExtensions_Tests.cs:105 | In the quick-brown-fox sentence, the text before "FoX" (ignoring case) is "The quick brown ", and the text after it is " jumps over the lazy dog." (line 136). |
| StringExtensionsTests.AfterNullCases | BetterStringExtensions.Tests/StringExtensions_Tests.cs:109-125 | The After cases with a null or empty input or search string. |
| StringExtensionsTests.HelloAfterUpperO | BetterStringExtensions.Tests/StringExtensions_Tests.cs:130 | Ignoring case, "Hello" after "O" is "". |
| StringExtensionsTests.HelloAfterH | BetterStringExtensions.Tests/StringExtensions_Tests.cs:131-133 | "Hello" after "H" is "ello", and so is "Hello" after "h" ignoring case. |
| StringExtensionsTests.HelloAfterLowerH | BetterStringExtensions.Tests/StringExtensions_Tests.cs:132-135 | Case-sensitively, "Hello" after "h" is "Hello". This is also the default-flag call on line 135. |
| CollectionExtensionsTests.BasicBatches | BetterStringExtensions.Tests/CollectionExtensions_Tests.cs:33-41 | 0..499 in batches of 100 gives five batches, batch i holding 100·i up to 100·i + 99. |
| CollectionExtensionsTests.ExtendedBatches | BetterStringExtensions.Tests/CollectionExtensions_Tests.cs:44-49 | 0..14 in batches of 10 gives 0..9, then 10..14. |
| CollectionExtensionsTests.ContainsCases | BetterStringExtensions.Tests/CollectionExtensions_Tests.cs:61-64 | The five words contain heLLo and WORLD. Null and empty sources contain nothing (lines 87-88). |
| CollectionExtensionsTests.DistinctTwoClasses | BetterStringExtensions.Tests/CollectionExtensions_Tests.cs:66-67 | Five values that fall into two classes, {s0, s1} and {s2, s3, s4}, reduce to [s0, s2]. |
| CollectionExtensionsTests.DistinctCases | BetterStringExtensions.Tests/CollectionExtensions_Tests.cs:61-70 | The five words reduce to exactly [Hello, World], which has two elements. A null source gives null (line 89). |

The remaining test cases are direct instances of the contracts above:

- The null-argument tests of ComputeLevenshteinDistance, StringUtils_Tests.cs:45-55.
- The FuzzySearch argument tests, Fuzzy_Tests.cs:77-94.
- BatchErrorTest, CollectionExtensions_Tests.cs:53-56.
- AddRangeTest, NullTests and BadNullTest, CollectionExtensions_Tests.cs:74-99.

The methods CollectionExtensionsTests.AddRangeCases and CollectionExtensionsTests.BatchesOfCases check the last two groups by calling the methods themselves.

## Left out

- Chars: character classification is restricted to ASCII letters and digits, and white space to Latin-1. Upper-casing maps only a-z to A-Z. `char.IsLetterOrDigit`, `ToUpperInvariant` and `char.IsWhiteSpace` over all of Unicode are not modelled; Unicode tables have no place in this model.
- Chars, StringUtils.ComputeLevenshteinDistance, StringUtils.Score: a Dafny `char` is a Unicode scalar value, while a C# string is a sequence of UTF-16 code units. Lengths, and so distances and scores, count scalar values: a character outside the Basic Multilingual Plane (U+0000 to U+FFFF) counts 1 here where C#'s `Length` counts 2, and a lone surrogate, a legal C# string, cannot be written at all.
- FuzzyStringExtensions.FuzzyEquals, FuzzyCollectionExtensions.FuzzySearch: the threshold is a real, so a NaN threshold cannot be passed to them. In C# a NaN threshold passes the range guard and matches nothing: FuzzyEquals returns false and FuzzySearch returns an empty collection. FuzzyEqualsAsWritten and SearchAsWritten model this case; see Findings.
- StringExtensions.EqualsIgnoreCase: `InvariantCultureIgnoreCase` is modelled as character-by-character equality after upper-casing. Culture-sensitive collation (ignorable characters, ligatures, composed forms) is not modelled.
- StringExtensions.IndexOf: `Before` and `After` use `InvariantCulture` (when case matters) or `InvariantCultureIgnoreCase`. The model matches ordinally, or ordinally after upper-casing. The culture-aware matching of the .NET runtime, including how it treats an empty or ignorable search string, is outside the model.
- CollectionExtensions.DistinctIgnoreCase: it uses the same case fold as EqualsIgnoreCase, in place of `StringComparer.InvariantCultureIgnoreCase`.
- StringUtils.Score: scores are reals, not IEEE doubles, and the `double.MaxValue` sentinel is the separate constructor `Exact`. Rounding is not modelled. In the goo/Goose case the real score is exactly 2/3; rounding does not change the outcome that the threshold is reached.
- FuzzyCollectionExtensions.Converter: `x?.ToString()` of a generic element is the parameter `toText`, because the library's `ToString` overrides are outside the model.
- FuzzyCollectionExtensions.ScoreAll: the `select` with its shared `idx++` counter is a method over `seq`, and the array built by `ToArray` is a `seq`. The lazy evaluation of LINQ, and the order in which it would run the counter, are not modelled.
- FuzzySearchResults.FuzzySearchResult: a value, not an object with internal setters. Index is a `nat`, so overflow of the `int` counter past 2^31 - 1 elements is not modelled.
- FuzzySearchResults.FuzzySearchResultCollection: the `List<T>` base class is a `seq` field, `Items`, and only `Add` of its interface is modelled.
- CollectionExtensions.BatchesOf: modelled eagerly as a method returning all batches. The C# is an iterator, so its error is raised when the result is first enumerated, not when it is called, and each batch is handed out before the rest is read. Neither laziness is modelled.
- CollectionExtensions.AddRange: the element sequence is a value snapshot. An enumerable that changes while it is being read, or that aliases the collection it is added to, is not modelled. `ICollection<T>` is the class `Collection` with `Add` only.
- StringExtensions.BeforeAfterRoundTrip: stated for a non-empty search string and a case-sensitive match. With an empty search string, Before and After both return the input, so the round trip does not hold. Ignoring case, the matched text may differ from the search string in case.
- The FuzzySearch tests over `Enumerable.Range(1000, 8999)` (Fuzzy_Tests.cs:52-67) are not proved. Their result counts depend on thousands of concrete scores. Of what they check, only "every index equals value - 1000" follows, from RankedMembers. The assertions that the results are not in ascending value order (lines 61 and 66) depend on the concrete scores and are not proved: RankedOrder only says the results are ranked by score with ties in index order, and if every kept score were equal that order would be ascending.
- ParseEnum, ToHumanReadableFileSize, SecureString helpers, encryption, compression, resources and the other string helpers (StartsWithIgnoreCase, ReplaceIgnoreCase and so on) are not part of this model.

## Findings

| source | as written | input that shows it | evidently intended | confidence | as-written member | corrected member |
|---|---|---|---|---|---|---|
| BetterStringExtensions/Fuzzy/FuzzyStringExtensions.cs:24 | The guard `minScore < 0d` or `minScore > 1d` is false for NaN, and `Score >= NaN` on line 25 is false, so the call returns false. | `"X".FuzzyEquals("X", double.NaN)` returns false, though "X" scores the sentinel against itself. | The parameter is documented as a value between 0 and 1 (lines 19-21), so NaN should raise ArgumentOutOfRangeException like every other value outside that range. | medium; not executed | FuzzyStringExtensions.NaNThresholdAccepted | FuzzyStringExtensions.FuzzyEqualsGuarded |
| BetterStringExtensions/Fuzzy/Linq/FuzzyCollectionExtensions.cs:55 | The same guard lets NaN through, and the `Where` on line 77 then keeps nothing. | `new[] { "goo" }.FuzzySearch("goo", double.NaN)` returns an empty collection. | The parameter is documented as a value between 0 and 1 (lines 40-43), so NaN should raise ArgumentOutOfRangeException. | medium; not executed | FuzzyCollectionExtensions.NaNSearchFindsNothing | FuzzyCollectionExtensions.SearchGuarded |

On real thresholds the corrected members agree with FuzzyEquals and FuzzySearch, which the rest of the model uses: FuzzyEqualsGuarded and SearchGuarded say so in their contracts.
