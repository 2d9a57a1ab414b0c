/** `TraitOrderer`: orders test cases by their "TestOrder" trait alone. */
module TraitOrderer {
  import opened Wrappers
  import opened Numerals
  import opened Guards
  import opened Ordering
  import opened TestCases
  import TestOrderDiscoverer
  import TestOrderer

  /** Whether the key selector reads the trait: it must be present with MORE
      THAN ONE value (`Count > 1`). */
  predicate HasSeveralTestOrderValues(testCase: TestCase) {
    TestOrderTraitName in testCase.traits && |testCase.traits[TestOrderTraitName]| > 1
  }

  /** The key selector: the first "TestOrder" value when the trait has more than
      one value and that value parses as an `int`; `int.MaxValue` otherwise. */
  function Key(testCase: TestCase): (k: int)
    ensures Int32Min <= k <= Int32Max
    ensures (!HasSeveralTestOrderValues(testCase) ||
             TryParseInt32(testCase.traits[TestOrderTraitName][0]).None?) ==> k == Int32Max
    ensures HasSeveralTestOrderValues(testCase) && TryParseInt32(testCase.traits[TestOrderTraitName][0]).Some? ==>
            TryParseInt32(testCase.traits[TestOrderTraitName][0]) == Some(k)
  {
    if HasSeveralTestOrderValues(testCase) &&
       TryParseInt32(testCase.traits[TestOrderTraitName][0]).Some?
    then TryParseInt32(testCase.traits[TestOrderTraitName][0]).value
    else Int32Max
  }

  /** `OrderTestCases`: a null sequence is rejected; otherwise the cases come out
      as a permutation of the input, stably sorted by `Key`. */
  function OrderTestCases(testCases: Option<seq<TestCase>>): (r: Result<seq<TestCase>, Error>)
    ensures testCases.None? ==> r == Failure(ArgumentNull("testCases"))
    ensures testCases.Some? ==> r.Success? && multiset(r.value) == multiset(testCases.value)
    ensures testCases.Some? ==> SortedBy(r.value, Key) && KeepsOrderWithinKeys(testCases.value, r.value, Key)
  {
    match testCases
    case None => Failure(ArgumentNull("testCases"))
    case Some(list) => Success(OrderBy(list, Key))
  }

  /** When no case has more than one "TestOrder" value, the input order is kept. */
  lemma AtMostOneValueKeepsOrder(list: seq<TestCase>)
    requires forall i :: 0 <= i < |list| ==> !HasSeveralTestOrderValues(list[i])
    ensures OrderTestCases(Some(list)) == Success(list)
  {
    OrderByOfEqualKeys(list, Key, Int32Max);
  }

  /** `OrderTestCases` with the evidently intended `Count > 0` guard, which makes
      its key selector the one `TestOrderer` uses. */
  function OrderTestCasesIntended(testCases: Option<seq<TestCase>>): (r: Result<seq<TestCase>, Error>)
    ensures testCases.None? ==> r == Failure(ArgumentNull("testCases"))
    ensures testCases.Some? ==> r.Success? && multiset(r.value) == multiset(testCases.value)
    ensures testCases.Some? ==> SortedBy(r.value, TestOrderer.TraitKey) && KeepsOrderWithinKeys(testCases.value, r.value, TestOrderer.TraitKey)
  {
    match testCases
    case None => Failure(ArgumentNull("testCases"))
    case Some(list) => Success(OrderBy(list, TestOrderer.TraitKey))
  }

  /** Two cases declared `[TestOrder(2)]` and `[TestOrder(1)]`, in that order:
      as written they stay in that order; with the intended guard they are swapped. */
  lemma SingleValuedOrdersAreNotSorted(first: TestCase, second: TestCase)
    requires first.traits == map[TestOrderTraitName := [TestOrderDiscoverer.GetTraits(2)[0].1]]
    requires second.traits == map[TestOrderTraitName := [TestOrderDiscoverer.GetTraits(1)[0].1]]
    ensures OrderTestCases(Some([first, second])) == Success([first, second])
    ensures OrderTestCasesIntended(Some([first, second])) == Success([second, first])
  {
    AtMostOneValueKeepsOrder([first, second]);
    TestOrderer.DiscoveredOrderIsKey(first, 2);
    TestOrderer.DiscoveredOrderIsKey(second, 1);
    OrderByOfTwo(first, second, TestOrderer.TraitKey);
  }
}
