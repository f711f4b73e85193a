/**
 * Incoming-route assertions (`RequestInfo`): a request URL and HTTP method
 * are resolved through the route collection, and the resolved route is
 * compared with what the test expects.
 */
module Incoming {
  import opened Wrappers
  import opened Text
  import opened Routing

  /** The application-root-relative form `~/...` of a request URL. */
  function PrepareUrl(url: string): (r: string)
    ensures "~/" <= r
    ensures |url| <= |r| <= |url| + 2 && r[|r| - |url|..] == url
    ensures "~/" <= url ==> r == url
  {
    if "~/" <= url then url
    else if "/" <= url then "~" + url
    else "~/" + url
  }

  /** No string shorter than the prepared URL starts with `~/` and ends with the URL. */
  lemma PrepareUrlShortest(url: string, t: string)
    requires "~/" <= t && |url| <= |t| && t[|t| - |url|..] == url
    ensures |PrepareUrl(url)| <= |t|
  {
  }

  lemma PrepareUrlIdempotent(url: string)
    ensures PrepareUrl(PrepareUrl(url)) == PrepareUrl(url)
  {
  }

  /**
   * Scalar equality of the assertions: two nulls are equal; otherwise both
   * sides must be `IComparable` and their string forms equal ignoring case.
   */
  function ValueCompare(value1: Value, value2: Value): (r: bool)
    ensures value1.Null? && value2.Null? ==> r
    ensures value1.Null? != value2.Null? ==> !r
    ensures !(value1.Comparable? && value2.Comparable?) && !(value1.Null? && value2.Null?) ==> !r
    ensures value1.Comparable? && value2.Comparable? ==> (r <==> Fold(value1.text) == Fold(value2.text))
  {
    if value1.Null? && value2.Null? then true
    else if value1.Comparable? && value2.Comparable? then
      CompareIgnoreCaseZero(value1.text, value2.text);
      CompareIgnoreCase(value1.text, value2.text) == 0
    else false
  }

  lemma ValueCompareSymmetric(value1: Value, value2: Value)
    ensures ValueCompare(value1, value2) == ValueCompare(value2, value1)
  {
  }

  /** Route values that take part in the value comparison. */
  predicate IsComparedValue(e: Entry) {
    e.key != "controller" && e.key != "action" && e.value != Optional
  }

  /** `r` is `s` with some entries dropped, the rest kept in their order. */
  predicate IsSubsequence(r: seq<Entry>, s: seq<Entry>)
    decreases |s|
  {
    if r == [] then true
    else if s == [] then false
    else (r[0] == s[0] && IsSubsequence(r[1..], s[1..])) || IsSubsequence(r, s[1..])
  }

  /**
   * The actual route values: the resolved route values without the
   * `controller` and `action` keys and without `UrlParameter.Optional` entries,
   * in the route's own order.
   */
  function ActualRouteValues(values: seq<Entry>): (r: seq<Entry>)
    requires DistinctKeys(values)
    ensures DistinctKeys(r)
    ensures IsSubsequence(r, values)
    ensures forall e :: e in r <==> e in values && IsComparedValue(e)
    ensures forall k :: (Get(r, k) ==
      if k == "controller" || k == "action" || Get(values, k) == Some(Optional) then None
      else Get(values, k))
    decreases |values|
  {
    if values == [] then []
    else
      var rest := ActualRouteValues(values[1..]);
      if IsComparedValue(values[0]) then
        assert Get(values[1..], values[0].key).None? by {
          forall i | 0 <= i < |values[1..]| ensures values[1..][i].key != values[0].key {
            assert values[1..][i] == values[i + 1];
          }
        }
        var r := [values[0]] + rest;
        assert forall i | 1 <= i < |r| :: r[i] == rest[i - 1];
        assert r[1..] == rest;
        r
      else
        assert rest != [] ==> IsSubsequence(rest, values[1..]);
        rest
  }

  /** An expected entry is present among the actual values with a value that compares equal. */
  predicate ExpectedEntryPasses(entry: Entry, actual: seq<Entry>) {
    Get(actual, entry.key).Some? && ValueCompare(Index(actual, entry.key), entry.value)
  }

  /** The failure an expected entry that does not pass is reported with. */
  function ExpectedEntryFailure(entry: Entry, actual: seq<Entry>): Failure {
    if Get(actual, entry.key).None? then RouteValueMissing(entry.key)
    else RouteValueValueMismatch(entry.key, entry.value, Index(actual, entry.key))
  }

  /** An actual entry is expected, with a value that compares equal. */
  predicate ActualEntryPasses(entry: Entry, expected: seq<Entry>) {
    Get(expected, entry.key).Some? && ValueCompare(entry.value, Index(expected, entry.key))
  }

  /** The failure an actual entry that does not pass is reported with. */
  function ActualEntryFailure(entry: Entry, expected: seq<Entry>): Failure {
    if Get(expected, entry.key).None? then UnexpectedRouteValue(entry.key, entry.value)
    else RouteValueValueMismatch(entry.key, Index(expected, entry.key), entry.value)
  }

  /** The scan over the expected values, used when there are at least as many of them. */
  function ScanExpected(expected: seq<Entry>, actual: seq<Entry>): (o: Outcome)
    ensures o.Raised? ==>
      o.error.Assertion? && (o.error.failure.RouteValueMissing? || o.error.failure.RouteValueValueMismatch?)
  {
    if expected == [] then Ok
    else
      var entry := expected[0];
      match Get(actual, entry.key)
      case None => Raised(Assertion(RouteValueMissing(entry.key)))
      case Some(v) =>
        if !ValueCompare(v, entry.value) then
          Raised(Assertion(RouteValueValueMismatch(entry.key, entry.value, v)))
        else ScanExpected(expected[1..], actual)
  }

  /** The scan over the actual values, used when they outnumber the expected ones. */
  function ScanActual(actual: seq<Entry>, expected: seq<Entry>): (o: Outcome)
    ensures o.Raised? ==>
      o.error.Assertion? && (o.error.failure.UnexpectedRouteValue? || o.error.failure.RouteValueValueMismatch?)
  {
    if actual == [] then Ok
    else
      var entry := actual[0];
      match Get(expected, entry.key)
      case None => Raised(Assertion(UnexpectedRouteValue(entry.key, entry.value)))
      case Some(v) =>
        if !ValueCompare(entry.value, v) then
          Raised(Assertion(RouteValueValueMismatch(entry.key, v, entry.value)))
        else ScanActual(actual[1..], expected)
  }

  /**
   * The expected-side scan reports the first expected entry that does not
   * pass: a missing key as "not found", a present one as a value mismatch.
   */
  lemma {:induction false} ScanExpectedFirstFailure(expected: seq<Entry>, actual: seq<Entry>, i: nat)
    requires i < |expected|
    requires forall j | 0 <= j < i :: ExpectedEntryPasses(expected[j], actual)
    requires !ExpectedEntryPasses(expected[i], actual)
    ensures ScanExpected(expected, actual) == Raised(Assertion(ExpectedEntryFailure(expected[i], actual)))
  {
    if i > 0 {
      assert ExpectedEntryPasses(expected[0], actual);
      assert forall j | 0 <= j < i - 1 :: expected[1..][j] == expected[j + 1];
      ScanExpectedFirstFailure(expected[1..], actual, i - 1);
    }
  }

  /**
   * The actual-side scan reports the first actual entry that does not pass:
   * an unexpected key, or a value mismatch.
   */
  lemma {:induction false} ScanActualFirstFailure(actual: seq<Entry>, expected: seq<Entry>, i: nat)
    requires i < |actual|
    requires forall j | 0 <= j < i :: ActualEntryPasses(actual[j], expected)
    requires !ActualEntryPasses(actual[i], expected)
    ensures ScanActual(actual, expected) == Raised(Assertion(ActualEntryFailure(actual[i], expected)))
  {
    if i > 0 {
      assert ActualEntryPasses(actual[0], expected);
      assert forall j | 0 <= j < i - 1 :: actual[1..][j] == actual[j + 1];
      ScanActualFirstFailure(actual[1..], expected, i - 1);
    }
  }

  /** The route-value stage of `ShouldMatchRoute`: the count rules, then the size-directed scan. */
  function RouteValuesOutcome(expected: Option<Entries>, actual: Entries): (o: Outcome)
    ensures actual != [] && expected.None? ==> o == Raised(Assertion(RouteValueCountMismatch(0, |actual|)))
    ensures actual == [] && expected.Some? ==> o == Raised(Assertion(RouteValueCountMismatch(|expected.value|, 0)))
    ensures actual == [] && expected.None? ==> o == Ok
    ensures o.Raised? ==> o.error.Assertion?
  {
    if |actual| > 0 then
      if expected.None? then Raised(Assertion(RouteValueCountMismatch(0, |actual|)))
      else if |expected.value| >= |actual| then ScanExpected(expected.value, actual)
      else ScanActual(actual, expected.value)
    else if expected.Some? then Raised(Assertion(RouteValueCountMismatch(|expected.value|, 0)))
    else Ok
  }

  /**
   * When both sides hold values, the value stage reports the first entry of
   * the scanned side that does not pass: the expected side when it has at
   * least as many entries, the actual side otherwise.
   */
  lemma RouteValuesFirstFailure(expected: Entries, actual: Entries, i: nat)
    requires actual != []
    ensures && |expected| >= |actual| && i < |expected|
            && (forall j | 0 <= j < i :: ExpectedEntryPasses(expected[j], actual))
            && !ExpectedEntryPasses(expected[i], actual)
        ==> RouteValuesOutcome(Some(expected), actual) == Raised(Assertion(ExpectedEntryFailure(expected[i], actual)))
    ensures && |expected| < |actual| && i < |actual|
            && (forall j | 0 <= j < i :: ActualEntryPasses(actual[j], expected))
            && !ActualEntryPasses(actual[i], expected)
        ==> RouteValuesOutcome(Some(expected), actual) == Raised(Assertion(ActualEntryFailure(actual[i], expected)))
  {
    if |expected| >= |actual| && i < |expected|
       && (forall j | 0 <= j < i :: ExpectedEntryPasses(expected[j], actual))
       && !ExpectedEntryPasses(expected[i], actual) {
      ScanExpectedFirstFailure(expected, actual, i);
    }
    if |expected| < |actual| && i < |actual|
       && (forall j | 0 <= j < i :: ActualEntryPasses(actual[j], expected))
       && !ActualEntryPasses(actual[i], expected) {
      ScanActualFirstFailure(actual, expected, i);
    }
  }

  /** The two value sets agree: same keys, and every pair of values compares equal. */
  ghost predicate SameRouteValues(expected: seq<Entry>, actual: seq<Entry>) {
    && KeySet(expected) == KeySet(actual)
    && forall i | 0 <= i < |actual| :: ValueCompare(actual[i].value, Index(expected, actual[i].key))
  }

  lemma {:induction false} ScanExpectedOk(expected: seq<Entry>, actual: seq<Entry>)
    ensures ScanExpected(expected, actual) == Ok <==>
      forall i | 0 <= i < |expected| ::
        Get(actual, expected[i].key).Some? && ValueCompare(Index(actual, expected[i].key), expected[i].value)
  {
    if expected != [] {
      ScanExpectedOk(expected[1..], actual);
      assert forall i | 1 <= i < |expected| :: expected[i] == expected[1..][i - 1];
    }
  }

  lemma {:induction false} ScanActualOk(actual: seq<Entry>, expected: seq<Entry>)
    ensures ScanActual(actual, expected) == Ok <==>
      forall i | 0 <= i < |actual| ::
        Get(expected, actual[i].key).Some? && ValueCompare(actual[i].value, Index(expected, actual[i].key))
  {
    if actual != [] {
      ScanActualOk(actual[1..], expected);
      assert forall i | 1 <= i < |actual| :: actual[i] == actual[1..][i - 1];
    }
  }

  /**
   * When the actual values outnumber the expected ones, the scan over the
   * actual values always fails (by pigeonhole), with an unexpected key or a
   * value mismatch.
   */
  lemma ScanActualFailsWhenLarger(actual: Entries, expected: Entries)
    requires |expected| < |actual|
    ensures ScanActual(actual, expected) != Ok
  {
    if ScanActual(actual, expected) == Ok {
      ScanActualOk(actual, expected);
      forall k | k in KeySet(actual) ensures k in KeySet(expected) {
        var i :| 0 <= i < |actual| && actual[i].key == k;
        InKeySet(expected, k);
      }
      SubsetSize(KeySet(actual), KeySet(expected));
      KeySetSize(actual);
      KeySetSize(expected);
    }
  }

  /**
   * The value stage passes exactly when no values were expected and none
   * resolved, or values were expected, some resolved, and the two sets agree.
   * The size-dependent scan direction therefore amounts to set equality.
   */
  lemma RouteValuesOutcomeOk(expected: Option<Entries>, actual: Entries)
    ensures RouteValuesOutcome(expected, actual) == Ok <==>
      || (expected.None? && actual == [])
      || (expected.Some? && actual != [] && SameRouteValues(expected.value, actual))
  {
    if expected.Some? && actual != [] {
      var e := expected.value;
      KeySetSize(e);
      KeySetSize(actual);
      if |e| >= |actual| {
        ScanExpectedOk(e, actual);
        if ScanExpected(e, actual) == Ok {
          forall k | k in KeySet(e) ensures k in KeySet(actual) {
            var j :| 0 <= j < |e| && e[j].key == k;
            InKeySet(actual, k);
          }
          SubsetOfNoSmallerSize(KeySet(e), KeySet(actual));
          forall i | 0 <= i < |actual|
            ensures ValueCompare(actual[i].value, Index(e, actual[i].key))
          {
            var k := actual[i].key;
            assert k in KeySet(e);
            var j :| 0 <= j < |e| && e[j].key == k;
            GetAt(e, j);
            GetAt(actual, i);
          }
        }
        if SameRouteValues(e, actual) {
          forall j | 0 <= j < |e|
            ensures Get(actual, e[j].key).Some? && ValueCompare(Index(actual, e[j].key), e[j].value)
          {
            var k := e[j].key;
            assert k in KeySet(actual);
            var i :| 0 <= i < |actual| && actual[i].key == k;
            GetAt(e, j);
            GetAt(actual, i);
          }
        }
      } else {
        ScanActualFailsWhenLarger(actual, e);
      }
    }
  }

  /**
   * The value stage, with the two dictionary loops of the source: each scan
   * stops at the first key that is missing, unexpected, or holds a different
   * value.
   */
  method CompareRouteValues(expected: Option<Entries>, actual: Entries) returns (o: Outcome)
    ensures o == RouteValuesOutcome(expected, actual)
  {
    if |actual| > 0 {
      if expected.None? {
        return Raised(Assertion(RouteValueCountMismatch(0, |actual|)));
      }
      var expectedValues := expected.value;
      if |expectedValues| >= |actual| {
        var i := 0;
        while i < |expectedValues|
          invariant 0 <= i <= |expectedValues|
          invariant ScanExpected(expectedValues[i..], actual) == ScanExpected(expectedValues, actual)
        {
          var entry := expectedValues[i];
          assert expectedValues[i..][1..] == expectedValues[i + 1..];
          var found := Get(actual, entry.key);
          if found.None? {
            return Raised(Assertion(RouteValueMissing(entry.key)));
          }
          if !ValueCompare(found.value, entry.value) {
            return Raised(Assertion(RouteValueValueMismatch(entry.key, entry.value, found.value)));
          }
          i := i + 1;
        }
      } else {
        var i := 0;
        while i < |actual|
          invariant 0 <= i <= |actual|
          invariant ScanActual(actual[i..], expectedValues) == ScanActual(actual, expectedValues)
        {
          var entry := actual[i];
          assert actual[i..][1..] == actual[i + 1..];
          var found := Get(expectedValues, entry.key);
          if found.None? {
            return Raised(Assertion(UnexpectedRouteValue(entry.key, entry.value)));
          }
          if !ValueCompare(entry.value, found.value) {
            return Raised(Assertion(RouteValueValueMismatch(entry.key, found.value, entry.value)));
          }
          i := i + 1;
        }
      }
      return Ok;
    } else if expected.Some? {
      return Raised(Assertion(RouteValueCountMismatch(|expected.value|, 0)));
    }
    return Ok;
  }

  /**
   * The 3-argument `ShouldMatchRoute`: argument checks (controller first),
   * then, on the resolved route, the area guard, the controller, the action
   * and the route values, the first failing check deciding the exception.
   */
  function MatchRouteOutcome(areaFlag: bool, routeData: RouteAnswer, expectedController: Option<string>,
                             expectedAction: Option<string>, expectedRouteValues: Option<Entries>): (o: Outcome)
    ensures o.Raised? ==> o.error.Argument? || o.error.Assertion?
    ensures o.Raised? && o.error.Argument? <==>
      IsNullOrWhiteSpace(expectedController) || IsNullOrWhiteSpace(expectedAction)
  {
    if IsNullOrWhiteSpace(expectedController) then Raised(Argument("expectedController"))
    else if IsNullOrWhiteSpace(expectedAction) then Raised(Argument("expectedAction"))
    else match routeData
      case NoRoute => Raised(Assertion(NoRouteMatched))
      case Matched(area, values, _, _) =>
        var controller := Index(values, "controller");
        var action := Index(values, "action");
        if area != Null && !areaFlag then Raised(Assertion(AreaMismatch(None, area)))
        else if !ValueCompare(Comparable(expectedController.value), controller) then
          Raised(Assertion(ControllerMismatch(expectedController.value, controller)))
        else if !ValueCompare(Comparable(expectedAction.value), action) then
          Raised(Assertion(ActionMismatch(expectedAction.value, action)))
        else RouteValuesOutcome(expectedRouteValues, ActualRouteValues(values))
  }

  /** Whether the resolved route satisfies an expectation, stated field by field. */
  ghost predicate RouteMatches(areaFlag: bool, routeData: RouteAnswer, expectedController: string,
                               expectedAction: string, expectedRouteValues: Option<Entries>)
  {
    && routeData.Matched?
    && (routeData.area == Null || areaFlag)
    && ValueCompare(Comparable(expectedController), Index(routeData.values, "controller"))
    && ValueCompare(Comparable(expectedAction), Index(routeData.values, "action"))
    && var actual := ActualRouteValues(routeData.values);
       || (expectedRouteValues.None? && actual == [])
       || (expectedRouteValues.Some? && actual != [] && SameRouteValues(expectedRouteValues.value, actual))
  }

  /** `ShouldMatchRoute` passes exactly when both names are non-blank and the route matches them. */
  lemma MatchRouteOk(areaFlag: bool, routeData: RouteAnswer, expectedController: Option<string>,
                     expectedAction: Option<string>, expectedRouteValues: Option<Entries>)
    ensures MatchRouteOutcome(areaFlag, routeData, expectedController, expectedAction, expectedRouteValues) == Ok
      <==> && !IsNullOrWhiteSpace(expectedController) && !IsNullOrWhiteSpace(expectedAction)
           && RouteMatches(areaFlag, routeData, expectedController.value, expectedAction.value, expectedRouteValues)
  {
    if routeData.Matched? {
      RouteValuesOutcomeOk(expectedRouteValues, ActualRouteValues(routeData.values));
    }
  }

  /**
   * On a resolved route that passes the area guard, the controller is
   * compared first, then the action, then the route values, whatever the
   * later expectations are.
   */
  lemma MatchRouteStages(areaFlag: bool, routeData: RouteAnswer, expectedController: Option<string>,
                         expectedAction: Option<string>, expectedRouteValues: Option<Entries>)
    requires !IsNullOrWhiteSpace(expectedController) && !IsNullOrWhiteSpace(expectedAction)
    requires routeData.Matched? && (routeData.area == Null || areaFlag)
    ensures !ValueCompare(Comparable(expectedController.value), Index(routeData.values, "controller")) ==>
      MatchRouteOutcome(areaFlag, routeData, expectedController, expectedAction, expectedRouteValues)
        == Raised(Assertion(ControllerMismatch(expectedController.value, Index(routeData.values, "controller"))))
    ensures && ValueCompare(Comparable(expectedController.value), Index(routeData.values, "controller"))
            && !ValueCompare(Comparable(expectedAction.value), Index(routeData.values, "action")) ==>
      MatchRouteOutcome(areaFlag, routeData, expectedController, expectedAction, expectedRouteValues)
        == Raised(Assertion(ActionMismatch(expectedAction.value, Index(routeData.values, "action"))))
    ensures && ValueCompare(Comparable(expectedController.value), Index(routeData.values, "controller"))
            && ValueCompare(Comparable(expectedAction.value), Index(routeData.values, "action")) ==>
      MatchRouteOutcome(areaFlag, routeData, expectedController, expectedAction, expectedRouteValues)
        == RouteValuesOutcome(expectedRouteValues, ActualRouteValues(routeData.values))
  {
  }

  /**
   * Blank names raise `ArgumentException` whatever the router answers
   * (controller before action); with valid names and no route, the failure
   * is "no matching route".
   */
  lemma MatchRouteArgumentsFirst(areaFlag: bool, routeData: RouteAnswer, expectedController: Option<string>,
                                 expectedAction: Option<string>, expectedRouteValues: Option<Entries>)
    ensures IsNullOrWhiteSpace(expectedController) ==>
      MatchRouteOutcome(areaFlag, routeData, expectedController, expectedAction, expectedRouteValues)
        == Raised(Argument("expectedController"))
    ensures !IsNullOrWhiteSpace(expectedController) && IsNullOrWhiteSpace(expectedAction) ==>
      MatchRouteOutcome(areaFlag, routeData, expectedController, expectedAction, expectedRouteValues)
        == Raised(Argument("expectedAction"))
    ensures !IsNullOrWhiteSpace(expectedController) && !IsNullOrWhiteSpace(expectedAction) && routeData.NoRoute? ==>
      MatchRouteOutcome(areaFlag, routeData, expectedController, expectedAction, expectedRouteValues)
        == Raised(Assertion(NoRouteMatched))
  {
  }

  /**
   * Without the area flag an area-bearing route fails with the area
   * mismatch before anything else is compared; with the flag the area
   * mismatch never arises.
   */
  lemma MatchRouteAreaGuard(areaFlag: bool, routeData: RouteAnswer, expectedController: Option<string>,
                            expectedAction: Option<string>, expectedRouteValues: Option<Entries>)
    requires !IsNullOrWhiteSpace(expectedController) && !IsNullOrWhiteSpace(expectedAction)
    ensures !areaFlag && routeData.Matched? && routeData.area != Null ==>
      MatchRouteOutcome(areaFlag, routeData, expectedController, expectedAction, expectedRouteValues)
        == Raised(Assertion(AreaMismatch(None, routeData.area)))
    ensures areaFlag ==>
      var o := MatchRouteOutcome(areaFlag, routeData, expectedController, expectedAction, expectedRouteValues);
      !(o.Raised? && o.error.Assertion? && o.error.failure.AreaMismatch?)
  {
  }

  /** Names are compared ignoring case: expectations differing only in case pass or fail together. */
  lemma MatchRouteIgnoresCase(areaFlag: bool, routeData: RouteAnswer,
                              controller1: Option<string>, action1: Option<string>,
                              controller2: Option<string>, action2: Option<string>,
                              expectedRouteValues: Option<Entries>)
    requires controller1.Some? <==> controller2.Some?
    requires controller1.Some? ==> Fold(controller1.value) == Fold(controller2.value)
    requires action1.Some? <==> action2.Some?
    requires action1.Some? ==> Fold(action1.value) == Fold(action2.value)
    ensures MatchRouteOutcome(areaFlag, routeData, controller1, action1, expectedRouteValues) == Ok
        <==> MatchRouteOutcome(areaFlag, routeData, controller2, action2, expectedRouteValues) == Ok
  {
    FoldPreservesBlank(controller1, controller2);
    FoldPreservesBlank(action1, action2);
    MatchRouteOk(areaFlag, routeData, controller1, action1, expectedRouteValues);
    MatchRouteOk(areaFlag, routeData, controller2, action2, expectedRouteValues);
  }

  /**
   * Mutating the controller or the action of a passing expectation into a
   * name that differs beyond case gives exactly the controller or the action
   * mismatch.
   */
  lemma MatchRouteNameMutation(areaFlag: bool, routeData: RouteAnswer, expectedController: Option<string>,
                               expectedAction: Option<string>, expectedRouteValues: Option<Entries>,
                               otherName: string)
    requires MatchRouteOutcome(areaFlag, routeData, expectedController, expectedAction, expectedRouteValues) == Ok
    requires !IsNullOrWhiteSpace(Some(otherName))
    ensures Fold(otherName) != Fold(expectedController.value) ==>
      MatchRouteOutcome(areaFlag, routeData, Some(otherName), expectedAction, expectedRouteValues)
        == Raised(Assertion(ControllerMismatch(otherName, Index(routeData.values, "controller"))))
    ensures Fold(otherName) != Fold(expectedAction.value) ==>
      MatchRouteOutcome(areaFlag, routeData, expectedController, Some(otherName), expectedRouteValues)
        == Raised(Assertion(ActionMismatch(otherName, Index(routeData.values, "action"))))
  {
  }

  /** `e` with the value of its `i`-th entry replaced. */
  function WithValueAt(e: seq<Entry>, i: nat, v: Value): (r: seq<Entry>)
    requires i < |e|
    ensures |r| == |e| && r[i] == Entry(e[i].key, v)
    ensures forall j | 0 <= j < |e| && j != i :: r[j] == e[j]
    ensures KeySet(r) == KeySet(e)
  {
    var r := e[i := Entry(e[i].key, v)];
    assert forall j | 0 <= j < |e| :: r[j].key == e[j].key;
    r
  }

  /**
   * In a scan that passes, replacing one expected value by one that does
   * not compare equal to the actual value makes the scan report exactly
   * that key.
   */
  lemma {:induction false} ScanExpectedMutation(expected: seq<Entry>, actual: seq<Entry>, i: nat, v: Value)
    requires ScanExpected(expected, actual) == Ok
    requires i < |expected|
    requires !ValueCompare(Index(actual, expected[i].key), v)
    ensures ScanExpected(WithValueAt(expected, i, v), actual)
      == Raised(Assertion(RouteValueValueMismatch(expected[i].key, v, Index(actual, expected[i].key))))
  {
    var m := WithValueAt(expected, i, v);
    if i > 0 {
      assert m[1..] == WithValueAt(expected[1..], i - 1, v);
      ScanExpectedMutation(expected[1..], actual, i - 1, v);
    }
  }

  /**
   * In a passing value stage, replacing one expected value by one that does
   * not compare equal to the actual value gives exactly the value mismatch
   * for that key.
   */
  lemma RouteValuesMutation(expected: Entries, actual: Entries, i: nat, v: Value)
    requires RouteValuesOutcome(Some(expected), actual) == Ok
    requires i < |expected|
    requires !ValueCompare(Index(actual, expected[i].key), v)
    ensures DistinctKeys(WithValueAt(expected, i, v))
    ensures RouteValuesOutcome(Some(WithValueAt(expected, i, v)), actual)
      == Raised(Assertion(RouteValueValueMismatch(expected[i].key, v, Index(actual, expected[i].key))))
  {
    var m := WithValueAt(expected, i, v);
    assert forall j | 0 <= j < |m| :: m[j].key == expected[j].key;
    RouteValuesOutcomeOk(Some(expected), actual);
    KeySetSize(expected);
    KeySetSize(actual);
    ScanExpectedMutation(expected, actual, i, v);
  }

  /**
   * Mutating one expected route value of a passing expectation into a value
   * that does not compare equal gives exactly the value mismatch for that key.
   */
  lemma MatchRouteValueMutation(areaFlag: bool, routeData: RouteAnswer, expectedController: Option<string>,
                                expectedAction: Option<string>, expectedRouteValues: Entries, i: nat, v: Value)
    requires MatchRouteOutcome(areaFlag, routeData, expectedController, expectedAction, Some(expectedRouteValues)) == Ok
    requires i < |expectedRouteValues|
    requires !ValueCompare(Index(routeData.values, expectedRouteValues[i].key), v)
    ensures DistinctKeys(WithValueAt(expectedRouteValues, i, v))
    ensures MatchRouteOutcome(areaFlag, routeData, expectedController, expectedAction,
                              Some(WithValueAt(expectedRouteValues, i, v)))
      == Raised(Assertion(RouteValueValueMismatch(expectedRouteValues[i].key, v,
                                                  Index(routeData.values, expectedRouteValues[i].key))))
  {
    var actual := ActualRouteValues(routeData.values);
    var k := expectedRouteValues[i].key;
    assert RouteValuesOutcome(Some(expectedRouteValues), actual) == Ok;
    RouteValuesOutcomeOk(Some(expectedRouteValues), actual);
    assert k in KeySet(actual) by {
      assert expectedRouteValues[i].key in KeySet(expectedRouteValues);
    }
    InKeySet(actual, k);
    assert Index(actual, k) == Index(routeData.values, k);
    RouteValuesMutation(expectedRouteValues, actual, i, v);
  }

  /** The 4-argument overload accepts the route's area: it is non-blank and compares equal to the `area` data token. */
  predicate AreaAccepted(routeData: RouteAnswer, expectedArea: Option<string>) {
    && !IsNullOrWhiteSpace(expectedArea)
    && routeData.Matched?
    && ValueCompare(routeData.area, Comparable(expectedArea.value))
  }

  /**
   * The 4-argument `ShouldMatchRoute`: a blank area is an argument error;
   * the resolved route's area token is compared with the expected area
   * (a missing route is dereferenced); then the 3-argument checks run with
   * the area flag set.
   */
  function MatchRouteInAreaOutcome(routeData: RouteAnswer, expectedArea: Option<string>,
                                   expectedController: Option<string>, expectedAction: Option<string>,
                                   expectedRouteValues: Option<Entries>): (o: Outcome)
    ensures o == Raised(NullReference) <==> !IsNullOrWhiteSpace(expectedArea) && routeData.NoRoute?
    ensures o.Raised? && o.error != NullReference ==> o.error.Argument? || o.error.Assertion?
  {
    if IsNullOrWhiteSpace(expectedArea) then Raised(Argument("expectedArea"))
    else match routeData
      case NoRoute => Raised(NullReference)
      case Matched(area, _, _, _) =>
        if !ValueCompare(area, Comparable(expectedArea.value)) then
          Raised(Assertion(AreaMismatch(expectedArea, area)))
        else MatchRouteOutcome(true, routeData, expectedController, expectedAction, expectedRouteValues)
  }

  /**
   * The area overload passes exactly when the area is accepted and the
   * controller, action and values match with the area guard switched off; a
   * route without an area token fails any expected area.
   */
  lemma MatchRouteInAreaOk(routeData: RouteAnswer, expectedArea: Option<string>,
                           expectedController: Option<string>, expectedAction: Option<string>,
                           expectedRouteValues: Option<Entries>)
    ensures MatchRouteInAreaOutcome(routeData, expectedArea, expectedController, expectedAction, expectedRouteValues) == Ok
      <==> && AreaAccepted(routeData, expectedArea)
           && !IsNullOrWhiteSpace(expectedController) && !IsNullOrWhiteSpace(expectedAction)
           && RouteMatches(true, routeData, expectedController.value, expectedAction.value, expectedRouteValues)
    ensures !IsNullOrWhiteSpace(expectedArea) && routeData.Matched? && routeData.area == Null ==>
      MatchRouteInAreaOutcome(routeData, expectedArea, expectedController, expectedAction, expectedRouteValues)
        == Raised(Assertion(AreaMismatch(expectedArea, Null)))
  {
    MatchRouteOk(true, routeData, expectedController, expectedAction, expectedRouteValues);
  }

  /**
   * The stages of the area overload, for any controller, action and values:
   * the area argument, the dereferenced route, the area comparison, and then
   * the 3-argument checks with the flag set.
   */
  lemma MatchRouteInAreaStages(routeData: RouteAnswer, expectedArea: Option<string>,
                               expectedController: Option<string>, expectedAction: Option<string>,
                               expectedRouteValues: Option<Entries>)
    ensures IsNullOrWhiteSpace(expectedArea) ==>
      MatchRouteInAreaOutcome(routeData, expectedArea, expectedController, expectedAction, expectedRouteValues)
        == Raised(Argument("expectedArea"))
    ensures !IsNullOrWhiteSpace(expectedArea) && routeData.NoRoute? ==>
      MatchRouteInAreaOutcome(routeData, expectedArea, expectedController, expectedAction, expectedRouteValues)
        == Raised(NullReference)
    ensures && !IsNullOrWhiteSpace(expectedArea) && routeData.Matched?
            && !ValueCompare(routeData.area, Comparable(expectedArea.value)) ==>
      MatchRouteInAreaOutcome(routeData, expectedArea, expectedController, expectedAction, expectedRouteValues)
        == Raised(Assertion(AreaMismatch(expectedArea, routeData.area)))
    ensures AreaAccepted(routeData, expectedArea) ==>
      MatchRouteInAreaOutcome(routeData, expectedArea, expectedController, expectedAction, expectedRouteValues)
        == MatchRouteOutcome(true, routeData, expectedController, expectedAction, expectedRouteValues)
  {
  }

  /**
   * The area is checked before the controller and action arguments: a
   * mismatching area wins over a blank controller, and an accepted area
   * with a blank controller still ends in the controller's argument error.
   */
  lemma MatchRouteInAreaOrder(routeData: RouteAnswer, expectedArea: Option<string>,
                              expectedAction: Option<string>, expectedRouteValues: Option<Entries>)
    requires !IsNullOrWhiteSpace(expectedArea) && routeData.Matched?
    ensures !AreaAccepted(routeData, expectedArea) ==>
      MatchRouteInAreaOutcome(routeData, expectedArea, None, expectedAction, expectedRouteValues)
        == Raised(Assertion(AreaMismatch(expectedArea, routeData.area)))
    ensures AreaAccepted(routeData, expectedArea) ==>
      MatchRouteInAreaOutcome(routeData, expectedArea, None, expectedAction, expectedRouteValues)
        == Raised(Argument("expectedController"))
  {
  }

  /**
   * A request under test: the route collection, the literal URL (for the
   * messages), and the prepared URL and HTTP method the mocked context
   * carries. The area flag is the one piece of state that changes.
   */
  class RequestInfo {
    const routes: RouteCollection
    const requestUrl: string
    const preparedUrl: string
    const httpMethod: string
    var areaFlag: bool

    constructor (routes: RouteCollection, url: string, httpMethod: string)
      ensures this.routes == routes && requestUrl == url && this.httpMethod == httpMethod
      ensures preparedUrl == PrepareUrl(url)
      ensures !areaFlag
    {
      this.routes := routes;
      requestUrl := url;
      preparedUrl := PrepareUrl(url);
      this.httpMethod := httpMethod;
      areaFlag := false;
    }

    /** `GetRouteData` on the mocked context: the same answer on every call. */
    function GetRouteData(): RouteAnswer {
      routes.resolve(preparedUrl, httpMethod)
    }

    /** The 3-argument `ShouldMatchRoute`. */
    method ShouldMatchRoute(expectedController: Option<string>, expectedAction: Option<string>,
                            expectedRouteValues: Option<Entries> := None) returns (o: Outcome)
      ensures o == MatchRouteOutcome(areaFlag, GetRouteData(), expectedController, expectedAction, expectedRouteValues)
    {
      if IsNullOrWhiteSpace(expectedController) {
        return Raised(Argument("expectedController"));
      }
      if IsNullOrWhiteSpace(expectedAction) {
        return Raised(Argument("expectedAction"));
      }
      var routeData := GetRouteData();
      if routeData.NoRoute? {
        return Raised(Assertion(NoRouteMatched));
      }
      if routeData.area != Null && !areaFlag {
        return Raised(Assertion(AreaMismatch(None, routeData.area)));
      }
      var controller := Index(routeData.values, "controller");
      if !ValueCompare(Comparable(expectedController.value), controller) {
        return Raised(Assertion(ControllerMismatch(expectedController.value, controller)));
      }
      var action := Index(routeData.values, "action");
      if !ValueCompare(Comparable(expectedAction.value), action) {
        return Raised(Assertion(ActionMismatch(expectedAction.value, action)));
      }
      var actual := ActualRouteValues(routeData.values);
      o := CompareRouteValues(expectedRouteValues, actual);
    }

    /**
     * The 4-argument `ShouldMatchRoute`. Once the area is accepted the flag
     * is set, before the delegated checks, and it is never reset.
     */
    method ShouldMatchRouteInArea(expectedArea: Option<string>, expectedController: Option<string>,
                                  expectedAction: Option<string>, expectedRouteValues: Option<Entries> := None)
      returns (o: Outcome)
      modifies this
      ensures o == MatchRouteInAreaOutcome(GetRouteData(), expectedArea, expectedController, expectedAction,
                                           expectedRouteValues)
      ensures areaFlag == (old(areaFlag) || AreaAccepted(GetRouteData(), expectedArea))
    {
      if IsNullOrWhiteSpace(expectedArea) {
        return Raised(Argument("expectedArea"));
      }
      var routeData := GetRouteData();
      if routeData.NoRoute? {
        return Raised(NullReference);
      }
      if !ValueCompare(routeData.area, Comparable(expectedArea.value)) {
        return Raised(Assertion(AreaMismatch(expectedArea, routeData.area)));
      }
      areaFlag := true;
      o := ShouldMatchRoute(expectedController, expectedAction, expectedRouteValues);
    }

    /** `ShouldMatchNoRoute`: fails exactly when route data exists and carries a route. */
    function ShouldMatchNoRoute(): (o: Outcome)
      ensures o == Ok <==> !(GetRouteData().Matched? && GetRouteData().hasRoute)
      ensures o != Ok ==> o == Raised(Assertion(RouteFoundButShouldNotMatch))
    {
      match GetRouteData()
      case NoRoute => Ok
      case Matched(_, _, hasRoute, _) =>
        if hasRoute then Raised(Assertion(RouteFoundButShouldNotMatch)) else Ok
    }

    /** `ShouldBeIgnored`: passes exactly when the route handler is a `StopRoutingHandler`. */
    function ShouldBeIgnored(): (o: Outcome)
      ensures o == Ok <==> GetRouteData().Matched? && GetRouteData().isStopHandler
      ensures GetRouteData().NoRoute? ==> o == Raised(NullReference)
      ensures GetRouteData().Matched? && !GetRouteData().isStopHandler ==> o == Raised(Assertion(RequestNotIgnored))
    {
      match GetRouteData()
      case NoRoute => Raised(NullReference)
      case Matched(_, _, _, isStopHandler) =>
        if isStopHandler then Ok else Raised(Assertion(RequestNotIgnored))
    }
  }

  /** A request no route matches passes `ShouldMatchNoRoute` and fails `ShouldMatchRoute` with "no matching route". */
  lemma UnmatchedRequest(request: RequestInfo, areaFlag: bool, expectedController: string, expectedAction: string,
                         expectedRouteValues: Option<Entries>)
    requires request.GetRouteData().NoRoute?
    requires !IsNullOrWhiteSpace(Some(expectedController)) && !IsNullOrWhiteSpace(Some(expectedAction))
    ensures request.ShouldMatchNoRoute() == Ok
    ensures MatchRouteOutcome(areaFlag, request.GetRouteData(), Some(expectedController), Some(expectedAction),
                              expectedRouteValues) == Raised(Assertion(NoRouteMatched))
  {
  }
}
