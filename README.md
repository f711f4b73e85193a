# Route-assertion engine: a Dafny model of Web.RouteTester.Mvc.3.0

The library lets a test check an ASP.NET MVC route table without a server.
- An **incoming** test (`RequestInfo`) resolves a request URL and HTTP method through the route collection. It then asserts that the resolved route has the expected area, controller, action and route values, that no route matches, or that the request is ignored.
- An **outgoing** test (`RouteInfo`) generates a URL from an action, a controller and route values. It asserts that this URL is the expected one.
- The facade (`RouteTester`) binds a non-empty route collection, checks the arguments of each test and builds the two kinds of assertion object.

This model covers the comparison and diagnosis logic. Routing itself is outside the model. A `RouteCollection` object carries its route count and two functions: the answer of `GetRouteData` for a (prepared URL, HTTP method) pair, and the answer of `UrlHelper.GenerateUrl` for (action, controller, route values). The core treats both as given inputs.

Modules:
- `Wrappers`: `Option`, used for C# references that may be null.
- `Text`: `string.IsNullOrWhiteSpace` (the exact `char.IsWhiteSpace` set), case folding, and the three-way case-insensitive comparison.
- `Routing`: route values (`Null | Optional | Comparable(text) | Opaque`), dictionaries as ordered entry sequences with distinct keys, the router's answer (`NoRoute | Matched(area, values, hasRoute, isStopHandler)`), the `RouteCollection` class, and the exceptions. Exceptions are `ArgumentNull`, `Argument(param)`, `Assertion(failure)` with the eleven assertion-failure kinds, `NullReference`, and `DuplicateKey(key)`, the `ArgumentException` of `RouteValueDictionary.Add` on a key it already holds.
- `Incoming`: `RequestInfo.cs`. `PrepareUrl`, `ValueCompare` and the route-value filter are functions. The value-set comparison is a specification function plus a method with the source's two loops. The two `ShouldMatchRoute` overloads are specification functions plus methods of the `RequestInfo` class, which owns the mutable `areaFlag`.
- `Outgoing`: `RouteInfo.cs`. Its fields are read-only, so `RouteInfo` is a datatype whose member functions are `ShouldGenerateUrl` and `GeneratesUrl`. The same `RouteInfo` value always gives the same outcome.
- `Tester`: `RouteTester.cs`. It holds the guard functions, `RouteValueDictionary.Add` (an entry goes after the existing ones, and a key already present ignoring case throws), `BuildRouteValueDictionary` (a loop of `Add`s), and the `RouteTester` class with `WithRouteInfo`, `WithRouteInfoInArea` (the 4-argument overload) and `WithIncomingRequest`. An outgoing dictionary is an ordered list of entries, so it reaches URL generation in insertion order.
- `Scenarios`: concrete cases. `products/show/42` matches with `id = 42` and mismatches with `43`. An area route passes through the area overload and fails through the plain one. A generated `home/about` rejects `Home/About`.

The central fact is `Incoming.RouteValuesOutcomeOk`. The value stage scans the expected values when they are at least as many as the actual ones, and scans the actual values otherwise. Even so, it passes exactly when (a) no values were expected and none resolved, or (b) values were expected, some resolved, the key sets are equal and every pair compares equal. In the second branch the pigeonhole argument (`ScanActualFailsWhenLarger`) shows the scan always fails.

The XML comments of `RequestInfo` promise an `AssertionException` for any mismatch (RequestInfo.cs:46-48 and 88-91) and for a request that is not ignored (RequestInfo.cs:232). The model follows the code, which departs from these comments, and from what a reader might expect, in three places:
- The 4-argument `ShouldMatchRoute` and `ShouldBeIgnored` dereference a missing route (`NullReference`). They do not report "no matching route" or "not ignored". Only a `Debug.Assert` guards the missing route.
- `areaFlag` is never reset. After one accepted area check, every later 3-argument check on the same `RequestInfo` skips the "route carries an area" failure.
- With no resolved route values, an expected-values object, even one with no properties, fails the count check. The message reports 0 expected against 0 actual.

## Model

| member | source | states |
|---|---|---|
| Incoming.PrepareUrl | Web.RouteTester.Mvc.3.0/RequestInfo.cs:245-258 | the result starts with `~/`, ends with the input, is at most two characters longer, and is the input itself when that already starts with `~/` |
| Incoming.PrepareUrlShortest | Web.RouteTester.Mvc.3.0/RequestInfo.cs:245-258 | no string that starts with `~/` and ends with the input is shorter than the result, so `/a` becomes `~/a` and not `~//a` |
| Incoming.PrepareUrlIdempotent | Web.RouteTester.Mvc.3.0/RequestInfo.cs:245-258 | preparing a prepared URL changes nothing |
| Incoming.ValueCompare | Web.RouteTester.Mvc.3.0/RequestInfo.cs:260-269 | two nulls are equal; exactly one null, or a non-comparable operand, is unequal; two comparables are equal iff their folded string forms coincide |
| Incoming.ValueCompareSymmetric | Web.RouteTester.Mvc.3.0/RequestInfo.cs:260-269 | the comparison is symmetric |
| Text.CompareIgnoreCaseZero | Web.RouteTester.Mvc.3.0/RequestInfo.cs:268 | the case-insensitive comparer returns 0 exactly when the folded strings are equal |
| Incoming.ActualRouteValues | Web.RouteTester.Mvc.3.0/RequestInfo.cs:130-133 | the result is the order-preserving filter of the route's values: a subsequence holding exactly the entries not keyed `controller` or `action` and not `UrlParameter.Optional`; lookups agree, and keys stay distinct |
| Incoming.ScanExpected | Web.RouteTester.Mvc.3.0/RequestInfo.cs:149-170 | the scan over expected values fails only with "expected key not found" or a value mismatch |
| Incoming.ScanActual | Web.RouteTester.Mvc.3.0/RequestInfo.cs:174-194 | the scan over actual values fails only with "unexpected route value" or a value mismatch |
| Incoming.ScanExpectedOk | Web.RouteTester.Mvc.3.0/RequestInfo.cs:149-170 | the expected-side scan passes iff every expected key is present with a value that compares equal |
| Incoming.ScanExpectedFirstFailure | Web.RouteTester.Mvc.3.0/RequestInfo.cs:149-170 | a failing expected-side scan reports the first expected entry that does not pass: a missing key as "not found" with that key, a present one as a value mismatch with the expected and actual values |
| Incoming.ScanActualOk | Web.RouteTester.Mvc.3.0/RequestInfo.cs:174-194 | the actual-side scan passes iff every actual key is expected with a value that compares equal |
| Incoming.ScanActualFirstFailure | Web.RouteTester.Mvc.3.0/RequestInfo.cs:174-194 | a failing actual-side scan reports the first actual entry that does not pass: an unexpected key with its value, or a value mismatch with the expected and actual values |
| Incoming.ScanActualFailsWhenLarger | Web.RouteTester.Mvc.3.0/RequestInfo.cs:172-195 | when the actual values outnumber the expected ones, the actual-side scan always fails |
| Incoming.RouteValuesOutcome | Web.RouteTester.Mvc.3.0/RequestInfo.cs:135-206 | values resolved but none expected is the count mismatch (0, actual count); values expected but none resolved is the count mismatch (expected count, 0); neither is a pass; every failure is an assertion failure |
| Incoming.RouteValuesFirstFailure | Web.RouteTester.Mvc.3.0/RequestInfo.cs:145-195 | with values on both sides, the failure is that of the first entry that does not pass on the scanned side: the expected side when it has at least as many entries, the actual side otherwise |
| Incoming.RouteValuesOutcomeOk | Web.RouteTester.Mvc.3.0/RequestInfo.cs:135-206 | the value stage passes iff nothing was expected and nothing resolved, or something was expected, something resolved, and the key sets are equal with pairwise-equal values |
| Incoming.CompareRouteValues | Web.RouteTester.Mvc.3.0/RequestInfo.cs:135-206 | the two fail-fast dictionary loops and the count rules compute exactly the value-stage outcome |
| Incoming.MatchRouteOutcome | Web.RouteTester.Mvc.3.0/RequestInfo.cs:92-213 | the 3-argument check raises only argument errors and assertion failures, and an argument error exactly when the controller or the action is blank |
| Incoming.MatchRouteStages | Web.RouteTester.Mvc.3.0/RequestInfo.cs:115-206 | on a resolved route past the area guard, a controller that does not compare equal is the controller mismatch whatever follows; then an action that does not is the action mismatch; then the outcome is the value stage's |
| Incoming.MatchRouteOk | Web.RouteTester.Mvc.3.0/RequestInfo.cs:92-213 | the 3-argument check passes iff both names are non-blank, a route resolved, its area is absent or the flag is set, controller and action compare equal, and the value sets agree |
| Incoming.MatchRouteArgumentsFirst | Web.RouteTester.Mvc.3.0/RequestInfo.cs:94-211 | a blank controller, then a blank action, raises `ArgumentException` whatever the router answers; with valid names and no route the failure is "no matching route" |
| Incoming.MatchRouteAreaGuard | Web.RouteTester.Mvc.3.0/RequestInfo.cs:106-113 | without the flag an area-bearing route fails with the area mismatch before any other comparison; with the flag the area mismatch never occurs |
| Incoming.MatchRouteIgnoresCase | Web.RouteTester.Mvc.3.0/RequestInfo.cs:115-128 | expectations whose names differ only in case pass or fail together |
| Incoming.MatchRouteNameMutation | Web.RouteTester.Mvc.3.0/RequestInfo.cs:115-128 | changing the controller or action of a passing expectation to a name that differs beyond case gives exactly that field's mismatch |
| Incoming.ScanExpectedMutation | Web.RouteTester.Mvc.3.0/RequestInfo.cs:149-170 | in a passing expected-side scan, one changed value that no longer compares equal is reported, with its key, as the value mismatch |
| Incoming.RouteValuesMutation | Web.RouteTester.Mvc.3.0/RequestInfo.cs:145-170 | the same for the whole value stage |
| Incoming.MatchRouteValueMutation | Web.RouteTester.Mvc.3.0/RequestInfo.cs:115-170 | changing one expected route value of a passing expectation gives exactly the value mismatch for that key |
| Incoming.MatchRouteInAreaOutcome | Web.RouteTester.Mvc.3.0/RequestInfo.cs:50-73 | the area check raises a null dereference exactly when the area is non-blank and no route resolves; its other exceptions are argument errors and assertion failures |
| Incoming.MatchRouteInAreaStages | Web.RouteTester.Mvc.3.0/RequestInfo.cs:53-72 | for any controller, action and values: a blank area is the area's argument error, a missing route a null dereference, an area token that does not compare equal the area mismatch with both areas, and an accepted area the 3-argument check with the flag set |
| Incoming.MatchRouteInAreaOk | Web.RouteTester.Mvc.3.0/RequestInfo.cs:50-73 | the area overload passes iff the area is non-blank and equals the route's area token, and the 3-argument checks pass with the flag set; a route without an area token fails any area |
| Incoming.MatchRouteInAreaOrder | Web.RouteTester.Mvc.3.0/RequestInfo.cs:53-72 | the area is compared before the controller argument is validated: a wrong area wins over a blank controller, and an accepted area with a blank controller gives the controller's argument error |
| Incoming.RequestInfo.constructor | Web.RouteTester.Mvc.3.0/RequestInfo.cs:18-24 | the request keeps the collection, the literal URL and the method; the context carries the prepared URL; the flag starts false |
| Incoming.RequestInfo.ShouldMatchRoute | Web.RouteTester.Mvc.3.0/RequestInfo.cs:92-213 | the method's outcome is the 3-argument check on the router's answer under the current flag |
| Incoming.RequestInfo.ShouldMatchRouteInArea | Web.RouteTester.Mvc.3.0/RequestInfo.cs:50-73 | the method's outcome is the area check; the flag becomes true exactly when the area is accepted and is never reset |
| Incoming.RequestInfo.ShouldMatchNoRoute | Web.RouteTester.Mvc.3.0/RequestInfo.cs:219-227 | fails, with "a matching route was found", exactly when route data exists and carries a route |
| Incoming.RequestInfo.ShouldBeIgnored | Web.RouteTester.Mvc.3.0/RequestInfo.cs:233-243 | passes exactly when the handler is a `StopRoutingHandler`; a missing route is dereferenced, any other handler fails with "not ignored" |
| Incoming.UnmatchedRequest | Web.RouteTester.Mvc.3.0/RequestInfo.cs:208-226 | a request no route matches passes `ShouldMatchNoRoute` and fails `ShouldMatchRoute` with "no matching route" |
| Outgoing.RouteInfo.ShouldGenerateUrl | Web.RouteTester.Mvc.3.0/RouteInfo.cs:42-60 | a blank URL is an argument error; otherwise the check passes iff the generated URL is exactly the expected one, and fails with both URLs otherwise |
| Outgoing.RouteInfo.GeneratesUrl | Web.RouteTester.Mvc.3.0/RouteInfo.cs:62-74 | a blank URL still raises the argument error; otherwise the result is whether the generated URL equals the expected one |
| Outgoing.GeneratesUrlCatchesOnlyAssertions | Web.RouteTester.Mvc.3.0/RouteInfo.cs:62-74 | true iff `ShouldGenerateUrl` completes, false iff it fails an assertion, any other exception propagates |
| Outgoing.ShouldGenerateUrlValidatesFirst | Web.RouteTester.Mvc.3.0/RouteInfo.cs:44-52 | for a blank URL the outcome does not depend on the routing information or on generation |
| Outgoing.ShouldGenerateUrlIsExact | Web.RouteTester.Mvc.3.0/RouteInfo.cs:54-59 | a missing generated URL always fails, and a URL differing only in case gives `false` |
| Tester.CheckRoutes | Web.RouteTester.Mvc.3.0/RouteTester.cs:25-33 | a null collection raises `ArgumentNullException`, an empty one `ArgumentException`, and only a non-empty one passes |
| Tester.NewRouteTester | Web.RouteTester.Mvc.3.0/RouteTester.cs:23-36 | the constructor fails exactly as its guards say and otherwise stores the very collection it was given |
| Tester.CheckAreaRouteInfo | Web.RouteTester.Mvc.3.0/RouteTester.cs:58-73 | passes iff area, controller and action are non-blank; otherwise the error names the first blank one in that order |
| Tester.CheckRouteInfo | Web.RouteTester.Mvc.3.0/RouteTester.cs:97-105 | passes iff controller and action are non-blank; otherwise the error names the first blank one |
| Tester.BuildRouteValueDictionary | Web.RouteTester.Mvc.3.0/RouteTester.cs:134-145 | the loop of `Add`s equals adding the properties in declaration order: it succeeds iff their names are distinct ignoring case, and the dictionary then enumerates exactly the properties in that order |
| Tester.AddAllOk | Web.RouteTester.Mvc.3.0/RouteTester.cs:139-142 | adding entries one by one succeeds iff all names stay distinct ignoring case, and the result is the old entries followed by the new ones in order |
| Tester.AddAllFirstDuplicate | Web.RouteTester.Mvc.3.0/RouteTester.cs:139-142 | adding fails at the first entry whose name repeats an earlier one ignoring case, with that entry's key |
| Tester.AddAllAppend | Web.RouteTester.Mvc.3.0/RouteTester.cs:75-79 | building the properties' dictionary and then adding `"area"` is adding the properties followed by `"area"` |
| Tester.RouteTester.WithRouteInfoInArea | Web.RouteTester.Mvc.3.0/RouteTester.cs:56-82 | blank arguments give the first blank one's error; otherwise the result is adding the properties and then `"area"` to a new dictionary: a duplicate name throws, and success gives this collection, action and controller with exactly the properties followed by `"area"` |
| Tester.RouteTester.WithRouteInfo | Web.RouteTester.Mvc.3.0/RouteTester.cs:95-112 | blank arguments give the first blank one's error; otherwise no values give no dictionary, and values give the dictionary of their `Add`s: a duplicate name throws, and success gives the properties in declaration order |
| Tester.RouteTester.WithIncomingRequest | Web.RouteTester.Mvc.3.0/RouteTester.cs:124-132 | a blank URL raises `ArgumentException`; otherwise a fresh request over the same collection with the literal URL, the method (default `GET`) and a cleared flag |
| Scenarios.ProductsShowMatches | Web.RouteTester.Mvc.3.0/RequestInfo.cs:92-213 | the route for `products/show/42` passes an expectation of controller `products`, action `show` and `id = 42` |
| Scenarios.ProductsShowWrongId | Web.RouteTester.Mvc.3.0/RequestInfo.cs:160-169 | expecting `id = 43` of a route that resolved `id = 42` fails with the value mismatch for `id` |
| Scenarios.ProductsShowCounts | Web.RouteTester.Mvc.3.0/RequestInfo.cs:130-143 | expecting no values of a route with an `id` fails the count check; an unset optional `id` is not counted |
| Scenarios.AdminUsersEditScenario | Web.RouteTester.Mvc.3.0/RequestInfo.cs:63-72 | an area route passes through the area overload and fails with the area mismatch through the plain one |
| Scenarios.HomeAboutScenario | Web.RouteTester.Mvc.3.0/RouteInfo.cs:54-59 | a generated `home/about` passes for `home/about` and fails for `Home/About` |
| Scenarios.OutgoingOrderScenario | Web.RouteTester.Mvc.3.0/RouteTester.cs:139-142 | `page, sort` gives exactly that ordered dictionary, and `sort, page` a different one |
| Scenarios.AreaPropertyScenario | Web.RouteTester.Mvc.3.0/RouteTester.cs:79 | a property `Area` makes the added `"area"` throw the duplicate-key error |

## Left out

- `RouteCollection.GetRouteData` and `UrlHelper.GenerateUrl` are System.Web routing, so they are not modelled. Each collection supplies their answers as functions. The model relies on those functions being deterministic: the same request gets the same answer on the 4-argument call and on the 3-argument call it delegates to.
- `TestUtility.GetHttpContext` (the mocked HTTP context) is not part of this model. The generation context is constant, and the prepared URL and method stand for the request context. The public setter of `HttpContext`, which would let a test swap the context, is not modelled.
- Reflection is not modelled:
  - An anonymous object of route values is given as its list of (name, value) properties, in the order `GetProperties` returns them, taken to be declaration order. `BuildDictionary` in `RequestInfo` is that list itself.
  - The generic `RouteTester<T>`, the internal parameterless constructor and the `ApplicationRoutes` setter it uses are left out.
- Message texts are not modelled: each failure carries its kind and the keys and values its message reports. The request URL is kept on the `RequestInfo` but is not repeated in the failures.
- Incoming.ValueCompare: invariant-culture case-insensitive comparison is modelled as ASCII case folding and ordinal character order. Only "compares equal" matters to the library.
- Incoming.PrepareUrl: the culture-sensitive `StartsWith` is modelled as an ordinal prefix test.
- Incoming.RequestInfo.ShouldMatchRoute: `RouteValueDictionary` keys are case-insensitive. The model looks up `controller`, `action` and the `area` data token by exact key, and the resolved route values have distinct exact keys. This hides one case. The filter of the compared values tests the keys `controller` and `action` ordinally (RequestInfo.cs:132), but the name checks read them case-insensitively (RequestInfo.cs:115, 123). So a route declared as `{Controller}/{Action}` passes the name checks, yet `Controller` and `Action` stay among the compared values. The model treats both reads as exact, so it says that route's controller is null.
- Tester.BuildRouteValueDictionary: `RouteValueDictionary.Add` compares keys with `OrdinalIgnoreCase`, and the model's duplicate test ignores ASCII case only. Names that collide only under non-ASCII case folding, such as `É` and `é`, are added as two entries, although `Add` would throw on them. The exception is modelled as `DuplicateKey` with the key, without its message.
- Tester.RouteTester.WithRouteInfoInArea: the same ASCII-only duplicate test applies to the properties and to the added `"area"`.
- Tester.RouteTester.WithRouteInfo: the same ASCII-only duplicate test as `BuildRouteValueDictionary`.
- The `Debug.Assert` calls before the dereferences in `RequestInfo.cs` are not modelled. Debug-build behaviour (an assertion dialog or failure) is out of scope. The release-build null dereference is the `NullReference` outcome.
- `AssertionException.cs` is a plain exception class with a serialization constructor. It becomes the `Assertion` variant of the exception datatype.
- A null HTTP method is not modelled; the method is a plain string that is passed through to the mocked context.
