/**
 * The data that flows between the router and the assertions: route values,
 * the router's answer for a request, the route collection under test, and
 * the exceptions the assertions raise.
 */
module Routing {
  import opened Wrappers

  /**
   * A value held in a route-value dictionary or a route's data tokens:
   * `null`, the `UrlParameter.Optional` sentinel, an `IComparable` object
   * represented by its `ToString()` text, or any other object.
   */
  datatype Value = Null | Optional | Comparable(text: string) | Opaque

  datatype Entry = Entry(key: string, value: Value)

  predicate DistinctKeys(d: seq<Entry>) {
    forall i, j | 0 <= i < j < |d| :: d[i].key != d[j].key
  }

  /**
   * A dictionary with ordinal string keys, as a sequence of entries in
   * enumeration order. An anonymous object of expected route values is also
   * one: its properties in declaration order.
   */
  type Entries = d: seq<Entry> | DistinctKeys(d)

  /** Dictionary lookup: the value of the first entry with key `k`. */
  function Get(d: seq<Entry>, k: string): (r: Option<Value>)
    ensures r.None? <==> forall i | 0 <= i < |d| :: d[i].key != k
    ensures r.Some? ==> exists i | 0 <= i < |d| :: d[i] == Entry(k, r.value)
  {
    if d == [] then None
    else if d[0].key == k then Some(d[0].value)
    else
      var r := Get(d[1..], k);
      assert r.Some? ==> exists i | 0 <= i < |d[1..]| :: d[1..][i] == Entry(k, r.value);
      assert r.Some? ==> exists i | 1 <= i < |d| :: d[i] == Entry(k, r.value);
      r
  }

  /** The dictionary indexer, which yields `null` for a missing key. */
  function Index(d: seq<Entry>, k: string): (v: Value)
    ensures Get(d, k).None? ==> v == Null
    ensures Get(d, k).Some? ==> v == Get(d, k).value
  {
    match Get(d, k)
    case None => Null
    case Some(v) => v
  }

  function KeySet(d: seq<Entry>): set<string> {
    set i | 0 <= i < |d| :: d[i].key
  }

  /** In a dictionary with distinct keys, looking up an entry's key finds that entry. */
  lemma {:induction false} GetAt(d: seq<Entry>, i: int)
    requires DistinctKeys(d)
    requires 0 <= i < |d|
    ensures Get(d, d[i].key) == Some(d[i].value)
  {
    if i > 0 {
      assert d[0].key != d[i].key;
      assert d[1..][i - 1] == d[i];
      GetAt(d[1..], i - 1);
    }
  }

  lemma InKeySet(d: seq<Entry>, k: string)
    ensures k in KeySet(d) <==> Get(d, k).Some?
  {
    if Get(d, k).Some? {
      var i :| 0 <= i < |d| && d[i] == Entry(k, Get(d, k).value);
      assert d[i].key in KeySet(d);
    }
  }

  /** Distinct keys: the dictionary has exactly as many keys as entries. */
  lemma {:induction false} KeySetSize(d: seq<Entry>)
    requires DistinctKeys(d)
    ensures |KeySet(d)| == |d|
  {
    if d != [] {
      KeySetSize(d[1..]);
      assert KeySet(d) == {d[0].key} + KeySet(d[1..]) by {
        forall k | k in KeySet(d) ensures k in {d[0].key} + KeySet(d[1..]) {
          var i :| 0 <= i < |d| && d[i].key == k;
          if i > 0 { assert d[1..][i - 1].key == k; }
        }
        forall k | k in KeySet(d[1..]) ensures k in KeySet(d) {
          var i :| 0 <= i < |d[1..]| && d[1..][i].key == k;
          assert d[i + 1].key == k;
        }
      }
      assert d[0].key !in KeySet(d[1..]) by {
        forall i | 0 <= i < |d[1..]| ensures d[1..][i].key != d[0].key {
          assert d[1..][i] == d[i + 1];
        }
      }
    }
  }

  /** A subset with at least as many elements is the whole set. */
  lemma SubsetOfNoSmallerSize<T>(a: set<T>, b: set<T>)
    requires a <= b && |a| >= |b|
    ensures a == b
  {
    if a != b {
      var x :| x in b && x !in a;
      SubsetSize(a, b - {x});
    }
  }

  /** Subsets are no larger. */
  lemma SubsetSize<T>(a: set<T>, b: set<T>)
    requires a <= b
    ensures |a| <= |b|
  {
    assert b == a + (b - a);
  }

  /**
   * What `RouteCollection.GetRouteData` returns: `null`, or a `RouteData`
   * with its `"area"` data token, its route values, whether its `Route` is
   * non-null, and whether its handler is a `StopRoutingHandler`.
   */
  datatype RouteAnswer =
    | NoRoute
    | Matched(area: Value, values: Entries, hasRoute: bool, isStopHandler: bool)

  /**
   * The routes under test. Routing itself is external: each collection
   * carries its number of routes and the answers of `GetRouteData` (for a
   * request given by its application-relative URL and HTTP method) and of
   * `UrlHelper.GenerateUrl` (for an action, a controller and route values).
   */
  class RouteCollection {
    const count: nat
    const resolve: (string, string) -> RouteAnswer
    const generate: (string, string, Option<seq<Entry>>) -> Option<string>

    constructor (count: nat, resolve: (string, string) -> RouteAnswer,
                 generate: (string, string, Option<seq<Entry>>) -> Option<string>)
      ensures this.count == count && this.resolve == resolve && this.generate == generate
    {
      this.count := count;
      this.resolve := resolve;
      this.generate := generate;
    }
  }

  /** The kinds of `AssertionException`, with the values their messages report. */
  datatype Failure =
    | NoRouteMatched
    | AreaMismatch(expectedArea: Option<string>, actual: Value)
    | ControllerMismatch(expected: string, actual: Value)
    | ActionMismatch(expected: string, actual: Value)
    | RouteValueCountMismatch(expectedCount: nat, actualCount: nat)
    | RouteValueMissing(key: string)
    | RouteValueValueMismatch(key: string, expectedValue: Value, actualValue: Value)
    | UnexpectedRouteValue(key: string, value: Value)
    | UrlMismatch(expectedUrl: string, generatedUrl: Option<string>)
    | RouteFoundButShouldNotMatch
    | RequestNotIgnored

  /**
   * The exceptions that leave the core: `ArgumentNullException` and
   * `ArgumentException` naming a parameter, `AssertionException`, the
   * null dereference that follows a failed `Debug.Assert` in a release build,
   * and the `ArgumentException` of adding a key a dictionary already holds.
   */
  datatype Exception =
    | ArgumentNull(param: string)
    | Argument(param: string)
    | Assertion(failure: Failure)
    | NullReference
    | DuplicateKey(key: string)

  /** The outcome of a `void` operation: it returns, or it throws. */
  datatype Outcome = Ok | Raised(error: Exception)

  /** The outcome of an operation that returns a value. */
  datatype Result<T> = Success(value: T) | Fail(error: Exception)
}
