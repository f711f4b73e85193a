/**
 * The facade (`RouteTester`): binds a non-empty route collection, validates
 * the arguments of each test, and builds the incoming and outgoing assertion
 * objects.
 */
module Tester {
  import opened Wrappers
  import opened Text
  import opened Routing
  import opened Incoming
  import opened Outgoing

  /** The route-collection guards of the `RouteTester` constructor, null before empty. */
  function CheckRoutes(routes: RouteCollection?): (o: Outcome)
    ensures o == Ok <==> routes != null && routes.count > 0
    ensures routes == null ==> o == Raised(ArgumentNull("routes"))
    ensures routes != null && routes.count == 0 ==> o == Raised(Argument("routes"))
  {
    if routes == null then Raised(ArgumentNull("routes"))
    else if routes.count == 0 then Raised(Argument("routes"))
    else Ok
  }

  /** The argument checks of the 3-argument `WithRouteInfo`: controller, then action. */
  function CheckRouteInfo(controller: Option<string>, action: Option<string>): (o: Outcome)
    ensures o == Ok <==> !IsNullOrWhiteSpace(controller) && !IsNullOrWhiteSpace(action)
    ensures o != Ok ==> o == Raised(Argument(if IsNullOrWhiteSpace(controller) then "controller" else "action"))
  {
    if IsNullOrWhiteSpace(controller) then Raised(Argument("controller"))
    else if IsNullOrWhiteSpace(action) then Raised(Argument("action"))
    else Ok
  }

  /** The argument checks of the 4-argument `WithRouteInfo`: area, then controller, then action. */
  function CheckAreaRouteInfo(area: Option<string>, controller: Option<string>, action: Option<string>): (o: Outcome)
    ensures o == Ok <==> !IsNullOrWhiteSpace(area) && !IsNullOrWhiteSpace(controller) && !IsNullOrWhiteSpace(action)
    ensures o != Ok ==> o == Raised(Argument(
      if IsNullOrWhiteSpace(area) then "area"
      else if IsNullOrWhiteSpace(controller) then "controller"
      else "action"))
  {
    if IsNullOrWhiteSpace(area) then Raised(Argument("area"))
    else CheckRouteInfo(controller, action)
  }

  /** No two names that a `RouteValueDictionary`, whose keys ignore case, takes for the same key. */
  predicate DistinctIgnoringCase(d: seq<Entry>) {
    forall i, j | 0 <= i < j < |d| :: Fold(d[i].key) != Fold(d[j].key)
  }

  /** The dictionary holds a key equal to `key` ignoring case. */
  predicate HasKeyIgnoringCase(d: seq<Entry>, key: string) {
    exists i | 0 <= i < |d| :: Fold(d[i].key) == Fold(key)
  }

  /**
   * `RouteValueDictionary.Add`: the new entry is enumerated after the
   * existing ones; a key already present, ignoring case, throws.
   */
  function Add(d: seq<Entry>, key: string, value: Value): Result<seq<Entry>> {
    if HasKeyIgnoringCase(d, key) then Fail(DuplicateKey(key)) else Success(d + [Entry(key, value)])
  }

  /** `Add` of each entry of `p` in turn, stopping at the first that throws. */
  function AddAll(d: seq<Entry>, p: seq<Entry>): Result<seq<Entry>>
    decreases |p|
  {
    if p == [] then Success(d)
    else match Add(d, p[0].key, p[0].value)
      case Fail(e) => Fail(e)
      case Success(d') => AddAll(d', p[1..])
  }

  /**
   * Adding entries to a dictionary succeeds exactly when all names stay
   * distinct ignoring case, and the dictionary then enumerates the old
   * entries followed by the new ones in their order.
   */
  lemma {:induction false} AddAllOk(d: seq<Entry>, p: seq<Entry>)
    requires DistinctIgnoringCase(d)
    ensures AddAll(d, p).Success? <==> DistinctIgnoringCase(d + p)
    ensures AddAll(d, p).Success? ==> AddAll(d, p).value == d + p
    decreases |p|
  {
    if p != [] {
      var x := p[0];
      assert d + p == (d + [x]) + p[1..];
      if HasKeyIgnoringCase(d, x.key) {
        var i :| 0 <= i < |d| && Fold(d[i].key) == Fold(x.key);
        assert (d + p)[i] == d[i] && (d + p)[|d|] == x;
      } else {
        var extended := d + [x];
        forall i, j | 0 <= i < j < |extended| ensures Fold(extended[i].key) != Fold(extended[j].key) {
          assert extended[i] == d[i];
          if j < |d| {
            assert extended[j] == d[j];
          }
        }
        AddAllOk(extended, p[1..]);
      }
    }
  }

  /**
   * Adding fails at the first entry whose name repeats an earlier one
   * ignoring case, and the exception names that entry's key.
   */
  lemma {:induction false} AddAllFirstDuplicate(d: seq<Entry>, p: seq<Entry>, j: nat)
    requires j < |p|
    requires DistinctIgnoringCase(d + p[..j])
    requires HasKeyIgnoringCase(d + p[..j], p[j].key)
    ensures AddAll(d, p) == Fail(DuplicateKey(p[j].key))
    decreases |p|
  {
    if j == 0 {
      assert d + p[..0] == d;
    } else {
      var x := p[0];
      assert !HasKeyIgnoringCase(d, x.key) by {
        forall i | 0 <= i < |d| ensures Fold(d[i].key) != Fold(x.key) {
          assert (d + p[..j])[i] == d[i] && (d + p[..j])[|d|] == x;
        }
      }
      assert d + p[..j] == (d + [x]) + p[1..][..j - 1];
      assert p[1..][j - 1] == p[j];
      AddAllFirstDuplicate(d + [x], p[1..], j - 1);
    }
  }

  /** `AddAllOk` for a new, empty dictionary. */
  lemma AddAllFromEmpty(p: seq<Entry>)
    ensures AddAll([], p).Success? <==> DistinctIgnoringCase(p)
    ensures AddAll([], p).Success? ==> AddAll([], p).value == p
  {
    AddAllOk([], p);
    assert [] + p == p;
  }

  /** Adding `p` and then one more entry is adding `p` followed by that entry. */
  lemma {:induction false} AddAllAppend(d: seq<Entry>, p: seq<Entry>, x: Entry)
    ensures AddAll(d, p + [x]) ==
      match AddAll(d, p)
      case Fail(e) => Fail(e)
      case Success(d') => Add(d', x.key, x.value)
    decreases |p|
  {
    if p == [] {
      assert [] + [x] == [x];
    } else {
      assert (p + [x])[1..] == p[1..] + [x];
      match Add(d, p[0].key, p[0].value)
      case Fail(_) =>
      case Success(d') => AddAllAppend(d', p[1..], x);
    }
  }

  /** The properties of an optional anonymous object, none when it is null. */
  function Properties(routeValues: Option<Entries>): seq<Entry> {
    if routeValues.Some? then routeValues.value else []
  }

  /** `BuildRouteValueDictionary`: `Add` of each property, in declaration order. */
  method BuildRouteValueDictionary(properties: seq<Entry>) returns (r: Result<seq<Entry>>)
    ensures r == AddAll([], properties)
    ensures r.Success? <==> DistinctIgnoringCase(properties)
    ensures r.Success? ==> r.value == properties
  {
    var d: seq<Entry> := [];
    var i := 0;
    while i < |properties|
      invariant 0 <= i <= |properties|
      invariant AddAll(d, properties[i..]) == AddAll([], properties)
    {
      assert properties[i..][1..] == properties[i + 1..];
      var property := properties[i];
      var added := Add(d, property.key, property.value);
      if added.Fail? {
        r := Fail(added.error);
        AddAllFromEmpty(properties);
        return;
      }
      d := added.value;
      i := i + 1;
    }
    assert properties[i..] == [];
    r := Success(d);
    AddAllFromEmpty(properties);
  }

  /** `RouteTester(RouteCollection)`: the guards, then a tester over that very collection. */
  method NewRouteTester(routes: RouteCollection?) returns (r: Result<RouteTester>)
    ensures r.Fail? <==> CheckRoutes(routes) != Ok
    ensures r.Fail? ==> r.error == CheckRoutes(routes).error
    ensures r.Success? ==> fresh(r.value) && r.value.applicationRoutes == routes
  {
    var check := CheckRoutes(routes);
    if check.Raised? {
      return Fail(check.error);
    }
    var tester := new RouteTester(routes);
    return Success(tester);
  }

  class RouteTester {
    const applicationRoutes: RouteCollection

    /** Stores the collection the guards of `NewRouteTester` accepted. */
    constructor (routes: RouteCollection)
      requires routes.count > 0
      ensures applicationRoutes == routes
    {
      applicationRoutes := routes;
    }

    /**
     * The 4-argument `WithRouteInfo`: after the argument checks, the
     * caller's properties and then `"area"`, added to a new dictionary one
     * by one, so a repeated name throws.
     */
    method WithRouteInfoInArea(area: Option<string>, controller: Option<string>, action: Option<string>,
                               routeValues: Option<Entries> := None) returns (r: Result<RouteInfo>)
      ensures CheckAreaRouteInfo(area, controller, action) != Ok ==>
        r == Fail(CheckAreaRouteInfo(area, controller, action).error)
      ensures CheckAreaRouteInfo(area, controller, action) == Ok ==>
        r == match AddAll([], Properties(routeValues) + [Entry("area", Comparable(area.value))])
             case Fail(e) => Fail(e)
             case Success(d) => Success(RouteInfo(applicationRoutes, action.value, controller.value, Some(d)))
      ensures r.Success? <==>
        && CheckAreaRouteInfo(area, controller, action) == Ok
        && DistinctIgnoringCase(Properties(routeValues) + [Entry("area", Comparable(area.value))])
      ensures r.Success? ==>
        r.value.routeValues == Some(Properties(routeValues) + [Entry("area", Comparable(area.value))])
    {
      var check := CheckAreaRouteInfo(area, controller, action);
      if check.Raised? {
        return Fail(check.error);
      }
      var areaEntry := Entry("area", Comparable(area.value));
      AddAllAppend([], Properties(routeValues), areaEntry);
      AddAllOk([], Properties(routeValues) + [areaEntry]);
      var routeValueDictionary: Result<seq<Entry>>;
      if routeValues.Some? {
        routeValueDictionary := BuildRouteValueDictionary(routeValues.value);
      } else {
        routeValueDictionary := Success([]);
      }
      if routeValueDictionary.Fail? {
        return Fail(routeValueDictionary.error);
      }
      var withArea := Add(routeValueDictionary.value, "area", Comparable(area.value));
      if withArea.Fail? {
        return Fail(withArea.error);
      }
      r := Success(RouteInfo(applicationRoutes, action.value, controller.value, Some(withArea.value)));
    }

    /**
     * The 3-argument `WithRouteInfo`: after the argument checks, the
     * caller's properties added to a new dictionary one by one, and no
     * dictionary at all when there are none.
     */
    method WithRouteInfo(controller: Option<string>, action: Option<string>,
                         routeValues: Option<Entries> := None) returns (r: Result<RouteInfo>)
      ensures CheckRouteInfo(controller, action) != Ok ==> r == Fail(CheckRouteInfo(controller, action).error)
      ensures CheckRouteInfo(controller, action) == Ok && routeValues.None? ==>
        r == Success(RouteInfo(applicationRoutes, action.value, controller.value, None))
      ensures CheckRouteInfo(controller, action) == Ok && routeValues.Some? ==>
        r == match AddAll([], routeValues.value)
             case Fail(e) => Fail(e)
             case Success(d) => Success(RouteInfo(applicationRoutes, action.value, controller.value, Some(d)))
      ensures r.Success? <==> CheckRouteInfo(controller, action) == Ok && DistinctIgnoringCase(Properties(routeValues))
      ensures r.Success? && routeValues.Some? ==> r.value.routeValues == Some(routeValues.value)
    {
      var check := CheckRouteInfo(controller, action);
      if check.Raised? {
        return Fail(check.error);
      }
      var routeValueDictionary: Option<seq<Entry>> := None;
      if routeValues.Some? {
        var built := BuildRouteValueDictionary(routeValues.value);
        if built.Fail? {
          return Fail(built.error);
        }
        routeValueDictionary := Some(built.value);
      }
      r := Success(RouteInfo(applicationRoutes, action.value, controller.value, routeValueDictionary));
    }

    /**
     * `WithIncomingRequest`: a blank URL is an argument error; otherwise a
     * fresh request over the same collection, keeping the literal URL.
     */
    method WithIncomingRequest(url: Option<string>, httpMethod: string := "GET") returns (r: Result<RequestInfo>)
      ensures r.Fail? <==> IsNullOrWhiteSpace(url)
      ensures r.Fail? ==> r.error == Argument("url")
      ensures r.Success? ==>
        && fresh(r.value)
        && r.value.routes == applicationRoutes
        && r.value.requestUrl == url.value
        && r.value.preparedUrl == PrepareUrl(url.value)
        && r.value.httpMethod == httpMethod
        && !r.value.areaFlag
    {
      if IsNullOrWhiteSpace(url) {
        return Fail(Argument("url"));
      }
      var request := new RequestInfo(applicationRoutes, url.value, httpMethod);
      return Success(request);
    }
  }
}
