/**
 * Outgoing-URL assertions (`RouteInfo`): routing information fixed when it
 * is built, the URL the router generates from it, and the exact comparison
 * of that URL with the expected one.
 */
module Outgoing {
  import opened Wrappers
  import opened Text
  import opened Routing

  /** Routing information for an outgoing-URL test: read-only once built. */
  datatype RouteInfo = RouteInfo(routes: RouteCollection, action: string, controller: string,
                                 routeValues: Option<seq<Entry>>)
  {
    /** `UrlHelper.GenerateUrl` with no route name, this action, controller and values, and the routes. */
    function GeneratedUrl(): Option<string> {
      routes.generate(action, controller, routeValues)
    }

    /**
     * `ShouldGenerateUrl`: a blank expected URL is an argument error;
     * otherwise the check passes exactly when the generated URL is the
     * expected one, character for character.
     */
    function ShouldGenerateUrl(expectedUrl: Option<string>): (o: Outcome)
      ensures IsNullOrWhiteSpace(expectedUrl) ==> o == Raised(Argument("expectedUrl"))
      ensures !IsNullOrWhiteSpace(expectedUrl) ==> (o == Ok <==> GeneratedUrl() == expectedUrl)
      ensures !IsNullOrWhiteSpace(expectedUrl) && o != Ok ==>
        o == Raised(Assertion(UrlMismatch(expectedUrl.value, GeneratedUrl())))
    {
      if IsNullOrWhiteSpace(expectedUrl) then Raised(Argument("expectedUrl"))
      else
        var generatedUrl := GeneratedUrl();
        if expectedUrl != generatedUrl then Raised(Assertion(UrlMismatch(expectedUrl.value, generatedUrl)))
        else Ok
    }

    /** `GeneratesUrl`: `ShouldGenerateUrl` with its assertion failures turned into `false`. */
    function GeneratesUrl(expectedUrl: Option<string>): (r: Result<bool>)
      ensures IsNullOrWhiteSpace(expectedUrl) ==> r == Fail(Argument("expectedUrl"))
      ensures !IsNullOrWhiteSpace(expectedUrl) ==> r == Success(GeneratedUrl() == expectedUrl)
    {
      match ShouldGenerateUrl(expectedUrl)
      case Ok => Success(true)
      case Raised(e) => if e.Assertion? then Success(false) else Fail(e)
    }
  }

  /**
   * `GeneratesUrl` returns true exactly when `ShouldGenerateUrl` completes,
   * false exactly when it fails an assertion, and lets every other exception through.
   */
  lemma GeneratesUrlCatchesOnlyAssertions(info: RouteInfo, expectedUrl: Option<string>)
    ensures info.GeneratesUrl(expectedUrl) == Success(true) <==> info.ShouldGenerateUrl(expectedUrl) == Ok
    ensures info.GeneratesUrl(expectedUrl) == Success(false) <==>
      info.ShouldGenerateUrl(expectedUrl).Raised? && info.ShouldGenerateUrl(expectedUrl).error.Assertion?
    ensures info.GeneratesUrl(expectedUrl).Fail? <==>
      info.ShouldGenerateUrl(expectedUrl).Raised? && !info.ShouldGenerateUrl(expectedUrl).error.Assertion?
  {
  }

  /**
   * The expected URL is validated before any URL is generated: for a blank
   * URL the outcome does not depend on the routing information at all.
   */
  lemma ShouldGenerateUrlValidatesFirst(info1: RouteInfo, info2: RouteInfo, expectedUrl: Option<string>)
    requires IsNullOrWhiteSpace(expectedUrl)
    ensures info1.ShouldGenerateUrl(expectedUrl) == info2.ShouldGenerateUrl(expectedUrl)
    ensures info1.GeneratesUrl(expectedUrl) == info2.GeneratesUrl(expectedUrl)
  {
  }

  /**
   * The comparison is case-sensitive: a generated URL that differs from
   * the expected one only in case fails, and a missing URL always fails.
   */
  lemma ShouldGenerateUrlIsExact(info: RouteInfo, expectedUrl: string)
    requires !IsNullOrWhiteSpace(Some(expectedUrl))
    ensures info.GeneratedUrl().None? ==>
      info.ShouldGenerateUrl(Some(expectedUrl)) == Raised(Assertion(UrlMismatch(expectedUrl, None)))
    ensures info.GeneratedUrl().Some? && info.GeneratedUrl().value != expectedUrl
            && Fold(info.GeneratedUrl().value) == Fold(expectedUrl) ==>
      info.GeneratesUrl(Some(expectedUrl)) == Success(false)
  {
  }
}
