/**
 * Concrete scenarios: a conventional `{controller}/{action}/{id}` route, an
 * area route, and URL generation through a default route.
 */
module Scenarios {
  import opened Wrappers
  import opened Text
  import opened Routing
  import opened Incoming
  import opened Outgoing
  import opened Tester

  /** What the router answers for `products/show/42`. */
  function ProductsShow(): RouteAnswer {
    Matched(Null, [Entry("controller", Comparable("products")), Entry("action", Comparable("show")),
                   Entry("id", Comparable("42"))], true, false)
  }

  /** The same route for `products/show`, with the optional `id` left unset. */
  function ProductsShowWithoutId(): RouteAnswer {
    Matched(Null, [Entry("controller", Comparable("products")), Entry("action", Comparable("show")),
                   Entry("id", Optional)], true, false)
  }

  /** What the router answers for `admin/users/edit/7` in the `admin` area. */
  function AdminUsersEdit(): RouteAnswer {
    Matched(Comparable("admin"), [Entry("controller", Comparable("users")), Entry("action", Comparable("edit")),
                                  Entry("id", Comparable("7"))], true, false)
  }

  /** A string whose first character is not white space is not blank. */
  lemma NotBlank(s: string)
    requires |s| > 0 && !IsWhiteSpace(s[0])
    ensures !IsNullOrWhiteSpace(Some(s))
  {
  }

  lemma ProductsShowActualValues()
    ensures ActualRouteValues(ProductsShow().values) == [Entry("id", Comparable("42"))]
    ensures ActualRouteValues(ProductsShowWithoutId().values) == []
    ensures Index(ProductsShow().values, "controller") == Comparable("products")
    ensures Index(ProductsShow().values, "action") == Comparable("show")
  {
    var values := ProductsShow().values;
    assert values[1..][1..] == [Entry("id", Comparable("42"))];
    assert ProductsShowWithoutId().values[1..][1..] == [Entry("id", Optional)];
  }

  lemma ProductsShowMatches()
    ensures MatchRouteOutcome(false, ProductsShow(), Some("products"), Some("show"),
                              Some([Entry("id", Comparable("42"))])) == Ok
  {
    NotBlank("products");
    NotBlank("show");
    ProductsShowActualValues();
  }

  lemma ProductsShowWrongId()
    ensures MatchRouteOutcome(false, ProductsShow(), Some("products"), Some("show"),
                              Some([Entry("id", Comparable("43"))]))
      == Raised(Assertion(RouteValueValueMismatch("id", Comparable("43"), Comparable("42"))))
  {
    NotBlank("products");
    NotBlank("show");
    ProductsShowActualValues();
    assert Fold("42")[1] != Fold("43")[1];
  }

  lemma ProductsShowCounts()
    ensures MatchRouteOutcome(false, ProductsShow(), Some("products"), Some("show"), None)
      == Raised(Assertion(RouteValueCountMismatch(0, 1)))
    ensures MatchRouteOutcome(false, ProductsShowWithoutId(), Some("products"), Some("show"), None) == Ok
  {
    NotBlank("products");
    NotBlank("show");
    ProductsShowActualValues();
    assert ProductsShowWithoutId().values[..2] == ProductsShow().values[..2];
  }

  lemma AdminUsersEditActualValues()
    ensures ActualRouteValues(AdminUsersEdit().values) == [Entry("id", Comparable("7"))]
    ensures Index(AdminUsersEdit().values, "controller") == Comparable("users")
    ensures Index(AdminUsersEdit().values, "action") == Comparable("edit")
  {
    var values := AdminUsersEdit().values;
    assert values[1..][1..] == [Entry("id", Comparable("7"))];
  }

  lemma AdminUsersEditScenario()
    ensures MatchRouteInAreaOutcome(AdminUsersEdit(), Some("admin"), Some("users"), Some("edit"),
                                    Some([Entry("id", Comparable("7"))])) == Ok
    ensures MatchRouteOutcome(false, AdminUsersEdit(), Some("users"), Some("edit"),
                              Some([Entry("id", Comparable("7"))]))
      == Raised(Assertion(AreaMismatch(None, Comparable("admin"))))
  {
    NotBlank("admin");
    NotBlank("users");
    NotBlank("edit");
    AdminUsersEditActualValues();
  }

  /** Outgoing route values keep their declaration order. */
  lemma OutgoingOrderScenario()
    ensures AddAll([], [Entry("page", Comparable("2")), Entry("sort", Comparable("name"))])
      == Success([Entry("page", Comparable("2")), Entry("sort", Comparable("name"))])
    ensures AddAll([], [Entry("sort", Comparable("name")), Entry("page", Comparable("2"))])
      != AddAll([], [Entry("page", Comparable("2")), Entry("sort", Comparable("name"))])
  {
    var page := Entry("page", Comparable("2"));
    var sort := Entry("sort", Comparable("name"));
    assert Fold(page.key) != Fold(sort.key) by {
      assert Fold(page.key)[0] != Fold(sort.key)[0];
    }
    assert !HasKeyIgnoringCase([page], sort.key) by {
      assert forall i | 0 <= i < 1 :: [page][i] == page;
    }
    assert !HasKeyIgnoringCase([sort], page.key) by {
      assert forall i | 0 <= i < 1 :: [sort][i] == sort;
    }
    assert [page, sort][1..] == [sort] && [sort, page][1..] == [page];
    assert [] + [page] == [page] && [] + [sort] == [sort];
    assert [page] + [sort] == [page, sort] && [sort] + [page] == [sort, page];
    assert Add([], page.key, page.value) == Success([page]);
    assert Add([], sort.key, sort.value) == Success([sort]);
    assert AddAll([], [page, sort]) == AddAll([page], [sort]);
    assert AddAll([], [sort, page]) == AddAll([sort], [page]);
    assert AddAll([page], [sort]) == AddAll([page, sort], []);
    assert AddAll([sort], [page]) == AddAll([sort, page], []);
  }

  /** A property named `Area` makes the added `"area"` entry throw. */
  lemma AreaPropertyScenario()
    ensures AddAll([], [Entry("Area", Comparable("x")), Entry("area", Comparable("admin"))])
      == Fail(DuplicateKey("area"))
  {
    var upper := Entry("Area", Comparable("x"));
    var lower := Entry("area", Comparable("admin"));
    assert Fold("Area") == Fold("area");
    assert [] + [upper, lower][..1] == [upper];
    assert Fold([upper][0].key) == Fold(lower.key);
    assert HasKeyIgnoringCase([upper], lower.key);
    AddAllFirstDuplicate([], [upper, lower], 1);
  }

  /** URL generation through a default route that yields `home/about`: exact, case-sensitive. */
  lemma HomeAboutScenario(routes: RouteCollection)
    requires routes.generate("about", "home", None) == Some("home/about")
    ensures RouteInfo(routes, "about", "home", None).ShouldGenerateUrl(Some("home/about")) == Ok
    ensures RouteInfo(routes, "about", "home", None).ShouldGenerateUrl(Some("Home/About"))
      == Raised(Assertion(UrlMismatch("Home/About", Some("home/about"))))
    ensures RouteInfo(routes, "about", "home", None).GeneratesUrl(Some("Home/About")) == Success(false)
  {
    NotBlank("home/about");
    NotBlank("Home/About");
    assert "Home/About"[0] != "home/about"[0];
  }
}
