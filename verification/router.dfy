/**
 * The application shell: the navigation bar rendered above a route table that maps six
 * exact paths to six pages, with no catch-all route.
 */
module Router {
  import opened Wrappers
  import Navigation

  datatype Page = Home | About | Projects | Skills | CV | Contact

  datatype Route = Route(path: string, page: Page)

  const Routes: seq<Route> := [
    Route("/", Home),
    Route("/about", About),
    Route("/projects", Projects),
    Route("/skills", Skills),
    Route("/cv", CV),
    Route("/contact", Contact)
  ]

  /** The page of the first route whose path is `path`, if any. */
  function MatchIn(routes: seq<Route>, path: string): (r: Option<Page>)
    ensures r.None? <==> forall k :: 0 <= k < |routes| ==> routes[k].path != path
    ensures r.Some? ==> exists k :: 0 <= k < |routes| && routes[k] == Route(path, r.value)
  {
    if routes == [] then None
    else if routes[0].path == path then Some(routes[0].page)
    else
      var rest := MatchIn(routes[1..], path);
      assert rest.Some? ==> exists k :: 0 <= k < |routes| && routes[k] == Route(path, rest.value) by {
        if rest.Some? {
          var k :| 0 <= k < |routes| - 1 && routes[1..][k] == Route(path, rest.value);
          assert routes[k + 1] == Route(path, rest.value);
        }
      }
      assert forall k :: 0 <= k < |routes[1..]| ==> routes[1..][k] == routes[k + 1];
      rest
  }

  function Match(path: string): Option<Page> {
    MatchIn(Routes, path)
  }

  /** What the shell shows: the bar is present for every path, the page only for a listed one. */
  datatype Screen = Screen(navigation: bool, page: Option<Page>)

  function Render(path: string): (v: Screen)
    ensures v.navigation
    ensures v.page.Some? <==> exists k :: 0 <= k < |Routes| && Routes[k].path == path
    ensures v.page.Some? ==> exists k :: 0 <= k < |Routes| && Routes[k] == Route(path, v.page.value)
  {
    Screen(true, Match(path))
  }

  /** Six routes with pairwise-distinct paths and pairwise-distinct pages. */
  lemma RoutesDistinct()
    ensures |Routes| == 6
    ensures forall i, j :: 0 <= i < j < |Routes| ==> Routes[i].path != Routes[j].path
    ensures forall i, j :: 0 <= i < j < |Routes| ==> Routes[i].page != Routes[j].page
  {
  }

  /** Each listed path selects the page listed with it. */
  lemma EachPathOnePage(k: nat)
    requires k < |Routes|
    ensures Match(Routes[k].path) == Some(Routes[k].page)
  {
    RoutesDistinct();
    var r := Match(Routes[k].path);
    var j :| 0 <= j < |Routes| && Routes[j] == Route(Routes[k].path, r.value);
    assert j == k;
  }

  /** No two paths select the same page. */
  lemma MatchInjective(p: string, q: string)
    requires Match(p).Some? && Match(p) == Match(q)
    ensures p == q
  {
    RoutesDistinct();
    var i :| 0 <= i < |Routes| && Routes[i] == Route(p, Match(p).value);
    var j :| 0 <= j < |Routes| && Routes[j] == Route(q, Match(q).value);
    assert i == j;
  }

  /** The paths of the route table are exactly the paths of the navigation bar. */
  lemma RoutePathsAreNavPaths()
    ensures (set k | 0 <= k < |Routes| :: Routes[k].path)
         == (set k | 0 <= k < |Navigation.NavItems| :: Navigation.NavItems[k].path)
  {
    assert forall k :: 0 <= k < 6 ==> Routes[k].path == Navigation.NavItems[k].path;
  }

  /** Every bar entry leads to a page. */
  lemma NavItemsReachPages(item: Navigation.NavItem)
    requires item in Navigation.NavItems
    ensures Render(item.path).page.Some?
  {
    var k :| 0 <= k < |Navigation.NavItems| && Navigation.NavItems[k] == item;
    assert Routes[k].path == item.path;
  }

  /** A path outside the table shows the bar and no page. */
  lemma NoCatchAll(path: string)
    requires !Navigation.Listed(Navigation.NavItems, path)
    ensures Render(path) == Screen(true, None)
  {
    assert forall k :: 0 <= k < 6 ==> Routes[k].path == Navigation.NavItems[k].path;
  }
}
