/**
 * The navigation bar: the mobile-menu flag, the current pathname, and the scroll resets to
 * (0, 0) it causes, counted in `scrolls` so that each one is observable.
 */
module Navigation {
  import opened Wrappers

  datatype NavItem = NavItem(name: string, path: string)

  /** The six entries of the bar, in display order. */
  const NavItems: seq<NavItem> := [
    NavItem("Home", "/"),
    NavItem("About", "/about"),
    NavItem("Projects", "/projects"),
    NavItem("Skills", "/skills"),
    NavItem("CV", "/cv"),
    NavItem("Contact", "/contact")
  ]

  predicate PathsDistinct(items: seq<NavItem>) {
    forall i, j :: 0 <= i < j < |items| ==> items[i].path != items[j].path
  }

  predicate Listed(items: seq<NavItem>, path: string) {
    exists k :: 0 <= k < |items| && items[k].path == path
  }

  /** `scrolls` counts the calls of `window.scrollTo(0, 0)` since the bar was mounted. */
  datatype State = State(pathname: string, isOpen: bool, scrolls: nat)

  /** First render: the menu is closed and the pathname effect runs once. */
  function Mount(path: string): (s: State)
    ensures s.pathname == path && !s.isOpen && s.scrolls == 1
  {
    State(path, false, 1)
  }

  /** The menu button: flips the flag and nothing else. */
  function Toggle(s: State): (r: State)
    ensures r.isOpen != s.isOpen
    ensures r.(isOpen := s.isOpen) == s
  {
    s.(isOpen := !s.isOpen)
  }

  /**
   * The router moves to `path`: the effect keyed on the pathname resets the scroll exactly
   * when the pathname differs; the menu flag is not touched.
   */
  function LocationChange(s: State, path: string): (r: State)
    ensures r.pathname == path && r.isOpen == s.isOpen
    ensures r.scrolls > s.scrolls <==> path != s.pathname
    ensures r.scrolls <= s.scrolls + 1
  {
    if path == s.pathname then s else State(path, s.isOpen, s.scrolls + 1)
  }

  /** `handleNavClick`: close the menu and reset the scroll. */
  function HandleNavClick(s: State): (r: State)
    ensures !r.isOpen && r.pathname == s.pathname && r.scrolls == s.scrolls + 1
  {
    State(s.pathname, false, s.scrolls + 1)
  }

  /**
   * A click on a bar entry (desktop or mobile): the handler runs, then the link navigates.
   * The menu ends closed from either state, and the scroll is reset once when the target is
   * the current page and twice otherwise.
   */
  function NavClick(s: State, item: NavItem): (r: State)
    requires item in NavItems
    ensures !r.isOpen && r.pathname == item.path
    ensures r.scrolls == s.scrolls + (if item.path == s.pathname then 1 else 2)
  {
    LocationChange(HandleNavClick(s), item.path)
  }

  /** The logo link to "/" has no click handler: it only navigates, so an open menu stays open. */
  function LogoClick(s: State): (r: State)
    ensures r.pathname == "/" && r.isOpen == s.isOpen
    ensures r.scrolls > s.scrolls <==> s.pathname != "/"
  {
    LocationChange(s, "/")
  }

  /** One entry as rendered: its highlight class and the indicator under it. */
  datatype ItemView = ItemView(name: string, path: string, highlighted: bool, indicator: bool)

  /** The desktop list always, the mobile list only while the menu is open. */
  datatype View = View(desktop: seq<ItemView>, mobile: Option<seq<ItemView>>)

  function ItemsView(pathname: string, items: seq<NavItem>, withIndicator: bool): (r: seq<ItemView>)
    ensures |r| == |items|
    ensures forall k :: 0 <= k < |r| ==>
      r[k].name == items[k].name && r[k].path == items[k].path
      && (r[k].highlighted <==> pathname == items[k].path)
      && (r[k].indicator <==> withIndicator && pathname == items[k].path)
  {
    seq(|items|, k requires 0 <= k < |items| =>
      ItemView(items[k].name, items[k].path, pathname == items[k].path, withIndicator && pathname == items[k].path))
  }

  /** The bar for a state; only desktop entries carry the sliding indicator. */
  function Render(s: State): (v: View)
    ensures |v.desktop| == |NavItems|
    ensures forall k :: 0 <= k < |NavItems| ==>
      (v.desktop[k].highlighted <==> s.pathname == NavItems[k].path)
      && (v.desktop[k].indicator <==> s.pathname == NavItems[k].path)
    ensures v.mobile.Some? <==> s.isOpen
    ensures v.mobile.Some? ==> |v.mobile.value| == |NavItems| && forall k :: 0 <= k < |NavItems| ==>
      (v.mobile.value[k].highlighted <==> s.pathname == NavItems[k].path) && !v.mobile.value[k].indicator
  {
    View(ItemsView(s.pathname, NavItems, true),
         if s.isOpen then Some(ItemsView(s.pathname, NavItems, false)) else None)
  }

  /** The number of highlighted entries in a rendered list. */
  function CountHighlighted(vs: seq<ItemView>): (n: nat)
    ensures n <= |vs|
    ensures n == 0 <==> forall k :: 0 <= k < |vs| ==> !vs[k].highlighted
  {
    if vs == [] then 0
    else CountHighlighted(vs[..|vs| - 1]) + (if vs[|vs| - 1].highlighted then 1 else 0)
  }

  /** With distinct paths, at most one entry is highlighted, and one exactly when the pathname is listed. */
  lemma {:induction false} HighlightUnique(pathname: string, items: seq<NavItem>, withIndicator: bool)
    requires PathsDistinct(items)
    ensures CountHighlighted(ItemsView(pathname, items, withIndicator)) <= 1
    ensures CountHighlighted(ItemsView(pathname, items, withIndicator)) == 1 <==> Listed(items, pathname)
  {
    if items != [] {
      var init := items[..|items| - 1];
      var vs := ItemsView(pathname, items, withIndicator);
      assert vs[..|vs| - 1] == ItemsView(pathname, init, withIndicator);
      HighlightUnique(pathname, init, withIndicator);
      if items[|items| - 1].path == pathname {
        assert !Listed(init, pathname);
        assert CountHighlighted(ItemsView(pathname, init, withIndicator)) == 0;
      }
      if Listed(items, pathname) && items[|items| - 1].path != pathname {
        var k :| 0 <= k < |items| && items[k].path == pathname;
        assert init[k].path == pathname;
      }
    }
  }

  lemma NavPathsDistinct()
    ensures |NavItems| == 6 && PathsDistinct(NavItems)
  {
  }

  /** On every page of the bar exactly one entry is lit; elsewhere none is. */
  lemma ActiveItemUnique(s: State)
    ensures CountHighlighted(Render(s).desktop) <= 1
    ensures CountHighlighted(Render(s).desktop) == 1 <==> Listed(NavItems, s.pathname)
  {
    NavPathsDistinct();
    HighlightUnique(s.pathname, NavItems, true);
  }

  /** Toggling twice restores the state. */
  lemma ToggleInvolution(s: State)
    ensures Toggle(Toggle(s)) == s
  {
  }

  /** Things that happen to the bar: the button, a bar entry, the logo, or any other route change. */
  datatype Event = ToggleMenu | ClickItem(item: NavItem) | ClickLogo | Visit(path: string)

  predicate ValidEvent(e: Event) {
    e.ClickItem? ==> e.item in NavItems
  }

  function Step(s: State, e: Event): (r: State)
    requires ValidEvent(e)
    ensures r.scrolls >= s.scrolls
  {
    match e
    case ToggleMenu => Toggle(s)
    case ClickItem(item) => NavClick(s, item)
    case ClickLogo => LogoClick(s)
    case Visit(p) => LocationChange(s, p)
  }

  /** The number of route changes to a new pathname along a run. */
  function PathChanges(s: State, es: seq<Event>): nat
    requires forall k :: 0 <= k < |es| ==> ValidEvent(es[k])
    decreases |es|
  {
    if es == [] then 0
    else
      var next := Step(s, es[0]);
      (if next.pathname != s.pathname then 1 else 0) + PathChanges(next, es[1..])
  }

  function Run(s: State, es: seq<Event>): (r: State)
    requires forall k :: 0 <= k < |es| ==> ValidEvent(es[k])
    decreases |es|
  {
    if es == [] then s else Run(Step(s, es[0]), es[1..])
  }

  /** Every change of pathname along a run is accompanied by at least one scroll reset. */
  lemma {:induction false} ScrollsCoverPathChanges(s: State, es: seq<Event>)
    requires forall k :: 0 <= k < |es| ==> ValidEvent(es[k])
    ensures Run(s, es).scrolls >= s.scrolls + PathChanges(s, es)
    decreases |es|
  {
    if es != [] {
      var next := Step(s, es[0]);
      assert next.pathname != s.pathname ==> next.scrolls >= s.scrolls + 1;
      ScrollsCoverPathChanges(next, es[1..]);
    }
  }

  /** After a click on a bar entry the menu is closed, whatever came before. */
  lemma {:induction false} ClickCloses(s: State, es: seq<Event>, item: NavItem)
    requires forall k :: 0 <= k < |es| ==> ValidEvent(es[k])
    requires item in NavItems
    ensures !Run(s, es + [ClickItem(item)]).isOpen
    decreases |es|
  {
    if es == [] {
      assert Run(s, [ClickItem(item)]) == Run(NavClick(s, item), []);
    } else {
      assert (es + [ClickItem(item)])[1..] == es[1..] + [ClickItem(item)];
      ClickCloses(Step(s, es[0]), es[1..], item);
    }
  }

  /**
   * Loading "/" and clicking "Projects" resets the scroll three times: once on mount, then
   * once in the click handler and once more for the new pathname. Opening the menu and
   * clicking "Contact" then closes it.
   */
  lemma ClickScenario()
    ensures var s := NavClick(Mount("/"), NavItems[2]);
      s.pathname == "/projects" && !s.isOpen && s.scrolls == 3
    ensures var t := NavClick(Toggle(NavClick(Mount("/"), NavItems[2])), NavItems[5]);
      t.pathname == "/contact" && !t.isOpen && t.scrolls == 5
  {
  }
}
