/** The page layout's fixed navigation table and the facts about the whole bar that
    follow from it. */
module Layout {
  import opened Wrappers
  import opened Types
  import opened ActiveLink
  import opened Navigation
  import opened Highlight

  /** The four entries every page hands to the navigation bar, in display order. */
  const NavigationItems: seq<NavigationItem> := [
    NavigationItem("home", "Home", "/"),
    NavigationItem("components", "Components", "/components"),
    NavigationItem("examples", "Examples", "/examples"),
    NavigationItem("docs", "Documentation", "/docs")
  ]

  /** The item ids are pairwise distinct, so they are usable as list keys. */
  lemma IdsDistinct()
    ensures forall m, n :: 0 <= m < n < |NavigationItems| ==> NavigationItems[m].id != NavigationItems[n].id
  {
  }

  /** Every href is an absolute route: non-empty and starting with `/`. */
  lemma HrefsAbsolute()
    ensures forall m :: 0 <= m < |NavigationItems| ==>
      |NavigationItems[m].href| > 0 && NavigationItems[m].href[0] == '/'
  {
  }

  /** Exactly one href is the root route: the Home entry's. */
  lemma OnlyHomeIsRoot()
    ensures NavigationItems[0].id == "home"
    ensures forall m :: 0 <= m < |NavigationItems| ==> (NavigationItems[m].href == Root <==> m == 0)
  {
    assert forall m :: 1 <= m < |NavigationItems| ==> |NavigationItems[m].href| > 1;
  }

  /** No section href is a prefix of another section href. */
  lemma SectionHrefsPrefixFree()
    ensures forall m, n :: 1 <= m < |NavigationItems| && 1 <= n < |NavigationItems| && m != n ==>
      !(NavigationItems[m].href <= NavigationItems[n].href)
  {
    assert NavigationItems[1].href[1] == 'c';
    assert NavigationItems[2].href[1] == 'e';
    assert NavigationItems[3].href[1] == 'd';
  }

  /** The table is unambiguous: no two of its entries conflict. */
  lemma TableUnambiguous()
    ensures Unambiguous(NavigationItems)
  {
    OnlyHomeIsRoot();
    HrefsAbsolute();
    SectionHrefsPrefixFree();
  }

  /** On every route, at most one entry of the bar is highlighted. */
  lemma AtMostOneItemActive(path: Option<string>)
    ensures AtMostOneActive(Links(NavigationItems, path))
  {
    TableUnambiguous();
    UnambiguousHighlightsAtMostOne(NavigationItems, path);
  }

  /** On the root route only Home is highlighted. */
  lemma RootRouteHighlightsOnlyHome()
    ensures forall m :: 0 <= m < |NavigationItems| ==>
      (Links(NavigationItems, Some(Root))[m].active <==> m == 0)
  {
    OnlyHomeIsRoot();
    HrefsAbsolute();
    forall m | 1 <= m < |NavigationItems|
      ensures !IsActive(Some(Root), NavigationItems[m].href)
    {
      assert |NavigationItems[m].href| > 1;
    }
  }

  /** Each entry's own route highlights that entry and no other. */
  lemma OwnRouteHighlightsOnlyItself(k: nat)
    requires k < |NavigationItems|
    ensures forall m :: 0 <= m < |NavigationItems| ==>
      (Links(NavigationItems, Some(NavigationItems[k].href))[m].active <==> m == k)
  {
    AtMostOneItemActive(Some(NavigationItems[k].href));
    HrefsAbsolute();
  }
}
