/** The navigation bar as rendered: the desktop link list, the menu button's icon and
    the mobile panel, each link carrying its active flag. */
module Navigation {
  import opened Wrappers
  import opened Types
  import opened ActiveLink
  import opened Menu

  /** The icon on the menu button: a hamburger while closed, a cross while open. */
  datatype Icon = MenuIcon | CloseIcon

  /** One rendered link: the item it stands for and whether it is highlighted. */
  datatype LinkView = LinkView(item: NavigationItem, active: bool)

  /** Everything the navigation bar decides for one render. The mobile panel is
      `None` when it is not rendered at all. */
  datatype NavView = NavView(desktop: seq<LinkView>, icon: Icon, mobile: Option<seq<LinkView>>)

  /** The link list rendered from the items, in the items' order, each flagged by
      the resolver for the current route. */
  function Links(items: seq<NavigationItem>, path: Option<string>): (links: seq<LinkView>)
    ensures |links| == |items|
    ensures forall i :: 0 <= i < |items| ==>
      links[i].item == items[i] && (links[i].active <==> IsActive(path, items[i].href))
    decreases |items|
  {
    if |items| == 0 then []
    else [LinkView(items[0], IsActive(path, items[0].href))] + Links(items[1..], path)
  }

  /** The flag of one rendered link, stated for a single index. */
  lemma LinkFlag(items: seq<NavigationItem>, path: Option<string>, k: nat)
    requires k < |items|
    ensures Links(items, path)[k].active <==> IsActive(path, items[k].href)
  {
  }

  /** One render of the navigation bar for a route and a menu state. */
  function Render(items: seq<NavigationItem>, path: Option<string>, menu: MenuState): (v: NavView)
    ensures |v.desktop| == |items|
    ensures forall i :: 0 <= i < |items| ==>
      v.desktop[i].item == items[i] && (v.desktop[i].active <==> IsActive(path, items[i].href))
    ensures v.mobile.Some? <==> PanelVisible(menu)
    ensures v.mobile.Some? ==> v.mobile.value == v.desktop
    ensures v.icon == CloseIcon <==> PanelVisible(menu)
  {
    var links := Links(items, path);
    NavView(links,
            if PanelVisible(menu) then CloseIcon else MenuIcon,
            if PanelVisible(menu) then Some(links) else None)
  }

  /** The active flags depend on the route and the hrefs only, never on the menu. */
  lemma ActiveFlagsIgnoreMenu(items: seq<NavigationItem>, path: Option<string>, m1: MenuState, m2: MenuState)
    ensures Render(items, path, m1).desktop == Render(items, path, m2).desktop
  {
  }

  /** After any mobile link is chosen the next render has no mobile panel. */
  lemma MobileChoiceHidesPanel(items: seq<NavigationItem>, path: Option<string>, menu: MenuState, leaves: bool)
    ensures Render(items, path, Step(menu, LinkChosen(MobileLink, leaves))).mobile == None
    ensures Render(items, path, Step(menu, LinkChosen(MobileLink, leaves))).icon == MenuIcon
  {
  }

  /** A link can be chosen only if it is on screen: mobile links exist only while
      the mobile panel is rendered. */
  predicate Enabled(menu: MenuState, e: Event)
  {
    e.LinkChosen? && e.kind == MobileLink ==> PanelVisible(menu)
  }

  /** A mobile link choice is possible exactly when the render shows the panel, and
      then it takes the menu from open to closed. */
  lemma MobileChoiceNeedsPanel(items: seq<NavigationItem>, path: Option<string>, menu: MenuState, leaves: bool)
    ensures Enabled(menu, LinkChosen(MobileLink, leaves)) <==> Render(items, path, menu).mobile.Some?
    ensures Enabled(menu, LinkChosen(MobileLink, leaves)) ==>
      menu == Open && Step(menu, LinkChosen(MobileLink, leaves)) == Closed
  {
  }
}
