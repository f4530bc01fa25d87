/** The navigation entry record shared by the layout and the navigation bar. */
module Types {

  /** One entry of the navigation bar: a unique key, a display label and the route
      it links to. The optional icon and nested children of the site's `NavigationItem` type are
      never used by the navigation bar and are not modelled. */
  datatype NavigationItem = NavigationItem(id: string, title: string, href: string)

  /** The root route. */
  const Root: string := "/"
}
