# Navigation bar logic of the Figma Make Sandbox site

The site is almost entirely static markup. The one piece with behaviour is the
navigation bar (`src/components/navigation.tsx`), fed by the fixed item table of the
page layout (`src/components/layout.tsx`). This project models that piece in Dafny and
proves facts about it:

- **Active-link resolver** (`ActiveLink`): decides whether an item is highlighted,
  given the current route (possibly absent) and the item's href. The route is an
  `Option<string>`. The string's `startsWith` is modelled character by character and
  proved equal to Dafny's sequence prefix `<=`.
- **Mobile disclosure menu** (`Menu`): a two-state machine. It starts closed. The
  menu button flips it. Choosing a link in the mobile panel forces it closed. A link
  to another route also leaves it closed, because every page renders its own layout
  and so mounts a fresh bar. Interaction sequences are folded by `Run`.
- **Rendering** (`Navigation`): one render produces the desktop link list, the menu
  button's icon and the mobile panel. The panel exists only while the menu is open.
  Each link carries the resolver's flag.
- **Whole-bar guarantees** (`Highlight`, `Layout`): a table of items never
  highlights two links on the same route exactly when no two of its hrefs
  `Conflict`. The site's own four-entry table has no conflicts. So every route
  highlights at most one entry, the root route highlights only Home, and each
  entry's own route highlights only that entry.

Behaviour that the code fixes and a casual reading may miss:

- A route that is the empty string counts as absent. The code's `!pathname` guard
  is true for `""` as well as for `null`, so no item is highlighted on it.
- Only the mobile links carry the close handler. The desktop links and the logo
  fire no handler on the menu state. A desktop or logo link to the current route
  therefore leaves the menu as it was. A link to another route changes the page,
  and each page (`src/app/page.tsx`, `src/app/docs/page.tsx`, ...) renders its own
  layout, so the new page mounts a new bar, which starts closed. `Menu.Step` models
  both cases. Whether a link leaves the route is an input to the model.
- Highlighting is a plain prefix test, so a sibling route that shares an href as
  its prefix is highlighted as well. `/docsearch` highlights the `/docs` entry
  (`ScenarioPrefixOverlap`). The model keeps this behaviour. `/documentation` is
  sometimes assumed to match `/docs`; it does not. Its fifth character is `u` and
  that of `/docs` is `s`, so it does not highlight the docs entry
  (`ScenarioDocumentationNotDocs`).

Files: `wrappers.dfy` (Option), `types.dfy` (the item record), `active_link.dfy`,
`menu.dfy`, `navigation.dfy`, `highlight.dfy`, `layout.dfy`.

## Model

| member | source | states |
|---|---|---|
| ActiveLink.StartsWithIsPrefix | src/components/navigation.tsx:29 | the character-by-character `startsWith` holds exactly when the href is a sequence prefix of the route, in both directions |
| ActiveLink.IsActive | src/components/navigation.tsx:24-30 | an absent or empty route highlights nothing; the root href is highlighted iff the route is exactly `/`; any other href is highlighted iff it is a prefix of a present route |
| ActiveLink.ExclusiveWithoutConflict | src/components/navigation.tsx:24-30 | two hrefs that do not conflict are never both highlighted, whatever the route |
| ActiveLink.ConflictHasSharedPath | src/components/navigation.tsx:24-30 | two conflicting hrefs are both highlighted on one explicit route |
| ActiveLink.ConflictIffSharedRoute | src/components/navigation.tsx:24-30 | two hrefs conflict iff some route highlights both |
| ActiveLink.ScenarioRootOnRoot | src/components/navigation.tsx:26-27 | the root route highlights the root href |
| ActiveLink.ScenarioRootOnSection | src/components/navigation.tsx:26-27 | `/components` does not highlight the root href |
| ActiveLink.ScenarioSectionOnDeeperRoute | src/components/navigation.tsx:29 | `/docs/getting-started` highlights `/docs` |
| ActiveLink.ScenarioPrefixOverlap | src/components/navigation.tsx:29 | a sibling route sharing the prefix (`/docsearch`) also highlights `/docs` |
| ActiveLink.ScenarioDocumentationNotDocs | src/components/navigation.tsx:29 | `/documentation` does not highlight `/docs` |
| Menu.Initial | src/components/navigation.tsx:18 | a fresh navigation bar shows no mobile panel |
| Menu.Toggle | src/components/navigation.tsx:21 | the menu button makes the panel visible iff it was hidden |
| Menu.Close | src/components/navigation.tsx:22 | the close handler leaves the panel hidden from either state |
| Menu.LinkHandler | src/components/navigation.tsx:38-92 | a mobile link's handler hides the panel; desktop and logo links fire no handler and leave the state unchanged |
| Menu.Step | src/components/navigation.tsx:18-92 | the button toggles; a mobile link choice, or any link choice that leaves the route and so remounts the bar, yields the initial closed state; other link choices leave the state unchanged |
| Menu.ToggleInvolution | src/components/navigation.tsx:21 | pressing the button twice restores the original state |
| Menu.CloseIdempotent | src/components/navigation.tsx:22 | closing yields the closed state and closing again changes nothing |
| Menu.MobileChoiceCloses | src/components/navigation.tsx:81-92 | choosing any mobile link closes the menu, whether or not it leaves the route |
| Menu.OtherChoiceKeepsOrRemounts | src/components/navigation.tsx:38-59 | a desktop or logo link keeps the menu state on the same route and yields the initial state on a route change |
| Menu.RunAppend | src/components/navigation.tsx:18-22 | running two interaction sequences in turn equals running their concatenation |
| Menu.RunWithoutReset | src/components/navigation.tsx:18-22 | without a mobile link choice or a route change, the final visibility is the initial one flipped once per button press (by parity) |
| Menu.RunAfterReset | src/components/navigation.tsx:18-91 | after a mobile link choice or a route change the menu behaves as freshly mounted, whatever came before |
| Menu.OpenThenChoose | src/components/navigation.tsx:18-91 | from mount, one press shows the panel; a following mobile link choice, or a logo choice that leaves the route, closes it |
| Navigation.Links | src/components/navigation.tsx:47-60 | one link per item in item order, each flagged by the resolver for the current route |
| Navigation.Render | src/components/navigation.tsx:32-99 | the desktop list flags every item; the mobile panel exists iff the menu is open and then lists the same links with the same flags; the button shows the close icon iff open |
| Navigation.ActiveFlagsIgnoreMenu | src/components/navigation.tsx:53 | the highlighted links do not depend on the menu state |
| Navigation.MobileChoiceHidesPanel | src/components/navigation.tsx:78-98 | after any mobile link choice the next render has no mobile panel and shows the menu icon |
| Navigation.MobileChoiceNeedsPanel | src/components/navigation.tsx:78-91 | a mobile link can be chosen iff the render shows the mobile panel, and then the choice takes the menu from open to closed |
| Highlight.UnambiguousHighlightsAtMostOne | src/components/navigation.tsx:24-30 | a table without conflicting hrefs highlights at most one link on every route |
| Highlight.ConflictHighlightsTwo | src/components/navigation.tsx:24-30 | a table with two distinct conflicting entries highlights both of them on their shared route, so that route breaks the at-most-one guarantee |
| Highlight.UnambiguousIffAtMostOne | src/components/navigation.tsx:24-30 | a table is conflict-free iff every route highlights at most one of its links |
| Layout.IdsDistinct | src/components/layout.tsx:12-33 | the ids `home`, `components`, `examples`, `docs` are pairwise distinct |
| Layout.HrefsAbsolute | src/components/layout.tsx:12-33 | every href is non-empty and starts with `/` |
| Layout.OnlyHomeIsRoot | src/components/layout.tsx:12-33 | exactly one href is `/`, that of the Home entry |
| Layout.SectionHrefsPrefixFree | src/components/layout.tsx:21-31 | no section href is a prefix of another section href |
| Layout.TableUnambiguous | src/components/layout.tsx:12-33 | no two entries of the table conflict |
| Layout.AtMostOneItemActive | src/components/layout.tsx:12-33 | on every route at most one entry of the bar is highlighted |
| Layout.RootRouteHighlightsOnlyHome | src/components/layout.tsx:12-33 | on the root route exactly the Home entry is highlighted |
| Layout.OwnRouteHighlightsOnlyItself | src/components/layout.tsx:12-33 | each entry's own href, taken as the route, highlights that entry and no other |

## Left out

- Rendering with React, CSS class strings, the `cn` class merger and the `Button` component: a render is reduced to the link list, the icon choice and the panel's presence.
- `usePathname` (the routing framework): the current route is an input value. So is the navigation a link click triggers; the model covers only its effect on the menu state.
- Mounting: a fresh mount starting closed is `Menu.Initial`, and a link to another route counts as a remount (`Menu.Step`). Remounts for any other reason, such as a reload or back/forward navigation, are outside the model.
- The `icon` and `children` fields of the item record: the navigation bar never reads them.
- The page files, the footer, the `className` props and the build configuration: static content with no behaviour.
- Strings are sequences of characters. The UTF-16 code-unit detail of the platform's strings makes no difference to prefix tests on the routes involved.
