/** The mobile disclosure menu of the navigation bar: a two-state machine driven by
    the menu button, by choosing a link in the mobile panel, and by the remount that
    every change of route causes (each page renders its own layout, and with it a
    fresh navigation bar). */
module Menu {

  /** Whether the mobile menu panel is disclosed. */
  datatype MenuState = Closed | Open

  /** The three kinds of link in the bar. Only the links of the mobile panel carry
      the close handler; the desktop links and the logo carry no handler at all. */
  datatype LinkKind = MobileLink | DesktopLink | LogoLink

  /** The user interactions the navigation bar reacts to. A link choice records
      which kind of link was chosen and whether its target is a different route
      from the current one (the routing layer decides that). Which item was chosen
      does not matter: every link of one kind has the same handler. */
  datatype Event =
    | ToggleClicked
    | LinkChosen(kind: LinkKind, leavesRoute: bool)

  /** The state of a freshly mounted navigation bar. */
  function Initial(): (s: MenuState)
    ensures !PanelVisible(s)
  {
    Closed
  }

  /** The mobile panel is rendered only while the menu is open. */
  predicate PanelVisible(s: MenuState)
  {
    s == Open
  }

  /** The menu button: negates the state. */
  function Toggle(s: MenuState): (t: MenuState)
    ensures PanelVisible(t) <==> !PanelVisible(s)
  {
    if s == Open then Closed else Open
  }

  /** The close handler attached to every mobile link: forces the menu closed. */
  function Close(s: MenuState): (t: MenuState)
    ensures !PanelVisible(t)
  {
    Closed
  }

  /** The handler a link of the given kind fires on the menu state. */
  function LinkHandler(kind: LinkKind, s: MenuState): (t: MenuState)
    ensures kind == MobileLink ==> !PanelVisible(t)
    ensures kind != MobileLink ==> t == s
  {
    if kind == MobileLink then Close(s) else s
  }

  /** Events after which the bar is closed, whatever came before: a mobile link
      choice, and any link choice that leaves the current route. */
  predicate Resets(e: Event)
  {
    e.LinkChosen? && (e.kind == MobileLink || e.leavesRoute)
  }

  /** The effect of one interaction on the menu state. A link to another route
      swaps the page and mounts a new bar, which starts in the initial state. */
  function Step(s: MenuState, e: Event): (t: MenuState)
    ensures e.ToggleClicked? ==> t == Toggle(s)
    ensures Resets(e) ==> t == Initial()
    ensures e.LinkChosen? && !Resets(e) ==> t == s
  {
    match e
    case ToggleClicked => Toggle(s)
    case LinkChosen(kind, leavesRoute) =>
      var handled := LinkHandler(kind, s);
      if leavesRoute then Initial() else handled
  }

  /** The state after a sequence of interactions, applied in order. */
  function Run(s: MenuState, events: seq<Event>): MenuState
    decreases |events|
  {
    if |events| == 0 then s else Run(Step(s, events[0]), events[1..])
  }

  /** Number of menu-button presses in a sequence of interactions. */
  function Toggles(events: seq<Event>): nat
    decreases |events|
  {
    if |events| == 0 then 0
    else (if events[0].ToggleClicked? then 1 else 0) + Toggles(events[1..])
  }

  /** No event of the sequence resets the menu. */
  predicate NoReset(events: seq<Event>)
  {
    forall k :: 0 <= k < |events| ==> !Resets(events[k])
  }

  /** Pressing the menu button twice restores the original state. */
  lemma ToggleInvolution(s: MenuState)
    ensures Toggle(Toggle(s)) == s
  {
  }

  /** Closing is idempotent and yields the closed state from either state. */
  lemma CloseIdempotent(s: MenuState)
    ensures Close(Close(s)) == Close(s) == Closed
  {
  }

  /** Choosing a mobile link closes the menu, whether or not it leaves the route. */
  lemma MobileChoiceCloses(s: MenuState, leaves1: bool, leaves2: bool)
    ensures Step(s, LinkChosen(MobileLink, leaves1)) == Step(s, LinkChosen(MobileLink, leaves2)) == Closed
  {
  }

  /** Choosing a desktop link or the logo keeps the menu state on the same route
      and resets it to the initial state when the route changes. */
  lemma OtherChoiceKeepsOrRemounts(s: MenuState, kind: LinkKind, leaves: bool)
    requires kind != MobileLink
    ensures Step(s, LinkChosen(kind, leaves)) == (if leaves then Initial() else s)
  {
  }

  /** Running two sequences one after the other is running their concatenation. */
  lemma {:induction false} RunAppend(s: MenuState, a: seq<Event>, b: seq<Event>)
    ensures Run(s, a + b) == Run(Run(s, a), b)
    decreases |a|
  {
    if |a| == 0 {
      assert a + b == b;
    } else {
      assert (a + b)[1..] == a[1..] + b;
      RunAppend(Step(s, a[0]), a[1..], b);
    }
  }

  /** Without a resetting event, the panel ends visible exactly when it started
      visible and the button was pressed an even number of times, or it started
      hidden and the button was pressed an odd number of times. */
  lemma {:induction false} RunWithoutReset(s: MenuState, events: seq<Event>)
    requires NoReset(events)
    ensures PanelVisible(Run(s, events)) <==> (PanelVisible(s) <==> Toggles(events) % 2 == 0)
    decreases |events|
  {
    if |events| != 0 {
      assert NoReset(events[1..]) by {
        forall k | 0 <= k < |events[1..]| ensures !Resets(events[1..][k]) {
          assert events[1..][k] == events[k + 1];
        }
      }
      RunWithoutReset(Step(s, events[0]), events[1..]);
    }
  }

  /** A resetting event forgets everything before it: afterwards the menu behaves
      as if freshly mounted. */
  lemma RunAfterReset(s: MenuState, before: seq<Event>, e: Event, after: seq<Event>)
    requires Resets(e)
    ensures Run(s, before + [e] + after) == Run(Initial(), after)
  {
    RunAppend(s, before + [e], after);
    RunAppend(s, before, [e]);
  }

  /** From a fresh mount: the button discloses the panel; choosing any mobile link
      then dismisses it, and so does choosing the logo from another route. */
  lemma OpenThenChoose(leaves: bool)
    ensures PanelVisible(Run(Initial(), [ToggleClicked]))
    ensures Run(Initial(), [ToggleClicked, LinkChosen(MobileLink, leaves)]) == Closed
    ensures Run(Initial(), [ToggleClicked, LinkChosen(LogoLink, true)]) == Closed
  {
    RunAfterReset(Initial(), [ToggleClicked], LinkChosen(MobileLink, leaves), []);
    assert [ToggleClicked] + [LinkChosen(MobileLink, leaves)] + [] == [ToggleClicked, LinkChosen(MobileLink, leaves)];
    RunAfterReset(Initial(), [ToggleClicked], LinkChosen(LogoLink, true), []);
    assert [ToggleClicked] + [LinkChosen(LogoLink, true)] + [] == [ToggleClicked, LinkChosen(LogoLink, true)];
  }
}
