/**
 The desktop page as a whole: the accordion's `expanded` state together
 with the experience menu that lives inside the EXPERIENCES panel. The menu
 is rendered only while that panel is open, so its `activeTabId` exists
 only then: closing the panel unmounts the menu and reopening it mounts a
 fresh one on the first tab. The two pieces of state belong to different
 components; a tab click never touches `expanded`.
 */
module DesktopPage {
  import Accordion
  import ExperienceMenu
  import Theme

  /** The experience menu inside the EXPERIENCES panel: not mounted, or mounted with its active tab. */
  datatype MenuInstance = Unmounted | Mounted(activeTab: nat)

  /** The state of the page: the accordion and the menu instance. */
  datatype Page = Page(expanded: Accordion.Expanded, menu: MenuInstance)

  /** A value that may be absent. */
  datatype Option<T> = None | Some(value: T)

  /** A click the user can make: on an accordion header, or on a tab of the experience menu. */
  datatype Event = HeaderClick(panel: Accordion.Panel) | TabClick(index: nat)

  /** The number of the panel that holds the experience menu. */
  const MenuPanel: nat := Accordion.Id(Accordion.Experiences)

  /** The page as first rendered: EXPERIENCES open, its menu on the first tab. */
  const InitialPage: Page := Page(Accordion.Initial, Mounted(ExperienceMenu.InitialTab))

  /** The menu is mounted exactly while the EXPERIENCES panel is open, and the accordion is in one of its own states. */
  predicate Consistent(p: Page) {
    && Accordion.Valid(p.expanded)
    && (p.menu.Mounted? <==> Accordion.IsOpen(p.expanded, MenuPanel))
  }

  /**
   The page after one click over the records `data`. A header click toggles
   the accordion and mounts or unmounts the menu as the EXPERIENCES section
   appears or disappears. A menu that stays on screen would keep its state,
   but on a consistent page no header click keeps EXPERIENCES open, so that
   branch is reached only from inconsistent pages (`HeaderClickUnmountsMenu`).
   A tab click selects the tab; a click on a tab that is not on screen cannot
   happen and leaves the page as it is.
   */
  function Step(data: seq<ExperienceMenu.Experience>, p: Page, e: Event): (q: Page)
    ensures Consistent(p) ==> Consistent(q)
    ensures e.TabClick? ==> q.expanded == p.expanded
    ensures e.HeaderClick? ==> q.expanded == Accordion.Toggle(p.expanded, Accordion.Id(e.panel))
    ensures e.TabClick? && p.menu.Mounted? && e.index < |data| ==> q.menu == Mounted(e.index)
    ensures e.TabClick? && !(p.menu.Mounted? && e.index < |data|) ==> q == p
  {
    match e
    case HeaderClick(panel) =>
      var expanded := Accordion.Toggle(p.expanded, Accordion.Id(panel));
      var menu :=
        if !Accordion.IsOpen(expanded, MenuPanel) then Unmounted
        else if p.menu.Mounted? then p.menu
        else Mounted(ExperienceMenu.InitialTab);
      Page(expanded, menu)
    case TabClick(k) =>
      if p.menu.Mounted? && k < |data|
      then Page(p.expanded, Mounted(ExperienceMenu.Select(p.menu.activeTab, k)))
      else p
  }

  /** The page after the clicks `es`, in order. */
  function Run(data: seq<ExperienceMenu.Experience>, p: Page, es: seq<Event>): Page
    decreases |es|
  {
    if |es| == 0 then p else Run(data, Step(data, p, es[0]), es[1..])
  }

  /** The panel numbers of the header clicks among `es`, in order; tab clicks are skipped. */
  function HeaderIds(es: seq<Event>): seq<nat>
    decreases |es|
  {
    if |es| == 0 then []
    else (if es[0].HeaderClick? then [Accordion.Id(es[0].panel)] else []) + HeaderIds(es[1..])
  }

  /** The experience menu as rendered on the page, if it is mounted. */
  function MenuOnScreen(theme: Theme.Palette, data: seq<ExperienceMenu.Experience>, p: Page): Option<ExperienceMenu.MenuView> {
    match p.menu
    case Unmounted => None
    case Mounted(active) => Some(ExperienceMenu.Render(theme, data, active))
  }

  /** The first render is consistent. */
  lemma InitialConsistent()
    ensures Consistent(InitialPage)
  {
  }

  /** Every sequence of clicks keeps the menu mounted exactly while EXPERIENCES is open. */
  lemma {:induction false} RunConsistent(data: seq<ExperienceMenu.Experience>, p: Page, es: seq<Event>)
    requires Consistent(p)
    ensures Consistent(Run(data, p, es))
    decreases |es|
  {
    if |es| > 0 {
      RunConsistent(data, Step(data, p, es[0]), es[1..]);
    }
  }

  /** Tab clicks never change the accordion, however many there are. */
  lemma {:induction false} TabClicksKeepAccordion(data: seq<ExperienceMenu.Experience>, p: Page, es: seq<Event>)
    requires forall k :: 0 <= k < |es| ==> es[k].TabClick?
    ensures Run(data, p, es).expanded == p.expanded
    decreases |es|
  {
    if |es| > 0 {
      TabClicksKeepAccordion(data, Step(data, p, es[0]), es[1..]);
    }
  }

  /** On the page, the accordion evolves exactly as the header clicks alone would drive it: tab clicks in between make no difference. */
  lemma {:induction false} AccordionFollowsHeaderClicks(data: seq<ExperienceMenu.Experience>, p: Page, es: seq<Event>)
    ensures Run(data, p, es).expanded == Accordion.Clicks(p.expanded, HeaderIds(es))
    decreases |es|
  {
    if |es| > 0 {
      var q := Step(data, p, es[0]);
      AccordionFollowsHeaderClicks(data, q, es[1..]);
      assert Run(data, p, es) == Run(data, q, es[1..]);
      if es[0].HeaderClick? {
        var ids := HeaderIds(es);
        assert ids == [Accordion.Id(es[0].panel)] + HeaderIds(es[1..]);
        assert ids[1..] == HeaderIds(es[1..]);
        assert Accordion.Clicks(p.expanded, ids) == Accordion.Clicks(q.expanded, ids[1..]);
      } else {
        assert HeaderIds(es) == HeaderIds(es[1..]);
      }
    }
  }

  /** Header clicks never leave a menu on anything but the first tab: every header click closes EXPERIENCES, opens it afresh, or leaves it closed. */
  lemma HeaderClickResetsMenu(data: seq<ExperienceMenu.Experience>, p: Page, panel: Accordion.Panel)
    requires Consistent(p)
    ensures Step(data, p, HeaderClick(panel)).menu.Mounted? ==>
      Step(data, p, HeaderClick(panel)).menu == Mounted(ExperienceMenu.InitialTab)
  {
  }

  /** On a consistent page, any header click while the menu is on screen unmounts it: EXPERIENCES closes, or another panel replaces it. */
  lemma HeaderClickUnmountsMenu(data: seq<ExperienceMenu.Experience>, p: Page, panel: Accordion.Panel)
    requires Consistent(p) && p.menu.Mounted?
    ensures Step(data, p, HeaderClick(panel)).menu == Unmounted
    ensures !Accordion.IsOpen(Step(data, p, HeaderClick(panel)).expanded, MenuPanel)
  {
  }

  /**
   Clicking the tab of record `k` on a page whose menu is on screen shows
   exactly record `k`'s block with its details in order, highlights only its
   tab, and leaves the accordion as it was.
   */
  lemma TabClickShowsRecord(theme: Theme.Palette, data: seq<ExperienceMenu.Experience>, p: Page, k: nat)
    requires Consistent(p) && p.menu.Mounted?
    requires k < |data|
    requires Theme.Distinguishable(theme)
    ensures Step(data, p, TabClick(k)).expanded == p.expanded
    ensures Accordion.IsOpen(Step(data, p, TabClick(k)).expanded, MenuPanel)
    ensures MenuOnScreen(theme, data, Step(data, p, TabClick(k))).Some?
    ensures ExperienceMenu.Displayed(MenuOnScreen(theme, data, Step(data, p, TabClick(k))).value) == {k}
    ensures ExperienceMenu.Highlighted(theme, MenuOnScreen(theme, data, Step(data, p, TabClick(k))).value) == {k}
    ensures ExperienceMenu.Texts(MenuOnScreen(theme, data, Step(data, p, TabClick(k))).value.contents[k].paragraphs) == data[k].details
  {
  }

  /** Clicking the same tab twice leaves the page as one click does: a tab click never deselects. */
  lemma TabClickIdempotent(data: seq<ExperienceMenu.Experience>, p: Page, k: nat)
    ensures Step(data, Step(data, p, TabClick(k)), TabClick(k)) == Step(data, p, TabClick(k))
  {
  }

  /** Clicking the tab that is already active changes nothing on the page. */
  lemma TabClickOnActiveKeepsPage(data: seq<ExperienceMenu.Experience>, p: Page, k: nat)
    requires p.menu == Mounted(k) && k < |data|
    ensures Step(data, p, TabClick(k)) == p
  {
  }
}
