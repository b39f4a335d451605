/**
 The accordion of the desktop layout: three panels (EXPERIENCES, PROJECTS,
 SKILLS) sharing one `expanded` state that is either `false` (every panel
 collapsed) or the number of the one open panel. A header click toggles its
 panel; the panel's content section and the rotation of its chevron follow
 from whether it is open.
 */
module Accordion {

  /** The `expanded` state: `false` is `Collapsed`, a number `k` is `Open(k)`. */
  datatype Expanded = Collapsed | Open(panel: nat)

  /** The three panels of the desktop layout, in display order. */
  datatype Panel = Experiences | Projects | Skills

  /** The panel number `i` each accordion is given. */
  function Id(p: Panel): nat {
    match p
    case Experiences => 0
    case Projects => 1
    case Skills => 2
  }

  /** The header text of a panel. */
  function Title(p: Panel): string {
    match p
    case Experiences => "EXPERIENCES"
    case Projects => "PROJECTS"
    case Skills => "SKILLS"
  }

  /** The panels in the order the layout renders them. */
  const Panels: seq<Panel> := [Experiences, Projects, Skills]

  /** The closed set of panel numbers the layout hands out. */
  const PanelIds: set<nat> := {0, 1, 2}

  /** The state the layout starts in: the EXPERIENCES panel open. */
  const Initial: Expanded := Open(0)

  /** A state the desktop layout can be in: all collapsed, or one of its own panels open. */
  predicate Valid(s: Expanded) {
    s.Open? ==> s.panel in PanelIds
  }

  /** `isOpen` of panel `i`: its number is the expanded value (never the case when collapsed). */
  predicate IsOpen(s: Expanded, i: nat)
    ensures IsOpen(s, i) <==> s == Open(i)
  {
    match s
    case Collapsed => false
    case Open(k) => k == i
  }

  /** The header click handler of panel `i`: `isOpen ? false : i`. */
  function Toggle(s: Expanded, i: nat): (r: Expanded)
    ensures forall j :: IsOpen(r, j) <==> j == i && !IsOpen(s, i)
    ensures r == Collapsed <==> IsOpen(s, i)
  {
    if IsOpen(s, i) then Collapsed else Open(i)
  }

  /** The state after the header clicks `ids`, in order, starting from `s`. */
  function Clicks(s: Expanded, ids: seq<nat>): Expanded
    decreases |ids|
  {
    if |ids| == 0 then s else Clicks(Toggle(s, ids[0]), ids[1..])
  }

  /** Toggling the same panel `n` times in a row. */
  function ToggleTimes(s: Expanded, i: nat, n: nat): Expanded {
    if n == 0 then s else Toggle(ToggleTimes(s, i, n - 1), i)
  }

  /** The panel numbers among `ids` that are open in `s`. */
  function OpenAmong(s: Expanded, ids: set<nat>): set<nat> {
    set i | i in ids && IsOpen(s, i)
  }

  /** What one accordion shows: its header title, chevron angle, whether its content section is rendered, and its flex order. */
  datatype PanelView = PanelView(title: string, chevronRotation: int, contentShown: bool, order: nat)

  /** The rendering of one accordion panel in state `s`. */
  function RenderPanel(s: Expanded, p: Panel): (v: PanelView)
    ensures v.contentShown <==> s == Open(Id(p))
    ensures v.chevronRotation == 90 <==> v.contentShown
    ensures v.chevronRotation == 0 <==> !v.contentShown
    ensures v.title == Title(p) && v.order == Id(p)
  {
    var isOpen := IsOpen(s, Id(p));
    PanelView(Title(p), if isOpen then 90 else 0, isOpen, Id(p))
  }

  /** The three accordions of the layout, in display order: position `k` is panel `k`, with its content and turned chevron exactly when it is open. */
  function Render(s: Expanded): (vs: seq<PanelView>)
    ensures |vs| == |Panels|
    ensures forall k :: 0 <= k < |vs| ==>
      (vs[k].contentShown <==> s == Open(k)) &&
      vs[k].chevronRotation == (if s == Open(k) then 90 else 0) &&
      vs[k].title == Title(Panels[k]) && vs[k].order == k
  {
    PanelNumbering();
    seq(|Panels|, k requires 0 <= k < |Panels| => RenderPanel(s, Panels[k]))
  }

  /** The positions of the rendered panels whose content section is shown. */
  function Shown(vs: seq<PanelView>): set<nat> {
    set k: nat | k < |vs| && vs[k].contentShown
  }

  /** The panels are numbered 0, 1, 2 in display order, and no other numbers are used. */
  lemma PanelNumbering()
    ensures forall k :: 0 <= k < |Panels| ==> Id(Panels[k]) == k
    ensures forall p: Panel :: Id(p) in PanelIds
    ensures forall p: Panel, q: Panel :: Id(p) == Id(q) ==> p == q
  {
  }

  /** The layout starts with EXPERIENCES open and PROJECTS and SKILLS closed. */
  lemma InitialState()
    ensures Valid(Initial)
    ensures IsOpen(Initial, 0) && !IsOpen(Initial, 1) && !IsOpen(Initial, 2)
    ensures OpenAmong(Initial, PanelIds) == {0}
  {
  }

  /** In any state at most one panel is open; collapsed means none, `Open(k)` means exactly `k`. */
  lemma AtMostOneOpen(s: Expanded, ids: set<nat>)
    ensures s.Collapsed? ==> OpenAmong(s, ids) == {}
    ensures s.Open? && s.panel in ids ==> OpenAmong(s, ids) == {s.panel}
    ensures s.Open? && s.panel !in ids ==> OpenAmong(s, ids) == {}
    ensures |OpenAmong(s, ids)| <= 1
  {
  }

  /** A valid state has exactly one of the layout's panels open unless it is collapsed. */
  lemma ValidOpenCount(s: Expanded)
    requires Valid(s)
    ensures |OpenAmong(s, PanelIds)| == (if s.Open? then 1 else 0)
  {
    AtMostOneOpen(s, PanelIds);
  }

  /** Clicking the header of the open panel collapses everything. */
  lemma ToggleOpenCollapses(s: Expanded, i: nat)
    requires IsOpen(s, i)
    ensures Toggle(s, i) == Collapsed
    ensures OpenAmong(Toggle(s, i), PanelIds) == {}
  {
  }

  /** Clicking the header of a closed panel makes it the only open one, closing the previous one. */
  lemma ToggleClosedOpensOnly(s: Expanded, i: nat)
    requires !IsOpen(s, i)
    ensures Toggle(s, i) == Open(i)
    ensures i in PanelIds ==> OpenAmong(Toggle(s, i), PanelIds) == {i}
    ensures s.Open? ==> !IsOpen(Toggle(s, i), s.panel)
  {
  }

  /** Two clicks on the same header return to the start if it was open, and collapse everything if it was not. */
  lemma ToggleTwice(s: Expanded, i: nat)
    ensures IsOpen(s, i) ==> Toggle(Toggle(s, i), i) == s
    ensures !IsOpen(s, i) ==> Toggle(Toggle(s, i), i) == Collapsed
  {
  }

  /** After `n >= 1` clicks on header `i`, panel `i` is open exactly when the parity of `n` disagrees with whether it started open; otherwise all is collapsed. */
  lemma {:induction false} ToggleTimesParity(s: Expanded, i: nat, n: nat)
    requires n > 0
    ensures ToggleTimes(s, i, n) == (if (n % 2 == 1) != IsOpen(s, i) then Open(i) else Collapsed)
  {
    if n > 1 {
      ToggleTimesParity(s, i, n - 1);
    }
  }

  /** Header clicks that only use the layout's panel numbers never leave the valid states. */
  lemma {:induction false} ClicksStayValid(s: Expanded, ids: seq<nat>)
    requires Valid(s)
    requires forall k :: 0 <= k < |ids| ==> ids[k] in PanelIds
    ensures Valid(Clicks(s, ids))
    decreases |ids|
  {
    if |ids| > 0 {
      ClicksStayValid(Toggle(s, ids[0]), ids[1..]);
    }
  }

  /** After at least one click, only the last clicked panel can be open. */
  lemma {:induction false} ClicksLastDecides(s: Expanded, ids: seq<nat>)
    requires |ids| > 0
    ensures Clicks(s, ids) == Collapsed || Clicks(s, ids) == Open(ids[|ids| - 1])
    decreases |ids|
  {
    if |ids| > 1 {
      ClicksLastDecides(Toggle(s, ids[0]), ids[1..]);
    }
  }

  /** The rendered content sections are exactly the open panels: one section in a state with a panel of the layout open, none when collapsed. */
  lemma RenderShowsOpenPanelOnly(s: Expanded)
    ensures Shown(Render(s)) == OpenAmong(s, PanelIds)
    ensures Valid(s) ==> |Shown(Render(s))| == (if s.Open? then 1 else 0)
  {
    var vs := Render(s);
    assert forall k: nat :: k in Shown(vs) <==> k in OpenAmong(s, PanelIds);
    if Valid(s) {
      ValidOpenCount(s);
    }
  }
}
