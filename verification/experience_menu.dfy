/**
 The experience menu shown inside the EXPERIENCES panel: a vertical list of
 company tabs beside one content block per experience record. Its only
 state is `activeTabId`, a tab number starting at 0; clicking a tab selects
 it outright (it never toggles). Which content block is displayed, the
 colour of every tab and the class of the moving indicator bar are all
 decided by `activeTabId` alone.
 */
module ExperienceMenu {
  import opened Theme

  /** One experience record of the bundled content. */
  datatype Experience = Experience(company: string, position: string, period: string, details: seq<string>)

  /** The tab selected when the menu is first mounted. */
  const InitialTab: nat := 0

  /** The click handler: the clicked tab becomes the active one, whatever was active before. */
  function Select(active: nat, clicked: nat): (r: nat)
    ensures r == clicked
  {
    clicked
  }

  /** The class of the moving indicator bar. */
  datatype Indicator = Index1Chosen | Index2Chosen | Index3Chosen

  /** The indicator class for the active tab: first, second, and everything else. */
  function IndicatorFor(active: nat): (c: Indicator)
    ensures c == Index1Chosen <==> active == 0
    ensures c == Index2Chosen <==> active == 1
    ensures c == Index3Chosen <==> active >= 2
  {
    if active == 0 then Index1Chosen
    else if active == 1 then Index2Chosen
    else Index3Chosen
  }

  /** The CSS class name an indicator stands for. */
  function ClassName(c: Indicator): string {
    match c
    case Index1Chosen => "index1-chosen"
    case Index2Chosen => "index2-chosen"
    case Index3Chosen => "index3-chosen"
  }

  /** One `<p>` of a content block: its React key and its text. */
  datatype Paragraph = Paragraph(key: nat, text: string)

  /** A tab button: its key, the company it names and its text and border colours. */
  datatype TabView = TabView(key: nat, company: string, color: string, borderColor: string)

  /** The CSS `display` of a content block. */
  datatype Display = Block | DisplayNone

  /** A content block: its key, position, period, one paragraph per detail, and its display. */
  datatype ContentView = ContentView(key: nat, position: string, period: string, paragraphs: seq<Paragraph>, display: Display)

  /** The whole menu as rendered: the tab list, the content column and the indicator bar. */
  datatype MenuView = MenuView(tabs: seq<TabView>, contents: seq<ContentView>, indicator: Indicator)

  /** The paragraphs of a content block, one per detail and keyed by its position. */
  function RenderDetails(details: seq<string>): (ps: seq<Paragraph>)
    ensures |ps| == |details|
    ensures forall i :: 0 <= i < |ps| ==> ps[i].key == i && ps[i].text == details[i]
  {
    seq(|details|, i requires 0 <= i < |details| => Paragraph(i, details[i]))
  }

  /** The texts of a list of paragraphs, read back in order. */
  function Texts(ps: seq<Paragraph>): (ts: seq<string>)
    ensures |ts| == |ps|
    ensures forall i :: 0 <= i < |ps| ==> ts[i] == ps[i].text
  {
    if |ps| == 0 then [] else [ps[0].text] + Texts(ps[1..])
  }

  /** The tab of record `job` at position `index`: main colour when it is the active tab, sub colour otherwise. */
  function RenderTab(theme: Palette, active: nat, index: nat, job: Experience): (t: TabView)
    ensures t.key == index && t.company == job.company
    ensures t.color == t.borderColor
    ensures index == active ==> t.color == theme.mainColor
    ensures index != active ==> t.color == theme.subColor
  {
    if active == index
    then TabView(index, job.company, theme.mainColor, theme.mainColor)
    else TabView(index, job.company, theme.subColor, theme.subColor)
  }

  /** The content block of record `job` at position `index`: displayed only for the active tab. */
  function RenderContent(active: nat, index: nat, job: Experience): (c: ContentView)
    ensures c.key == index && c.position == job.position && c.period == job.period
    ensures c.display == Block <==> index == active
    ensures Texts(c.paragraphs) == job.details
  {
    var ps := RenderDetails(job.details);
    assert Texts(ps) == job.details;
    ContentView(index, job.position, job.period, ps, if active == index then Block else DisplayNone)
  }

  /** The whole menu for the records `data` with tab `active` selected: one tab and one content block per record, in data order. */
  function Render(theme: Palette, data: seq<Experience>, active: nat): (v: MenuView)
    ensures |v.tabs| == |data| && |v.contents| == |data|
    ensures forall k :: 0 <= k < |data| ==>
      v.tabs[k].key == k && v.tabs[k].company == data[k].company &&
      v.tabs[k].color == v.tabs[k].borderColor &&
      v.tabs[k].color == (if k == active then theme.mainColor else theme.subColor)
    ensures forall k :: 0 <= k < |data| ==>
      v.contents[k].key == k && v.contents[k].position == data[k].position &&
      v.contents[k].period == data[k].period &&
      Texts(v.contents[k].paragraphs) == data[k].details &&
      (v.contents[k].display == Block <==> k == active)
    ensures v.indicator == IndicatorFor(active)
  {
    MenuView(
      seq(|data|, k requires 0 <= k < |data| => RenderTab(theme, active, k, data[k])),
      seq(|data|, k requires 0 <= k < |data| => RenderContent(active, k, data[k])),
      IndicatorFor(active))
  }

  /** The positions of the content blocks that are displayed. */
  function Displayed(v: MenuView): set<nat> {
    set k: nat | k < |v.contents| && v.contents[k].display == Block
  }

  /** The positions of the tabs drawn in the main colour. */
  function Highlighted(theme: Palette, v: MenuView): set<nat> {
    set k: nat | k < |v.tabs| && v.tabs[k].color == theme.mainColor
  }

  /** A content block lists its record's details in their order, one paragraph each, none dropped or reordered. */
  lemma TextsRoundTrip(details: seq<string>)
    ensures Texts(RenderDetails(details)) == details
  {
  }

  /** Exactly the active block is displayed when the active tab names a record, and none otherwise. */
  lemma ExactlyOneDisplayed(theme: Palette, data: seq<Experience>, active: nat)
    ensures Displayed(Render(theme, data, active)) == (if active < |data| then {active} else {})
    ensures |Displayed(Render(theme, data, active))| == (if active < |data| then 1 else 0)
  {
  }

  /** With a palette whose main and sub colours differ, exactly the active tab is highlighted when it names a record, and none otherwise. */
  lemma ExactlyOneHighlighted(theme: Palette, data: seq<Experience>, active: nat)
    requires Distinguishable(theme)
    ensures Highlighted(theme, Render(theme, data, active)) == (if active < |data| then {active} else {})
    ensures |Highlighted(theme, Render(theme, data, active))| == (if active < |data| then 1 else 0)
  {
  }

  /** Clicking tab `k` shows record `k` and highlights its tab, whatever was active before. */
  lemma SelectShowsClickedTab(theme: Palette, data: seq<Experience>, prior: nat, k: nat)
    requires k < |data|
    requires Distinguishable(theme)
    ensures Displayed(Render(theme, data, Select(prior, k))) == {k}
    ensures Highlighted(theme, Render(theme, data, Select(prior, k))) == {k}
    ensures Texts(Render(theme, data, Select(prior, k)).contents[k].paragraphs) == data[k].details
    ensures Render(theme, data, Select(prior, k)).indicator == IndicatorFor(k)
  {
  }

  /** Selecting is idempotent, and selecting the active tab keeps it active rather than deselecting it. */
  lemma SelectIdempotent(active: nat, k: nat)
    ensures Select(Select(active, k), k) == Select(active, k)
    ensures Select(k, k) == k
  {
  }

  /** The menu starts on the first record: its block is the only one displayed and the indicator marks the first slot. */
  lemma InitialMenu(theme: Palette, data: seq<Experience>)
    requires |data| > 0
    ensures Displayed(Render(theme, data, InitialTab)) == {0}
    ensures Render(theme, data, InitialTab).indicator == Index1Chosen
  {
  }

  /** The indicator has three classes only: every tab from the third on shares the third class. */
  lemma IndicatorClasses(active: nat)
    ensures ClassName(IndicatorFor(active)) ==
      (if active == 0 then "index1-chosen" else if active == 1 then "index2-chosen" else "index3-chosen")
    ensures active >= 2 ==> IndicatorFor(active) == IndicatorFor(2)
  {
  }
}
