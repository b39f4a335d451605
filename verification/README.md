# Portfolio page view state, in Dafny

This project models the only decision logic of a personal portfolio site's desktop page. That logic is two single-selection state machines:

- **The accordion** (`Accordion`, from `src/components/DesktopLayout.tsx`). It has three panels: EXPERIENCES, PROJECTS and SKILLS, numbered 0, 1 and 2. They share one `expanded` state, which is `false` or the number of the open panel, and which starts at `0`. A header click sets the state to `isOpen ? false : i`. A panel's content section is rendered, and its chevron turned 90 degrees, exactly when the panel is open.
- **The experience menu** (`ExperienceMenu`, from `src/components/ExperienceMenu.tsx`). It shows one company tab and one content block per experience record, in data order. Its `activeTabId` starts at 0. A tab click sets it to the tab's index; this is a select, not a toggle. The block whose index equals `activeTabId` gets `display: block` and every other block `display: none`. The matching tab takes the theme's main colour and every other tab the sub colour. The indicator bar takes the class `index1-chosen` for tab 0, `index2-chosen` for tab 1 and `index3-chosen` for every other value.
- **The page** (`DesktopPage`) puts the two together. The menu is rendered inside the EXPERIENCES section, which exists only while panel 0 is open (`{isOpen && …}` at `DesktopLayout.tsx:156`). So the menu's state exists only while that panel is open. Closing the panel unmounts the menu, and reopening it mounts a fresh menu on tab 0. A tab click never changes `expanded`.
- **The theme** (`Theme.Palette`) is an opaque record of four colour strings, read and never changed.

Modelling choices:
- `false | number` becomes `Expanded = Collapsed | Open(panel)`.
- The records become `seq<Experience>` with `details: seq<string>`.
- Rendering becomes pure functions to view records: `PanelView`, `TabView`, `ContentView` and `MenuView`.
- `Toggle` accepts any panel number, as the handler does. The closed set `{0, 1, 2}` appears as the `Valid` invariant that header clicks preserve.
- A tab click with no tab on screen (the menu is unmounted, or the index is past the last record) cannot happen. `DesktopPage.Step` leaves the page unchanged for it.

Two clicks on one header do not always collapse everything. They return to the starting state when that panel was open, and collapse everything when it was not (`Accordion.ToggleTwice`, `Accordion.ToggleTimesParity`).

## Model

| member | source | states |
|---|---|---|
| `Accordion.IsOpen` | src/components/DesktopLayout.tsx:139 | A panel is open exactly when the expanded value is that panel's number; in the collapsed state no panel is open |
| `Accordion.Toggle` | src/components/DesktopLayout.tsx:144 | After a header click on `i`, panel `j` is open iff `j == i` and `i` was not open before; the result is all-collapsed iff `i` was open |
| `Accordion.RenderPanel` | src/components/DesktopLayout.tsx:150-169 | The content section is rendered iff the panel is open; the chevron is at 90 iff the section is rendered and at 0 otherwise; the header carries the panel's title and the section its order |
| `Accordion.PanelNumbering` | src/components/DesktopLayout.tsx:215-231 | EXPERIENCES, PROJECTS and SKILLS get the distinct numbers 0, 1, 2 in display order, all inside the closed id set |
| `Accordion.InitialState` | src/components/DesktopLayout.tsx:177 | The initial state has panel 0 open and panels 1 and 2 closed; the open set among {0,1,2} is exactly {0} |
| `Accordion.AtMostOneOpen` | src/components/DesktopLayout.tsx:139 | In any state the set of open panels has at most one element: empty when collapsed, exactly the expanded number otherwise |
| `Accordion.ValidOpenCount` | src/components/DesktopLayout.tsx:215-231 | In a state of the layout exactly one of panels 0, 1, 2 is open, unless all are collapsed |
| `Accordion.ToggleOpenCollapses` | src/components/DesktopLayout.tsx:144 | Clicking the header of the open panel leaves every panel closed |
| `Accordion.ToggleClosedOpensOnly` | src/components/DesktopLayout.tsx:144 | Clicking the header of a closed panel makes it the only open panel and closes the previously open one |
| `Accordion.ToggleTwice` | src/components/DesktopLayout.tsx:144 | Two clicks on one header return to the start if that panel was open, and end all-collapsed if it was not |
| `Accordion.ToggleTimesParity` | src/components/DesktopLayout.tsx:144 | After n >= 1 clicks on header i, panel i is open iff n is odd and i was closed, or n is even and i was open; otherwise all is collapsed |
| `Accordion.ClicksStayValid` | src/components/DesktopLayout.tsx:215-231 | Any sequence of header clicks on panels 0, 1, 2 keeps the state within {collapsed, 0 open, 1 open, 2 open} |
| `Accordion.ClicksLastDecides` | src/components/DesktopLayout.tsx:139-144 | After a non-empty sequence of header clicks, the only panel that can be open is the last one clicked |
| `Accordion.Render` | src/components/DesktopLayout.tsx:215-231 | The layout renders the three panels in display order; position k is panel k with its title and order, and shows its content section and a 90-degree chevron exactly when k is open |
| `Accordion.RenderShowsOpenPanelOnly` | src/components/DesktopLayout.tsx:155-169 | The set of rendered content sections equals the set of open panels: exactly one in a state with a panel open, none when collapsed |
| `ExperienceMenu.IndicatorFor` | src/components/ExperienceMenu.tsx:101-107 | The indicator is the first class iff tab 0 is active, the second iff tab 1 is active, and the third iff the tab is 2 or higher |
| `ExperienceMenu.IndicatorClasses` | src/components/ExperienceMenu.tsx:101-107 | The class names are `index1-chosen`, `index2-chosen` and `index3-chosen`, and every tab from 2 upward gets the same class as tab 2 |
| `ExperienceMenu.RenderDetails` | src/components/ExperienceMenu.tsx:48-56 | One paragraph per detail, keyed by its index and carrying that detail's text |
| `ExperienceMenu.TextsRoundTrip` | src/components/ExperienceMenu.tsx:48-56 | Reading the paragraphs of a content block back gives exactly the record's details, in their order, none dropped or reordered |
| `ExperienceMenu.RenderTab` | src/components/ExperienceMenu.tsx:11-29 | A tab names its record's company; its text and border colour are equal, the main colour when it is the active tab and the sub colour otherwise |
| `ExperienceMenu.RenderContent` | src/components/ExperienceMenu.tsx:37-58 | A content block carries its record's position and period and its details in order, and is displayed iff its index is the active tab |
| `ExperienceMenu.Render` | src/components/ExperienceMenu.tsx:68-111 | The menu has one tab and one content block per record, in data order and with the record's index; it sets the colours, the displays and the indicator from the active tab |
| `ExperienceMenu.ExactlyOneDisplayed` | src/components/ExperienceMenu.tsx:42 | The set of displayed blocks is exactly {active} when the active tab names a record, and empty otherwise |
| `ExperienceMenu.ExactlyOneHighlighted` | src/components/ExperienceMenu.tsx:22-24 | When main and sub colours differ, the set of main-coloured tabs is exactly {active} when it names a record, and empty otherwise |
| `ExperienceMenu.Select` | src/components/ExperienceMenu.tsx:64-66 | A tab click makes the clicked tab the active one, whatever tab was active before; it is a select, not a toggle |
| `ExperienceMenu.SelectShowsClickedTab` | src/components/ExperienceMenu.tsx:64-66 | Clicking tab k of an existing record, from any prior state, displays only block k with its details and highlights only tab k |
| `ExperienceMenu.SelectIdempotent` | src/components/ExperienceMenu.tsx:64-66 | Selecting a tab twice equals selecting it once, and selecting the active tab keeps it active instead of deselecting it |
| `ExperienceMenu.InitialMenu` | src/components/ExperienceMenu.tsx:62 | A freshly mounted menu displays only the first record's block and marks the first indicator slot |
| `DesktopPage.Step` | src/components/DesktopLayout.tsx:155-169 | A click keeps the menu mounted exactly while EXPERIENCES is open; a header click toggles the accordion; a tab click on a shown tab selects it and leaves the accordion alone; any other tab click changes nothing |
| `DesktopPage.InitialConsistent` | src/components/DesktopLayout.tsx:177 | The first render has EXPERIENCES open with its menu mounted |
| `DesktopPage.RunConsistent` | src/components/DesktopLayout.tsx:155-169 | After any sequence of clicks, the menu is mounted exactly while EXPERIENCES is open, and the accordion stays within its valid states |
| `DesktopPage.TabClicksKeepAccordion` | src/components/ExperienceMenu.tsx:62-66 | Any number of tab clicks leaves the accordion's `expanded` state unchanged |
| `DesktopPage.AccordionFollowsHeaderClicks` | src/components/DesktopLayout.tsx:177 | On the page, `expanded` evolves exactly as the header clicks alone drive it, whatever tab clicks are interleaved |
| `DesktopPage.HeaderClickResetsMenu` | src/components/ExperienceMenu.tsx:62 | After any header click, a mounted menu is a fresh one on tab 0, since each header click closes EXPERIENCES, opens it anew, or leaves it closed |
| `DesktopPage.HeaderClickUnmountsMenu` | src/components/DesktopLayout.tsx:139-169 | While the menu is on screen, any header click unmounts it, because EXPERIENCES either closes or is replaced by the clicked panel |
| `DesktopPage.TabClickIdempotent` | src/components/ExperienceMenu.tsx:64-66 | On the page, clicking the same tab twice gives the same page as clicking it once |
| `DesktopPage.TabClickOnActiveKeepsPage` | src/components/ExperienceMenu.tsx:64-66 | Clicking the tab that is already active leaves the whole page unchanged, so the active tab is never deselected |
| `DesktopPage.TabClickShowsRecord` | src/components/ExperienceMenu.tsx:4-9 | Clicking the tab of record k while the menu is on screen shows only k's block, with its details in order. It highlights only k's tab and leaves the accordion open on EXPERIENCES, as before |

## Left out

- `src/components/Mobile/MobileLayout.tsx`: it holds no state or decisions, only animation variants and static markup. Its accordion, `PhoneAccordion`, is not part of this model.
- Animation: GSAP timelines (`ProfileTitleHeader`, `ProfileDescription`, `ProfileLink`), framer-motion variants, durations, easings and staggers, and the header's `top` offsets. They are timing calls with floating-point parameters.
- `DesktopPage.Step`: treats the 0.8 s exit animation of a content section as instantaneous. The menu is unmounted at the click that closes EXPERIENCES, although `AnimatePresence` keeps the section and its clickable tabs on screen until the exit finishes. Playback timing is not modelled.
- `Accordion.RenderPanel`: a closing panel's section counts as gone at the click, for the same reason as `DesktopPage.Step`.
- `Accordion.RenderShowsOpenPanelOnly`: at most one section is shown only because exits are instantaneous; during a 0.8 s exit, the closing section and the newly opened one are both on screen.
- `DesktopPage.HeaderClickUnmountsMenu`: the menu is gone at the click only because exits are instantaneous; on screen it fades out for 0.8 s.
- `DesktopPage.HeaderClickResetsMenu`: relies on the same instantaneous exit, so it says nothing about tab clicks on a menu that is still fading out.
- `MagneticButton`: floating-point pointer arithmetic against DOM geometry.
- Theme context and `ThemeDropdown` are not part of this model. The palette is a fixed parameter, and only the choice between its main and sub colours is modelled.
- `StaticImage`, icons, the resume download, the outbound links and the bundled JSON content: static assets and literals.
- `ProjectCards`, `Footer`, `Divider`: components whose source is not part of this model; they receive their data unchanged.
- The choice between the wide and narrow layouts: no selector logic appears in the source modelled here.
- Styling classes and the heading colours inside a content block: presentation only, with no decisions.
