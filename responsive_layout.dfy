/** The responsive helpers: the screen record with its three breakpoint
    flags, and the choices the layout, panel, object grid, navigation and
    fact panel make from those flags. */
module ResponsiveLayout {
  import opened Common

  // ---------------------------------------------------------------------
  // Screen size and breakpoints
  // ---------------------------------------------------------------------

  datatype ScreenSize = ScreenSize(width: int, height: int, isMobile: bool, isTablet: bool, isDesktop: bool)

  /** The state before the first measurement: the window's size, or
      1024 by 768 where there is no window, and all three flags off. */
  function Initial(window: Option<(int, int)>): (s: ScreenSize)
    ensures !s.isMobile && !s.isTablet && !s.isDesktop
    ensures window.None? ==> s.width == 1024 && s.height == 768
    ensures window.Some? ==> s.width == window.value.0 && s.height == window.value.1
  {
    if window.Some? then ScreenSize(window.value.0, window.value.1, false, false, false)
    else ScreenSize(1024, 768, false, false, false)
  }

  /** `updateScreenSize`: the window's size and its breakpoint class. */
  function Measured(width: int, height: int): (s: ScreenSize)
    ensures s.width == width && s.height == height
    ensures s.isMobile <==> width < 768
    ensures s.isTablet <==> 768 <= width < 1024
    ensures s.isDesktop <==> width >= 1024
  {
    ScreenSize(width, height, width < 768, width >= 768 && width < 1024, width >= 1024)
  }

  /** Exactly one flag is on. */
  predicate ExactlyOne(s: ScreenSize)
  {
    (if s.isMobile then 1 else 0) + (if s.isTablet then 1 else 0) + (if s.isDesktop then 1 else 0) == 1
  }

  /** After any measurement exactly one flag is on; before it, none. */
  lemma MeasuredExactlyOne(width: int, height: int, window: Option<(int, int)>)
    ensures ExactlyOne(Measured(width, height))
    ensures !ExactlyOne(Initial(window))
  {
  }

  // ---------------------------------------------------------------------
  // Layout, panel and grid
  // ---------------------------------------------------------------------

  const MobileLayout := "mobile-layout flex flex-col h-screen"
  const TabletLayout := "tablet-layout grid grid-cols-1 lg:grid-cols-3 h-screen"
  const DesktopLayout := "desktop-layout grid grid-cols-4 h-screen"

  /** `getLayoutClasses`: mobile first, then tablet, the desktop layout
      for everything else, including a screen with no flag on. */
  function LayoutClasses(s: ScreenSize): (c: string)
    ensures s.isMobile ==> c == MobileLayout
    ensures !s.isMobile && s.isTablet ==> c == TabletLayout
    ensures !s.isMobile && !s.isTablet ==> c == DesktopLayout
  {
    if s.isMobile then MobileLayout else if s.isTablet then TabletLayout else DesktopLayout
  }

  /** Once measured, the layout follows the width; before, it is the
      desktop layout whatever the width. */
  lemma LayoutFollowsWidth(width: int, height: int, window: Option<(int, int)>)
    ensures LayoutClasses(Measured(width, height))
            == if width < 768 then MobileLayout else if width < 1024 then TabletLayout else DesktopLayout
    ensures LayoutClasses(Initial(window)) == DesktopLayout
  {
  }

  /** What `MobilePanel` renders: the children themselves, or the
      collapsible panel with its title around them. */
  datatype Panel<T> = Bare(children: T) | Collapsible(title: string, content: T, isOpen: bool)

  function MobilePanel<T>(s: ScreenSize, title: string, children: T, isOpen: bool): (p: Panel<T>)
    ensures !s.isMobile ==> p == Bare(children)
    ensures s.isMobile ==> p == Collapsible(title, children, isOpen)
  {
    if !s.isMobile then Bare(children) else Collapsible(title, children, isOpen)
  }

  /** The number of columns of the object grid. */
  function GridColumns(s: ScreenSize): (n: nat)
    ensures s.isMobile ==> n == 2
    ensures !s.isMobile && s.isTablet ==> n == 3
    ensures !s.isMobile && !s.isTablet ==> n == 4
  {
    if s.isMobile then 2 else if s.isTablet then 3 else 4
  }

  /** `getGridClasses`. */
  function GridClasses(s: ScreenSize): string
  {
    if s.isMobile then "grid grid-cols-2 gap-2 p-4"
    else if s.isTablet then "grid grid-cols-3 gap-3 p-4"
    else "grid grid-cols-4 gap-4 p-4"
  }

  /** The grid classes name the column count, and a gap of the same size. */
  lemma GridClassesNameColumns(s: ScreenSize)
    ensures var n := NatToString(GridColumns(s));
            GridClasses(s) == "grid grid-cols-" + n + " gap-" + n + " p-4"
  {
    var k := GridColumns(s);
    assert NatToString(k) == [DigitChar(k)];
  }

  /** Once measured, the grid has 2 columns below 768, 3 below 1024 and 4
      from there on. */
  lemma GridFollowsWidth(width: int, height: int)
    ensures GridColumns(Measured(width, height)) == if width < 768 then 2 else if width < 1024 then 3 else 4
  {
  }

  // ---------------------------------------------------------------------
  // Grid items and navigation
  // ---------------------------------------------------------------------

  const ItemBase := "border rounded-lg p-3 cursor-pointer transition-all duration-200 touch-manipulation"
  const ItemActive := "border-blue-500 bg-blue-500/20"
  const ItemIdle := "border-gray-600 bg-gray-800/50 hover:border-gray-500"

  /** `selectedObject?.id === object.id`: no selection matches nothing. */
  predicate IsActive(selected: Option<string>, id: string)
  {
    selected.Some? && selected.value == id
  }

  /** `getItemClasses`: the base classes, a space, then the active or the
      idle classes. */
  function ItemClasses(selected: Option<string>, id: string): (c: string)
    ensures |c| > |ItemBase| && c[..|ItemBase| + 1] == ItemBase + " "
    ensures c[|ItemBase| + 1..] == if IsActive(selected, id) then ItemActive else ItemIdle
  {
    ItemBase + " " + (if IsActive(selected, id) then ItemActive else ItemIdle)
  }

  /** At most one item of a grid with distinct ids is highlighted, and it
      is the selected one. */
  lemma AtMostOneActive(ids: seq<string>, selected: Option<string>)
    requires forall i, j :: 0 <= i < j < |ids| ==> ids[i] != ids[j]
    ensures forall i, j :: 0 <= i < |ids| && 0 <= j < |ids| && IsActive(selected, ids[i]) && IsActive(selected, ids[j]) ==> i == j
    ensures forall i :: 0 <= i < |ids| && IsActive(selected, ids[i]) ==> selected == Some(ids[i])
  {
  }

  datatype NavKind = TabBar | Sidebar

  /** The navigation: a bottom tab bar on mobile, a sidebar otherwise,
      with one highlight flag per page, on where the page is current. */
  function Navigation(s: ScreenSize, pages: seq<string>, current: string): (r: (NavKind, seq<bool>))
    ensures r.0 == TabBar <==> s.isMobile
    ensures |r.1| == |pages|
    ensures forall i :: 0 <= i < |pages| ==> (r.1[i] <==> pages[i] == current)
  {
    (if s.isMobile then TabBar else Sidebar, seq(|pages|, i requires 0 <= i < |pages| => pages[i] == current))
  }

  datatype FactLayout = FullScreen | SidePanel

  /** The fact panel: a full-screen sheet on mobile, a side panel
      otherwise, with the larger text on mobile. */
  function FactPanel(s: ScreenSize): (r: (FactLayout, string))
    ensures r.0 == FullScreen <==> s.isMobile
    ensures r.1 == if s.isMobile then "text-base" else "text-sm"
  {
    if s.isMobile then (FullScreen, "text-base") else (SidePanel, "text-sm")
  }
}
