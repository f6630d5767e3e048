/**
 * The responsive-layout hook: a viewport width is classified into one of six
 * breakpoints by half-open thresholds, and every layout choice the dashboard
 * makes (columns, grid, spacing and text tokens, chart height, sidebar width,
 * card gap) is a three-way selection on the class of that breakpoint.
 */
module Responsive {
  import opened Wrappers

  datatype Breakpoint = Mobile | Sm | Tablet | Lg | Xl | Desktop

  /** The lower edges, in pixels, of sm, tablet, lg, xl and desktop. */
  const Thresholds: seq<int> := [640, 768, 1024, 1280, 1536]

  /** Position in the order mobile < sm < tablet < lg < xl < desktop. */
  function Rank(b: Breakpoint): (r: nat)
    ensures r < |Thresholds| + 1
  {
    match b
    case Mobile => 0
    case Sm => 1
    case Tablet => 2
    case Lg => 3
    case Xl => 4
    case Desktop => 5
  }

  /**
   * Reference definition of the bands: the breakpoint of rank r covers the
   * widths from the (r-1)-th threshold (inclusive) up to the r-th (exclusive);
   * the first band has no lower edge and the last no upper edge.
   */
  predicate InBand(width: int, b: Breakpoint) {
    var r := Rank(b);
    && (r == 0 || Thresholds[r - 1] <= width)
    && (r == |Thresholds| || width < Thresholds[r])
  }

  /** The classification effect: first matching range wins. */
  function Classify(width: int): (b: Breakpoint)
    ensures InBand(width, b)
  {
    if width < 640 then Mobile
    else if width >= 640 && width < 768 then Sm
    else if width >= 768 && width < 1024 then Tablet
    else if width >= 1024 && width < 1280 then Lg
    else if width >= 1280 && width < 1536 then Xl
    else Desktop
  }

  /** The bands do not overlap, so a width lies in the band of its classification and in no other. */
  lemma ClassifyIsBand(width: int, b: Breakpoint)
    ensures Classify(width) == b <==> InBand(width, b)
  {
  }

  /** A wider viewport never gets a smaller breakpoint. */
  lemma ClassifyMonotone(w1: int, w2: int)
    requires w1 <= w2
    ensures Rank(Classify(w1)) <= Rank(Classify(w2))
  {
  }

  predicate IsMobile(b: Breakpoint) { b == Mobile }
  predicate IsTablet(b: Breakpoint) { b == Tablet || b == Sm }
  predicate IsDesktop(b: Breakpoint) { b == Desktop || b == Xl || b == Lg }

  function IsSmallScreen(b: Breakpoint): (small: bool)
    ensures small <==> !IsDesktop(b)
  {
    IsMobile(b) || IsTablet(b)
  }

  /** Every breakpoint belongs to exactly one of the three classes. */
  lemma ClassesPartition(b: Breakpoint)
    ensures IsMobile(b) || IsTablet(b) || IsDesktop(b)
    ensures !(IsMobile(b) && IsTablet(b))
    ensures !(IsMobile(b) && IsDesktop(b))
    ensures !(IsTablet(b) && IsDesktop(b))
  {
  }

  /** The three classes in terms of the width alone. */
  lemma ClassesByWidth(width: int)
    ensures IsMobile(Classify(width)) <==> width < 640
    ensures IsTablet(Classify(width)) <==> 640 <= width < 1024
    ensures IsDesktop(Classify(width)) <==> 1024 <= width
    ensures IsSmallScreen(Classify(width)) <==> width < 1024
  {
  }

  /** The three-way choice every layout helper makes: mobile first, then tablet class, else desktop. */
  function Select<T>(b: Breakpoint, mobile: T, tablet: T, desktop: T): (r: T)
    ensures IsMobile(b) ==> r == mobile
    ensures IsTablet(b) ==> r == tablet
    ensures IsDesktop(b) ==> r == desktop
  {
    if IsMobile(b) then mobile
    else if IsTablet(b) then tablet
    else desktop
  }

  /** With three different choices, the chosen one tells the class of the breakpoint. */
  lemma SelectIdentifiesClass<T>(b: Breakpoint, mobile: T, tablet: T, desktop: T)
    requires mobile != tablet && mobile != desktop && tablet != desktop
    ensures Select(b, mobile, tablet, desktop) == mobile <==> IsMobile(b)
    ensures Select(b, mobile, tablet, desktop) == tablet <==> IsTablet(b)
    ensures Select(b, mobile, tablet, desktop) == desktop <==> IsDesktop(b)
  {
  }

  function ColumnsForBreakpoint(b: Breakpoint, mobileColumns: int := 1, tabletColumns: int := 2,
                                desktopColumns: int := 3): int
  {
    Select(b, mobileColumns, tabletColumns, desktopColumns)
  }

  function GridCols(b: Breakpoint, mobile: string := "grid-cols-1", tablet: string := "grid-cols-2",
                    desktop: string := "grid-cols-3"): string
  {
    Select(b, mobile, tablet, desktop)
  }

  function Spacing(b: Breakpoint, mobile: string := "p-4", tablet: string := "p-6",
                   desktop: string := "p-8"): string
  {
    Select(b, mobile, tablet, desktop)
  }

  function TextSize(b: Breakpoint, mobile: string := "text-sm", tablet: string := "text-base",
                    desktop: string := "text-lg"): string
  {
    Select(b, mobile, tablet, desktop)
  }

  /** With their default arguments the four configurable helpers split along the three classes. */
  lemma DefaultSelectors(b: Breakpoint)
    ensures ColumnsForBreakpoint(b) == 1 + (if IsMobile(b) then 0 else if IsTablet(b) then 1 else 2)
    ensures GridCols(b) == "grid-cols-1" <==> IsMobile(b)
    ensures Spacing(b) == "p-6" <==> IsTablet(b)
    ensures TextSize(b) == "text-lg" <==> IsDesktop(b)
  {
    SelectIdentifiesClass(b, "grid-cols-1", "grid-cols-2", "grid-cols-3");
    SelectIdentifiesClass(b, "p-4", "p-6", "p-8");
    SelectIdentifiesClass(b, "text-sm", "text-base", "text-lg");
  }

  function ChartHeight(b: Breakpoint): (h: nat)
    ensures h == 250 <==> IsMobile(b)
    ensures h == 300 <==> IsTablet(b)
    ensures h == 400 <==> IsDesktop(b)
  {
    Select(b, 250, 300, 400)
  }

  /** Chart height, as a function of the viewport width, never decreases. */
  lemma ChartHeightMonotone(w1: int, w2: int)
    requires w1 <= w2
    ensures ChartHeight(Classify(w1)) <= ChartHeight(Classify(w2))
  {
    ClassifyMonotone(w1, w2);
  }

  function SidebarWidth(b: Breakpoint): (w: string)
    ensures w == "100%" <==> IsMobile(b)
    ensures w == "280px" <==> IsTablet(b)
    ensures w == "320px" <==> IsDesktop(b)
  {
    Select(b, "100%", "280px", "320px")
  }

  function CardSpacing(b: Breakpoint): (gap: string)
    ensures gap == "gap-4" <==> IsMobile(b)
    ensures gap == "gap-6" <==> IsTablet(b)
    ensures gap == "gap-8" <==> IsDesktop(b)
  {
    Select(b, "gap-4", "gap-6", "gap-8")
  }

  datatype Viewport = Viewport(width: int, height: int)

  /** The hook's two pieces of state: the last sampled viewport and the breakpoint derived from it. */
  datatype State = State(screen: Viewport, breakpoint: Breakpoint)

  /**
   * State on mount: the window's inner size when there is a window, 0 x 0
   * otherwise, and the breakpoint `desktop` until the first classification.
   */
  function Mount(window: Option<Viewport>): (s: State)
    ensures s.breakpoint == Desktop
    ensures s.screen.width == (if window.Some? then window.value.width else 0)
  {
    State(window.GetOr(Viewport(0, 0)), Desktop)
  }

  /** The resize handler: the new size replaces the old one; the breakpoint waits for the effect. */
  function Resize(s: State, v: Viewport): (s': State)
    ensures s'.screen == v && s'.breakpoint == s.breakpoint
  {
    s.(screen := v)
  }

  /** The classification effect that runs whenever the screen size changes. */
  function Reclassify(s: State): (s': State)
    ensures s'.screen == s.screen
    ensures InBand(s.screen.width, s'.breakpoint)
  {
    s.(breakpoint := Classify(s.screen.width))
  }

  predicate Settled(s: State) {
    s.breakpoint == Classify(s.screen.width)
  }

  /** Without a window the first classification yields mobile; with one it yields the window's class. */
  lemma FirstClassification(window: Option<Viewport>)
    ensures window.None? ==> Reclassify(Mount(window)).breakpoint == Mobile
    ensures window.Some? ==> Reclassify(Mount(window)).breakpoint == Classify(window.value.width)
  {
  }

  /**
   * After a resize and the effect it triggers, the state is settled, depends
   * only on the new size, and a second run of the effect changes nothing.
   */
  lemma ResizeThenReclassify(s: State, t: State, v: Viewport)
    ensures Settled(Reclassify(Resize(s, v)))
    ensures Reclassify(Resize(s, v)) == Reclassify(Resize(t, v))
    ensures Reclassify(Reclassify(Resize(s, v))) == Reclassify(Resize(s, v))
  {
  }
}
