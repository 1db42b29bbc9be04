/**
 * One node on the horizontal timeline: its x offset from the event's year
 * and month, its colour from the event's category, its class list, and a
 * hover flag that mouse events switch on and off.
 */
module TimelineNode {
  import opened Optional
  import opened JsText
  import opened TimelineTypes

  /** Pixels per month and per year on the timeline; January 2022 is at the origin. */
  const MonthWidth: int := 100
  const YearWidth: int := 1200
  const FirstYear: int := 2022

  /**
   * `xPosition`: the year offset plus the month offset. A real month lies
   * inside its year's 1200-pixel band, January at the band's start.
   */
  function XPosition(year: int, month: int): (r: int)
    ensures 1 <= month <= 12 ==> (year - FirstYear) * YearWidth <= r < (year - FirstYear + 1) * YearWidth
    ensures month == 1 ==> r == (year - FirstYear) * YearWidth
  {
    (year - FirstYear) * YearWidth + (month - 1) * MonthWidth
  }

  /** Whether (y1, m1) comes strictly before (y2, m2) in the calendar. */
  predicate Before(y1: int, m1: int, y2: int, m2: int) {
    y1 < y2 || (y1 == y2 && m1 < m2)
  }

  predicate IsMonth(m: int) {
    1 <= m <= 12
  }

  /** A year holds twelve months of 100 pixels, so a later year always lies further right. */
  lemma YearDominates(y1: int, m1: int, y2: int, m2: int)
    requires IsMonth(m1) && IsMonth(m2) && y1 < y2
    ensures XPosition(y1, m1) < XPosition(y2, m2)
  {
    assert (y2 - FirstYear) * YearWidth == (y1 - FirstYear) * YearWidth + (y2 - y1) * YearWidth;
    assert (y2 - y1) * YearWidth >= YearWidth;
  }

  /**
   * For real months, positions follow the calendar in both directions:
   * one date lies left of another exactly when it comes earlier.
   */
  lemma XPositionIsChronological(y1: int, m1: int, y2: int, m2: int)
    requires IsMonth(m1) && IsMonth(m2)
    ensures Before(y1, m1, y2, m2) <==> XPosition(y1, m1) < XPosition(y2, m2)
  {
    if y1 < y2 {
      YearDominates(y1, m1, y2, m2);
    } else if y2 < y1 {
      YearDominates(y2, m2, y1, m1);
    }
  }

  /** No two real dates share a position. */
  lemma XPositionInjective(y1: int, m1: int, y2: int, m2: int)
    requires IsMonth(m1) && IsMonth(m2)
    requires XPosition(y1, m1) == XPosition(y2, m2)
    ensures y1 == y2 && m1 == m2
  {
    XPositionIsChronological(y1, m1, y2, m2);
    XPositionIsChronological(y2, m2, y1, m1);
  }

  /**
   * January 2022 sits at 0, the next month is 100 further, the same month
   * a year later 1200 further, and January follows December by one step.
   */
  lemma XPositionSteps(year: int, month: int)
    ensures XPosition(FirstYear, 1) == 0
    ensures XPosition(year, month + 1) == XPosition(year, month) + MonthWidth
    ensures XPosition(year + 1, month) == XPosition(year, month) + YearWidth
    ensures XPosition(year + 1, 1) == XPosition(year, 12) + MonthWidth
  {
  }

  /** `categoryColors`. */
  const CategoryColors: map<string, string> := map[
    "education" := "var(--color-blue-500)",
    "work" := "var(--color-green-500)",
    "project" := "var(--color-purple-500)",
    "certification" := "var(--color-amber-500)"
  ]

  const FallbackColor: string := "var(--color-gray-500)"

  /** `categoryColors[event.category] || gray`: an unknown category, or an empty colour, falls back. */
  function NodeColor(category: string): (r: string)
    ensures r != ""
    ensures r == FallbackColor || r in CategoryColors.Values
    ensures category !in CategoryColors ==> r == FallbackColor
  {
    if category in CategoryColors && CategoryColors[category] != "" then CategoryColors[category]
    else FallbackColor
  }

  /**
   * The four categories get four different colours, none of them the
   * fallback; every other category gets the fallback.
   */
  lemma NodeColorByCategory(category: string)
    ensures category in CategoryColors ==> NodeColor(category) == CategoryColors[category] && NodeColor(category) != FallbackColor
    ensures category !in CategoryColors ==> NodeColor(category) == FallbackColor
    ensures forall c, d :: c in CategoryColors && d in CategoryColors && c != d ==> NodeColor(c) != NodeColor(d)
  {
    assert "var(--color-blue-500)"[12] == 'b' && "var(--color-green-500)"[12] == 'g';
    assert "var(--color-purple-500)"[12] == 'p' && "var(--color-amber-500)"[12] == 'a';
    assert FallbackColor[12] == 'g' && FallbackColor[13] == 'r' && "var(--color-green-500)"[13] == 'r';
    assert FallbackColor[14] == 'a' && "var(--color-green-500)"[14] == 'e';
  }

  /** `${event.position}`: a missing position prints as `undefined`. */
  function PositionText(position: Option<string>): string {
    position.GetOr("undefined")
  }

  /** A conditional class: the word when `on`, nothing otherwise. */
  function Flag(on: bool, word: string): string {
    if on then word else ""
  }

  /**
   * The node's class list: fixed class, position, highlight flag, hover flag,
   * separated by blanks. It starts with the fixed class and the position, and
   * ends with ` hovered` when hovered and with the bare blank otherwise.
   */
  function NodeClass(event: TimelineEvent, hovered: bool): (r: string)
    ensures StartsWith(r, "timeline-node " + PositionText(event.position) + " ")
    ensures hovered ==> |r| >= 8 && r[|r| - 8..] == " hovered"
    ensures !hovered ==> r[|r| - 1] == ' '
  {
    var head := "timeline-node " + PositionText(event.position) + " ";
    var r := head + Flag(event.highlight == Some(true), "highlight") + " " + Flag(hovered, "hovered");
    assert r[..|head|] == head;
    r
  }

  /**
   * Split at blanks, the class list reads back as four slots: the fixed
   * class, the position, `highlight` exactly when the event is highlighted,
   * and `hovered` exactly when the node is hovered.
   */
  lemma NodeClassSlots(event: TimelineEvent, hovered: bool)
    requires ' ' !in PositionText(event.position)
    ensures |Split(NodeClass(event, hovered), " ")| == 4
    ensures Split(NodeClass(event, hovered), " ")[0] == "timeline-node"
    ensures Split(NodeClass(event, hovered), " ")[1] == PositionText(event.position)
    ensures Split(NodeClass(event, hovered), " ")[2] == "highlight" <==> event.highlight == Some(true)
    ensures Split(NodeClass(event, hovered), " ")[3] == "hovered" <==> hovered
  {
    var h := Flag(event.highlight == Some(true), "highlight");
    var v := Flag(hovered, "hovered");
    var slots := ["timeline-node", PositionText(event.position), h, v];
    assert ' ' !in h && ' ' !in v;
    FourSlots(PositionText(event.position), h, v);
    SplitJoin(slots, ' ');
  }

  lemma FourSlots(p: string, h: string, v: string)
    ensures Join(["timeline-node", p, h, v], " ") == "timeline-node " + p + " " + h + " " + v
  {
    var slots := ["timeline-node", p, h, v];
    assert Join(slots[3..], " ") == v;
    assert Join(slots[2..], " ") == h + " " + v;
    assert Join(slots[1..], " ") == p + " " + (h + " " + v);
  }

  /** The node component's hover state. */
  class Node {
    var isHovered: bool

    constructor ()
      ensures !isHovered
    {
      isHovered := false;
    }

    /** The class list the node renders for `event` in its current state. */
    function ClassName(event: TimelineEvent): string
      reads this
    {
      NodeClass(event, isHovered)
    }

    /** `handleMouseEnter`. */
    method MouseEnter()
      modifies this
      ensures isHovered
    {
      isHovered := true;
    }

    /** `handleMouseLeave`. */
    method MouseLeave()
      modifies this
      ensures !isHovered
    {
      isHovered := false;
    }
  }
}
