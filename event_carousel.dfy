/**
 * The carousel under the timeline: the cards of the events of the current
 * year, the card of the current month highlighted, each with at most four
 * technology tags and its links; a message when the year has no events;
 * and an effect that, when the selected month changes, schedules a scroll
 * to the highlighted card.
 */
module EventCarousel {
  import opened Optional
  import opened JsText
  import opened JsArray
  import opened TimelineTypes

  /** The test `event.year === currentYear`. */
  function InYear(currentYear: int): TimelineEvent -> bool {
    (e: TimelineEvent) => e.year == currentYear
  }

  /** `yearEvents`: `events?.filter(...) || []`, only given events of the current year. */
  function YearEvents(events: Option<seq<TimelineEvent>>, currentYear: int): (r: seq<TimelineEvent>)
    ensures events.None? ==> r == []
    ensures events.Some? ==> |r| <= |events.value| && forall e :: e in r ==> e in events.value && e.year == currentYear
  {
    match events
    case None => []
    case Some(es) =>
      FilterMembers(es, InYear(currentYear));
      Filter(es, InYear(currentYear))
  }

  /**
   * Without events there are none for the year; otherwise the year's events
   * are exactly the given events of that year.
   */
  lemma YearEventsSelect(events: Option<seq<TimelineEvent>>, currentYear: int)
    ensures events.None? ==> YearEvents(events, currentYear) == []
    ensures events.Some? ==> forall e :: e in YearEvents(events, currentYear) <==> e in events.value && e.year == currentYear
  {
    if events.Some? {
      FilterMembers(events.value, InYear(currentYear));
    }
  }

  /**
   * The filter keeps the given order: the events of a list that is two lists
   * one after the other are the first list's events followed by the second's.
   */
  lemma YearEventsKeepOrder(a: seq<TimelineEvent>, b: seq<TimelineEvent>, currentYear: int)
    ensures YearEvents(Some(a + b), currentYear) == YearEvents(Some(a), currentYear) + YearEvents(Some(b), currentYear)
  {
    FilterConcat(a, b, InYear(currentYear));
  }

  /** `isHighlight`. */
  predicate IsHighlight(event: TimelineEvent, currentYear: int, currentMonth: int) {
    event.year == currentYear && event.month == currentMonth
  }

  /**
   * Among the year's events the highlighted ones are exactly the events of
   * the current year and month.
   */
  lemma HighlightedAreCurrentMonth(events: seq<TimelineEvent>, currentYear: int, currentMonth: int)
    ensures forall e :: e in YearEvents(Some(events), currentYear) && IsHighlight(e, currentYear, currentMonth) <==>
      e in events && e.year == currentYear && e.month == currentMonth
  {
    YearEventsSelect(Some(events), currentYear);
  }

  /** The tags shown on a card: `techStack.slice(0, 4)` when the list is present and not empty. */
  function TechTags(event: TimelineEvent): seq<string> {
    match event.techStack
    case None => []
    case Some(ts) => if |ts| > 0 then Slice(ts, 0, 4) else []
  }

  /** A card shows the first four tags of its event, in order, or all of them when there are fewer. */
  lemma TechTagsAreFirstFour(event: TimelineEvent)
    ensures event.techStack.None? ==> TechTags(event) == []
    ensures event.techStack.Some? ==> TechTags(event) == event.techStack.value[..Min(4, |event.techStack.value|)]
    ensures |TechTags(event)| <= 4
  {
  }

  /** An anchor in the card's link row. */
  datatype CardLink = CardLink(href: string, text: string)

  const GitHubText: string := "GitHub →"
  const LiveText: string := "Live →"

  /** The link row: absent without `links`; otherwise the GitHub and the live link, each when its URL is not empty. */
  function CardLinks(event: TimelineEvent): Option<seq<CardLink>> {
    match event.links
    case None => None
    case Some(links) =>
      Some((if Truthy(links.github) then [CardLink(links.github.value, GitHubText)] else [])
        + (if Truthy(links.live) then [CardLink(links.live.value, LiveText)] else []))
  }

  /**
   * The row exists exactly when the event has links; it holds the GitHub
   * link exactly when that URL is present and not empty, likewise the live
   * link, and the GitHub link comes first.
   */
  lemma CardLinksShowPresentUrls(event: TimelineEvent)
    ensures CardLinks(event).Some? <==> event.links.Some?
    ensures event.links.Some? ==>
      var row := CardLinks(event).value;
      && (CardLink(event.links.value.github.GetOr(""), GitHubText) in row <==> Truthy(event.links.value.github))
      && (CardLink(event.links.value.live.GetOr(""), LiveText) in row <==> Truthy(event.links.value.live))
      && |row| <= 2
      && (|row| == 2 ==> row[0].text == GitHubText && row[1].text == LiveText)
  {
    assert GitHubText[0] == 'G' && LiveText[0] == 'L';
  }

  /** What one card shows. */
  datatype Card = Card(
    key: string,
    highlighted: bool,
    monthLabel: string,
    category: string,
    title: string,
    description: string,
    tags: seq<string>,
    links: Option<seq<CardLink>>)

  function CardOf(event: TimelineEvent, currentYear: int, currentMonth: int): Card {
    Card(event.id, IsHighlight(event, currentYear, currentMonth), IntToString(event.month) + "월",
      event.category, event.title, event.description, TechTags(event), CardLinks(event))
  }

  /** The carousel body: the cards in a scroll container, or the no-events message. */
  datatype Body = Cards(cards: seq<Card>) | NoEvents(message: string)

  datatype View = View(heading: string, body: Body)

  /**
   * The component's output for its three props: the message exactly when the
   * year has no events, and otherwise one card per event of the year, keyed
   * by its id, in order.
   */
  function Render(events: Option<seq<TimelineEvent>>, currentMonth: int, currentYear: int): (r: View)
    ensures r.body.NoEvents? <==> YearEvents(events, currentYear) == []
    ensures r.body.Cards? ==>
      |r.body.cards| == |YearEvents(events, currentYear)| &&
      forall k :: 0 <= k < |r.body.cards| ==> r.body.cards[k].key == YearEvents(events, currentYear)[k].id
  {
    var yearEvents := YearEvents(events, currentYear);
    View(
      IntToString(currentYear) + "년 이벤트",
      if |yearEvents| > 0 then
        Cards(seq(|yearEvents|, k requires 0 <= k < |yearEvents| => CardOf(yearEvents[k], currentYear, currentMonth)))
      else
        NoEvents(IntToString(currentYear) + "년에는 이벤트가 없습니다."))
  }

  /**
   * The message appears exactly when the year has no events. Otherwise there
   * is one card per event of the year, in order, and a card is highlighted
   * exactly when its event falls in the current month.
   */
  lemma RenderShowsYearEvents(events: Option<seq<TimelineEvent>>, currentMonth: int, currentYear: int)
    ensures Render(events, currentMonth, currentYear).body.NoEvents? <==> YearEvents(events, currentYear) == []
    ensures Render(events, currentMonth, currentYear).body.Cards? ==>
      var yearEvents := YearEvents(events, currentYear);
      var cards := Render(events, currentMonth, currentYear).body.cards;
      && |cards| == |yearEvents|
      && forall k :: 0 <= k < |cards| ==>
        && cards[k].key == yearEvents[k].id
        && (cards[k].highlighted <==> yearEvents[k].month == currentMonth)
        && cards[k].tags == TechTags(yearEvents[k])
  {
    var yearEvents := YearEvents(events, currentYear);
    if events.Some? {
      YearEventsSelect(events, currentYear);
      forall k | 0 <= k < |yearEvents| ensures yearEvents[k].year == currentYear {
        assert yearEvents[k] in yearEvents;
      }
    }
  }

  /** Whether the effect goes on to schedule a scroll. */
  predicate Proceeds(prevMonth: int, prevYear: int, currentMonth: int, currentYear: int, hasContainer: bool) {
    hasContainer && !(prevMonth == currentMonth && prevYear == currentYear)
  }

  /**
   * The component's effect state. The container exists only while cards are
   * shown; `scrollsScheduled` counts the delayed scrolls the effect set off.
   */
  class Carousel {
    var prevMonth: int
    var prevYear: int
    var scrollsScheduled: nat

    /** `useSignal(currentMonth)`, `useSignal(currentYear)`: the first props count as processed. */
    constructor (currentMonth: int, currentYear: int)
      ensures prevMonth == currentMonth && prevYear == currentYear && scrollsScheduled == 0
    {
      prevMonth := currentMonth;
      prevYear := currentYear;
      scrollsScheduled := 0;
    }

    /**
     * The visible task, run after a render with these props. It stops when
     * no container is rendered or the pair was already processed; otherwise
     * it records the pair and schedules one scroll.
     */
    method VisibleTask(events: Option<seq<TimelineEvent>>, currentMonth: int, currentYear: int) returns (scheduled: bool)
      modifies this
      ensures scheduled <==> Proceeds(old(prevMonth), old(prevYear), currentMonth, currentYear, Render(events, currentMonth, currentYear).body.Cards?)
      ensures scheduled ==> prevMonth == currentMonth && prevYear == currentYear && scrollsScheduled == old(scrollsScheduled) + 1
      ensures !scheduled ==> prevMonth == old(prevMonth) && prevYear == old(prevYear) && scrollsScheduled == old(scrollsScheduled)
    {
      var hasContainer := |YearEvents(events, currentYear)| > 0;
      if !hasContainer {
        return false;
      }
      if prevMonth == currentMonth && prevYear == currentYear {
        return false;
      }
      prevMonth := currentMonth;
      prevYear := currentYear;
      scrollsScheduled := scrollsScheduled + 1;
      scheduled := true;
    }
  }
}
