/**
 * clearmind/server/utils/dates.js: matching a delete target against the
 * user's events, reading a time-of-day and a date range out of a query, and
 * building the calendar context handed to the language model.
 *
 * Everything that needs the `Date`/`Intl` machinery (today's bounds in the
 * user's time zone, the hour of a timestamp, weekday and date labels) is
 * supplied by a `Zone` value.
 */
module Dates {
  import opened Common
  import opened Text
  import opened Events

  // ---- findMatchingEvents ------------------------------------------------

  /** `eventToDelete.toLowerCase().trim()`. */
  function SearchTerm(target: string): string
  {
    Trim(ToLower(target))
  }

  /** `event.title || event.summary || ''`. */
  function TitleOf(e: Event): string
  {
    if e.title != "" then e.title else e.summary
  }

  predicate Matches(term: string, e: Event)
  {
    var title := ToLower(TitleOf(e));
    Contains(title, term) || Contains(ToLower(e.description), term) || Contains(term, title)
  }

  /**
   * `eventToDelete` is `None` when it is not a string at all, and
   * `existingEvents` is `None` when it is missing or not an array.
   */
  function FindMatchingEvents(eventToDelete: Option<string>, existingEvents: Option<seq<Event>>): (r: seq<Event>)
    ensures eventToDelete.None? || eventToDelete.value == "" || existingEvents.None? || existingEvents.value == []
            ==> r == []
    ensures existingEvents.Some? ==> IsSubsequence(r, existingEvents.value)
    ensures forall e :: e in r <==>
              && eventToDelete.Some? && eventToDelete.value != "" && existingEvents.Some?
              && e in existingEvents.value && Matches(SearchTerm(eventToDelete.value), e)
  {
    if eventToDelete.None? || eventToDelete.value == "" then []
    else if existingEvents.None? || existingEvents.value == [] then []
    else
      var term := SearchTerm(eventToDelete.value);
      Filter(existingEvents.value, e => Matches(term, e))
  }

  /** An event with neither title nor summary is matched by every valid target. */
  lemma UntitledEventMatchesEveryTarget(target: string, events: seq<Event>, e: Event)
    requires target != "" && e in events && e.title == "" && e.summary == ""
    ensures e in FindMatchingEvents(Some(target), Some(events))
  {
    ContainsEmpty(SearchTerm(target));
  }

  lemma {:induction false} TrimStartOfSpaces(s: string)
    requires forall i :: 0 <= i < |s| ==> IsSpace(s[i])
    ensures TrimStart(s) == ""
  {
    if s != [] {
      TrimStartOfSpaces(s[1..]);
    }
  }

  /**
   * A target made only of white space passes the "non-empty string" guard but
   * trims to "", which every title includes: it matches every event.
   */
  lemma BlankTargetMatchesEverything(target: string, events: seq<Event>)
    requires target != "" && forall i :: 0 <= i < |target| ==> IsSpace(target[i])
    ensures FindMatchingEvents(Some(target), Some(events)) == events
  {
    var lower := ToLower(target);
    assert forall i :: 0 <= i < |lower| ==> IsSpace(lower[i]);
    TrimStartOfSpaces(lower);
    assert SearchTerm(target) == "";
    forall e | e in events
      ensures Matches("", e)
    {
      ContainsEmpty(ToLower(TitleOf(e)));
    }
    FilterKeepsAll(events, e => Matches("", e));
  }

  // ---- detectTimeOfDay ---------------------------------------------------

  predicate SaysMorning(lower: string) { Contains(lower, "morning") || Contains(lower, "am") }
  predicate SaysAfternoon(lower: string) { Contains(lower, "afternoon") || Contains(lower, "pm") }
  predicate SaysEvening(lower: string) { Contains(lower, "evening") || Contains(lower, "night") }

  /**
   * The time-of-day filter a query asks for. The keyword groups are tried in
   * a fixed order, and an evening or night query is served by the
   * afternoon filter: the result is never "evening".
   */
  function DetectTimeOfDay(text: string): (r: Option<string>)
    ensures r != Some("evening")
    ensures r == Some("morning") <==> SaysMorning(ToLower(text))
    ensures r == Some("afternoon") <==>
              !SaysMorning(ToLower(text)) && (SaysAfternoon(ToLower(text)) || SaysEvening(ToLower(text)))
    ensures r == None <==>
              !SaysMorning(ToLower(text)) && !SaysAfternoon(ToLower(text)) && !SaysEvening(ToLower(text))
  {
    var lower := ToLower(text);
    if SaysMorning(lower) then Some("morning")
    else if SaysAfternoon(lower) then Some("afternoon")
    else if SaysEvening(lower) then Some("afternoon")
    else None
  }

  // ---- getDateRangeFromQuery ---------------------------------------------

  /**
   * The day boundaries `getDateRangeFromQuery` derives from the current
   * moment in the user's time zone (00:00:00 and 23:59:59.999 of each day).
   */
  datatype DayBounds = DayBounds(
    todayStart: int, todayEnd: int,
    tomorrowStart: int, tomorrowEnd: int,
    weekEnd: int,                       // end of the day seven days from now
    nextWeekStart: int, nextWeekEnd: int)

  /** What the time zone contributes to one call. */
  datatype Zone = Zone(
    bounds: DayBounds,
    currentDate: string,                // e.g. "Monday, June 2, 2025"
    hourOf: int -> int,                 // hour of a timestamp in the user's zone
    weekdayOf: int -> string,
    dateOf: int -> string)

  datatype DateRange = DateRange(startDate: int, endDate: int, contextLabel: string)

  function GetDateRangeFromQuery(text: string, b: DayBounds): DateRange
  {
    var lower := ToLower(text);
    if Contains(lower, "today") then DateRange(b.todayStart, b.todayEnd, "today")
    else if Contains(lower, "tomorrow") then DateRange(b.tomorrowStart, b.tomorrowEnd, "tomorrow")
    else if Contains(lower, "this week") || Contains(lower, "week") then DateRange(b.todayStart, b.weekEnd, "this week")
    else if Contains(lower, "next week") then DateRange(b.nextWeekStart, b.nextWeekEnd, "next week")
    else DateRange(b.todayStart, b.weekEnd, "upcoming")
  }

  /**
   * Label precedence is today, tomorrow, week; everything else is the
   * default seven-day window. The "next week" branch can never be taken,
   * because a query that includes "next week" also includes "week".
   */
  lemma DateRangeLabels(text: string, b: DayBounds)
    ensures var r := GetDateRangeFromQuery(text, b);
            var lower := ToLower(text);
            && (Contains(lower, "today") ==> r == DateRange(b.todayStart, b.todayEnd, "today"))
            && (!Contains(lower, "today") && Contains(lower, "tomorrow") ==>
                  r == DateRange(b.tomorrowStart, b.tomorrowEnd, "tomorrow"))
            && (!Contains(lower, "today") && !Contains(lower, "tomorrow") && Contains(lower, "week") ==>
                  r == DateRange(b.todayStart, b.weekEnd, "this week"))
            && (!Contains(lower, "today") && !Contains(lower, "tomorrow") && !Contains(lower, "week") ==>
                  r == DateRange(b.todayStart, b.weekEnd, "upcoming"))
            && r.contextLabel != "next week"
  {
    var lower := ToLower(text);
    if Contains(lower, "next week") {
      assert "next week" == "next " + "week";
      ContainsSuffix(lower, "next ", "week");
    }
    if Contains(lower, "this week") {
      assert "this week" == "this " + "week";
      ContainsSuffix(lower, "this ", "week");
    }
  }

  // ---- filterEventsByDateRange -------------------------------------------

  /** The summary `filterEventsByDateRange` keeps of each event. */
  datatype ContextEvent = ContextEvent(title: string, start: Stamp, dayOfWeek: string, date: string)

  /**
   * The filter callback logs `toISOString()` of every event's start before it
   * tests anything, so one start that is not a date throws a RangeError.
   */
  predicate StartsAreDates(events: seq<Event>)
  {
    forall e :: e in events ==> e.start.IsDate()
  }

  /**
   * Start inside `[startDate, endDate]` (both ends included), then the
   * optional half-day test.
   */
  predicate KeepForContext(e: Event, startDate: int, endDate: int, timeOfDay: Option<string>, hourOf: int -> int)
  {
    && e.start.At? && startDate <= e.start.ms <= endDate
    && (if timeOfDay == Some("morning") then hourOf(e.start.ms) < 12
        else if timeOfDay == Some("afternoon") then hourOf(e.start.ms) >= 12
        else true)
  }

  function SelectForContext(events: seq<Event>, startDate: int, endDate: int, timeOfDay: Option<string>, hourOf: int -> int): (r: seq<Event>)
    ensures IsSubsequence(r, events)
    ensures forall e :: e in r <==> e in events && KeepForContext(e, startDate, endDate, timeOfDay, hourOf)
  {
    Filter(events, e => KeepForContext(e, startDate, endDate, timeOfDay, hourOf))
  }

  /** `None`: the filter threw, because some start is not a date. */
  function FilterEventsByDateRange(events: Option<seq<Event>>, startDate: int, endDate: int, timeOfDay: Option<string>, z: Zone): (r: Option<seq<ContextEvent>>)
    ensures events.None? || events.value == [] ==> r == Some([])
    ensures events.Some? && events.value != [] ==> (r.None? <==> !StartsAreDates(events.value))
    ensures r.Some? && events.Some? ==>
              var kept := SelectForContext(events.value, startDate, endDate, timeOfDay, z.hourOf);
              && |r.value| == |kept|
              && forall i :: 0 <= i < |r.value| ==>
                   && r.value[i].title == kept[i].title && r.value[i].start == kept[i].start
                   && r.value[i].start.At? && startDate <= r.value[i].start.ms <= endDate
  {
    if events.None? || events.value == [] then Some([])
    else if !StartsAreDates(events.value) then None
    else
      var kept := SelectForContext(events.value, startDate, endDate, timeOfDay, z.hourOf);
      var r := seq(|kept|, i requires 0 <= i < |kept| =>
        assert kept[i] in kept;
        ContextEvent(kept[i].title, kept[i].start, z.weekdayOf(kept[i].start.ms), z.dateOf(kept[i].start.ms)));
      assert forall i :: 0 <= i < |r| ==> kept[i] in kept && r[i].start == kept[i].start;
      Some(r)
  }

  /**
   * The morning filter (hour < 12) and the afternoon filter (hour >= 12)
   * split the events of the date range between them.
   */
  lemma MorningAfternoonSplit(events: seq<Event>, startDate: int, endDate: int, hourOf: int -> int)
    ensures multiset(SelectForContext(events, startDate, endDate, Some("morning"), hourOf))
            + multiset(SelectForContext(events, startDate, endDate, Some("afternoon"), hourOf))
            == multiset(SelectForContext(events, startDate, endDate, None, hourOf))
  {
    FilterSplit(events,
      e => KeepForContext(e, startDate, endDate, Some("morning"), hourOf),
      e => KeepForContext(e, startDate, endDate, Some("afternoon"), hourOf),
      e => KeepForContext(e, startDate, endDate, None, hourOf),
      (e: Event) => e.start.At? && hourOf(e.start.ms) < 12);
  }

  // ---- buildCalendarContext ----------------------------------------------

  datatype CalendarContext = CalendarContext(
    events: seq<ContextEvent>,
    count: nat,
    timeRange: string,
    timeOfDay: Option<string>,
    currentDate: string,
    isEmpty: bool)

  const MaxContextEvents := 10

  /**
   * An empty calendar gives the empty context; otherwise at most the first
   * ten events of the filtered range, with `isEmpty` exactly when there are
   * none. `None`: the filter threw, and with it the whole call.
   */
  function BuildCalendarContext(text: string, existingEvents: seq<Event>, z: Zone): (r: Option<CalendarContext>)
    ensures r.None? <==> existingEvents != [] && !StartsAreDates(existingEvents)
    ensures r.Some? ==>
              && r.value.timeRange == GetDateRangeFromQuery(text, z.bounds).contextLabel
              && r.value.timeOfDay == DetectTimeOfDay(text) && r.value.currentDate == z.currentDate
              && r.value.count == |r.value.events| <= MaxContextEvents
              && (r.value.isEmpty <==> r.value.count == 0)
    ensures existingEvents == [] ==> r.Some? && r.value.events == [] && r.value.isEmpty
    ensures r.Some? ==>
              var range := GetDateRangeFromQuery(text, z.bounds);
              var all := FilterEventsByDateRange(Some(existingEvents), range.startDate, range.endDate, DetectTimeOfDay(text), z);
              all.Some? && r.value.events <= all.value && |r.value.events| == Min(MaxContextEvents, |all.value|)
  {
    var range := GetDateRangeFromQuery(text, z.bounds);
    var timeOfDay := DetectTimeOfDay(text);
    if existingEvents == [] then
      Some(CalendarContext([], 0, range.contextLabel, timeOfDay, z.currentDate, true))
    else
      match FilterEventsByDateRange(Some(existingEvents), range.startDate, range.endDate, timeOfDay, z)
      case None => None
      case Some(all) =>
        var relevant := all[..Min(MaxContextEvents, |all|)];
        Some(CalendarContext(relevant, |relevant|, range.contextLabel, timeOfDay, z.currentDate, |relevant| == 0))
  }
}
