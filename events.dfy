/**
 * The calendar event record as the server routes and the browser app pass it
 * around. JavaScript objects are loosely shaped; the fields the core reads are
 * listed here, and a string field that is absent, null or "" (all falsy in
 * JavaScript) is the empty string.
 */
module Events {
  import opened Common

  /**
   * A date-time string as the code sees it: absent or empty (falsy), present
   * but not a date (`new Date(s)` gives NaN), or a date at `ms` milliseconds
   * since the epoch.
   */
  datatype Stamp = Missing | Invalid | At(ms: int) {
    /** The string is truthy. */
    predicate Present() { !Missing? }

    /** `new Date(s)` is a valid date, so `toISOString` does not throw. */
    predicate IsDate() { At? && ValidTime(ms) }
  }

  /** `new Date(t)` is a valid date only within 8.64e15 ms of the epoch. */
  const MaxTime := 8_640_000_000_000_000

  predicate ValidTime(t: int) { -MaxTime <= t <= MaxTime }

  /** `conflictDetails` as the conflict-checking collaborator returns it. */
  datatype ConflictDetails = ConflictDetails(conflictsWith: string, suggestedAlternatives: seq<Stamp>)

  datatype Event = Event(
    id: Option<string>,
    title: string,
    summary: string,
    description: string,
    start: Stamp,
    end: Stamp,
    hasConflict: bool,                          // set by the conflict collaborator; absent reads as false
    conflictsWith: string,                      // top-level name of the clashing event (newer route)
    conflictDetails: Option<ConflictDetails>)   // nested details (older route)

  /** `e.summary && e.start && e.end`: the event can be put on the calendar. */
  predicate IsComplete(e: Event)
  {
    e.summary != "" && e.start.Present() && e.end.Present()
  }
}
