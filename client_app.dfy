/**
 * clearmind/src/App.js, its non-UI rules: finding the event an update
 * request is about, moving an event while keeping its duration, the
 * id-keyed edits of the two event lists, creating a batch of events, the
 * confirm/cancel scan that follows a delete question, and keeping the
 * calendar token in browser storage with an expiry.
 *
 * React state becomes the fields of `AppState`, updated directly. The
 * calendar API calls and the clock are parameters: a call's outcome is
 * passed in (`None` when it threw), and `now` is `Date.now()`.
 */
module ClientApp {
  import opened Common
  import opened Text
  import opened Events
  import Turns

  // ---- finding the event to update -------------------------------------

  /** The update-intent collaborator's answer; `eventToUpdate` is `None` when it is not a string. */
  datatype UpdateAnalysis = UpdateAnalysis(
    isUpdateRequest: bool, confidence: real, eventToUpdate: Option<string>, newTime: Stamp, newTitle: string)

  const UpdateThreshold: real := 0.5

  /** `(e.summary || e.title || '').toLowerCase()`. */
  function DisplayName(e: Event): string
  {
    ToLower(if e.summary != "" then e.summary else e.title)
  }

  predicate NameMatches(name: string, e: Event)
  {
    Contains(DisplayName(e), name) || Contains(name, DisplayName(e))
  }

  /** `Crash`: `eventToUpdate.toLowerCase()` threw; `at` indexes `recent + calendar`. */
  datatype Lookup = NotAnUpdate | Crash | NoTarget | Target(at: nat, event: Event)

  /**
   * The update path is taken above confidence 0.5; the target is the first
   * event, recently created ones before the calendar's, whose name includes
   * the requested name or is included in it.
   */
  function FindUpdateTarget(a: UpdateAnalysis, recent: seq<Event>, calendar: seq<Event>): (r: Lookup)
    ensures r == NotAnUpdate <==> !(a.isUpdateRequest && a.confidence > UpdateThreshold)
    ensures r == Crash <==> a.isUpdateRequest && a.confidence > UpdateThreshold && a.eventToUpdate.None?
    ensures r == NoTarget ==>
              a.eventToUpdate.Some? && forall e :: e in recent + calendar ==> !NameMatches(ToLower(a.eventToUpdate.value), e)
    ensures r.Target? ==>
              && a.eventToUpdate.Some?
              && r.at < |recent + calendar| && (recent + calendar)[r.at] == r.event
              && NameMatches(ToLower(a.eventToUpdate.value), r.event)
              && forall j :: 0 <= j < r.at ==> !NameMatches(ToLower(a.eventToUpdate.value), (recent + calendar)[j])
  {
    if !(a.isUpdateRequest && a.confidence > UpdateThreshold) then NotAnUpdate
    else if a.eventToUpdate.None? then Crash
    else
      var name := ToLower(a.eventToUpdate.value);
      var pool := recent + calendar;
      match FirstIndex(pool, (e: Event) => NameMatches(name, e))
      case None => NoTarget
      case Some(i) => Target(i, pool[i])
  }

  /** A recently created event that matches wins over every calendar event. */
  lemma RecentEventsFirst(a: UpdateAnalysis, recent: seq<Event>, calendar: seq<Event>, e: Event)
    requires a.isUpdateRequest && a.confidence > UpdateThreshold && a.eventToUpdate.Some?
    requires e in recent && NameMatches(ToLower(a.eventToUpdate.value), e)
    ensures FindUpdateTarget(a, recent, calendar).Target?
    ensures FindUpdateTarget(a, recent, calendar).at < |recent|
  {
    var k :| 0 <= k < |recent| && recent[k] == e;
    assert (recent + calendar)[k] == e;
  }

  /** An event with neither summary nor title is a match for any requested name. */
  lemma UnnamedEventMatchesAnyName(name: string, e: Event)
    requires e.summary == "" && e.title == ""
    ensures NameMatches(name, e)
  {
    assert DisplayName(e) == "";
    ContainsEmpty(name);
  }

  // ---- moving an event ---------------------------------------------------

  /** `BadTime`: a date was invalid, so `toISOString` threw. */
  datatype Rescheduled = Moved(start: Stamp, end: Stamp) | BadTime

  /**
   * Without a new time start and end stay as they were; with one the event
   * starts then and keeps its duration. The new time and both old times must
   * be dates, and so must the new end, or `toISOString` throws.
   */
  function Reschedule(oldStart: Stamp, oldEnd: Stamp, newTime: Stamp): (r: Rescheduled)
    ensures newTime == Missing ==> r == Moved(oldStart, oldEnd)
    ensures newTime != Missing && r.Moved? ==>
              && newTime.IsDate() && oldStart.IsDate() && oldEnd.IsDate()
              && r.start == newTime && r.end.IsDate()
              && r.end.ms - r.start.ms == oldEnd.ms - oldStart.ms
    ensures r == BadTime <==>
              newTime != Missing &&
              !(newTime.IsDate() && oldStart.IsDate() && oldEnd.IsDate()
                && ValidTime(newTime.ms + (oldEnd.ms - oldStart.ms)))
  {
    if newTime == Missing then Moved(oldStart, oldEnd)
    else if newTime.IsDate() && oldStart.IsDate() && oldEnd.IsDate() then
      var duration := oldEnd.ms - oldStart.ms;
      var newEnd := newTime.ms + duration;
      if ValidTime(newEnd) then Moved(newTime, At(newEnd)) else BadTime
    else BadTime
  }

  /** The event as the calendar API returns it, with `dateTime || date` already picked. */
  datatype ApiEvent = ApiEvent(id: Option<string>, summary: string, description: string, start: Stamp, end: Stamp)

  /** The body of the update request. */
  datatype UpdateRequest = UpdateRequest(id: Option<string>, summary: string, description: string, start: Stamp, end: Stamp)

  /** The calendar list after an update: only entries with the same id change, taking the new summary and times. */
  function ApplyToCalendar(events: seq<Event>, id: Option<string>, u: ApiEvent): (r: seq<Event>)
    ensures |r| == |events|
    ensures forall i :: 0 <= i < |r| && events[i].id != id ==> r[i] == events[i]
    ensures forall i :: 0 <= i < |r| && events[i].id == id ==>
              r[i] == events[i].(title := r[i].title, summary := r[i].summary, start := r[i].start, end := r[i].end)
              && r[i].title == u.summary && r[i].summary == u.summary && r[i].start == u.start && r[i].end == u.end
  {
    seq(|events|, i requires 0 <= i < |events| =>
      if events[i].id == id then events[i].(title := u.summary, summary := u.summary, start := u.start, end := u.end)
      else events[i])
  }

  /** The recently created list after an update: as the calendar's, but the title is left as it was. */
  function ApplyToRecent(events: seq<Event>, id: Option<string>, u: ApiEvent): (r: seq<Event>)
    ensures |r| == |events|
    ensures forall i :: 0 <= i < |r| && events[i].id != id ==> r[i] == events[i]
    ensures forall i :: 0 <= i < |r| && events[i].id == id ==>
              r[i] == events[i].(summary := r[i].summary, start := r[i].start, end := r[i].end)
              && r[i].summary == u.summary && r[i].start == u.start && r[i].end == u.end
  {
    seq(|events|, i requires 0 <= i < |events| =>
      if events[i].id == id then events[i].(summary := u.summary, start := u.start, end := u.end)
      else events[i])
  }

  /** `prev.filter(e => e.id !== id)`. */
  function RemoveById(events: seq<Event>, id: Option<string>): (r: seq<Event>)
    ensures IsSubsequence(r, events)
    ensures forall e :: e in r <==> e in events && e.id != id
  {
    Filter(events, (e: Event) => e.id != id)
  }

  // ---- creating a batch ------------------------------------------------

  /** The assistant notices App.js adds to the conversation itself. */
  datatype Notice =
    | AllAdded(count: nat)                 // "All n event(s) added to your calendar!"
    | SomeAdded(added: nat, failed: nat)   // "n event(s) added. m failed to create."
    | AddTrouble                           // "I had trouble adding those ..."
    | ConnectCalendar                      // "... connect your Google Calendar first."
    | CouldNotDelete
    | Deleted(title: string)
    | DeleteTrouble
    | CouldNotUpdate
    | Updated(name: string, newTime: Stamp)
    | UpdateTrouble
    | WontDelete                           // "Okay, I won't delete that event."

  datatype Entry = Said(role: string, content: string) | Note(notice: Notice)

  /** The summary notice after a batch: everything, part, or nothing was created. */
  function Tally(success: nat, fail: nat): (m: Notice)
    ensures m == AllAdded(success) <==> success > 0 && fail == 0
    ensures m == SomeAdded(success, fail) <==> success > 0 && fail > 0
    ensures m == AddTrouble <==> success == 0
  {
    if success > 0 && fail == 0 then AllAdded(success)
    else if success > 0 && fail > 0 then SomeAdded(success, fail)
    else AddTrouble
  }

  /** The local record of a created event. */
  function FromApi(u: ApiEvent): (e: Event)
    ensures e.id == u.id && e.title == u.summary && e.summary == u.summary && e.start == u.start && e.end == u.end
    ensures !e.hasConflict
  {
    Event(u.id, u.summary, u.summary, u.description, u.start, u.end, false, "", None)
  }

  /** The local records of the events the calendar accepted, in request order. */
  function CreatedFrom(events: seq<Event>, create: Event -> Option<ApiEvent>): (r: seq<Event>)
    ensures |r| == Accepted(events, create) <= |events|
    ensures forall e :: e in r <==>
              exists j :: 0 <= j < |events| && create(events[j]).Some? && e == FromApi(create(events[j]).value)
    ensures forall e :: e in r ==> !e.hasConflict
  {
    if events == [] then []
    else
      var init := events[..|events| - 1];
      var rest := CreatedFrom(init, create);
      AcceptedSnoc(init, events[|events| - 1], create);
      assert events == init + [events[|events| - 1]];
      assert forall j :: 0 <= j < |init| ==> init[j] == events[j];
      match create(events[|events| - 1])
      case Some(u) => rest + [FromApi(u)]
      case None => rest
  }

  /** How many of the create requests succeed, counted from the front. */
  function Accepted(events: seq<Event>, create: Event -> Option<ApiEvent>): nat
  {
    if events == [] then 0
    else (if create(events[0]).Some? then 1 else 0) + Accepted(events[1..], create)
  }

  lemma {:induction false} AcceptedSnoc(events: seq<Event>, e: Event, create: Event -> Option<ApiEvent>)
    ensures Accepted(events + [e], create) == Accepted(events, create) + (if create(e).Some? then 1 else 0)
    ensures Accepted(events, create) <= |events|
    decreases |events|
  {
    if events == [] {
      assert [e][1..] == [];
    } else {
      assert (events + [e])[1..] == events[1..] + [e];
      AcceptedSnoc(events[1..], e, create);
    }
  }

  /** Events are added in request order: creating a prefix yields a prefix of the created events. */
  lemma {:induction false} CreatedFromPrefix(events: seq<Event>, k: nat, create: Event -> Option<ApiEvent>)
    requires k <= |events|
    ensures CreatedFrom(events[..k], create) <= CreatedFrom(events, create)
    decreases |events| - k
  {
    if k < |events| {
      var init := events[..|events| - 1];
      assert init[..k] == events[..k];
      CreatedFromPrefix(init, k, create);
    } else {
      assert events[..k] == events;
    }
  }

  /** `[...created, ...prev].slice(0, 3)`. */
  function RecentAfter(created: seq<Event>, prev: seq<Event>): (r: seq<Event>)
    ensures |r| == Min(3, |created| + |prev|) && r <= created + prev
    ensures |created| >= 3 ==> r == created[..3]
    ensures |created| < 3 ==> created <= r
  {
    var all := created + prev;
    assert |created| >= 3 ==> all[..3] == created[..3];
    all[..Min(3, |all|)]
  }

  // ---- the reply to a delete question ----------------------------------

  const DeleteQuestion := "Would you like me to delete"
  const ConfirmWords: seq<string> := ["yes", "yeah", "sure", "ok", "okay", "delete it", "remove it", "confirm"]
  const CancelWords: seq<string> := ["no", "nope", "cancel", "nevermind", "don't"]

  predicate SaysAny(text: string, words: seq<string>)
  {
    exists i :: 0 <= i < |words| && Contains(text, words[i])
  }

  predicate AsksToDelete(m: Entry)
  {
    m.Said? && Contains(m.content, DeleteQuestion)
  }

  datatype Decision = NoDecision | DeleteFirst(event: Event) | KeepEvent

  /**
   * After a turn whose previous message asked whether to delete: a confirm
   * word deletes the first event of this turn's `eventsToDelete` (if any);
   * otherwise a cancel word keeps it.
   */
  function ScanReply(history: seq<Entry>, text: string, eventsToDelete: Option<seq<Event>>): (d: Decision)
    ensures d != NoDecision ==> history != [] && AsksToDelete(history[|history| - 1])
    ensures d.DeleteFirst? <==>
              && history != [] && AsksToDelete(history[|history| - 1])
              && SaysAny(ToLower(text), ConfirmWords)
              && eventsToDelete.Some? && eventsToDelete.value != []
    ensures d.DeleteFirst? ==> d.event == eventsToDelete.value[0]
    ensures d == KeepEvent <==>
              && history != [] && AsksToDelete(history[|history| - 1])
              && !SaysAny(ToLower(text), ConfirmWords) && SaysAny(ToLower(text), CancelWords)
  {
    if history == [] || !AsksToDelete(history[|history| - 1]) then NoDecision
    else
      var lower := ToLower(text);
      if SaysAny(lower, ConfirmWords) then
        if eventsToDelete.Some? && eventsToDelete.value != [] then DeleteFirst(eventsToDelete.value[0])
        else NoDecision
      else if SaysAny(lower, CancelWords) then KeepEvent
      else NoDecision
  }

  lemma DontDeleteItLowered()
    ensures ToLower("Don't delete it") == "don't delete it"
  {
    var s := "Don't delete it";
    var r := ToLower(s);
    assert |r| == 15;
    forall i | 0 <= i < 15
      ensures r[i] == "don't delete it"[i]
    {
      assert r[i] == LowerChar(s[i]);
    }
  }

  lemma SaysDeleteIt()
    ensures SaysAny("don't delete it", ConfirmWords)
    ensures SaysAny("don't delete it", CancelWords)
  {
    var t := "don't delete it";
    assert t[6..15] == "delete it";
    ContainsAt(t, "delete it", 6);
    assert ConfirmWords[5] == "delete it";
    assert t[0..5] == "don't";
    ContainsAt(t, "don't", 0);
    assert CancelWords[4] == "don't";
  }

  /** As written, answering "Don't delete it" to the delete question deletes the event. */
  lemma DontDeleteItDeletes(history: seq<Entry>, e: Event)
    requires history != [] && AsksToDelete(history[|history| - 1])
    ensures ScanReply(history, "Don't delete it", Some([e])) == DeleteFirst(e)
  {
    DontDeleteItLowered();
    SaysDeleteIt();
  }

  /** The scan with refusals taken first: an answer with a cancel word never deletes. */
  function ScanReplyRefusalFirst(history: seq<Entry>, text: string, eventsToDelete: Option<seq<Event>>): (d: Decision)
    ensures SaysAny(ToLower(text), CancelWords) ==> !d.DeleteFirst?
    ensures !SaysAny(ToLower(text), CancelWords) ==> d == ScanReply(history, text, eventsToDelete)
  {
    if history == [] || !AsksToDelete(history[|history| - 1]) then NoDecision
    else
      var lower := ToLower(text);
      if SaysAny(lower, CancelWords) then KeepEvent
      else if SaysAny(lower, ConfirmWords) then
        if eventsToDelete.Some? && eventsToDelete.value != [] then DeleteFirst(eventsToDelete.value[0])
        else NoDecision
      else NoDecision
  }

  /** With refusals first, "Don't delete it" keeps the event. */
  lemma DontDeleteItKeeps(history: seq<Entry>, e: Event)
    requires history != [] && AsksToDelete(history[|history| - 1])
    ensures ScanReplyRefusalFirst(history, "Don't delete it", Some([e])) == KeepEvent
  {
    DontDeleteItLowered();
    SaysDeleteIt();
  }

  // ---- the saved token -------------------------------------------------

  const TokenKey := "google_calendar_token"
  const ExpiryKey := "google_calendar_token_expiry"
  /** One hour, `60 * 60 * 1000`. */
  const TokenLifetime := 3_600_000

  /** Both keys hold a non-empty string (`savedToken && tokenExpiry`). */
  predicate HasSavedToken(storage: map<string, string>)
  {
    TokenKey in storage && storage[TokenKey] != "" && ExpiryKey in storage && storage[ExpiryKey] != ""
  }

  /** The token a load at `now` restores: only while `now` is strictly before the parsed expiry. */
  function SavedToken(storage: map<string, string>, now: int): (r: Option<string>)
    ensures r.Some? ==> HasSavedToken(storage) && r.value == storage[TokenKey]
  {
    if !HasSavedToken(storage) then None
    else
      match ParseInt(storage[ExpiryKey])
      case Some(expiry) => if now < expiry then Some(storage[TokenKey]) else None
      case None => None
  }

  /** What a save at `saved` stores is restored exactly until an hour later. */
  lemma SaveThenRestore(storage: map<string, string>, token: string, saved: nat, later: int)
    requires token != ""
    ensures SavedToken(storage[TokenKey := token][ExpiryKey := NatToString(saved + TokenLifetime)], later)
            == if later < saved + TokenLifetime then Some(token) else None
  {
    var st := storage[TokenKey := token][ExpiryKey := NatToString(saved + TokenLifetime)];
    ParseIntNatToString(saved + TokenLifetime);
    assert HasSavedToken(st);
  }

  /** After the token is cleared nothing is restored. */
  lemma ClearedRestoresNothing(storage: map<string, string>, later: int)
    ensures SavedToken(storage - {TokenKey, ExpiryKey}, later).None?
  {
  }

  // ---- the app's state ---------------------------------------------------

  /** The conversation's last answer as App.js reads it. */
  datatype ClientResponse = ClientResponse(
    intent: string, eventsToDelete: Option<seq<Event>>, requiresUserDecision: bool, hasConflicts: bool,
    eventsData: Option<seq<Event>>)

  class AppState {
    var calendarEvents: seq<Event>
    var recentlyCreated: seq<Event>
    var messages: seq<Entry>
    var token: string
    var isAuthenticated: bool
    var storage: map<string, string>

    constructor (storage: map<string, string>)
      ensures this.storage == storage && calendarEvents == [] && recentlyCreated == [] && messages == []
      ensures token == "" && !isAuthenticated
    {
      this.storage := storage;
      calendarEvents := [];
      recentlyCreated := [];
      messages := [];
      token := "";
      isAuthenticated := false;
    }

    /** `saveGoogleToken`: a token is stored with an expiry an hour from now; the empty token clears both keys. */
    method SaveToken(newToken: string, now: nat)
      modifies this
      ensures token == newToken
      ensures newToken != "" ==> storage == old(storage)[TokenKey := newToken][ExpiryKey := NatToString(now + TokenLifetime)]
      ensures newToken == "" ==> storage == old(storage) - {TokenKey, ExpiryKey}
      ensures forall later :: SavedToken(storage, later) == if newToken != "" && later < now + TokenLifetime then Some(newToken) else None
      ensures calendarEvents == old(calendarEvents) && recentlyCreated == old(recentlyCreated)
      ensures messages == old(messages) && isAuthenticated == old(isAuthenticated)
    {
      token := newToken;
      if newToken != "" {
        storage := storage[TokenKey := newToken][ExpiryKey := NatToString(now + TokenLifetime)];
        forall later | true
          ensures SavedToken(storage, later) == if later < now + TokenLifetime then Some(newToken) else None
        {
          SaveThenRestore(old(storage), newToken, now, later);
        }
      } else {
        storage := storage - {TokenKey, ExpiryKey};
        forall later | true
          ensures SavedToken(storage, later).None?
        {
          ClearedRestoresNothing(old(storage), later);
        }
      }
    }

    /**
     * `loadSavedToken`: a token still valid at `now` is restored and the
     * calendar is reloaded (`fetched`; the fetch yields [] on failure); a
     * stored but expired or unreadable one is removed.
     */
    method LoadSavedToken(now: int, fetched: seq<Event>)
      modifies this
      ensures SavedToken(old(storage), now).Some? ==>
                && token == SavedToken(old(storage), now).value && isAuthenticated
                && calendarEvents == fetched && storage == old(storage)
      ensures SavedToken(old(storage), now).None? ==>
                && token == old(token) && isAuthenticated == old(isAuthenticated)
                && calendarEvents == old(calendarEvents)
                && storage == if HasSavedToken(old(storage)) then old(storage) - {TokenKey, ExpiryKey} else old(storage)
      ensures recentlyCreated == old(recentlyCreated) && messages == old(messages)
    {
      var restored := SavedToken(storage, now);
      if restored.Some? {
        token := restored.value;
        isAuthenticated := true;
        calendarEvents := fetched;
      } else if HasSavedToken(storage) {
        // expired, or the expiry does not parse (NaN compares false)
        storage := storage - {TokenKey, ExpiryKey};
      }
    }

    /**
     * `handleEventDeletion`: without a token, an event or its id no call is
     * made; a successful call removes every calendar entry with that id.
     */
    method DeleteEvent(event: Option<Event>, apiSucceeds: bool) returns (called: bool)
      modifies this
      ensures called <==> token != "" && event.Some? && event.value.id.Some? && event.value.id.value != ""
      ensures !called ==> calendarEvents == old(calendarEvents) && messages == old(messages) + [Note(CouldNotDelete)]
      ensures called && apiSucceeds ==>
                && calendarEvents == RemoveById(old(calendarEvents), event.value.id)
                && messages == old(messages) + [Note(Deleted(event.value.title))]
      ensures called && !apiSucceeds ==> calendarEvents == old(calendarEvents) && messages == old(messages) + [Note(DeleteTrouble)]
      ensures recentlyCreated == old(recentlyCreated) && token == old(token)
      ensures storage == old(storage) && isAuthenticated == old(isAuthenticated)
    {
      if token == "" || event.None? || event.value.id.None? || event.value.id.value == "" {
        messages := messages + [Note(CouldNotDelete)];
        return false;
      }
      called := true;
      if apiSucceeds {
        calendarEvents := RemoveById(calendarEvents, event.value.id);
        messages := messages + [Note(Deleted(event.value.title))];
      } else {
        messages := messages + [Note(DeleteTrouble)];
      }
    }

    /**
     * `handleEventUpdate` for the event the lookup found: the request keeps
     * the event's duration; on success both lists take the server's
     * summary and times for the entries with that id. `request` is the body
     * sent, `None` when no call is made.
     */
    method UpdateEvent(a: UpdateAnalysis, target: Event, api: Option<ApiEvent>) returns (request: Option<UpdateRequest>)
      modifies this
      ensures token == "" ==> request.None? && messages == old(messages) + [Note(CouldNotUpdate)]
      ensures token != "" ==> (request.Some? <==> Reschedule(target.start, target.end, a.newTime).Moved?)
      ensures request.Some? ==>
                var moved := Reschedule(target.start, target.end, a.newTime);
                && request.value.id == target.id
                && request.value.summary == (if a.newTitle != "" then a.newTitle else if target.summary != "" then target.summary else target.title)
                && request.value.description == target.description
                && request.value.start == moved.start && request.value.end == moved.end
      ensures token != "" && request.None? ==> messages == old(messages) + [Note(UpdateTrouble)]
      ensures request.Some? && api.None? ==> messages == old(messages) + [Note(UpdateTrouble)]
      ensures request.Some? && api.Some? ==>
                && calendarEvents == ApplyToCalendar(old(calendarEvents), target.id, api.value)
                && recentlyCreated == ApplyToRecent(old(recentlyCreated), target.id, api.value)
                && messages == old(messages) + [Note(Updated(if target.summary != "" then target.summary else target.title, a.newTime))]
      ensures !(request.Some? && api.Some?) ==> calendarEvents == old(calendarEvents) && recentlyCreated == old(recentlyCreated)
      ensures token == old(token) && storage == old(storage) && isAuthenticated == old(isAuthenticated)
    {
      if token == "" {
        messages := messages + [Note(CouldNotUpdate)];
        return None;
      }
      var moved := Reschedule(target.start, target.end, a.newTime);
      if moved == BadTime {
        messages := messages + [Note(UpdateTrouble)];
        return None;
      }
      var summary := if a.newTitle != "" then a.newTitle else if target.summary != "" then target.summary else target.title;
      request := Some(UpdateRequest(target.id, summary, target.description, moved.start, moved.end));
      if api.None? {
        messages := messages + [Note(UpdateTrouble)];
        return;
      }
      calendarEvents := ApplyToCalendar(calendarEvents, target.id, api.value);
      recentlyCreated := ApplyToRecent(recentlyCreated, target.id, api.value);
      messages := messages + [Note(Updated(if target.summary != "" then target.summary else target.title, a.newTime))];
    }

    /**
     * `handleMultipleEventsCreation`: each event is sent in turn; the ones the
     * calendar accepts are appended to the calendar list and returned, and a
     * single notice tells how many were added and how many failed.
     */
    method CreateEvents(eventsData: seq<Event>, create: Event -> Option<ApiEvent>) returns (created: seq<Event>, success: nat, fail: nat)
      modifies this
      ensures success + fail == |eventsData| && success == |created|
      ensures created == CreatedFrom(eventsData, create)
      ensures calendarEvents == old(calendarEvents) + created
      ensures messages == old(messages) + [Note(Tally(success, fail))]
      ensures recentlyCreated == old(recentlyCreated) && token == old(token)
      ensures storage == old(storage) && isAuthenticated == old(isAuthenticated)
    {
      success, fail := 0, 0;
      created := [];
      var i := 0;
      while i < |eventsData|
        invariant 0 <= i <= |eventsData|
        invariant created == CreatedFrom(eventsData[..i], create)
        invariant success == |created| && success + fail == i
        invariant calendarEvents == old(calendarEvents) + created
        invariant messages == old(messages) && recentlyCreated == old(recentlyCreated) && token == old(token)
        invariant storage == old(storage) && isAuthenticated == old(isAuthenticated)
      {
        assert eventsData[..i + 1][..i] == eventsData[..i];
        var result := create(eventsData[i]);
        if result.Some? {
          var made := FromApi(result.value);
          calendarEvents := calendarEvents + [made];
          created := created + [made];
          success := success + 1;
        } else {
          fail := fail + 1;
        }
        i := i + 1;
      }
      assert eventsData[..i] == eventsData;
      messages := messages + [Note(Tally(success, fail))];
    }

    /**
     * What `processMessage` does with an answer that is not a delete reply
     * and needs no decision: with a token, the events not flagged as
     * conflicting are created and lead the recently created list (at most
     * three); without one the user is asked to connect the calendar.
     */
    method ActOnResponse(r: ClientResponse, create: Event -> Option<ApiEvent>)
      modifies this
      ensures (r.intent == "delete" && r.eventsToDelete.Some?) || (r.requiresUserDecision && r.hasConflicts) ==>
                calendarEvents == old(calendarEvents) && recentlyCreated == old(recentlyCreated) && messages == old(messages)
      ensures !((r.intent == "delete" && r.eventsToDelete.Some?) || (r.requiresUserDecision && r.hasConflicts)) ==>
                if r.eventsData.Some? && r.eventsData.value != [] && old(token) != "" then
                  var toCreate := Turns.NonConflicting(r.eventsData.value);
                  var created := CreatedFrom(toCreate, create);
                  if toCreate == [] then
                    calendarEvents == old(calendarEvents) && recentlyCreated == old(recentlyCreated) && messages == old(messages)
                  else
                    && calendarEvents == old(calendarEvents) + created
                    && recentlyCreated == RecentAfter(created, old(recentlyCreated))
                    && messages == old(messages) + [Note(Tally(|created|, |toCreate| - |created|))]
                else if r.eventsData.Some? && old(token) == "" then
                  calendarEvents == old(calendarEvents) && recentlyCreated == old(recentlyCreated)
                  && messages == old(messages) + [Note(ConnectCalendar)]
                else
                  calendarEvents == old(calendarEvents) && recentlyCreated == old(recentlyCreated) && messages == old(messages)
      ensures forall e :: e in calendarEvents && e !in old(calendarEvents) ==> !e.hasConflict
      ensures token == old(token) && storage == old(storage) && isAuthenticated == old(isAuthenticated)
    {
      if r.intent == "delete" && r.eventsToDelete.Some? {
        // waiting for the user's confirmation
      } else if r.requiresUserDecision && r.hasConflicts {
        // waiting for the user's decision
      } else if r.eventsData.Some? && r.eventsData.value != [] && token != "" {
        var toCreate := Turns.NonConflicting(r.eventsData.value);
        if toCreate != [] {
          var created, _, _ := CreateEvents(toCreate, create);
          recentlyCreated := RecentAfter(created, recentlyCreated);
        }
      } else if r.eventsData.Some? && token == "" {
        messages := messages + [Note(ConnectCalendar)];
      }
    }
  }
}
