/**
 * What the two `/process` handlers (clearmind/server/routes/speech.js and
 * server/routes/speech.js) have in common: the shape of a reply, the delete
 * branch, and the split of extracted events into valid, conflicting and
 * non-conflicting ones.
 *
 * Reply wording goes through `formatDateTime` and string templates; a reply's
 * text is modelled by which template was chosen and what was put in it.
 */
module Turns {
  import opened Common
  import opened Events
  import Dates

  /** The delete-intent collaborator's answer. */
  datatype DeleteAnalysis = DeleteAnalysis(isDeleteRequest: bool, eventToDelete: Option<string>, confidence: real)

  /** The template a reply text was built from, with what was put in it. */
  datatype Message =
    | NotFound(term: Option<string>)                          // "I couldn't find any events matching ..."
    | ConfirmDelete(event: Event)                             // "I found ... Would you like me to delete this event?"
    | ChooseDelete(total: nat, term: Option<string>, listed: seq<Event>)  // numbered list, "Which one ...?"
    | NeedMoreDetail                                          // "... I need a bit more detail ..."
    | ConflictWithAlternatives(withoutConflict: nat, event: Event, conflictsWith: string, alternatives: seq<Stamp>)
    | ConflictAddOrCancel(withoutConflict: nat, event: Event, conflictsWith: string)
    | ConflictList(withoutConflict: nat, count: nat, pairs: seq<(string, string)>)
    | AddAnywayOne(withoutConflict: nat, event: Event, conflictsWith: string)
    | AddAnywayMany(withoutConflict: nat, count: nat)
    | WillAddOne(event: Event)                                // "I'll add ... to your calendar for ..."
    | WillAddSeveral(total: nat, listed: seq<Event>, more: nat)
    | WillAddCount(total: nat)
    | Empathy(reply: string, context: Option<Dates.CalendarContext>)

  /**
   * The JSON body of a 200 reply on the non-delete path. `withoutConflict`
   * in a conflict message is the count of the "I can add N event(s) without
   * conflicts. However, ..." prefix, 0 when there is no prefix.
   */
  datatype Response = Response(
    intent: string,
    confidence: real,
    message: Message,
    eventData: Option<Event>,
    eventsData: Option<seq<Event>>,
    hasConflicts: bool,
    conflicts: seq<Event>,
    requiresUserDecision: bool,
    audioRequired: bool)

  datatype Reply =
    | BadRequest                                              // 400, text missing or not a string
    | Failed                                                  // 500, an exception escaped the handler
    | DeleteReply(message: Message, eventsToDelete: seq<Event>, requiresConfirmation: bool)
    | Processed(response: Response)

  /** The response a non-delete turn starts from, before any path fills it in. */
  function Initial(intent: string, confidence: real): (r: Response)
    ensures r.intent == intent && r.confidence == confidence && r.audioRequired
    ensures r.eventData.None? && r.eventsData.None? && !r.hasConflicts && r.conflicts == [] && !r.requiresUserDecision
  {
    Response(intent, confidence, NeedMoreDetail, None, None, false, [], false, true)
  }

  /** `!text || typeof text !== 'string'` rejects; `None` is a non-string. */
  predicate ValidText(text: Option<string>)
  {
    text.Some? && text.value != ""
  }

  const DeleteThreshold: real := 0.6

  predicate TakesDeleteBranch(d: DeleteAnalysis)
  {
    d.isDeleteRequest && d.confidence > DeleteThreshold
  }

  /**
   * The delete reply for a list of matches: no match asks for more detail and
   * needs no confirmation; one or more matches are all returned and need
   * confirmation, and a reply about several lists at most three of them.
   */
  function DeleteReplyFor(term: Option<string>, matches: seq<Event>): (r: Reply)
    ensures r.DeleteReply? && r.eventsToDelete == matches
    ensures r.requiresConfirmation <==> matches != []
    ensures matches == [] ==> r.message == NotFound(term)
    ensures |matches| == 1 ==> r.message == ConfirmDelete(matches[0])
    ensures |matches| >= 2 ==>
              && r.message.ChooseDelete? && r.message.total == |matches|
              && r.message.listed <= matches && |r.message.listed| == Min(3, |matches|)
  {
    if matches == [] then DeleteReply(NotFound(term), [], false)
    else if |matches| == 1 then DeleteReply(ConfirmDelete(matches[0]), matches, true)
    else DeleteReply(ChooseDelete(|matches|, term, matches[..Min(3, |matches|)]), matches, true)
  }

  /** `events.filter(e => e.summary && e.start && e.end)`. */
  function ValidEvents(events: seq<Event>): (r: seq<Event>)
    ensures IsSubsequence(r, events)
    ensures forall e :: e in r <==> e in events && IsComplete(e)
  {
    Filter(events, IsComplete)
  }

  predicate Flagged(e: Event) { e.hasConflict }
  predicate Unflagged(e: Event) { !e.hasConflict }

  /** `validEvents.filter(e => e.hasConflict)`. */
  function Conflicting(valid: seq<Event>): seq<Event>
  {
    Filter(valid, Flagged)
  }

  /** `validEvents.filter(e => !e.hasConflict)`. */
  function NonConflicting(valid: seq<Event>): seq<Event>
  {
    Filter(valid, Unflagged)
  }

  /**
   * The conflicting and non-conflicting lists are disjoint and together hold
   * exactly the valid events.
   */
  lemma ConflictPartition(valid: seq<Event>)
    ensures multiset(Conflicting(valid)) + multiset(NonConflicting(valid)) == multiset(valid)
    ensures forall e :: e in Conflicting(valid) <==> e in valid && e.hasConflict
    ensures forall e :: e in NonConflicting(valid) <==> e in valid && !e.hasConflict
  {
    FilterPartition(valid, Flagged, Unflagged);
  }

  /** When no event carries the conflict flag, nothing is conflicting. */
  lemma NoFlagNoConflict(valid: seq<Event>)
    requires forall e :: e in valid ==> !e.hasConflict
    ensures Conflicting(valid) == [] && NonConflicting(valid) == valid
  {
    FilterKeepsNone(valid, Flagged);
    FilterKeepsAll(valid, Unflagged);
  }
}
