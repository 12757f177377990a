/**
 * clearmind/server/routes/speech.js: the `/process` handler as a function from
 * the request and the collaborators' answers to the reply.
 *
 * The language-model calls are inputs: the delete analysis, the intent
 * analysis, the extracted events (`None` when extraction threw), the events
 * as returned by the conflict check (`None` when it threw or returned no
 * `events` list; only consulted when the user has existing events), and the
 * empathetic reply (`None` when that call threw).
 */
module ClearmindSpeech {
  import opened Common
  import opened Text
  import opened Events
  import opened Turns

  datatype IntentAnalysis = IntentAnalysis(intent: string, confidence: real, hasCalendarData: bool)

  /**
   * The route's own `findMatchingEvents`: the lower-cased title (no summary
   * fallback, no trimming) or description includes the lower-cased target.
   */
  function LocalFindMatchingEvents(eventToDelete: string, existingEvents: seq<Event>): (r: seq<Event>)
    ensures IsSubsequence(r, existingEvents)
    ensures forall e :: e in r <==>
              && e in existingEvents
              && (Contains(ToLower(e.title), ToLower(eventToDelete))
                  || Contains(ToLower(e.description), ToLower(eventToDelete)))
  {
    var term := ToLower(eventToDelete);
    Filter(existingEvents, (e: Event) => Contains(ToLower(e.title), term) || Contains(ToLower(e.description), term))
  }

  /** Unlike the shared matcher, the empty target is accepted here and matches every event. */
  lemma EmptyTargetMatchesEverything(existingEvents: seq<Event>)
    ensures LocalFindMatchingEvents("", existingEvents) == existingEvents
  {
    forall e | e in existingEvents
      ensures Contains(ToLower(e.title), ToLower(""))
    {
      ContainsEmpty(ToLower(e.title));
    }
    FilterKeepsAll(existingEvents,
      (e: Event) => Contains(ToLower(e.title), ToLower("")) || Contains(ToLower(e.description), ToLower("")));
  }

  /** The events after the conflict check: checked ones when there are existing events. */
  function Candidates(existingEvents: seq<Event>, extracted: seq<Event>, checked: Option<seq<Event>>): Option<seq<Event>>
  {
    if existingEvents != [] then checked else Some(extracted)
  }

  /**
   * Building the conflict message reads `conflictDetails.conflictsWith` of
   * every conflicting event; one without details throws a TypeError.
   */
  predicate ConflictMessageThrows(conflicting: seq<Event>)
  {
    exists c :: c in conflicting && c.conflictDetails.None?
  }

  function ConflictMessage(conflicting: seq<Event>, withoutConflict: nat): (m: Message)
    requires conflicting != [] && !ConflictMessageThrows(conflicting)
    ensures |conflicting| == 1 ==>
              var d := conflicting[0].conflictDetails.value;
              && (m.ConflictWithAlternatives? <==> d.suggestedAlternatives != [])
              && (m.ConflictWithAlternatives? || m.ConflictAddOrCancel?)
              && m.withoutConflict == withoutConflict && m.event == conflicting[0]
              && m.conflictsWith == d.conflictsWith
              && (m.ConflictWithAlternatives? ==>
                    && m.alternatives <= d.suggestedAlternatives
                    && |m.alternatives| == Min(2, |d.suggestedAlternatives|))
    ensures |conflicting| > 1 ==>
              && m.ConflictList? && m.withoutConflict == withoutConflict
              && m.count == |conflicting| && |m.pairs| == |conflicting|
              && forall i :: 0 <= i < |conflicting| ==>
                   m.pairs[i] == (conflicting[i].summary, conflicting[i].conflictDetails.value.conflictsWith)
  {
    if |conflicting| == 1 then
      var c := conflicting[0];
      assert c in conflicting;
      var d := c.conflictDetails.value;
      if |d.suggestedAlternatives| > 0 then
        ConflictWithAlternatives(withoutConflict, c, d.conflictsWith,
          d.suggestedAlternatives[..Min(2, |d.suggestedAlternatives|)])
      else ConflictAddOrCancel(withoutConflict, c, d.conflictsWith)
    else
      ConflictList(withoutConflict, |conflicting|,
        seq(|conflicting|, i requires 0 <= i < |conflicting| =>
          assert conflicting[i] in conflicting;
          (conflicting[i].summary, conflicting[i].conflictDetails.value.conflictsWith)))
  }

  function ConfirmationMessage(valid: seq<Event>): (m: Message)
    requires valid != []
    ensures |valid| == 1 ==> m == WillAddOne(valid[0])
    ensures |valid| > 1 ==> m.WillAddSeveral? && m.total == |valid| && m.listed <= valid
                            && |m.listed| == Min(3, |valid|)
                            && m.more == (if |valid| > 3 then |valid| - 3 else 0)
  {
    if |valid| == 1 then WillAddOne(valid[0])
    else WillAddSeveral(|valid|, valid[..Min(3, |valid|)], if |valid| > 3 then |valid| - 3 else 0)
  }

  /**
   * The event-creation path (intent "event" with calendar data). `base` is
   * the response as initialised from the intent analysis.
   */
  function EventPath(base: Response, existingEvents: seq<Event>, extracted: Option<seq<Event>>, checked: Option<seq<Event>>): (r: Response)
    requires base.eventData.None? && base.eventsData.None? && !base.hasConflicts
    requires base.conflicts == [] && !base.requiresUserDecision
    ensures r.confidence == base.confidence && r.audioRequired == base.audioRequired
    ensures extracted.None? || Candidates(existingEvents, extracted.value, checked).None? ==>
              r == base.(intent := "unclear", message := NeedMoreDetail)
    ensures extracted.Some? && Candidates(existingEvents, extracted.value, checked).Some? ==>
              var valid := ValidEvents(Candidates(existingEvents, extracted.value, checked).value);
              && (valid == [] ==> r == base.(intent := "unclear", message := NeedMoreDetail))
              && (valid != [] ==>
                    && r.hasConflicts == r.requiresUserDecision == (Conflicting(valid) != [])
                    && r.conflicts == Conflicting(valid)
                    && (r.hasConflicts && !ConflictMessageThrows(r.conflicts) ==>
                          && r.eventsData == Some(valid) && r.eventData.None? && r.intent == base.intent
                          && r.message == ConflictMessage(Conflicting(valid), |NonConflicting(valid)|))
                    && (r.hasConflicts && ConflictMessageThrows(r.conflicts) ==>
                          r.eventsData.None? && r.intent == "unclear" && r.message == NeedMoreDetail)
                    && (!r.hasConflicts ==>
                          && r.eventsData == Some(valid) && r.eventData == Some(valid[0]) && r.intent == base.intent
                          && r.message == ConfirmationMessage(valid)))
  {
    var unclear := base.(intent := "unclear", message := NeedMoreDetail);
    if extracted.None? then unclear
    else
      var candidates := Candidates(existingEvents, extracted.value, checked);
      if candidates.None? then unclear
      else
        var valid := ValidEvents(candidates.value);
        if valid == [] then unclear
        else
          var conflicting := Conflicting(valid);
          var nonConflicting := NonConflicting(valid);
          if conflicting != [] then
            var flagged := base.(hasConflicts := true, requiresUserDecision := true, conflicts := conflicting);
            if ConflictMessageThrows(conflicting) then
              flagged.(intent := "unclear", message := NeedMoreDetail)
            else
              flagged.(message := ConflictMessage(conflicting, |nonConflicting|), eventsData := Some(valid))
          else
            base.(message := ConfirmationMessage(valid), eventsData := Some(valid), eventData := Some(valid[0]))
  }

  /** The whole `/process` handler. */
  function Process(
    text: Option<string>, existingEvents: seq<Event>,
    deleteAnalysis: DeleteAnalysis, intentAnalysis: IntentAnalysis,
    extracted: Option<seq<Event>>, checked: Option<seq<Event>>, empathy: Option<string>): (r: Reply)
    ensures !ValidText(text) ==> r == BadRequest
    ensures ValidText(text) && TakesDeleteBranch(deleteAnalysis) ==>
              if deleteAnalysis.eventToDelete.None? then r == Failed
              else r == DeleteReplyFor(deleteAnalysis.eventToDelete,
                          LocalFindMatchingEvents(deleteAnalysis.eventToDelete.value, existingEvents))
    ensures r.DeleteReply? ==> ValidText(text) && TakesDeleteBranch(deleteAnalysis)
    ensures ValidText(text) && !TakesDeleteBranch(deleteAnalysis) ==>
              var base := Initial(intentAnalysis.intent, intentAnalysis.confidence);
              if intentAnalysis.intent == "event" && intentAnalysis.hasCalendarData then
                r == Processed(EventPath(base, existingEvents, extracted, checked))
              else
                && (r == Failed <==> empathy.None?)
                && (empathy.Some? ==> r == Processed(base.(message := Empathy(empathy.value, None))))
    ensures r.Processed? ==>
              && ValidText(text) && !TakesDeleteBranch(deleteAnalysis)
              && r.response.confidence == intentAnalysis.confidence && r.response.audioRequired
              && (r.response.intent == intentAnalysis.intent || r.response.intent == "unclear")
    ensures r.Processed? && r.response.message.Empathy? ==>
              !(intentAnalysis.intent == "event" && intentAnalysis.hasCalendarData)
              && empathy == Some(r.response.message.reply) && r.response.message.context.None?
  {
    if !ValidText(text) then BadRequest
    else if TakesDeleteBranch(deleteAnalysis) then
      // `eventToDelete.toLowerCase()` throws on a non-string
      if deleteAnalysis.eventToDelete.None? then Failed
      else
        var matches := LocalFindMatchingEvents(deleteAnalysis.eventToDelete.value, existingEvents);
        DeleteReplyFor(deleteAnalysis.eventToDelete, matches)
    else
      var base := Initial(intentAnalysis.intent, intentAnalysis.confidence);
      if intentAnalysis.intent == "event" && intentAnalysis.hasCalendarData then
        Processed(EventPath(base, existingEvents, extracted, checked))
      else if empathy.None? then Failed
      else Processed(base.(message := Empathy(empathy.value, None)))
  }

  /**
   * With no existing events no conflict check runs, so as long as the
   * extracted events do not carry the conflict flag themselves, the reply
   * reports no conflict.
   */
  lemma NoExistingEventsNoConflicts(base: Response, extracted: seq<Event>, checked: Option<seq<Event>>)
    requires base.eventData.None? && base.eventsData.None? && !base.hasConflicts
    requires base.conflicts == [] && !base.requiresUserDecision
    requires forall e :: e in extracted ==> !e.hasConflict
    ensures var r := EventPath(base, [], Some(extracted), checked);
            !r.hasConflicts && r.conflicts == [] && !r.requiresUserDecision
  {
    NoFlagNoConflict(ValidEvents(extracted));
  }
}
