/**
 * server/routes/speech.js: the newer `/process` handler. It delegates delete
 * matching and calendar context to clearmind/server/utils/dates.js, skips the
 * conflict check when the user has no events, and reports a conflict by the
 * event's top-level `conflictsWith`.
 *
 * Collaborators are inputs: the delete analysis, the combined intent and
 * extraction result, the events as returned by the conflict check (`None`
 * when it threw or returned no `events` list), whether the text asks for
 * calendar context, the time zone, and the empathetic reply (`None` when
 * that call threw).
 */
module ServerSpeech {
  import opened Common
  import opened Events
  import opened Turns
  import Dates

  /** The combined intent and extraction result; `events` is `None` when absent. */
  datatype Analysis = Analysis(intent: string, confidence: real, hasCalendarData: bool, events: Option<seq<Event>>)

  /** `events.map(e => ({ ...e, hasConflict: false }))`. */
  function ClearConflictFlags(events: seq<Event>): (r: seq<Event>)
    ensures |r| == |events|
    ensures forall i :: 0 <= i < |r| ==> r[i] == events[i].(hasConflict := false)
  {
    seq(|events|, i requires 0 <= i < |events| => events[i].(hasConflict := false))
  }

  /** The events whose validity and conflicts are examined. */
  function Tagged(existingEvents: seq<Event>, events: seq<Event>, checked: Option<seq<Event>>): Option<seq<Event>>
  {
    if |existingEvents| > 0 then checked else Some(ClearConflictFlags(events))
  }

  predicate TakesEventPath(a: Analysis)
  {
    a.intent == "event" && a.hasCalendarData && a.events.Some? && |a.events.value| > 0
  }

  function ConflictMessage(conflicting: seq<Event>, withoutConflict: nat): (m: Message)
    requires conflicting != []
    ensures |conflicting| == 1 ==> m == AddAnywayOne(withoutConflict, conflicting[0], conflicting[0].conflictsWith)
    ensures |conflicting| > 1 ==> m == AddAnywayMany(withoutConflict, |conflicting|)
  {
    if |conflicting| == 1 then AddAnywayOne(withoutConflict, conflicting[0], conflicting[0].conflictsWith)
    else AddAnywayMany(withoutConflict, |conflicting|)
  }

  /** The event path once the events to examine are known (`None`: the inner `try` caught). */
  function EventPath(base: Response, tagged: Option<seq<Event>>): (r: Response)
    requires base.eventData.None? && base.eventsData.None? && !base.hasConflicts
    requires base.conflicts == [] && !base.requiresUserDecision
    ensures r.confidence == base.confidence && r.audioRequired == base.audioRequired
    ensures tagged.None? || ValidEvents(tagged.value) == [] ==>
              r == base.(intent := "unclear", message := NeedMoreDetail)
    ensures tagged.Some? && ValidEvents(tagged.value) != [] ==>
              var valid := ValidEvents(tagged.value);
              && r.intent == base.intent
              && r.eventsData == Some(valid)
              && r.hasConflicts == r.requiresUserDecision == (Conflicting(valid) != [])
              && r.conflicts == Conflicting(valid)
              && (r.hasConflicts ==>
                    && r.eventData.None?
                    && r.message == ConflictMessage(Conflicting(valid), |NonConflicting(valid)|))
              && (!r.hasConflicts ==>
                    && r.eventData == Some(valid[0])
                    && r.message == (if |valid| == 1 then WillAddOne(valid[0]) else WillAddCount(|valid|)))
  {
    var unclear := base.(intent := "unclear", message := NeedMoreDetail);
    if tagged.None? then unclear
    else
      var valid := ValidEvents(tagged.value);
      if valid == [] then unclear
      else
        var conflicting := Conflicting(valid);
        if conflicting != [] then
          base.(hasConflicts := true, requiresUserDecision := true, conflicts := conflicting,
                message := ConflictMessage(conflicting, |NonConflicting(valid)|), eventsData := Some(valid))
        else
          base.(message := if |valid| == 1 then WillAddOne(valid[0]) else WillAddCount(|valid|),
                eventsData := Some(valid), eventData := Some(valid[0]))
  }

  /** The calendar context for the empathy call: not asked for, built, or the build threw. */
  datatype ContextOutcome = Skipped | Built(context: Dates.CalendarContext) | Threw

  function ContextFor(text: string, needsContext: bool, existingEvents: seq<Event>, z: Dates.Zone): (c: ContextOutcome)
    ensures c == Skipped <==> !needsContext
    ensures c == Threw <==> needsContext && existingEvents != [] && !Dates.StartsAreDates(existingEvents)
    ensures c.Built? ==> Dates.BuildCalendarContext(text, existingEvents, z) == Some(c.context)
    ensures c.Built? ==> c.context.count <= Dates.MaxContextEvents && (existingEvents == [] ==> c.context.isEmpty)
  {
    if !needsContext then Skipped
    else
      match Dates.BuildCalendarContext(text, existingEvents, z)
      case Some(context) => Built(context)
      case None => Threw
  }

  /** The analysis sends the turn to the empathy path (`events` present but empty included). */
  predicate TakesEmpathyPath(a: Analysis)
  {
    !(a.intent == "event" && a.hasCalendarData && (a.events.None? || |a.events.value| > 0))
  }

  /** The whole `/process` handler. */
  function Process(
    text: Option<string>, existingEvents: seq<Event>,
    deleteAnalysis: DeleteAnalysis, analysis: Analysis, checked: Option<seq<Event>>,
    needsContext: bool, z: Dates.Zone, empathy: Option<string>): (r: Reply)
    ensures !ValidText(text) ==> r == BadRequest
    ensures ValidText(text) && TakesDeleteBranch(deleteAnalysis) ==>
              r == DeleteReplyFor(deleteAnalysis.eventToDelete,
                     Dates.FindMatchingEvents(deleteAnalysis.eventToDelete, Some(existingEvents)))
    ensures r.DeleteReply? ==> ValidText(text) && TakesDeleteBranch(deleteAnalysis)
    ensures ValidText(text) && !TakesDeleteBranch(deleteAnalysis) ==>
              var base := Initial(analysis.intent, analysis.confidence);
              && (analysis.intent == "event" && analysis.hasCalendarData && analysis.events.None? ==> r == Failed)
              && (TakesEventPath(analysis) ==>
                    r == Processed(EventPath(base, Tagged(existingEvents, analysis.events.value, checked))))
              && (TakesEmpathyPath(analysis) ==>
                    var context := ContextFor(text.value, needsContext, existingEvents, z);
                    && (r == Failed <==> context == Threw || empathy.None?)
                    && (r != Failed ==>
                          r == Processed(base.(message := Empathy(empathy.value,
                                 if context.Built? then Some(context.context) else None)))))
    ensures r.Processed? ==>
              && r.response.confidence == analysis.confidence && r.response.audioRequired
              && (r.response.intent == analysis.intent || r.response.intent == "unclear")
    ensures r.Processed? && r.response.eventsData.Some? ==> TakesEventPath(analysis)
  {
    if !ValidText(text) then BadRequest
    else if TakesDeleteBranch(deleteAnalysis) then
      DeleteReplyFor(deleteAnalysis.eventToDelete,
        Dates.FindMatchingEvents(deleteAnalysis.eventToDelete, Some(existingEvents)))
    else
      var base := Initial(analysis.intent, analysis.confidence);
      if analysis.intent == "event" && analysis.hasCalendarData && analysis.events.None? then
        // `analysis.events.length` throws outside the inner `try`
        Failed
      else if TakesEventPath(analysis) then
        Processed(EventPath(base, Tagged(existingEvents, analysis.events.value, checked)))
      else
        match ContextFor(text.value, needsContext, existingEvents, z)
        case Threw => Failed
        case Skipped => if empathy.None? then Failed else Processed(base.(message := Empathy(empathy.value, None)))
        case Built(context) => if empathy.None? then Failed else Processed(base.(message := Empathy(empathy.value, Some(context))))
  }

  /**
   * With no existing events every event is tagged as free, so whatever the
   * extraction said, no conflict is reported.
   */
  lemma NoExistingEventsNoConflicts(base: Response, events: seq<Event>, checked: Option<seq<Event>>)
    requires base.eventData.None? && base.eventsData.None? && !base.hasConflicts
    requires base.conflicts == [] && !base.requiresUserDecision
    ensures var r := EventPath(base, Tagged([], events, checked));
            !r.hasConflicts && r.conflicts == [] && !r.requiresUserDecision
  {
    var cleared := ClearConflictFlags(events);
    assert forall e :: e in cleared ==> !e.hasConflict;
    NoFlagNoConflict(ValidEvents(cleared));
  }
}
