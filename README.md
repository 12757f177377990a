# ClearMind core, modelled in Dafny

ClearMind is a voice and text assistant that turns what a user says into
Google Calendar actions. This project models its rules:

- **Shared date helpers.** Matching a delete target against the user's events. Reading a time of day and a date range out of a query. Building the calendar context handed to the language model.
- **Two `/process` route handlers.** The older one and the newer one. Each decides between a delete reply, an event-creation reply with conflict handling, and an empathetic reply.
- **The family-groups routes.** Groups with admin and member roles, invitations with an expiry, and notifications with recipients and readers.
- **The browser app's non-UI rules.** Finding the event an update is about, moving an event while keeping its duration, creating a batch of events, reading a confirm or cancel answer to a delete question, and keeping the calendar token with a one-hour expiry.
- **The text-to-speech rate gate.** It sends at most one remote speech call per three seconds and falls back to the browser's own speech.

Language-model answers, calendar API outcomes, database-assigned ids and the
clock are all inputs to the model. An outcome that may fail is an `Option`,
where `None` means the call threw. Route handlers over stored state are
methods of a class whose fields are the stored collections. The browser
app's React state and the speech gate's module state are classes too.

Files:

- `common.dfy`: `Option`, subsequences, a filter and a first-index search with their laws.
- `text.dfy`: lower-casing, trimming, substring search, and decimal digits.
- `events.dfy`: the calendar event record.
- `dates.dfy`: the shared date helpers.
- `turns.dfy`: what the two route handlers share.
- `speech_clearmind.dfy`: the older handler.
- `speech_server.dfy`: the newer handler.
- `family_groups.dfy`: the family-groups routes.
- `client_app.dfy`: the browser app's rules.
- `tts.dfy`: the speech gate.

## Model

| member | source | states |
|---|---|---|
| Common.Filter | clearmind/server/utils/dates.js:71-78 | `Array.prototype.filter`: the result is a subsequence of the input and holds exactly the input's elements that satisfy the predicate |
| Common.FirstIndex | server/routes/familyGroups.js:83 | `findIndex`/`find`: `None` exactly when no element qualifies; otherwise the first qualifying position |
| Common.FilterPartition | server/routes/speech.js:119-120 | a filter and the filter by the negated predicate together hold every element exactly once |
| Text.ToLower | clearmind/server/utils/dates.js:69 | lower-casing keeps the length, changes exactly the capital letters, each to its small letter, and leaves no capital letter |
| Text.ToLowerIdempotent | clearmind/server/utils/dates.js:69 | lower-casing twice is lower-casing once |
| Text.ParseIntNatToString | clearmind/src/App.js:100 | `parseInt` of the decimal text of a natural number gives that number back |
| Dates.FindMatchingEvents | clearmind/server/utils/dates.js:58-79 | no match for a missing, non-string or empty target or an empty event list; otherwise exactly the events whose lower-cased title (falling back to summary) or description includes the lower-cased, trimmed target, or whose title the target includes, in order |
| Dates.UntitledEventMatchesEveryTarget | clearmind/server/utils/dates.js:74-77 | an event with neither title nor summary is matched by every valid target |
| Dates.BlankTargetMatchesEverything | clearmind/server/utils/dates.js:59-77 | a target made only of white space passes the guard and matches every event |
| Dates.DetectTimeOfDay | clearmind/server/utils/dates.js:226-238 | "morning" exactly when the query says morning or am; "afternoon" exactly when it says afternoon, pm, evening or night but not morning or am; never "evening" |
| Dates.DateRangeLabels | clearmind/server/utils/dates.js:85-154 | today, then tomorrow, then week take precedence with their own bounds and labels; "next week" is unreachable; otherwise the seven-day default |
| Dates.SelectForContext | clearmind/server/utils/dates.js:168-207 | exactly the events whose start lies in the inclusive range and, when asked, in the requested half of the day, in order |
| Dates.FilterEventsByDateRange | clearmind/server/utils/dates.js:160-221 | an absent or empty list gives no events; a non-empty list with a start that is not a date throws; otherwise one summary per selected event, in order |
| Dates.MorningAfternoonSplit | clearmind/server/utils/dates.js:185-203 | the morning and afternoon filters split the in-range events between them with nothing lost or duplicated |
| Dates.BuildCalendarContext | clearmind/server/utils/dates.js:247-303 | throws exactly when a start in a non-empty calendar is not a date; an empty calendar gives the empty context; otherwise at most the first ten filtered events, with the count, the emptiness flag, the range label and the time of day |
| Turns.DeleteReplyFor | clearmind/server/routes/speech.js:86-118 | every match is returned; confirmation is required exactly when there is a match; the reply asks for more detail, confirms the one match, or lists at most three of several |
| Turns.ValidEvents | clearmind/server/routes/speech.js:153 | exactly the events with a summary, a start and an end, in order |
| Turns.ConflictPartition | clearmind/server/routes/speech.js:159-160 | the conflicting and non-conflicting events together hold the valid events exactly once each |
| Turns.NoFlagNoConflict | server/routes/speech.js:108-120 | with no event flagged, nothing conflicts and every event is non-conflicting |
| ClearmindSpeech.LocalFindMatchingEvents | clearmind/server/routes/speech.js:53-63 | exactly the events whose lower-cased title or description includes the lower-cased target, without trimming, in order |
| ClearmindSpeech.EmptyTargetMatchesEverything | clearmind/server/routes/speech.js:53-63 | unlike the shared matcher, the empty target matches every event |
| ClearmindSpeech.ConflictMessage | clearmind/server/routes/speech.js:162-198 | one conflict offers the first two suggested alternatives exactly when there are any, and otherwise asks to add or cancel; several conflicts are listed one line each, the summary with what it conflicts with, in order |
| ClearmindSpeech.ConfirmationMessage | clearmind/server/routes/speech.js:200-215 | one event is confirmed by name; several by their total, the first three, and how many more |
| ClearmindSpeech.EventPath | clearmind/server/routes/speech.js:137-229 | failed extraction or conflict check, or no valid event, makes the reply unclear; conflicts need a decision and carry the conflict message; a conflict without details collapses to unclear; otherwise the first valid event is proposed with the confirmation message |
| ClearmindSpeech.Process | clearmind/server/routes/speech.js:69-244 | a missing or non-string text is rejected; above confidence 0.6 the delete branch answers (failing on a non-string target); otherwise an event intent with calendar data takes the event path, and any other fails exactly when the empathetic reply fails and else carries it without context |
| ClearmindSpeech.NoExistingEventsNoConflicts | clearmind/server/routes/speech.js:146-151 | with no existing events and unflagged extraction, no conflict is reported |
| ServerSpeech.ClearConflictFlags | server/routes/speech.js:110 | every event is kept in place with its conflict flag cleared |
| ServerSpeech.ConflictMessage | server/routes/speech.js:122-145 | one conflict names the event and its top-level `conflictsWith`; several give the count |
| ServerSpeech.EventPath | server/routes/speech.js:94-164 | no events or no valid event makes the reply unclear; conflicts need a decision and carry all valid events; otherwise the first valid event is proposed with a one or a count confirmation |
| ServerSpeech.ContextFor | server/routes/speech.js:170-197 | no context unless the text asks for one; the build throws exactly when a start in a non-empty calendar is not a date; a built context is the one `buildCalendarContext` returns for the text and the calendar, with at most ten events |
| ServerSpeech.Process | server/routes/speech.js:22-220 | a missing or non-string text is rejected; the delete branch uses the shared matcher; a missing event list on an event intent fails; a non-empty one takes the event path; otherwise the reply fails exactly when the context build throws or the empathetic reply fails, and else carries that reply with the context when one was built |
| ServerSpeech.NoExistingEventsNoConflicts | server/routes/speech.js:103-111 | with no existing events no conflict is ever reported, whatever the extraction flagged |
| FamilyGroups.FindGroup | server/routes/familyGroups.js:83 | `None` exactly when no group has the id; otherwise the first group that has it |
| FamilyGroups.FindMember | server/routes/familyGroups.js:91 | `None` exactly when no member has the email; otherwise the first member that has it |
| FamilyGroups.FindInvitation | server/routes/familyGroups.js:226-230 | `None` exactly when no invitation has the id; otherwise the first one |
| FamilyGroups.FindNotification | server/routes/familyGroups.js:410-414 | `None` exactly when no notification has the id; otherwise the first one |
| FamilyGroups.EmailsMembership | server/routes/familyGroups.js:510 | an email is in the member email list exactly when some member has it |
| FamilyGroups.LocalPart | server/routes/familyGroups.js:254 | a prefix of the email without '@', ending just before the first '@' when there is one |
| FamilyGroups.Joined | server/routes/familyGroups.js:252-263 | the new member has the invitee's email, role member and every preference on; the name is the given one, or else exactly the part of the email before the first `@` |
| FamilyGroups.Recipients | server/routes/familyGroups.js:340-351 | the sender is never a recipient; an email is a recipient exactly when a member with it wants this kind of notification |
| FamilyGroups.Others | server/routes/familyGroups.js:278 | exactly the member emails other than the sender's |
| FamilyGroups.UnknownKindReachesEveryone | server/routes/familyGroups.js:341-350 | a kind without a preference of its own reaches every other member, in member order |
| FamilyGroups.Merge | server/routes/familyGroups.js:450-453 | each preference sent replaces the stored one; each one not sent is kept |
| FamilyGroups.MergeIdempotent | server/routes/familyGroups.js:450-453 | sending the same preferences twice changes nothing the second time |
| FamilyGroups.WithReader | server/routes/familyGroups.js:420-423 | the reader is recorded at most once and nothing else changes |
| FamilyGroups.MarkReadIdempotent | server/routes/familyGroups.js:420-423 | marking as read twice is the same as once |
| FamilyGroups.SortByNewest | server/routes/familyGroups.js:393 | newest first, a permutation of the input |
| FamilyGroups.Newest | server/routes/familyGroups.js:393-394 | as many as requested or all, newest first, a sub-multiset of the input, and none left out is newer than one kept |
| FamilyGroups.NewestPrefix | server/routes/familyGroups.js:393-394 | a prefix of the newest-first order holds no more copies than the input, and nothing after it is newer |
| FamilyGroups.UnreadIn | server/routes/familyGroups.js:388-392 | exactly the notifications addressed to the user and not read by them, in order |
| FamilyGroups.WithoutMember | server/routes/familyGroups.js:500 | exactly the members with another email, in order |
| FamilyGroups.AdminSurvivesRemoval | server/routes/familyGroups.js:492-500 | with distinct emails, a removal the last-admin guard lets through leaves at least one admin |
| FamilyGroups.FamilyStore.ListGroups | server/routes/familyGroups.js:32-52 | rejected without an email; otherwise exactly the groups that have the user as a member, in order |
| FamilyGroups.FamilyStore.Create | server/routes/familyGroups.js:55-74 | rejected without a name, email or user name; otherwise the new group is appended |
| FamilyGroups.FamilyStore.Update | server/routes/familyGroups.js:77-107 | not found, forbidden to non-admins, or the group's name (only when non-empty), description (when sent) and update time change |
| FamilyGroups.FamilyStore.Delete | server/routes/familyGroups.js:110-141 | an admin of the first group with the id removes every group with it; otherwise nothing changes |
| FamilyGroups.FamilyStore.Invite | server/routes/familyGroups.js:144-193 | only an admin invites, never an existing member nor someone already pending for the group; a new pending invitation is appended; at most one pending invitation per group and invitee is preserved |
| FamilyGroups.FamilyStore.PendingInvitations | server/routes/familyGroups.js:196-217 | exactly the user's pending invitations that expire after now, in order |
| FamilyGroups.FamilyStore.Accept | server/routes/familyGroups.js:220-288 | only the invitee accepts a pending, unexpired invitation; the member is added, the invitation accepted and the others notified; the one-pending invariant is preserved |
| FamilyGroups.FamilyStore.Decline | server/routes/familyGroups.js:291-315 | only the invitee declines, from any status; the one-pending invariant is preserved |
| FamilyGroups.FamilyStore.Notify | server/routes/familyGroups.js:318-375 | only a member notifies; a notification is stored only when someone wants it, and never addresses the sender |
| FamilyGroups.FamilyStore.Unread | server/routes/familyGroups.js:378-401 | no user fails; otherwise the twenty newest (or all) of the user's unread notifications, each at most as often as stored, newest first, none left out newer than one returned |
| FamilyGroups.FamilyStore.MarkRead | server/routes/familyGroups.js:404-430 | only a recipient marks a notification read, and it is then no longer unread for them |
| FamilyGroups.FamilyStore.UpdatePreferences | server/routes/familyGroups.js:433-462 | the first member with the email gets the merged preferences; nothing else changes |
| FamilyGroups.FamilyStore.RemoveMember | server/routes/familyGroups.js:465-520 | a member leaves or an admin removes; the only admin cannot go; an unknown email fails; the remaining members are told, never the removed one |
| ClientApp.FindUpdateTarget | clearmind/src/App.js:219-236 | the update path needs confidence above 0.5; a non-string name crashes; the target is the first event, recent ones first, whose name includes the requested one or is included in it |
| ClientApp.RecentEventsFirst | clearmind/src/App.js:224 | a matching recently created event wins over every calendar event |
| ClientApp.UnnamedEventMatchesAnyName | clearmind/src/App.js:225-226 | an event with no summary and no title matches any requested name |
| ClientApp.Reschedule | clearmind/src/App.js:402-414 | without a new time the event stays; with one it starts then and keeps its duration; it fails exactly when the new time, either old time or the new end is not a valid date |
| ClientApp.ApplyToCalendar | clearmind/src/App.js:425-435 | entries with the id take the server's summary as title and summary and its times; the others are unchanged |
| ClientApp.ApplyToRecent | clearmind/src/App.js:437-446 | as for the calendar list, but the title is kept |
| ClientApp.RemoveById | clearmind/src/App.js:376 | exactly the events with another id, in order |
| ClientApp.Tally | clearmind/src/App.js:335-350 | all added exactly when none failed and some succeeded; partly added when both; trouble when none succeeded |
| ClientApp.FromApi | clearmind/src/App.js:316-323 | the local record takes the server's id, summary as title and summary, and times, and is not flagged |
| ClientApp.CreatedFrom | clearmind/src/App.js:312-333 | one record per accepted request, exactly the records the service returned, none flagged |
| ClientApp.CreatedFromPrefix | clearmind/src/App.js:312-333 | records are added in request order: a prefix of the requests yields a prefix of the records |
| ClientApp.RecentAfter | clearmind/src/App.js:265 | the first three of the new ones followed by the previous ones (fewer only when there are fewer) |
| ClientApp.ScanReply | clearmind/src/App.js:274-293 | only after a delete question; a confirm word deletes the first proposed event; otherwise a cancel word keeps it |
| ClientApp.DontDeleteItDeletes | clearmind/src/App.js:277-285 | as written, "Don't delete it" deletes the event |
| ClientApp.ScanReplyRefusalFirst | clearmind/src/App.js:277-291 | an answer with a cancel word never deletes; otherwise it agrees with the as-written scan |
| ClientApp.DontDeleteItKeeps | clearmind/src/App.js:277-291 | with refusals first, "Don't delete it" keeps the event |
| ClientApp.SavedToken | clearmind/src/App.js:96-104 | a token is restored only when both keys are set, and it is the stored one |
| ClientApp.SaveThenRestore | clearmind/src/App.js:130-139 | a saved token is restored exactly until one hour after the save |
| ClientApp.ClearedRestoresNothing | clearmind/src/App.js:142-146 | after clearing, nothing is restored |
| ClientApp.AppState.SaveToken | clearmind/src/App.js:130-148 | the token and its expiry are stored, or both keys removed; at every later time the restore agrees with the save |
| ClientApp.AppState.LoadSavedToken | clearmind/src/App.js:93-127 | a still-valid token is restored and the calendar reloaded; an expired or unreadable one is removed |
| ClientApp.AppState.DeleteEvent | clearmind/src/App.js:364-390 | no call without a token, an event or an id; success removes every entry with the id; failure only adds a notice |
| ClientApp.AppState.UpdateEvent | clearmind/src/App.js:392-467 | the request keeps the duration and picks the title; success updates both lists by id; failure only adds a notice |
| ClientApp.AppState.CreateEvents | clearmind/src/App.js:306-362 | every event is tried once; the accepted ones are appended in order; one notice tallies successes and failures |
| ClientApp.AppState.ActOnResponse | clearmind/src/App.js:254-272 | nothing while a delete or conflict decision is pending; with a token the non-conflicting events are created, lead the recent list and are tallied in one message; without one the user is asked to connect |
| Tts.TtsGate.SpeakWithBrowser | clearmind/src/services/ttsService.js:50-83 | with speech synthesis the text is spoken; without it speaking is off |
| Tts.TtsGate.Play | clearmind/src/services/ttsService.js:10-44 | the remote call is used exactly when three seconds have passed since the last one, and is then recorded; otherwise, or on failure, the browser speaks |
| Tts.TtsGate.Stop | clearmind/src/services/ttsService.js:88-92 | browser speech is cancelled and speaking is off |
| Tts.RemoteCallsSpaced | clearmind/src/services/ttsService.js:3-18 | any two recorded remote calls are at least three seconds per step apart |

## Left out

- Language-model calls (intent analysis, event extraction, conflict checking, empathetic replies, speech synthesis) are inputs; their prompts and parsing are not modelled.
- `formatDateTime`, `Intl`, `toLocaleString` and the reply templates are not modelled. A reply is the template chosen and the values put in it.
- `Date` arithmetic in the user's time zone is not modelled. The day bounds, the hour of a timestamp and the date labels come from a `Zone` value.
- Text.ToLower: maps only ASCII letters. JavaScript's `toLowerCase` also folds non-ASCII letters.
- Text.ParseInt: reads only an optional sign and decimal digits after leading spaces. JavaScript number precision above 2^53 is not modelled.
- db/schema.js is not part of this model. The records it builds (ids, the new group, an invitation's expiry) are parameters.
- Stored notifications start with an empty reader list and the current time.
- The database layer's reads and writes are not modelled. They become assignments to the store's fields, and their failures (500) are not modelled.
- Events.Stamp: `null` and `undefined` dates are both `Missing`, although `new Date(null)` is the epoch. So a `null` start makes the context build throw in the model; the source reads it as the epoch.
- FamilyGroups.AdminSurvivesRemoval: assumes member emails are distinct. The routes never add a member twice, but nothing enforces this.
- FamilyGroups.Group: a `null` description is the empty string.
- React batching and stale closures are not modelled. `setX(prev => ...)` is a direct update of the field.
- Speaking replies aloud from App.js (`isSpeaking`, `playTextToSpeech`) is left out.
- ClientApp.ScanReply: reads this turn's `eventsToDelete`, as the source does, not the previous turn's.
- Voice and speed selection, and the `/tts` routes, are not modelled.
- Tts.TtsGate.Play: the `audio.onerror` callback is the same as a failed remote call. `audio.onended` is the separate `PlaybackEnded` method.
- Tts.TtsGate.SpeakWithBrowser: the utterance's end and error callbacks are not modelled.

## Findings

| source | as written | input that shows it | evidently intended | confidence | as-written member | corrected member |
|---|---|---|---|---|---|---|
| clearmind/src/App.js:277-291 | the confirm words are checked before the cancel words, and "delete it" is a confirm word | answering "Don't delete it" to "Would you like me to delete ...?" | an answer containing a refusal keeps the event | medium, not executed | ClientApp.DontDeleteItDeletes | ClientApp.DontDeleteItKeeps |
