# Verification of the OTP voice-call service

A Dafny model of the event-driven core of the service: the rate limiter, the call
store with its status machine, the AMI event handlers, the API operations, the two
dialplan programs, and the interleaving of all of these. `dafny verify dfyconfig.toml`
checks everything.

## How the model is built

- `RateLimiter.dfy`, `CallStore.dfy`, `EventHandler.dfy`, `Originator.dfy`, `Routes.dfy`
  and `Dialplan.dfy` follow the program: classes with the same fields, methods that change
  them step by step, loops where the program loops. Every method is proved to do what a
  specification function (or, for a channel lookup, the step relation `Next`) says.
- `LimiterRuns.dfy` compares whole runs of the limiter, any mix of checks and cleanups, with
  a log of admissions that is never pruned.
- `CallCommands.dfy` gives each event and background step as one command on the tables
  (`Next`) and as one move in the life of a single call (`Act`). `Projection.dfy` proves the
  tables to be the product of these small automata, so that no interleaving of calls can be
  told apart from each call running alone. `CallRuns.dfy` proves what runs keep about status
  and timeline, also statement by statement with handlers that act on stale records.
- `SplitUpdates.dfy` takes the guarded status update apart into its read and its write, with
  the statements of any other tasks in between, and says what the guard is then worth.
- `HandlerTasks.dfy` runs the handlers themselves as tasks that stop at every await, proves each
  to be its command when nothing disturbs it and every interleaving of them to be a run of split
  updates, and says exactly when a terminal status and the answered flag are then for good.
- `DialplanCalls.dfy` lets the dialplan's own trace drive the machine of commands among other
  calls. `SpokenCalls.dfy` follows a code from the request through the action's header and the
  dialplan to what is heard.
- `Service.dfy` is the whole service as a state machine: requests, retries split at their
  awaits (read, admit and insert, count), background calls split at theirs (acquire, mark, log,
  dial, finish, release, or die before the `try`), AMI events and both cleanups, in any order.
  `ServiceRuns.dfy` holds its invariants, `ServiceTheorems.dfy` what follows from them,
  `Capacity.dfy` what becomes of the concurrency limit, `PhoneNumbers.dfy` what becomes of the
  limit per number when one number has several keys, and `Scenarios.dfy` the reachable states
  that refute what does not hold. `RouteSteps.dfy` proves that what the routes do undisturbed is
  a run of that machine.

## Assumptions

- The clock does not go back. Time is `real` seconds. One admission (the three checks, the
  insert and the `queued` event) uses one clock reading, and so does one handled event; in the
  program the event's time is read again after the insert (src/storage/db.py:133-134, 183). The three checks and the row's
  timestamps have no suspension point between them: the lock is never held across an await
  (src/core/rate_limiter.py:43-67), so taking it never waits, and `create_call_record` reads the
  clock before anything it awaits can suspend it (src/storage/db.py:123-125).
- Outside `SplitUpdates` and `HandlerTasks`, `update_call_status` is one step although its read
  and its write are separate awaits (src/storage/db.py:151 and 169), and an AMI handler is one step,
  except in `CallRuns.TerminalSetIsAbsorbing` and `CallRuns.StaleHangupOverwritesIff`, where single
  statements interleave. What these two assumptions are worth is exactly what
  `HandlerTasks.TerminalIsForGoodIff` and `HandlerTasks.FlagIsForGoodIff` say.
- Events of one call logged at the same moment come back in insertion order, which the query's
  `ORDER BY at` (src/storage/db.py:189) does not itself promise.
- `per_number_calls` is at least 1: with 0 the refusal path indexes an empty list
  (src/core/rate_limiter.py:50).
- Request identifiers (UUIDs) are fresh: none was created or mentioned before.
- `Projection`, `CallRuns.HangupEndsTheCall` and `DialplanCalls.CutShortRunTerminates` take each
  channel name to be announced for one request; no other result needs that. When rows created at
  the same moment share a channel, the lookup may return any of them.
- Which characters count as decimal digits, the digit each stands for, and which are white space is
  a parameter. Python's `\d` accepts every Unicode decimal digit. The results on canonical numbers
  hold for every classifier that gives the ASCII digits their values.
- The manager interface splits the `Variable` header at commas, and a later setting of a name
  replaces an earlier one. Request identifiers have no comma.

## Where the documentation and the code disagree

- The limit per number is documented as calls to one number (API_DOCS.md:321). The key is the text
  of the number, and `\d` accepts digits of every script (src/core/validator.py:29-39), so a number
  typed in Persian and in ASCII digits has two keys and two histories. All spellings share one key,
  and the documented limit holds, exactly when no decimal outside ASCII is a digit:
  `Validation.OneKeyPerNumberIff`, `PhoneNumbers.LimitPerNumberHoldsIff`. What
  `ServiceTheorems.CallsPerNumber` bounds are the calls to a key.
- `is_terminal` is documented as "the status will not change further"
  (src/api/schemas.py:57, API_DOCS.md:123). It can change to another terminal status:
  `Scenarios.TerminalStatusCanChange`; exactly when is `CallRuns.TerminalIsFinalIff`.
- `update_call_status` says it will not overwrite a terminal status with a non-terminal one
  (src/storage/db.py:148). With its read and its write apart it can:
  `SplitUpdates.TerminalRowCanReopen`; exactly when is `SplitUpdates.TerminalUnlessStraddled`.
- A comment says a hangup cannot override a terminal status (src/ami/event_handler.py:154-157).
  A handler with a stale record turns a completion into a busy line:
  `CallRuns.StaleHangupOverwritesCompletion`; exactly when is `CallRuns.StaleHangupOverwritesIff`.
- `is_answered` is documented as "picked up at any point" (src/api/schemas.py:58). A failed
  originate with reason 4 sets it and a later failure clears it again:
  `Scenarios.AnswerCanBeTakenBack`; exactly when is `CallRuns.AnswerTakenBackIff`, and without
  such a failure it is for good as long as handlers run in one piece: `CallRuns.AnsweredStays`.
  Between the awaits it can also go and come back, because a status is written before it is logged:
  `HandlerTasks.FlagCanFlicker`; it is for good exactly when the timeline shows the answer:
  `HandlerTasks.FlagIsForGoodIff`.
- The documented concurrency limit (API_DOCS.md:322) is checked before a slot is taken. One
  request too many at one moment breaks any limit: `Capacity.CapacityCanBeExceeded`. From a given
  state it can break exactly when `Capacity.LimitCanBreakIffCrowded` says, over a behaviour there
  is room exactly when `Capacity.RoomThroughoutIff` says, and no configuration that lets calls in
  enforces it: `Capacity.LimitIsEnforcedIff`.
- The refusal message tells the caller how many seconds to wait; truncation can make that too
  short: `LimiterRuns.ReportedWaitCanBeTooShort`; it is enough exactly when the wait is whole.
- API_DOCS.md contradicts itself on `rejected`: line 115 lists it as retryable, line 308 names it as
  an example of what cannot be retried. The code retries it (src/storage/db.py:17), and the model
  follows the code.
- The code of a request is validated as digits, the code of a retry is not (src/api/schemas.py:69-71).
  One with a comma is accepted and not spoken, because the header that carries it is joined by
  commas: `SpokenCalls.RetryCodeCanGetLost`; exactly when is `SpokenCalls.CallSpeaksItsCodeIff`.

## Model

| member | source | states |
|---|---|---|
| `SlidingWindow.SinceKeepsExactly` | src/core/rate_limiter.py:47 | pruning keeps exactly the timestamps strictly after the window start, each as often as before |
| `RateLimiting.RateLimiter.CheckNumberLimit` | src/core/rate_limiter.py:41-55 | the check counts the retained history, admits below the limit and records the time, otherwise reports the truncated wait and writes nothing back |
| `RateLimiting.RateLimiter.CheckHourlyLimit` | src/core/rate_limiter.py:57-67 | the hourly list is pruned and written back on both paths, and grows only on admission |
| `RateLimiting.RateLimiter.Cleanup` | src/core/rate_limiter.py:90-101 | visiting the keys in any order leaves every history pruned, deletes exactly the emptied ones and prunes the hourly list |
| `RateLimiting.CleanedIs` | src/core/rate_limiter.py:90-101 | which histories a cleanup keeps, with which entries, and what is left of the hourly list |
| `RateLimiting.RateLimiter.ReleaseSlot` | src/core/rate_limiter.py:78-80 | a slot is returned, never below zero |
| `RateLimiting.RateLimiter.AvailableChannels` | src/core/rate_limiter.py:86-88 | what is left of the limit, or zero |
| `LimiterRuns.PruningIsInvisible` | src/core/rate_limiter.py:41-67 | after any run of checks and cleanups, every check answers as a log that was never pruned would |
| `LimiterRuns.PerNumberSafety` | src/core/rate_limiter.py:41-55 | for every number and every moment x, the interval (x - W, x] holds at most the allowed admissions, over whole runs |
| `LimiterRuns.HourlySafety` | src/core/rate_limiter.py:57-67 | the same for the hourly limit |
| `LimiterRuns.StoredListsStaySmall` | src/core/rate_limiter.py:90-101 | in every run each stored history has between one and the limit's number of entries, and the hourly list stays within its limit |
| `LimiterRuns.CleanupLeavesOnlyRecent` | src/core/rate_limiter.py:90-101 | after any run, a cleanup leaves a number tracked if and only if it has an entry in its window, and no entry outside its window |
| `LimiterRuns.RefusalIsExact` | src/core/rate_limiter.py:49-51 | a refusal finds a sorted history of exactly the limit's length, all of it in the log's window; the exact wait is positive and at most the window; the reported wait is it, truncated |
| `LimiterRuns.WaitIsNecessaryAndSufficient` | src/core/rate_limiter.py:44-55 | every check before the exact wait is over is refused; one after it with no admission between is accepted, whatever else ran |
| `LimiterRuns.ReportedWaitSufficesIffWhole` | src/core/rate_limiter.py:50 | waiting the reported seconds suffices if and only if the exact wait is a whole number |
| `LimiterRuns.ReportedWaitCanBeTooShort` | src/core/rate_limiter.py:50 | a concrete number told to wait 589 seconds and refused after them |
| `CallStorage.CallStore.UpdateCallStatus` | src/storage/db.py:138-174 | only given columns change, a missing row or a step back from terminal changes nothing and says so |
| `CallStorage.CallStore.CreateCallRecord` | src/storage/db.py:116-135 | a queued row with its expiry, and the first timeline event |
| `CallStorage.CallStore.GetCallByChannel` | src/storage/db.py:205-212 | finds a row of the channel created last, and none only if no row has the channel |
| `CallStorage.CallStore.IncrementRetryCount` | src/storage/db.py:215-224 | counts one on an existing row and returns the new count, or 0 |
| `CallStorage.CallStore.CleanupExpired` | src/storage/db.py:227-236 | deletes exactly the expired rows and the events without a row, and returns how many rows went |
| `CallStorage.ByTimeSorts` | src/storage/db.py:186-193 | the timeline query returns each event of the call once, in time order |
| `CallStorage.ByTimeKeepsSorted` | src/storage/db.py:186-193 | events logged in time order come back in the order logged |
| `CallCommands.Localised` | src/ami/event_handler.py:86-185 | every handled event, background step or cleanup leaves each call alone or moves it by its own automaton |
| `CallCommands.ChannelStep` | src/ami/event_handler.py:110-166 | an event on a channel moves the call the lookup found and no other |
| `Projection.NonInterference` | src/ami/event_handler.py:86-185 | with each channel announced for one request, in any interleaving the row and timeline of a call are what its own commands alone produce |
| `Projection.InterleavingIsIrrelevant` | src/storage/db.py:138-212 | two interleavings of the same per-call streams end with the same table and the same timelines |
| `SplitUpdates.TerminalUnlessStraddled` | src/storage/db.py:138-172 | over every run of reads, writes and other statements, a terminal row stays terminal while it lives if and only if no update to a non-terminal status was read before that and is written after it |
| `SplitUpdates.ReopenedAtStepIff` | src/storage/db.py:151-172 | a step of a run reopens a terminal row if and only if it writes a non-terminal status on a non-terminal read, and that read came before the row was terminal |
| `SplitUpdates.PendingWasRead` | src/storage/db.py:151-155 | in every run, whatever is about to be written passed its guard on the status the row had at an earlier step, with nothing else done by that writer since |
| `SplitUpdates.UndisturbedIsAtomic` | src/storage/db.py:138-174 | a read and its write with nothing in between are the guarded update in one step |
| `SplitUpdates.TerminalRowCanReopen` | src/storage/db.py:146-149 | a run from empty tables in which a playback event writes playing over the busy a hangup wrote |
| `HandlerTasks.UndisturbedIsCommand` | src/ami/event_handler.py:86-185 | a handler or background step run alone through its awaits has exactly the outcomes of its command in one step |
| `HandlerTasks.TasksAreSplitUpdates` | src/storage/db.py:151-172 | every interleaving of the handlers at their awaits is, state by state, a run of split updates |
| `HandlerTasks.TerminalIsForGoodIff` | src/storage/db.py:151-172 | between the awaits, a terminal call can still be reopened if and only if some task has already read for an update of it to a non-terminal status |
| `CallRuns.CommandIsStatements` | src/ami/event_handler.py:86-185 | a step of a handler or background call is possible if and only if it is its own list of statements, run in one piece with what a channel lookup may find |
| `CallRuns.StatementOrder` | src/ami/event_handler.py:94-185 | a response and a hangup are logged before the status is written, everything else after |
| `CallRuns.TerminalIsFinalIff` | src/storage/db.py:154-155 | over a run, from any state with a terminal row, its status is final while it lives if and only if no later command of that call is a failure or completion that differs from it, shared channels included |
| `Scenarios.TerminalStatusCanChange` | src/ami/event_handler.py:183-185 | wherever calls can be placed, the service reaches a failed call, reported terminal and retryable, that a late playback event completes |
| `CallRuns.HangupKeepsTerminalStatus` | src/ami/event_handler.py:150-152 | a hangup handled in one piece leaves the row of a terminal call as it was |
| `CallRuns.StaleHangupOverwritesIff` | src/ami/event_handler.py:131-166 | whatever statements run between its lookup and its write, a hangup changes the status of a row that is terminal by then if and only if the lookup saw a non-terminal status and the cause maps to another one than stored |
| `CallRuns.StaleHangupOverwritesCompletion` | src/ami/event_handler.py:154-157 | a run from empty tables in which a hangup turns the completion written by the playback event into busy |
| `CallRuns.HangupOutcomeIff` | src/ami/event_handler.py:28-43 | for a call that is not over, exactly which causes lead to each status, and the unlisted ones to completed if and only if the call was answered or playing |
| `CallRuns.HangupLeavesRetryableUnlessCompleted` | src/ami/event_handler.py:150-166 | after a hangup with any cause a call is terminal, and retryable unless completed or cancelled |
| `CallRuns.HangupEndsTheCall` | src/ami/event_handler.py:127-185 | once a channel is announced for a call, a hangup of it with any cause leaves the call terminal, whatever ran in between |
| `CallRuns.StatusIsBacked` | src/api/routes.py:25-33 | in every run, playing and completed calls have an answer in their timeline, and answered ones that or a failure with reason 4 |
| `CallRuns.AnsweredIffLogged` | src/api/routes.py:28-33 | in every state of every run without such a failure, `is_answered` holds if and only if the timeline shows an answer |
| `CallRuns.AnsweredStays` | src/api/routes.py:28-33 | over runs of whole handlers, a call once answered with no failure carrying reason 4 by then stays answered while its row lives |
| `CallRuns.AnswerTakenBackIff` | src/api/routes.py:28-33 | exactly which steps of a run of whole handlers turn `is_answered` from true to false, and that each such call has a failure with reason 4 |
| `HandlerTasks.FlagIsBacked` | src/ami/event_handler.py:97-185 | in every interleaving at the awaits, an answered status is backed by the timeline, by a failure with reason 4, or by a log entry some task has still to make |
| `HandlerTasks.FlagLostIff` | src/ami/event_handler.py:124-125 | exactly which moves of an interleaving turn `is_answered` from true to false, and that then a failure with reason 4 is logged or an answer is still to be logged |
| `HandlerTasks.FlagStays` | src/ami/event_handler.py:124-125 | an answered call with neither stays answered while its row lives, whatever interleaves |
| `HandlerTasks.FlagIsForGoodIff` | src/api/routes.py:28-33 | from any state, no interleaving can take the flag back if and only if the timeline shows the answer |
| `HandlerTasks.FlagCanFlicker` | src/ami/event_handler.py:175-178 | a run from empty tables, with no reason 4, in which a call is answered, then not, then again |
| `Scenarios.AnswerCanBeTakenBack` | src/ami/event_handler.py:97-103 | wherever calls can be placed, the service reaches a call that loses the flag |
| `CallRuns.PolledTimeline` | src/storage/db.py:177-193 | a polled timeline starts with queued, only grows while the row lives, and is in the order logged |
| `CallRuns.CleanupIsPrecise` | src/storage/db.py:227-232 | cleanup leaves surviving rows and timelines unchanged and no event without a row |
| `EventHandling.ActionIdRoundTrip` | src/ami/event_handler.py:57-62 | an action id leads back to a request if and only if it is the one made for it |
| `EventHandling.CauseRoundTrip` | src/ami/event_handler.py:136-140 | every cause value written in decimal is read back as itself |
| `EventHandling.SignedCause` | src/ami/event_handler.py:136-140 | a signed cause is read with its sign |
| `EventHandling.SpoiltCause` | src/ami/event_handler.py:136-140 | a number with anything but padding after it counts as no cause |
| `EventHandling.EventHandler.OnOriginateResponse` | src/ami/event_handler.py:86-103 | the message is decoded, logged, and changes the status only on failure |
| `EventHandling.ResponseMessage` | src/ami/event_handler.py:86-103 | what that handler may do, header by header: logged in the call of its action id, and a failing one gives the status of its reason unless that is a step back |
| `EventHandling.EventHandler.OnNewState` | src/ami/event_handler.py:110-125 | ringing and up move the call bound to the channel |
| `EventHandling.NewStateMessage` | src/ami/event_handler.py:110-125 | what that handler may do: ringing and up, in any case of letters, and nothing else, move and log the call found for the channel |
| `EventHandling.EventHandler.OnHangup` | src/ami/event_handler.py:127-166 | the hangup is logged, and maps the cause unless the call is over |
| `EventHandling.HangupMessage` | src/ami/event_handler.py:127-166 | what that handler may do, from the message: the cause it carries decides the status exactly as listed, a call that is over keeps its row |
| `EventHandling.EventHandler.OnUserEvent` | src/ami/event_handler.py:168-185 | the three dialplan events bind, start and complete |
| `EventHandling.UserEventMessage` | src/ami/event_handler.py:168-185 | what that handler may do: start answers and binds, playback start makes playing, completion completes even a call that was over, anything else does nothing |
| `Validation.StripIs` | src/core/validator.py:24 | white space is taken off both ends, all of it and nothing else |
| `Validation.AcceptedShapes` | src/core/validator.py:26-42 | the accepted numbers, character by character |
| `Validation.AcceptedSpellings` | src/core/validator.py:19-42 | a number is accepted if and only if it has one of the four spellings, never two, and its key is 09 with the same last nine characters |
| `Validation.SameKeyIffSameSuffix` | src/core/validator.py:19-42 | two accepted inputs share a key if and only if their last nine characters agree |
| `Validation.OneKeyPerNumberIff` | src/core/validator.py:29-39 | all accepted inputs that spell the same digits share one key if and only if every decimal is ASCII |
| `Validation.NormalizeIsIdempotent` | src/core/validator.py:19-42 | normalising a key gives the key |
| `Validation.SanitizeRemovesDangerous` | src/core/validator.py:67-69 | no dangerous character remains, and safe text is unchanged |
| `Validation.SanitizeKeepsTheRest` | src/core/validator.py:67-69 | each dangerous character is dropped and each other one kept in its place |
| `Validation.CanonicalSurvivesSanitize` | src/ami/originator.py:46 | the number dialled is the canonical number itself |
| `Dialplan.OtpPlayback` | asterisk/extensions_custom.conf:8-24 | terminates, and does exactly its script: opening, rounds and closing place by place |
| `Dialplan.OtpPlaybackCustom` | asterisk/extensions_custom.conf:29-51 | the nested loops terminate, and do exactly the script: in each round the intro and the digits from first to last |
| `Dialplan.CustomSpeech` | asterisk/extensions_custom.conf:36-49 | what is heard is intro and digits in order, as often as asked, then the goodbye once |
| `Dialplan.SystemSpeech` | asterisk/extensions_custom.conf:15-22 | the system-digits program is heard the same way |
| `Dialplan.CustomSays` | asterisk/extensions_custom.conf:36-49 | every place of what is heard: so many rounds of the intro and each digit in its place, then the goodbye and nothing else |
| `Dialplan.SystemSays` | asterisk/extensions_custom.conf:15-22 | the same of the system-digits program, SayDigits spelled out |
| `Dialplan.EventsInOrder` | asterisk/extensions_custom.conf:11-50 | both programs raise start, playing and complete once each, in this order |
| `Dialplan.ProgramsAgree` | asterisk/extensions_custom.conf:8-51 | with SayDigits spelled out, the two programs do the same, action for action |
| `DialplanCalls.ScriptCommands` | asterisk/extensions_custom.conf:11-50 | a script feeds the handler exactly its announcement, its playback start and its completion, in this order and at the times of their actions |
| `DialplanCalls.ScriptIsLogged` | src/ami/event_handler.py:168-185 | among any traffic the three are logged in order in the call's timeline; a call that is not over is answered and bound after the first and playing after the second; any call is completed after the third |
| `DialplanCalls.FullRunCompletes` | src/ami/event_handler.py:168-185 | a full dialplan run, among any traffic, completes its call whatever status it had, and the call stays completed if and only if no failure to originate is reported for it afterwards |
| `DialplanCalls.CutShortRunTerminates` | src/ami/event_handler.py:127-185 | a run cut off by a hangup anywhere after its announcement leaves its call terminal, whatever came before the announcement |
| `Originating.CallOriginator.Originate` | src/ami/originator.py:28-116 | which replies are accepted, every header of the action sent, that its variables split back if and only if the code has no comma, and that exactly the responses after the acknowledgment are forwarded in order |
| `Originating.HeaderSplitsBackIff` | src/ami/originator.py:66-69 | the joined variables split back into code, repeat and request if and only if the code has no comma |
| `Originating.ForwardedInOrder` | src/ami/originator.py:103-114 | exactly the responses among the later messages are handed on, in their order |
| `Originating.HandedOnAfterAck` | src/ami/originator.py:95-104 | only what follows a successful acknowledgment is handed on |
| `SpokenCalls.PlayedRuns` | asterisk/extensions_custom.conf:8-51 | the context names the program, which runs with the variables of the header |
| `SpokenCalls.CallSpeaksItsCodeIff` | src/ami/originator.py:56-70 | through header and dialplan, a call says the code it was placed with, digit by digit in order and as often as asked, if and only if that code has no comma; its events then name its request |
| `SpokenCalls.AdmittedCallSpeaksItsCode` | src/api/schemas.py:19-25 | a validated request is heard as it was made, every digit in its place |
| `SpokenCalls.RetryCodeCanGetLost` | src/api/routes.py:131-138 | any retryable call can be retried with a code that is accepted and not spoken |
| `Originating.DuplicateResponseIsHarmless` | src/ami/originator.py:104-114 | a response handled twice with nothing in between changes the row no further |
| `Originating.SecondCopyChangesIff` | src/ami/originator.py:104-114 | with anything in between, a second copy changes the status if and only if it fails, the status is no longer what the first left, and the guard lets it back; it then puts back what the first left |
| `Originating.SecondCopyCanUndoCompletion` | src/ami/event_handler.py:97-103 | a run from empty tables in which a second copy turns a completion back into busy |
| `Routes.GatesInOrder` | src/api/routes.py:67-77 | which check refuses, in their order, with which wait, and what each leaves in the limiter |
| `Routes.SendOtpCall` | src/api/routes.py:60-103 | the three checks in order, and a row and a background call exactly when all pass |
| `Routes.RetryCall` | src/api/routes.py:112-175 | a retry is refused as not retryable exactly outside six statuses, leaving everything as it was; otherwise with which number, code and repeat, and its effect on child and parent |
| `Routes.ExecuteCall` | src/api/routes.py:178-215 | a slot is held while dialling and returned, the action for this number, code and count is sent, and the tables go through marking, logging and the forwarded responses, the failure, or the internal error of what was raised |
| `RouteSteps.BackgroundCallOutcome` | src/api/routes.py:190-213 | the row and timeline of a queued call after its background call: failed with the internal error, failed with what was declined, or originating |
| `Routes.BuildStatusResponse` | src/api/routes.py:28-51 | for which statuses a call is reported terminal, and for which retryable; what the answered flag means, and the columns and timeline passed on |
| `Routes.FlagsAnnounceOperations` | src/api/routes.py:34-35 | a call is reported retryable if and only if a retry with a code is possible, and terminal if and only if a step back is refused |
| `Routes.PolledAfterHangup` | src/api/routes.py:34-35 | after a hangup with any cause the polled call is terminal, and retryable unless completed or cancelled |
| `Routes.AnsweredFlagIff` | src/api/routes.py:25-33 | a call is reported answered by three statuses or four kinds of entries |
| `Routes.GetCallStatus` | src/api/routes.py:223-231 | not found without a row; otherwise the row with all its events in time order, the answered flag being that of the call however its events are ordered |
| `RouteSteps.SendOtpCallIsAStep` | src/api/routes.py:60-103 | a request step of the service has exactly the effect of the route |
| `RouteSteps.RetryCallIsARun` | src/api/routes.py:112-175 | what the retry route does undisturbed, the service does in its retry steps |
| `RouteSteps.ExecuteCallIsARun` | src/api/routes.py:178-215 | whatever the background call may do undisturbed, with any reply and any responses handed on, the service does in its steps, and the slot comes back |
| `Service.TablesExecute` | src/api/routes.py:178-215 | every behaviour of the service is an execution of commands on its tables |
| `ServiceTheorems.CallsPerNumber` | src/api/routes.py:75-84 | first calls and retries together, no interval of the window's length sees more calls to a key than allowed |
| `PhoneNumbers.LimitPerNumberHoldsIff` | src/core/validator.py:29-39 | the limit on calls to a number, counted by its digits, holds in every window of every reachable state if and only if every decimal is ASCII |
| `ServiceTheorems.LiveRowBound` | src/storage/db.py:227-232 | right after an expiry the table is within the hourly limit, and each number within its own if the window outlasts the rows |
| `Scenarios.LiveRowBoundNeedsLongWindow` | src/storage/db.py:120-131 | with a shorter window the per-number bound fails for every limit |
| `ServiceTheorems.HistoriesWithinHourly` | src/core/rate_limiter.py:90-101 | right after a cleanup all per-number histories together fit in the hourly list, itself within its limit |
| `ServiceTheorems.RetryCountIsExact` | src/api/routes.py:150-156 | for every row present, retry count plus retries about to count equals its retries present, across expiry |
| `RouteSteps.RetryLoadIff` | src/api/routes.py:118-138 | a call can be read for a retry if and only if it is there, in one of six statuses, and a code is given or stored |
| `RouteSteps.CompletedRunIsNotRetried` | src/api/routes.py:122-127 | after a full dialplan run, until a failure is reported, a retry is refused for the call being completed |
| `ServiceTheorems.RetryForest` | src/api/routes.py:118-156 | every call leads by ever earlier parents to an original, all with one canonical number, every parent read for its retry in one of the six retryable statuses, and all parents present being terminal |
| `ServiceTheorems.RowsAreCanonical` | src/api/routes.py:75-84 | every row's number is canonical and survives sanitising |
| `ServiceTheorems.SlotsAreConserved` | src/api/routes.py:189-215 | the active count is the calls between acquire and release with those that died; a release never meets zero, and the count is zero if and only if no call holds a slot |
| `ServiceTheorems.DeadCallKeepsItsSlot` | src/api/routes.py:192-196 | a background call that raises before its `try` holds its slot for good |
| `Capacity.LimitCanBreakIffCrowded` | src/api/routes.py:67-103 | from a state of any behaviour, the active calls can exceed the limit with no other call let in if and only if active and waiting calls together exceed it now |
| `Capacity.RoomThroughoutIff` | src/core/rate_limiter.py:69-76 | over a behaviour, there is a slot for every admitted call throughout if and only if every admission happens with active and waiting calls together below the limit |
| `Capacity.LimitIsEnforcedIff` | src/core/rate_limiter.py:69-76 | the limit holds in every reachable state if and only if the configuration lets no call in at all |
| `Capacity.CapacityHoldsWhenPrompt` | src/api/routes.py:67-69 | if no admitted call is waiting at any admission, the concurrency limit holds and active plus available is the limit |
| `Capacity.CapacityCanBeExceeded` | src/api/routes.py:67-69 | for every limit, one request more than it at one moment leads to more active calls than it allows |
| `ServiceTheorems.TerminalForGood` | src/storage/db.py:151-155 | in every behaviour a terminal call stays terminal while it has a row |
| `ServiceTheorems.PolledCallsAreSound` | src/api/routes.py:223-231 | in every behaviour each call's status is backed by its timeline, which starts with queued at its creation and is in time order |
| `ServiceTheorems.AnsweredForGood` | src/api/routes.py:223-231 | in every behaviour with handlers in one piece, a call once answered with no failure carrying reason 4 by then stays answered while its row lives |

## Left out

- SendOtpCall, RetryCall, ExecuteCall, GetCallStatus: show one task with nothing interleaved; the interleavings of the first three are the steps of `Service.Advance`.
- ServiceTheorems.LiveRowBound: takes the admission and the insert at one clock reading; a delay between them would have to be subtracted from the window.
- ServiceTheorems.TerminalForGood: takes the guarded update as one step; with its read and write apart it holds exactly as `HandlerTasks.TerminalIsForGoodIff` says.
- ServiceTheorems.RetryForest: rests on the same, for the parents being terminal and for nothing else.
- CallRuns.TerminalSetIsAbsorbing: the same for single statements; its general form is `SplitUpdates.TerminalUnlessStraddled`.
- CallRuns.AnsweredStays: takes each handler as one step; with its awaits taken apart it needs what `HandlerTasks.FlagStays` says.
- CallRuns.AnswerTakenBackIff: the same; its form between the awaits is `HandlerTasks.FlagLostIff`.
- ServiceTheorems.AnsweredForGood: the same, in the service.
- ServiceTheorems.PolledCallsAreSound: gives the `queued` event the time of the row; in the program it may be later.
- Routes.ExecuteCall: what raises inside the `try` is the originator, before anything is sent; a failing statement there is not modelled.
- EventHandling.ParseCause: reads ASCII digits with a sign and padding; Python's `int` also takes underscores and other Unicode digits.
- Texts: the formatted detail and hangup-cause strings, the Persian messages, log lines and masked codes are kept as structured values or not at all.
- The AMI client's connection, login and reconnect (src/ami/client.py), which rest on a library outside the repository.
- HTTP routing and status codes, API keys and bcrypt, Pydantic plumbing beyond the two validators.
- SQLite itself: commits, indexes, WAL mode and schema migration; a failing statement appears only as the death of a background call, never inside a handler.
- Asterisk's own treatment of codes that are not all digits in SayDigits.
- Configuration, logging, start-up, sound generation and the installation scripts.
- Progress: that a call eventually becomes terminal depends on Asterisk delivering its events.
