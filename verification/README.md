# A verified model of the Telegram gateway

This project models, in Dafny, the parts of the gateway whose correctness rests on state: the durable
outbound queue and its sender, the projection of operation events into message renders, the dialogues and
one-time tokens behind buttons and links, the cleanup pass over them, notification admission, and three
self-contained algorithms (the rate limiter, the UTC timestamp conversion and the event-stream parser with its
lossy decoding).

How it is built:

- `Tables.dfy` holds the rows and the database as a value. `OutboundQueue`, `Acknowledgements`,
  `ProjectionAccept`, `Notifications`, `Interaction`, `CaptureProjection` and `Cleanup` give each
  transaction as a function on that value; `Delivery` gives what a sender decides between transactions.
- `Store.dfy` is the database handle as a class. It updates the tables in place, one method for each
  transaction, with loops where rows are ranked, minted or batched, and each method is proved equal to its
  function.
- `Machine.dfy` is the whole service: any number of sender workers, each holding only its claim between two
  transactions, a clock that never goes back, producers, users and the operator. Every transaction is one
  atomic step. The log of the run (sends applied by Telegram, claims, settlements, renders, releases) is what
  the whole-run theorems speak about.
- `Sender.dfy` is the dispatcher's loop over the database and the limiter, proved to be a run of the machine's
  single loop. The machine lets a worker go to the wire or wait at the gate as it likes, so what holds of its runs
  holds of any limiter; that the loop goes only when its limiter lets it is proved of the class.
- The other files prove properties of every run, by invariants that each step keeps, and say what single
  operations mean in terms of the rows: `ClaimOrder` of the claim, `Schedules` and `Aftermath` of delivery,
  `Choices`, `Presses` and `Dialogues` of the buttons, `Links` of the tokens, `Deferral` of admission,
  `CleanupComplete` of cleanup, and `Frames` and `Characters` of the stream.

Assumptions about the outside. Telegram applies a write when it acknowledges it, does not apply it when its
own answer refuses it, and may or may not apply it when the failure proves neither. Identities are fresh and
increasing. Configuration has been validated, so there is at least one attempt and a budget of at least one.

## What the code does not do

These are properties that fail, each proved with its exact condition, and with a concrete run where one is needed
to show that the condition is met.

- An edit that was downgraded is stored as a send. When it is retried, neither the supersede sweep nor the
  revision guard applies, and an older revision can reach Telegram after a newer one was shown. Over all runs of
  the single loop a stale render can be on the wire for exactly one kind of claim: a job enqueued as an edit,
  claimed as a send, not for the first time, and no operator's recovery
  (`StaleSend.StaleOnWireExactlyForRetriedDowngrades`, with the run
  `StaleSend.RetriedSendOvertakenByNewerRender`). Edit jobs, downgraded ones on their first pass included, and
  recoveries are always news when they go out (`Renders.GuardedRendersMoveForward`).
- The limiter's comment promises a refill at the configured rate. Any elapsed second refills the one-token
  bucket completely and nothing refills within a second, so the limiter admits one delivery a second whatever
  the budget (`Limiter.ProceedsExactlyWhenAllowed`).
- The backoff stops doubling after the thirty-first attempt (`Delivery.BackoffIsCappedExponential`).
- A day that its month does not have is accepted and runs on into the next month
  (`CivilDate.MissingDayRunsOn`). Signed clock fields are accepted; an accepted text has a time of day exactly
  when none of its hour, minute and second fields is a minus sign and a digit other than zero
  (`CivilDate.AcceptedTimeIsInRangeExactly`, with the witness `CivilDate.SignedTimeIsAccepted`).
- Equal quiet-hours bounds mean always quiet, yet a release time inside the window is given
  (`QuietHours.ReleaseEscapesExactlyDistinctBounds`). The schema refuses such bounds in a custom preference; the
  producer's hint reaches the computation without that check
  (services/dispatcher/src/notifications.rs:387-389).
- Each chunk of the progress stream is decoded on its own, so a chunk that ends inside a character changes the
  text. Chunking is invisible exactly up to that: decoding chunk by chunk equals decoding the whole if and only
  if no character spans a split (`Utf8.ChunksDecodeExactly`, `Sse.ChunkingIsInvisible`).
- Cleanup can end the recovery of a won confirmation. What the releasing update is told after a pass is
  determined exactly by the places of its token and its dialogue in the two queues
  (`Recovery.CleanupEndsRecovery`); for a dialogue not yet expired recovery survives if and only if at least a
  full batch of dead tokens comes before its own (`Recovery.UnexpiredRecoveryIsKeptExactly`, with the run
  `Recovery.RecoveryLostInARun`).

## Model

| member | source | states |
|---|---|---|
| AtMostOnce.SendAppliedAtMostOnce | crates/persistence/src/outbound_jobs.rs:600-632 | in every run, with any number of workers stalling or crashing anywhere, Telegram applies the send of one job at most once, downgraded edits included |
| Leases.OneLeasePerChat | crates/persistence/src/outbound_jobs.rs:343-416 | at every instant at most one job of a chat holds an unexpired lease |
| Leases.OnlyTheLatestClaimWrites | crates/persistence/src/outbound_jobs.rs:454-551 | a sender step changes only its own row and only as that job's latest claim; an outdated worker changes no table at all; each claim is settled at most once |
| Leases.ClaimsAreBounded | crates/persistence/src/outbound_jobs.rs:508-528 | a job enqueued as a send is claimed at most max_attempts times, any other at most that plus its lease expiries |
| Mirror.DecisionsMirrorJobs | crates/persistence/src/outbound_jobs.rs:574-632 | in every reachable state a decision is suppressed exactly when it has no job, jobs are not shared, and delivered, failed and unknown are read exactly when the job is in the matching state |
| OutboundQueue.HeadIsGlobalMinimum | crates/persistence/src/outbound_jobs.rs:350-388 | the two-stage choice (best of each chat, then best of those) is one global minimum of (rank, id) over the eligible jobs |
| OutboundQueue.HeadExists | crates/persistence/src/outbound_jobs.rs:350-388 | a claim has exactly one possible result: one head, or nothing when no job is eligible |
| ClaimOrder.ClaimsGoByClass | crates/persistence/src/outbound_jobs.rs:366-387 | a claim takes a due waiting job, or an edit whose lease ran out, of a chat with nothing in flight; notifications that waited five minutes go before direct messages, these before projections, these before other notifications, and within each the lowest id |
| ClaimOrder.ClaimTakesSomethingIfAny | crates/persistence/src/outbound_jobs.rs:350-388 | a claim comes away empty exactly when nothing is claimable |
| ClaimOrder.ClaimTouchesOnly | crates/persistence/src/outbound_jobs.rs:343-451 | a claim leases the job it takes under its next attempt, quarantines exactly the sends whose lease ran out, and leaves every other row alone |
| ClaimOrder.ClaimHandsOutTheRow | crates/persistence/src/outbound_jobs.rs:389-451 | the worker's snapshot is the row it claimed, under the attempt it was given |
| Fairness.StarvingComesFirst | crates/persistence/src/outbound_jobs.rs:366-387 | while a five-minute-old notification is eligible, every claim takes a notification of no larger id |
| Fairness.OvertakingIsBounded | crates/persistence/src/outbound_jobs.rs:350-388 | over any stretch in which it stays eligible, claims that pass it over number at most max_attempts times the live notifications with smaller ids |
| Fairness.WorkIsFinite | crates/persistence/src/outbound_jobs.rs:508-528 | over any run, claims and settlements together are at most twice max_attempts for each job ever enqueued, plus the leases that ran out |
| Fairness.UnfinishedWorkIsClaimable | crates/persistence/src/outbound_jobs.rs:350-416 | when no job is in flight and one is unfinished, letting time pass makes a claim of a waiting job possible |
| Fairness.PassIsShort | services/dispatcher/src/outbound/sender/process.rs:125-202 | a worker lets its claim go within eight of its own steps, and short of crashing always has a next step |
| Progress.EveryRunFinishes | services/dispatcher/src/outbound/sender/mod.rs:163-247 | every crash-free run of the single loop can be carried on, by the loop and the clock alone, to a state with no claim in hand and every job terminal; that it cannot go on forever instead, nor rest earlier, is the next two rows |
| Progress.BusyStepsAreBounded | services/dispatcher/src/outbound/sender/mod.rs:184-247 | a crash-free run of the single loop, failed and retried acknowledgements included, takes at most 18 times max_attempts sender steps for each job ever enqueued, idle claims aside |
| Progress.RestMeansEveryJobIsTerminal | services/dispatcher/src/outbound/sender/mod.rs:163-247 | such a run in which the loop is idle and no later clock value enables a claim has only terminal jobs |
| Progress.LoopStepsAreBounded | services/dispatcher/src/outbound/sender/mod.rs:184-247 | every run of the single loop, with crashes and given-up acknowledgements anywhere, takes at most 18 times max_attempts busy steps for each job ever enqueued and nine for each lease that ran out |
| Progress.CrashFreeRunsFinish | services/dispatcher/src/outbound/sender/process.rs:170-201 | with any number of workers, a run without crash or third failed acknowledgement whose workers are all done and that still has an unfinished job can claim again once time passes |
| Projection.RevisionsCountEvents | crates/persistence/src/projection_accept.rs:193-259 | under any interleaving the k-th recorded event of a binding gets revision k on a job of that binding, every queued revision is an assigned one, and an edit still ready carries the highest |
| Newest.NewestRenderIsNotWithdrawn | crates/persistence/src/projection_accept.rs:235-259 | with any number of workers a render is withdrawn only when a newer one was recorded or it is already shown, so the newest render is never lost to a withdrawal |
| Shown.FinishedRunsShowTheNewest | services/dispatcher/src/outbound/sender/process.rs:204-309 | with any number of workers and no crash, once all jobs are finished every binding shows its newest recorded event, unless that render's job was refused for good or quarantined |
| Projection.TerminalIsForever | crates/persistence/src/projection_accept.rs:78-147 | once a terminal event is recorded no run records another event for that binding |
| Projection.AcceptRefinesFold | crates/persistence/src/projection_accept.rs:86-146 | with redeliveries anywhere, each event id is judged once, the recorded events are the simple fold of the first judged arrivals, and watermark and terminal flag are those of the fold |
| Projection.RedeliveryIsIgnoredForever | crates/persistence/src/projection_accept.rs:86-102 | once an event id is in the inbox, its redelivery in any later state of any run changes nothing at all |
| Projection.UnboundLeavesNoTrace | crates/persistence/src/projection_accept.rs:94-102 | an event that finds no binding leaves the whole state as it was, so its redelivery is a first arrival |
| Projection.FirstArrivalIsJudgedOnce | crates/persistence/src/projection_accept.rs:86-146 | a first arrival with a binding has, in every continuation and whatever is redelivered, been judged exactly once and for that binding |
| Renders.RenderedNeverDecreases | crates/persistence/src/message_bindings.rs:166-190 | with any number of workers the stored rendered revision never decreases and is zero or an assigned one |
| Renders.GuardedRendersMoveForward | services/dispatcher/src/outbound/sender/process.rs:58-122 | with the single loop and crashes anywhere, every edit job put on the wire, as an edit or downgraded, carries an assigned revision strictly above the rendered one; an edit goes to the message its binding has at that moment, a downgrade means it has none, and a recovery is not stale |
| Renders.GuardIsExact | services/dispatcher/src/outbound/sender/process.rs:58-122 | the guard withdraws exactly an outdated recovery and an edit job without render, without binding, or not above the rendered revision; what passes goes to the binding's message, and is sent anew exactly when there is none |
| Renders.NoEditAfterTerminal | services/dispatcher/src/outbound/sender/process.rs:83-122 | once the terminal revision is rendered, no edit job of that binding, downgraded or not, reaches Telegram in any continuation |
| StaleSend.StaleOnWireExactlyForRetriedDowngrades | services/dispatcher/src/outbound/sender/process.rs:58-122 | over all runs of the single loop a stale render can be on the wire exactly for a job enqueued as an edit, claimed as a send, not for the first time, and no recovery |
| Downgrades.SendsWithRevisionAreDowngrades | crates/persistence/src/outbound_acknowledgements.rs:18-41 | with any number of workers, a claimed send that carries a revision and is no recovery was enqueued as an edit and has been claimed before |
| StaleSend.RetriedSendOvertakenByNewerRender | crates/persistence/src/outbound_acknowledgements.rs:18-41 | a concrete run, without crash or recovery, in which revision 1 goes on the wire as a send after revision 2 was rendered |
| Delivery.BackoffIsCappedExponential | services/dispatcher/src/outbound/sender/process.rs:337-356 | the saturating backoff stays between base and cap and equals the capped exponential exactly up to attempt 31, or beyond it when the cap is within thirty doublings |
| Schedules.BackoffIsJittered | services/dispatcher/src/outbound/sender/process.rs:337-356 | the pauses after a transient failure are exactly the grown delay and what lies less than its jitter share above it |
| Schedules.FloodPauseIsJittered | services/dispatcher/src/outbound/sender/process.rs:223-240 | the pauses after a flood limit are exactly the asked one, clamped to 32 bits, and what lies less than its jitter share above it |
| Schedules.FirstPhraseDecides | services/dispatcher/src/outbound/classify.rs:161-213 | a description means what the first of thirteen phrases in it means, and is transient without any |
| Schedules.EachFailureIsSettledAs | services/dispatcher/src/outbound/sender/process.rs:204-309 | the outcome of a failed call follows from Telegram's answer alone: refused for its reason, put back for the asked or the grown pause, or quarantined when a send carries no proof of refusal |
| Schedules.RecordedEventIsScheduled | crates/persistence/src/projection_accept.rs:263-299 | the edit job of a recorded event goes to the operation's lowest chat with the assigned revision, due at once when terminal and otherwise at the first moment outside the render interval; no other row's time moves |
| Schedules.RevisionIsNext | crates/persistence/src/projection_accept.rs:193-209 | the assigned revision is the first above the rendered one and above every revision that any row of the binding carries, withdrawn ones included |
| Schedules.RecordingWithdrawsOvertaken | crates/persistence/src/projection_accept.rs:235-259 | recording an event withdraws exactly the planned, ready and waiting edits of its binding with a lower revision |
| Schedules.EnqueuingWithdrawsOvertaken | crates/persistence/src/outbound_jobs.rs:635-678 | enqueuing a row with a revision withdraws exactly such edits, and one without withdraws nothing |
| Schedules.RecoverySendsTheSame | deploy/sql/recover-unknown-send.sql:1-61 | the operator's new row sends the same for the same chat, binding, dialogue and class, at once, and takes over exactly the decision of the quarantined one |
| Aftermath.FailedCallEndsAs | services/dispatcher/src/outbound/sender/process.rs:204-335 | from a failed wire call to its settlement: the state, error and next time of the row, by what the client reported, or dead at the attempt bound; no other row moves |
| Aftermath.RefusalMovesBinding | services/dispatcher/src/outbound/sender/process.rs:204-309 | after a refused edit the binding loses its message exactly when the refusal says it is gone, and a refusal that nothing changed counts as rendered |
| Aftermath.AcknowledgedCallIsBound | crates/persistence/src/outbound_acknowledgements.rs:149-193 | an acknowledged send is the binding's message, an edit leaves it; the rendered revision rises to the one carried and the render's time is noted exactly when it rises; no other binding moves |
| Aftermath.AcknowledgedCallIsSent | crates/persistence/src/outbound_acknowledgements.rs:53-103 | the row is sent under the acknowledged message without lease or error, exactly the decisions naming it read delivered, and nothing else moves |
| Aftermath.AcknowledgementIsFenced | crates/persistence/src/outbound_acknowledgements.rs:53-103 | an acknowledgement succeeds exactly as its row's latest claim in flight or when the row was sent under that message before, and each refusal names its reason |
| Aftermath.AcknowledgementRepeats | crates/persistence/src/outbound_acknowledgements.rs:53-103 | recorded once, the same message is accepted again without effect and any other is refused, whoever asks and whenever |
| Aftermath.WithdrawnRowIsSuperseded | services/dispatcher/src/outbound/sender/process.rs:58-122 | what the guard withdraws ends superseded, without a wire call or a moved binding |
| Outcomes.OneDialogueOneOutcome | crates/persistence/src/dialogues/repository_decision.rs:29-111 | in every run a dialogue is selected at most once, confirmed or cancelled at most once, never released after a cancel, always released as one action to one update, and completed at most once and only after a confirmation |
| Choices.ReleasesCarryTheChoice | crates/persistence/src/dialogues/repository_decision.rs:264-281 | in every run each release, first or recovered, carries the mode of the selection button that was pressed and the target of the preview, its account exactly for a star, and a key of that dialogue alone |
| Presses.SelectionIsExact | crates/persistence/src/dialogues.rs:760-846 | in every reachable state a press selects exactly when it is the owner's, in time, on an unused mode button of a preview that stands open, under the message both carry; the mode is the button's |
| Presses.DecisionIsExact | crates/persistence/src/dialogues/repository_decision.rs:29-111 | likewise a press confirms or cancels first exactly when it is rightful and the dialogue stands at its confirmation, and the button says which |
| Presses.AckStamps | crates/persistence/src/outbound_acknowledgements.rs:106-145 | an acknowledgement stamps exactly the waiting dialogue its claim names, in the claim's bot and chat, and every unused token of its current version |
| Presses.AcknowledgedPreviewCanBePressed | crates/persistence/src/outbound_acknowledgements.rs:53-145 | in every run, once a preview's acknowledgement is recorded the owner's press of any of its mode buttons under that message, before expiry, selects that mode |
| Presses.AcknowledgedConfirmationCanBePressed | crates/persistence/src/outbound_acknowledgements.rs:53-145 | once a confirmation's acknowledgement is recorded, the owner's press of confirm confirms and of cancel cancels |
| Dialogues.EveryModeCanBeCarriedThrough | crates/persistence/src/dialogues.rs:605-846 | every offered mode, pressed and confirmed by the owner under the stamped messages before expiry, is released as offered and its completion finishes the dialogue with its result |
| Dialogues.CompletionIsExact | crates/persistence/src/dialogues/repository_decision.rs:156-223 | in every reachable state a completion finishes exactly a submitting dialogue released to that update with its own result job, repeats harmlessly for that update, and otherwise changes nothing |
| Dialogues.TransitionIsExact | crates/persistence/src/dialogues.rs:437-529 | in every reachable state the generic step moves exactly what its owner names at its step and version, in time, within the same side of the confirmation; each refusal exactly for its reason, and a late step expires an active dialogue |
| Dialogues.SelectionRefusals | crates/persistence/src/dialogues.rs:279-301 | a refused press is refused for the first reason that applies and changes nothing, except that a late one ends an active dialogue as expired |
| Outcomes.RecoveryIsExact | crates/persistence/src/dialogues/repository_decision.rs:225-281 | a consumed token changes nothing and answers the confirmed action if and only if it is the confirm token under its own message and owner, by the update that won, while submitting; that action was released before, and so carries the choice; likewise for a finished dialogue; otherwise it is refused as consumed |
| Results.ResultsNumberCompletions | crates/persistence/src/dialogues/repository_decision.rs:156-223 | in every reachable state the result jobs of a dialogue number exactly its completions, at most one, exactly one for a finished dialogue, and each is still queued as a send naming it |
| CleanupInvisible.CleanupIsInvisible | crates/persistence/src/interaction_cleanup.rs:27-134 | with a clock that never goes back, a run with cleanup passes anywhere gives the same visible answers, with the same identities and in the same order, as the run without them |
| Recovery.CleanupEndsRecovery | crates/persistence/src/interaction_cleanup.rs:27-134 | where an update would have recovered its confirmation, its answer after a pass is given exactly by the places of token and dialogue in the two queues: invalid, consumed, or the same action |
| Recovery.UnexpiredRecoveryIsKeptExactly | crates/persistence/src/interaction_cleanup.rs:59-95 | for a dialogue not expired the answer is the same if and only if at least the limit of dead tokens comes before its own |
| Recovery.RecoveryLostInARun | crates/persistence/src/interaction_cleanup.rs:59-95 | a reachable state in which a won confirmation can be recovered and one pass ends that before the dialogue expires |
| CleanupComplete.FullPassKeepsUsableTokens | crates/persistence/src/interaction_cleanup.rs:59-95 | after a pass with room exactly the usable tokens and the links of followed operations are left, unchanged |
| CleanupComplete.FullPassKeepsLivingDialogues | crates/persistence/src/interaction_cleanup.rs:96-134 | after it exactly the dialogues are left that are not long over or that a kept button names, and the late ones are expired |
| Cleanup.FirstRowsIsBatch | crates/persistence/src/interaction_cleanup.rs:33-58 | a batch holds at most the limit, leaves rows behind only when full, and everything left sorts after everything taken |
| Ownership.FollowedOperationsKeepAnOwner | crates/persistence/src/capture_projection.rs:21-125 | in every run an operation bound by an accepted capture and not terminal has an owner, and however often it was replayed the capture made at most one acknowledgement job, whose row remains |
| Ownership.OwnerExactlyWithLink | crates/persistence/src/interaction_tokens.rs:524-537 | the owner lookup answers exactly when a deep link of the operation is stored, with the user of its newest link |
| Links.LinkOpensOnce | crates/persistence/src/interaction_tokens.rs:559-617 | a stored deep link releases its payload exactly to its owner, on its surface, under no message and before expiry, and then is consumed for everybody and for good |
| Links.CapturedLinkOpens | crates/persistence/src/capture_projection.rs:66-99 | after an accepted capture without a live link, the new link opens the captured operation's payload until its expiry |
| Links.CaptureIsExact | crates/persistence/src/capture_projection.rs:21-125 | a capture is accepted exactly when its job is its own plain message, its operation is not bound to another bot, and a live link is held or a new one expires later; otherwise nothing changes |
| Links.CaptureIsAcknowledgedOnce | crates/persistence/src/capture_projection.rs:101-124 | it enqueues its acknowledgement exactly when the operation has no message and no row ever acknowledged it |
| Links.IssuedLinkDecidesOwner | crates/persistence/src/interaction_tokens.rs:449-537 | with a clock that does not go back, whoever is issued a link becomes the operation's owner |
| Links.PreparedReadsAreReleased | crates/persistence/src/interaction_tokens.rs:309-446 | the i-th button of an enqueued page releases the i-th prepared analysis, exactly to its user and chat, once, and before expiry |
| Links.PageIsExact | crates/persistence/src/interaction_tokens.rs:309-352 | a page is enqueued exactly when every read on it is for its chat and bot and expires later; otherwise nothing is stored |
| Ownership.CaptureEstablishes | crates/persistence/src/capture_projection.rs:30-124 | after each accepted capture, replayed or not, the binding and a live link exist and the operation has a message or an acknowledgement job |
| Ownership.ReplayIsIdempotent | crates/persistence/src/capture_projection.rs:30-124 | replaying an accepted capture at once changes no table |
| CivilDate.DaysFromCivilIsDayNumber | services/dispatcher/src/projection/event.rs:203-213 | for every month of every year, negative years included, the era arithmetic with truncating division counts the days that plain Gregorian counting does |
| CivilDate.DaysFromCivilIncreases | services/dispatcher/src/projection/event.rs:203-213 | the conversion is strictly increasing and injective on calendar dates |
| CivilDate.SpelledInstantIsRead | services/dispatcher/src/projection/event.rs:158-201 | every well-formed UTC timestamp, with any fraction, is read as the instant it names |
| CivilDate.SpelledOrderIsKept | services/dispatcher/src/projection/event.rs:158-201 | the conversion keeps the order of well-formed timestamps to the second |
| CivilDate.MissingDayRunsOn | services/dispatcher/src/projection/event.rs:185-201 | a day from 1 to 31 converts to its own day number exactly when its month has it, and otherwise to a day of the next month |
| CivilDate.AcceptedTimeIsInRangeExactly | services/dispatcher/src/projection/event.rs:161-201 | an accepted text is read by its date and time, and has a time of day exactly when no clock field is a minus sign and a digit other than zero |
| CivilDate.SignedTimeIsAccepted | services/dispatcher/src/projection/event.rs:161-201 | the witness: hour, minute and second may be -1, and whatever stands before the final Z is skipped |
| QuietHours.ReleaseIsFirstMomentOutside | crates/persistence/src/notification_delivery.rs:291-307 | for distinct in-day bounds and any signed instant, the release is the least later instant outside the repeating window, under one day ahead, and absent exactly when already outside |
| QuietHours.ReleaseEscapesExactlyDistinctBounds | crates/persistence/src/notification_delivery.rs:291-307 | the release falls outside the window exactly when its bounds differ |
| QuietHours.AdmissionDefersExactlyQuietChats | crates/persistence/src/notification_delivery.rs:271-307 | for preferences the schema allows and a hint with distinct in-day bounds, a chat is deferred exactly when it is deliverable, not bypassed and inside its window, until the first moment outside |
| Deferral.EveryCandidateIsDecided | crates/persistence/src/notification_delivery.rs:170-256 | every candidate without a decision is decided by its own preference whatever the others; a deferred job is due exactly at its release time, an enqueued one at the admission time, a suppressed chat gets none |
| Deferral.AdmissionAnswers | crates/persistence/src/notification_delivery.rs:113-256 | a redelivered event changes nothing; otherwise every candidate has a decision, one is reported for each new one, and what was decided or queued before stays |
| Deferral.AdmissionFailsExactly | crates/persistence/src/notification_delivery.rs:170-307 | an admission fails exactly when it is new and the consulted preference of some candidate contradicts itself |
| Deferral.NoClaimBeforeRelease | crates/persistence/src/notification_delivery.rs:206-256 | in every run no claim takes the job of a decision before that decision's release time |
| Deferral.QuietChatsAreLeftAlone | crates/persistence/src/notification_delivery.rs:206-307 | a chat admitted inside its quiet window is not sent that notification before the first moment outside it, whatever happens in between |
| Limiter.ProceedsExactlyWhenAllowed | services/dispatcher/src/outbound/limiter.rs:97-125 | over whole call histories a delivery proceeds exactly when none proceeded in the same second, the last to its chat is an interval away, and every cooldown ever set for the chat has ended |
| Limiter.SpacingOverHistories | services/dispatcher/src/outbound/limiter.rs:97-209 | any two proceeds are in different seconds, two to one chat are the interval apart, and none precedes a deadline set before it |
| Limiter.HintOpensTheGate | services/dispatcher/src/outbound/sender/process.rs:130-140 | waiting the rounded-up hint with nothing sent opens the gate that denied; for a cooldown exactly when it ends within 32 bits of seconds |
| Limiter.HintIsShortest | services/dispatcher/src/outbound/sender/process.rs:130-140 | no shorter wait opens the chat gate or ends the cooldown that denied |
| Limiter.DeliveryLimiter.TryAcquire | services/dispatcher/src/outbound/limiter.rs:97-125 | decides by cooldown, chat gap and budget in this order, and spends a token and stamps the chat only when proceeding |
| Limiter.DeliveryLimiter.Penalize | services/dispatcher/src/outbound/limiter.rs:132-139 | raises the chat's deadline and never lowers it |
| Limiter.DeliveryLimiter.Refill | services/dispatcher/src/outbound/limiter.rs:146-159 | the first call only notes the second; any later second fills the bucket |
| Sse.ChunkingIsInvisible | crates/platform-api/src/stream.rs:71-109 | two splits of the same bytes at character boundaries hand out the same frames and frame errors, those of the bytes decoded whole up to the first terminal frame; the parsed text is that of the whole exactly for such splits |
| Utf8.ChunksDecodeExactly | crates/platform-api/src/stream.rs:71-73 | decoding chunk by chunk equals decoding the whole exactly when no character spans a split |
| Utf8.SplitIsExact | crates/platform-api/src/stream.rs:71-73 | for any bytes and any split, valid or not, the parts decode to the whole exactly when the split is a character boundary, and otherwise to more characters |
| Characters.EncodedTextIsRead | crates/platform-api/src/stream.rs:71-73 | every text encoded as UTF-8 is decoded to itself, so replacement characters stand only for bytes that no text encodes to |
| Sse.StreamDeliversScript | crates/platform-api/src/stream.rs:33-60 | the stream delivers every item of its body in order, with each transport failure where it happened, up to and including the first terminal frame |
| Sse.FramingIsInvisible | crates/platform-api/src/stream.rs:94-137 | whatever mixture of line feeds and carriage returns events are written with, the items are those of their lines, and an unfinished event adds nothing |
| Frames.LastSpellingWins | crates/platform-api/src/stream.rs:112-131 | the last line that spells the identifier or the name decides it |
| Frames.DataAreSpelled | crates/platform-api/src/stream.rs:112-131 | an event's data are exactly what its data lines spell, in their order |
| Frames.ProgressFrameIsReadBack | crates/platform-api/src/stream.rs:112-149 | a progress event written with any line endings is read back as a frame of its identifier, status word and payload, and is malformed exactly when one of them cannot be decoded |
| Frames.WordsAreRead | crates/platform-api/src/stream.rs:112-149 | each status is read from its own word alone, and exactly four words end the stream |
| Sse.CutInTwo | crates/platform-api/src/stream.rs:76-109 | cutting a prefix and then the rest with what was left of it cuts the whole |
| Sse.CompleteEvent | crates/platform-api/src/stream.rs:97-109 | finds the first blank-line terminator of either kind |
| Sse.ParseSseEvent | crates/platform-api/src/stream.rs:112-149 | reads the fields line by line: the last id and name win, data lines join, comments and other names are skipped |
| Sse.SseParser.Feed | crates/platform-api/src/stream.rs:71-73 | appends the chunk, lossily decoded on its own |
| Sse.SseParser.NextProgressFrame | crates/platform-api/src/stream.rs:76-91 | drains events up to and including the first frame or error |
| Sse.EventStream.Next | crates/platform-api/src/stream.rs:33-60 | the next frame, or nothing after the terminal frame or the end of the body |
| Sender.OutboundSender.RunUntilShutdown | services/dispatcher/src/outbound/sender/mod.rs:184-247 | every drain, whatever the wire, the clock and the database answer, ends in the tables of a run of the machine's single loop, holding no claim; its wire calls are in different seconds, the interval apart within a chat, and never before a cooldown set earlier, in this drain or before it |
| Sender.OutboundSender.RunOnce | services/dispatcher/src/outbound/sender/mod.rs:163-176 | one claim and its whole pass, with each clock reading and each failure before or after a commit, are machine steps; work reported means the claim let go of its row, no work means nothing is eligible, and a failed pass is an error |
| Sender.OutboundSender.Process | services/dispatcher/src/outbound/sender/process.rs:41-122 | the supersede guards act as the machine's guard step |
| Sender.OutboundSender.DeliverAndSettle | services/dispatcher/src/outbound/sender/process.rs:125-167 | a denied pass makes no wire call and puts the row back for the hint, counted from its settlement; one let through whose preparation succeeds makes exactly one, after asking for that chat; a flood limit is left with the limiter; all of it machine steps, failed transactions included, that leave no claim behind |
| Sender.OutboundSender.RecordKnownAck | services/dispatcher/src/outbound/sender/process.rs:170-201 | three tries of the idempotent acknowledgement; success means the job is stored as sent with that message |
| Sender.OutboundSender.ApplyFailure | services/dispatcher/src/outbound/sender/process.rs:204-309 | each failure class settles and follows up as the machine's settlement does, and exactly a flood limit is left with the limiter as a deadline counted from the call |
| Store.Database.InsertOutboundJob | crates/persistence/src/outbound_jobs.rs:635-678 | sweeps older waiting edits of the binding and adds one ready row |
| Store.Database.QuarantineExpiredSends | crates/persistence/src/outbound_jobs.rs:600-632 | every send whose lease ran out becomes unknown, with its decision |
| Store.Database.PickHead | crates/persistence/src/outbound_jobs.rs:350-388 | a scan finds the head that the two-stage choice defines, which ClaimOrder tells by delivery classes |
| Store.Database.ClaimDueOutboundJob | crates/persistence/src/outbound_jobs.rs:343-451 | quarantines, then leases the head under its next attempt and hands out its snapshot; ClaimOrder says which row that is and what stays |
| Store.Database.SettleOutboundJob | crates/persistence/src/outbound_jobs.rs:454-551 | settles the latest claim with its decision; any other claim is refused and changes nothing |
| Store.Database.SettleTerminal | crates/persistence/src/outbound_jobs.rs:681-705 | fenced by state and attempt: the latest claim's row becomes terminal and loses its lease, any other call matches no row |
| Store.Database.SettleRetry | crates/persistence/src/outbound_jobs.rs:508-528 | the same fence, and the dead-letter rule at the attempt bound |
| Store.Database.SettleNotification | crates/persistence/src/outbound_jobs.rs:574-598 | copies the job's state onto the decision that names it |
| Store.Database.PrepareOutboundMethod | crates/persistence/src/outbound_acknowledgements.rs:18-41 | stores the concrete method under the latest claim, or refuses |
| Store.Database.RecordOutboundAcknowledgement | crates/persistence/src/outbound_acknowledgements.rs:53-103 | one fenced, repeatable transaction: row, binding, dialogue stamp and decision; Aftermath and Presses say what each becomes |
| Store.Database.BindAcknowledged | crates/persistence/src/outbound_acknowledgements.rs:149-193 | binds a sent message, creating the binding if needed, and raises the rendered revision |
| Store.Database.AdvanceRenderedRevision | crates/persistence/src/message_bindings.rs:166-190 | raises the rendered revision, never lowers it |
| Store.Database.UnbindBoundMessage | crates/persistence/src/message_bindings.rs:225-248 | clears the message id or reports an unknown binding |
| Store.Database.AcceptOperationEvent | crates/persistence/src/projection_accept.rs:78-147 | duplicate, unbound, terminal and stale guards in order, then revision, sweep, edit job, terminal flag and watermark |
| Store.Database.LockLowestBinding | crates/persistence/src/projection_accept.rs:170-190 | the operation's binding with the lowest chat |
| Store.Database.ComputeNextRevision | crates/persistence/src/projection_accept.rs:193-209 | one more than every queued and every rendered revision of the binding |
| Store.Database.SweepOlderEdits | crates/persistence/src/projection_accept.rs:235-259 | withdraws exactly the older waiting edits of one binding |
| Store.Database.AdmitNotification | crates/persistence/src/notification_delivery.rs:113-256 | one decision and at most one job for each chat without one, as Deferral tells them; an inconsistent preference restores every table |
| Store.Database.DecideCandidates | crates/persistence/src/notification_delivery.rs:170-256 | the loop over the candidates, stopping at the first inconsistent preference |
| Store.Database.RecordAcceptedCapture | crates/persistence/src/capture_projection.rs:21-125 | missing binding, live link and acknowledgement job are added; contradictions are refused without effect |
| Store.Database.RecoverUnknownSend | deploy/sql/recover-unknown-send.sql:1-61 | a quarantined send gets one fresh row that takes over its class and decision |
| Store.Database.CreateRepositoryPreview | crates/persistence/src/dialogues.rs:605-676 | a preview with one selection token for each advertised capability |
| Store.Database.StampCallbackMessage | crates/persistence/src/dialogues.rs:682-724 | binds the message to an active early dialogue and to its unconsumed tokens of the current version |
| Store.Database.ConsumeRepositorySelection | crates/persistence/src/dialogues.rs:760-846 | one selection: token consumed, dialogue confirming, a confirm and a cancel token minted |
| Store.Database.ConsumeRepositoryDecision | crates/persistence/src/dialogues/repository_decision.rs:29-111 | one winner of confirm and cancel, or the recovery of a won confirmation; Choices says what the released action holds |
| Store.Database.CompleteRepositoryDialogue | crates/persistence/src/dialogues/repository_decision.rs:156-223 | finishes a submitting dialogue and enqueues its result in one transaction |
| Store.Database.TransitionDialogue | crates/persistence/src/dialogues.rs:437-529 | a versioned step with its refusals, noticing expiry first |
| Store.Database.ConsumeToken | crates/persistence/src/interaction_tokens.rs:559-617 | refusals in order, then one release of a deep link |
| Store.Database.ReadLibraryIntent | crates/persistence/src/interaction_tokens.rs:387-446 | one release of a library read to its own user and chat |
| Store.Database.IssueOperationLink | crates/persistence/src/interaction_tokens.rs:449-480 | stores one deep link |
| Store.Database.EnqueueLibraryReadJob | crates/persistence/src/interaction_tokens.rs:309-352 | stores every prepared read together with the message that shows them |
| Store.Database.CleanUpInteractions | crates/persistence/src/interaction_cleanup.rs:27-134 | three bounded phases: expire, delete dead tokens, delete retired dialogues |

## Left out

- PostgreSQL isolation levels, row locks, advisory locks and `skip locked`: each transaction is one atomic step.
- HTTP servers and clients, NATS, telemetry, metrics, start-up and signals; the wire call is any plausible answer.
- JSON, hashing, base64 and identifier grammars: the stream's decoders are parameters, tokens are numbers.
- Message texts and payloads; the result text of a completion is part of its job order and not represented.
- Operation-event envelopes other than their timestamp: only the conversion of the timestamp is modelled.
- Case folding of Bot API descriptions: they are taken in lower case.
- The 32-bit attempt counter; attempts are natural numbers.
- `mark_terminal`, `ensure_operation_binding`, `record_send_acknowledged`, `create_github_dialogue`, `issue_library_read_intent`, `find_live_operation_intent_by_operation` and `resolve_operation_intent`: plain reads, or writes that the modelled transactions contain.
- The update ledger, preference storage, the blob store, the access gate and the session cache: they would add only easy members.
- Sender.OutboundSender.RunOnce: nobody else acts during a pass; the machine's steps cover everybody else moving between any two of its transactions.
- Sender.OutboundSender.RunUntilShutdown: nobody else acts during the drain, and the wake channel, the admission fence and the queue-depth sample are not modelled; an idle wait is time passing, and shutdown comes after the given passes.
- Store.Database.AdmitNotification: takes the candidate rows in chat order; the query that joins identities, chats and preferences, and its limit of eight, is not modelled.
- Store.Database.RecoverUnknownSend: has no expected-state argument, because the operator's command accepts only `outcome_unknown` (deploy/bin/telegram-ops:156).
- Limiter.HintOpensTheGate: speaks of the gate that denied; another gate may still be closed then.
- Projection.AcceptRefinesFold: holds when callers outside the projection enqueue without a revision, as all callers in the services do.
- CleanupInvisible.CleanupIsInvisible: leaves out which refusal is given, repeated releases of a confirmed action, and stamps and completions of dialogues past their expiry; these can differ.
