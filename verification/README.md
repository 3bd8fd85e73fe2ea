# Phodex backend: a verified model of the task core

This project models the part of the Phodex backend where coroutines share rows and
memory, and proves what holds over every run of it. Three protocols are state
machines or drivers over unbounded input:

- **Event log and live tail** (`EventPipeline`, `EventService`). Any number of
  appenders, in any number of processes, write one task's numbered event log; any
  number of clients subscribe, read the backlog and follow the live queue. Without
  Redis an append delivers to the queues in the step that releases its lock; with
  Redis a delivery may come late, out of order, twice or never. `EventPipeline` cuts
  the coroutines at their suspension points. `EventService` has the same code as
  classes and loops.
- **Managed session driver** (`ManagedSession`, `ManagedSessionRunner`). The loop
  that follows a remote agent session through dropped streams, with history replay,
  deduplication by event id, a pending tool call, approval waits and queued
  follow-ups. `ManagedSession` is the driver as a function of its environment (what
  each stream delivers and when, what the history call answers, what the user
  decides); `ManagedSessionRunner` is the driver with its loops and mutable objects,
  proved equal to that function. `ManagedHistory` reads every run off the events
  it handled, `ManagedAttempts` says how it spends its attempts and its time,
  `ManagedRefinement` compares it with the uninterrupted run, `ManagedTranscript`
  says what it leaves for the user.
- **Approval gate** (`ApprovalGate`, `ApprovalResults`, `ApprovalRuns`,
  `ApprovalService`). One worker, any number of approve and reject requests and any
  number of cancels, interleaved over the approval rows, the task row and its locks,
  and the worker's in-memory state. `ApprovalGate` holds the state machine and its
  invariant, `ApprovalResults` what follows for every run, `ApprovalRuns` what can
  still happen from a given state, cancels above all. `ApprovalService` has the
  request path as methods over mutable rows; an uninterrupted call is proved to be
  its actions run in a row.

Beside them stand five smaller models: the fixed-window limiter (`RateLimiter`), the
event stream's wire format against the WHATWG parser (`SseFraming`), the secret
scrubber (`SecretScrubber`), GitHub references with their allowlist keys and
workspace directories (`RepoSource`), and the recursive message extractor for Codex
output (`CodexOutput`). `Prelude` holds what they share.

In the two state machines a schedule is any sequence of actions, and an action that
is not enabled leaves the state as it is, so a lemma about every schedule, or about
every reachable state, is about every interleaving.

## What the proofs found

- **Interrupted appends leave holes in live streams.** An append that is cancelled
  or raises after its commit and before its delivery is in the log and never in the
  queues. A stream without Redis is contiguous if and only if no append was so
  interrupted beyond what the stream's backlog covered
  (`EventPipeline.LiveTailIsContiguous`, with a run in
  `EventPipeline.InterruptedAppendLeavesGap`).
- **A failed history call loses events.** A run handles a prefix of the remote log
  exactly when every stream it takes an event from starts within what earlier
  streams and history answers have covered
  (`ManagedRefinement.KeepsToTheLogExactlyWhen`); a history call that raises covers
  nothing, and a run that then skips an event is in
  `ManagedRefinement.FailedHistoryLosesEvents`.
- **Subprocess engines never hear a rejection.** The base `handle_approval` requires
  WAITING_APPROVAL, and a rejection has already made the task FAILED; the worker
  waits for its timeout (`ApprovalResults.RejectionHeardOnlyByManaged`, with such a
  state reached in `ApprovalRuns.RejectionGoesUnheard`).
- **CANCELLED is not final.** It is overwritten by the worker's status writes and by
  the second commit of a rejection that was accepted before the cancel, each of them
  unguarded, and by nothing else (`ApprovalRuns.CancelledIsLostExactly`). It is final
  exactly once the worker is past its last status write and no rejection stands
  between its two commits (`ApprovalRuns.CancelledStaysExactlyWhen`); runs are in
  `ApprovalResults.CancelledIsNotFinal` and `ApprovalRuns.RejectionCommitsOverCancel`.
- **The limiter's bound is 2 * limit - 1**, not 2 * limit, in any interval of window
  length, and every limit reaches it (`RateLimiter.AdmissionIsBounded`,
  `RateLimiter.BoundIsReached`).
- **A secret made with asterisks can come back.** A single secret is removed from
  every line if and only if it neither starts nor ends with `*` nor contains `***`
  (`SecretScrubber.RemovedExactlyWhenMaskable`).
- **A repository called `.git`** written without a second suffix is accepted and has
  another allowlist key than its canonical URL, and so has every short reference
  (`RepoSource.KeyAgreesExactly`).
- **A "type" that is an array or an object makes the extractor raise**, exactly when
  the first node to say anything has one and nothing better to say
  (`CodexOutput.RaisesExactlyWhen`), hiding any message the value wraps
  (`CodexOutput.UnhashableTypeHidesTheMessage`).

## Model

| member | source | states |
|---|---|---|
| EventPipeline.CommittedNumbersAreGapless | backend/app/services/event_service.py:82-100 | for any number of concurrent appends in any number of processes, interrupted anywhere, the committed sequence numbers are exactly 1..n in commit order, the log only grows at its end, and callers that got an event each got a row of their own |
| EventPipeline.AdvanceKeepsLogInv | backend/app/services/event_service.py:88-99 | every piece of an append keeps the key invariant: whoever holds the row lock is the only one, and a maximum once read is still the log length |
| EventPipeline.MaxSeqIsLength | backend/app/repositories/event_repo.py:29-35 | on a log numbered 1..n the maximum query answers n, and 0 on an empty log |
| EventPipeline.LocksAreHeldByRunningAppends | backend/app/services/event_service.py:88-100 | in every run, an append that has returned or was interrupted holds neither the append lock nor the row lock |
| EventPipeline.RowHolderGoesOn | backend/app/services/event_service.py:88-99 | whoever holds the row lock is between taking it and its commit, is not blocked, and gives the row up at its commit or when interrupted |
| EventPipeline.ListAfterIsSuffix | backend/app/repositories/event_repo.py:21-27 | on a log numbered 1..n the backlog query answers exactly the rows from after + 1 on, in order |
| EventPipeline.LiveTailIsContiguous | backend/app/api/tasks.py:151-181 | without Redis, in every interleaving, what a stream has yielded is a prefix of its expected events, all of them once its queue is drained; these are the contiguous log above after_sequence if and only if no append was interrupted between commit and delivery beyond the backlog |
| EventPipeline.InterruptedAppendLeavesGap | backend/app/services/event_service.py:88-103 | a run in which one append is cancelled after its commit and the next completes: the drained stream has event 2 and never event 1 |
| EventPipeline.SoloAppend | backend/app/services/event_service.py:82-103 | an uncontended append adds the row after the last and, by the time it returns, every subscribed queue has it |
| EventPipeline.YieldsAreIncreasingRows | backend/app/api/tasks.py:156-176 | in either mode, under any delivery order and duplication, yielded numbers strictly increase, each yielded event is the committed row, and once drained an event is missing exactly when neither backlog nor delivery brought it or a higher-numbered one reached the queue first |
| EventPipeline.LiveUnlessOvertaken | backend/app/api/tasks.py:171-174 | among the arrivals above the backlog, the generator lets an event through if and only if no higher-numbered one arrived before it |
| EventPipeline.DeliveryReachesTheSubscribed | backend/app/services/event_service.py:46-61 | a delivery, local or through Redis, goes to the back of the queue of every reader subscribed in its process, once, and touches no other |
| EventPipeline.ReadersSubscribeFirst | backend/app/api/tasks.py:151-160 | a reader is subscribed before its backlog query, which asks for what lies above after_sequence |
| EventPipeline.DisconnectIsFinal | backend/app/api/tasks.py:165-181 | once disconnected, a stream yields and receives nothing more, whatever follows |
| EventService.EventBus.Subscribe | backend/app/services/event_service.py:33-37 | a fresh empty queue joins the task's subscribers, the others stay |
| EventService.EventBus.Unsubscribe | backend/app/services/event_service.py:39-44 | exactly the given queue leaves, and no other task's subscribers change |
| EventService.EventBus.Deliver | backend/app/services/event_service.py:56-61 | every queue subscribed to the task gets the event at its back, once |
| EventService.EventService.GetMaxSeq | backend/app/repositories/event_repo.py:29-35 | the loop over the rows computes the maximum sequence number |
| EventService.EventService.AppendEvent | backend/app/services/event_service.py:82-103 | uncontended, the event is numbered one above the count of the task's rows, is the only row added, keeps the numbering, and reaches every subscribed queue |
| EventService.StreamTaskEvents | backend/app/api/tasks.py:151-181 | whatever arrives, the stream is the backlog's frames and then, if live, turn by turn, a frame for each arrival above everything before it and a keep-alive for each quiet turn; the frames are the backlog followed by exactly those arrivals |
| EventService.OneKeepAlivePerQuietTurn | backend/app/api/tasks.py:167-176 | the live part yields as many keep-alives as there were quiet turns |
| EventService.LiveFrames | backend/app/api/tasks.py:167-174 | the frames of the live part are the arrivals above everything before them |
| EventService.ReaderRunsTheGenerator | backend/app/api/tasks.py:151-181 | a reader of the state machine has yielded what that generator yields for its backlog query and the arrivals it has consumed |
| ManagedSession.DeduplicationIsExact | backend/workers/managed/session_runner.py:374-475 | with no assumption on the environment, handling a sequence of events is handling its first-occurrence subsequence: same state, same effects, same stopping point |
| ManagedSession.FirstOccurrencesMeaning | backend/workers/managed/session_runner.py:379-383 | an event is kept exactly when it has no id, or an id that was neither seen nor carried by an earlier event |
| ManagedSession.EveryRunEndsWell | backend/workers/managed/session_runner.py:246-336 | for every event script, decision and drop pattern: at most 4 streams are opened, the task is left FAILED or COMPLETED, follow-ups leave in FIFO order each at most once, a completed task has none waiting, and no tool-use id is confirmed twice |
| ManagedSession.ReactFacts | backend/workers/managed/session_runner.py:385-475 | one event keeps the follow-ups conserved and in order, confirms at most the pending tool and then forgets it, and stops only with the task FAILED or COMPLETED with an empty queue |
| ManagedHistory.RunFollowsItsHistory | backend/workers/managed/session_runner.py:246-546 | over every run the effects, turn by turn, the waiting tool call, the waiting follow-ups and the point where it stops are what the sequence of handled events says, with no reference to the driver's state |
| ManagedHistory.AnswersCarryTheDecision | backend/workers/managed/session_runner.py:521-533 | over every run a tool call is confirmed, allowed or denied, if and only if a handled idle event asked about that waiting call and the user granted, or rejected, it there |
| ManagedHistory.ConfirmationCarriesDecision | backend/workers/managed/session_runner.py:521-533 | whatever one event confirms is the pending tool call, allowed exactly on a grant and denied exactly on a rejection |
| ManagedHistory.PendingMeaning | backend/workers/managed/session_runner.py:399-430 | a tool call waits exactly as long as no other call, no tool result and no answer has come after it |
| ManagedHistory.CompletedExactlyWhen | backend/workers/managed/session_runner.py:427-448 | over every run the task is COMPLETED if and only if the last handled event is idle, asks about no tool call, finds no follow-up and does not report an exhausted budget |
| ManagedHistory.EveryEndingTellsItsReason | backend/workers/managed/session_runner.py:246-546 | every run's effects close with the words of its own ending: each failure with its own phase and code, a refusal with the denial and the interrupt, a completion with its summary |
| ManagedAttempts.WhatAStreamLeadsTo | backend/workers/managed/session_runner.py:287-336 | a stream read to the deadline times the run out, a final event ends it, and a dropped or failed stream is followed by another attempt until four have been made |
| ManagedAttempts.LostExactlyWhenFourDrop | backend/workers/managed/session_runner.py:319-331 | the run fails with a lost stream if and only if a fourth stream was reached and dropped in time |
| ManagedAttempts.AttemptsAreNumbered | backend/workers/managed/session_runner.py:322-336 | every stream after the first has its reconnect line, numbered 1, 2, 3 in order |
| ManagedAttempts.ReadingByFirstItem | backend/workers/managed/session_runner.py:288-317 | what the inner loop does with each kind of first item, in time and too late |
| ManagedAttempts.ReadingKeepsTheDeadline | backend/workers/managed/session_runner.py:289-304 | reading expires only at the deadline, and a stream counts as dropped only by an end or error of its own within it |
| ManagedAttempts.ReadingTakesItsTime | backend/workers/managed/session_runner.py:288-317 | until it drops or the run ends, reading a stream takes what was waited for its arrivals and what handling the new events took |
| ManagedAttempts.ReplayBringsTheAnswer | backend/workers/managed/session_runner.py:278-285 | a reconnect whose history call is answered has taken in every event of the answer before it reads its stream |
| ManagedRefinement.KeepsToTheLogExactlyWhen | backend/workers/managed/session_runner.py:246-336 | for any streams and history answers of one remote log with distinct ids, the whole run handles a prefix of the log, nothing missing or out of place, if and only if every stream it takes an event from starts within what the streams before it and the history answers have covered |
| ManagedRefinement.FailedHistoryLosesEvents | backend/workers/managed/session_runner.py:357-365 | a run from a fresh session in which the history call raises and the second stream starts at the third event: the first and third are handled and the second never |
| ManagedRefinement.ReconnectingRefinesStraight | backend/workers/managed/session_runner.py:246-336 | over any streams of one remote log in which none that delivers starts beyond what is covered, the events handled are an in-order repeat-free prefix, and state, effects and sends, apart from the reconnect lines and the failure that ended the run, equal the uninterrupted run over that prefix |
| ManagedRefinement.ReconnectNeedsHistory | backend/workers/managed/session_runner.py:281-317 | for one replay of h events, with n handled before, and one slice of a stream from r on: the handled events stay a prefix if and only if r <= max(n, h) |
| ManagedRefinement.EveryRunIsStraight | backend/workers/managed/session_runner.py:246-336 | with no assumption on streams, history, decisions or clock, no event is handled twice and the run's state, effects and sends are those of one straight pass over the events it handled, apart from the reconnect lines and the failure that ended it |
| ManagedTranscript.MessagesAreConserved | backend/workers/managed/session_runner.py:385-391 | over any run the assistant messages written for the user are exactly the non-empty texts of the handled agent messages, in order, each once, and the summary kept is the last |
| ManagedTranscript.CompletionTellsTheLastMessage | backend/workers/managed/session_runner.py:550-557 | a run that leaves the task COMPLETED ends with the completion event, carrying the last thing the agent said or the default, and then the status |
| ManagedSessionRunner.Runner.HandleEvent | backend/workers/managed/session_runner.py:374-475 | the mutating handler ends in the state, with the effects and the answer, that the model's step gives |
| ManagedSessionRunner.Runner.Dispatch | backend/workers/managed/session_runner.py:385-475 | each event kind updates the pending tool, reply queue, summary, status and log as the model's reaction says |
| ManagedSessionRunner.Runner.OnIdle | backend/workers/managed/session_runner.py:427-448 | an idle event asks for a pending tool, else sends the oldest queued follow-up, else fails on a reached budget, else completes; the new state and effects are the reaction's, which the history lemmas pin down |
| ManagedSessionRunner.Runner.Confirm | backend/workers/managed/session_runner.py:477-546 | the approval wait ends in one of three ways, with the confirmation, interrupt and status writes of each; the confirmation carries the decision by ManagedHistory.ConfirmationCarriesDecision |
| ManagedSessionRunner.Runner.Complete | backend/workers/managed/session_runner.py:550-557 | the task is COMPLETED with the last assistant message, or the default, as summary, in that order of writes |
| ManagedSessionRunner.Runner.Fail | backend/workers/managed/session_runner.py:559-569 | the task is FAILED with its phase, then the failure event is logged |
| ManagedSessionRunner.Runner.Greet | backend/workers/managed/session_runner.py:273-285 | the prompt goes out on the first stream only; later ones replay history up to a final event |
| ManagedSessionRunner.Runner.Replay | backend/workers/managed/session_runner.py:281-285 | the replay loop is the fold of the handler up to the first event that ends the run |
| ManagedSessionRunner.Runner.ReadStream | backend/workers/managed/session_runner.py:287-317 | the inner loop consumes arrivals until one ends the run, the stream drops or the deadline passes |
| ManagedSessionRunner.Runner.FollowStream | backend/workers/managed/session_runner.py:287-336 | one stream ends in a return or in the next attempt, with the effects of each |
| ManagedSessionRunner.Runner.Drive | backend/workers/managed/session_runner.py:246-336 | the reconnect loop ends, and in the session state and number of streams that the model's driver gives, to which all lemmas about it then apply |
| ApprovalResults.ResolvedAtMostOnce | backend/app/services/approval_service.py:95-182 | in every interleaving at most one request is accepted per approval and its decision is the row's, a row changes at most once and only from PENDING, the log holds at most one resolution per approval and the right one, and no two rows are PENDING together |
| ApprovalResults.LaunchGate | backend/workers/common/orchestrator.py:160-234 | with initial approval required, in every interleaving, run has been entered only if the launch row is APPROVED |
| ApprovalResults.EntryIsApproved | backend/workers/common/orchestrator.py:215-234 | at the moment of entry the row that the worker's state names is the launch row, it is the only one and it is APPROVED |
| ApprovalResults.EveryAnswerHasItsApproval | backend/workers/managed/session_runner.py:477-546 | in every interleaving each confirmation answers the tool its own approval row was created for, with that row's decision, and no tool-use id is answered twice |
| ApprovalResults.AcceptedApprovalIsNotLost | backend/workers/common/orchestrator.py:161-195 | whenever an approve passes the checks the worker's state already names its row, and once its callback is over the worker is woken, about to be, or past the wait, or the task has ended, unless a cancel came in |
| ApprovalResults.AcceptedApprovalReleases | backend/app/services/approval_service.py:95-112 | from acceptance, whatever happened before, the request's remaining pieces wake a worker that still waits |
| ApprovalResults.RejectionHeardOnlyByManaged | backend/workers/managed/engine.py:72-85 | once a rejection's callback is over, a worker still waiting on the row has been woken with the refusal if the engine is managed and can make no step if it is not |
| ApprovalResults.EndedWorkerLeavesFinishedTask | backend/workers/common/orchestrator.py:130-262 | with no cancel, a worker that has ended leaves the task COMPLETED or FAILED |
| ApprovalResults.CancelledIsNotFinal | backend/app/services/task_service.py:237-261 | a reachable cancelled state from which the worker's next status write makes the task STARTING |
| ApprovalRuns.CancelledIsLostExactly | backend/app/services/task_service.py:237-261 | in one step CANCELLED is overwritten if and only if no request holds the row and the step is a status write of the worker (starting, running, waiting, timed out, cleared, crashed or ended) or the second commit of an accepted rejection |
| ApprovalRuns.CancelledStaysExactlyWhen | backend/app/services/task_service.py:174-200 | from any reachable cancelled state, CANCELLED stays on every continuation if and only if the worker is past its last status write and no rejection stands between its two commits |
| ApprovalRuns.FinishedTaskRefusesCancel | backend/app/services/task_service.py:174-187 | a cancel of a task that is CANCELLED, COMPLETED or FAILED leaves rows, task, worker and memory as they are, however far the call runs |
| ApprovalRuns.OpenTaskIsCancelled | backend/app/services/task_service.py:174-200 | a cancel of any other task, with the row free, makes it CANCELLED and sends the worker on its way out |
| ApprovalRuns.CancelledComesFromItsCheck | backend/app/services/task_service.py:179-187 | in every run a task becomes CANCELLED only by a cancel whose own check, earlier in the run, saw a task that was not over |
| ApprovalRuns.LockedRowKeepsItsStatus | backend/app/repositories/task_repo.py:52-82 | while a request holds the row, no status write of worker, rejection or cancel lands |
| ApprovalRuns.StartsUp | backend/workers/common/orchestrator.py:130-175 | the worker alone goes through STARTING and RUNNING, then opens the launch row, or enters run if no approval is required |
| ApprovalRuns.WokenWorkerActsOnTheDecision | backend/workers/common/orchestrator.py:215-234 | a woken worker enters run on a granted launch unless the task was cancelled, allows a granted call and goes on, and on a refusal denies the call, if there is one, and ends |
| ApprovalRuns.TimeoutFailsTheTask | backend/workers/common/orchestrator.py:192-213 | an unanswered wait makes the task FAILED and ends the worker |
| ApprovalRuns.CrashFailsTheTask | backend/workers/common/orchestrator.py:238-257 | a piece that raises, wherever the worker is, makes the task FAILED and ends the worker |
| ApprovalRuns.EndOfRunIsWritten | backend/workers/managed/session_runner.py:550-569 | the end of run makes the task COMPLETED or FAILED as it ended |
| ApprovalRuns.ToolEventsMoveThePendingCall | backend/workers/managed/session_runner.py:379-418 | a tool call seen for the first time becomes the pending one, a repeated one changes nothing, a result leaves none pending |
| ApprovalRuns.EndedForGood | backend/workers/common/orchestrator.py:258-262 | a worker that has ended never launches and never answers a tool call again, whatever follows |
| ApprovalRuns.GoneIsForgotten | backend/workers/common/orchestrator.py:258-262 | in every run the state table holds the worker exactly until it is gone, and a callback after that changes nothing |
| ApprovalRuns.RejectionCommitsOverCancel | backend/app/services/approval_service.py:174-180 | a reachable state in which a cancel landed between the two commits of a rejection and the worker is ending: the second commit makes the task FAILED |
| ApprovalRuns.RejectionGoesUnheard | backend/workers/common/orchestrator.py:76-88 | with a subprocess engine, a reachable state in which a rejection is over, its callback included, and the worker still waits with no event set |
| ApprovalGate.StepKeepsInv | backend/workers/common/orchestrator.py:76-262 | every piece of the worker, of a request and of a cancel keeps the invariant that ties rows, locks, memory, log and confirmations together |
| ApprovalGate.RequestChecked | backend/app/services/approval_service.py:159-173 | the first commit finds its row open, newest and named by the worker, and keeps the invariant |
| ApprovalGate.FailTask | backend/app/services/approval_service.py:174-180 | the second commit of a rejection keeps the invariant although the locks were released in between |
| ApprovalService.UninterruptedCall | backend/app/services/approval_service.py:95-182 | a call that nothing interleaves with, run piece by piece in the state machine, is refused without a trace exactly when not owned, unknown, resolved or not awaited, and otherwise resolved, logged and passed on |
| ApprovalService.Backend.Resolve | backend/app/services/approval_service.py:151-182 | succeeds if and only if the caller owns the row, it is PENDING and the task waits; then only that row changes, and a rejection fails the task |
| ApprovalService.Backend.HandleApproval | backend/workers/common/orchestrator.py:76-88 | sets the decision and the event exactly when the worker is registered and names this approval, and, but for a managed rejection, the task still waits |
| ApprovalService.Backend.Approve | backend/app/services/approval_service.py:95-112 | the whole new state of rows, task, log and worker memory, and success exactly when the request finished |
| ApprovalService.Backend.Reject | backend/app/services/approval_service.py:114-143 | the same for a rejection, by engine |
| RateLimiter.AdmissionIsExact | backend/app/services/redis_service.py:59-65 | on any trace over any keys a request is let through if and only if fewer than limit requests on its key, let through or not, came before it in its window |
| RateLimiter.AdmissionIsBounded | backend/app/services/redis_service.py:59-65 | at most limit admissions per window and at most 2 * limit - 1 in any half-open interval of window length |
| RateLimiter.BoundIsReached | backend/app/services/redis_service.py:59-65 | for every limit and every window above one tick a trace reaches 2 * limit - 1 |
| RateLimiter.WindowsAreNeverLengthened | backend/app/services/redis_service.py:62-64 | a request in an open window, let through or rejected, leaves its end alone, and other keys leave the counter alone |
| RateLimiter.RedisService.Allow | backend/app/services/redis_service.py:59-65 | without a client or with a limit of zero or less everything passes and nothing is stored; otherwise exactly this key's counter moves |
| RateLimiter.RedisService.Incr | backend/app/services/redis_service.py:62 | an expired counter counts as absent, a live one keeps its expiry |
| SseFraming.FramingRoundTrips | backend/app/api/tasks.py:31-33 | any concatenation of frames and keep-alive comments, parsed as in sections 9.2.5 and 9.2.6 of the WHATWG HTML Living Standard, gives back exactly the list of id, event and data |
| SseFraming.TakesFrame | backend/app/api/tasks.py:31-33 | one frame dispatches exactly one message, and leaves nothing in the parser's data and event buffers |
| SseFraming.TakesKeepAlive | backend/app/api/tasks.py:176 | a keep-alive dispatches nothing and leaves the parser as it was |
| SecretScrubber.ScrubSecrets | backend/app/services/cloud_repo_service.py:94-98 | the loop skips empty secrets and replaces the others one after the other, in order |
| SecretScrubber.NoSecretSurvives | backend/app/services/cloud_repo_service.py:94-98 | for any line and any list of secrets that neither start nor end with an asterisk nor contain three in a row, no listed secret is in the result: later replacements never bring back an earlier secret |
| SecretScrubber.PlainIsMaskable | backend/app/services/cloud_repo_service.py:94-98 | secrets without an asterisk meet that condition |
| SecretScrubber.RemovedExactlyWhenMaskable | backend/app/services/cloud_repo_service.py:97 | a single secret is removed from every line if and only if it meets the condition |
| SecretScrubber.CleanLineIsKept | backend/app/services/cloud_repo_service.py:94-98 | a line that holds no listed secret comes back unchanged |
| RepoSource.MatchUrlIsThePattern | backend/app/services/cloud_repo_service.py:46-48 | the matcher for full references succeeds if and only if the value has the form of the pattern, and takes the shortest name that fits, as the lazy group does |
| RepoSource.MatchPathIsThePattern | backend/app/services/cloud_repo_service.py:49 | the same for owner, slash, name and suffix, the short form among them |
| RepoSource.ParsesExactly | backend/app/services/cloud_repo_service.py:66-82 | the parser answers with an owner and a name if and only if the stripped value has the full form with that owner and shortest name or, having no full form and being neither url nor path, the short one, and the url is their canonical one |
| RepoSource.EveryFullFormParses | backend/app/services/cloud_repo_service.py:46-82 | every full reference, with any scheme, www, suffix and white space around it, parses to the one canonical source |
| RepoSource.EveryShortFormParses | backend/app/services/cloud_repo_service.py:49-82 | so does every short one, with or without .git, unless its owner starts with a dot |
| RepoSource.NamesAreMadeOf | backend/app/services/cloud_repo_service.py:46-49 | word characters make names, names may be joined by dots, dashes and underscores, and nothing with a slash is one |
| RepoSource.CanonicalUrlParses | backend/app/services/cloud_repo_service.py:79-81 | the canonical url of an owner and a name parses to that owner and that name |
| RepoSource.StripsExactly | backend/app/services/cloud_repo_service.py:72 | stripping takes the white space off both ends and nothing else |
| RepoSource.ParsingIsIdempotent | backend/app/services/cloud_repo_service.py:66-82 | the url of every accepted GitHub reference parses to the same source; which source that is, RepoSource.ParsesExactly says |
| RepoSource.UrlsAndPathsNeedTheHost | backend/app/services/cloud_repo_service.py:72-78 | a value with a scheme separator, or one that starts like a path, is accepted if and only if it has the full GitHub form |
| RepoSource.KeyAgreesExactly | backend/app/services/cloud_repo_service.py:246-250 | for any lower-casing that replaces each character by one or more, an accepted reference has the allowlist key of its canonical url if and only if it is a full reference and not a repository called .git without further suffix |
| RepoSource.BareGitIsAccepted | backend/app/services/cloud_repo_service.py:46-48 | that exception is reachable for every owner |
| RepoSource.TrimsEverySlash | backend/app/services/cloud_repo_service.py:248 | trimming takes every slash off the end and nothing else |
| RepoSource.SameKeyUpToCase | backend/app/services/cloud_repo_service.py:246-250 | two canonical urls have one key if and only if they are the same after lower-casing |
| RepoSource.DemoConnectsTheListed | backend/app/services/cloud_repo_service.py:234-244 | with an allowlist of full references, the demo account may connect exactly the listed repositories, up to case, and any other account anything |
| RepoSource.WorkspacesAreDistinct | backend/app/services/cloud_repo_service.py:229-232 | two repositories share a directory only if they are the same, when neither owner has a doubled or trailing underscore after its first character |
| RepoSource.NoUnderscoreKeepsApart | backend/app/services/cloud_repo_service.py:229-232 | owners without underscore meet that condition |
| RepoSource.SharedExactlyWhenUnderscored | backend/app/services/cloud_repo_service.py:229-232 | an owner can share its directory with a shorter-named owner if and only if it has a doubled or trailing underscore after its first character |
| CodexOutput.ExtractsTheFirst | backend/workers/codex/output_parser.py:17-40 | on every JSON object the answer is what the first speaking node in depth-first key order says, and none if and only if no node reachable through the wrapper keys says anything |
| CodexOutput.WrapperKeysInOrder | backend/workers/codex/output_parser.py:34-40 | an object that says nothing itself answers with the first answer from under "message", "msg", "item", "delta", "event", in that order |
| CodexOutput.DirectKeysInOrder | backend/workers/codex/output_parser.py:18-27 | "assistant_message", "assistant", "final_answer", "output_text" are looked at in that order, then assistant content, then an unhashable "type" raises |
| CodexOutput.TypedKeysInOrder | backend/workers/codex/output_parser.py:28-32 | a node typed as a message says its "message", else its "text", else nothing |
| CodexOutput.OnlyTextIsReturned | backend/workers/codex/output_parser.py:17-61 | a returned message is never blank |
| CodexOutput.RaisesExactlyWhen | backend/workers/codex/output_parser.py:28 | the extractor raises if and only if the first node to say anything has neither direct text nor assistant content and has an array or an object for its "type" |
| CodexOutput.UnhashableTypeHidesTheMessage | backend/workers/codex/output_parser.py:28-38 | such a node raises although what it wraps carries a message |
| CodexOutput.WhatANodeSays | backend/workers/codex/output_parser.py:18-33 | which of the four ways of speaking a node uses: the first direct key with text, else assistant content, else an exception, else the first message key of a typed node; and exactly when it says nothing |
| CodexOutput.FirstTextIsFirst | backend/workers/codex/output_parser.py:18-21 | of a list of keys the first that holds non-blank text is taken, and none if and only if none does |
| CodexOutput.NestedListsFlatten | backend/workers/codex/output_parser.py:52-60 | a list nested in a content list contributes exactly what its items would in its place |
| CodexOutput.ExtractContentText | backend/workers/codex/output_parser.py:43-61 | the loop over a list collects the items' texts in order and joins them, by recursion on nested lists |
| CodexOutput.ContentIsText | backend/workers/codex/output_parser.py:43-61 | content text, where there is any, is never blank, joined lists included |
| CodexOutput.ContentByKind | backend/workers/codex/output_parser.py:43-51 | an object as content is its "text", else its "output_text", else its "content"; text is itself unless blank; any other scalar is nothing |
| CodexOutput.ContentOfLists | backend/workers/codex/output_parser.py:52-61 | two texts in a list come out on lines of their own, a blank one leaves no line, an empty list is nothing |

## Left out

- EventPipeline.LiveTailIsContiguous: the log is the task's own; what a database without row locks does to appenders in two processes is not modelled, row locks are taken to exclude as `FOR UPDATE` does.
- EventPipeline.YieldsAreIncreasingRows: Redis itself is a nondeterministic deliverer per process; that every publish reaches a subscribed queue is not assumed, so a missing event may also be one that was never delivered.
- EventService.EventService.AppendEvent: one call without contention, which is what a method can state; interleavings are the state machine's part.
- EventService.StreamTaskEvents: takes the list of polls up to the disconnect; with live=false the source returns before its clean-up and leaves its queue subscribed, which the model does not track.
- ManagedSession.EveryRunEndsWell: one run with no cancel; exceptions raised by sends or the database inside the driver, and the early exits of `run` before it, belong to the caller and appear only as a crash in the approval gate.
- ManagedRefinement.ReconnectingRefinesStraight: follow-ups forwarded straight to a live session bypass the queue and are not part of the driver's effects; log messages are their kinds and names, not their wording.
- ManagedSessionRunner.Runner.Drive: time is counted in ticks and each stream's arrivals are a finite list after which it stays silent; the pump thread and the 60-second wait for opening are folded into whether a stream opens.
- ApprovalResults.EveryAnswerHasItsApproval: a tool call without an id is one with the empty id; such calls are not covered by the at-most-once part, as in the source.
- ApprovalResults.AcceptedApprovalIsNotLost: one dispatch of one task, no restart; user replies change nothing the gate reads and have no action.
- ApprovalService.Backend.Approve: an uninterrupted call; note texts, timestamps and the usage cache are not modelled.
- RateLimiter.AdmissionIsBounded: INCR and EXPIRE are one step; a process that dies between them would leave a counter that never expires.
- SseFraming.FramingRoundTrips: for fields without line breaks, a non-empty event type and an id without NUL, which is what event ids, type constants and JSON-encoded payloads are.
- SecretScrubber.NoSecretSurvives: for lists the condition is sufficient only, since a later secret may remove what an earlier one leaked; it is exact for one secret.
- RepoSource.KeyAgreesExactly: lower-casing is a parameter; it is taken to replace each character by one or more, how many being settled by the character, as Python's does.
- RepoSource.WorkspacesAreDistinct: for owners that are not empty, which no parsed owner is.
- RepoSource.ParsingIsIdempotent: local paths (`allow_local`) need the file system and are not modelled; characters outside ASCII are classified by a parameter.
- CodexOutput.ExtractsTheFirst: Python's recursion limit on very deep values is not modelled.
- RepoSource.DemoConnectsTheListed: for entries that are full references; a short one never matches its repository, by RepoSource.KeyAgreesExactly.
- The alias endpoint in `backend/app/api/stream.py`, which reads before it subscribes and does not deduplicate: the guarantees above do not hold for it.
- Event payloads are one string; ids are strings with the empty one for none; user notifications, metrics and timestamps have no effect on what is proved.
- The per-user task limit (count, then insert, without a lock) and re-dispatch of a finished task.
- Subprocess runners, Git, account, device and authentication services: one branch per claim, or foreign code.
