# EchoCue core: verification model

A Dafny model of the parts of EchoCue (a live-stream prompter that suggests spoken
replies to viewer comments) whose correctness is an argument rather than a reading:
the suggestion pipeline, the audit store with its outbox, the tokenizer migration and
the decision algorithms. `dafny verify dfyconfig.toml` checks it.

## The four parts

**The suggestion pipeline** (`Trace`, `ServiceStates`, `Windows`, `Pipeline`,
`PipelineMoves`, `PipelineFrames`, `Orchestration`). The orchestrator is a class with the program's
fields. Each of its methods is one stretch of code between two awaits; a suspended
continuation is an entry of `conts`, and between two stretches any other may come:
another comment, the display timer, a stop, a service transition. `Inv` is the invariant
of all of them, over a snapshot of the fields; `hand` names the traces a running stretch
is in the middle of moving. `Progress` and `Turn` say what a stretch leaves alone: beyond
its own trace it touches only candidates of the window, rows are only appended, and the
mutex passes only to a candidate. `Fresh` is freshness by the fields, `ClosedIfStale` and
`Own` its two sides: what may not go on is closed for the reason its fields give, and what
is fresh in the end was not closed as stale. `Run` interleaves any number of steps and loses no trace,
row or entry of the backlog's books; `StopAndSettle` shows that stopping and then resuming
what is suspended, in any order and with any outcomes, ends with every trace ever begun
terminal.

**The audit store** (`HmacChain`, `Outbox`, `AuditTables`, `AuditStorage`, `AuditBridge`,
`GoldenSync`). The tables are fields, each transaction a method. `AuditBridge` shows that
the stored rows and the orchestrator's chains are one audit. `GoldenSync` is the outbox
consumer, cut at its awaits, with labels, prunes, restarts and crashes in between; its `Run` is any
interleaving of all of them.

**The tokenizer migration** (`QdrantServer`, `CollectionReencode`, `Bootstrap`). The vector
store is a class whose calls may fail, may fail after taking effect, and are each preceded
by arbitrary writes of other clients through the `golden_set` alias. The ghost fields
`outside` (what other clients alone would have made of the old collections), `written` and
`writtenBefore` (the ids they wrote, up to now and up to the switch) say what must not be lost.

**The decision algorithms** (`EditDistance`, `PersonaRouter`, `Calibration`, `Rerank`,
`SemanticFilter`, `Prompt`). The loops are methods, proved against definitions whose own
laws are lemmas.

## What is assumed

- A session starts only when no continuation of an earlier one is left and no attempt is
  held (`StartSession`, and its two stretches in `ServeStep`), because the program clears
  the trace states there (`SuggestionAttemptOrchestrator.ts:163`) and `closeChain` falls
  back to RECEIVED (line 815).
- The audit store stays up. Once it is down every further write is skipped (line 1118).
- `EndSession` follows `AbortAll`, as its only caller does (`create-controller.ts:321-325`).
- The alias update is all or nothing, and one that reports failure did not happen.
- The MAC is an arbitrary function; where a property needs it, it is assumed injective
  (it stands for HMAC, section 2 of RFC 2104). UUIDs never repeat. Confidences and
  similarities are reals, and the logistic curve is any strictly increasing function into
  the open interval from 0 to 1.
- Text pipeline, payload schema, decryption, input safety, persona versions, the semantic
  vote on a comment, provider, the output validator's checks of form and content, and overlay
  are parameters or free choices.

## What turned out otherwise than promised

- An attempt can be held for good. The catch handler keeps the mutex exactly for the current
  attempt's trace that it finds DISPLAYED and hides (`HandlePipelineError`). A display hook
  that throws gets there exactly when the attempt is current at its freshness check
  (`ShowThenThrow`), and a display duration that cannot be read whenever the attempt was not
  aborted (`ReadThenThrow`). From then on nothing starts: through any steps short of a stop no trace
  is past retrieval and no queued comment is promoted (`RunHeld`).
- Every store transaction and worker step moves a job along edges of
  `OUTBOX_TRANSITIONS_V1`, except that the reset after a restart or a crash leaves the table exactly
  at the jobs it finds RUNNING (`GoldenSync.GoldenSyncWorker.Step`, `Outbox.ResetFollowsIff`).
- A rearm list that names an old job of a feedback without naming its failed one breaks
  the tie between job and `sync_status`: `RearmCanDrift` is such a table, `RearmKeepsIff`
  the exact condition. The worker's own lists meet it.
- An eligible failed job may wait for ever behind older permanent failures
  (`EligibleJobMayStarve`). With distinct times a failed job is listed exactly when fewer
  than the limit are older (`ListedIffFewEarlier`).
- The windows of the fuzzy match overlook nothing for aliases of a length exactly up to 7
  (`WindowsCompleteIff`); `MissedAlias` gives an overlooked text for every greater length.
- The token budget is not a cap on the message: it is met exactly when the message
  without any case meets it (`RenderPrompt`).
- When the golden alias is lost, a current collection is adopted as it stands, even an
  empty one while a stale one holds the data (`EmptyOrphanIsAdopted`): what decides is only
  which versions could be read (`FindOrphanGoldenCollection`, `BootstrapPreSet`).
- Retention promises to drop ended sessions, but no statement ever marks a session
  ended, so `PruneTracesOlderThan` always reports none.

## Model

| member | source | states |
|---|---|---|
| Trace.PathClimbs | src/contracts/src/schemas.ts:239-255 | every path of the transition table climbs strictly, so no trace revisits a state |
| Trace.PathEndsAtTerminal | src/contracts/src/schemas.ts:239-255 | a path starts at RECEIVED, has at most ten rows, and nothing follows a terminal state |
| Trace.TableBothWays | src/contracts/src/schemas.ts:239-255 | the table of successors and the table of predecessors, each written out, agree on every pair |
| Trace.TerminalIff | src/contracts/src/schemas.ts:239-255 | the final states are exactly those that nothing may follow |
| ServiceStates.ServiceTables | src/main/service/ServiceStateMachine.ts:22-42 | the three tables edge by edge: which lifecycle may follow, the one lifecycle of each activity, which activity may follow |
| ServiceStates.ServiceStateMachine.TransitionToLifecycle | src/main/service/ServiceStateMachine.ts:67-89 | only listed lifecycle changes, each entering its initial activity; errors change nothing |
| ServiceStates.ServiceStateMachine.SetActivity | src/main/service/ServiceStateMachine.ts:104-126 | accepts exactly the activities of the lifecycle and the listed changes; the activity always belongs to its lifecycle |
| ServiceStates.ServiceStateMachine.RecordRecoverableError | src/main/service/ServiceStateMachine.ts:91-102 | accepted exactly while STOPPED |
| Windows.SuggestionWindow.EvictExpired | src/main/suggestion/SuggestionWindow.ts:90-97 | keeps exactly the candidates received at most the age limit ago, in order, and reports the others once each |
| Windows.SuggestionWindow.Add | src/main/suggestion/SuggestionWindow.ts:39-51 | afterwards the unexpired candidates with the new one last, less the first of least priority exactly when they are one too many; every other one is reported exactly once |
| Windows.SuggestionWindow.SelectBest | src/main/suggestion/SuggestionWindow.ts:53-60 | the first of greatest priority among the unexpired, which keep their order; the expired ones are reported |
| Windows.SuggestionWindow.Clear | src/main/suggestion/SuggestionWindow.ts:71-76 | empties the window and reports each candidate exactly once |
| Pipeline.WrittenKeeps | src/main/suggestion/SuggestionAttemptOrchestrator.ts:1091-1102 | a legal transition from the state a trace is really in keeps the whole invariant |
| Pipeline.MoveKeeps | src/main/suggestion/SuggestionAttemptOrchestrator.ts:447-494 | moving one trace between backlog, retrieval, window and attempt keeps the invariant if its own new place is right |
| Pipeline.NoTraceLost | src/main/suggestion/SuggestionAttemptOrchestrator.ts:191-494 | between steps every begun, non-terminal trace has exactly one owner, and the owner tells its state |
| Pipeline.OwnedIsLive | src/main/suggestion/SuggestionAttemptOrchestrator.ts:191-494 | what backlog, retrieval or window own is never terminal, nor is an attempt with a continuation or timer |
| Pipeline.SingleFlight | src/main/suggestion/SuggestionAttemptOrchestrator.ts:452-494 | a trace past retrieval is the current attempt's, and an armed timer is that displayed attempt's |
| Pipeline.ChainsAreContiguous | src/main/suggestion/SuggestionAttemptOrchestrator.ts:581-715 | each trace's rows are one contiguous path of the table from INITIAL, each with the reason of its state, without repeats, nothing after a terminal |
| Pipeline.Consequences | src/main/suggestion/SuggestionAttemptOrchestrator.ts:76-1151 | the invariant gives contiguity, unique ownership, single flight and the backlog bound for all traces at once |
| Pipeline.SettledIsTerminal | src/main/suggestion/SuggestionAttemptOrchestrator.ts:168-180 | once stopped and out of continuations, every trace is terminal |
| Pipeline.SpentDecreases | src/main/suggestion/SuggestionAttemptOrchestrator.ts:337-354 | after a stop each resumed continuation uses up an awaited or rejected promise |
| Pipeline.LedgerEnqueue | src/main/suggestion/SuggestionAttemptOrchestrator.ts:241-260 | a queued comment is the youngest and has not left |
| Pipeline.LedgerPromote | src/main/suggestion/SuggestionAttemptOrchestrator.ts:926-946 | promotions stay a subsequence of arrival order and none waited past the timeout |
| Pipeline.LedgerExpire | src/main/suggestion/SuggestionAttemptOrchestrator.ts:926-946 | the expired comments leave by timeout, each once, and the others keep their order |
| Pipeline.LedgerCloseAll | src/main/suggestion/SuggestionAttemptOrchestrator.ts:948-953 | closing the backlog makes every queued comment leave, once |
| PipelineFrames.ProgressTrans | src/main/suggestion/SuggestionAttemptOrchestrator.ts:452-494 | steps compose that only append rows, spare all other traces with their comments, pass the mutex only to window candidates, and close a candidate only because the window dropped it or, once it was the attempt, as stale only when it is |
| PipelineFrames.TurnOfStart | src/main/suggestion/SuggestionAttemptOrchestrator.ts:452-494 | a candidate that leaves the window and runs as the attempt leaves every trace outside the window as it was, and is not closed as stale while it is fresh |
| PipelineMoves.NothingInFlight | src/main/suggestion/SuggestionAttemptOrchestrator.ts:452-462 | while a hidden trace holds the mutex no trace is past retrieval |
| Orchestration.Orchestrator.Run | src/main/suggestion/SuggestionAttemptOrchestrator.ts:121-1151 | any interleaving of any number of steps keeps every audited trace with its rows, every comment queued and how it left; contiguous rows, one owner per live trace, one trace past retrieval, window and side index equal and of this version, a bounded FIFO backlog whose entries leave once, and no transition error ever |
| Orchestration.Orchestrator.StopAndSettle | src/main/service/create-controller.ts:321-325 | stopping, then resuming all continuations in any order with any outcome, ends with every trace ever begun terminal, no row lost, and every comment ever queued having left |
| Orchestration.Orchestrator.ServeStep | src/main/suggestion/SuggestionAttemptOrchestrator.ts:121-1150 | any step short of a stop loses no row and no entry of the books, and leaves an attempt held by a hidden trace held |
| Orchestration.Orchestrator.RunHeld | src/main/suggestion/SuggestionAttemptOrchestrator.ts:452-462 | while an attempt is held by a hidden trace, no steps short of a stop bring any trace past retrieval or promote a queued comment |
| Orchestration.Orchestrator.ShowThenThrow | src/main/suggestion/SuggestionAttemptOrchestrator.ts:717-779 | a show hook that throws leaves the attempt held exactly when it was current at the freshness check |
| Orchestration.Orchestrator.ReadThenThrow | src/main/suggestion/SuggestionAttemptOrchestrator.ts:745-779 | a duration that cannot be read leaves the attempt held exactly when it is the current one |
| Orchestration.Orchestrator.HandleComment | src/main/suggestion/SuggestionAttemptOrchestrator.ts:191-272 | which comments are ignored, and that every other one enters exactly one new audited trace with its rows, its comment with the session, version, arrival and deadline it must have, and its message in the dedup set; no other trace outside the window changes, the current attempt's included |
| Orchestration.Orchestrator.EvictSeenHalf | src/main/suggestion/SuggestionAttemptOrchestrator.ts:1079-1089 | forgets the oldest ids and keeps half of the bound |
| Orchestration.Orchestrator.QueueOrDiscard | src/main/suggestion/SuggestionAttemptOrchestrator.ts:230-260 | during a display a new comment is queued at the end when queueing is on and has room, else discarded |
| Orchestration.Orchestrator.ContinueFromNormalized | src/main/suggestion/SuggestionAttemptOrchestrator.ts:278-334 | the trace is filtered, discarded as unrouted or routed, with the row that says so; a routed one awaits its search, in RETRIEVING when it was LISTENING, or finishes; a fresh comment is not closed as stale |
| Orchestration.Orchestrator.CommentCancelled | src/main/suggestion/SuggestionAttemptOrchestrator.ts:1007-1021 | the verdict on a comment by its fields: none exactly when no abort was asked for, session and window version are its own and its deadline has not passed; else the first reason that applies |
| Orchestration.Orchestrator.AttemptFreshness | src/main/suggestion/SuggestionAttemptOrchestrator.ts:986-1001 | the verdict on an attempt by its fields, its own reason when it was aborted; none exactly when its comment is fresh, because both have one session, version and deadline |
| Orchestration.Orchestrator.ResumeSearch | src/main/suggestion/SuggestionAttemptOrchestrator.ts:388-449 | the search is used up; a failed one closes its trace with RETRIEVAL_FAILED; a comment that may not go on is closed with the reason its fields give; one that is of this session and window and in time to the end gains no row with USER_STOPPED, STALE_SESSION, STALE_WINDOW or DEADLINE_EXCEEDED: an unwanted one is discarded by the vote, any other leaves the window dropped or as the attempt |
| Orchestration.Orchestrator.AddCandidate | src/main/suggestion/SuggestionAttemptOrchestrator.ts:430-449 | the comment joins the window as its rule for adding says; what the window drops, possibly the comment itself, ends closed with WINDOW_EVICTED |
| Orchestration.Orchestrator.PickBest | src/main/suggestion/SuggestionAttemptOrchestrator.ts:452-462 | the first unexpired candidate of greatest priority, with all expired ones closed |
| Orchestration.Orchestrator.MaybeStartAttempt | src/main/suggestion/SuggestionAttemptOrchestrator.ts:452-494 | nothing at all happens while an attempt, an abort or a display is under way; otherwise the mutex is taken or the window is empty, and only candidates are touched |
| Orchestration.Orchestrator.Elect | src/main/suggestion/SuggestionAttemptOrchestrator.ts:457-494 | the chosen candidate becomes the attempt with the session and window version of its comment, not aborted, and both get the earliest of the three limits as deadline |
| Orchestration.Orchestrator.PushDirectly | src/main/suggestion/SuggestionAttemptOrchestrator.ts:512-531 | a direct push writes DIRECT_READY and awaits the overlay; stale to begin with, it is closed through DISPLAY_READY; while fresh it is not closed as stale |
| Orchestration.Orchestrator.Display | src/main/suggestion/SuggestionAttemptOrchestrator.ts:717-737 | a stale attempt is closed with the reason its fields give; otherwise the overlay is awaited, in DISPLAYING while running |
| Orchestration.Orchestrator.AttemptDeadline | src/main/suggestion/SuggestionAttemptOrchestrator.ts:463-480 | the deadline is the earliest of its three limits |
| Orchestration.Orchestrator.EnterDisplaying | src/main/suggestion/SuggestionAttemptOrchestrator.ts:894-912 | from any activity of any lifecycle the changes it issues are legal, ending in DISPLAYING while running |
| Orchestration.Orchestrator.CloseChain | src/main/suggestion/SuggestionAttemptOrchestrator.ts:810-861 | legal from all 14 states; writes exactly one row, or two where the trace must pass through one more state, the last with the reason; hides a displayed trace and does nothing to a finished one |
| Orchestration.Orchestrator.CancelAttempt | src/main/suggestion/SuggestionAttemptOrchestrator.ts:805-808 | closes the trace with the reason, takes the mutex from it, and starts the next candidate only while running |
| Orchestration.Orchestrator.Fail | src/main/suggestion/SuggestionAttemptOrchestrator.ts:781-791 | writes LLM_PENDING to FAILED with PROVIDER_FAILED and nothing else on that trace, unless its hook throws |
| Orchestration.Orchestrator.ResumeConfig | src/main/suggestion/SuggestionAttemptOrchestrator.ts:580-590 | after a rejection the handler is due; a comment that may not go on is closed with the reason its fields give, a fresh one never as stale: it awaits the credential, or the request is audited and fails or throws; after a stop no other continuation changes |
| Orchestration.Orchestrator.ResumeKey | src/main/suggestion/SuggestionAttemptOrchestrator.ts:590-614 | as for the configuration: a comment that may not go on is closed with the reason its fields give, a fresh one never as stale, and its request is audited unless a step throws |
| Orchestration.Orchestrator.ResumeProvider | src/main/suggestion/SuggestionAttemptOrchestrator.ts:614-715 | after a rejection the handler is due; a comment that may not go on is closed with the reason its fields give; for a fresh one exactly the rows of the outcome: aborted, failed, declined, refused for its form or content, or made ready, and never closed as stale |
| Orchestration.Orchestrator.OutputFreshness | src/main/validation/SuggestionOutputValidator.ts:143-167 | the validator's last step by the fields: stale only when the attempt is, and a missing session passes |
| Orchestration.Orchestrator.ResumeShow | src/main/suggestion/SuggestionAttemptOrchestrator.ts:717-779 | an attempt that may not go on is closed with its abort reason or the one its fields give; one that is of this session and window, not aborted and in time is recorded as DISPLAYED when shown and keeps the mutex, and when refused the window starts a new version and it is discarded with SOURCE_ERROR |
| Orchestration.Orchestrator.ResumeDuration | src/main/suggestion/SuggestionAttemptOrchestrator.ts:745-779 | the timer is armed for the current attempt only; a rejected read leaves the handler due and all else as it was |
| Orchestration.Orchestrator.HandlePipelineError | src/main/suggestion/SuggestionAttemptOrchestrator.ts:1133-1150 | the trace ends closed; its attempt keeps the mutex exactly when the trace was DISPLAYED and current, and then it is hidden with no timer and no continuation |
| Orchestration.Orchestrator.FinishDisplay | src/main/suggestion/SuggestionAttemptOrchestrator.ts:356-368 | hides the displayed trace, frees the mutex, closes every candidate with WINDOW_EVICTED, starts a new window version and drains the backlog as it stood; finished traces and the books are kept |
| Orchestration.Orchestrator.DrainQueue | src/main/suggestion/SuggestionAttemptOrchestrator.ts:926-946 | the overdue comments are closed with QUEUE_TIMEOUT and the first of the others, if any, is promoted and re-anchored; nothing when queueing is off |
| Orchestration.Orchestrator.ExpireQueued | src/main/suggestion/SuggestionAttemptOrchestrator.ts:926-940 | exactly the comments past the timeout leave and are closed with QUEUE_TIMEOUT; the rest keep their order |
| Orchestration.Orchestrator.TakeOldest | src/main/suggestion/SuggestionAttemptOrchestrator.ts:936-945 | the head leaves as promoted in time, with window version, arrival and deadline of now |
| Orchestration.Orchestrator.PromoteOldest | src/main/suggestion/SuggestionAttemptOrchestrator.ts:936-946 | the head of the backlog, re-anchored to now and this window with a new deadline, is finished or awaits its search, and is entered as promoted |
| Orchestration.Orchestrator.ClosePendingQueue | src/main/suggestion/SuggestionAttemptOrchestrator.ts:948-953 | every queued trace ends closed with the reason and has left; no other trace changes |
| Orchestration.Orchestrator.AbortAll | src/main/suggestion/SuggestionAttemptOrchestrator.ts:337-354 | the attempt is flagged with the reason, and it and every queued trace end closed with it; window and continuations are left alone |
| Orchestration.Orchestrator.EndSession | src/main/suggestion/SuggestionAttemptOrchestrator.ts:168-180 | every candidate ends closed with WINDOW_EVICTED, and only suspended continuations are left |
| Orchestration.Orchestrator.StartSession | src/main/suggestion/SuggestionAttemptOrchestrator.ts:121-166 | a fresh session that forgets trace states and the dedup set, but no row and no entry of the books |
| Orchestration.Orchestrator.FreezeQueueing | src/main/suggestion/SuggestionAttemptOrchestrator.ts:147-149 | between two awaits of a start: the queueing setting is frozen and the old backlog closed with STALE_SESSION |
| HmacChain.VerifyIntegrity | src/main/storage/AuditStoreWorker.ts:246-328 | accepts exactly the sound tables whose rows per trace are numbered 1..n, linked and recomputing; otherwise names the first bad row's fault |
| HmacChain.IntactIffSteps | src/main/storage/AuditStoreWorker.ts:274-318 | comparing each row with the one before it is checking every trace's chain |
| HmacChain.DeletionIsNoticed | src/main/storage/AuditStoreWorker.ts:274-318 | a table of some rows of an accepted one is accepted exactly when it keeps a prefix of every trace, whatever the MAC |
| HmacChain.ChangeIsNoticed | src/main/storage/AuditStoreWorker.ts:1098-1110 | with an injective MAC, changed authenticated fields are accepted exactly when nothing changed |
| HmacChain.LastMacPinsHistory | src/main/storage/AuditStoreWorker.ts:1098-1110 | with an injective MAC the last MAC of a trace determines its whole chain |
| HmacChain.AppendKeepsIntact | src/main/storage/AuditStoreWorker.ts:417-446 | a row written after a trace's chain keeps the table accepted, whatever other traces do |
| HmacChain.PruneKeepsIntact | src/main/storage/AuditStoreWorker.ts:214 | removing whole traces keeps the table accepted |
| AuditTables.PrunedSnapshots | src/main/storage/AuditStoreWorker.ts:210-213 | dropping unreferenced snapshots drops exactly those of the removed traces |
| AuditTables.PruneIsExact | src/main/storage/AuditStoreWorker.ts:206-222 | the deletes of a cut-off leave exactly the traces not completed before it, with their rows, references, snapshots, label and jobs |
| AuditTables.LateIsKept | src/main/storage/AuditStoreWorker.ts:207 | a trace whose final rows were written at or after the cut-off is not completed before it |
| AuditTables.InFlightStays | src/main/storage/AuditStoreWorker.ts:207-222 | a trace without a final transition survives every cut-off with all its rows |
| AuditTables.LabelKeepsTables | src/main/storage/AuditStoreWorker.ts:658-718 | a stored label moves the optimistic lock of exactly its trace by one |
| AuditStorage.AuditStore.CreateTrace | src/main/storage/AuditStoreWorker.ts:383-399 | a duplicate frame is told apart from an outage |
| AuditStorage.AuditStore.MaxSequence | src/main/storage/AuditStoreWorker.ts:417-424 | the greatest sequence number is the length of the chain, and its row carries the MAC to link to |
| AuditStorage.AuditStore.AppendTransition | src/main/storage/AuditStoreWorker.ts:401-473 | accepts exactly the pairs of the table, new snapshots and known traces; writes all of its rows or none; the new row is the last of its chain with every field as given, and a final one completes the trace with its state and time |
| AuditStorage.AuditStore.CheckIntegrity | src/main/storage/AuditStoreWorker.ts:246-328 | a store only this worker wrote to is always accepted |
| AuditStorage.AuditStore.PruneTracesOlderThan | src/main/storage/AuditStoreWorker.ts:199-238 | removes exactly the traces completed before the cut-off with all that hangs on them, never breaking a key; a trace whose final rows are younger stays with all its rows; removes no session |
| AuditStorage.AuditStore.SubmitLabel | src/main/storage/AuditStoreWorker.ts:635-746 | when it succeeds: CORRECTED exactly with a correction, else REJECTED exactly at score 0, else ACCEPTED; score, correction, source and revision as submitted; an upsert for a correction or a score of at least 85, a bad case for a rejected golden point, no other job; no (trace, expected revision) succeeds twice; trigger and unique key never refuse |
| AuditStorage.LabelIsExact | src/main/storage/AuditStoreWorker.ts:1091-1096 | status, bad-case mark and job of a label from the request and the source alone |
| AuditStorage.AuditStore.LabelAccepted | src/main/storage/AuditStoreWorker.ts:672-739 | the job of a label passes the bad-case trigger, its key is new, and every invariant survives |
| AuditStorage.AuditStore.ClaimNextSyncJob | src/main/storage/AuditStoreWorker.ts:753-773 | claims an oldest pending job, none exactly when there is none; its label still justifies it: a correction or 85 points, or a rejected golden point |
| AuditStorage.AuditStore.CompleteSyncJob | src/main/storage/AuditStoreWorker.ts:859-879 | succeeds exactly on a RUNNING job, otherwise changes nothing |
| AuditStorage.AuditStore.FailSyncJob | src/main/storage/AuditStoreWorker.ts:888-912 | one more attempt, or the cap when permanent; refused unless RUNNING |
| AuditStorage.AuditStore.RearmEligibleSyncJobs | src/main/storage/AuditStoreWorker.ts:780-805 | exactly the failed jobs listed become pending, and the failed labels of listed jobs; keeps the store valid exactly when the list covers the failed job of every feedback it touches |
| AuditStorage.AuditStore.ListFailedSyncJobs | src/main/storage/AuditStoreWorker.ts:915-937 | the oldest failed jobs in order, cut at the limit and complete below it |
| AuditStorage.AuditStore.ResetStaleRunningJobs | src/main/storage/AuditStoreWorker.ts:943-952 | every RUNNING job goes back to PENDING and nothing else changes |
| AuditBridge.EventKeeps | src/main/suggestion/SuggestionAttemptOrchestrator.ts:1091-1102 | a written transition or a prune keeps stored rows and written chains in agreement, and the table accepted |
| AuditBridge.Replay | src/main/storage/AuditStoreWorker.ts:401-473 | so does any sequence of writes and prunes that never writes to a pruned trace |
| AuditBridge.StoredRowsArePath | src/contracts/src/schemas.ts:239-255 | the stored rows of a trace are one path of the state machine, a final row is the last, and an unfinished stored trace has exactly one owner |
| AuditBridge.WriteThrough | src/main/suggestion/SuggestionAttemptOrchestrator.ts:1091-1102 | store and orchestrator refuse the same pairs of states, and stay in agreement |
| AuditBridge.PruneThrough | src/main/storage/AuditStoreWorker.ts:199-238 | retention removes only traces the orchestrator has finished |
| Outbox.OutboxConsequences | src/main/storage/AuditStoreWorker.ts:672-741 | one open job per feedback, no shared idempotency key, and `sync_status` is what the open job says |
| Outbox.LabelKeeps | src/main/reflux/payload-builder.ts:43-57 | overwriting a label keeps the outbox invariant, with the job its action asks for |
| Outbox.MoveKeeps | src/main/storage/AuditStoreWorker.ts:859-912 | moving one open job together with its feedback's status keeps the outbox invariant |
| Outbox.RearmKeepsIff | src/main/storage/AuditStoreWorker.ts:784-801 | the exact condition under which re-arming a list keeps the outbox invariant |
| Outbox.RearmCanDrift | src/main/storage/AuditStoreWorker.ts:784-801 | a sound table and a list after which a feedback waits while its job stays failed |
| Outbox.ResetFollowsIff | src/contracts/src/schemas.ts:257-262 | resetting stale jobs follows the outbox table exactly for the jobs not RUNNING |
| Outbox.OutboxTable | src/contracts/src/schemas.ts:257-262 | the table has exactly four edges, and one segment of a sweep reaches at most two of them |
| Outbox.ListedIffFewEarlier | src/main/reflux/GoldenSyncWorker.ts:204-212 | a failed job is listed when fewer than the limit are no younger, never when that many are older; with distinct times exactly when fewer than the limit are older |
| GoldenSync.BackoffGrows | src/main/reflux/GoldenSyncWorker.ts:217-220 | the delay starts at the base, never shrinks and stays under the cap |
| GoldenSync.BackoffDoubles | src/main/reflux/GoldenSyncWorker.ts:217-220 | the first delay is the base, every further one twice the last, all cut at the cap |
| GoldenSync.EligibleJobMayStarve | src/main/reflux/GoldenSyncWorker.ts:204-212 | an eligible job that is never listed, at any time |
| GoldenSync.LabelKeepsSweep | src/main/storage/AuditStoreWorker.ts:688-739 | a relabel between claim and completion keeps attempts, failures and the single RUNNING job right |
| GoldenSync.FailKeepsSweep | src/main/reflux/GoldenSyncWorker.ts:139-154 | failures stay within the attempt limit; a permanent one is beyond any re-arming |
| GoldenSync.GoldenSyncWorker.RearmEligible | src/main/reflux/GoldenSyncWorker.ts:204-212 | re-arms exactly the listed jobs with attempts left whose backoff has elapsed since their last update |
| GoldenSync.GoldenSyncWorker.ResumeProfile | src/main/reflux/GoldenSyncWorker.ts:83-130 | an unreachable store spends no attempt; without a usable profile only bad cases reach the store |
| GoldenSync.GoldenSyncWorker.ClaimOne | src/main/reflux/GoldenSyncWorker.ts:132-202 | a claimed job was never failed permanently, and its write goes to the golden source or the point built; only pending jobs change |
| GoldenSync.GoldenSyncWorker.SettleHeld | src/main/reflux/GoldenSyncWorker.ts:136-155 | a job still RUNNING succeeds and its label gets the point, or fails with one more attempt; a superseded one changes no row |
| GoldenSync.GoldenSyncWorker.ResumeQdrant | src/main/reflux/GoldenSyncWorker.ts:136-155 | a superseded job's completion or failure changes no row and ends the sweep |
| GoldenSync.GoldenSyncWorker.Crash | src/main/reflux/GoldenSyncWorker.ts:52-61 | a process that dies in a sweep leaves tables its successor can start on: no job RUNNING, no sweep under way, every failure still counted |
| GoldenSync.GoldenSyncWorker.Step | src/main/reflux/GoldenSyncWorker.ts:75-220 | a job moves along edges of the outbox table exactly unless a restart or a crash finds it RUNNING; no failure count shrinks |
| GoldenSync.GoldenSyncWorker.Run | src/main/reflux/GoldenSyncWorker.ts:75-220 | over any interleaving, crashes included: at most one RUNNING job, whatever can still be claimed has attempts left, failures are never forgotten and stay within the limit, permanent failures stay FAILED, without a prune no audit row is lost, the store stays valid |
| CollectionReencode.ReadGoldenEntries | src/main/retrieval/collection-reencode.ts:33-57 | the paging ends, and reads every point that nobody wrote to exactly once, in id order |
| CollectionReencode.PageExtends | src/main/retrieval/collection-reencode.ts:39-55 | one more page extends what was read up to the next offset |
| CollectionReencode.ReencodeGoldenEntries | src/main/retrieval/collection-reencode.ts:67-96 | every entry is kept, counted invalid or counted empty, in order |
| CollectionReencode.KeptIsStored | src/main/retrieval/collection-reencode.ts:75-94 | storing the result puts every carried entry under its own id, with its own fields, the current version and the vector of its fields |
| Bootstrap.FindOrphanGoldenCollection | src/main/retrieval/bootstrap.ts:355-369 | finds a golden collection exactly when one exists, and a compatible one exactly when the versions of some current one could be read |
| Bootstrap.ActionsSwitch | src/main/retrieval/bootstrap.ts:301-317 | the alias actions point both aliases where they belong and touch no other |
| Bootstrap.Fill | src/main/retrieval/bootstrap.ts:274-288 | on success the new collection holds exactly the package's points |
| Bootstrap.ReencodeGoldenCollection | src/main/retrieval/bootstrap.ts:371-398 | before the switch the new collection holds every point of the old one that nobody wrote to, with its own fields; any invalid one makes it refuse |
| Bootstrap.Publish | src/main/retrieval/bootstrap.ts:259-317 | up to the switch nothing that existed changes; at the switch both aliases move at once, and a migrated collection already holds every point nobody wrote to since the start |
| Bootstrap.ReplayLateGoldenWrites | src/main/retrieval/bootstrap.ts:405-419 | on success every point of the old collection with tokens is readable in the new one by its id, with its own fields, the current version and their vector |
| Bootstrap.BootstrapPreSet | src/main/retrieval/bootstrap.ts:225-349 | on failure aliases and old collections are as other clients left them; on success both aliases serve current versions, golden points stay, are adopted, or are migrated with id, fields and new vector from the switch on, a new golden collection appears only when there was none, and nothing that existed is touched but the deleted sources of a migration; of the new collections only the served ones stay, after a late error only those the server would not delete |
| Bootstrap.EmptyOrphanIsAdopted | src/main/retrieval/bootstrap.ts:355-369 | of an empty current orphan and a stale one with a point the empty one is adopted, and the point is not served |
| EditDistance.LevenshteinDistance | src/main/persona/router.ts:59-78 | the two-row loop computes the recursive edit distance |
| EditDistance.ScriptIsNoShorter | src/main/persona/router.ts:59-78 | no sequence of single edits is shorter than the distance |
| EditDistance.ScriptOfLength | src/main/persona/router.ts:59-78 | some sequence of single edits is exactly as long |
| EditDistance.DistanceZero | src/main/persona/router.ts:59-78 | zero exactly on equal strings |
| EditDistance.DistanceSymmetric | src/main/persona/router.ts:59-78 | symmetric |
| EditDistance.DistanceTriangle | src/main/persona/router.ts:59-78 | the triangle inequality |
| EditDistance.DistanceBounds | src/main/persona/router.ts:59-78 | between the difference and the maximum of the lengths |
| EditDistance.SplitDistance | src/main/persona/router.ts:59-78 | the distance to a concatenation is split somewhere in the other string |
| PersonaRouter.SimilarityRange | src/main/persona/router.ts:80-86 | within 0 and 1, and 1 exactly on equal strings |
| PersonaRouter.BestFuzzyScore | src/main/persona/router.ts:91-106 | the greatest similarity over all windows of length n-1 to n+1, or 0 |
| PersonaRouter.WindowsSuffice | src/main/persona/router.ts:88-106 | up to 7 characters some window reaches the threshold exactly when some substring of any length does |
| PersonaRouter.WindowsMissAtEight | src/main/persona/router.ts:88-106 | at 8 characters two foreign characters in the middle are close enough as a whole and in no window |
| PersonaRouter.WindowsMissAtNine | src/main/persona/router.ts:88-106 | the same at 9 characters, when neither half is one character repeated |
| PersonaRouter.MissedAlias | src/main/persona/router.ts:88-106 | for every length from 8 on an alias and a text that the windows miss |
| PersonaRouter.WindowsCompleteIff | src/main/persona/router.ts:88-106 | the windows are complete for all aliases and texts of a length exactly up to 7 |
| PersonaRouter.ShortAliasNeedsExact | src/main/persona/router.ts:80-106 | up to 3 characters close enough means contained |
| PersonaRouter.CollectMatchTexts | src/main/persona/router.ts:44-57 | exactly the trimmed, non-empty name and enabled aliases, each once |
| PersonaRouter.ContainsIff | src/main/persona/router.ts:115 | a hit is the middle of some split of the text in three |
| PersonaRouter.ExactCandidates | src/main/persona/router.ts:110-124 | one candidate per persona that is hit, its longest hit, in order |
| PersonaRouter.FuzzyCandidates | src/main/persona/router.ts:126-141 | one candidate per persona that comes close, its closest text, in order |
| PersonaRouter.FoundCounts | src/main/persona/router.ts:153-165 | the number of candidates tells none, one and several hit personas apart |
| PersonaRouter.RoutePersona | src/main/persona/router.ts:146-166 | each decision exactly under its condition, with all candidates of the stage that decided; a fuzzy one never rests on fewer than 4 characters |
| Calibration.CalibrationKeepsOrder | src/main/retrieval/calibration.ts:51-61 | calibration keeps the order of the scores of one collection |
| Calibration.CalibratedHits | src/main/retrieval/calibration.ts:51-78 | each hit keeps its fields, and its confidence is the curve at its distance from the center of its own collection in units of the scale |
| Rerank.PrecedesIsOrder | src/main/retrieval/rerank.ts:27-36 | the comparator is a strict order, total on different point ids |
| Rerank.PrecedesIff | src/main/retrieval/rerank.ts:27-36 | greater raw score and the point id with the lesser first difference only ever break a tie |
| Rerank.RerankCarriesOver | src/main/retrieval/rerank.ts:38-54 | both lists are the calibrated hits of their own collection, and the merged list is taken from the two |
| Rerank.RerankFailsIff | src/main/retrieval/rerank.ts:38-46 | the exact conditions under which reranking fails |
| Rerank.TopHoldsGreatest | src/main/retrieval/rerank.ts:48-51 | the merged list holds the greatest hits in strict order, numbered from 1; all others come after |
| Rerank.RankingIsUnique | src/main/retrieval/rerank.ts:48-49 | hits can be ranked in one way only |
| Rerank.TopIgnoresOrder | src/main/retrieval/rerank.ts:48-51 | the result does not depend on the order of arrival |
| SemanticFilter.EvaluateSemanticFilter | src/main/retrieval/semantic-filter.ts:31-75 | discards exactly when a FILTER_RISK or LOW_VALUE hit is confident and above every hit of the five other types; names the first strongest of them |
| SemanticFilter.VoteOfRanked | src/main/retrieval/semantic-filter.ts:46-72 | on a ranked list the first recognised hit decides: a confident discard kind with no positive tied |
| SemanticFilter.RerankedIsRanked | src/main/retrieval/rerank.ts:38-54 | what reranking hands to the vote is ranked, with confidences between 0 and 1 |
| SemanticFilter.EvaluateRetrieval | src/main/retrieval/evaluate.ts:23-39 | on what reranking hands over: discarded exactly when the first recognised hit is a confident discard kind with no positive tied, and that hit names the type |
| Prompt.EstimateTokens | src/main/prompt/PromptAssembler.ts:69-78 | as many as there are CJK characters, plus a quarter of the others, rounded up |
| Prompt.CjkBlocks | src/main/prompt/PromptAssembler.ts:80-88 | a character counts as CJK exactly when its code lies in one of the five blocks |
| Prompt.JoinedIsList | src/main/prompt/PromptAssembler.ts:115-133 | adding cases at the end builds the list read from its front, with a comma before every further case |
| Prompt.EstimateGrows | src/main/prompt/PromptAssembler.ts:69-78 | text added anywhere never lowers the estimate |
| Prompt.CostGrows | src/main/prompt/PromptAssembler.ts:116-133 | further cases never make the message cheaper |
| Prompt.FloorPartitions | src/main/prompt/PromptAssembler.ts:152-165 | every hit is on exactly one side of the confidence floor |
| Prompt.FloorKeepsOrder | src/main/prompt/PromptAssembler.ts:152-165 | both sides keep the order of the ranking |
| Prompt.Truncate | src/main/prompt/PromptAssembler.ts:168-186 | includes a prefix that fits, whose next case does not, each case with its own hit's contents, and logs the ids of the rest in order |
| Prompt.RenderPrompt | src/main/prompt/PromptAssembler.ts:97-207 | the longest fitting prefix of the eligible hits, none if none fits; each case tells source, type and text of its hit, a golden one its reply and cues, the other kind its description and what reply and cues it has; excluded ids and low confidences one by one; within budget exactly when the message without cases is |

## Left out

- Orchestration.Orchestrator.Run: audit outages and their re-entrant stop (`tryAudit`) are not among the steps; the store is assumed to stay up.
- Orchestration.Orchestrator.HandleComment: normalization and input safety are opaque and do not throw.
- Orchestration.Orchestrator.ResumeProvider: the validator's reason codes are merged into one, as are the two semantic discard reasons of retrieval; its checks before the last one are a parameter.
- Orchestration.Orchestrator.EnterDisplaying: nothing says that the activity is DISPLAYING exactly while a suggestion is displayed, because a background retrieval failure returns to LISTENING (lines 883-888).
- Bootstrap.BootstrapPreSet: says nothing of ids written to `golden_set` after the alias switch; the replay overwrites them by id (lines 405-419).
- Bootstrap.FindOrphanGoldenCollection: of several stale collections it says only that one is found; the first listed is taken, and the order is the server's.
- Bootstrap.Fill: the sample query's answer is a free choice; ranking inside the vector store is not modelled.
- GoldenSync.GoldenSyncWorker.ResumeQdrant: the contents of a golden point are not modelled, so it does not say that a superseded upsert may already have reached the vector store.
- AuditStorage.AuditStore.SubmitLabel: persona binding and direct source are read from decrypted snapshots, which are parameters here.
- Rerank.TopIgnoresOrder: needs distinct point ids, which the two collections have by construction; with equal ids and scores the order of arrival shows.
- Orchestration.Orchestrator.StartSession: of the awaits of a start only the one before the queueing setting and the last are kept apart, the other reads set nothing that is modelled; no session is open in between, so nothing is queued.
- Comments and attempts are shared objects in the program; here they are entries of stores keyed by trace id.
- Floating-point rounding of scores, similarities and backoff delays.
- Windows, preload, IPC, renderers, telemetry, provider HTTP, the WebSocket adapter, sidecars, SQLite and the vector store's client: I/O.
- Cryptography, hashing, tokenization, BM25 weights and comment normalization: opaque.
- The service controller's start flow: a stop followed by a start while the first gate still waits clears its abort request, so single-flow claims do not hold.
- Persona and safety-policy stores, configuration handlers, the retention scheduler and the output validator but for its last step: they would add only easy members.
