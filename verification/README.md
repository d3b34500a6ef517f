# Verification of the session portal

The portal collects coding-agent sessions from local directories, stores their raw NDJSON under its
content address, runs long operations (import, rescan) through a ledger with one worker per kind,
reports every transition over server-sent events, and renders a parsed session in the browser. This
project models the stateful parts of it in Dafny and proves what they keep. `dafny verify
dfyconfig.toml` checks everything.

**Operations.** `OperationsStore` is the `operations` table as an object, one method per
transaction. `OperationsLedger` says what each guarded write keeps. `OperationsSystem` lets two
workers, any number of submitting and cancelling callers and any number of restarts interleave over
one ledger, each store call and each publish one atomic step; `OperationsSafety`,
`OperationsOutcome`, `OperationsNotices`, `OperationsStamps`, `OperationsSubmit` and
`OperationsDrain` hold what is true of every run. `OperationWorker` is one turn of the worker's loop as the program it is.

**Event feed.** `Broadcaster` is the ring and the channel behind one mutex, refined to an unbounded
log. `OperationsFeed` adds the bridge task, the wire and the client cursor; `FeedClient` is the
client hook's mutable state and `FeedHistory` its whole life, callback by callback.

**Ingest.** `RawSessionStore` has the database statements with their constraints, `IngestSystem` the
crash machine, `IngestService` the stores and the service as objects.

**Transcript.** `ClaudeCodeParser` and `CodexParser` assign indices and warnings (`ParserOutput`
states their contract, `ParserMeaning` what each line becomes), `EchoLinks` resolves echo rows, `HintEmission` and `HintPasses` turn messages
into hints, `HintRuns` and `HintWarnings` prove what the passes do, `HintMeaning` and
`FailureSignals` what becomes of each message, `TranscriptRows` is the top-level walk and `BuildSkim`
the skim partition.

**Cache and streams.** `ParsedSessionCache` and `ParsedSessionSystem` model the parsed-session hook,
and `ParsedSessionEvents` says what each event does to its consumers. `RawStreams` has the two capped
readers, `Utf8` the encoder and the streaming decoder, `Utf8Reference` a decoder without a state
machine that it agrees with, `SplitToolResult` the 2 KB split. `Idempotency`, `InputVersions` and `TextOrder` cover canonical JSON and input
versions.

## What the proofs found

- `insert` reads the new row back under a second lock, so the announcement of a queued operation can
  carry a row a worker has already claimed (`OperationsSubmit.AnnouncedSubmissionMayAlreadyRun`). It
  says queued exactly when neither a claim nor a cancel of the row committed before the read-back
  (`OperationsSubmit.AnnouncedRowIsQueuedExactlyWhen`).
- A reset that lands during a fetch leaves the hook loading. The comment at
  `useParsedSession.ts:418-425` expects a later effect run when the row's identity changes, but the
  dependencies at lines 466-470 are only the uid, the tool and the retry count. When a consumer is
  left so, and when not, is `ParsedSessionSystem.HandlerStrandsExactlyWhen`.
- The import input version sorts keys and fingerprints apart, so it cannot tell which session has
  which fingerprint (`InputVersions.ImportOfDigestsIsExact`, `InputVersions.SwappedFingerprintsCollide`).
  Both input versions join with newlines and a bar, so members holding those can collide
  (`InputVersions.RescanVersionIsExact`, `InputVersions.NewlineInARootCollides`).
- `splitToolResult` decodes its halves with two fresh decodes, each of which drops a byte order mark
  at its start. The halves of a split text make it up exactly when neither its first character nor the
  first one after the cut is that mark (`SplitToolResult.SplitMakesTheText`), and
  `SplitToolResult.LeadingMarkIsLost` is a text that loses it.
- The feed's status can say streaming with no stream open, in two ways. An error does not stop the
  refetch of the resync before it, whose arrival then sets the status
  (`FeedClient.StreamingWithoutASource`). And an error while polling leaves the status alone, so a
  status that a refetch set outlives the stream (`FeedClient.StreamingWhilePolling`). There is no third:
  `FeedHistory.StreamingWithoutAStreamExactlyWhen` has the exact condition.
- `subscribe` adds one to the client's id before comparing; at the largest 64-bit id the release
  build wraps, which is the one case a client ahead of the counter is told to resync
  (`Broadcaster.SubscribeAheadOfCounter`).
- The comment at `rawPreview.ts:34-38` says both cap flags can be set together; the line cap leaves
  the loop first, so they cannot (`RawStreams.ConsumeRawPreview`).
- The comment at `renderHints.ts:844-862` lets system text sit inside a group; the code takes assistant
  text only, and the model follows the code.

## Model

| member | source | states |
|---|---|---|
| `Broadcaster.OperationsBroadcaster.Publish` | components/operations/src/sse.rs:103-124 | numbers the transition with the next seq and keeps the ring the last min(200, published) events and the channel the last 256, both ending in it |
| `Broadcaster.OperationsBroadcaster.Subscribe` | components/operations/src/sse.rs:126-163 | answers from the ring exactly as an unbounded log would: nothing for a client without an id, a resync with no replay, or every event after the client's, and the live tail from there |
| `Broadcaster.SubscriptionIsExact` | components/operations/src/sse.rs:126-163 | the reply field by field, for any log and any id or none |
| `Broadcaster.SubscribeIsComplete` | components/operations/src/sse.rs:126-163 | for a client behind the counter: resync exactly when an unseen event was evicted, otherwise backlog and seen prefix make up the whole history |
| `Broadcaster.SubscribeAheadOfCounter` | components/operations/src/sse.rs:134-152 | a client ahead of the counter (it outlived the broadcaster) gets no backlog, and a resync only at the one id where the increment wraps |
| `Broadcaster.OperationsBroadcaster.Recv` | apps/backend/src/http_api.rs:249-270 | a receiver gets the next event of the log unless it fell 256 behind, and then learns by how many and goes on at the oldest kept |
| `OperationsFeed.EndToEndGapFreedom` | apps/backend/src/http_api.rs:188-273 | in every interleaving of publish, subscribe, lag, disconnect and reconnect, what a client processes between two resyncs is a contiguous slice of everything published, unaltered |
| `OperationsFeed.DedupeNeverFires` | apps/backend/src/http_api.rs:250-258 | the bridge's duplicate branch is never taken: every live seq is above the last backlog seq |
| `OperationsFeed.DrainedClientIsCurrent` | apps/frontend/src/features/operations/useOperationsFeed.ts:356-377 | once nothing is in flight on a healthy connection, the cursor is the last published seq |
| `OperationsFeed.FreshClientsSeeOnlyNewEvents` | apps/backend/src/http_api.rs:188-273 | in every run, a client that subscribes with no cursor, or is told to resync then, processes only what was published after, through any later reconnects |
| `OperationsFeed.FramesStayInOrder` | apps/backend/src/http_api.rs:188-273 | in every run, a resync is the first frame of a connection or, after a lag, the last, and no snapshot row follows a transition |
| `FeedClient.FeedClientRefs.OnFrame` | apps/frontend/src/features/operations/useOperationsFeed.ts:239-391 | on an open stream, moves the resume cursor exactly as the protocol does; any frame but a resync ends polling and resets the backoff, and a resync changes no status but starts a numbered refetch |
| `FeedClient.FeedClientRefs.OnRetryTimer` | apps/frontend/src/features/operations/useOperationsFeed.ts:320-338 | reopens the stream from the cursor, and only while mounted; so a mounted hook has either a stream or a pending timer |
| `FeedClient.FeedClientRefs.OnRefetched` | apps/frontend/src/features/operations/useOperationsFeed.ts:275-289 | when a refetch ends, the status becomes streaming exactly if it arrived and the hook is still mounted; cursor, backoff and polling stay |
| `FeedClient.StreamingWithoutASource` | apps/frontend/src/features/operations/useOperationsFeed.ts:265-294 | a resync, an error and then the refetch: the status says streaming with no stream open and no polling |
| `FeedClient.StreamingWhilePolling` | apps/frontend/src/features/operations/useOperationsFeed.ts:309-317 | six errors, a resync with its refetch, and a seventh error: streaming with no stream open, while polling |
| `FeedHistory.StatusIsExact` | apps/frontend/src/features/operations/useOperationsFeed.ts:239-329 | over every history of callbacks, the status, the failure count and whether a stream is open are those a plain reading of the events gives |
| `FeedHistory.BreaksTheTruthExactlyWhen` | apps/frontend/src/features/operations/useOperationsFeed.ts:239-329 | a status that claims an open stream only when there is one stops doing so exactly at a refetch that arrives with the stream closed, or at an error while polling under a streaming status |
| `FeedHistory.StreamingWithoutAStreamExactlyWhen` | apps/frontend/src/features/operations/useOperationsFeed.ts:265-329 | over every history: streaming with no stream open exactly when the stream is closed and a refetch arrival still stands, no sign of life after it and no error but past the whole ladder |
| `FeedClient.FeedClientRefs.HandleError` | apps/frontend/src/features/operations/useOperationsFeed.ts:291-329 | keeps the cursor, and polls exactly while the whole ladder was climbed without a frame |
| `FeedClient.LadderSum` | apps/frontend/src/features/operations/useOperationsFeed.ts:79-104 | past its last rung the ladder sums to 48 s, and then grows by 30 s an error |
| `FeedHistory.PollingNeedsLongOutage` | apps/frontend/src/features/operations/useOperationsFeed.ts:291-329 | in every timed history, polling runs exactly when the retries since the last sign of life sum to 48 s, and by then 48 s have passed since the first error |
| `OperationsStore.OperationsStore.Insert` | components/operations/src/store.rs:86-108 | accepts a row exactly when its id is new and no row with its key blocks; otherwise nothing changes |
| `OperationsStore.OperationsStore.FindByIdempotencyKey` | components/operations/src/store.rs:123-144 | returns the newest blocking row with the key, or says there is none |
| `OperationsStore.OperationsStore.ClaimNextQueued` | components/operations/src/store.rs:146-185 | moves to running the queued row of the kind that is first by stored text and then id, stamps its start, and changes no other |
| `OperationsStore.OperationsStore.CompleteNextQueuedCancellation` | components/operations/src/store.rs:187-216 | cancels the first unstarted cancel-requested row of the kind, and no other |
| `OperationsStore.OperationsStore.RequestCancel` | components/operations/src/store.rs:218-254 | queued and running rows become cancel_requested; any other status conflicts; an unknown id is not found |
| `OperationsStore.OperationsStore.CompleteTerminalConditional` | components/operations/src/store.rs:467-503 | only over running or cancel_requested, a success ends succeeded with its result alone and a failure failed with its error alone |
| `OperationsStore.OperationsStore.CompleteCancelled` | components/operations/src/store.rs:579-596 | cancellation is written only over cancel_requested |
| `OperationsStore.OperationsStore.ReconcileInterrupted` | components/operations/src/store.rs:318-330 | interrupts every running and cancel_requested row and touches no other |
| `OperationsLedger.WriteKeepsLedger` | components/operations/src/store.rs:146-330 | every guarded update keeps the partial unique index, the ids and the shape of every row, and strictly lowers the ledger's rank |
| `OperationsLedger.InsertRefusedExactly` | components/operations/src/migrations.rs:28-30 | only an insert can break the primary key or the partial index, and it would exactly when it is refused |
| `OperationsLedger.ReconcileLowersRank` | components/operations/src/store.rs:318-330 | each row reconciliation rewrites is paid for by rank |
| `OperationsLedger.LookupIsUnique` | components/operations/src/store.rs:123-144 | with the index in force the lookup by key has one possible answer |
| `OperationsSafety.CompletionsAlwaysHit` | components/operations/src/worker.rs:186-252 | in every run no completion write misses, and after it no row of the kind is started and unfinished |
| `OperationsSafety.OneActiveRowPerKind` | components/operations/src/worker.rs:92-130 | per kind at most one row is started and unfinished, and it is the one in the worker's hand |
| `OperationsSafety.CancelledWhileQueuedNeverRuns` | components/operations/src/worker.rs:92-182 | a row cancelled before it started never starts and never reaches a handler, restarts included |
| `OperationsSafety.TerminalRowsAreFinal` | components/operations/src/store.rs:467-503 | a terminal row never changes again |
| `OperationsSafety.UpdatesAreBounded` | components/operations/src/store.rs:146-330 | n submitted rows allow at most 3n committed updates, restarts included, and the ledger invariant holds throughout |
| `OperationsOutcome.EveryStatusHasItsCause` | components/operations/src/worker.rs:92-252 | in every history: succeeded only with the result the handler returned and no cancel request found before or after it, failed only with the error it returned, cancelled only after an accepted request that the worker or the handler saw, interrupted only by a restart that caught it |
| `OperationsOutcome.VerdictIsRecorded` | components/operations/src/worker.rs:186-252 | in every history, what a handler returned is what its finished row records, unless a restart or the last checkpoint came first |
| `OperationsNotices.CommitsAreAnnouncedOnce` | apps/backend/src/app.rs:335-348 | exactly the committed transitions are published, each at most once, and until then exactly one actor still owes it |
| `OperationsNotices.ReadBackSucceeds` | components/operations/src/store.rs:86-108 | the row an insert reads back in a second lock is still there |
| `OperationsSubmit.SubmitIsIdempotent` | apps/backend/src/app.rs:380-423 | from the insert that wins a key and for as long as its row blocks, every request for the key that was open or comes later is settled on that row, the inserter's own included |
| `OperationsSubmit.SettledOnTheBlockingRow` | apps/backend/src/app.rs:380-423 | the same from any reachable state on: as long as a row blocks, nobody is settled on another one |
| `OperationsSubmit.NobodyIsRefused` | apps/backend/src/app.rs:380-423 | as long as a row blocks a key, no request for the key comes back with an error |
| `OperationsSubmit.SubmissionIsRecorded` | components/operations/src/store.rs:86-108 | the row an accepted insert leaves, column by column; it is refused exactly when its id is taken or a row of its key is queued, running, cancel_requested or succeeded |
| `OperationsSubmit.ReadBackIsQueuedExactlyWhen` | components/operations/src/store.rs:86-108 | the row an insert reads back is still queued exactly when neither a claim nor a cancel of it committed in between |
| `OperationsSubmit.AnnouncedRowIsQueuedExactlyWhen` | components/operations/src/store.rs:86-108 | and the row announced, however late, is the row read back, so the same holds of it |
| `OperationsStamps.RunStampsTell` | components/operations/src/store.rs:146-330 | in every run the stamps of a row submitted since boot tell exactly which of its transitions were committed |
| `OperationsSubmit.AnnouncedSubmissionMayAlreadyRun` | components/operations/src/store.rs:86-108 | a run in which the `queued` announcement carries a row that is already running |
| `OperationsDrain.TurnLowersMeasure` | components/operations/src/worker.rs:92-130 | while a row of a kind is unfinished, every turn of its worker, idle polls included, lowers the measure of that kind |
| `OperationsDrain.TurnsArePaidFor` | components/operations/src/worker.rs:92-130 | over any schedule of all actors with no new row and no restart: while a row of the kind is unfinished, the turns taken and the measure left are within the measure at the start |
| `OperationsDrain.UnfinishedRowHasWork` | components/operations/src/worker.rs:92-130 | while a row is unfinished the worker of its kind has a turn to take |
| `OperationsDrain.WorkersDrainTheLedger` | components/operations/src/worker.rs:92-130 | once a kind's worker has taken 30 n + 9 turns over n rows, in any such schedule, every row of the kind is terminal |
| `OperationWorker.OperationWorker.RunOnce` | components/operations/src/worker.rs:92-130 | one turn cancels the first unstarted cancel request, or takes the first queued row all the way to a terminal status and announces both rows it committed itself, or does nothing |
| `OperationWorker.OperationWorker.RunClaimed` | components/operations/src/worker.rs:149-252 | a cancel request before the checkpoint keeps the handler out; one before the second checkpoint turns success into cancellation; one after it is too late and success stands; one write lands in every case |
| `RawSessionStore.InsertCommits` | components/raw-session-store/src/sqlite.rs:155-195 | an insert of a new session passes every constraint and leaves exact reference counts |
| `RawSessionStore.InsertFailsExactly` | components/raw-session-store/src/sqlite.rs:155-195 | an insert is refused for a taken id or a taken source key, and for nothing else |
| `RawSessionStore.ReplaceCommits` | components/raw-session-store/src/sqlite.rs:197-252 | a replace passes every constraint, keeps counts exact even when old and new content agree, and frees the old blob exactly when nothing refers to it |
| `RawSessionStore.DecrementSettles` | components/raw-session-store/src/sqlite.rs:276-295 | deleting a row at zero never breaks the foreign key, and happens exactly when no session refers to it |
| `RawSessionStore.ReferencedIffCounted` | components/raw-session-store/src/sqlite.rs:146-153 | the referenced set is exactly the set of counted blobs |
| `IngestSystem.ContentAddressingIsCrashSafe` | components/ingest-service/src/service.rs:54-98 | with a crash or an I/O failure between any two steps, every session's blob exists and hashes to its name, and the blob rows are exactly the referenced addresses, each counting its sessions |
| `IngestSystem.TransactionsCommit` | components/raw-session-store/src/sqlite.rs:155-252 | no transaction of a run is refused, but for an insert that drew an id already in use |
| `IngestSystem.MaintenanceLeavesExactlyTheReferenced` | apps/backend/src/app.rs:566-577 | after startup maintenance the blob files are exactly the referenced ones and no temp file is left |
| `IngestSystem.CommittedFileHoldsTheBytes` | components/raw-session-store/src/local_fs_blob_store.rs:39-76 | short of a hash collision, the file a commit is about to reference holds the ingested bytes |
| `IngestService.LocalFsBlobStore.Put` | components/raw-session-store/src/local_fs_blob_store.rs:39-76 | an existing file wins; otherwise the whole content appears under its address and no temp file stays |
| `IngestService.LocalFsBlobStore.DeleteOrphanBlobs` | components/raw-session-store/src/local_fs_blob_store.rs:143-152 | keeps exactly the referenced files, contents unchanged |
| `IngestService.IngestService.Ingest` | components/ingest-service/src/service.rs:54-98 | refuses exactly a fingerprint mismatch, changes exactly one session row, and reports inserted, unchanged or replaced as the stored row was |
| `IngestService.IngestService.IngestManyWithCheckpoint` | components/ingest-service/src/service.rs:100-116 | stops at the first refused checkpoint or mismatch; every source session then has the fingerprint it had last in the ingested part, and each outcome names the row of its session and says inserted, unchanged or replaced as what was stored and what came before it in the batch decide |
| `IngestService.IngestService.StartupMaintenance` | apps/backend/src/app.rs:566-577 | leaves no temp file and exactly the referenced files |
| `HintEmission.BucketWarnings` | apps/frontend/src/features/sessions/renderHints.ts:399-413 | buckets each routed warning under its message, in order, and no other |
| `HintEmission.ComputePairs` | apps/frontend/src/features/sessions/renderHints.ts:443-461 | pairs a call with the result right after it, and marks exactly those results consumed |
| `HintEmission.EmitHints` | apps/frontend/src/features/sessions/renderHints.ts:463-644 | the first pass: one hint per message that is not a consumed result or a silent blank turn |
| `HintMeaning.CallsAreEmitted` | apps/frontend/src/features/sessions/renderHints.ts:499-546 | a call and the result right after it are one hint with both their warnings; any other call stands alone, any other result is shown as stray |
| `HintMeaning.TextIsEmitted` | apps/frontend/src/features/sessions/renderHints.ts:586-643 | a turn with text, a note or an unknown row is shown as it is unless it has warnings and all are for the banner; chapter markers are shown always |
| `HintMeaning.BlankTurnIsEmitted` | apps/frontend/src/features/sessions/renderHints.ts:571-584 | a user or assistant turn of white space only has no row, and a banner hint if a warning names it |
| `HintMeaning.RowsAreEmitted` | apps/frontend/src/features/sessions/renderHints.ts:479-497 | boundary and metadata rows, the category defaulting to control, an echo row without its text |
| `HintMeaning.ClassificationIsExact` | apps/frontend/src/features/sessions/renderHints.ts:286-316 | which severities and categories come to each way of showing a warning |
| `HintPasses.ComputeAggregateStatus` | apps/frontend/src/features/sessions/renderHints.ts:813-840 | in flight, all succeeded, all failed or mixed, from the counted verdicts of the paired results |
| `HintPasses.AggregateStatusMeans` | apps/frontend/src/features/sessions/renderHints.ts:813-840 | a group is in flight when any call lacks its result, else succeeded, failed or mixed as all, none or some of its calls did; its numbers are the calls with that verdict |
| `HintMeaning.CallIsJudgedByItsResult` | apps/frontend/src/features/sessions/renderHints.ts:786-840 | a call is judged by the result right after it and named after its own message |
| `FailureSignals.NoSignalIsNoFailure` | apps/frontend/src/features/sessions/renderHints.ts:333-353 | a text with none of the signal words is no failure, nor is anything but a tool result |
| `FailureSignals.FlagIsAFailure` | apps/frontend/src/features/sessions/renderHints.ts:333-345 | the three JSON flags count wherever they stand, in any letter case |
| `FailureSignals.ExitCodeIsAFailure` | apps/frontend/src/features/sessions/renderHints.ts:346-349 | so does an exit code that is not zero |
| `FailureSignals.StatusLineIsAFailure` | apps/frontend/src/features/sessions/renderHints.ts:350-351 | and a status line that says failed or error |
| `HintPasses.ToolNamesAreDistinct` | apps/frontend/src/features/sessions/renderHints.ts:959-970 | the head lists every named tool of the group once, and no other |
| `HintPasses.ToolNamesAreInOrder` | apps/frontend/src/features/sessions/renderHints.ts:959-970 | in the order in which the calls first name them |
| `HintPasses.GroupLifecycles` | apps/frontend/src/features/sessions/renderHints.ts:887-1028 | the buffer-and-flush loop yields the grouping pass, of which the lemmas below speak, and nothing else |
| `HintPasses.ClusterMetadata` | apps/frontend/src/features/sessions/renderHints.ts:689-734 | the buffer-and-flush loop yields the clustering pass, of which the lemmas below speak, and nothing else |
| `HintRuns.PassesCommute` | apps/frontend/src/features/sessions/renderHints.ts:673-734 | clustering after grouping and grouping after clustering give the same stream |
| `HintRuns.RunIsFlushedInPlace` | apps/frontend/src/features/sessions/renderHints.ts:887-1028 | a maximal run is replaced, where it stands, by its head and members or kept as it is; the rest of the stream is passed on its own |
| `HintRuns.DelimiterStaysInPlace` | apps/frontend/src/features/sessions/renderHints.ts:1013-1027 | a hint outside every run stays where it is |
| `HintRuns.HeadsAreTheQualifyingRuns` | apps/frontend/src/features/sessions/renderHints.ts:927-1015 | a head stands at a place exactly when a maximal run with two calls, or two metadata rows, starts there, and it says what that run holds |
| `HintMeaning.RunsAreExact` | apps/frontend/src/features/sessions/renderHints.ts:898-945 | a tool run is made of calls and of assistant text shown as it is, a metadata run of metadata rows |
| `HintMeaning.QualifiesExactly` | apps/frontend/src/features/sessions/renderHints.ts:947-1015 | two calls make a group and two rows a cluster, fewer do not |
| `HintMeaning.HeadSaysWhatItsRunHolds` | apps/frontend/src/features/sessions/renderHints.ts:947-985 | the head lists the calls or rows of its run in order, its tools, its status, and the first tool as the tool |
| `HintRuns.EraseUndoesCollapse` | apps/frontend/src/features/sessions/renderHints.ts:689-734 | dropping the heads and relabelling the members gives the input of the pass back |
| `TranscriptRows.RenderTopLevelHints` | apps/frontend/src/features/sessions/TranscriptView.tsx:259-358 | the loops yield the top-level rows, of which the lemmas below speak, and nothing else |
| `TranscriptRows.RowsShowEveryHint` | apps/frontend/src/features/sessions/TranscriptView.tsx:259-358 | rows show the first-pass hints each once and in order; every member is taken by the head before it, and a group's badge counts its calls |
| `TranscriptRows.EveryMessageIsVisitedOnce` | apps/frontend/src/features/sessions/renderHints.ts:443-644 | on a stream or a slice, rendering visits every message once and in order but for blank turns with no warning of their own |
| `HintMeaning.OnlyBlankTurnsAreDropped` | apps/frontend/src/features/sessions/renderHints.ts:571-584 | on a stream or a slice, a message is visited exactly when it is no user or assistant turn, or has a character that is no white space, or a warning names it |
| `HintWarnings.WarningsLandExactlyOnce` | apps/frontend/src/features/sessions/renderHints.ts:466-644 | on a whole stream each routed warning whose message is neither boundary nor metadata is on exactly one hint after all three passes |
| `HintWarnings.EachHintCarriesItsOwn` | apps/frontend/src/features/sessions/renderHints.ts:466-644 | and that hint is the one that shows its message: a hint carries, in order, what the messages it visits are owed, and a head carries none |
| `ParserOutput.IndexedWarningsLandOnce` | apps/frontend/src/features/sessions/renderHints.ts:399-413 | every warning a parser ties to a message ends on exactly one hint |
| `ClaudeCodeParser.ParseClaudeCode` | apps/frontend/src/features/sessions/parsers/claude_code.ts:65-492 | indices are positions, lines never go back, every indexed warning names its own unknown message on its own line, and the rows are those of each line in turn |
| `ClaudeCodeParser.ItemsKeepContract` | apps/frontend/src/features/sessions/parsers/claude_code.ts:167-227 | a content array keeps the contract however its items mix |
| `ParserMeaning.ClaudeRecordIsOneRow` | apps/frontend/src/features/sessions/parsers/claude_code.ts:65-492 | every record but a turn with a content array has one row, of the kind and text of the record |
| `ParserMeaning.ClaudeBrokenLine` | apps/frontend/src/features/sessions/parsers/claude_code.ts:65-140 | a line that is no object has no row and one warning, but for a blank last line |
| `ParserMeaning.ClaudeProblemsAreReported` | apps/frontend/src/features/sessions/parsers/claude_code.ts:65-492 | an unknown type or an odd content is reported at its row, a missing type or a bad time stamp without one |
| `ParserMeaning.ItemIsOneRow` | apps/frontend/src/features/sessions/parsers/claude_code.ts:167-355 | what each item of a content array becomes, by the role of its turn |
| `ParserMeaning.StrangeItemIsUnknown` | apps/frontend/src/features/sessions/parsers/claude_code.ts:167-355 | an item its role does not have is an unknown row, with a warning that names it |
| `ParserMeaning.ItemsComeInOrder` | apps/frontend/src/features/sessions/parsers/claude_code.ts:167-355 | the rows of a content array are those of its items in order, one for each object |
| `CodexParser.ParseCodex` | apps/frontend/src/features/sessions/parsers/codex.ts:66-859 | the same contract for Codex, echo rows resolved |
| `ParserMeaning.CodexRecordIsOneRow` | apps/frontend/src/features/sessions/parsers/codex.ts:66-859 | every record has one row, of the kind and text of the record; session metadata after the first marks a resumption |
| `ParserMeaning.OthersAreKept` | apps/frontend/src/features/sessions/parsers/codex.ts:879-931 | resolving the echo rows keeps every other row |
| `ParserMeaning.CodexProblemsAreReported` | apps/frontend/src/features/sessions/parsers/codex.ts:66-859 | unknown shapes are reported at their row, the other problems without one |
| `CodexParser.EchoesPointAtTheirLink` | apps/frontend/src/features/sessions/parsers/codex.ts:206-250 | in the output an echo row points at the line of its link, and at its own line when it has none |
| `EchoLinks.ResolveEchoBackPointers` | apps/frontend/src/features/sessions/parsers/codex.ts:879-931 | the in-place pass gives every row what the pointwise specification says of the input |
| `EchoLinks.TargetIsTheLink` | apps/frontend/src/features/sessions/parsers/codex.ts:886-926 | the search finds the nearest canonical message with no echo of its role between, or behind only when nothing of the role lies ahead; and finds none only where there is none |
| `EchoLinks.ResolveIsIdempotent` | apps/frontend/src/features/sessions/parsers/codex.ts:879-931 | running the pass again changes nothing |
| `EchoLinks.OrderDoesNotMatter` | apps/frontend/src/features/sessions/parsers/codex.ts:879-931 | visiting the rows in any order, with any repetition, gives the same links |
| `EchoLinks.ForwardLinksKeepOrder` | apps/frontend/src/features/sessions/parsers/codex.ts:886-906 | forward links of one role are injective and never cross |
| `EchoLinks.AtMostOneLooksBehind` | apps/frontend/src/features/sessions/parsers/codex.ts:919-926 | at most one echo per role uses the backward fallback |
| `EchoLinks.BackwardLinkIsLast` | apps/frontend/src/features/sessions/parsers/codex.ts:919-926 | and it is the last echo, behind every canonical message of the role |
| `BuildSkim.BuildSkim` | apps/frontend/src/features/sessions/parsers/buildSkim.ts:51-160 | the blocks tile the stream by the block rules, and the trackers are never both open |
| `BuildSkim.SkimIsUnique` | apps/frontend/src/features/sessions/parsers/buildSkim.ts:51-160 | there is only one way to cut a stream by those rules |
| `BuildSkim.EveryMessageInOneBlock` | apps/frontend/src/features/sessions/parsers/buildSkim.ts:81-153 | every message lies in one block; user messages up to the threshold, boundaries and user messages above it each start exactly the block they should |
| `BuildSkim.AgentRunStartsExactlyWhen` | apps/frontend/src/features/sessions/parsers/buildSkim.ts:81-153 | an agent run starts at a message neither boundary nor user, first in the stream or right after a boundary or an oversized message |
| `ParsedSessionCache.SessionCache.Store` | apps/frontend/src/features/sessions/useParsedSession.ts:390-401 | caches a payload only in the epoch its fetch started in, evicting the oldest entries past five |
| `ParsedSessionCache.SessionCache.Read` | apps/frontend/src/features/sessions/useParsedSession.ts:236-242 | a hit moves to the most recent end, a miss changes nothing |
| `ParsedSessionCache.SessionCache.BumpCacheEpoch` | apps/frontend/src/features/sessions/useParsedSession.ts:166-174 | a reset empties both in-flight maps and the cache, and aborts exactly the registered controllers |
| `ParsedSessionCache.WrittenKeySurvives` | apps/frontend/src/features/sessions/useParsedSession.ts:390-401 | the key just written survives the eviction; a present key keeps its place, a new one goes last and costs the oldest entry only when the cache is full |
| `ParsedSessionCache.TouchOnlyReorders` | apps/frontend/src/features/sessions/useParsedSession.ts:236-242 | the recency bump moves one entry to the end and keeps all the others in order |
| `ParsedSessionSystem.CacheHoldsOnlyTheCurrentEpoch` | apps/frontend/src/features/sessions/useParsedSession.ts:390-401 | in every history: at most five entries, one per key, each delivered by a fetch for that key started since the last reset |
| `ParsedSessionSystem.InFlightMapsAgree` | apps/frontend/src/features/sessions/useParsedSession.ts:404-436 | the two in-flight maps are equal, hold only fetches of the current epoch, and none whose own handler has run |
| `ParsedSessionEvents.EffectJoinsTheFetch` | apps/frontend/src/features/sessions/useParsedSession.ts:306-373 | in every history, an effect run whose key is not cached but in flight starts no fetch and waits on that one without owning it |
| `ParsedSessionEvents.EffectShowsTheCached` | apps/frontend/src/features/sessions/useParsedSession.ts:286-304 | one whose key is cached shows the payload, fetches nothing and makes it the most recent |
| `ParsedSessionEvents.EffectStartsAFetch` | apps/frontend/src/features/sessions/useParsedSession.ts:375-430 | any other with a key starts one fetch, which it owns |
| `ParsedSessionEvents.FetchStartsExactlyWhen` | apps/frontend/src/features/sessions/useParsedSession.ts:262-430 | so a fetch starts exactly when a mounted consumer's key is neither cached nor in flight, or on retry |
| `ParsedSessionEvents.MountShowsTheCached` | apps/frontend/src/features/sessions/useParsedSession.ts:227-246 | the first render shows what is cached, else loading, idle or no_raw, and starts nothing |
| `ParsedSessionEvents.UnmountIsExact` | apps/frontend/src/features/sessions/useParsedSession.ts:447-456 | cancels its listener, aborts the fetch it owns and no other, and leaves the in-flight maps alone |
| `ParsedSessionEvents.ArrivalIsCached` | apps/frontend/src/features/sessions/useParsedSession.ts:386-402 | a payload that arrives is cached exactly in the epoch its fetch started in |
| `ParsedSessionEvents.HandlerIsExact` | apps/frontend/src/features/sessions/useParsedSession.ts:323-445 | what a settle handler does, by outcome, epoch and ownership, to its consumer and to the in-flight maps |
| `ParsedSessionEvents.ResetIsExact` | apps/frontend/src/features/sessions/useParsedSession.ts:166-174 | a reset empties cache and maps, starts an epoch and aborts exactly the fetches in flight |
| `ParsedSessionEvents.KeysTellRowsApart` | apps/frontend/src/features/sessions/useParsedSession.ts:201-203 | for the two tools there are, different sessions or tools never share a key |
| `ParsedSessionSystem.NoStalePayloadIsEverShown` | apps/frontend/src/features/sessions/useParsedSession.ts:293-459 | whatever happens next, a consumer that moves to success or truncated shows a payload fetched for its row since the last reset |
| `ParsedSessionSystem.OnlyAResetStrands` | apps/frontend/src/features/sessions/useParsedSession.ts:408-445 | a consumer left loading with nothing to wake it was overtaken by a reset |
| `ParsedSessionSystem.HandlerStrandsExactlyWhen` | apps/frontend/src/features/sessions/useParsedSession.ts:408-445 | a handler leaves its consumer loading for good exactly when the epoch advanced and the fetch resolved, or was its own and aborted |
| `ParsedSessionSystem.AResetCanStrand` | apps/frontend/src/features/sessions/useParsedSession.ts:418-470 | and a reset during a fetch does leave a mounted consumer so |
| `RawStreams.StreamRawText` | apps/frontend/src/features/sessions/streamRawText.ts:157-251 | for any chunking: exactly the first min(total, 5 MB) bytes are taken, the text is their decoding, and truncated says whether any were left |
| `RawStreams.ConsumeRawPreview` | apps/frontend/src/features/sessions/rawPreview.ts:172-268 | at most 20 lines, always a prefix of the newline split, exactly the first min(20, all) when the byte cap does not fire, and the complete lines read so far when it does; it reads on exactly until a cap fires |
| `RawStreams.LinesMakeTheText` | apps/frontend/src/features/sessions/rawPreview.ts:229-244 | the newline split loses nothing: lines, newlines and fragment are the text |
| `RawStreams.LinesGrow` | apps/frontend/src/features/sessions/rawPreview.ts:229-244 | more text never changes lines already complete |
| `Utf8.FeedAppend` | apps/frontend/src/features/sessions/streamRawText.ts:181-240 | the streaming law: feeding a decoder in two parts is feeding it whole, byte order mark included |
| `Utf8.DecodeEncode` | apps/frontend/src/features/sessions/TranscriptView.tsx:1469-1471 | decoding undoes encoding, but for a leading byte order mark |
| `Utf8Reference.DecodeIsReference` | apps/frontend/src/features/sessions/streamRawText.ts:181-240 | on any bytes, malformed ones included, the decoder gives what decoding sequence by sequence gives, one U+FFFD for each maximal broken part |
| `Utf8Reference.BrokenIsCutOff` | apps/frontend/src/features/sessions/streamRawText.ts:181-240 | where the broken parts are exactly what is left of well-formed sequences cut off behind |
| `Utf8Reference.CodePointEncodes` | apps/frontend/src/features/sessions/streamRawText.ts:181-240 | and a well-formed sequence stands for the character it encodes |
| `SplitToolResult.SplitToolResult` | apps/frontend/src/features/sessions/TranscriptView.tsx:1465-1492 | cuts at the last character boundary not above 2048 bytes, at most 3 bytes back, and decodes the two slices |
| `SplitToolResult.HalvesAreWhole` | apps/frontend/src/features/sessions/TranscriptView.tsx:1480-1486 | both slices are well-formed UTF-8, join to the encoding of the text, and hold whole characters |
| `SplitToolResult.HalvesMakeTheText` | apps/frontend/src/features/sessions/TranscriptView.tsx:1485-1486 | at any boundary, the two decoded halves make up the text exactly when neither starts with a byte order mark |
| `SplitToolResult.SplitMakesTheText` | apps/frontend/src/features/sessions/TranscriptView.tsx:1465-1492 | for every text that is split, both sides of the cut hold characters, and the halves make up the text exactly when neither its first character nor the first after the cut is a byte order mark |
| `SplitToolResult.LeadingMarkIsLost` | apps/frontend/src/features/sessions/TranscriptView.tsx:1465-1492 | a byte order mark and 2048 letters is such a text whose halves do not make it up |
| `Idempotency.CanonicalDecidesEquality` | components/operations/src/idempotency.rs:49-63 | two values have the same canonical form exactly when they are equal up to member order at every depth, array order kept |
| `Idempotency.CanonicalIsIdempotent` | components/operations/src/idempotency.rs:49-63 | canonicalising twice is canonicalising once |
| `Idempotency.CanonicalKeepsLookups` | components/operations/src/idempotency.rs:49-63 | every lookup answers as before, in canonical form |
| `Idempotency.ParamsHashIsExact` | components/operations/src/idempotency.rs:11-16 | with a digest that tells values apart, equal hashes are equal parameters up to member order |
| `InputVersions.ImportSessionsInputVersion` | components/operations/src/idempotency.rs:18-33 | digests the sorted keys and, apart from them, the sorted fingerprints |
| `InputVersions.ImportTextOfTwo` | components/operations/src/idempotency.rs:18-33 | the digested text of two sessions: keys in order, a line each, a bar, fingerprints alike |
| `InputVersions.RescanTextOfTwo` | components/operations/src/idempotency.rs:35-43 | the digested text of two roots: the configuration, a bar, the roots in order |
| `TextOrder.LexIsByFirstDifference` | components/operations/src/store.rs:146-216 | text order: a prefix first, else the first character that differs decides |
| `InputVersions.InputVersionsForgetOrder` | components/operations/src/idempotency.rs:18-43 | both input versions are unchanged by permuting their inputs |
| `InputVersions.ImportVersionIsExact` | components/operations/src/idempotency.rs:18-33 | for all inputs, two imports share a version exactly when their keys and, apart from that, their fingerprints show the same lines, or a bar inside one passes for the separator of the other |
| `InputVersions.ImportOfDigestsIsExact` | components/operations/src/idempotency.rs:18-33 | with digests for fingerprints that is the same lines of keys and the same multiset of fingerprints, and for newline-free keys the same multiset of keys |
| `InputVersions.SwappedFingerprintsCollide` | components/operations/src/idempotency.rs:18-33 | so two sessions that trade fingerprints leave the version as it was |
| `InputVersions.RescanVersionIsExact` | components/operations/src/idempotency.rs:35-43 | for all inputs, two rescans share a version exactly when configuration and lines of roots agree, or a bar inside one passes for the separator of the other |
| `InputVersions.RescanOfPathsIsExact` | components/operations/src/idempotency.rs:35-43 | with bar-free configurations only the former; newline-free roots must agree as multisets, but for no root and one empty root |
| `InputVersions.NewlineInARootCollides` | components/operations/src/idempotency.rs:35-43 | a root that holds a newline shares its version with the two roots around it |
| `InputVersions.BarInTheConfigurationCollides` | components/operations/src/idempotency.rs:35-43 | a bar in the configuration shares a version with one in a root |

## Left out

- Publish order: a worker can commit before a cancel and publish after it, so no order of one operation's announcements is claimed, nor that the client's operations map converges.
- OperationsSubmit.SubmitIsIdempotent: is stated at the store call that decides a submission, because the winning row may stop blocking before the caller returns.
- OperationsSystem: assumes that store calls succeed, that handlers return, and that a handler reports cancellation only after its checkpoint saw the request; store failures, which only log, can leave a row running.
- OperationsFeed.EndToEndGapFreedom: holds within one broadcaster lifetime and while the 64-bit counter does not overflow; JavaScript's loss of integer precision above 2^53 is not modelled.
- FeedClient.FeedClientRefs.OnFrame: keeps the client's cursor, backoff and status; its map of operations, which snapshots, transitions and refetches fill, is not modelled, and malformed frames, which change nothing, are not frames here.
- FeedHistory covers one mount of the hook; refs that outlive a development-mode double mount are not modelled.
- The polling timer's own requests and the visibility of frames across restarts.
- `update_status`, `finish` and `list` of the operations store, and the migrations beyond the partial index.
- OperationWorker.OperationWorker.RunOnce: takes the claimed row's cancel request between any two of its own store calls, but no other actor's steps, and its log leaves out the canceller's announcement; arbitrary interleaving is in OperationsSystem, which models the endless loop as a program counter.
- OperationWorker.OperationWorker.RunClaimed: likewise, and a handler that reports cancellation has seen the request.
- OperationsFeed and ParsedSessionSystem model the bridge task, the effect and its promise callbacks as atomic steps of a state machine rather than as methods, because their interleaving is the point.
- IngestSystem: crashes are process crashes; power loss between a rename and its directory sync is not modelled, nor reads of a blob that a concurrent replace deletes, and SHA-256 is a function parameter.
- `run_import_operation`, rescanning, source inventory, scan errors, directory discovery and session merging.
- ClaudeCodeParser.ParseClaudeCode and CodexParser.ParseCodex start from the shape the branches test: JSON parsing, the formatting of texts and timestamps, and UTF-8 byte counts are inputs, and the quoted part of a warning's reason is dropped.
- Hints drop the raw tooltip and the spoken label of metadata rows, which are text formatting; text tests use ASCII lower-casing, as the tested phrases are ASCII.
- HintWarnings.WarningsLandExactlyOnce: is for whole streams, because the code compares a warning's index with the length of the slice it is given.
- React rendering, row markup, tabs, URL state and local storage.
- ParsedSessionSystem: a payload is named by the fetch that produced it; the parsed content is not modelled.
- RawStreams.StreamRawText and RawStreams.ConsumeRawPreview: leave out aborts and network errors, which end the read with an exception and no result, and the per-line JSON test of the preview.
- Utf8: text is a sequence of Unicode scalar values, so the lone surrogates a JavaScript string can hold are not modelled.
- Idempotency.ParamsHashIsExact: takes serialisation and SHA-256 together as a digest that tells values apart; numbers are compared by their text.
- InputVersions.ImportVersionIsExact and InputVersions.RescanVersionIsExact: take SHA-256 as a digest that tells texts apart.
