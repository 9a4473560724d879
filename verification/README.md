# Verified models of the security-audit service

Dafny models of the parts of the service whose correctness depends on interleavings, crashes, counting
arguments or text formats, with proofs of what they guarantee. `dafny verify dfyconfig.toml` checks
everything; no file depends on anything outside this directory.

Protocols are modelled as a total function `Do(state, step)` (a step that is not enabled changes nothing)
and theorems quantify over all step sequences, so they cover every interleaving and a crash between any two
steps. Objects that the code updates in place are classes whose methods are proved equal to the
specification functions the theorems speak about; loops keep their form as methods with invariants.

| file | component |
|---|---|
| `StreamBuffer.dfy`, `LiveStream.dfy`, `LiveStatus.dfy` | token buffer, answer producer, event poller and browser client; what a client is told |
| `CitationScanner.dfy`, `CitationFilters.dfy` | citation references of an answer; saving and showing citations |
| `OutboxTables.dfy`, `OutboxDelivery.dfy`, `OutboxHistory.dfy` | outbox rows; dispatcher, broker and late-acknowledging worker; the rows as a history |
| `VectorGenerations.dfy` | building, validating, activating, rolling back and restoring embeddings |
| `ScopedSearch.dfy`, `GuideIngest.dfy` | scoped nearest-chunk query; transactional ingest of guides |
| `EventCursor.dfy` | resumable event stream of a Linux audit |
| `ControlStream.dfy`, `ControlTrace.dfy`, `ControlSnapshot.dfy`, `ControlText.dfy` | per-control AI stream, its events, its stored outputs, its texts |
| `StableUnique.dfy`, `BatchMerge.dfy`, `BatchStream.dfy` | truncated de-duplication; splitting and merging of batches; the batch-by-batch stream |
| `PageMap.dfy` | page-map builder and the validator's rules for it |
| `SnapshotPreimage.dfy`, `ClamFraming.dfy` | digest preimage of a source snapshot; virus-scanner frames |
| `Options.dfy`, `Elements.dfy`, `PythonText.dfy`, `StableSort.dfy` | shared vocabulary |

## Where the code does less than one might expect

Each entry names the theorem that says exactly when it happens, then a run or table content that reaches it.

- The stream limit compares bytes with characters: content is bounded by 100,000 characters but by 400,000
  bytes, and for wide text what is kept depends on how it was cut into tokens
  (`StreamBuffer.ChunkingMattersExactly`; `ChunkingMattersForWideText`, `ByteBoundIsTight`).
- The browser client appends; after one failed read in epoch 0 it shows text twice
  (`LiveStream.FailedReadDuplicatesExactlyInEpochZero`; `EpochZeroDeliveryHappens`).
- A delivery whose execution was superseded is acknowledged without a result; another delivery then owns the
  work (`OutboxDelivery.AckedWithoutResultExactly`; `SupersededDeliveryIsAckedWithoutResult`).
- A task that raises is acknowledged, and the work can then be lost for good
  (`OutboxDelivery.LostExactlyWhenStuck`; `OneTaskExceptionLosesTheWork`).
- Marking an event published after the worker has finished puts the step back to QUEUED
  (`OutboxDelivery.StepTracksResultExactly`; `LateMarkHappens`).
- The counts checked at the end of an ingest do not ensure that the ingested chunks are visible, and a retired
  document stays hidden (`GuideIngest.CommittedGuideIsFullyVisible`; `CountsMissRetiredChunk`).
- The queries that replaced the first one compare only the organization and can return chunks of another guide
  (`ScopedSearch.StaysInScopeExactly`; `LaterQueriesCanLeak`).
- A run without activation hides a generation that was live (`VectorGenerations.VectorStore.Rebuild`;
  `ValidationAloneHidesLiveGeneration`).
- The event stream reads events and then the status, and the service commits the terminal status before its
  last event, so a stream can stop with events unsent; resuming recovers them
  (`EventCursor.StoppedStreamIsCompleteExactly`; `LastEventCanBeMissed`).
- An AI output over the length limit is stored but not restored, and so blocks the snapshot for good
  (`ControlSnapshot.OversizedOutputBlocksSnapshotForever`; `OversizedOutputIsStored`).
- Control page ranges overlap when a control recurs (`PageMap.RangesPartitionExactly`; `ControlsCanRecur`), and
  the builder sets `runtime_activation_allowed`, the one thing the mapping validator rejects
  (`PageMap.BuildAndValidate`).

## Model

| member | source | states |
|---|---|---|
| `StreamBuffer.AppendBuffers` | apps/api/chat_conversation.py:232-247 | one append keeps the buffer a prefix of everything sent, within both bounds, and full whenever it truncated |
| `StreamBuffer.ContentIsBoundedPrefix` | apps/api/chat_conversation.py:232-259 | after any appends and resets the content is a prefix of the tokens since the last reset, of at most 100,000 characters and 400,000 bytes, and shorter than them only if it is full |
| `StreamBuffer.ChunkingMattersExactly` | apps/api/chat_conversation.py:232-247 | what is kept depends on the cut into tokens if and only if the byte limit is reached before the last of the first 100,000 characters; otherwise exactly those are kept, however the text was cut |
| `StreamBuffer.OneByteTextIsLimitedExactly` | apps/api/chat_conversation.py:232-247 | for one-byte text the content is exactly the first 100,000 characters, however it was cut |
| `StreamBuffer.ByteBoundIsTight` | apps/api/chat_conversation.py:107 | a content of 400,000 bytes is reached |
| `StreamBuffer.ChunkingMattersForWideText` | apps/api/chat_conversation.py:232-247 | 60,000 two-byte characters are such a text |
| `StreamBuffer.StreamStore.AppendToken` | apps/api/chat_conversation.py:232-247 | the stored state becomes the specified append |
| `StreamBuffer.StreamStore.ResetStream` | apps/api/chat_conversation.py:250-259 | the epoch is raised and the content cleared together |
| `StreamBuffer.StreamStore.Discard` | apps/api/chat_conversation.py:275-279 | the keys are gone, which reads as empty content in epoch 0 |
| `StreamBuffer.StreamStore.AppendAll` | apps/api/chat_conversation.py:232-247 | draining a token source leaves a bounded prefix of all of it |
| `LiveStream.EventStream.Next` | apps/api/chat_conversation.py:1488-1533 | one round of the poller sends the specified events and moves offset, epoch and status |
| `LiveStream.PollDelivers` | apps/api/chat_conversation.py:1510-1533 | what the events of one round do to an appending and to an offset-using client, for every snapshot |
| `LiveStream.SuccessfulRead` | apps/api/chat_conversation.py:1510-1533 | in every reachable state a successful read leaves the offset-using client with the content read, and the appending one exactly when no shrink happened since the last reset |
| `LiveStream.EveryRunKeepsInv` | apps/api/chat_conversation.py:1113-1398 | every interleaving of producer, request handlers, poller and failed reads keeps buffer, phase, client and ending consistent |
| `LiveStream.EveryPollShowsContent` | apps/api/chat_conversation.py:1488-1533 | after any run a successful poll shows exactly the stored content to an offset-using client in any epoch and after any failed reads, to an appending client if no read failed, and the shorter-content branch is not taken |
| `LiveStream.BetweenPollsTextIsPrefix` | apps/api/chat_conversation.py:1510-1533 | between polls the appending client shows a prefix of the content unless the epoch moved |
| `LiveStream.EndedStreamShowsFinalContent` | apps/api/chat_conversation.py:1256-1398 | a stream that ended COMPLETED shows everything stored in the last epoch, the fixed answer exactly on the no-evidence path; one that ended FAILED shows nothing |
| `LiveStream.FailedReadDuplicatesExactlyInEpochZero` | apps/api/chat_conversation.py:262-272 | one failed read makes the appending client wrong exactly when something was already delivered in epoch 0 and the stream is still there |
| `LiveStream.EpochZeroDeliveryHappens` | apps/api/chat_conversation.py:1510-1533 | a run that reaches that case |
| `LiveStatus.PollTellsChange` | apps/api/chat_conversation.py:1534-1551 | after a poll the client knows the status read, and is told one exactly when it differs from the last one told |
| `LiveStatus.EveryChangeIsToldOnce` | apps/api/chat_conversation.py:1488-1554 | in every run the statuses told are exactly the changes among the statuses read, each once and in order |
| `LiveStatus.ToldStatusesAdvance` | apps/api/chat_conversation.py:1488-1554 | in every run a client is told queued before streaming before one terminal status, none twice, and a stream that ended has told its terminal status last |
| `LiveStatus.TerminalPollEnds` | apps/api/chat_conversation.py:1552-1554 | the poll that reads a terminal status, and no other, ends the stream and deletes what was stored |
| `LiveStatus.OutcomeDecidesEnding` | apps/api/chat_conversation.py:1256-1398 | undisturbed, generated text completes as stored, the fixed answer replaces it and completes, and a refusal or an exception clears it and fails |
| `LiveStatus.StoppedStaysStopped` | apps/api/chat_conversation.py:1314-1398 | a generation stopped meanwhile stays stopped: a working producer clears the text, one that has not begun does nothing |
| `LiveStatus.RequestsDecide` | apps/api/chat_conversation.py:1402-1480 | a run request starts a queued generation once, a stop ends one that has not ended, a fallback starts the text over, a timeout deletes the stream |
| `CitationScanner.FindAllIsComplete` | apps/api/chat_conversation.py:108-117 | leftmost matching that resumes after each match finds every occurrence of the pattern |
| `CitationScanner.FindIter` | apps/api/chat_conversation.py:129-141 | the loop over positions computes that list |
| `CitationScanner.OccursExactly` | apps/api/chat_conversation.py:108-120 | the two patterns match exactly the decimal numbers 1 to 99 in one of their bracket pairs, and read off that number |
| `CitationScanner.ReferencesAreAll` | apps/api/chat_conversation.py:129-142 | the two match lists merged by start are all occurrences, pairwise apart, in order |
| `CitationScanner.LastEndSuffices` | apps/api/chat_conversation.py:144-166 | remembering only the last accepted end decides acceptance as defined over all earlier references |
| `CitationScanner.RememberEnd` | apps/api/chat_conversation.py:146-168 | the remembered end stays the largest accepted one |
| `CitationScanner.ScanMatches` | apps/api/chat_conversation.py:144-172 | the scan with list, set and one remembered end yields the accepted ordinals at their first occurrence |
| `CitationScanner.ReferencedOrdinals` | apps/api/chat_conversation.py:122-170 | the whole scanner computes that list |
| `CitationScanner.OrdinalsExact` | apps/api/chat_conversation.py:122-170 | the result has no duplicates, holds an ordinal exactly when some accepted reference has it, in order of first occurrence |
| `CitationScanner.OrdinalsAreWritten` | apps/api/chat_conversation.py:122-172 | every number in canonical brackets is in the result, and every number in it is written in brackets somewhere |
| `CitationFilters.StripKeepsOrdinals` | src/security_audit/persistence/database/chat_repository.py:932-1006 | stripping an answer before storing it changes no accepted ordinal |
| `CitationFilters.ReferencedChatCitations` | apps/api/chat_conversation.py:191-203 | the citations whose ordinal, or position if absent, is referenced, renumbered by it |
| `CitationFilters.KeptExactlyWhenReferenced` | apps/api/chat_conversation.py:191-203 | a citation is kept if and only if its effective ordinal is referenced |
| `CitationFilters.KeptNumbers` | apps/api/chat_conversation.py:191-203 | a citation keeps its number; one without a number, or numbered 0, is kept under its one-based position |
| `CitationFilters.IndexedCitations` | src/security_audit/persistence/database/chat_repository.py:169-182 | rows with their ordinals, or refusal when two claim the same |
| `CitationFilters.IndexedExactly` | src/security_audit/persistence/database/chat_repository.py:169-182 | rows are refused if and only if two citations have the same number |
| `CitationFilters.FilteredExactly` | apps/api/chat_conversation.py:175-188 | the history view shows exactly the stored rows whose number the text refers to, in order |
| `CitationFilters.EverySavedCitationIsShown` | apps/api/chat_conversation.py:926-939 | the history filter drops none of the citations kept when the answer was saved |
| `OutboxTables.Database.RecordPublishAttempt` | src/security_audit/persistence/database/queue_repository.py:242-264 | refused exactly for a published event; else the event is PENDING and one more attempt is counted |
| `OutboxTables.Database.MarkEventPublished` | src/security_audit/persistence/database/queue_repository.py:267-301 | refused exactly for a published event; else the event is PUBLISHED and the step QUEUED, together |
| `OutboxTables.Database.MarkEventRetryPending` | src/security_audit/persistence/database/queue_repository.py:304-325 | only a PENDING event becomes RETRY_PENDING |
| `OutboxTables.Database.BeginRecoveryAttempt` | src/security_audit/persistence/database/queue_repository.py:328-415 | a new numbered execution supersedes open ones, or reports the existing result |
| `OutboxTables.Database.CompleteRecoveryAttempt` | src/security_audit/persistence/database/queue_repository.py:418-472 | one result is written, or a superseded execution is refused |
| `OutboxDelivery.EveryRunKeepsInv` | apps/worker/recovery_cli.py:54-91 | all runs of any number of dispatchers and deliveries, with crashes, kills, redeliveries and task exceptions, keep rows, messages and custody of the work consistent |
| `OutboxDelivery.EffectivelyOnce` | database/alembic/versions/0003_imp044_queue_outbox_recovery.py:186-228 | at most one result, present exactly when one execution is marked created; attempt numbers differ; a delivery acknowledged as done implies the result, and one acknowledged without a result leaves another with the work unless a task raised; sends never exceed attempts; PUBLISHED implies a send |
| `OutboxDelivery.NoLostWork` | apps/worker/tasks.py:30-56 | while a sent event has no result and no task raised an exception of its own, some message is queued or in flight |
| `OutboxDelivery.AlwaysRecoverable` | apps/worker/celery_app.py:19-24 | from each such state, killing and redelivering one live message produces the result |
| `OutboxDelivery.RefusedExactly` | src/security_audit/persistence/database/queue_repository.py:418-472 | completing is refused if and only if a later delivery has begun or the result exists |
| `OutboxDelivery.AckedWithoutResultExactly` | apps/worker/tasks.py:30-56 | a delivery that has begun is acknowledged without a result if and only if none exists and a later delivery has begun |
| `OutboxDelivery.SupersededDeliveryIsAckedWithoutResult` | apps/worker/celery_app.py:19-24 | a reachable state with an acknowledged delivery and no result, without any task exception |
| `OutboxDelivery.LostExactlyWhenStuck` | apps/worker/recovery_cli.py:54-91 | from any state without a result, some continuation produces one if and only if the event may still be dispatched, a dispatcher is about to send, or a message is unacknowledged |
| `OutboxDelivery.OneTaskExceptionLosesTheWork` | apps/worker/celery_app.py:19-24 | a reachable state, after one raised task, from which no continuation produces a result |
| `OutboxDelivery.StuckForever` | apps/worker/recovery_cli.py:54-91 | published, nothing about to be sent, all acknowledged, no result: no steps leave such a state |
| `OutboxDelivery.StepTracksResultExactly` | src/security_audit/persistence/database/queue_repository.py:267-301 | the step stays SUCCEEDED with a result except exactly at a publish mark after completion |
| `OutboxDelivery.PublishedIsFinal` | src/security_audit/persistence/database/queue_repository.py:267-301 | a published event stays published, so the late mark happens at most once |
| `OutboxDelivery.LateMarkHappens` | apps/worker/recovery_cli.py:54-91 | a run that reaches the late mark |
| `OutboxDelivery.DispatchOnce` | apps/worker/recovery_cli.py:54-91 | an undisturbed dispatch counts one attempt and leaves the event PUBLISHED and the step QUEUED, or RETRY_PENDING when sending raised, as the machine steps do; refused exactly for a published event |
| `OutboxDelivery.VerifyDelivery` | apps/worker/tasks.py:30-56 | an undisturbed task through the tables has the effect of the steps begin and complete, and leaves a result |
| `OutboxHistory.RowsAreHistory` | apps/worker/recovery_cli.py:54-91 | after every run event and step carry the last mark written, and attempts, sends, executions and results equal the number of steps that took effect |
| `OutboxHistory.FailedSendIsMarked` | apps/worker/recovery_cli.py:74-77 | after a failed send a pending event is marked RETRY_PENDING and nothing else changes |
| `OutboxHistory.EndedDispatchersStay` | apps/worker/recovery_cli.py:54-91 | a dispatcher starts only on an unpublished event, ends by a crash, by its last mark or at a published event, and then does nothing more |
| `OutboxHistory.AcknowledgedStays` | apps/worker/celery_app.py:19-24 | an acknowledged message is never delivered again, a killed one always can be |
| `VectorGenerations.EveryCommitIsSafeToSearch` | tools/reembed-bge-m3.py:129-340 | at every commit of every interleaving of builds, validations, activations, rollbacks and restores with crashes, at commit points that include those of the tool, a generation that is pointed to and ACTIVE embeds exactly the READY chunks |
| `VectorGenerations.OnlyRollbackMovesLegacyPointer` | tools/reembed-bge-m3.py:129-340 | no other step moves the 32-dimension pointer, and rollback moves nothing else |
| `VectorGenerations.RollbackPoints` | tools/reembed-bge-m3.py:129-164 | a rollback points dimension 32 to the generation exactly when that is ACTIVE, and changes nothing else |
| `VectorGenerations.TablesAreHistory` | tools/reembed-bge-m3.py:129-340 | after every run each pointer and each status is the one last written by a step that took effect, else the initial one |
| `VectorGenerations.EmbedAddsOneChunk` | tools/reembed-bge-m3.py:241-261 | only embedding changes the embeddings, by one chunk; nothing is deleted |
| `VectorGenerations.EndedProcessesStay` | tools/reembed-bge-m3.py:218-340 | a process that crashed or finished does nothing more |
| `VectorGenerations.CountForcesEquality` | tools/reembed-bge-m3.py:241-273 | all chunks embedded and equal counts mean the same set |
| `VectorGenerations.CoverageDecides` | tools/reembed-bge-m3.py:241-273 | the count check passes exactly when no stale embedding remains |
| `VectorGenerations.VectorStore.EmbedAll` | tools/reembed-bge-m3.py:241-261 | the loop adds exactly the chunks, other generations untouched |
| `VectorGenerations.VectorStore.CheckCoverage` | tools/reembed-bge-m3.py:262-300 | validation updates rows only when the counts agree |
| `VectorGenerations.VectorStore.BuildAndCheck` | tools/reembed-bge-m3.py:228-300 | one upsert of the generation and of every embedding; the check passes exactly when no stale chunk was embedded |
| `VectorGenerations.VectorStore.Rebuild` | tools/reembed-bge-m3.py:218-340 | a whole run in its one transaction: succeeds exactly when no stale chunk was embedded; then the search sees all chunks exactly if activation was asked for and the comparison passed; a failure changes nothing |
| `VectorGenerations.RestoreMakesValidatedLive` | tools/reembed-bge-m3.py:165-216 | restoring a validated generation makes all READY chunks visible |
| `VectorGenerations.ValidationAloneHidesLiveGeneration` | tools/reembed-bge-m3.py:330-340 | finishing without activation hides a live generation |
| `ScopedSearch.RankedIsOrdering` | database/alembic/versions/0006_imp048_pgvector_guide_retrieval.py:207-269 | ordering by distance and chunk id lists every hit once, in order |
| `ScopedSearch.NearestAreNearest` | database/alembic/versions/0006_imp048_pgvector_guide_retrieval.py:207-269 | the result has min(n, clamp(k, 1, 100)) hits of different chunks and every other hit comes after them |
| `ScopedSearch.ReturnedExactly` | database/alembic/versions/0017_parallel_vector_generations.py:78-169 | a candidate is returned if and only if fewer than clamp(k, 1, 100) come before it |
| `ScopedSearch.OneHitPerChunk` | database/alembic/versions/0006_imp048_pgvector_guide_retrieval.py:207-269 | the join gives each visible chunk one hit |
| `ScopedSearch.VisibleIsEntitled` | database/alembic/versions/0017_parallel_vector_generations.py:78-169 | a query chooses from exactly the READY chunks with a READY embedding in the ACTIVE generation pointed to, all of the organization, whose document is approved, or synthetic where allowed |
| `ScopedSearch.EveryHitIsEntitled` | database/alembic/versions/0017_parallel_vector_generations.py:78-169 | no hit crosses organizations or comes from a retired or forbidden synthetic document |
| `ScopedSearch.SyntheticExactly` | database/alembic/versions/0017_parallel_vector_generations.py:78-169 | without permission the search equals the one over tables without synthetic documents, with it the one where they are approved |
| `ScopedSearch.FirstQueryStaysInScope` | database/alembic/versions/0006_imp048_pgvector_guide_retrieval.py:207-269 | the query as first created returns only chunks of the requested scope, for every vector, limit and table content |
| `ScopedSearch.StaysInScopeExactly` | database/alembic/versions/0017_parallel_vector_generations.py:78-169 | each query stays in its scope for all vectors and limits if and only if no visible chunk of another scope has fewer than 100 visible chunks of the same vector and smaller id |
| `ScopedSearch.OwnEmbeddingsStayInScope` | database/alembic/versions/0017_parallel_vector_generations.py:78-169 | so it does when every READY embedding of the generation pointed to is of a chunk of the scope |
| `ScopedSearch.LaterQueriesCanLeak` | database/alembic/versions/0017_parallel_vector_generations.py:78-169 | tables for which the queries that replaced the first one return a chunk of another guide |
| `GuideIngest.GuideDatabase.Ingest` | tools/ingest-public-guides.py:389-395 | all guides are committed or the database is unchanged |
| `GuideIngest.CommitsExactly` | tools/ingest-public-guides.py:153-361 | a guide with different chunk ids commits if and only if, before it, no conflicting document exists, the vectors match, the document has as many READY chunks as prepared ids are in use, and no other chunk is embedded |
| `GuideIngest.IngestIsIdempotent` | tools/ingest-public-guides.py:130-372 | ingesting a committed guide again commits and changes nothing |
| `GuideIngest.ChangedSourceIsRefused` | tools/ingest-public-guides.py:153-165 | the same scope with another source or document id is refused |
| `GuideIngest.ActivateGuide` | tools/ingest-public-guides.py:130-372 | the document insert, chunk inserts, generation and embedding upserts and three pointers, kept exactly when the tables before them admit the guide |
| `GuideIngest.InsertChunks` | tools/ingest-public-guides.py:194-225 | existing rows win over inserted ones |
| `GuideIngest.UpsertEmbeddings` | tools/ingest-public-guides.py:237-299 | rows are made READY with the new vector, keeping the organization of an old row |
| `GuideIngest.CommittedGuideIsFullyVisible` | tools/ingest-public-guides.py:130-372 | after a commit each of the three queries sees exactly the prepared chunks that were unused with a new or searchable document, or already chunks the query accepts; all of them exactly when that holds for all |
| `GuideIngest.CommittedGuideSearch` | tools/ingest-public-guides.py:130-372 | each query then returns min(n, clamp(k)) different prepared chunks at the distance of the vector prepared for each, in order, and no nearer prepared chunk is left out |
| `GuideIngest.RetiredDocumentStaysHidden` | tools/ingest-public-guides.py:167-193 | a committed ingest does not make any chunk of a retired document visible to any query |
| `GuideIngest.CountsMissRetiredChunk` | tools/ingest-public-guides.py:344-361 | tables for which the counts agree, the ingest commits and no query sees anything |
| `GuideIngest.OtherScopesUndisturbed` | tools/ingest-public-guides.py:130-372 | committing a guide leaves all three queries over every other scope as they were, with and without synthetic guides |
| `GuideIngest.EveryCommittedGuideIsSearchable` | tools/ingest-public-guides.py:389-395 | after one transaction over any number of guides each of them answers every query in full with its nearest prepared chunks |
| `EventCursor.CursorStream.Deliver` | apps/api/linux_audit.py:309-339 | all events are passed on, the cursor is the last sequence, and the stream stops on a terminal status with nothing read |
| `EventCursor.PageIsNext` | src/security_audit/persistence/database/linux_audit_repository.py:202-228 | a page is the next events after the cursor, at most 200 |
| `EventCursor.EmittedExactlyOnceInOrder` | apps/api/linux_audit.py:300-339 | in every interleaving with the producer the stream has emitted each event after its start up to the cursor once, in order |
| `EventCursor.StoppedStreamIsCompleteExactly` | apps/api/linux_audit.py:309-339 | a stopped stream is complete exactly when nothing was appended after its last read |
| `EventCursor.SnapshotPollsAreComplete` | apps/api/linux_audit.py:309-339 | with events and status of one snapshot, and no event after the terminal status, a stopped stream has emitted everything |
| `EventCursor.ResumeContinuesExactly` | apps/api/linux_audit.py:300-339 | cutting after any event, also within a page, and resuming with its id gives the sequence of one uncut stream |
| `EventCursor.PollingDrainsAndStops` | apps/api/linux_audit.py:309-339 | once the run is terminal, finitely many polls emit the rest and stop |
| `EventCursor.LastEventCanBeMissed` | src/security_audit/application/linux_audit_service.py:472-510 | a run that stops before the last event is appended |
| `EventCursor.EventsBetweenTheReadsAreMissed` | apps/api/linux_audit.py:309-339 | any number of events between the two reads of a poll can be missed |
| `ControlStream.ExplanationStream.Forward` | apps/api/linux_audit.py:639-652 | the deltas up to the model's end or the first cancellation seen |
| `ControlStream.ExplanationStream.Store` | src/security_audit/persistence/database/linux_audit_repository.py:323-351 | first write wins; blank text and failures store nothing |
| `ControlStream.ExplanationStream.SummaryPhase` | apps/api/linux_audit.py:567-607 | events, model calls and stored summary as specified |
| `ControlStream.ExplanationStream.ShowControl` | apps/api/linux_audit.py:625-660 | the stored text, or the model's deltas, stored if it ended normally |
| `ControlStream.ExplanationStream.ControlPhase` | apps/api/switch_audit.py:633-738 | the loop over the controls computes the specified events, counters, cache and ending |
| `ControlStream.ExplanationStream.Run` | apps/api/linux_audit.py:567-729 | the whole generator equals the specified stream |
| `ControlTrace.EveryStreamIsConsistent` | apps/api/linux_audit.py:567-729 | in every run each reported count is the true one, successful plus failed equals completed, and each started control ends at most once before the next starts |
| `ControlTrace.BreakerStopsAtFirstTriple` | apps/api/switch_audit.py:577-773 | a run breaks exactly at the first three provider failures in a row; a completed analysis has none and accounts for every control |
| `ControlTrace.VerdictsAreCauses` | apps/api/linux_audit.py:625-690 | a control that runs to its end is reported completed if its text was stored or the model ended normally, else failed by provider or by contract as it was |
| `ControlTrace.RunVerdictsAreCauses` | apps/api/linux_audit.py:612-700 | so are all controls of a run that goes on, in order |
| `ControlTrace.StopsExactly` | apps/api/switch_audit.py:633-738 | a control stops the stream if and only if a cancellation is seen before it or during its deltas, it is not an object, or it is the third provider failure in a row; with the event that says so |
| `ControlTrace.SummaryIsReported` | apps/api/linux_audit.py:569-607 | the summary is reported completed, failed or cancelled exactly as it ended |
| `ControlSnapshot.CompletedSnapshot` | apps/api/linux_audit.py:481-516 | the snapshot exists exactly when the summary and all expected outputs are usable, and holds them in the expected order |
| `ControlSnapshot.StreamNeverOverwrites` | src/security_audit/persistence/database/linux_audit_repository.py:323-351 | no run changes or removes a stored output |
| `ControlSnapshot.ModelIsCalledOnlyForMissing` | apps/api/linux_audit.py:573-660 | the model is asked only for outputs not yet stored, and whatever is new was asked for |
| `ControlSnapshot.HealthyRunIsRestorable` | apps/api/linux_audit.py:481-516 | a healthy run over the expected controls makes the snapshot available |
| `ControlSnapshot.CompleteCacheReplaysWithoutModel` | apps/api/switch_audit.py:595-693 | with everything stored a run shows the stored texts, calls no model and succeeds throughout |
| `ControlSnapshot.HealthyRunThenReplay` | apps/api/linux_audit.py:567-729 | any later run after a healthy one makes no model call |
| `ControlSnapshot.FirstRunStoresWhatWasShown` | apps/api/linux_audit.py:639-660 | each stored text is the stripped text its deltas showed |
| `ControlText.StoredIsWhatWasShown` | apps/api/linux_audit.py:581-660 | in every run over different controls whatever is newly stored is the stripped text that the deltas showed for it |
| `ControlSnapshot.RunsStoreNoBlank` | apps/api/linux_audit.py:423-452 | no number of runs stores a blank output |
| `ControlSnapshot.UsableExactly` | apps/api/linux_audit.py:481-516 | an output can be restored if and only if it has a character that is not white space and at most 100,000 characters |
| `ControlSnapshot.BypassAsksForAll` | apps/api/switch_audit.py:651-693 | without the cache the model is asked for every output, in order |
| `ControlSnapshot.UsableForeverExactly` | src/security_audit/persistence/database/linux_audit_repository.py:323-351 | after any number of runs a stored output can be restored if and only if it could when it was stored |
| `ControlSnapshot.OversizedOutputBlocksSnapshotForever` | apps/api/linux_audit.py:481-516 | further runs over valid controls can make the snapshot available if and only if the controls are the expected ones and no needed output already stored is blank or too long |
| `ControlSnapshot.OversizedOutputIsStored` | apps/api/linux_audit.py:423-452 | a first run after which no runs make the snapshot available |
| `StableUnique.UniqueAbsorbs` | apps/api/result_ai_explanation.py:355-356 | de-duplicating and truncating any part first does not change the result |
| `StableUnique.UniqueIsFirst` | apps/api/result_ai_explanation.py:355-356 | the first values up to the limit among the distinct non-empty ones, in order of first occurrence |
| `StableUnique.LimitDropsNothing` | apps/api/result_ai_explanation.py:501-508 | with no more values than the limit none is dropped |
| `BatchMerge.BatchSize` | apps/api/result_ai_explanation.py:347-352 | the configured number clamped to 1 to 6, and 6 when it is not a number |
| `BatchMerge.Split` | apps/api/result_ai_explanation.py:741-748 | the batches concatenate back to the inputs, are non-empty and within the size, and carry the evidence of the same positions |
| `BatchMerge.SummaryStrings` | apps/api/result_ai_explanation.py:389-398 | the truncated de-duplication of all batches' values |
| `BatchMerge.Collect` | apps/api/result_ai_explanation.py:448-459 | the lists of all batches in order, or failure exactly when a field is ill-typed |
| `BatchMerge.Merge` | apps/api/result_ai_explanation.py:359-524 | goes through exactly when the batches are mergeable, a condition that ignores their order, and yields the combined result |
| `BatchMerge.MergeConserves` | apps/api/result_ai_explanation.py:448-472 | no item, official result or citation is lost or added, each list is sorted by control and stable, items have different controls, all lineages agree |
| `BatchMerge.ListsAreOwn` | apps/api/result_ai_explanation.py:389-508 | each list of the result holds only values of its own field, and all of them when they are within its limit |
| `BatchMerge.OverallKeepsAll` | apps/api/result_ai_explanation.py:400-412 | the overall text joins every different overall state, none dropped, before it is shortened |
| `BatchMerge.JoinWordsConcat` | apps/api/result_ai_explanation.py:475-476 | the words are separated by single spaces |
| `BatchMerge.ShortenedIsLongestPrefix` | apps/api/result_ai_explanation.py:475-476 | the longest beginning of at most 2,000 characters |
| `BatchMerge.DigestsInOrder` | apps/api/result_ai_explanation.py:448-459 | the digests of inputs and outputs are listed batch by batch |
| `BatchMerge.LexExactly` | apps/api/result_ai_explanation.py:461-469 | control ids are ordered by the first character in which they differ, a beginning before what it begins |
| `BatchMerge.BatchOrderIsIrrelevant` | apps/api/result_ai_explanation.py:359-524 | any order of the batches merges or fails alike and gives the same item list |
| `BatchMerge.MergingMergedIsOneMerge` | apps/api/result_ai_explanation.py:359-524 | merging merge results is possible exactly when merging all parts at once is, with the same items, official results and citations in the same order |
| `BatchMerge.MergingMergedKeepsSummaries` | apps/api/result_ai_explanation.py:389-508 | the same for the truncated summary and hash lists |
| `BatchStream.ExplainInBatches` | apps/api/result_ai_explanation.py:749-835 | the loop stops at the first batch that was not generated; every report counts exactly the inputs of the batches done; when all were generated it completes with the combined result exactly if they are mergeable |
| `BatchStream.EveryInputIsExplainedOnce` | apps/api/result_ai_explanation.py:741-810 | if the inputs differ and each batch has one item per control of its slice, the duplicate check passes and the merged items are one per input, sorted |
| `PageMap.GuideIsTiled` | tools/build-full-guide-artifacts.py:43-56 | the twelve categories cover pages 7 to 873 without gap or overlap |
| `PageMap.CategoryIsTheTile` | tools/build-full-guide-artifacts.py:66-70 | in a tiling the category found is the only one that holds the page |
| `PageMap.MemoryStep` | tools/build-full-guide-artifacts.py:111-123 | the memory per category yields the control defined by looking back page by page |
| `PageMap.IntroductionComesFirst` | tools/build-full-guide-artifacts.py:72-77 | before its first control page a category keeps its introduction whatever the text holds; from there on a control found is assigned, else the one before goes on |
| `PageMap.NotePage` | tools/build-full-guide-artifacts.py:139-163 | one more page keeps one row per control, from first to last page, in order of first pages |
| `PageMap.Build` | tools/build-full-guide-artifacts.py:99-163 | for every text and tiling, the pages carry their numbers and controls, and the rows describe the assignment |
| `PageMap.PageMapErrors` | database/schemas/validate_examples.py:122-137 | no error exactly when numbers are contiguous, indexes zero-based, printed numbers equal and the end within the source |
| `PageMap.MappingErrors` | database/schemas/validate_examples.py:138-147 | the errors in order, each exactly when its rule is broken |
| `PageMap.BuildAndValidate` | tools/build-full-guide-artifacts.py:99-177 | what is built has no page-map error and exactly one mapping error, the activation flag |
| `PageMap.PageInOwnRange` | tools/build-full-guide-artifacts.py:139-163 | every page lies in the range of its control |
| `PageMap.RangesPartitionExactly` | tools/build-full-guide-artifacts.py:139-163 | the ranges partition the pages if and only if no control recurs after another |
| `PageMap.ControlsCanRecur` | tools/build-full-guide-artifacts.py:72-77 | page texts for which a control recurs |
| `SnapshotPreimage.Snapshot` | tools/build_imp034_collector.py:63-71 | the loop feeds the digest the encoding of the records it lists |
| `SnapshotPreimage.RecordLayout` | tools/build_imp034_collector.py:70-70 | where path, NUL, hash, NUL, size and newline stand in a record |
| `SnapshotPreimage.ParseEncode` | tools/build_imp034_collector.py:63-71 | every list of NUL-free paths, 64-digit hashes and sizes is read back from its text |
| `SnapshotPreimage.EncodeParse` | tools/build_imp034_collector.py:63-71 | every readable text is the text of what was read |
| `SnapshotPreimage.PreimageIsUnambiguous` | tools/build_imp034_collector.py:63-71 | equal texts mean equal lists, and one text begins another exactly when the lists do |
| `SnapshotPreimage.NulInPathIsAmbiguous` | tools/build_imp034_collector.py:70-70 | with NUL in a path any two files can look like one |
| `ClamFraming.LengthIsBigEndian` | tools/scan_clamd.py:46-48 | the four length bytes stand most significant first |
| `ClamFraming.ReceiveFrames` | tools/scan_clamd.py:45-48 | frames of non-empty chunks up to the zero length give back the bytes and what follows |
| `ClamFraming.TruncationIsNoticed` | tools/scan_clamd.py:45-48 | no transmission cut short reads as complete |
| `ClamFraming.Scan` | tools/scan_clamd.py:40-49 | for every file the sent stream decodes to the file, wholly consumed, and no proper prefix decodes |

## Left out

- Routing, templates, authentication, sessions, CSRF, scan approval, device codes and package validation: plumbing over services.
- Live stream: Redis expiry, a failing append, a second poller deleting the keys, and two run requests starting two producers are outside the model.
- Outbox: a redelivery while the first worker is still alive (visibility timeout) appears only as a resend; commits whose outcome the caller does not learn are left out.
- Database constraints of the guides on (document, ordinal) of chunks and on generation pointers are not modelled; ids derived by hashing appear as the hypothesis that ids of different scopes differ.
- VectorGenerations: the machine commits after every step, which allows more than the tool does; the quality comparison of the two models is a parameter, embeddings are opaque, and the set of READY chunks is fixed during a run.
- ScopedSearch: the search is exact; the approximate index is not modelled, and distances are real numbers.
- CitationScanner: digits are ASCII digits; other decimal digits matched by the pattern are left out.
- ControlStream: the registry slot of a running analysis, prompts, follow-up questions and event texts are left out.
- BatchStream: guide retrieval and its events before the first batch, and the details of failure events, are left out.
- BatchMerge: the error codes of a failed merge are one failure, lineage fields are taken as present, and the digests over the merged result are left out.
- PageMap: titles, section labels, text hashes and character counts are left out; the control pattern's find on each page is a parameter.
- SnapshotPreimage: the selection and order of files is a parameter; the text stands for its UTF-8 encoding, which is injective.
- ClamFraming: the command before the frames and the reply after them are left out.
- Cryptography, JSON canonicalisation, model and embedding calls are opaque values.
