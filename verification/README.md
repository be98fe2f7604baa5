# Verified model of the assistant backend

This project models the stateful core of the backend of a virtual assistant and proves what that core
promises. Each database transaction, and each stretch of asynchronous code between two suspensions, is
one atomic step; model output, clocks, task interleavings and crashes are inputs. Tokens are fresh, and
two hashes agree only if what was hashed agrees.

| area | modules |
|---|---|
| Compliance screening: transcripts, evidence, the lease protocol | `Transcript`, `Evidence`, `ScreeningStore`, `ScreeningProtocol`, `ScreeningWork` |
| Chat insights: classification cache, runs, taxonomy publication, references | `InsightClassifier`, `InsightRuns`, `InsightProtocol`, `GroundingReferences` |
| Search index: incremental build, embeddings | `SearchIndex`, `Embeddings`, `Batching` |
| Conversation tree | `ConversationTree` |
| Eval runs and their event log | `EvalRuns` |
| Traces: route filter, cost rollup, evaluation outcomes | `RouteFilter`, `TraceLinks`, `TraceCosts`, `TraceOutcomes` |
| Caches guarded by a generation | `TemplateCache`, `RegistryCache` |
| URL extraction | `UrlSweep` |
| Guardrails retries and their trace reader | `GuardrailsRetry` |
| Shared | `Options`, `Text` |

Code that changes rows or fields in place is a class whose methods are proved against functions on
plain values; the protocols are stated over those functions, as runs of arbitrary events. A claim, a
preparation or a loader may act at any later time: nothing assumes that it is still current.

Where the code does less than its description suggests:

- The incremental index build describes itself as matching documents by stable key and then by source
  id. For training materials the fallback by id can take a document that another source still matches
  by key, and that source's document is lost. `SearchIndex.IncrementalEqualsRebuild` gives the exact
  condition and `SearchIndex.TrainingMaterialsCanClash` a case. For training materials the stored update
  marker may also lag behind, since it is not compared.
- A decision about a trace that has been dropped is forgotten: later spans of that trace are held back
  again. `RouteFilter.EvictsOnlyBeyondCapacity` says exactly when that can happen.
- The failures read from a trace carry the guardrails model's feedback only where that model itself
  objected, and leave out rejected answers that were blank; the log of the turn has both.

The command `dafny verify dfyconfig.toml` verifies the whole project.

## Model

| member | source | states |
|---|---|---|
| `Transcript.LoadTranscript` | `backend/app/compliance/sources.py:98-137` | terminates for every parent assignment, cycles included, and says exactly which error or transcript comes out: the messages are accepted iff there are some, all roles and parents are valid, each reaches a root within 512 links, and each can be displayed |
| `Transcript.WalkReplies` | `backend/app/compliance/sources.py:118-127` | the stack walk visits exactly the messages within 512 links of a root, or reports one that is further |
| `Transcript.WalkStep` | `backend/app/compliance/sources.py:120-125` | one pop of the stack keeps: what is pending or visited is rooted at its depth, and every rooted message is below something known |
| `Transcript.WalkEnd` | `backend/app/compliance/sources.py:126-127` | when the stack is empty, all messages were visited iff all of them reach a root, and none is too deep |
| `Transcript.RootedDepthUnique` | `backend/app/compliance/sources.py:118-125` | a message has at most one distance to a root, whatever the parents |
| `Transcript.IndexReplies` | `backend/app/compliance/sources.py:110-117` | the reply lists hold every message once, under its parent; an unknown role or parent is refused |
| `Transcript.DisplayAll` | `backend/app/compliance/sources.py:90-95` | the transcript shows each message in order, replaced by its blocked text; refused iff some blocked message has none |
| `Evidence.Span` | `backend/app/compliance/screener.py:52-56` | a quote is located iff it is not blank and occurs exactly once, overlapping occurrences counted, and the offsets are where it stands |
| `Evidence.ValidateResult` | `backend/app/compliance/screener.py:59-97` | refused as incomplete or as invalid evidence in exactly the stated cases; otherwise the concerns group the located findings by span, each with every category given to its span, once and in declared order |
| `Evidence.AddFinding` | `backend/app/compliance/screener.py:73-96` | adding one finding keeps: one concern per span, the title and explanation of the first finding there, and the union of the categories in declared order |
| `Evidence.CanonicalRoundTrip` | `backend/app/compliance/screener.py:73-84` | listing categories in declared order loses and repeats none |
| `Evidence.ConcernsQuoteTheirSources` | `backend/app/compliance/screener.py:65-97` | slicing the message and the instructions at a concern's offsets gives back a finding's own quotes, standing nowhere else |
| `Evidence.MergeOrderIrrelevant` | `backend/app/compliance/screener.py:64-97` | reordering or repeating findings changes neither the spans nor their categories |
| `ScreeningStore.Store.ClaimNext` | `backend/app/compliance/worker.py:76-132` | claims the group of the oldest claimable row that is not locked: all its pending rows are leased under one token, or all failed when the attempts are used up |
| `ScreeningStore.Store.OldestClaimable` | `backend/app/compliance/worker.py:79-97` | the oldest row that is queued, or running under a lease that has run out, in a conversation not locked |
| `ScreeningStore.Store.TakeGroup` | `backend/app/compliance/worker.py:98-132` | leases every pending row for 90 seconds, fails them after three attempts, or does nothing while someone works on one |
| `ScreeningStore.Store.UpdateWhere` | `backend/app/compliance/worker.py:199-204` | updates exactly the selected rows and tells whether there were any |
| `ScreeningStore.Store.Heartbeat` | `backend/app/compliance/worker.py:273-282` | every held row is leased until 90 seconds from now and nothing else changes; reports a lost claim |
| `ScreeningStore.Store.FinishError` | `backend/app/compliance/worker.py:199-204` | every held row fails with the error and is let go, and nothing else changes |
| `ScreeningStore.Store.ReadHeld` | `backend/app/compliance/worker.py:219-231` | the rows held under a claim, by message |
| `ScreeningStore.Store.FinishResult` | `backend/app/compliance/worker.py:207-261` | the order of the checks, the error each leaves in the held rows, and on acceptance the held rows screened and one finding per concern attached to the row of the message it quotes |
| `ScreeningProtocol.StepKeepsLeaseInv` | `backend/app/compliance/worker.py:66-132` | every event keeps: a group's live rows share one lease, a token belongs to one group, attempts are bounded and count the grants |
| `ScreeningProtocol.GroupsMoveTogether` | `backend/app/compliance/worker.py:98-132` | in every reachable state the live rows of a group share status, token, attempts and lease, and no group was granted more than three times |
| `ScreeningProtocol.ClaimTakesWholeGroup` | `backend/app/compliance/worker.py:98-132` | a granted claim leaves no live pending row of the group without the new token |
| `ScreeningProtocol.RankFalls` | `backend/app/compliance/worker.py:119-131` | a rank on status and attempts never rises and falls with every change of either, so no group is claimed for ever |
| `ScreeningProtocol.ClaimableMakesProgress` | `backend/app/compliance/worker.py:79-132` | claiming the group of a claimable row always lowers its rank; it fails exactly at the attempt limit |
| `ScreeningProtocol.ReclaimSupersedes` | `backend/app/compliance/worker.py:120-131` | claiming a group again leaves no row under its earlier token |
| `ScreeningProtocol.LateWorkersAreFenced` | `backend/app/compliance/worker.py:66-73` | once a group has been reclaimed, nothing its earlier holder does later, however late, changes anything |
| `ScreeningProtocol.LeaseExcludesOthers` | `backend/app/compliance/worker.py:114-118` | until its lease runs out or its holder lets go, no interleaving takes a row from a worker |
| `ScreeningProtocol.EventsMean` | `backend/app/compliance/worker.py:199-282` | the events of the workers change exactly the fields the transactions write |
| `ScreeningProtocol.RenewalSecuresTheLease` | `backend/app/compliance/worker.py:273-282` | after a heartbeat no interleaving takes the row for 90 seconds, whatever lease it had before, unless its holder lets go |
| `ScreeningProtocol.ClaimSecuresTheLease` | `backend/app/compliance/worker.py:121-131` | after a granted claim no interleaving takes a row of the group for 90 seconds, unless its holder lets go |
| `ScreeningProtocol.ExpiredLeasesAreTaken` | `backend/app/compliance/worker.py:84-131` | a row whose lease has run out is up for taking, and a claim of its group leases it anew |
| `ScreeningProtocol.ScreenedIsFinal` | `backend/app/compliance/worker.py:66-73` | a screened row never changes again, except that deleting its message leaves a tombstone |
| `ScreeningProtocol.StepKeepsStoreInv` | `backend/app/compliance/worker.py:207-261` | every event keeps: screened rows are those of exactly one accepted result, and the stored findings of a row are those the accepted results stored for it |
| `ScreeningProtocol.ScreenedExactlyOnce` | `backend/app/compliance/worker.py:241-261` | after any run a row is screened iff exactly one accepted result screened it; its findings are that result's, and rows not screened or without their message have none |
| `ScreeningWork.PrepareWork` | `backend/app/compliance/worker.py:157-196` | work is prepared iff the held rows are exactly the assistant messages of the period, bounds included, and lists them in transcript order; every refusal has its code |
| `ScreeningWork.TargetMessages` | `backend/app/compliance/screener.py:135-142` | the texts to screen, refused iff some target is not an assistant message of the transcript |
| `ScreeningWork.StoredFindingsQuoteTheLockedTranscript` | `backend/app/compliance/worker.py:216-254` | whenever findings are stored, the stored offsets slice the model's quotes out of the transcript as locked at that moment, though the quotes were located in an earlier reading |
| `InsightClassifier.AssignmentsByItem` | `backend/app/chat_insights/classifier.py:306-321` | answers are accepted iff they are numbered 1 to n, each once |
| `InsightClassifier.ValidateSecondary` | `backend/app/chat_insights/classifier.py:292-303` | accepted iff all keys are allowed, distinct and not the primary one |
| `InsightClassifier.ValidateAssignments` | `backend/app/chat_insights/classifier.py:324-351` | a batch is used iff every answer is well formed; then each row gets the answer carrying its number |
| `InsightClassifier.CollectBatches` | `backend/app/chat_insights/classifier.py:420-448` | results answer exactly the batches that came back well formed, each chat with the answer carrying its number, and the others are counted |
| `InsightClassifier.ClassifyChats` | `backend/app/chat_insights/classifier.py:384-448` | each result is the default of a chat without text, or what the model answered to that chat under its number in its batch; a failed batch costs only its own chats |
| `InsightClassifier.AnswerBatch` | `backend/app/chat_insights/classifier.py:367-381` | a batch is used iff it is well formed; then each row gets the answer carrying its number |
| `InsightClassifier.ErrorsCountBadBatches` | `backend/app/chat_insights/classifier.py:433-436` | the error count is the number of batches that raised or came back malformed |
| `InsightClassifier.NoErrorsAnswersAll` | `backend/app/chat_insights/classifier.py:420-448` | without batch errors every batched chat is answered |
| `InsightClassifier.ResultsAccountForRows` | `backend/app/chat_insights/classifier.py:384-448` | each chat is answered at most once, and exactly once when no batch failed |
| `InsightRuns.Database.AdmitRun` | `backend/app/chat_insights/service.py:292-321` | returns the active run, or opens one on the last pending revision as a backfill, or else on the last published one |
| `InsightRuns.Database.QueueRevision` | `backend/app/chat_insights/service.py:1260-1299` | opens a pending revision with its run, refused iff a revision is pending or a run active |
| `InsightRuns.Database.ClaimNextRun` | `backend/app/chat_insights/service.py:324-354` | leases the oldest queued or expired run for 90 seconds, or fails it after three attempts |
| `InsightRuns.Database.Heartbeat` | `backend/app/chat_insights/service.py:1177-1195` | leases the run until 90 seconds from now iff the claim still holds |
| `InsightRuns.Database.FailRun` | `backend/app/chat_insights/service.py:1208-1223` | ends the run as failed, with one error more, iff the claim still holds |
| `InsightRuns.Database.PrepareRun` | `backend/app/chat_insights/service.py:390-472` | prepares every eligible chat and lists as pending those without a row of the same hash and fingerprint, or all of them on a backfill |
| `InsightRuns.Database.FinishRun` | `backend/app/chat_insights/service.py:868-1092` | the whole new state, on the fields of the run and the revisions and as a function of the stored rows and references |
| `InsightRuns.Database.StoreResults` | `backend/app/chat_insights/service.py:898-950` | rows of ineligible chats and of pending chats without a result go, results are upserted |
| `InsightRuns.Database.CountFresh` | `backend/app/chat_insights/service.py:1002-1025` | the count is the number of eligible chats whose row carries the prepared hash and fingerprint |
| `InsightRuns.PendingMembers` | `backend/app/chat_insights/service.py:450-472` | a chat is pending iff it is backfilled or has no row of its hash and the fingerprint |
| `InsightProtocol.StepKeepsInv` | `backend/app/chat_insights/service.py:292-354` | every event keeps: one published and at most one pending revision, one active run on the target revision, and preparations under a current token are still exact for the rows they did not ask to classify |
| `InsightProtocol.OnePublishedAlways` | `backend/app/chat_insights/service.py:1048-1060` | every reachable state has exactly one published revision, at most one pending one and at most one active run, which works on the pending one if there is one |
| `InsightProtocol.ClassifierDelivers` | `backend/app/chat_insights/service.py:1112-1151` | whatever the batches came to, the classifier's results meet what finishing relies on |
| `InsightProtocol.StoredRowExact` | `backend/app/chat_insights/service.py:898-950` | after storing, a chat's row is absent or exact; a pending chat has one iff it got a result, which is its own classification, and any other keeps its row |
| `InsightProtocol.FinishLeavesExactRows` | `backend/app/chat_insights/service.py:898-1025` | after a finish under a valid claim every row of the revision is an eligible chat's with the prepared hash and fingerprint, the pending ones hold the chat's own classification, the recorded count is the number of rows, and rows of other revisions are untouched |
| `InsightProtocol.FullCountMeansAllFresh` | `backend/app/chat_insights/service.py:1048-1052` | the count reaches the number of chats iff every chat has a fresh row |
| `InsightProtocol.PublishedWithAllRows` | `backend/app/chat_insights/service.py:1048-1060` | a revision becomes published only by an error-free finish, with a fresh row for every prepared chat and no other rows |
| `InsightProtocol.BackfillPublishesUnlessErrors` | `backend/app/chat_insights/service.py:882-896` | a backfill that still holds its claim publishes iff it had no errors |
| `InsightProtocol.FailingBackfillChangesNothing` | `backend/app/chat_insights/service.py:882-896` | a backfill with errors leaves revisions, classifications and references as they were |
| `InsightProtocol.RevisionsOnlyAdvance` | `backend/app/chat_insights/service.py:1053-1060` | revisions are never redefined and only move from pending to published to superseded |
| `InsightProtocol.LateFinishersAreFenced` | `backend/app/chat_insights/service.py:1095-1100` | once a run lost its token, nothing its earlier holder does changes anything, whatever happens in between |
| `InsightProtocol.LeaseExcludesOthers` | `backend/app/chat_insights/service.py:324-354` | until its lease runs out or its holder lets go, no interleaving takes a run from a worker |
| `InsightProtocol.RenewalSecuresTheLease` | `backend/app/chat_insights/service.py:1177-1195` | after a heartbeat no interleaving takes the run for 90 seconds, whatever lease it had before |
| `InsightProtocol.EndedRunsAreFinal` | `backend/app/chat_insights/service.py:1095-1100` | a run that has ended never changes again |
| `InsightProtocol.FinishReconcilesReferences` | `backend/app/chat_insights/service.py:952-959` | after a finish, resolved answers have exactly their new references, unresolved ones keep theirs overlaid by the new ones, and no other message has any, although references may have been deleted since preparation |
| `GroundingReferences.DeriveReferences` | `backend/app/chat_insights/service.py:558-609` | collects the references of all answers |
| `GroundingReferences.DeriveSound` | `backend/app/chat_insights/service.py:561-609` | every derived reference is the first document source of its key, once |
| `GroundingReferences.DeriveComplete` | `backend/app/chat_insights/service.py:561-609` | the first document source of every key is derived |
| `GroundingReferences.DeriveAllFacts` | `backend/app/chat_insights/service.py:558-609` | over all answers the references offered are exactly those, with distinct message and key |
| `GroundingReferences.PlanReferences` | `backend/app/chat_insights/service.py:501-518` | the stale rows are those of eligible chats off the active branches or about to be replaced |
| `GroundingReferences.ReferenceTable.Reconcile` | `backend/app/chat_insights/service.py:808-865` | deletes, then upserts, leaving the reconciled table |
| `GroundingReferences.ReferenceTable.DeleteIds` | `backend/app/chat_insights/service.py:825-830` | deleting in batches of 1000 deletes exactly the given rows |
| `GroundingReferences.UpsertAllAt` | `backend/app/chat_insights/service.py:831-865` | after upserting, a key holds its input if it has one and otherwise what it held |
| `GroundingReferences.StaleMeans` | `backend/app/chat_insights/service.py:620-639` | a row survives deletion iff its chat is eligible and its message an active answer with unresolved selections |
| `GroundingReferences.ReconciledAnswer` | `backend/app/chat_insights/service.py:808-865` | a resolved answer ends with exactly its derived references, an unresolved one with its old ones overlaid |
| `GroundingReferences.ReconciledElsewhere` | `backend/app/chat_insights/service.py:808-865` | a message that is no active answer has no references left |
| `GroundingReferences.ReconcilingTwiceKeepsKeys` | `backend/app/chat_insights/service.py:808-865` | repeating the run on unchanged data leaves the same messages, keys and contents |
| `GroundingReferences.ReconciledUniqueIds` | `backend/app/chat_insights/service.py:831-865` | row ids stay distinct |
| `SearchIndex.Builder.Categorize` | `backend/app/rag/build.py:591-642` | new sources, sources that differ from the document they match in key, text or update marker, and the documents that no source matches by key or id |
| `SearchIndex.Builder.ProcessChanged` | `backend/app/rag/build.py:790-860` | changed documents are re-rendered under the id their key has; looking keys up among the changed documents alone gives the same ids |
| `SearchIndex.Builder.ProcessNew` | `backend/app/rag/build.py:773-787` | new sources are inserted under their own id |
| `SearchIndex.Builder.Update` | `backend/app/rag/build.py:1024-1049` | an incremental build leaves the specified index; without a clash it holds for every source a document with its own key, title, URL, text and chunks, and no others |
| `SearchIndex.Builder.Rebuild` | `backend/app/rag/build.py:986-1022` | a full rebuild renders every source under the id its key had, with its own fields and chunks |
| `SearchIndex.OverrideIsAssigned` | `backend/app/rag/build.py:760-770` | the id overrides of the changed documents agree with those of all documents |
| `SearchIndex.SourceIsIndexed` | `backend/app/rag/build.py:591-666` | an incremental build leaves for each source its own key, title, URL, text, update marker and chunks |
| `SearchIndex.NothingElseRemains` | `backend/app/rag/build.py:635-638` | every document left belongs to a source |
| `SearchIndex.IncrementalEqualsRebuild` | `backend/app/rag/build.py:986-1049` | an incremental build leaves the same documents as a full rebuild iff no source falls back on the id of a document another source claims by key |
| `SearchIndex.IdentifiedNeverClash` | `backend/app/rag/build.py:618-627` | where keys are fixed by ids that condition always holds |
| `SearchIndex.TrainingMaterialsCanClash` | `backend/app/rag/build.py:618-633` | two training materials for which the incremental build loses a document that the rebuild keeps |
| `SearchIndex.IncrementalKeepsIndexOk` | `backend/app/rag/build.py:591-666` | the stored chunks stay exactly the indexable pieces of the stored text under their numbers, in order |
| `SearchIndex.BuildIndexesAll` | `backend/app/rag/build.py:591-666` | after an incremental build every source has a document with its own fields, holding a chunk iff it is an indexable piece of its text, and there are no others |
| `SearchIndex.RebuildRendersAll` | `backend/app/rag/build.py:986-1022` | so it is after a full rebuild, source by source |
| `SearchIndex.IndexableAre` | `backend/app/rag/build.py:369-377` | exactly the indexable pieces are kept, under their places among all pieces and in order |
| `SearchIndex.BuildsIndexTheLastSources` | `backend/app/rag/build.py:1024-1049` | after any sequence of incremental builds the index holds the fields and chunks of the last sources, and nothing else |
| `SearchIndex.BuildsForgetThePast` | `backend/app/rag/build.py:1024-1049` | after any sequence of incremental builds the index is what a rebuild of the last sources from nothing gives |
| `Batching.FlattenBatches` | `backend/app/rag/build.py:187-189` | joining the batches gives back the items |
| `Embeddings.EmbedBatches` | `backend/app/rag/build.py:427-477` | whatever order batches complete in, the joined results are the embeddings of the texts in order |
| `Embeddings.CollectTexts` | `backend/app/rag/build.py:399-414` | titles and chunk texts in document order, each title with the index of its document |
| `Embeddings.ChunkTextAt` | `backend/app/rag/build.py:487-497` | the text at a document's offset plus a chunk's position is that chunk's |
| `Embeddings.MapBack` | `backend/app/rag/build.py:485-501` | a running position pairs every chunk with the embedding at its place |
| `Embeddings.CreateEmbeddings` | `backend/app/rag/build.py:391-501` | every title and every chunk is paired with the embedding of its own text |
| `ConversationTree.Prefer` | `backend/app/chat/tree_utils.py:48-63` | the preferred message if it is there, otherwise the oldest, ties broken by id |
| `ConversationTree.IndexMessages` | `backend/app/chat/tree_utils.py:27-35` | the children of each message, oldest first, ties broken by id |
| `ConversationTree.CurrentBranch` | `backend/app/chat/tree_utils.py:38-65` | the branch from the active (or oldest) root along active (or oldest) children to a leaf, without repetition |
| `ConversationTree.WalkDown` | `backend/app/chat/tree_utils.py:53-63` | the walk from a root ends at a leaf; its cycle guard never fires |
| `ConversationTree.PathTo` | `backend/app/chat/tree_utils.py:68-87` | the chain from a root to the message, or nothing iff there is none |
| `ConversationTree.BranchThrough` | `backend/app/chat/tree_utils.py:90-113` | that chain continued along active children to a leaf |
| `ConversationTree.FromRootNoRepeats` | `backend/app/chat/tree_utils.py:53-63` | chains from a root never meet themselves, whatever cycles there are elsewhere |
| `ConversationTree.RootPathUnique` | `backend/app/chat/tree_utils.py:68-87` | a message has at most one chain from a root |
| `ConversationTree.CurrentPathUnique` | `backend/app/chat/tree_utils.py:38-65` | the shown branch is determined by the pointers |
| `ConversationTree.Conversation.UpdateActiveBranch` | `backend/app/chat/tree_utils.py:130-144` | fails iff the message reaches no root; otherwise points every message of the chain at its successor and changes nothing else |
| `ConversationTree.SwitchShowsBranchThrough` | `backend/app/chat/tree_utils.py:130-144` | after switching to a message the shown branch is the earlier branch through it |
| `ConversationTree.SwitchToShownKeepsBranch` | `backend/app/chat/tree_utils.py:130-144` | switching to a message already shown leaves the shown branch as it is |
| `ConversationTree.Conversation.AppendTurn` | `backend/app/chat/engine.py:1140-1167` | stores a user message and its answer and makes the parent, or the conversation, point at them |
| `ConversationTree.Conversation.Regenerate` | `backend/app/chat/engine.py:1123-1139` | stores another answer to a user message and makes that message point at it |
| `ConversationTree.TurnExtendsBranch` | `backend/app/chat/engine.py:1140-1167` | a turn appended at a shown message extends the shown branch up to it by exactly the two messages |
| `ConversationTree.TurnStartsBranch` | `backend/app/chat/engine.py:1162-1163` | a turn without a parent is shown as a branch of its own |
| `ConversationTree.AnswerExtendsBranch` | `backend/app/chat/engine.py:1123-1139` | a regenerated answer replaces what followed its user message |
| `EvalRuns.Job.Apply` | `backend/app/evals/run_tracking.py:84-109` | how each kind of event changes each field of the job row |
| `EvalRuns.Tracker.CreateRow` | `backend/app/evals/run_tracking.py:125-150` | creates the run with its first event, refused iff the id is taken or the user has an active run |
| `EvalRuns.Tracker.Publish` | `backend/app/evals/run_tracking.py:153-168` | appends to an active run and ignores any other |
| `EvalRuns.Tracker.Heartbeat` | `backend/app/evals/run_tracking.py:171-181` | renews an active run and returns the status |
| `EvalRuns.Tracker.ExpireStaleRuns` | `backend/app/evals/run_tracking.py:184-215` | exactly the ongoing unlocked runs without a heartbeat for 30 seconds end in error, each with its two events |
| `EvalRuns.Tracker.RequestCancellation` | `backend/app/evals/run_tracking.py:283-300` | only a started run of the user is marked cancelling |
| `EvalRuns.Tracker.ListEvents` | `backend/app/evals/run_tracking.py:248-280` | exactly the run's events after the cursor, oldest first |
| `EvalRuns.StepKeepsInv` | `backend/app/evals/run_tracking.py:112-122` | every transaction keeps the log and the job rows in step |
| `EvalRuns.JobsAreTheirLog` | `backend/app/evals/run_tracking.py:84-122` | in every run each job row is the fold of its events, ended iff it has a completion time, no event follows one that ended its run, and no user has two active jobs |
| `EvalRuns.JobsSayWhatTheirLogSays` | `backend/app/evals/run_tracking.py:84-122` | read off the log alone: the report id, error message and status of a job are those its events said last, and its completion time is that of the event that ended it, which is its last |
| `EvalRuns.ExpiryStops` | `backend/app/evals/run_tracking.py:202-213` | the stopped runs, their messages and completion times, and their two events in the log |
| `EvalRuns.TerminalIsFinal` | `backend/app/evals/run_tracking.py:162-166` | a run that has ended keeps its row and its events for good |
| `EvalRuns.PollingSeesEverything` | `backend/app/evals/run_tracking.py:248-280` | however events and polls interleave, a reader with a cursor sees every event once and in order |
| `RouteFilter.Processor.OnEnd` | `backend/app/otel.py:280-320` | what ending a span does to the pending spans, the decisions and the delegate |
| `RouteFilter.Processor.RememberDecision` | `backend/app/otel.py:245-259` | remembers a decision and drops the oldest beyond the limit |
| `RouteFilter.AlwaysConsistent` | `backend/app/otel.py:238-259` | for every stream the decisions are duplicate-free, at most 4096, the disjoint union of allowed and blocked traces, and none of them has spans pending |
| `RouteFilter.StreamRefinesBatch` | `backend/app/otel.py:280-320` | for every stream, with forced spans and evictions too, each trace not evicted gets exactly what a filter over the whole trace lets through: the first 512 spans before its root, the root and everything after it, or nothing |
| `RouteFilter.AllowedMeans` | `backend/app/otel.py:265-275` | a root is allowed iff it has a target route, by its method in any case and its route if it has both, else by its name |
| `RouteFilter.ForcedPassThrough` | `backend/app/otel.py:285-294` | forced spans all reach the delegate, in order |
| `RouteFilter.EvictsOnlyBeyondCapacity` | `backend/app/otel.py:254-259` | nothing is evicted iff at most 4096 traces have been decided |
| `TraceCosts.SpanDisplayCosts` | `backend/app/api/trace_costs.py:20-43` | the scatter loops compute the rollup: own cost, or the exact sum over all strict descendants, each once even with cycles |
| `TraceCosts.Scatter` | `backend/app/api/trace_costs.py:30-41` | one span's cost is added to exactly the uncosted spans above it |
| `TraceCosts.CountOne` | `backend/app/api/trace_costs.py:25-41` | scattering one more span moves the shown costs from those of the spans counted so far to those including it |
| `TraceLinks.ClimbIsComplete` | `backend/app/api/trace_costs.py:32-41` | when the climb stops at a missing or visited parent, everything above was visited |
| `TraceCosts.OrderDoesNotMatter` | `backend/app/api/trace_costs.py:22-25` | the shown costs do not depend on the order of the spans |
| `TraceCosts.TraceTotalCost` | `backend/app/api/trace_costs.py:11-17` | the sum of all costs, or nothing without any |
| `TraceCosts.RootShowsTotal` | `backend/app/api/trace_costs.py:11-43` | an uncosted root above all other spans shows the total of the trace |
| `TraceLinks.BelowChains` | `backend/app/api/trace_projection.py:80-92` | what is below something below a span is below it, unless the links lead back |
| `TraceOutcomes.AncestorIds` | `backend/app/api/trace_projection.py:80-92` | exactly the spans above, each once, cycles and missing parents included |
| `TraceOutcomes.AddTo` | `backend/app/api/trace_projection.py:117-123` | adds to every evaluation and case in the list, and to nothing else |
| `TraceOutcomes.CountsNext` | `backend/app/api/trace_projection.py:102-128` | scattering one more item moves the counts from those of the items so far to those including it |
| `TraceOutcomes.Gather` | `backend/app/api/trace_projection.py:102-128` | the scattered counts are the numbers of failing results below each evaluation and case, and evaluations with cases are marked |
| `TraceOutcomes.GatherErrors` | `backend/app/api/trace_projection.py:130-136` | exactly the evaluations and cases with an error below are marked, even by spans that are not shown |
| `TraceOutcomes.AnnotateOutcomes` | `backend/app/api/trace_projection.py:95-151` | each item ends with the outcome and the count its whole subtree determines |
| `TraceOutcomes.EvaluationsAreNoBetterThanCases` | `backend/app/api/trace_projection.py:138-151` | an evaluation counts every failing result its cases count, is in error if a case is, and fails or is in error if a case fails |
| `TemplateCache.Caches.Clear` | `backend/app/chat/template_utils.py:204-210` | moves to a new generation with empty caches |
| `TemplateCache.Caches.StoreDeployed` | `backend/app/chat/template_utils.py:145-151` | stores for the slot and for its version iff the generation is still the one the load began in |
| `TemplateCache.Caches.StoreVersion` | `backend/app/chat/template_utils.py:174-178` | stores for the version iff the generation is still the one the load began in |
| `TemplateCache.ReturnsAreCurrent` | `backend/app/chat/template_utils.py:126-178` | under any interleaving every returned value was read after the most recent clear, and agrees with the database when every commit has been followed by a clear |
| `TemplateCache.CacheAgreesWithDatabase` | `backend/app/chat/template_utils.py:126-178` | cached values agree with the database whenever no clear is outstanding |
| `TemplateCache.LoadedIsServed` | `backend/app/chat/template_utils.py:145-151` | a load that no clear has overtaken is cached for its slot and version, and served to the next call |
| `TemplateCache.OneLoaderPerKey` | `backend/app/chat/template_utils.py:132-141` | at most one call per key is loading |
| `RegistryCache.Registry.Lookup` | `backend/app/chat/url_guardrails.py:292-303` | serves an entry only within its time |
| `RegistryCache.Registry.Store` | `backend/app/chat/url_guardrails.py:307-328` | stores a registry iff the generation is still the one the load began in |
| `RegistryCache.RegistriesAreReadSinceClear` | `backend/app/chat/url_guardrails.py:279-328` | under any interleaving a registry handed out was read or computed after the most recent clear |
| `RegistryCache.HandedOutIsReadOrRecent` | `backend/app/chat/url_guardrails.py:292-328` | what is handed out is what the call itself read or computed, or a cached entry less than 60 seconds old |
| `RegistryCache.StoredIsServed` | `backend/app/chat/url_guardrails.py:292-303` | what a call stores is served for 60 seconds, until the next clear |
| `RegistryCache.OneLoaderPerRegistry` | `backend/app/chat/url_guardrails.py:297-305` | at most one call per registry is loading |
| `UrlSweep.Sweep` | `backend/app/chat/url_guardrails.py:128-137` | the greedy sweep keeps exactly the containment-maximal ranges, every range lies in a kept one, and kept starts and ends strictly increase |
| `UrlSweep.SweepNext` | `backend/app/chat/url_guardrails.py:130-137` | one more sorted range keeps that |
| `UrlSweep.ExtractUrls` | `backend/app/chat/url_guardrails.py:112-139` | the texts of those ranges, from left to right |
| `UrlSweep.KeptIsUnique` | `backend/app/chat/url_guardrails.py:126-139` | the kept ranges do not depend on the order of the matches |
| `UrlSweep.FindUnknown` | `backend/app/chat/url_guardrails.py:343-358` | the first occurrence of each unknown URL, in order |
| `UrlSweep.UnknownListed` | `backend/app/chat/url_guardrails.py:343-358` | exactly the unknown URLs are listed, without repetition |
| `GuardrailsRetry.RunTurn` | `backend/app/chat/engine.py:1047-1105` | makes at most one attempt more than the retries, stops at the first accepted one, logs the rejected ones in order, and blocks iff every allowed attempt was rejected |
| `GuardrailsRetry.RunGuardrails` | `backend/app/chat/engine.py:442-474` | the verdict, the wording of the feedback, the log and the spans of one check |
| `GuardrailsRetry.FeedbackMeans` | `backend/app/chat/engine.py:442-467` | the feedback is the complaints there are, separated by blank lines: of the model, about blog URLs, about unknown URLs |
| `GuardrailsRetry.UnknownStand` | `backend/app/chat/engine.py:451-455` | the unknown URLs are those found that are not blog URLs, in order |
| `GuardrailsRetry.FailuresFromSpans` | `backend/app/api/guardrails_failures.py:104-145` | reads the spans in order of their start |
| `GuardrailsRetry.ReadTurn` | `backend/app/api/guardrails_failures.py:113-145` | reading the spans of a turn reports exactly its rejected, non-blank attempts, with their feedback and URLs |
| `GuardrailsRetry.TraceTellsRejections` | `backend/app/api/guardrails_failures.py:104-145` | however the spans are stored and whatever other spans there are, the reader reconstructs exactly those, each with its answer, the model's objection and the links at fault |
| `GuardrailsRetry.ReportsMatchLog` | `backend/app/chat/engine.py:469-472` | the reports name the same answers as the log of the turn |

## Left out

- SQL text, sessions, row locks, notification and advisory locks: each transaction is one step, with locks and unique indexes as guards.
- Prompts, model calls, rendering, tokenising, embedding vectors, price tables and regular expressions: parameters or inputs.
- The compliance retry route, which resets attempts, and the admission and decision routes: the protocol has one admission step per screening.
- Deleting a conversation: for screening it deletes its messages, which leaves tombstones; for insights it removes the conversation's rows and references.
- Foreign keys that make a late finish fail when a conversation was deleted meanwhile: the model also allows that finish to go through.
- Authorisation of the requester and ownership filters: inputs to the steps that check them.
- Classification rows of grounding documents, stability metrics, answer and document counts of a run: they follow the pattern of the chat rows.
- Capitalising letters beyond ASCII in the methods of routes.
- Category names and editing, run triggers, timestamps that are only recorded.
- Training material paths, school and creation time of documents, dry runs and build statistics: the path is an input.
- `SearchIndex.Builder.Rebuild`: a rebuild that assigns one id twice stores both documents, of which the index as loaded shows the later one; the returned rows hold both.
- `TraceCosts`: costs are real numbers, so rounding is not modelled.
- `normalize_url`, the blog test and the URL patterns: matches and normal forms are inputs; only that the results are listed once and in order is proved.
- Refusing a turn whose parent message is unknown or belongs to another conversation, which happens before anything is stored.
- Creating or reading an eval run first expires stale runs: that is the separate expiry transaction.
- Timing fields, the chat history handed to retries, tool calls and event streaming of a turn.
- Malformed attributes of stored spans, which make the reader fail.
- The rest of the trace overview: projecting spans to items, and grouping tool operations and counting guardrails checks, whose walks to a parent have no guard against cyclic links.
- Jinja environments kept beside the template cache, and whether a load ever succeeds under continual clears.
- Writing a computed registry back to the database: the write has no effect on what the cache hands out.
