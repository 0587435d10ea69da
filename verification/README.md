# DevFlow runtime: verified model

A Dafny 4.11 model of the decision logic of a multi-agent software-development runtime. The runtime plans a requirement as
a graph of tasks, dispatches each task to a worker once, gives agents a bounded view of the repository, keeps their
conversation within a token bound, streams its events to browsers and accounts for every model turn. The model takes the
code's own form: loops over mutable variables are methods with invariants, stateful objects are classes, and what the code
promises is proved about specification functions beside them. `dafny verify dfyconfig.toml` checks everything.

## The parts

- **Task graph** (`Ids`, `Graphs`, `Kahn`, `TaskDags`, `DagQueries`): validation, the heap-driven topological order, the
  blocked and ready queries, each proved against a definition that does not mention the algorithm (paths, cycles, the
  lexicographically least order).
- **Schedules** (`Schedules`, `Schedulers`): every run of a graph with several tasks in flight, and the scheduler class
  whose methods are steps of such runs.
- **Continuation and picture** (`Continuation`, `Projection`): the residual graph of a resumed session, and the graph view
  drawn from evidence.
- **Dispatch** (`Ledger`, `Dispatch`, `DispatchSafety`, `DispatchAnswers`, `DurableDispatchers`): a step system of concurrent
  calls, crashes, recovery and an unreliable broker, what it never does, what each caller is answered, and the class
  `DurableDispatcher` that refines it.
- **Context compilation** (`Tokens`, `Prefixes`, `Sorting`, `Relevance`, `SourceText`, `Packets`, `RegionBudget`,
  `PacketBuilder`): estimates, region selection, three nested budgets and the packet validators they must satisfy.
- **Conversation retention** (`Retention`), **event streaming** (`Decimals`, `EventStreams`, `Reconnects`, `SseWire`),
  **metrics** (`Metrics`), **agent loops** (`AgentLoops`, `Developer`, `Repair`) and the **summary cache**
  (`SummaryCache`).

The surroundings are parameters. A loop over model turns takes a total function from iteration to what the clock, the
model, the tools and the workspace do there; a paging loop takes the log as each query finds it; JSON encodings and rendered
summaries are given functions. Every theorem holds for all of them.

## Where code and promise differ

The model follows the code. Seven findings, each with a lemma at a concrete input or run and, where a caller can tell, the
exact condition:

1. The cycle error says tasks are *involved* in a cycle, but lists also those only behind one: `TaskDags.Unresolved` says
   which, `ListedThoughOnNoCycle` gives a graph.
2. A `PUBLISH_FAILED` row is not proof that nothing was delivered: the broker may keep the message and still raise
   (`DispatchSafety.FailedRowMayHideADelivery` gives a run). Nothing was delivered exactly when the broker dropped the message
   it raised on (`FailedMeansRaised`). That is the broker's own choice: dispatcher, ledger and caller see the same row and the
   same exception in both cases, so there is no condition a caller could check.
3. For files with CR LF line ends the prefix path compares the token budget with the raw bytes, so `TOKEN_BUDGET` can be
   recorded although the budget holds the whole text (`PacketBuilder.TokenReasonIsExact`, `TokenReasonCanBeFalse`).
4. The size bound of an event is checked when it is encoded, not when its batch is validated, so an oversized event ends a
   stream midway through a batch (`EventStreams.OversizeEventSplitsItsBatch`). A log can be received in full if and only if
   every event beyond the start cursor can be encoded (`Reconnects.FullyReceivableIff`).
5. A continuation keeps the *set* of ready tasks but not always their listed order (`Continuation.OrderMayChange`). It keeps
   the order if and only if each pending task listed behind a larger pending id has a dependency that is pending and not
   listed before that larger id (`OrderIsKeptIff`).
6. Full and residual graph accept the same later sets exactly when the completed set contains its dependencies
   (`Continuation.ResidualAcceptanceIsExact`, with a graph where they differ in `AcceptanceMayDiffer`); completed sets of real
   runs do (`RunsCompleteClosedSets`).
7. Every connection opens with a retry frame, and a browser starts each stream with an empty id buffer (section 9.2.6 of the
   HTML standard). So a connection that drops after that frame, or after a heartbeat, and before an event makes the browser
   forget its id; the next one starts over and sends received events again (`Reconnects.LostHeaderReplays`). The header is
   the last id received if and only if nothing was received or the last connection that completed a frame completed an event
   (`HeaderIsLastReceivedIff`), and delivery is exactly once if and only if no connection brought events after such a loss
   (`DeliveredExactlyOnce`). The dashboard uses the native `EventSource` and closes the stream on an event with a
   lower sequence than its last one (frontend/src/pages/RunDashboardPage.tsx:160, 167-220).

## Model

| member | source | states |
|---|---|---|
| `TaskDags.MakeNode` | backend/app/models/dag.py:41-61 | a task node is built exactly when its dependencies are duplicate-free and do not name the task itself |
| `TaskDags.Validate` | backend/app/models/dag.py:95-114 | a graph is accepted exactly when it is non-empty, its ids are distinct, its dependencies known and it has no cycle; each error names exactly its defect, in the order checked |
| `TaskDags.ListingOrderIsIrrelevant` | backend/app/models/dag.py:126-149 | permuting the task list leaves the graph, and so the order and every query, unchanged |
| `TaskDags.Dependents` | backend/app/models/dag.py:205-210 | the reverse index holds `x` under `d` exactly when `x` depends on `d` |
| `TaskDags.TellDependents` | backend/app/models/dag.py:138-141 | one turn of the main loop: every dependent waits for one task less, and exactly those now waiting for none join the heap |
| `TaskDags.DrainHeap` | backend/app/models/dag.py:129-141 | the heap loop emits the greedy order (least available task first) and leaves in-degrees counting the dependencies not emitted |
| `TaskDags.Unresolved` | backend/app/models/dag.py:143-147 | the tasks reported with a cycle are, ascending, exactly those on a cycle or behind one |
| `TaskDags.ListedThoughOnNoCycle` | backend/app/models/dag.py:143-147 | a graph in which a task on no cycle is listed with the cycle it waits for |
| `TaskDags.TopologicalOrder` | backend/app/models/dag.py:126-149 | raises exactly when the graph has a cycle; otherwise returns the lexicographically least topological order |
| `Kahn.LeftOverIffTangled` | backend/app/models/dag.py:143-147 | a task is left over by any maximal dependency-respecting list exactly when it is on a cycle or behind one |
| `Kahn.OrderIsCompleteIffAcyclic` | backend/app/models/dag.py:129-149 | the emitted list is a permutation of all tasks with dependencies first if and only if there is no cycle |
| `Kahn.OrderIsLeast` | backend/app/models/dag.py:126-149 | no topological order of an acyclic graph is lexicographically below the one returned |
| `Ids.LessIsByFirstDifference` | backend/app/models/dag.py:131-136 | ids compare by their first different character, a proper prefix first; so "task-10" comes before "task-2" |
| `Graphs.LeastOrderIsUnique` | backend/app/models/dag.py:126-149 | the least topological order is unique, so the answer is determined by the graph |
| `Graphs.WalkBackFindsCycle` | backend/app/models/dag.py:143-147 | where every task of a set waits for another of the set, walking back reaches a cycle |
| `DagQueries.SearchBlocked` | backend/app/models/dag.py:155-165 | the breadth-first search finds exactly the non-failed tasks reachable from a failed one |
| `DagQueries.BlockedTaskIds` | backend/app/models/dag.py:151-167 | refuses unknown ids; otherwise the descendants of failed tasks that did not fail themselves, in topological order |
| `DagQueries.ReadyTaskIds` | backend/app/models/dag.py:169-200 | which inputs are refused, and why; otherwise exactly the unresolved, unblocked tasks with all dependencies completed, in topological order |
| `DagQueries.SearchIsComplete` | backend/app/models/dag.py:155-165 | a found set closed under dependents and inside the blocked set is the blocked set |
| `Schedules.RunIsSound` | backend/app/models/dag.py:169-200 | every run that starts ready tasks and finishes running ones keeps: touched tasks have all dependencies completed, no task is in two states |
| `Schedules.QueriesNeverRaise` | backend/app/models/dag.py:169-200 | at every point of every run the queries accept, and no started or completed task is blocked |
| `Schedules.SomethingIsReady` | backend/app/models/dag.py:169-200 | while a task is neither resolved nor blocked, some task is ready: this makes the branch at autonomous.py:326 unreachable |
| `Schedules.RunTerminates` | backend/app/models/dag.py:169-200 | a run of n tasks has at most n starts and n finishes |
| `Schedules.RunEndsSettled` | backend/app/models/dag.py:169-200 | a run that cannot go on has completed, failed or blocked every task, each in exactly one way |
| `Schedules.StartedIsNeverBlockedLater` | backend/app/models/dag.py:151-200 | a task once started is never blocked later in the run |
| `Schedulers.DAGScheduler.constructor` | backend/app/runtime/scheduler.py:36-40 | a new scheduler is coherent, at the initial progress, with exactly the dependency-free tasks READY |
| `Schedulers.DAGScheduler.Start` | backend/app/runtime/scheduler.py:65-73 | starts exactly the READY tasks; the new state is one start of a run |
| `Schedulers.DAGScheduler.Succeed` | backend/app/runtime/scheduler.py:75-84 | completes a RUNNING task, makes exactly the newly unlocked tasks READY, and no transition it makes is refused |
| `Schedulers.DAGScheduler.Fail` | backend/app/runtime/scheduler.py:86-110 | fails a RUNNING task and marks exactly its pending descendants BLOCKED; no transition it makes is refused |
| `Schedulers.DAGScheduler.IsTerminal` | backend/app/runtime/scheduler.py:49-51 | terminal exactly when completed, failed and blocked tasks are all tasks |
| `Schedulers.FailureBlocksOnlyPending` | backend/app/runtime/scheduler.py:133-163 | a failure only ever blocks tasks that are PENDING or BLOCKED already, so the guard never fires |
| `Schedulers.SucceedKeepsCoherent` | backend/app/runtime/scheduler.py:75-84 | a success keeps the states coherent with the queries and is one finishing step of a run |
| `Schedulers.FailKeepsCoherent` | backend/app/runtime/scheduler.py:86-110 | a failure keeps the states coherent with the queries and is one finishing step of a run |
| `Schedulers.LogExtends` | backend/app/runtime/scheduler.py:165-187 | the event log stays numbered without gap and replays to the current states |
| `Schedulers.TransitionsMoveOn` | backend/app/runtime/scheduler.py:17-24 | the allowed transitions are one step forward, or from PENDING to BLOCKED; no end is left again |
| `Continuation.RemainingSessionDag` | backend/app/api/autonomous.py:978-992 | building the continuation never raises; there is none exactly when everything is completed, and its graph is the residual graph |
| `Continuation.ContinuationIsValid` | backend/app/api/autonomous.py:978-992 | the continuation of a valid graph is valid, for any set called completed |
| `Continuation.PendingIsResidual` | backend/app/api/autonomous.py:983-991 | dropping completed tasks from the list is dropping them from the graph |
| `Continuation.ContinuationPreservesScheduling` | backend/app/api/autonomous.py:978-992 | for all later completed and failed sets the full graph accepts, ready and blocked sets of the continuation are those of the full graph |
| `Continuation.ResidualAcceptanceIsExact` | backend/app/api/autonomous.py:978-992 | continuation and full graph accept the same later sets, always, if and only if the completed set contains the dependencies of its members |
| `Continuation.AcceptanceMayDiffer` | backend/app/api/autonomous.py:978-992 | a two-task graph and a completed set that is not closed, on which the continuation accepts what the full graph refuses |
| `Continuation.RunsCompleteClosedSets` | backend/app/api/autonomous.py:978-992 | what a run has completed is such a set, so continuing a real run is faithful |
| `Continuation.ContinuationsCompose` | backend/app/api/autonomous.py:978-992 | continuing twice is continuing once with both completed sets |
| `Continuation.OrderIsKeptIff` | backend/app/api/autonomous.py:978-992 | the continuation lists the pending tasks in their old order if and only if every task listed behind a larger pending id is held there by a dependency that is itself pending and not listed yet |
| `Continuation.OrderAfterPrefix` | backend/app/api/autonomous.py:978-992 | a case of it: when the completed set is the front of the order, the rest is listed unchanged |
| `Continuation.OrderMayChange` | backend/app/api/autonomous.py:978-992 | a three-task graph on which that condition fails and the continuation lists the same tasks in another order |
| `Projection.LatestTaskStates` | backend/app/api/service.py:1116-1129 | for every task with a transition, the state of its first entry with the highest sequence; no other task |
| `Projection.EvidenceBeatsArrival` | backend/app/api/service.py:1116-1129 | however late an event arrived, the entry with the highest evidence sequence is the latest |
| `Projection.SequenceIsThatOfTheEvidence` | backend/app/api/service.py:1116-1129 | the sequence of an entry is that of its evidence, and that of the event only where there is none |
| `Projection.DagLayers` | backend/app/api/service.py:1132-1141 | the layer of a task is the length of its longest dependency path |
| `Projection.PictureIsLegible` | backend/app/api/service.py:1144-1160 | BLOCKED is shown exactly for non-failed descendants of FAILED tasks, and READY only with all dependencies SUCCEEDED |
| `Projection.GetRunDag` | backend/app/api/service.py:696-760 | refuses exactly the evidence the graph contradicts, naming the blocked tasks that advanced; otherwise nodes in least topological order with longest-path layers; an advanced task shows its evidence, any other READY, BLOCKED or PENDING, and the whole is legible |
| `Projection.PictureIsUnique` | backend/app/api/service.py:1144-1160 | evidence and legibility leave one picture only |
| `Ledger.BeginCreatesOnce` | backend/app/persistence/dispatch.py:142-204 | "created" is answered only for the first attempt of a task, and to nobody afterwards |
| `Ledger.MarksKeepTheTable` | backend/alembic/versions/0007_dispatch_attempts.py:39-64 | recording an outcome keeps every row of the shape the constraints demand and touches no resolved row |
| `Dispatch.EveryReachableWorldIsSound` | backend/app/dispatch/durable.py:76-128 | in every reachable state of concurrent, crashing calls: rows valid, one holder per unresolved row, no id or message sent twice, resolved rows backed by what the send did |
| `Dispatch.BeginKeepsInv` | backend/app/dispatch/durable.py:91-107 | the step that creates or finds the row keeps the invariant |
| `Dispatch.SendKeepsInv` | backend/app/dispatch/durable.py:109-111 | the step that hands the message to the broker keeps the invariant |
| `Dispatch.EnqueuedKeepsInv` | backend/app/dispatch/durable.py:121-128 | recording ENQUEUED always succeeds and keeps the invariant |
| `Dispatch.FailedKeepsInv` | backend/app/dispatch/durable.py:111-119 | recording PUBLISH_FAILED always succeeds and keeps the invariant |
| `DispatchSafety.AtMostOneSendPerTask` | backend/app/dispatch/durable.py:76-128 | under any interleaving, with same or fresh ids and crashes anywhere, at most one message per run and task is sent |
| `DispatchSafety.DormantForever` | backend/app/dispatch/durable.py:102-107 | a task whose attempt is unresolved, failed or delivered with nobody about to send is never sent again |
| `DispatchSafety.RowsAreFinal` | backend/app/persistence/dispatch.py:206-286 | no step changes a resolved row or removes a row |
| `DispatchSafety.EnqueuedMeansDelivered` | backend/app/dispatch/durable.py:121-128 | an ENQUEUED row means the broker holds exactly one message for its id, the one it names |
| `DispatchSafety.FailedMeansRaised` | backend/app/dispatch/durable.py:111-119 | a PUBLISH_FAILED row means one send that raised; nothing was delivered if and only if the broker really dropped it |
| `DispatchSafety.FailedRowMayHideADelivery` | backend/app/dispatch/durable.py:109-119 | a run in which the broker keeps the message although the row says PUBLISH_FAILED |
| `DispatchSafety.ReceiptsAgree` | backend/app/dispatch/durable.py:130-144 | all receipts ever returned for a task are identical and name the message the broker accepted |
| `DispatchAnswers.CallIsAnswered` | backend/app/dispatch/durable.py:76-128 | every answer of one call, told by what can be looked up before it: refusal of a run or task that is not running, the stored receipt of an enqueued attempt, a refusal of any other known one, or one message and one row that say what the broker did |
| `DispatchAnswers.RepeatGetsTheReceipt` | backend/app/dispatch/durable.py:102-109 | whoever calls again with the ids of a call that got a receipt, in any reachable world, gets that receipt; nothing is sent or written |
| `DispatchAnswers.OverlappingCallGetsTheReceipt` | backend/app/dispatch/durable.py:102-109 | the same for a concurrent call that reaches the ledger after the receipt was returned |
| `Ledger.AcknowledgingSettles` | backend/app/persistence/dispatch.py:206-248 | acknowledging is accepted for an open attempt or again with the same facts, and after it nothing else is |
| `Ledger.RefusingSettles` | backend/app/persistence/dispatch.py:249-286 | a recorded publish failure likewise |
| `DurableDispatchers.DurableDispatcher.BeginInitialAttempt` | backend/app/persistence/dispatch.py:142-204 | answers and table after one ledger call, on every branch |
| `DurableDispatchers.DurableDispatcher.Dispatch` | backend/app/dispatch/durable.py:76-128 | an uninterrupted call is the protocol steps in a row: same table, same sends, same answer, and that answer is the one its caller is entitled to |
| `Tokens.EstimateIsCeiling` | backend/app/context/token_estimator.py:49-62 | the estimate of non-empty text is the ceiling of the exact rational cost, so the added 0.999 is exact |
| `Tokens.CjkBlocks` | backend/app/context/token_estimator.py:11-20 | which blocks count as CJK, at their borders |
| `Tokens.EstimateIsMonotone` | backend/app/context/token_estimator.py:49-62 | extending a text on either side never lowers its estimate |
| `Tokens.EstimateIsBoundedByBytes` | backend/app/context/token_estimator.py:43-62 | the estimate never exceeds the UTF-8 byte count |
| `Tokens.TotalIsBetween` | backend/app/context/token_estimator.py:105-119 | the estimate of all parts together is at least the dearest category and at most one above the sum |
| `Tokens.EstimateAgentRequestBreakdown` | backend/app/context/token_estimator.py:67-119 | the breakdown of a request: each category is the estimate of its own parts, the total counts every part once and lies inside those bounds |
| `Tokens.UnitsOfConcat` | backend/app/context/token_estimator.py:43-47 | byte counts add up over concatenation |
| `Tokens.CharIsEncoded` | backend/app/context/token_estimator.py:43-47 | one to four bytes by the size of the code point, which they spell |
| `Tokens.DecodeInvertsEncode` | backend/app/context/token_estimator.py:43-47 | decoding the bytes gives the text back |
| `Tokens.MessageIsCounted` | backend/app/context/token_estimator.py:81-86 | each message contributes its role, content and call id at its own place |
| `Tokens.HistoryIsCounted` | backend/app/context/token_estimator.py:87-92 | the calls of every message are counted, in order |
| `Prefixes.FitPrefix` | backend/app/context/builder.py:857-872 | the longest prefix within both the character and the byte limit |
| `Prefixes.CutMeansLimited` | backend/app/context/builder.py:857-872 | a cut means one of the limits is smaller than the text |
| `Prefixes.NothingFits` | backend/app/context/builder.py:857-872 | an empty prefix of non-empty text means a used-up limit or a first character too wide |
| `Prefixes.BoundedPreview` | backend/app/context/retention.py:213-230 | the binary search returns the longest prefix whose marked preview fits, and never exceeds a limit of at least 128 |
| `Relevance.ScoreSymbols` | backend/app/context/relevance.py:339-365 | every symbol sharing a term is scored; if there is none and the file is being worked on, exactly the first top-level symbols in order, up to the cap |
| `Relevance.ScoreWeighsTerms` | backend/app/context/relevance.py:339-365 | three task terms weigh as much as two import terms; more weight always scores higher, between equals a top-level symbol does, and only shared terms score |
| `Relevance.RankIsDecidedBy` | backend/app/context/relevance.py:367-372 | rank is decided by score, then line, then name, each only between equals |
| `Relevance.FallbacksFollowTheFile` | backend/app/context/relevance.py:355-365 | the fallback goes through the top-level symbols in file order |
| `Relevance.FallbackIsFirst` | backend/app/context/relevance.py:355-365 | the fallback is a front part of them, all up to the cap |
| `Relevance.OverlapIff` | backend/app/context/relevance.py:393-395 | symbols overlap when some line belongs to both |
| `Relevance.ChooseSymbols` | backend/app/context/relevance.py:367-378 | chosen symbols are pairwise disjoint and capped; whatever is left out overlaps a chosen one that scores no lower, or the choice is full of such |
| `Relevance.SelectSymbols` | backend/app/context/relevance.py:338-378 | the scored symbols, disjoint and capped; each one left out overlaps a better-ranked chosen one or ranks below a full choice |
| `Relevance.MergeAdjacentRegions` | backend/app/context/relevance.py:397-422 | sorted ranges at least one line apart that cover exactly the union of the input lines, each input inside one of them, with scores, evidence and symbols of inputs inside them |
| `Relevance.RegionsForIndex` | backend/app/context/relevance.py:318-391 | the regions are separated and cover exactly the preamble and the chosen symbols |
| `SourceText.SplitLinesLosesNothing` | backend/app/context/builder.py:702-706 | splitting into lines and joining gives the text back |
| `SourceText.LinesAreLines` | backend/app/context/builder.py:702-706 | a line holds text and breaks at its end only; no CR LF is torn apart |
| `SourceText.BreaksAreTen` | backend/app/context/builder.py:702-706 | the ten characters at which lines break |
| `SourceText.RegionTextStands` | backend/app/context/builder.py:701-706 | a front part of a region text stands in the file behind exactly the lines before the region and ends in the line counted; the whole of it ends with the last line of the region |
| `SourceText.SeparatedRegionsFit` | backend/app/context/builder.py:610-699 | separated regions together have no more characters or bytes than the lines from where they start |
| `SourceText.RegionsFitInSource` | backend/app/context/builder.py:610-699 | the regions of a file never show more characters or bytes than the file |
| `SourceText.NormalizedIsNoLarger` | backend/app/context/builder.py:487-572 | universal newlines never make a text longer, in characters or bytes |
| `SourceText.LineEndsMakeNoDifference` | backend/app/context/builder.py:555-572 | a text saved with CR LF, CR or LF line ends is seen as the same text |
| `RegionBudget.CutIsExplained` | backend/app/context/builder.py:708-729 | a cut region exceeds at least one of the three budgets that are then recorded |
| `RegionBudget.PickRegion` | backend/app/context/builder.py:625-646 | one region gets the longest prefix the budgets leave, and a cut is recorded with its size |
| `RegionBudget.PickRegions` | backend/app/context/builder.py:622-669 | all regions in turn: prefixes, tallies, budgets left, recorded reasons and the number of characters left out under each agree |
| `RegionBudget.PicksStayWithin` | backend/app/context/builder.py:622-669 | whatever is picked leaves no budget negative and is no larger than the regions |
| `RegionBudget.CutsAreForced` | backend/app/context/builder.py:622-669 | where a region is cut, one character more would exceed what the earlier picks leave of some budget |
| `PacketBuilder.LoadRegionCandidate` | backend/app/context/builder.py:610-699 | the verdict on a candidate with regions: every snippet stands in the file where it says, in order and without showing a line twice, and a file that is not truncated shows all its regions whole; validators and limits are met |
| `PacketBuilder.VerdictShowsLines` | backend/app/context/builder.py:610-706 | a region verdict means that the right lines are shown |
| `PacketBuilder.LoadPrefixCandidate` | backend/app/context/builder.py:764-855 | the longest prefix, its truncation flag and reasons; an omission only when the token budget is too small for one character |
| `PacketBuilder.PrefixReasonsAreExact` | backend/app/context/builder.py:797-853 | a cut prefix records exactly the limits that are too small, with what was left out |
| `PacketBuilder.TokenReasonIsExact` | backend/app/context/builder.py:797-853 | a recorded reason is true of the text if and only if the token limit is outside the band between the text and its raw CR LF form |
| `PacketBuilder.TokenReasonCanBeFalse` | backend/app/context/builder.py:843-853 | CR LF files of any length above 100 lines on which TOKEN_BUDGET is recorded although the budget holds the whole text |
| `PacketBuilder.LoadCandidate` | backend/app/context/builder.py:574-608 | a file that cannot be read is omitted with its own reason; otherwise the verdict of the region or prefix loader on its source under the limits given |
| `PacketBuilder.SelectFiles` | backend/app/context/builder.py:115-190 | the main loop: each candidate reached is reused exactly when reusable, else loaded under what the files before it left; files, truncations and counts are theirs, and an early stop names a budget that is used up |
| `PacketBuilder.ReusedIff` | backend/app/context/builder.py:256-285 | reused is what the checkpoint changed, and what was only read and still reads the same |
| `PacketBuilder.SourceIsLoadedIff` | backend/app/context/builder.py:487-572 | which files are loaded, and which reason the others get |
| `PacketBuilder.FatesAddUp` | backend/app/context/builder.py:115-190 | whatever the candidates met, each counts once as selected, omitted or reused, no budget is overdrawn and paths stay distinct |
| `PacketBuilder.SelectionIsExplained` | backend/app/context/builder.py:115-190 | each file is the longest prefix or the region verdict of its own source; each omission is excused; a truncation without path names a used-up budget; the counts add up |
| `PacketBuilder.ReadableMeansShown` | backend/app/context/builder.py:115-190 | a packet is never empty while some whole file is readable and not reusable |
| `PacketBuilder.CutFilesAreFull` | backend/app/context/builder.py:115-190 | a whole file is cut only where one character more would exceed the file, packet or token budget left for it |
| `PacketBuilder.Build` | backend/app/context/builder.py:82-254 | for every inventory, task and budget the packet passes its validators, accounts for every candidate, every snippet is text of its file at the lines it names, every truncation is true, and the usage adds up |
| `Retention.KeptGroupsAreSound` | backend/app/context/retention.py:129-176 | a kept group answers its calls in order, fits the turn budget, comes from an accepted turn and replays no successful write or patch |
| `Retention.ConversationIsWellFormed` | backend/app/context/retention.py:232-248 | whatever turns were added, the messages are a well-formed conversation |
| `Retention.ShownAndCompactedAddUp` | backend/app/context/retention.py:117-124 | at most K groups are shown, and shown plus compacted groups are all groups ever added |
| `Retention.ConversationEndsInNewest` | backend/app/context/retention.py:232-248 | the messages are the base, a note if anything is not shown, then the newest kept groups, as many as allowed |
| `Retention.LatestTurnIsShownLast` | backend/app/context/retention.py:232-248 | right behind a kept turn the conversation ends in its call and its results |
| `Retention.FlattenIsInOrder` | backend/app/context/retention.py:240-248 | groups stand one behind the other, each as its assistant message and its results |
| `Retention.CompactedIff` | backend/app/context/retention.py:158-176 | a turn is compacted exactly when its bounded results exceed the turn budget or it wrote to the worktree |
| `Retention.ContentIsKeptWithin` | backend/app/context/retention.py:178-211 | the limit for one result, and what stays of its content under it: all of it, the longest marked preview, or the omission note |
| `Retention.ResultIsBoundedInTurn` | backend/app/context/retention.py:142-155 | each result is bounded by what the results before it leave of the turn budget |
| `Retention.PairedInOrder` | backend/app/context/retention.py:156-157 | each call is observed with its own result |
| `Retention.AgentContextRetention.Create` | backend/app/context/retention.py:91-115 | an object exists exactly for settings within their bounds |
| `Retention.AgentContextRetention.AddGroup` | backend/app/context/retention.py:129-176 | refuses exactly the unpaired turns, each with its error and without effect; otherwise the turn is kept or counted as compacted, as its judgement says |
| `Retention.AgentContextRetention.BoundedToolResultMessage` | backend/app/context/retention.py:178-211 | the message sent for a result, and whether it counts as truncated |
| `Retention.AgentContextRetention.CompactedGroupCount` | backend/app/context/retention.py:117-124 | the property counts exactly the groups added and not shown |
| `Retention.AgentContextRetention.Messages` | backend/app/context/retention.py:232-248 | base messages, a note when something is compacted, then the newest groups and no older one in their place: a valid conversation if the base is one |
| `EventStreams.SafetyIsExact` | backend/app/api/sse.py:155-167 | the recursive check rejects exactly the attributes with a sensitive key at some depth |
| `EventStreams.SensitiveIff` | backend/app/api/sse.py:155-167 | nine names and every name ending in `_api_key` are sensitive |
| `EventStreams.ValidateRuntimeEventBatch` | backend/app/api/sse.py:66-82 | accepts exactly the strictly increasing, single-run, browser-safe batches beyond the cursor and returns the last sequence; otherwise names what is wrong with the first event that does not fit |
| `EventStreams.ResumeIsRoundTrip` | backend/app/api/sse.py:49-63 | the id sent on the wire, handed back as `Last-Event-ID`, resumes behind that event |
| `EventStreams.HeaderIsResolved` | backend/app/api/sse.py:49-63 | what any header resolves to, told by the text between its white space |
| `Decimals.SpacesAre` | backend/app/api/sse.py:49-63 | which characters trimming removes |
| `EventStreams.PassedIsExact` | backend/app/persistence/repository.py:556-595 | the query by cursor splits an ordered log exactly at the cursor |
| `EventStreams.RuntimeEventStream.Open` | backend/app/api/sse.py:95-117 | nothing is streamed unless the whole first batch is valid |
| `EventStreams.RuntimeEventStream.SendPending` | backend/app/api/sse.py:125-136 | a batch goes out in order; only an event too large stops it, with everything before it sent and the cursor behind it |
| `EventStreams.EncodableIff` | backend/app/api/sse.py:85-92 | an event can be sent when no key anywhere in it is sensitive and its text takes at most 32,768 bytes |
| `EventStreams.EncodablePrefixIsExact` | backend/app/api/sse.py:125-136 | what goes out ends at the first event that cannot be encoded, or with the batch |
| `EventStreams.OversizeEventSplitsItsBatch` | backend/app/api/sse.py:66-92 | a valid batch whose first event goes out and whose second cannot be encoded |
| `EventStreams.RuntimeEventStream.Poll` | backend/app/api/sse.py:138-145 | the next batch is what the log holds beyond the cursor, validated as a whole before any of it is sent |
| `Reconnects.EveryReachableWorldIsSound` | backend/app/api/app.py:387-434 | in every reachable world of connections, drops at any character, heartbeats and log growth: each connection carries, behind its retry frame, a gapless part of the log from the cursor that the header sent gave it, then a cut of its next frame |
| `Reconnects.DeliveredExactlyOnce` | backend/app/api/sse.py:115-152 | on every run the events received are exactly the log from the start cursor up to some point, strictly increasing, if and only if no connection brought events after the header had been lost; every event received is wanted |
| `Reconnects.PendingIsValidated` | backend/app/api/sse.py:115-145 | events waiting to be sent have been validated as one batch against the cursor |
| `Reconnects.EmitsAreSendPending` | backend/app/api/sse.py:125-136 | one call of `SendPending` is a run of single emits: same events, cursor and ending |
| `Reconnects.ConnectKeepsInv` | backend/app/api/app.py:395-434 | a reconnect resolves the cursor from the header the reader derived, reads and validates the first batch, and opens with the retry frame |
| `Reconnects.IdleMeansComplete` | backend/app/api/sse.py:138-145 | an idle connection with nothing more to read means every wanted event was received, and exactly the wanted list if all connections resumed |
| `Reconnects.QuietConnectionsDeliverAll` | backend/app/api/sse.py:121-145 | a connection left alone, whose remaining events can be encoded, receives all of them within a bounded number of steps |
| `Reconnects.HeaderIsLastReceivedIff` | backend/app/api/sse.py:49-92 | the `Last-Event-ID` a browser sends after any connections is the id of the last event received if and only if nothing was received or the last connection that completed anything completed an event; otherwise it sends none |
| `Reconnects.ConnectionResumes` | backend/app/api/sse.py:49-63 | whatever a browser sends back is accepted as cursor: behind the last event if the header was kept, else the start cursor |
| `Reconnects.ExactlyOnceIff` | backend/app/api/sse.py:115-152 | of any connections: the events received are a gapless front part of the log from the start cursor if and only if each connection that brought events resumed |
| `Reconnects.NothingIsSkipped` | backend/app/api/sse.py:115-152 | with or without replays the events received are those of a front part of what was wanted |
| `Reconnects.LostHeaderReplays` | backend/app/api/sse.py:119-152 | a run in which the second connection drops behind its retry frame and the third sends the first event again |
| `Reconnects.FullyReceivableIff` | backend/app/api/sse.py:66-136 | some run receives a log in full if and only if every event beyond the start cursor can be encoded |
| `SseWire.FrameIsRead` | backend/app/api/sse.py:85-92 | a browser reads back one event, retry or heartbeat frame as just that |
| `SseWire.FramesAreWritten` | backend/app/api/sse.py:85-149 | the text of a message, retry and heartbeat frame |
| `SseWire.WireIsRead` | backend/app/api/sse.py:85-149 | a reader with any past dispatches exactly the events sent, in order, with payload and id |
| `SseWire.CutLeavesNoTrace` | backend/app/api/sse.py:85-149 | text cut inside a frame leaves no trace in what is dispatched or remembered, wherever it is cut |
| `SseWire.StreamIsRead` | backend/app/api/sse.py:85-149 | one connection, read by a reader with any past: its completed events are dispatched, and the header becomes the last id of this connection, or empty if it completed frames but no event |
| `SseWire.HeaderIsLastReceivedIff` | backend/app/api/sse.py:85-149 | over any sequence of connections the remembered id is the last id received if and only if the header was kept |
| `Metrics.ScanHistory` | backend/app/api/service.py:655-683 | at most 11 reads; the whole history as the last read found it, or a refusal exactly when that has more than 10,000 events |
| `Metrics.AggregateRuntimeEvents` | backend/app/api/metrics.py:46-95 | accepts exactly contiguous histories 1..n of the run and counts what the history holds; otherwise names what is wrong with the first event that does not fit |
| `Metrics.CountIsNumber` | backend/app/api/metrics.py:71-95 | a counter is the number of positions in the history that qualify |
| `Metrics.ContiguousIffLastIsLength` | backend/app/api/metrics.py:59-69 | an ordered history is contiguous if and only if its last sequence is its length |
| `Metrics.RunMetrics` | backend/app/api/service.py:652-685 | paging and aggregation together: which histories give counters, and that they are those of the whole history |
| `Developer.RunToolCalls` | backend/app/agents/developer.py:307-408 | the calls of a turn run in order up to a timeout or the second like failure, with the failure and recovery bookkeeping they call for |
| `Developer.NextRequest` | backend/app/agents/developer.py:157-204 | the next request carries the credit, cap and correction the history entitles it to, and spends the correction |
| `Developer.ActOn` | backend/app/agents/developer.py:263-463 | what follows a response: which stop, with which message, or books up to date for the next turn |
| `Developer.Run` | backend/app/agents/developer.py:96-492 | on every exit path: iterations, usage, latency and tool calls are those of the completed responses and runs, requests are those the history calls for, and the stop fits the last turn |
| `Developer.AtMostOneRecovery` | backend/app/agents/developer.py:165-177 | whatever the model and tools do, at most one request of a run carries a correction |
| `Developer.RecoveryIsOneShot` | backend/app/agents/developer.py:157-204 | the recovery credit and the enlarged cap come with the correction and with nothing else, once per run |
| `Developer.RequestsTellTheHistory` | backend/app/agents/developer.py:157-204 | each request says of the turns before it whether progress was made and whether a correction is due, with the one credit and cap that follow |
| `Developer.CorrectionIsCarriedIff` | backend/app/agents/developer.py:364-402 | a correction is carried exactly behind the first turn with bad arguments, an ambiguous patch or an I/O error, and answers the last of these |
| `Developer.OnlyTheLastPairRepeats` | backend/app/agents/developer.py:343-402 | two adjacent runs fail in the same tool with the same code on arguments of the same shape only as the last pair, exactly under REPEATED_TOOL_FAILURE, and that failure is the evidence |
| `AgentLoops.SignaturesAgreeIff` | backend/app/agents/developer.py:352-376 | failure signatures are equal if and only if tool, error code and argument shape are |
| `Developer.StopReasonTellsTheLastTurn` | backend/app/agents/developer.py:263-492 | MODEL_STOP and TOOL_CALL_LIMIT if and only if the last response says so; a request without response only under TIME_LIMIT |
| `Developer.IterationLimitMeansAllRan` | backend/app/agents/developer.py:307-492 | under ITERATION_LIMIT every turn made calls within the limit and all of them ran |
| `Developer.ToolCallsAreBounded` | backend/app/agents/developer.py:278-492 | on every run the tool calls reported are at most the per-turn limit times the iterations reported |
| `Developer.DeadlineIsKept` | backend/app/agents/developer.py:125-342 | requests are only sent before the deadline, and a run that ends for want of time is out of it |
| `Developer.EndIsTold` | backend/app/agents/developer.py:125-492 | the message of the result for each way a run can end |
| `AgentLoops.TotalsAddUp` | backend/app/agents/developer.py:246-262 | prompt, completion and total tokens and latency are each summed for themselves |
| `Repair.RunToolCalls` | backend/app/agents/repair.py:347-395 | every call is answered up to the first that times out; names outside the repair tools are answered as unknown, not run |
| `Repair.ActOn` | backend/app/agents/repair.py:258-443 | what follows a response: which stop, or books up to date for the next turn |
| `Repair.Repair` | backend/app/agents/repair.py:151-457 | on every exit path the sums are those of the completed responses and answered calls, and the stop fits the last turn |
| `Repair.LastResponseDecides` | backend/app/agents/repair.py:258-457 | stop reason and message as a function of the last response: MODEL_STOP exactly with a changed patch hash, ITERATION_LIMIT only after a turn with calls that were all answered |
| `Repair.SecondIdleStopEndsTheRun` | backend/app/agents/repair.py:300-325 | two stops in a row without patch or blocker happen only as the last two turns, under NO_PROGRESS |
| `Repair.EveryAnswerIsCounted` | backend/app/agents/repair.py:329-395 | every answered call is counted, except that a turn with too many calls runs none |
| `Repair.BlockerIsNamedIff` | backend/app/agents/repair.py:459-461 | which contents name a blocker: white space, the word with its colon in any capitals, then anything |
| `Repair.AnswersAreThoseGiven` | backend/app/agents/repair.py:347-395 | only the repair tools are run; any other name is answered as unknown and never succeeds |
| `Repair.ToolsAreSix` | backend/app/agents/repair.py:31-40 | the six repair tools |
| `Repair.RequestsTellTheHistory` | backend/app/agents/repair.py:151-257 | each request says whether progress was made, and asks for a patch exactly behind a turn without calls |
| `Repair.DeadlineIsKept` | backend/app/agents/repair.py:151-257 | requests are only sent before the deadline, and a run that ends for want of time is out of it |
| `SummaryCache.RepositoryPlanningContextBuilder.LookUpLocked` | backend/app/api/repository_context.py:88-92 | a hit returns the stored summary and makes it the most recent; a miss changes nothing |
| `SummaryCache.RepositoryPlanningContextBuilder.StoreLocked` | backend/app/api/repository_context.py:94-98 | storing makes the key the most recent and evicts the oldest until the bound holds |
| `SummaryCache.RepositoryPlanningContextBuilder.RepositorySummary` | backend/app/api/repository_context.py:78-99 | answer and cache after one call; without a project the cache is not touched |
| `SummaryCache.EveryAnswerIsDirect` | backend/app/api/repository_context.py:88-99 | under any interleaving of the two locked sections every answer is what a direct build gives, and the bound holds |
| `SummaryCache.CacheHoldsTheMostRecent` | backend/app/api/repository_context.py:78-99 | used one call at a time, the cache holds exactly the most recently used distinct keys, in order |
| `SummaryCache.HitIffFewUsedSince` | backend/app/api/repository_context.py:88-98 | a key is cached if and only if it was used and fewer than the bound of distinct other keys were used since |

## Left out

- Trimming and pattern checks of task ids and the work-package metadata of a task node: ids are given as accepted.
- `_completed_task_ids` and `_with_checkpoint_resume_context`: mappings over stored evidence without scheduling logic.
- Contract gating and package budgets in `get_run_dag`: the registry and budget stores are not part of this model.
- Recovery of dispatch attempts is modelled only as creating and resolving its own rows, which the table's identity rules allow; its leases and locks are not part of this model.
- Broker message ids are taken as unique, as the broker generates them.
- `heapq` and `sorted` are used by their contracts (least element, sorted permutation), not modelled as binary heap or merge sort.
- Float rounding in the estimator: costs are exact rationals with the default constants.
- SHA-256 fingerprints are modelled as content identity; the packet fingerprint is left out.
- JSON encoding, Python parsing, identifier terms, file scoring and import resolution: given as functions, symbols and candidates.
- The source cache of the builder: reads of one worktree give the same result each time.
- Scope matches, selection reasons and the repository map of a packet: lists copied without arithmetic.
- The content of the working-state note in the retained conversation: a given rendering of everything observed.
- Lower-casing and trimming of attribute keys: keys are given in that form.
- Heartbeat and poll timing: a heartbeat may come at any moment.
- Payloads of the reconnect model are one line of text, as JSON without raw line ends is; browsers that carry the id buffer from one stream into the next, against section 9.2.6 of the HTML standard, are not modelled.
- `Schedulers.DAGScheduler.Transition`: the refusal of a forbidden transition is a precondition here, proved at every call.
- Range checks of constructors other than those of the retention object and the stream.
- Message texts of the agent loops: a request records its credit, cap, correction and progress, not the conversation, which `Retention` covers; whether an earlier no-patch prompt survives compaction is not recorded.
- `Developer.Run`: a tool that timed out may still be running in its thread; only completed runs are counted, as in the code.
- The checks before `repair` enters its loop (failure kinds, attempt number, handoff) and the cost observer of both loops.
- HTTP routes, settings, planners, Git and Docker execution, leases, token budgets, publication and merge queues.
