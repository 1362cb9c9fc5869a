# AgentField execution bookkeeping in Dafny

AgentField is a control plane for AI agents. Agent nodes register reasoners and skills. A caller invokes a `node.reasoner` target through the execution gateway. Every invocation becomes an execution record, and the executions sharing a run ID form a workflow run. A parent execution ID links them into a DAG. This project models the parts of the system that keep that bookkeeping, and proves what they promise:

- **Execution gateway** (`Gateway`, `Webhook`, `Completion`):
  - target parsing and resolution;
  - agent URL selection and the serverless payload;
  - execution header reading and log truncation;
  - webhook validation;
  - workflow hierarchy derivation;
  - the record updaters of the status callback, completion and failure, with the bounded retry around persisting them;
  - the two non-blocking bounded job queues.
- **Executions and runs** (`Exec`, `WorkflowDag`, `RunDepth`, `ExecutionRecords`, `WorkflowRuns`):
  - grouping executions by run and building the edge graph;
  - the execution DAG and its lightweight timeline, the overall status, and the depth of each execution;
  - the breadth-first maximum depth;
  - the SQL filter assembly, the row scan and UPDATE as written, and the read-modify-write update of an executions table that also stores notes (the corrected design, see Findings);
  - the stale-execution sweep and the per-run aggregation;
  - the run list's paging and sort field, and the run summary and detail rows of the UI API.
- **Dashboard** (`Dashboard`):
  - the two response caches with their TTLs, key and oldest-first eviction;
  - the comparison window;
  - the incident list, the weekly activity heat map and the failure hotspots.
- **Execution notes** (`ExecutionNotes`): appending a note through the store's update callback, listing notes with a case-insensitive tag filter, and finding the execution ID of a request.
- **Go SDK agent** (`AgentSdk`):
  - the context handed to nested calls;
  - serverless event routing, input extraction and context reconstruction;
  - reasoner registration;
  - the request `Call` sends;
  - the retry loop that posts status updates.
- **Python tools** (`Chatbot`, `PerfStress`, `Changelog`):
  - the documentation chatbot's citation keys, hit filtering, de-duplication, citation parsing and context formatting;
  - the load generator's header parser, metrics counters, scenario loader and failure list;
  - the release script's changelog splicing.

`Text` holds the string primitives the Go and Python code uses (trimming, splitting, joining, ASCII case folding, integer parsing), so every contract is stated over visible definitions. `Sorting` holds the ordering used by the timeline, the incidents, the hotspots and the chatbot ranking.

The model follows the form of the source:

- Pure helpers are functions with lemmas.
- Loops are methods whose `ensures` ties the result to a specification function.
- State updated in place is a class: the two dashboard caches, the bounded queue, the executions table, the agent's reasoner registry and the load generator's metrics.

Clocks, random IDs, the database's answers, HTTP outcomes and a handler's result are parameters. Status normalisation is a parameter too, and so are the terminal-status test and the retryable-error test.

## Model

| member | source | states |
|---|---|---|
| Exec.Milliseconds | control-plane/internal/handlers/execute.go:878-879 | `time.Duration.Milliseconds`: the whole number of milliseconds in a nanosecond duration, truncated toward zero for both signs |
| Exec.NonNil | control-plane/pkg/types/execution.go:78-81 | dropping nil entries never lengthens the slice |
| Exec.RunBucketMembers | control-plane/pkg/types/execution.go:76-86 | every execution in a run's bucket carries that RunID and is one of the inputs |
| Exec.RunBucketNonEmpty | control-plane/pkg/types/execution.go:76-86 | a run has a non-empty bucket exactly when some non-nil input carries its RunID |
| Exec.BucketSizesSum | control-plane/pkg/types/execution.go:76-86 | the bucket sizes add up to the number of non-nil inputs: no execution is lost or put in two buckets |
| Exec.GroupExecutionsByRun | control-plane/pkg/types/execution.go:76-86 | the loop builds a map whose keys are exactly the RunIDs that occur, each holding its run's executions in input order |
| Exec.LastWithIdFound | control-plane/pkg/types/execution.go:94-99 | a node is found for an id exactly when some execution has it, and the node stored is an execution with that id (the last one wins) |
| Exec.EdgesOfMembers | control-plane/pkg/types/execution.go:101-105 | an edge parent→child is emitted exactly for each execution with a non-empty parent ID |
| Exec.EdgesPlusRootEntries | control-plane/pkg/types/execution.go:101-109 | each non-nil execution gives either one edge or one root entry, never both |
| Exec.BuildExecutionGraph | control-plane/pkg/types/execution.go:89-116 | the loop's node map, edge list and root set equal the specification functions: the nodes keyed by every ExecutionID, the edges in input order, and the roots as the executions without a parent |
| Gateway.ParseTarget | control-plane/internal/handlers/execute.go:1005-1017 | "target is required" for an empty value; success exactly when the value holds one "."; the two parts glue back to the input and hold no dot; otherwise the format error |
| Gateway.DotFreeGlueUnique | control-plane/internal/handlers/execute.go:1009-1016 | a node ID and target name without dots are fixed by their dotted join |
| Gateway.ParseTargetRoundTrip | control-plane/internal/handlers/execute.go:1005-1017 | joining a dot-free node ID and target name with "." and parsing gives them back |
| Gateway.HasId | control-plane/internal/handlers/execute.go:1020-1029 | the linear scan finds a name exactly when it is in the list |
| Gateway.DetermineTargetType | control-plane/internal/handlers/execute.go:1019-1031 | "reasoner" exactly when the name is a reasoner; "skill" exactly when it is a skill and not a reasoner; an error exactly when it is neither |
| Gateway.BuildAgentURL | control-plane/internal/handlers/execute.go:1033-1053 | "" for no agent; a non-empty invocation URL wins; serverless agents at base/execute ("" without a base); others at base/skills/name or base/reasoners/name, one trailing "/" of the base dropped |
| Gateway.BuildAgentURLTrailingSlash | control-plane/internal/handlers/execute.go:1043-1052 | a base URL with or without one trailing "/" gives the same URL, and a non-serverless agent without an invocation URL is addressed at a path ending in the target name |
| Gateway.OptionalHeader | control-plane/internal/handlers/execute.go:976-989 | a trimmed header becomes nil exactly when it is blank, and otherwise holds the trimmed value |
| Gateway.ReadExecutionHeaders | control-plane/internal/handlers/execute.go:970-997 | the run ID is the trimmed X-Run-ID; the parent, session and actor IDs are the trimmed headers, nil when blank |
| Gateway.ReadExecutionHeadersNormalised | control-plane/internal/handlers/execute.go:970-997 | every value read is already trimmed, and an optional ID that is present is never "" |
| Gateway.ExecContext | control-plane/internal/handlers/execute.go:1062-1076 | execution_id, run_id and workflow_id (both the run ID) are always set; the parent, session and actor keys are present exactly when the header is non-empty; no other keys |
| Gateway.BuildServerlessPayload | control-plane/internal/handlers/execute.go:1055-1094 | without a target or execution, only the input; otherwise path "/execute/<name>", target and reasoner as the name, the input, the execution context, plus "type" when the target type is set and "skill" for skills; exactly these keys |
| Gateway.TruncateForLog | control-plane/internal/handlers/execute.go:1365-1371 | bodies of up to 1024 bytes are kept; longer ones become their first 1024 bytes plus "..." |
| Gateway.DeriveWorkflowHierarchy | control-plane/internal/handlers/execute.go:1267-1296 | no parent: root is the run ID at depth 0; parent found: one level below it, with the parent's root (or its workflow ID) and the parent workflow set; parent not found: depth 1 with the run ID as root |
| Gateway.DepthZeroIffNoParent | control-plane/internal/handlers/execute.go:1267-1296 | with non-negative stored depths, the depth is 0 exactly when there is no parent pointer, and the parent workflow is known exactly when the parent was found |
| Completion.ApplyStatusUpdate | control-plane/internal/handlers/execute.go:465-514 | the status-callback updater: a missing execution is the error "execution <id> not found"; otherwise the new status is set, a non-empty result replaces payload and URI, an error message is set or (on success) cleared, the duration is the requested one or completion minus start for a terminal status, the completion time is set for final statuses (and otherwise only from the request), and no other field changes |
| Completion.StatusUpdateTimesAgree | control-plane/internal/handlers/execute.go:486-511 | for a final terminal status without an explicit duration, the stored duration equals the stored completion time minus the start; a final status always has a completion time; identity fields and the start time are kept |
| Completion.CompleteUpdate | control-plane/internal/handlers/execute.go:869-883 | the completion updater: succeeded, result stored, error cleared, completed and updated now, duration the elapsed milliseconds, nothing else changed; a missing execution is the error "execution <id> not found" |
| Completion.FailUpdate | control-plane/internal/handlers/execute.go:912-929 | the failure updater: failed with the call's error message, completed and updated now, a non-empty result still stored, nothing else changed; a missing execution is the error "execution <id> not found" |
| Completion.ProcessCompletionJob | control-plane/internal/handlers/execute.go:1507-1513 | a job with a call error is persisted as failed with that message, any other as succeeded; either way it is completed now with the job's duration; a missing execution is the not-found error |
| Completion.PersistWithRetry | control-plane/internal/handlers/execute.go:867-905 | at most five attempts; every attempt before the last failed retryably; it stops at the first success or non-retryable error and returns that outcome; the backoffs are taken by attempt number after each retryable failure |
| Completion.PersistSucceedsIff | control-plane/internal/handlers/execute.go:867-905 | the record is persisted exactly when some attempt within the first five succeeds and every attempt before it failed retryably |
| Completion.BoundedQueue.TrySend | control-plane/internal/handlers/execute.go:1446-1453 | a non-blocking send succeeds exactly when the queue has room, appending the job; otherwise the queue is unchanged |
| Completion.BoundedQueue.Receive | control-plane/internal/handlers/execute.go:1430-1434 | a worker takes the oldest job |
| Completion.ResolveIntFromEnv | control-plane/internal/handlers/execute.go:1472-1486 | a blank or non-integer variable gives the fallback; otherwise the parsed trimmed value |
| Completion.QueueCapacity | control-plane/internal/handlers/execute.go:1462-1465 | a queue capacity from the environment is always positive: the configured value, or the default when it is not positive |
| Completion.SubmitAsync | control-plane/internal/handlers/execute.go:333-352 | accepted jobs are queued and answered 202; with a full queue the queue is unchanged, the execution is failed with the queue-full message and the caller gets 503 |
| Completion.EnqueueCompletion | control-plane/internal/handlers/execute.go:1515-1523 | enqueueing succeeds and appends exactly when there is room; otherwise "completion queue is full" and the queue is unchanged |
| Webhook.CheckUrl | control-plane/internal/handlers/execute.go:1113-1129 | a parsed URL is accepted exactly when it parsed, has a scheme and a host, the scheme is http or https in any case, and it has no credentials; the accepted URL drops its fragment |
| Webhook.NormalizeHeadersBounded | control-plane/internal/handlers/execute.go:1131-1149 | a successful header normalisation has at most 20 entries |
| Webhook.NormalizeHeadersWellFormed | control-plane/internal/handlers/execute.go:1131-1149 | every normalised header has a non-empty trimmed name and a trimmed value, both of at most 512 bytes |
| Webhook.NormalizeHeadersCovers | control-plane/internal/handlers/execute.go:1131-1149 | every input header with a non-blank name is kept under its trimmed name |
| Webhook.NormalizeHeadersErrorSticks | control-plane/internal/handlers/execute.go:1138-1146 | once a header check fails, later headers do not change the error |
| Webhook.NormalizeSecret | control-plane/internal/handlers/execute.go:1151-1158 | the secret is trimmed, absent exactly when blank, and rejected exactly when longer than 4096 bytes |
| Webhook.NormalizeWebhookRequest | control-plane/internal/handlers/execute.go:1102-1164 | nil gives no configuration and no error; a blank URL is "webhook.url is required"; success exactly when the URL, header and secret checks all pass, with their results as the configuration |
| Webhook.AcceptedWebhookWithinLimits | control-plane/internal/handlers/execute.go:148-152 | an accepted configuration has an http(s) URL with a host and no credentials, at most 20 well-formed headers, and a non-blank secret of at most 4096 bytes or none |
| WorkflowDag.ExecutionToDagNode | control-plane/internal/handlers/workflow_dag.go:450-472 | a DAG node carries the execution's run, identity, agent, reasoner, timing and parent at the given depth, and its status normalised, with no children and no notes |
| WorkflowDag.ExecutionToLightNode | control-plane/internal/handlers/workflow_dag.go:491-510 | a lightweight node carries the same identity and timing fields at the given depth, and the normalised status |
| WorkflowDag.OverallStatusFrom | control-plane/internal/handlers/workflow_dag.go:475-488 | over normalised statuses, the scan returns failed exactly when some execution failed, running exactly when none failed and one was active (or seen active), else succeeded |
| WorkflowDag.DeriveOverallStatus | control-plane/internal/handlers/workflow_dag.go:474-489 | over normalised statuses: failed if any execution failed, wherever it sits; otherwise running if any is running, pending or queued; otherwise succeeded, including for no executions |
| WorkflowDag.OverallStatusPermutation | control-plane/internal/handlers/workflow_dag.go:340-352 | the overall status does not depend on the order of the executions, so deriving it after the in-place sort gives the same answer |
| WorkflowDag.LightweightRequestCases | control-plane/internal/handlers/workflow_dag.go:512-519 | a request is lightweight exactly for mode "lightweight" or lightweight "true"/"1", ignoring letter case |
| WorkflowDag.LightweightRequestCaseInsensitive | control-plane/internal/handlers/workflow_dag.go:512-519 | lower-casing the query values first does not change the decision |
| WorkflowDag.ByIdContents | control-plane/internal/handlers/workflow_dag.go:273-277 | with unique IDs, execMap holds every execution under its own ID and nothing else |
| WorkflowDag.ChildrenMapIsChildrenOf | control-plane/internal/handlers/workflow_dag.go:278-281 | childrenMap[id] lists exactly the executions whose non-empty parent is id, in input order |
| WorkflowDag.FirstRootIndex | control-plane/internal/handlers/workflow_dag.go:273-284 | the index found is the first execution without a non-empty parent; none when all have one |
| WorkflowDag.RootOf | control-plane/internal/handlers/workflow_dag.go:273-288 | the root is the first execution without a parent, or the first execution when all have one, and none only for an empty run |
| WorkflowDag.DepthFuel | control-plane/internal/handlers/workflow_dag.go:318-337 | following at most `fuel` parent links gives a depth no larger than the fuel |
| WorkflowDag.Depth | control-plane/internal/handlers/workflow_dag.go:318-337 | a chain depth never exceeds the number of executions of the run |
| WorkflowDag.DepthRecurrence | control-plane/internal/handlers/workflow_dag.go:318-337 | computeDepth's recurrence: 0 when the parent is empty or not in the run, otherwise the parent's depth plus one |
| WorkflowDag.ComputeDepth | control-plane/internal/handlers/workflow_dag.go:318-337 | the memoised closure returns the chain depth, records it in the cache (which stays sound) and raises the captured maximum to it |
| WorkflowDag.BuildNode | control-plane/internal/handlers/workflow_dag.go:293-313 | a built node is the execution's node at that depth, and its children are exactly its child executions, each one level deeper, recursively |
| WorkflowDag.BuildChildren | control-plane/internal/handlers/workflow_dag.go:305-310 | one child node per child execution, in order, each at the next depth with its fields set as executionToDAGNode sets them, and so on below |
| WorkflowDag.BuildNodeWithinRank | control-plane/internal/handlers/workflow_dag.go:293-313 | a node built no deeper than its execution's chain depth has every node of its tree within that node's chain depth |
| WorkflowDag.BuildChildrenWithinRank | control-plane/internal/handlers/workflow_dag.go:305-310 | children built at most one level below their parent's chain depth have every node of their trees within its chain depth |
| WorkflowDag.RankBoundsTree | control-plane/internal/handlers/workflow_dag.go:298-300 | a tree whose depths stay within the chain depths is bounded by any bound on the chain depths |
| WorkflowDag.ByStartOrdered | control-plane/internal/handlers/workflow_dag.go:340-342 | the timeline order is non-decreasing in StartedAt |
| WorkflowDag.ByStartCovers | control-plane/internal/handlers/workflow_dag.go:340-342 | every execution appears in the start-ordered list |
| WorkflowDag.TimelineDepths | control-plane/internal/handlers/workflow_dag.go:343-349 | the loop computes each execution's chain depth and a maximum that bounds them all and is attained (or 0) |
| WorkflowDag.DagNodes | control-plane/internal/handlers/workflow_dag.go:343-349 | one childless timeline node per execution, at its depth |
| WorkflowDag.LightNodes | control-plane/internal/handlers/workflow_dag.go:414-422 | one lightweight node per execution, at its depth |
| WorkflowDag.IndexRun | control-plane/internal/handlers/workflow_dag.go:273-284 | the first loop builds execMap, childrenMap and the first parentless index as the specification functions define them |
| WorkflowDag.DagTimeline | control-plane/internal/handlers/workflow_dag.go:315-349 | one childless node per execution in start order carrying its chain depth, and a maximum that bounds the depth of every execution of the run |
| WorkflowDag.BuildExecutionDag | control-plane/internal/handlers/workflow_dag.go:268-365 | the tree hangs from the root execution with every node's children exactly its child executions in order, one level deeper, each node's fields set as executionToDAGNode sets them; the timeline has one node per execution in start order; maxDepth bounds every tree and timeline depth and is attained; the status is the overall status of the run's normalised statuses; name, session and actor come from the root |
| WorkflowDag.BuildLightweightExecutionDag | control-plane/internal/handlers/workflow_dag.go:371-448 | empty input gives an empty timeline, empty status and name, no session or actor, depth 0; otherwise the start-ordered timeline with chain depths and normalised statuses, the overall status of the normalised statuses, and the root chosen after sorting |
| WorkflowDag.LightweightRoot | control-plane/internal/handlers/workflow_dag.go:425-431 | the root search picks the first parentless execution of the sorted list, else its first execution |
| RunDepth.ChildrenIdMapIsChildIds | control-plane/internal/storage/execution_records.go:601-609 | childrenMap[p] lists the IDs of the entries whose non-empty parent is p, in input order |
| RunDepth.ParentMapFacts | control-plane/internal/storage/execution_records.go:601-609 | with unique IDs every entry is either a root or has a parent, never both, and all are input IDs |
| RunDepth.ChildIdsExact | control-plane/internal/storage/execution_records.go:601-609 | with unique IDs a children list holds exactly the IDs whose parent is p, each once |
| RunDepth.RootSeqFacts | control-plane/internal/storage/execution_records.go:601-604 | the root list holds exactly the parentless IDs, each once |
| RunDepth.LevelUnique | control-plane/internal/storage/execution_records.go:616-629 | with unique IDs an execution is reached at one level at most, so the walk's depths are well defined |
| RunDepth.OrphanHasNoLevel | control-plane/internal/storage/execution_records.go:605-608 | an entry whose parent never appears is never reached and contributes nothing |
| RunDepth.IndexDepthInfos | control-plane/internal/storage/execution_records.go:601-609 | the first loop yields the roots in order at depth 0 and the children lists |
| RunDepth.EnqueueChildren | control-plane/internal/storage/execution_records.go:625-628 | every child gets the next depth and is appended to the queue, in order |
| RunDepth.WalkStep | control-plane/internal/storage/execution_records.go:616-629 | one dequeue-and-expand step keeps the walk invariant and leaves visited depths unchanged |
| RunDepth.LevelsVisited | control-plane/internal/storage/execution_records.go:616-629 | when the queue runs empty, every execution that has a level was visited |
| RunDepth.ComputeMaxDepth | control-plane/internal/storage/execution_records.go:589-632 | 0 for no entries; otherwise a non-negative maximum that bounds the level of every execution reachable from a root and is attained (or 0); with unique IDs the walk terminates |
| ExecutionRecords.ClauseText | control-plane/internal/storage/execution_records.go:200-239 | every WHERE conjunct holds exactly one placeholder |
| ExecutionRecords.FilterSlots | control-plane/internal/storage/execution_records.go:200-239 | the filter has ten optional fields, checked in a fixed order |
| ExecutionRecords.SetSlotsExact | control-plane/internal/storage/execution_records.go:200-239 | each set field yields exactly one conjunct with its column, comparison and value, and unset fields yield none |
| ExecutionRecords.WhereSql | control-plane/internal/storage/execution_records.go:252-255 | the WHERE text is empty exactly when there are no conjuncts, and holds one placeholder per conjunct |
| ExecutionRecords.OrderColumn | control-plane/internal/storage/execution_records.go:256-275 | the ORDER BY column is always a whitelisted column: the requested one when it is whitelisted, else started_at |
| ExecutionRecords.OrderDirection | control-plane/internal/storage/execution_records.go:276-279 | DESC exactly when sorting descending, ASC otherwise |
| ExecutionRecords.PagingSql | control-plane/internal/storage/execution_records.go:281-286 | a LIMIT or OFFSET clause is written exactly when its value is positive, and it holds no placeholder |
| ExecutionRecords.BuildWhere | control-plane/internal/storage/execution_records.go:195-239 | the loop appends one conjunct and one bound value per set field, at the same positions |
| ExecutionRecords.BuildExecutionQuery | control-plane/internal/storage/execution_records.go:194-287 | the statement is SELECT, WHERE, ORDER BY, LIMIT and OFFSET in that order, with exactly as many placeholders as bound values, one per set field |
| ExecutionRecords.BytesOrNil | control-plane/internal/storage/execution_records.go:948-953 | an empty payload is written as NULL and any other as itself; reading the column back gives the payload again |
| ExecutionRecords.ScanRowAsWritten | control-plane/internal/storage/execution_records.go:807-883 | scanExecution reads the selected columns; the notes column is not among them |
| ExecutionRecords.UpdateColumnsAsWritten | control-plane/internal/storage/execution_records.go:129-176 | the UPDATE writes seventeen columns from the record; the ID, created_at and notes keep their stored values, so a record read back loses its notes |
| ExecutionRecords.ScanRow | control-plane/internal/storage/execution_records.go:807-883 | scanExecution with the notes column read as well |
| ExecutionRecords.UpdateColumns | control-plane/internal/storage/execution_records.go:129-176 | the UPDATE with the notes column written too: the record reads back exactly, except that created_at is never rewritten |
| ExecutionRecords.Lookup | control-plane/internal/storage/execution_records.go:72-93 | corrected design (see Findings): the lookup by ID gives nil exactly when no row has the ID, and otherwise that row's record with its notes |
| ExecutionRecords.UpdateWhere | control-plane/internal/storage/execution_records.go:129-176 | corrected design (see Findings): UPDATE ... WHERE execution_id = ? rewrites exactly the rows with that ID, notes column included |
| ExecutionRecords.UpdatePersists | control-plane/internal/storage/execution_records.go:97-191 | corrected design (see Findings): after the UPDATE the updated record reads back (with its stored created_at) when its row exists, no row appears when it does not, and every other record reads as before |
| ExecutionRecords.ExecutionStore.GetExecutionRecord | control-plane/internal/storage/execution_records.go:72-93 | corrected design (see Findings), reading notes too: the stored record with this ID, or nil exactly when there is none |
| ExecutionRecords.ExecutionStore.UpdateExecutionRecord | control-plane/internal/storage/execution_records.go:97-191 | corrected design (see Findings), writing notes too: a nil updater is an error; an updater error writes nothing and is returned; a nil result writes nothing and returns the current record; a record is stamped with the current time and written to the row with its ID |
| ExecutionRecords.ExecutionStore.MarkStaleExecutions | control-plane/internal/storage/execution_records.go:705-805 | a limit of 0 or less returns 0 and changes nothing; a cancelled context is an error; otherwise the selected stale rows are timed out and their number returned |
| ExecutionRecords.MarkStaleRows | control-plane/internal/storage/execution_records.go:705-805 | a limit of 0 or less gives 0 with the rows unchanged; a cancelled context gives the cancellation error with the rows unchanged; otherwise the rows and count of a sweep at the cutoff `now - staleAfter` |
| ExecutionRecords.StaleSweepKeepsIds | control-plane/internal/storage/execution_records.go:755-798 | a sweep keeps execution IDs unique: it rewrites rows in place and never adds one |
| ExecutionRecords.StaleDurationMs | control-plane/internal/storage/execution_records.go:769-776 | the duration is the elapsed time in whole milliseconds, clamped at zero |
| ExecutionRecords.TimedOut | control-plane/internal/storage/execution_records.go:778-786 | a swept row keeps its ID and becomes timeout, completed now, with a non-negative duration |
| ExecutionRecords.StaleRows | control-plane/internal/storage/execution_records.go:716-722 | the stale rows are exactly the running, pending or queued rows started at or before the cutoff |
| ExecutionRecords.StaleCandidates | control-plane/internal/storage/execution_records.go:716-722 | the sweep selects at most `limit` stale rows, oldest first |
| ExecutionRecords.StaleSelectionIsOldest | control-plane/internal/storage/execution_records.go:716-722 | a stale row is left out only when the limit is reached and every selected row started no later |
| ExecutionRecords.MarkTimedOut | control-plane/internal/storage/execution_records.go:755-798 | after the sweep every active row with a selected ID is timed out, and every other row is untouched |
| ExecutionRecords.SweepOnlyTimesOutActiveRows | control-plane/internal/storage/execution_records.go:755-798 | the sweep changes only running, pending or queued rows, moving them to timeout with a non-negative duration, and keeps IDs and row order |
| ExecutionRecords.StillActive | control-plane/internal/storage/execution_records.go:768-797 | a selected row is still active when its UPDATE runs, because earlier UPDATEs hit other IDs |
| ExecutionRecords.SweepRows | control-plane/internal/storage/execution_records.go:767-798 | the UPDATE loop times out every selected row and counts each one |
| ExecutionRecords.StatusCountMap | control-plane/internal/storage/execution_records.go:476-492 | a status has a count exactly when some grouped row normalises to it |
| ExecutionRecords.CountStatuses | control-plane/internal/storage/execution_records.go:476-493 | the loop fills StatusCounts (a later equal status overwrites) and totals the active counts |
| ExecutionRecords.ActiveIsSumOfActiveCounts | control-plane/internal/storage/execution_records.go:476-493 | when normalised statuses are distinct, ActiveExecutions is the running plus pending plus queued count |
| ExecutionRecords.DepthInfoOf | control-plane/internal/storage/execution_records.go:560-574 | a NULL or empty parent makes a root; otherwise the parent is kept |
| ExecutionRecords.RunMaxDepth | control-plane/internal/storage/execution_records.go:532-578 | MaxDepth is -1 exactly for more than 1000 executions, otherwise the walk's maximum depth |
| ExecutionRecords.NonEmptyOrNil | control-plane/internal/storage/execution_records.go:525-530 | the root's session and actor are kept only when non-NULL and non-empty |
| ExecutionRecords.FirstParsingLayout | control-plane/internal/storage/execution_records.go:688-692 | the first layout from the list that parses the value, and none when no layout does |
| ExecutionRecords.ParseTimeString | control-plane/internal/storage/execution_records.go:682-702 | a blank value is the zero time with no error; otherwise the value of the first layout that parses the trimmed value; only when no layout parses, success exactly through the retry with "Z" for a zone-less 'T' timestamp, else an error naming the value |
| ExecutionRecords.ParseTimeStringIgnoresSpace | control-plane/internal/storage/execution_records.go:683 | surrounding whitespace never changes the outcome |
| ExecutionRecords.ZoneRetryNeverSucceeds | control-plane/internal/storage/execution_records.go:694-699 | when RFC3339Nano accepts only text with a dash, the appended-"Z" retry can never succeed, since it runs only on values without a dash |
| ExecutionRecords.ParseDBTime | control-plane/internal/storage/execution_records.go:648-671 | NULLs and invalid nullable values are the zero time; native times pass through; text is parsed; any other type is an error naming it |
| ExecutionRecords.ParseDBTimeErrNotBlank | control-plane/internal/storage/execution_records.go:648-671 | a text value that fails to parse is not blank, since blank text is read as the zero time |
| ExecutionNotes.NoteHasTags | control-plane/internal/handlers/execution_notes.go:211-228 | the map-building loop accepts exactly when the filter is empty or some filter tag equals some note tag once both are trimmed and their ASCII letters lower-cased |
| ExecutionNotes.MatchIgnoresCaseAndSpace | control-plane/internal/handlers/execution_notes.go:217-223 | tags that differ only in surrounding space and letter case match |
| ExecutionNotes.UntaggedNoteMatchesOnlyEmptyFilter | control-plane/internal/handlers/execution_notes.go:211-228 | a note without tags passes only the empty filter |
| ExecutionNotes.ExecutionIdFromContext | control-plane/internal/handlers/execution_notes.go:193-208 | a string in the request context wins, even an empty one; then a non-empty X-Execution-ID header; then the query parameter |
| ExecutionNotes.NewNote | control-plane/internal/handlers/execution_notes.go:47-76 | the request is rejected exactly when it does not bind, the execution ID is empty or the message is blank; the note keeps the trimmed message and never a nil tag list |
| ExecutionNotes.AddNoteUpdaterAppendsOne | control-plane/internal/handlers/execution_notes.go:81-99 | the callback fails for a missing execution; otherwise it appends exactly one note at the end and changes nothing else but the update time |
| ExecutionNotes.AddExecutionNote | control-plane/internal/handlers/execution_notes.go:45-131 | over the corrected store (see Findings): invalid requests give 400 and a failed update 500, both without changing the store; on success the stored execution is the one read before with the new note appended and the update time set, and nothing else about it changes; an event is produced exactly when the execution has a run ID; no other execution changes in any case |
| ExecutionNotes.ReadBackAfterUpdate | control-plane/internal/handlers/execution_notes.go:81-99 | with the notes column persisted, reading the execution back after the update returns the written notes |
| ExecutionNotes.ParseTagFilter | control-plane/internal/handlers/execution_notes.go:144-152 | an empty query means no filter; otherwise one trimmed tag per comma-separated piece |
| ExecutionNotes.FilterNotesExact | control-plane/internal/handlers/execution_notes.go:167-177 | the filtered list holds exactly the stored notes the filter accepts, and the empty filter keeps them all |
| ExecutionNotes.FilterByTags | control-plane/internal/handlers/execution_notes.go:169-174 | the filtering loop keeps the accepted notes in their stored order |
| ExecutionNotes.GetExecutionNotes | control-plane/internal/handlers/execution_notes.go:135-190 | over the corrected store (see Findings): 400 without an ID, 404 for an unknown execution, otherwise the (filtered) notes, never nil, with Total equal to their number |
| ExecutionNotes.ListingWithoutFilterIsComplete | control-plane/internal/handlers/execution_notes.go:175-177 | without a tag filter every stored note is listed |
| ExecutionNotes.NoteLostAsWritten | control-plane/internal/storage/execution_records.go:129-176 | as written, the store's UPDATE and SELECT carry no notes column, so a note appended through the callback does not come back |
| ExecutionNotes.NoteKept | control-plane/internal/handlers/execution_notes.go:81-99 | with notes written and read back, the execution after the add holds its earlier notes followed by the new one |
| WorkflowRuns.StatusTallyFacts | control-plane/internal/handlers/ui/workflow_runs.go:373-390 | the status tally has one key per normalised status present, each counting the executions with that status, and its values add up to the number of executions |
| WorkflowRuns.DeriveStatusFromCounts | control-plane/internal/handlers/ui/workflow_runs.go:217-241 | failed exactly when the failed count is positive; running exactly when none failed and some are active; succeeded otherwise; the range loop sums every count, and both outcomes of the all-succeeded test give succeeded |
| WorkflowRuns.CloneStatusCounts | control-plane/internal/handlers/ui/workflow_runs.go:424-434 | nil stays nil; otherwise a map with exactly the same entries |
| WorkflowRuns.CountOutcomeSteps | control-plane/internal/handlers/ui/workflow_runs.go:436-448 | completed counts the succeeded executions, failed counts the failed, cancelled and timed-out ones, and together they never exceed the number of executions |
| WorkflowRuns.TallyAgreesWithOutcomeSteps | control-plane/internal/handlers/ui/workflow_runs.go:303-309 | the completed and failed steps read from the status tally agree with countOutcomeSteps |
| WorkflowRuns.ParsePositiveInt | control-plane/internal/handlers/ui/workflow_runs.go:497-503 | a trimmed decimal integer above zero, otherwise the fallback |
| WorkflowRuns.ParsePositiveIntRoundTrip | control-plane/internal/handlers/ui/workflow_runs.go:497-503 | a positive number written in decimal reads back as itself |
| WorkflowRuns.ParsePositiveIntWithin | control-plane/internal/handlers/ui/workflow_runs.go:505-514 | parsePositiveInt clamped to [min, max], so always inside the range when min ≤ max |
| WorkflowRuns.SortFieldNameRoundTrip | control-plane/internal/handlers/ui/workflow_runs.go:517-534 | each of the six backend names sanitises to itself |
| WorkflowRuns.SanitizeRunSortField | control-plane/internal/handlers/ui/workflow_runs.go:517-534 | every input maps to one of the six backend names |
| WorkflowRuns.SanitizeRunSortFieldStable | control-plane/internal/handlers/ui/workflow_runs.go:517-534 | sanitising is idempotent and ignores ASCII letter case and surrounding space |
| WorkflowRuns.PageOf | control-plane/internal/handlers/ui/workflow_runs.go:95 | the page is at least 1, and 1 when absent |
| WorkflowRuns.PageSizeOf | control-plane/internal/handlers/ui/workflow_runs.go:96 | the page size is in [1, 200], and 20 when absent |
| WorkflowRuns.OptionalFilter | control-plane/internal/handlers/ui/workflow_runs.go:107-118 | a filter is set exactly when the trimmed parameter is non-blank, to the trimmed value |
| WorkflowRuns.PageOffset | control-plane/internal/handlers/ui/workflow_runs.go:97 | the offset counts the runs on all earlier pages |
| WorkflowRuns.SinceFilter | control-plane/internal/handlers/ui/workflow_runs.go:119-123 | a start time is set only when the trimmed `since` value parses |
| WorkflowRuns.ListRunsFilter | control-plane/internal/handlers/ui/workflow_runs.go:95-123 | the run-list filter pages at (page-1)*pageSize, sorts by a sanitised field, descending unless "asc", and sets only the trimmed filters given |
| WorkflowRuns.ListPage | control-plane/internal/handlers/ui/workflow_runs.go:142-154 | the total is the stored run count, or the number returned when that is 0; hasMore exactly when page*pageSize is below the total |
| WorkflowRuns.PagesTile | control-plane/internal/handlers/ui/workflow_runs.go:95-146 | pages tile the run list: each ends where the next one starts, and hasMore says exactly that the next page starts below the total |
| WorkflowRuns.NodeChildMapIsChildren | control-plane/internal/handlers/ui/workflow_runs.go:451-456 | childMap[id] lists exactly the nodes whose non-empty parent is id, in order |
| WorkflowRuns.ApiExecutionOf | control-plane/internal/handlers/ui/workflow_runs.go:472-491 | a row has a parent workflow (the node's own workflow) exactly when the node has a non-empty parent, and carries the child counts given |
| WorkflowRuns.CountChildStates | control-plane/internal/handlers/ui/workflow_runs.go:460-470 | ActiveChildren counts running children and PendingChildren pending or queued ones, together at most the number of children |
| WorkflowRuns.GroupChildren | control-plane/internal/handlers/ui/workflow_runs.go:451-456 | the first loop builds the children map as specified |
| WorkflowRuns.BuildApiExecutions | control-plane/internal/handlers/ui/workflow_runs.go:450-495 | one row per timeline node, in order, each with its running and its pending-or-queued child counts |
| WorkflowRuns.ApiRowChildCounts | control-plane/internal/handlers/ui/workflow_runs.go:459-470 | a row's active and pending counts are the numbers of the node's own children that are running and that are pending or queued; they add up to at most its number of children |
| WorkflowRuns.EmptySummary | control-plane/internal/handlers/ui/workflow_runs.go:324-332 | a run without executions has its identity, empty counts and zero executions |
| WorkflowRuns.LatestCompletion | control-plane/internal/handlers/ui/workflow_runs.go:382-386 | the latest CompletedAt of the executions, none when none completed |
| WorkflowRuns.LatestStart | control-plane/internal/handlers/ui/workflow_runs.go:387-389 | the latest StartedAt, never earlier than the starting value |
| WorkflowRuns.TallyRun | control-plane/internal/handlers/ui/workflow_runs.go:373-390 | the counting loop yields the status tally, the active count, the latest completion and the latest start |
| WorkflowRuns.ByStartKeepsIndex | control-plane/internal/handlers/ui/workflow_runs.go:334-338 | sorting the copy keeps the same executions, unique IDs and ID map |
| WorkflowRuns.MaxDepthOfSorted | control-plane/internal/handlers/ui/workflow_runs.go:340-359 | the DAG's maximum depth over the sorted copy is the run's maximum depth |
| WorkflowRuns.SortedScanFacts | control-plane/internal/handlers/ui/workflow_runs.go:356-390 | the scan over the sorted copy finds the run's earliest and latest start and its latest completion |
| WorkflowRuns.SortedTallyFacts | control-plane/internal/handlers/ui/workflow_runs.go:373-391 | the tally over the sorted copy counts the run's executions |
| WorkflowRuns.CurrentTaskOf | control-plane/internal/handlers/ui/workflow_runs.go:360-371 | the current task is the latest execution's reasoner, the root's, or the display name |
| WorkflowRuns.AssembleSummary | control-plane/internal/handlers/ui/workflow_runs.go:342-398 | the summary takes its naming from the DAG root and latest execution and its counts, active steps and times from one pass over the sorted executions; Terminal exactly for succeeded or failed |
| WorkflowRuns.SummarizeRun | control-plane/internal/handlers/ui/workflow_runs.go:323-401 | the summary of a run: root and names from the earliest-started root, the overall status of the normalised statuses, normalised-status counts that add up to the number of executions, the active count, the span of starts, the latest completion and the maximum depth |
| Dashboard.DashboardCache.constructor | control-plane/internal/handlers/ui/dashboard.go:74-78 | a new cache holds nothing and has a 30-second TTL |
| Dashboard.DashboardCache.Get | control-plane/internal/handlers/ui/dashboard.go:81-89 | a hit exactly when a summary is stored and younger than the TTL, returning that summary |
| Dashboard.DashboardCache.Set | control-plane/internal/handlers/ui/dashboard.go:92-98 | the cache holds the given summary, stamped now |
| Dashboard.TtlForPreset | control-plane/internal/handlers/ui/dashboard.go:307-320 | 30 s for 1h, 60 s for 24h, 2 min for 7d, 5 min for 30d, 60 s for anything else; always within [30 s, 5 min] |
| Dashboard.TtlGrowsWithRange | control-plane/internal/handlers/ui/dashboard.go:307-320 | longer presets are cached longer; a custom range like 24h |
| Dashboard.HourStart | control-plane/internal/handlers/ui/dashboard.go:325-326 | the whole-second start of the hour containing t, a multiple of 3600 |
| Dashboard.CacheKey | control-plane/internal/handlers/ui/dashboard.go:323-332 | the key ends in -1 exactly for a comparison request |
| Dashboard.ParseCacheKeyRoundTrip | control-plane/internal/handlers/ui/dashboard.go:323-332 | a cache key reads back as the start hours of both ends and the flag |
| Dashboard.CacheKeyIdentifiesWindow | control-plane/internal/handlers/ui/dashboard.go:323-332 | two requests share a key exactly when both ends fall in the same hours and the flags agree |
| Dashboard.ComparisonPeriod | control-plane/internal/handlers/ui/dashboard.go:521-524 | the previous window ends where the current one starts and has the same length |
| Dashboard.Incidents | control-plane/internal/handlers/ui/dashboard.go:1293-1316 | one row per failed, timed-out or cancelled execution |
| Dashboard.IncidentsAreFailures | control-plane/internal/handlers/ui/dashboard.go:1293-1316 | a row is an incident exactly when it comes from a failed, timed-out or cancelled execution |
| Dashboard.BuildIncidentItems | control-plane/internal/handlers/ui/dashboard.go:1290-1328 | at most limit incidents, newest first, each an incident of the input, and any incident left out started no later than every listed one |
| Dashboard.KeepsNewest | control-plane/internal/handlers/ui/dashboard.go:1318-1325 | cutting the newest-first list keeps the newest incidents |
| Dashboard.Percent | control-plane/internal/handlers/ui/dashboard.go:899-907 | part/whole·100 for a positive whole, 0 otherwise, within [0, 100] for a share |
| Dashboard.Weekday | control-plane/internal/handlers/ui/dashboard.go:945 | the UTC weekday, Sunday being 0 |
| Dashboard.HourOfDay | control-plane/internal/handlers/ui/dashboard.go:946 | the UTC hour of day |
| Dashboard.NextDay | control-plane/internal/handlers/ui/dashboard.go:945-946 | a day later is the next weekday at the same hour |
| Dashboard.CountActivity | control-plane/internal/handlers/ui/dashboard.go:939-956 | the 7x24 grid counts in every cell the executions that started in that weekday and hour and the failed ones among them, with totals adding up to the number of executions |
| Dashboard.RowErrorRates | control-plane/internal/handlers/ui/dashboard.go:959-965 | each cell of a day gets its failure percentage, counts unchanged |
| Dashboard.BuildActivityPatterns | control-plane/internal/handlers/ui/dashboard.go:937-968 | every cell counts its executions and failures, failures never exceed the total, the error rate is their percentage, and the grid totals add up to the number of executions |
| Dashboard.ShortenError | control-plane/internal/handlers/ui/dashboard.go:877-880 | messages of at most 100 characters are kept; longer ones become their first 100 characters and "..." (characters stand for Go's bytes) |
| Dashboard.Tally | control-plane/internal/handlers/ui/dashboard.go:856-884 | no empty reasoner is tallied, and failures never exceed runs |
| Dashboard.TallyCounts | control-plane/internal/handlers/ui/dashboard.go:856-884 | a reasoner is tallied exactly when it ran, with all its runs and all its failed, cancelled or timed-out runs counted |
| Dashboard.TallyErrorCounts | control-plane/internal/handlers/ui/dashboard.go:876-882 | each shortened error message of a reasoner is counted once per failure carrying it |
| Dashboard.FailuresAreAShare | control-plane/internal/handlers/ui/dashboard.go:870-873 | a reasoner's failures are part of all counted failures |
| Dashboard.TallyReasoners | control-plane/internal/handlers/ui/dashboard.go:853-884 | the first loop yields the tally and the number of counted failures |
| Dashboard.TopErrors | control-plane/internal/handlers/ui/dashboard.go:910-920 | the three most frequent messages (fewer if fewer exist), most frequent first, with their counts |
| Dashboard.TopOfSorted | control-plane/internal/handlers/ui/dashboard.go:914-919 | cutting the sorted message list keeps the most frequent messages |
| Dashboard.HotspotItemFor | control-plane/internal/handlers/ui/dashboard.go:893-922 | the row of one reasoner: its counts, failure percentage, share of all failures and top messages |
| Dashboard.HotspotItems | control-plane/internal/handlers/ui/dashboard.go:887-925 | one row for each reasoner with a failure, each once |
| Dashboard.BuildHotspotSummary | control-plane/internal/handlers/ui/dashboard.go:846-934 | at most ten rows, most failures first, one per reasoner, each row its tallied statistics; when fewer than ten are listed every reasoner with a failure is listed, and any reasoner left out has no more failures than every listed one |
| Dashboard.TopHotspots | control-plane/internal/handlers/ui/dashboard.go:927-933 | cutting the sorted rows keeps the reasoners with the most failures, and a cut that keeps every row keeps every failing reasoner |
| Dashboard.HotspotRowMeaning | control-plane/internal/handlers/ui/dashboard.go:846-934 | a row's counts are the reasoner's runs and failures, its percentages lie in [0, 100], and each top message's count is the number of failures carrying it |
| Dashboard.OldestEntryKey | control-plane/internal/handlers/ui/dashboard.go:357-365 | with no empty key, the scan picks a key of oldest timestamp; an empty map gives "" |
| Dashboard.EnhancedDashboardCache.constructor | control-plane/internal/handlers/ui/dashboard.go:299-304 | a new cache is empty |
| Dashboard.EnhancedDashboardCache.Get | control-plane/internal/handlers/ui/dashboard.go:335-350 | a hit exactly when the key is stored and younger than its preset's TTL, returning the stored response |
| Dashboard.EnhancedDashboardCache.Set | control-plane/internal/handlers/ui/dashboard.go:353-375 | below capacity the entry is added or replaced; at capacity an oldest entry is evicted first (none when the oldest key is ""); the cache stays within its size for non-empty keys |
| AgentSdk.ZeroPad6 | sdk/go/agent/agent.go:283-289 | %06d: at least six digits, ending in the number's own decimal digits |
| AgentSdk.GeneratedId | sdk/go/agent/agent.go:283-289 | a generated ID is the prefix, an underscore and something more |
| AgentSdk.RunIdFrom | sdk/go/agent/agent.go:283-285 | run IDs start with run_ |
| AgentSdk.ExecutionIdFrom | sdk/go/agent/agent.go:287-289 | execution IDs start with exec_ |
| AgentSdk.ChildContext | sdk/go/agent/agent.go:249-281 | the child runs in the caller's run (else its workflow, else a fresh run) and workflow (else the run), keeps the root workflow (else the workflow), has a fresh exec_ ID whose parent is the caller's execution, the same session and actor, and one more level of depth |
| AgentSdk.AnchoredDescend | sdk/go/agent/agent.go:249-281 | below a context with run, workflow and root set, nested calls never change them and each adds one level |
| AgentSdk.DescendKeepsLineage | sdk/go/agent/agent.go:249-281 | a chain of nested calls stays in the run and workflows the first call fixed, its depth grows by one per call, and the innermost parent is the execution just above |
| AgentSdk.BuildChildContext | sdk/go/agent/agent.go:1094-1112 | a parent with neither run nor execution starts a fresh root at depth 0 whose workflow and root are the new run; any other parent gets its ChildContext |
| AgentSdk.FirstNonBlank | sdk/go/agent/agent.go:302-311 | the position of the first key holding a non-blank string, every earlier key being blank; none exactly when all are blank |
| AgentSdk.FirstString | sdk/go/agent/agent.go:302-311 | the trimmed value at that position, "" exactly when every key is blank |
| AgentSdk.StringFromMap | sdk/go/agent/agent.go:302-311 | the loop with its early return yields FirstString |
| AgentSdk.ReservedIgnoresCase | sdk/go/agent/agent.go:676-678 | the routing keys are matched whatever their case |
| AgentSdk.ExtractInput | sdk/go/agent/agent.go:663-685 | no payload gives an empty input; an "input" object is the input and any other "input" value is wrapped under "value"; otherwise exactly the non-routing keys with their values |
| AgentSdk.ExtractInputIdempotent | sdk/go/agent/agent.go:663-685 | stripping the routing keys a second time removes nothing more |
| AgentSdk.ExtractInputFromServerless | sdk/go/agent/agent.go:663-685 | the filtering loop yields ExtractInput |
| AgentSdk.ContextMapOf | sdk/go/agent/agent.go:700 | the execution_context object is used only when it is an object |
| AgentSdk.FillFrom | sdk/go/agent/agent.go:700-719 | a set field is kept; an empty one is filled from the execution_context object when there is one |
| AgentSdk.SeededIds | sdk/go/agent/agent.go:688-719 | each trimmed non-blank header wins; a blank one is filled from the execution_context object's snake_case or camelCase key |
| AgentSdk.ContextFromIds | sdk/go/agent/agent.go:721-737 | fresh run and execution IDs only when missing, the workflow defaults to the run, the root to the workflow, and the parent workflow is the root exactly when there is a parent execution |
| AgentSdk.ContextFromServerless | sdk/go/agent/agent.go:687-738 | the serverless context: headers, then the execution_context object, then the fallbacks, at depth 0 |
| AgentSdk.HeaderWins | sdk/go/agent/agent.go:688-705 | non-blank run and execution headers decide those IDs whatever the payload says |
| AgentSdk.ReasonerFromPath | sdk/go/agent/agent.go:528-535 | the reasoner taken from a path never contains a slash |
| AgentSdk.ResolveReasoner | sdk/go/agent/agent.go:526-536 | the reasoner, target or skill key wins; otherwise the name taken from the path or rawPath |
| AgentSdk.RouteEvent | sdk/go/agent/agent.go:526-536 | the routing step yields ResolveReasoner |
| AgentSdk.RoutedPathNamesReasoner | sdk/go/agent/agent.go:529-532 | "/execute/<name>", "/reasoners/<name>" and "/skills/<name>" route to name |
| AgentSdk.BarePathNamesReasoner | sdk/go/agent/agent.go:533-534 | a single path segment is the reasoner's name |
| AgentSdk.EventPathNamesReasoner | sdk/go/agent/agent.go:526-536 | an event naming no reasoner but carrying "/<prefix>/<name>" routes to name |
| AgentSdk.ConfiguredFlags | sdk/go/agent/agent.go:73-86 | after the options, DefaultCLI holds exactly when some option is WithDefaultCLI and CLIEnabled when some option is WithCLI or WithDefaultCLI; name and handler are untouched |
| AgentSdk.Agent.constructor | sdk/go/agent/agent.go:174-232 | a new agent has its configuration, no reasoners and no default CLI reasoner |
| AgentSdk.Agent.RegisterReasoner | sdk/go/agent/agent.go:325-350 | the reasoner is stored under its name with the options applied; the default CLI flag is kept, and the name becomes the default, only when no other name holds it; an existing default never changes |
| AgentSdk.Agent.HandleServerlessEvent | sdk/go/agent/agent.go:521-559 | after the adapter: 400 when no reasoner is named, 404 for an unknown one, 500 with the message for a handler error, and 200 with an object result as is or any other result under "result" |
| AgentSdk.HandlerResponse | sdk/go/agent/agent.go:548-558 | an error is a 500 carrying its message; an object result is the body, any other result is wrapped under "result" |
| AgentSdk.CallTarget | sdk/go/agent/agent.go:905-907 | a target without a dot is qualified with the node ID; a target with one is kept |
| AgentSdk.CallTargetIdempotent | sdk/go/agent/agent.go:905-907 | qualifying a qualified target changes nothing |
| AgentSdk.ExecuteUrl | sdk/go/agent/agent.go:921 | the base URL without its trailing slash followed by /api/v1/execute/ and the target without its leading slash |
| AgentSdk.CallHeaders | sdk/go/agent/agent.go:926-943 | Content-Type and Accept are application/json and X-Run-ID is the run, always; each lineage header carries its context field exactly when the field is set; Authorization is "Bearer " and the token exactly when there is a token |
| AgentSdk.Agent.CallRequest | sdk/go/agent/agent.go:899-943 | a blank AgentField URL, a payload encoding error and a request build error are errors, in that order, with their messages, and there is no other error; otherwise the request goes to the execute URL of the qualified target with the headers of CallHeaders for the context's run, or a fresh non-empty one |
| AgentSdk.PostExecutionStatus | sdk/go/agent/agent.go:868-897 | a request-building error is reported at once; otherwise at most five attempts, stopping at the first 2xx, success exactly when the last attempt was delivered, the last failure's message otherwise, and a sleep of 2^k seconds after each failed attempt but the last |
| AgentSdk.BackoffSum | sdk/go/agent/agent.go:891-893 | the sleeps 1, 2, 4, ... seconds add up to one less than the next power of two |
| AgentSdk.StatusBackoffBound | sdk/go/agent/agent.go:870-893 | one status update sleeps at most 15 seconds between its attempts |
| Chatbot.AlphaKeyOf | examples/python_agent_nodes/documentation_chatbot/main.py:142-155 | a key is a non-empty string of capital letters |
| Chatbot.KeyIndexOfAlphaKey | examples/python_agent_nodes/documentation_chatbot/main.py:142-155 | reading a key back as a bijective base-26 number gives its index |
| Chatbot.AlphaKeyOfKeyIndex | examples/python_agent_nodes/documentation_chatbot/main.py:142-155 | every non-empty capital-letter string is the key of its index, so the keys are exactly those strings |
| Chatbot.AlphaKeyInjective | examples/python_agent_nodes/documentation_chatbot/main.py:142-155 | distinct indices get distinct keys |
| Chatbot.AlphaKeyExamples | examples/python_agent_nodes/documentation_chatbot/main.py:143 | 0 is A, 25 is Z, 26 is AA, 27 is AB and 702 is AAA |
| Chatbot.AlphaKey | examples/python_agent_nodes/documentation_chatbot/main.py:142-155 | a negative index raises "Index must be non-negative"; otherwise the divmod loop and the reversal yield the key of the index |
| Chatbot.FilteredHitsAppend | examples/python_agent_nodes/documentation_chatbot/main.py:158-173 | filtering distributes over concatenation, so the kept hits keep their order |
| Chatbot.FilteredHitsExact | examples/python_agent_nodes/documentation_chatbot/main.py:158-173 | a hit is kept exactly when its namespace matches and its score is at least the minimum, each occurrence counted |
| Chatbot.FilterHits | examples/python_agent_nodes/documentation_chatbot/main.py:158-173 | the loop yields the filtered hits |
| Chatbot.BySourceWellFormed | examples/python_agent_nodes/documentation_chatbot/main.py:179-185 | the by_source dict has an entry for every source that occurs and only such entries, each one of the results |
| Chatbot.BySourceKeepsBest | examples/python_agent_nodes/documentation_chatbot/main.py:179-185 | the entry kept for a source scores at least as high as every result with that source |
| Chatbot.BySourceKeepsEarliest | examples/python_agent_nodes/documentation_chatbot/main.py:179-185 | on equal scores the earliest result reaching the best score is kept |
| Chatbot.Values | examples/python_agent_nodes/documentation_chatbot/main.py:188 | the dict's values in insertion order |
| Chatbot.Ranked | examples/python_agent_nodes/documentation_chatbot/main.py:188 | the values sorted by descending score |
| Chatbot.TopResults | examples/python_agent_nodes/documentation_chatbot/main.py:188-189 | at most fifteen results are returned |
| Chatbot.RankedUnique | examples/python_agent_nodes/documentation_chatbot/main.py:179-188 | the ranked results carry distinct sources |
| Chatbot.RankedCovers | examples/python_agent_nodes/documentation_chatbot/main.py:179-188 | every source that occurs is ranked |
| Chatbot.TopResultsSound | examples/python_agent_nodes/documentation_chatbot/main.py:176-189 | the returned results are sorted by descending score, carry distinct sources, and each is the earliest best of its source |
| Chatbot.TopResultsComplete | examples/python_agent_nodes/documentation_chatbot/main.py:176-189 | a source is missing only when fifteen results were kept, each scoring at least as high as that source's results |
| Chatbot.DeduplicateResults | examples/python_agent_nodes/documentation_chatbot/main.py:176-189 | the loop, sort and cut yield TopResults |
| Chatbot.PyInt | examples/python_agent_nodes/documentation_chatbot/main.py:200-201 | Python int() succeeds exactly on a stripped, optionally signed decimal integer |
| Chatbot.ParseSource | examples/python_agent_nodes/documentation_chatbot/main.py:197-201 | the path is the text before the first colon |
| Chatbot.ParseSourceRoundTrip | examples/python_agent_nodes/documentation_chatbot/main.py:197-201 | "path:start-end" reads back as path, start and end |
| Chatbot.ParseSourceWithoutRange | examples/python_agent_nodes/documentation_chatbot/main.py:199 | a source with no range cites lines 0 to 0 |
| Chatbot.ParseSourceWithoutEnd | examples/python_agent_nodes/documentation_chatbot/main.py:201 | a single line number cites that line alone |
| Chatbot.ParseSourceRejectsStart | examples/python_agent_nodes/documentation_chatbot/main.py:200 | a range whose start is not an integer raises |
| Chatbot.Preview | examples/python_agent_nodes/documentation_chatbot/main.py:210 | the preview is the text's first 200 characters, or all of a shorter text |
| Chatbot.Citations | examples/python_agent_nodes/documentation_chatbot/main.py:192-217 | citations succeed exactly when every source parses, with one citation per result at its index |
| Chatbot.CitationsFirstError | examples/python_agent_nodes/documentation_chatbot/main.py:195-201 | the error raised is that of the first source that does not parse |
| Chatbot.BuildCitations | examples/python_agent_nodes/documentation_chatbot/main.py:192-217 | the loop yields Citations |
| Chatbot.CitationKeysDistinct | examples/python_agent_nodes/documentation_chatbot/main.py:192-217 | citation keys are pairwise distinct |
| Chatbot.CitationKeys | examples/python_agent_nodes/documentation_chatbot/main.py:195-204 | citation i carries the key of index i |
| Chatbot.Blocks | examples/python_agent_nodes/documentation_chatbot/main.py:225-228 | block i is "[key] source" and the text for result i |
| Chatbot.FormatContextForSynthesis | examples/python_agent_nodes/documentation_chatbot/main.py:220-230 | no results give "(no context available)"; otherwise the blocks joined by blank lines |
| Chatbot.CitationKeysLabelBlocks | examples/python_agent_nodes/documentation_chatbot/main.py:192-230 | block i of the context opens with the key of citation i and its source |
| Chatbot.ContextStartsWithFirstBlock | examples/python_agent_nodes/documentation_chatbot/main.py:220-230 | the context opens with the first block, followed by a blank line when more follow |
| Chatbot.MatchedSections | examples/python_agent_nodes/documentation_chatbot/main.py:297-301 | only truthy sections are collected |
| Chatbot.DedupSnoc | examples/python_agent_nodes/documentation_chatbot/main.py:302-308 | removing duplicates keeps first occurrences in order: a repeated value adds nothing, a new one goes last |
| Chatbot.UniqueSections | examples/python_agent_nodes/documentation_chatbot/main.py:297-308 | the seen-set loop yields the sections without repeats, in first-occurrence order |
| Chatbot.RefinementQueries | examples/python_agent_nodes/documentation_chatbot/main.py:617-623 | a second round happens exactly when more is needed and topics are missing; for each of the first three topics, the question with the topic appended and then the topic alone |
| PerfStress.ParseHeader | control-plane/tools/perf/nested_workflow_stress.py:67-76 | a header splits at its first ':' when it has one, else at its first '=', both halves stripped; with neither it is rejected with the invalid-header message |
| PerfStress.ParseColonHeader | control-plane/tools/perf/nested_workflow_stress.py:67-76 | "key:value" reads back as the stripped key and value, even when the value holds ':' |
| PerfStress.ParseEqualsHeader | control-plane/tools/perf/nested_workflow_stress.py:67-76 | "key=value" without ':' reads back as the stripped key and value |
| PerfStress.Bump | control-plane/tools/perf/nested_workflow_stress.py:136-141 | a counter increment adds one to that key and leaves every other key alone |
| PerfStress.KeptLatencies | control-plane/tools/perf/nested_workflow_stress.py:134-135 | only finite latencies are kept, in call order |
| PerfStress.ReplayCounts | control-plane/tools/perf/nested_workflow_stress.py:124-141 | after any calls: the total is their number, the latencies are the finite ones in order, and each counter counts the calls that gave its key (truthy status, HTTP code, exception name) |
| PerfStress.CountersBounded | control-plane/tools/perf/nested_workflow_stress.py:124-141 | no counter and no latency list exceeds the total |
| PerfStress.Metrics.constructor | control-plane/tools/perf/nested_workflow_stress.py:124-130 | new metrics hold no calls |
| PerfStress.Metrics.Record | control-plane/tools/perf/nested_workflow_stress.py:132-141 | recording one call is one replay step |
| PerfStress.Failures | control-plane/tools/perf/nested_workflow_stress.py:331-337 | at most one failure entry per request |
| PerfStress.FailuresExact | control-plane/tools/perf/nested_workflow_stress.py:331-337 | exactly the requests whose final status is set and not a success are listed, with their sequence number and status |
| PerfStress.FinishRequest | control-plane/tools/perf/nested_workflow_stress.py:330-337 | the outcome is recorded, and a failure entry is appended exactly when its final status is set and not a success |
| PerfStress.FinishAll | control-plane/tools/perf/nested_workflow_stress.py:283-337 | requests finishing one after another leave the failures list equal to their failures, and the metrics equal to the old metrics with each request's record call replayed in finishing order (so the total grows by their number) |
| PerfStress.ReplayFromFresh | control-plane/tools/perf/nested_workflow_stress.py:124-141 | replaying calls from new metrics gives the same counters as Replay, so ReplayCounts describes the metrics of a run that starts fresh |
| PerfStress.ScenariosOf | control-plane/tools/perf/nested_workflow_stress.py:211-216 | at most one scenario per entry |
| PerfStress.Scenarios | control-plane/tools/perf/nested_workflow_stress.py:195-221 | the scenario list is never empty |
| PerfStress.ScenariosOfEntries | control-plane/tools/perf/nested_workflow_stress.py:211-216 | one scenario per object entry, none for other entries; the overrides never hold "name" and the name is truthy |
| PerfStress.SingleObjectScenario | control-plane/tools/perf/nested_workflow_stress.py:207-208 | a single object is a one-scenario list |
| PerfStress.NoObjectsFallBack | control-plane/tools/perf/nested_workflow_stress.py:218-219 | a list with no object falls back to the default scenario |
| PerfStress.LoadScenarios | control-plane/tools/perf/nested_workflow_stress.py:195-221 | the loop yields Scenarios: the default without a file, an error for invalid JSON or a value that is neither list nor object |
| PerfStress.CheckCounts | control-plane/tools/perf/nested_workflow_stress.py:420-423 | the run goes ahead exactly when both counts are positive; the request count is checked first |
| Text.IndexFrom | scripts/update_changelog.py:46-51 | the first occurrence of a text at or after a position, none exactly when there is none |
| Changelog.EnsureMarker | scripts/update_changelog.py:45-52 | an error exactly when the marker is missing; otherwise the text before the first marker, which holds no marker, and the text after it, which with the marker between them make up the input |
| Changelog.FirstHeading | scripts/update_changelog.py:56-60 | the first line at or after a position that starts with the heading |
| Changelog.SectionEnd | scripts/update_changelog.py:57 | a section runs to the next "## [" line or the end of the text |
| Changelog.RemoveSection | scripts/update_changelog.py:55-63 | without a matching section the text is unchanged; otherwise it is shorter by at least the heading and does not start with a newline |
| Changelog.RemoveExistingEntry | scripts/update_changelog.py:55-63 | without a "## [version]" line the body is unchanged; otherwise at least that heading is removed |
| Changelog.RemovedSection | scripts/update_changelog.py:56-60 | the removed section is the first one with the heading, holds no other "## [" line, and is followed by the next one or the end |
| Changelog.BuildChangelog | scripts/update_changelog.py:66-77 | the new changelog ends in a newline |
| Changelog.AfterMarker | scripts/update_changelog.py:66-77 | after the marker: a blank line and the stripped entry, and a final newline |
| Changelog.JoinLayout | scripts/update_changelog.py:68-77 | joining the five or seven parts with newlines lays them out as prefix, blank line, marker, blank line, entry and, when there is a suffix, a blank line and the suffix |
| Changelog.BuildChangelogText | scripts/update_changelog.py:66-77 | the text written: the prefix without trailing whitespace, a blank line, the marker, a blank line, the stripped entry and, when the newline-stripped suffix is not empty, a blank line and that suffix without trailing whitespace |
| Changelog.MarkerFirst | scripts/update_changelog.py:46-51 | in a text built around a marker-free prefix, the first marker is the one placed there |
| Changelog.EnsureMarkerAfterBlank | scripts/update_changelog.py:45-52 | ensure_marker on such a text splits at the placed marker |
| Changelog.EnsureMarkerOfBuilt | scripts/update_changelog.py:45-77 | reading the marker back out of a built changelog gives the trimmed prefix with its blank line and everything written after the marker |
| Changelog.UpdateChangelog | scripts/update_changelog.py:80-88 | an update fails exactly when the current text has no marker |
| Changelog.UpdatePlacesEntryAfterMarker | scripts/update_changelog.py:80-88 | after an update the new entry sits right after the marker, followed by what followed the marker minus the old entry for the version |
| Changelog.UpdateKeepsMarkerFirst | scripts/update_changelog.py:80-88 | an updated changelog still has its marker, and it splits into the old text before the marker and the new entry section, so a second update finds the same place |
| Changelog.ReleaseEntry | scripts/update_changelog.py:115-120 | non-empty git-cliff output is used as is; empty output becomes a dated entry headed "## [version]" |

## Left out

- Concurrency: mutexes, goroutines, worker pools and asyncio tasks are not modelled. Each operation runs as one sequential step, and the queues are used by one thread at a time.
- HTTP and gin plumbing (binding, status writing), JSON encoding and decoding, the SSE event bus, webhook dispatch and the payload store: their outcomes are inputs.
- Clocks and random draws are parameters: a `now` value, the `Entropy` of one SDK call, the date of a placeholder changelog entry.
- `types.NormalizeExecutionStatus`, `types.IsTerminalExecutionStatus`, `isRetryableDBError` and `net/url` parsing are defined outside the modelled files. They are function parameters, or pre-parsed records for URLs.
- Go's `float64` and Python floats are reals, so rounding is not modelled. The load generator keeps infinite and NaN latencies as explicit cases.
- Integers are unbounded. `strconv.Atoi` range errors and 64-bit overflow of counters, durations and times are not modelled.
- Go's `sort.Slice` is not stable. The model sorts with a stable insertion sort, which gives one of the orders Go may produce. Where a contract names the sorted list itself (`ByStart` in `WorkflowDag.BuildExecutionDag`, `WorkflowDag.BuildLightweightExecutionDag` and `WorkflowRuns.SummarizeRun`), it fixes that stable order, with ties kept in input order. Go may order ties differently. For example, with two parentless executions of equal StartedAt, Go may pick the other one as the lightweight root or the summary's root, and may list the two the other way round in the timeline. Elsewhere the contracts state only the ordering and the permutation.
- Go map iteration order is unspecified. Maps are visited in an arbitrary order (`:|`), so the contracts hold for every order. The root set of `BuildExecutionGraph` is a set.
- Request handlers of execute.go around the modelled helpers are not modelled; they are I/O orchestration over the store, the agent and the event bus:
  - `handleSync`, `handleStatus`, `handleBatchStatus`, `waitForExecutionCompletion`;
  - `prepareExecution`, `callAgent`, `publishExecutionEvent`, `triggerWebhook`;
  - `ensureWorkflowExecutionRecord`, `buildWorkflowExecutionRecord`, `updateWorkflowExecutionFinalState`;
  - `renderStatus`, `decodeJSON`, `savePayload`.
  `asyncExecutionJob.process` is modelled only through the record updaters it calls.
- Gateway.GetHeader: header maps are keyed by canonical header name, standing for the request after net/http and gin have canonicalised the names. `textproto.CanonicalMIMEHeaderKey` itself is not modelled; neither is the canonical spelling `Header.Set` gives the names of `AgentSdk.HeaderName` on the wire.
- Webhook registration is modelled as validation. Storing the webhook and `enrichExecutionWebhook` are left out.
- WorkflowDag.Depth: `computeDepth` has no cycle guard and does not return on a cyclic parent chain. The model's depth follows at most as many parent links as there are executions and is 0 off the acyclic part. The DAG builders require acyclic parents and unique IDs.
- RunDepth.ComputeMaxDepth: requires unique execution IDs, as the executions table guarantees. With a repeated ID the breadth-first walk can revisit an ID forever.
- ExecutionRecords: database errors, transactions, SQL dialect details and the exact SQL text beyond the clauses and arguments are not modelled.
- ExecutionRecords.ScanRowAsWritten and ExecutionRecords.UpdateColumnsAsWritten model the program's scan and UPDATE, which carry no notes column. The table the rest of the model uses is the corrected one of the Findings, which also reads and writes notes.
- ExecutionRecords.Lookup: corrected design; as written, a record read back has no notes (`ScanRowAsWritten`).
- ExecutionRecords.UpdateWhere: corrected design; as written, the UPDATE leaves the stored notes column as it was (`UpdateColumnsAsWritten`).
- ExecutionRecords.UpdatePersists: corrected design; as written, the updated record reads back without its notes.
- ExecutionRecords.ExecutionStore.GetExecutionRecord: corrected design; the program's record never carries notes.
- ExecutionRecords.ExecutionStore.UpdateExecutionRecord: corrected design; the program's UPDATE does not write the updated record's notes.
- ExecutionNotes.NoteHasTags: tags are compared after ASCII lower-casing. Go's `strings.ToLower` also folds non-ASCII letters, so tags that differ only in such letters ("Über" and "über") are not modelled as matching.
- ExecutionNotes.MatchesTags: the same ASCII-only lower-casing as NoteHasTags.
- ExecutionNotes.AddExecutionNote: runs over the corrected store, so the new note is stated to be kept. As written, the note is lost (`NoteLostAsWritten`).
- ExecutionNotes.GetExecutionNotes: runs over the corrected store. As written, every execution reads back with no notes.
- ExecutionRecords: statements are evaluated directly on a sequence of rows. `convertAggregationToSummary` and the SQL of `getRunAggregation` beyond its counting are left out.
- WorkflowRuns.SanitizeRunSortField: lower-cases ASCII letters only. Go's `strings.ToLower` also folds non-ASCII letters, so a field spelled with such letters is not modelled as Go maps it.
- WorkflowRuns: the storage calls of `ListWorkflowRunsHandler` and `GetWorkflowRunDetailHandler` are inputs. `LastUpdatedAt` of the API rows is never set in the source and is not modelled.
- Dashboard.ShortenError: counts characters, while Go's `len` and slice count UTF-8 bytes. A message with multi-byte characters is cut later than in Go, and Go's cut can split a character; neither is modelled.
- Dashboard: the overview, trend, agent-health and workflow-insight builders are not modelled. Neither are `parseTimeRangeParams`, `computeMedian` or the summary handlers; only the caches, key, comparison window, incidents, heat map and hotspots are.
- Dashboard.OldestEntryKey: with an empty key in the cache, only "a stored key or empty" is stated, because "" also means "nothing chosen yet" in the scan.
- Dashboard.EnhancedDashboardCache.Set: the size bound is kept only for non-empty keys, as the eviction skips an empty oldest key.
- AgentSdk: a network, process or file-system service of the agent is not modelled. This covers:
  - `Initialize`, `Run`, `Serve`, `registerNode`, `markReady`, `startServer`;
  - `handleExecute`, `handleReasoner`, `executeReasonerAsync`, `sendExecutionStatus`;
  - `Call`'s sending and response handling (its perform, read, status and decode errors), `emitWorkflowEvent`, `CallLocal`, the lease loop and `AI`.
- AgentSdk.Agent.constructor: models only the state `New` leaves on success: the node ID, the agent-field URL and token, no reasoners and no default CLI reasoner. The errors of `New` (empty `NodeID`, empty `Version`, a failing AI or HTTP client) and the defaults it fills in (team ID, listen address, public URL, deployment type, lease interval, logger, HTTP timeout) are not modelled.
- AgentSdk.ExtractInput: routing keys are matched after ASCII lower-casing. Go's `strings.ToLower` also folds non-ASCII letters (a key "İnput" is a routing key in Go), which is not modelled.
- AgentSdk.ReservedInputKey: the same ASCII-only lower-casing as ExtractInput.
- AgentSdk.Agent.RegisterReasoner: a nil handler panics in the source, so the model requires a handler. The one-default invariant `Valid()` is stated as preserved only for a non-empty name. Registering "" with `WithDefaultCLI` records "" as the default, and "" reads as unset afterwards.
- Chatbot: the async reasoners, the LLM calls, ingestion and document scoring are not modelled. Neither is `_aggregate_chunks_to_documents` beyond its section de-duplication.
- Chatbot.PyInt: accepts an optional sign and ASCII digits after stripping. Python's `int()` also accepts underscores between digits and non-ASCII digits, which are not modelled.
- Chatbot.ParseSource: `split("-")` never returns an empty list, so the `if line_parts else 0` branch cannot be taken and has no counterpart. The error message of `int()` is not modelled character for character.
- Chatbot.Ranked: `sorted(..., reverse=True)` keeps equal scores in insertion order. The model states descending order and the contents, not the order among equal scores.
- Chatbot: a chunk's metadata `section` is modelled as an optional string. Non-string truthy sections are not modelled.
- Chatbot.FilterHits: a hit's score and metadata are plain values, so a hit whose `"score"` or `"metadata"` key is present but `None` cannot be written down; on such a hit `_filter_hits` raises (comparing `None` with a float, or calling `.get` on `None`), and that error is not modelled.
- PerfStress: HTTP requests, polling, `scrape_metrics`, payload templates, `run_load`, `Metrics.summary` (floats and percentiles), `build_parser` and `orchestrate` are not modelled. The asyncio interleaving is modelled as requests finishing one after another.
- PerfStress: the final status of a request is an input. An empty status is neither counted nor a failure, as in the source.
- Changelog: running git-cliff, reading and writing CHANGELOG.md and `--dry-run` printing are not modelled. The rendered entry, the file's text and the date are inputs.
- Changelog.RemoveExistingEntry: `re.escape(version)` is modelled as a literal match of the heading `## [version]`. The structure lemma `RemovedSection` requires a version without newlines.

## Findings

| source | as written | input that shows it | evidently intended | confidence | as-written member | corrected member |
|---|---|---|---|---|---|---|
| control-plane/internal/storage/execution_records.go:129-176 | the UPDATE statement of `UpdateExecutionRecord` and the row scan write and read no notes column, so a note appended by the execution-notes update callback is not persisted | any execution row and any note: after `AddExecutionNote` succeeds, reading the execution back lists no notes | notes are written and read back with the record, so the listing holds the earlier notes followed by the new one | not executed | ExecutionNotes.NoteLostAsWritten | ExecutionNotes.NoteKept |
