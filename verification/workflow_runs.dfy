/**
 * The workflow-run views of the UI API (control-plane/internal/handlers/ui/
 * workflow_runs.go): query-string parsing and paging for the run list, the
 * status a run's counts stand for, the step outcome counts, the execution rows
 * of the run detail with their child counts, and the summary computed from a
 * run's executions when no stored aggregation is available.
 *
 * Status normalisation (types.NormalizeExecutionStatus) is a parameter
 * `normalize` throughout.
 */
module WorkflowRuns {
  import opened Text
  import opened Exec
  import Sorting
  import opened WorkflowDag
  import ExecutionRecords

  // ---------------------------------------------------------------------------
  // Status counts
  // ---------------------------------------------------------------------------

  /** `StatusCounts[normalized]++` over the executions in order. */
  function StatusTally(xs: seq<Execution>, normalize: string -> string): map<string, int>
  {
    if xs == [] then map[]
    else
      var m := StatusTally(xs[..|xs| - 1], normalize);
      var key := normalize(xs[|xs| - 1].status);
      m[key := CountOf(m, key) + 1]
  }

  /**
   * The tally holds one key per normalised status present, its value is the
   * number of executions with that status, and the values add up to the
   * number of executions.
   */
  lemma StatusTallyFacts(xs: seq<Execution>, normalize: string -> string)
    ensures forall key :: CountOf(StatusTally(xs, normalize), key) == CountWhere(xs, StatusIs(normalize, key))
    ensures forall key :: key in StatusTally(xs, normalize) <==> exists i :: 0 <= i < |xs| && normalize(xs[i].status) == key
    ensures MapSum(StatusTally(xs, normalize)) == |xs|
  {
    StatusTallyCounts(xs, normalize);
    StatusTallyKeys(xs, normalize);
    StatusTallySum(xs, normalize);
  }

  lemma {:induction false} StatusTallyCounts(xs: seq<Execution>, normalize: string -> string)
    ensures forall key :: CountOf(StatusTally(xs, normalize), key) == CountWhere(xs, StatusIs(normalize, key))
  {
    if xs != [] {
      StatusTallyCounts(xs[..|xs| - 1], normalize);
    }
  }

  lemma {:induction false} StatusTallyKeys(xs: seq<Execution>, normalize: string -> string)
    ensures forall key :: key in StatusTally(xs, normalize) <==> exists i :: 0 <= i < |xs| && normalize(xs[i].status) == key
  {
    if xs != [] {
      var init := xs[..|xs| - 1];
      StatusTallyKeys(init, normalize);
      var m := StatusTally(init, normalize);
      forall key ensures key in StatusTally(xs, normalize) <==> exists i :: 0 <= i < |xs| && normalize(xs[i].status) == key
      {
        if key in m {
          var i :| 0 <= i < |init| && normalize(init[i].status) == key;
          assert xs[i] == init[i];
        }
        if exists i :: 0 <= i < |xs| && normalize(xs[i].status) == key {
          var i :| 0 <= i < |xs| && normalize(xs[i].status) == key;
          if i < |init| {
            assert init[i] == xs[i];
          }
        }
      }
    }
  }

  lemma {:induction false} StatusTallySum(xs: seq<Execution>, normalize: string -> string)
    ensures MapSum(StatusTally(xs, normalize)) == |xs|
  {
    if xs != [] {
      var init := xs[..|xs| - 1];
      StatusTallySum(init, normalize);
      MapSumIncrement(StatusTally(init, normalize), normalize(xs[|xs| - 1].status));
    }
  }

  /**
   * deriveStatusFromCounts: failed when any execution failed, else running
   * when any is active, else succeeded. The source tallies all counts to test
   * for "all succeeded", but both outcomes of that test are succeeded.
   */
  method DeriveStatusFromCounts(counts: map<string, int>, activeExecutions: int) returns (status: string)
    ensures status == Failed <==> CountOf(counts, Failed) > 0
    ensures status == Running <==> CountOf(counts, Failed) <= 0 && activeExecutions > 0
    ensures status == Succeeded <==> CountOf(counts, Failed) <= 0 && activeExecutions <= 0
  {
    if CountOf(counts, Failed) > 0 {
      return Failed;
    }
    if activeExecutions > 0 {
      return Running;
    }
    var totalSucceeded := CountOf(counts, Succeeded);
    var totalAll := 0;
    var keys := counts.Keys;
    ghost var rest := counts;
    while keys != {}
      invariant keys <= counts.Keys
      invariant rest.Keys == keys && forall k :: k in rest ==> rest[k] == counts[k]
      invariant totalAll + MapSum(rest) == MapSum(counts)
      decreases |keys|
    {
      var key :| key in keys;
      MapSumRemove(rest, key);
      totalAll := totalAll + counts[key];
      keys := keys - {key};
      rest := rest - {key};
    }
    assert rest == map[];
    assert totalAll == MapSum(counts);
    if totalSucceeded == totalAll && totalAll > 0 {
      return Succeeded;
    }
    return Succeeded;
  }

  /**
   * cloneStatusCounts: nil stays nil; otherwise a map with the same entries,
   * copied key by key. (Dafny maps are values, so the copy is independent.)
   */
  method CloneStatusCounts(input: Option<map<string, int>>) returns (r: Option<map<string, int>>)
    ensures r == input
  {
    if input.None? {
      return None;
    }
    var source := input.value;
    var result: map<string, int> := map[];
    var keys := source.Keys;
    while keys != {}
      invariant keys <= source.Keys
      invariant result.Keys == source.Keys - keys
      invariant forall key :: key in result ==> result[key] == source[key]
      decreases |keys|
    {
      var key :| key in keys;
      result := result[key := source[key]];
      keys := keys - {key};
    }
    assert result == source;
    return Some(result);
  }

  /** countOutcomeSteps: succeeded steps, and failed, cancelled or timed-out steps. */
  method CountOutcomeSteps(xs: seq<Execution>, normalize: string -> string) returns (completed: int, failed: int)
    ensures completed == CountWhere(xs, StatusIs(normalize, Succeeded))
    ensures failed == CountWhere(xs, FailedOutcome(normalize))
    ensures completed + failed <= |xs|
  {
    completed, failed := 0, 0;
    var i := 0;
    while i < |xs|
      invariant 0 <= i <= |xs|
      invariant completed == CountWhere(xs[..i], StatusIs(normalize, Succeeded))
      invariant failed == CountWhere(xs[..i], FailedOutcome(normalize))
    {
      assert xs[..i + 1][..i] == xs[..i];
      var status := normalize(xs[i].status);
      if status == Succeeded {
        completed := completed + 1;
      } else if status == Failed || status == Cancelled || status == Timeout {
        failed := failed + 1;
      }
      i := i + 1;
    }
    assert xs[..i] == xs;
    CountWhereDisjoint(xs, StatusIs(normalize, Succeeded), FailedOutcome(normalize));
  }

  /** Counting a union of two disjoint classes adds their counts. */
  lemma {:induction false} CountWhereUnion(xs: seq<Execution>, p: Execution -> bool, q: Execution -> bool, both: Execution -> bool)
    requires forall i :: 0 <= i < |xs| ==> (both(xs[i]) <==> p(xs[i]) || q(xs[i])) && !(p(xs[i]) && q(xs[i]))
    ensures CountWhere(xs, both) == CountWhere(xs, p) + CountWhere(xs, q)
  {
    if xs != [] {
      var init := xs[..|xs| - 1];
      assert forall i :: 0 <= i < |init| ==> init[i] == xs[i];
      CountWhereUnion(init, p, q, both);
    }
  }

  /**
   * The run detail reports completed and failed steps from the status tally
   * (CompletedSteps = counts[succeeded], FailedSteps = counts[failed] +
   * counts[cancelled] + counts[timeout]); these agree with countOutcomeSteps.
   */
  lemma TallyAgreesWithOutcomeSteps(xs: seq<Execution>, normalize: string -> string)
    ensures CountOf(StatusTally(xs, normalize), Succeeded) == CountWhere(xs, StatusIs(normalize, Succeeded))
    ensures CountOf(StatusTally(xs, normalize), Failed) + CountOf(StatusTally(xs, normalize), Cancelled)
      + CountOf(StatusTally(xs, normalize), Timeout) == CountWhere(xs, FailedOutcome(normalize))
  {
    StatusTallyFacts(xs, normalize);
    var failedOrCancelled := (e: Execution) => normalize(e.status) == Failed || normalize(e.status) == Cancelled;
    CountWhereUnion(xs, StatusIs(normalize, Failed), StatusIs(normalize, Cancelled), failedOrCancelled);
    CountWhereUnion(xs, failedOrCancelled, StatusIs(normalize, Timeout), FailedOutcome(normalize));
  }

  // ---------------------------------------------------------------------------
  // Query parsing and paging
  // ---------------------------------------------------------------------------

  /** parsePositiveInt: a trimmed decimal integer above zero, otherwise the fallback. */
  function ParsePositiveInt(value: string, fallback: int): (v: int)
    ensures v == fallback || v > 0
    ensures fallback > 0 ==> v > 0
    ensures (ParseInt(TrimSpace(value)).Some? && ParseInt(TrimSpace(value)).value > 0) ==> v == ParseInt(TrimSpace(value)).value
    ensures !(ParseInt(TrimSpace(value)).Some? && ParseInt(TrimSpace(value)).value > 0) ==> v == fallback
  {
    match ParseInt(TrimSpace(value))
      case None => fallback
      case Some(n) => if n <= 0 then fallback else n
  }

  /** A positive number written in decimal, padded with spaces or not, reads back as itself. */
  lemma ParsePositiveIntRoundTrip(n: nat, fallback: int)
    requires n > 0
    ensures ParsePositiveInt(NatToString(n), fallback) == n
  {
    ParseNatToString(n);
  }

  /** parsePositiveIntWithin: parsePositiveInt clamped to [min, max]. */
  function ParsePositiveIntWithin(value: string, fallback: int, min: int, max: int): (v: int)
    ensures min <= max ==> min <= v <= max
    ensures min <= ParsePositiveInt(value, fallback) <= max ==> v == ParsePositiveInt(value, fallback)
    ensures ParsePositiveInt(value, fallback) < min ==> v == min
    ensures min <= ParsePositiveInt(value, fallback) && ParsePositiveInt(value, fallback) > max ==> v == max
  {
    var v := ParsePositiveInt(value, fallback);
    if v < min then min
    else if v > max then max
    else v
  }

  /** The six backend fields a run list can be ordered by. */
  datatype RunSortField =
    | StartedAtField
    | StatusField
    | TotalStepsField
    | FailedStepsField
    | ActiveExecutionsField
    | UpdatedAtField

  /** A lower-case snake_case name: letters and underscores, starting and ending with a letter. */
  predicate SnakeName(name: string)
  {
    name != [] && 'a' <= name[0] <= 'z' && 'a' <= name[|name| - 1] <= 'z'
    && forall i :: 0 <= i < |name| ==> 'a' <= name[i] <= 'z' || name[i] == '_'
  }

  function SortFieldName(f: RunSortField): (name: string)
    ensures SnakeName(name)
  {
    match f
      case StartedAtField => "started_at"
      case StatusField => "status"
      case TotalStepsField => "total_steps"
      case FailedStepsField => "failed_steps"
      case ActiveExecutionsField => "active_executions"
      case UpdatedAtField => "updated_at"
  }

  /** The friendly names the UI sends, by the field they stand for; anything else is updated_at. */
  function SortFieldOfKey(key: string): RunSortField
  {
    if key == "started_at" || key == "started" || key == "created_at" then StartedAtField
    else if key == "status" then StatusField
    else if key == "total_steps" || key == "total_executions" || key == "nodes" then TotalStepsField
    else if key == "failed_steps" || key == "failed" then FailedStepsField
    else if key == "active_executions" || key == "active" then ActiveExecutionsField
    else UpdatedAtField
  }

  /** Each backend name is its own friendly name. */
  lemma SortFieldNameRoundTrip(f: RunSortField)
    ensures SortFieldOfKey(SortFieldName(f)) == f
  {
  }

  /** A name without surrounding space or capitals is its own normal form. */
  lemma NormalizedName(name: string)
    requires SnakeName(name)
    ensures LowerTrim(name) == name
  {
    assert !IsSpace(name[0]) && !IsSpace(name[|name| - 1]);
    TrimSpaceOfTrimmed(name);
    var lower := ToLower(name);
    assert forall i :: 0 <= i < |name| ==> lower[i] == name[i];
    assert lower == name;
  }

  /** The backend names are already lower-case and trimmed. */
  lemma SortFieldNameNormalized(f: RunSortField)
    ensures LowerTrim(SortFieldName(f)) == SortFieldName(f)
  {
    NormalizedName(SortFieldName(f));
  }

  /**
   * sanitizeRunSortField: the field the trimmed, lower-cased input names,
   * as its backend name; always one of the six.
   */
  function SanitizeRunSortField(field: string): (r: string)
    ensures exists f :: SortFieldName(f) == r
  {
    SortFieldName(SortFieldOfKey(LowerTrim(field)))
  }

  /** Sanitising is idempotent and ignores case and surrounding space. */
  lemma SanitizeRunSortFieldStable(field: string)
    ensures SanitizeRunSortField(SanitizeRunSortField(field)) == SanitizeRunSortField(field)
    ensures SanitizeRunSortField(LowerTrim(field)) == SanitizeRunSortField(field)
  {
    var f := SortFieldOfKey(LowerTrim(field));
    SortFieldNameNormalized(f);
    SortFieldNameRoundTrip(f);
    LowerTrimIdempotent(field);
  }

  /** c.DefaultQuery: the default when the parameter is absent, the sent value (even "") otherwise. */
  function DefaultQuery(value: Option<string>, default: string): string
  {
    if value.None? then default else value.value
  }

  /** The query parameters of the run list; absent parameters are None. */
  datatype RunListQuery = RunListQuery(
    page: Option<string>,
    pageSize: Option<string>,
    sortBy: Option<string>,
    sortOrder: Option<string>,
    runId: string,
    status: string,
    sessionId: string,
    actorId: string,
    since: string)

  /** The page number: at least 1, 1 when absent or not a positive integer. */
  function PageOf(q: RunListQuery): (page: int)
    ensures page >= 1
    ensures q.page.None? ==> page == 1
  {
    assert "1" == NatToString(1);
    ParsePositiveIntRoundTrip(1, 1);
    ParsePositiveInt(DefaultQuery(q.page, "1"), 1)
  }

  /** The page size: within [1, 200], 20 when absent or not a positive integer. */
  function PageSizeOf(q: RunListQuery): (size: int)
    ensures 1 <= size <= 200
    ensures q.pageSize.None? ==> size == 20
  {
    assert "20" == NatToString(20);
    ParsePositiveIntRoundTrip(20, 20);
    ParsePositiveIntWithin(DefaultQuery(q.pageSize, "20"), 20, 1, 200)
  }

  /** A trimmed query parameter as an optional filter: set only when non-blank. */
  function OptionalFilter(value: string): (r: Option<string>)
    ensures r.Some? <==> TrimSpace(value) != ""
    ensures r.Some? ==> r.value == TrimSpace(value)
  {
    if TrimSpace(value) != "" then Some(TrimSpace(value)) else None
  }

  /** The offset of a page: the runs on all earlier pages. */
  function PageOffset(page: int, size: int): (offset: int)
    requires page >= 1 && size >= 1
    ensures offset >= 0
    ensures offset + size == page * size
  {
    MulSucc(size, page - 1);
    (page - 1) * size
  }

  /** The order is descending unless it reads "asc" in any letter case. */
  function SortDescending(q: RunListQuery): bool
  {
    ToLower(DefaultQuery(q.sortOrder, "desc")) != "asc"
  }

  /** The `since` filter: a start time only when the trimmed value parses. */
  function SinceFilter(since: string, parseTime: string -> Option<int>): (r: Option<int>)
    ensures r.Some? ==> TrimSpace(since) != "" && r == parseTime(TrimSpace(since))
    ensures TrimSpace(since) != "" && parseTime(TrimSpace(since)).Some? ==> r == parseTime(TrimSpace(since))
  {
    var t := TrimSpace(since);
    if t != "" && parseTime(t).Some? then parseTime(t) else None
  }

  /**
   * The run-list filter: one page of runs at offset (page-1)*pageSize, a
   * sanitised sort field, descending unless the order is "asc", optional
   * trimmed filters, and a start time only when `since` parses.
   * `parseTime` stands for time.Parse with the RFC 3339 layout.
   */
  function ListRunsFilter(q: RunListQuery, parseTime: string -> Option<int>): (f: ExecutionRecords.ExecutionFilter)
    ensures f.limit == PageSizeOf(q) && f.offset == PageOffset(PageOf(q), PageSizeOf(q))
    ensures exists sf :: SortFieldName(sf) == f.sortBy
    ensures f.sortDescending == SortDescending(q)
    ensures f.runId == OptionalFilter(q.runId) && f.status == OptionalFilter(q.status)
    ensures f.sessionId == OptionalFilter(q.sessionId) && f.actorId == OptionalFilter(q.actorId)
    ensures f.startTime == SinceFilter(q.since, parseTime)
    ensures f.executionId.None? && f.parentExecutionId.None? && f.agentNodeId.None? && f.reasonerId.None? && f.endTime.None?
  {
    var size := PageSizeOf(q);
    ExecutionRecords.ExecutionFilter(
      runId := OptionalFilter(q.runId),
      executionId := None,
      parentExecutionId := None,
      agentNodeId := None,
      reasonerId := None,
      status := OptionalFilter(q.status),
      sessionId := OptionalFilter(q.sessionId),
      actorId := OptionalFilter(q.actorId),
      limit := size,
      offset := PageOffset(PageOf(q), size),
      startTime := SinceFilter(q.since, parseTime),
      endTime := None,
      sortBy := SanitizeRunSortField(DefaultQuery(q.sortBy, "updated_at")),
      sortDescending := SortDescending(q))
  }

  /** The paging fields of the run-list response. */
  datatype RunListPage = RunListPage(totalCount: int, page: int, pageSize: int, hasMore: bool)

  /**
   * The total is the stored count of runs, or the number returned when that
   * count is 0; there are more runs when this page ends before the total.
   */
  function ListPage(q: RunListQuery, totalRuns: int, returned: nat): (r: RunListPage)
    ensures r.page == PageOf(q) && r.pageSize == PageSizeOf(q)
    ensures r.totalCount == (if totalRuns == 0 then returned else totalRuns)
    ensures r.hasMore <==> r.page * r.pageSize < r.totalCount
  {
    var page := PageOf(q);
    var size := PageSizeOf(q);
    var total := if totalRuns == 0 then returned else totalRuns;
    RunListPage(total, page, size, page * size < total)
  }

  /**
   * Pages tile the run list: each page ends where the next one starts, and
   * `hasMore` says exactly that the next page's offset is below the total.
   */
  lemma PagesTile(q: RunListQuery, totalRuns: int, returned: nat, parseTime: string -> Option<int>)
    ensures
      var f := ListRunsFilter(q, parseTime);
      var p := ListPage(q, totalRuns, returned);
      1 <= f.limit <= 200 && f.offset >= 0 &&
      f.offset + f.limit == PageOffset(PageOf(q) + 1, PageSizeOf(q)) &&
      (p.hasMore <==> f.offset + f.limit < p.totalCount)
  {
  }

  // ---------------------------------------------------------------------------
  // Execution rows of the run detail (buildAPIExecutions)
  // ---------------------------------------------------------------------------

  /** apiWorkflowExecution (LastUpdatedAt is never set and is not modelled). */
  datatype ApiExecution = ApiExecution(
    workflowId: string,
    executionId: string,
    parentExecutionId: Option<string>,
    parentWorkflowId: Option<string>,
    agentNodeId: string,
    reasonerId: string,
    status: string,
    startedAt: int,
    completedAt: Option<int>,
    workflowDepth: int,
    activeChildren: nat,
    pendingChildren: nat)

  predicate NodeHasParent(n: DagNode)
  {
    n.parentExecutionId.Some? && n.parentExecutionId.value != ""
  }

  /** The timeline nodes whose parent is `id`, in timeline order. */
  function NodeChildren(nodes: seq<DagNode>, id: string): seq<DagNode>
  {
    if nodes == [] then []
    else
      var last := nodes[|nodes| - 1];
      NodeChildren(nodes[..|nodes| - 1], id) + (if NodeHasParent(last) && last.parentExecutionId.value == id then [last] else [])
  }

  function NodeKids(kids: map<string, seq<DagNode>>, id: string): seq<DagNode>
  {
    if id in kids then kids[id] else []
  }

  /** childMap as the first loop builds it. */
  function NodeChildMap(nodes: seq<DagNode>): map<string, seq<DagNode>>
  {
    if nodes == [] then map[]
    else
      var last := nodes[|nodes| - 1];
      var cm := NodeChildMap(nodes[..|nodes| - 1]);
      if NodeHasParent(last) then
        cm[last.parentExecutionId.value := NodeKids(cm, last.parentExecutionId.value) + [last]]
      else cm
  }

  /** childMap[id] lists exactly the nodes whose parent is `id`, in order. */
  lemma {:induction false} NodeChildMapIsChildren(nodes: seq<DagNode>, id: string)
    ensures NodeKids(NodeChildMap(nodes), id) == NodeChildren(nodes, id)
    ensures forall n :: n in NodeChildren(nodes, id) <==> n in nodes && NodeHasParent(n) && n.parentExecutionId.value == id
  {
    if nodes != [] {
      var init := nodes[..|nodes| - 1];
      NodeChildMapIsChildren(init, id);
      assert nodes == init + [nodes[|nodes| - 1]];
    }
  }

  function RunningNode(normalize: string -> string): DagNode -> bool
  {
    (n: DagNode) => normalize(n.status) == Running
  }

  function WaitingNode(normalize: string -> string): DagNode -> bool
  {
    (n: DagNode) => normalize(n.status) == Pending || normalize(n.status) == Queued
  }

  /**
   * One row: the node's fields, its child counts, and the run as parent
   * workflow exactly when the node has a (non-empty) parent.
   */
  function ApiExecutionOf(n: DagNode, active: nat, pending: nat): (a: ApiExecution)
    ensures a.parentWorkflowId.Some? <==> NodeHasParent(n)
    ensures a.parentWorkflowId.Some? ==> a.parentWorkflowId.value == n.workflowId
    ensures a.executionId == n.executionId && a.parentExecutionId == n.parentExecutionId
    ensures a.activeChildren == active && a.pendingChildren == pending
  {
    ApiExecution(n.workflowId, n.executionId, n.parentExecutionId,
                 if NodeHasParent(n) then Some(n.workflowId) else None,
                 n.agentNodeId, n.reasonerId, n.status, n.startedAt, n.completedAt,
                 n.workflowDepth, active, pending)
  }

  /** The row the detail view shows for `nodes[k]`. */
  function ApiRow(nodes: seq<DagNode>, k: nat, normalize: string -> string): ApiExecution
    requires k < |nodes|
  {
    var id := nodes[k].executionId;
    ApiExecutionOf(nodes[k], ChildCount(nodes, id, RunningNode(normalize)), ChildCount(nodes, id, WaitingNode(normalize)))
  }

  /** The number of children of `id` that satisfy `p`. */
  function ChildCount(nodes: seq<DagNode>, id: string, p: DagNode -> bool): nat
  {
    if nodes == [] then 0
    else
      var last := nodes[|nodes| - 1];
      ChildCount(nodes[..|nodes| - 1], id, p) + (if NodeHasParent(last) && last.parentExecutionId.value == id && p(last) then 1 else 0)
  }

  /** Counting children of `id` is counting over the list of those children. */
  lemma {:induction false} ChildCountOfChildren(nodes: seq<DagNode>, id: string, p: DagNode -> bool)
    ensures ChildCount(nodes, id, p) == CountWhere(NodeChildren(nodes, id), p)
  {
    if nodes != [] {
      var init := nodes[..|nodes| - 1];
      var last := nodes[|nodes| - 1];
      ChildCountOfChildren(init, id, p);
      var tail := if NodeHasParent(last) && last.parentExecutionId.value == id then [last] else [];
      CountWhereAppend(NodeChildren(init, id), tail, p);
      if tail != [] {
        assert tail[..0] == [];
      }
    }
  }

  /** The per-node loop over the children: running ones, and pending or queued ones. */
  method CountChildStates(children: seq<DagNode>, normalize: string -> string) returns (active: nat, pending: nat)
    ensures active == CountWhere(children, RunningNode(normalize))
    ensures pending == CountWhere(children, WaitingNode(normalize))
    ensures active + pending <= |children|
  {
    active, pending := 0, 0;
    var j := 0;
    while j < |children|
      invariant 0 <= j <= |children|
      invariant active == CountWhere(children[..j], RunningNode(normalize))
      invariant pending == CountWhere(children[..j], WaitingNode(normalize))
    {
      assert children[..j + 1][..j] == children[..j];
      var status := normalize(children[j].status);
      if status == Running {
        active := active + 1;
      } else if status == Pending || status == Queued {
        pending := pending + 1;
      }
      j := j + 1;
    }
    assert children[..j] == children;
    CountWhereDisjoint(children, RunningNode(normalize), WaitingNode(normalize));
  }

  /** The first loop of buildAPIExecutions: children grouped by parent ID. */
  method GroupChildren(nodes: seq<DagNode>) returns (childMap: map<string, seq<DagNode>>)
    ensures childMap == NodeChildMap(nodes)
  {
    childMap := map[];
    var i := 0;
    while i < |nodes|
      invariant 0 <= i <= |nodes|
      invariant childMap == NodeChildMap(nodes[..i])
    {
      assert nodes[..i + 1][..i] == nodes[..i];
      var node := nodes[i];
      if NodeHasParent(node) {
        var parent := node.parentExecutionId.value;
        childMap := childMap[parent := NodeKids(childMap, parent) + [node]];
      }
      i := i + 1;
    }
    assert nodes[..i] == nodes;
  }

  /**
   * buildAPIExecutions: one row per timeline node, in timeline order, each
   * with the number of its running children and of its pending or queued
   * children.
   */
  method BuildApiExecutions(nodes: seq<DagNode>, normalize: string -> string) returns (rows: seq<ApiExecution>)
    ensures |rows| == |nodes|
    ensures forall k :: 0 <= k < |nodes| ==> rows[k] == ApiRow(nodes, k, normalize)
  {
    var childMap := GroupChildren(nodes);
    rows := [];
    var i := 0;
    while i < |nodes|
      invariant 0 <= i <= |nodes| && |rows| == i
      invariant forall k :: 0 <= k < i ==> rows[k] == ApiRow(nodes, k, normalize)
    {
      var row := ApiRowAt(nodes, childMap, i, normalize);
      rows := rows + [row];
      i := i + 1;
    }
  }

  /** The body of the second loop: the row of the node at `i`. */
  method ApiRowAt(nodes: seq<DagNode>, childMap: map<string, seq<DagNode>>, i: nat, normalize: string -> string)
    returns (row: ApiExecution)
    requires i < |nodes| && childMap == NodeChildMap(nodes)
    ensures row == ApiRow(nodes, i, normalize)
  {
    var node := nodes[i];
    NodeChildMapIsChildren(nodes, node.executionId);
    var children := NodeKids(childMap, node.executionId);
    var active, pending := CountChildStates(children, normalize);
    ChildCountOfChildren(nodes, node.executionId, RunningNode(normalize));
    ChildCountOfChildren(nodes, node.executionId, WaitingNode(normalize));
    row := ApiExecutionOf(node, active, pending);
  }

  /**
   * A row's child counts count only the node's own children, and no child
   * is counted twice.
   */
  lemma ApiRowChildCounts(nodes: seq<DagNode>, k: nat, normalize: string -> string)
    requires k < |nodes|
    ensures ApiRow(nodes, k, normalize).activeChildren == CountWhere(NodeChildren(nodes, nodes[k].executionId), RunningNode(normalize))
    ensures ApiRow(nodes, k, normalize).pendingChildren == CountWhere(NodeChildren(nodes, nodes[k].executionId), WaitingNode(normalize))
    ensures ApiRow(nodes, k, normalize).activeChildren + ApiRow(nodes, k, normalize).pendingChildren
      <= |NodeChildren(nodes, nodes[k].executionId)|
    ensures forall n :: n in NodeChildren(nodes, nodes[k].executionId) ==>
      n in nodes && NodeHasParent(n) && n.parentExecutionId.value == nodes[k].executionId
  {
    var children := NodeChildren(nodes, nodes[k].executionId);
    ChildCountOfChildren(nodes, nodes[k].executionId, RunningNode(normalize));
    ChildCountOfChildren(nodes, nodes[k].executionId, WaitingNode(normalize));
    CountWhereDisjoint(children, RunningNode(normalize), WaitingNode(normalize));
    NodeChildMapIsChildren(nodes, nodes[k].executionId);
  }

  // ---------------------------------------------------------------------------
  // summarizeRun
  // ---------------------------------------------------------------------------

  /** WorkflowRunSummary as summarizeRun fills it. */
  datatype RunSummary = RunSummary(
    workflowId: string,
    runId: string,
    rootExecutionId: string,
    status: string,
    displayName: string,
    currentTask: string,
    rootReasoner: string,
    agentId: Option<string>,
    sessionId: Option<string>,
    actorId: Option<string>,
    totalExecutions: int,
    maxDepth: int,
    activeExecutions: int,
    statusCounts: map<string, int>,
    startedAt: int,
    updatedAt: int,
    completedAt: Option<int>,
    durationMs: Option<int>,
    latestActivity: int,
    terminal: bool)

  /** The summary of a run without executions: identity, empty counts, zero for the rest. */
  function EmptySummary(runId: string): (s: RunSummary)
    ensures s.runId == runId && s.totalExecutions == 0 && s.statusCounts == map[]
  {
    RunSummary(runId, runId, "", "", "", "", "", None, None, None, 0, 0, 0, map[], 0, 0, None, None, 0, false)
  }

  /** The latest CompletedAt of the executions, scanning in order and keeping a strictly later one. */
  function LatestCompletion(xs: seq<Execution>): (r: Option<int>)
    ensures r.None? <==> forall i :: 0 <= i < |xs| ==> xs[i].completedAt.None?
    ensures r.Some? ==> forall i :: 0 <= i < |xs| && xs[i].completedAt.Some? ==> xs[i].completedAt.value <= r.value
    ensures r.Some? ==> exists i :: 0 <= i < |xs| && xs[i].completedAt == r
  {
    if xs == [] then None
    else
      var init := xs[..|xs| - 1];
      var last := xs[|xs| - 1];
      var r := LatestCompletion(init);
      assert forall i :: 0 <= i < |init| ==> init[i] == xs[i];
      if last.completedAt.Some? && (r.None? || last.completedAt.value > r.value) then last.completedAt else r
  }

  /** The latest StartedAt, starting from `start`, keeping a strictly later one. */
  function LatestStart(xs: seq<Execution>, start: int): (r: int)
    ensures r >= start
    ensures forall i :: 0 <= i < |xs| ==> xs[i].startedAt <= r
    ensures r == start || exists i :: 0 <= i < |xs| && xs[i].startedAt == r
  {
    if xs == [] then start
    else
      var init := xs[..|xs| - 1];
      var last := xs[|xs| - 1];
      var r := LatestStart(init, start);
      assert forall i :: 0 <= i < |init| ==> init[i] == xs[i];
      if last.startedAt > r then last.startedAt else r
  }

  /** One turn of the counting loop: count `e` after the executions `done`. */
  method CountRunStep(done: seq<Execution>, e: Execution, normalize: string -> string, start: int,
                      counts: map<string, int>, active: int, completedAt: Option<int>, updatedAt: int)
    returns (counts': map<string, int>, active': int, completedAt': Option<int>, updatedAt': int)
    requires counts == StatusTally(done, normalize)
    requires active == CountWhere(done, ActiveIn(normalize))
    requires completedAt == LatestCompletion(done)
    requires updatedAt == LatestStart(done, start)
    ensures counts' == StatusTally(done + [e], normalize)
    ensures active' == CountWhere(done + [e], ActiveIn(normalize))
    ensures completedAt' == LatestCompletion(done + [e])
    ensures updatedAt' == LatestStart(done + [e], start)
  {
    assert (done + [e])[..|done|] == done;
    counts', active', completedAt', updatedAt' := counts, active, completedAt, updatedAt;
    var normalized := normalize(e.status);
    counts' := counts[normalized := CountOf(counts, normalized) + 1];
    if IsActiveStatus(normalized) {
      active' := active + 1;
    }
    if e.completedAt.Some? && (completedAt.None? || e.completedAt.value > completedAt.value) {
      completedAt' := e.completedAt;
    }
    if e.startedAt > updatedAt {
      updatedAt' := e.startedAt;
    }
  }

  /** The counting loop of summarizeRun over the sorted executions. */
  method TallyRun(sorted: seq<Execution>, normalize: string -> string, start: int)
    returns (counts: map<string, int>, active: int, completedAt: Option<int>, updatedAt: int)
    ensures counts == StatusTally(sorted, normalize)
    ensures active == CountWhere(sorted, ActiveIn(normalize))
    ensures completedAt == LatestCompletion(sorted)
    ensures updatedAt == LatestStart(sorted, start)
  {
    counts, active, completedAt, updatedAt := map[], 0, None, start;
    var i := 0;
    while i < |sorted|
      invariant 0 <= i <= |sorted|
      invariant counts == StatusTally(sorted[..i], normalize)
      invariant active == CountWhere(sorted[..i], ActiveIn(normalize))
      invariant completedAt == LatestCompletion(sorted[..i])
      invariant updatedAt == LatestStart(sorted[..i], start)
    {
      assert sorted[..i] + [sorted[i]] == sorted[..i + 1];
      counts, active, completedAt, updatedAt := CountRunStep(sorted[..i], sorted[i], normalize, start, counts, active, completedAt, updatedAt);
      i := i + 1;
    }
    assert sorted[..i] == sorted;
  }

  /** Start order keeps the run's IDs unique and its ID map unchanged. */
  lemma ByStartKeepsIndex(xs: seq<Execution>)
    requires UniqueIds(xs)
    ensures multiset(ByStart(xs)) == multiset(xs)
    ensures UniqueIds(ByStart(xs)) && ById(ByStart(xs)) == ById(xs)
  {
    var ys := ByStart(xs);
    var key := (e: Execution) => e.executionId;
    assert Sorting.UniqueKeys(xs, key);
    Sorting.PermutationKeepsUniqueKeys(xs, ys, key);
    assert forall i, j :: 0 <= i < j < |ys| ==> key(ys[i]) != key(ys[j]);
    ByIdSameMembers(xs, ys);
  }

  /** Two orders of the same executions hold the same executions. */
  lemma SameMembers(xs: seq<Execution>, ys: seq<Execution>)
    requires multiset(xs) == multiset(ys)
    ensures forall e :: e in xs <==> e in ys
  {
    forall e ensures e in xs <==> e in ys {
      assert e in xs <==> e in multiset(xs);
      assert e in ys <==> e in multiset(ys);
    }
  }

  /** The run's maximum chain depth bounds every execution and is reached (or is 0). */
  predicate IsMaxDepth(xs: seq<Execution>, maxDepth: int)
    requires UniqueIds(xs) && Acyclic(ById(xs))
  {
    (forall e :: e in xs ==> Depth(ById(xs), e) <= maxDepth) &&
    (maxDepth == 0 || exists e :: e in xs && Depth(ById(xs), e) == maxDepth)
  }

  /** The DAG's maximum depth, computed over the sorted copy, is the run's. */
  lemma {:induction false} MaxDepthOfSorted(xs: seq<Execution>, timeline: seq<DagNode>, maxDepth: nat, normalize: string -> string)
    requires UniqueIds(xs) && Acyclic(ById(xs))
    requires UniqueIds(ByStart(xs)) && ById(ByStart(xs)) == ById(xs)
    requires multiset(ByStart(xs)) == multiset(xs)
    requires |timeline| == |xs|
    requires forall k :: 0 <= k < |xs| ==>
      timeline[k] == ExecutionToDagNode(ByStart(ByStart(xs))[k], Depth(ById(xs), ByStart(ByStart(xs))[k]), normalize)
      && timeline[k].workflowDepth <= maxDepth
    requires maxDepth == 0 || exists k :: 0 <= k < |timeline| && timeline[k].workflowDepth == maxDepth
    ensures IsMaxDepth(xs, maxDepth)
  {
    var sorted := ByStart(xs);
    var twice := ByStart(sorted);
    assert multiset(twice) == multiset(sorted);
    DepthsOfTimeline(xs, twice, timeline, maxDepth, normalize);
  }

  /** A timeline of the run's executions in any order, each at its depth, bounds and reaches `maxDepth`. */
  lemma DepthsOfTimeline(xs: seq<Execution>, twice: seq<Execution>, timeline: seq<DagNode>, maxDepth: nat, normalize: string -> string)
    requires UniqueIds(xs) && Acyclic(ById(xs))
    requires multiset(twice) == multiset(xs)
    requires |timeline| == |twice|
    requires forall k :: 0 <= k < |twice| ==>
      timeline[k] == ExecutionToDagNode(twice[k], Depth(ById(xs), twice[k]), normalize) && timeline[k].workflowDepth <= maxDepth
    requires maxDepth == 0 || exists k :: 0 <= k < |timeline| && timeline[k].workflowDepth == maxDepth
    ensures IsMaxDepth(xs, maxDepth)
  {
    SameMembers(twice, xs);
    forall e | e in xs ensures Depth(ById(xs), e) <= maxDepth {
      var k :| 0 <= k < |twice| && twice[k] == e;
    }
    if maxDepth != 0 {
      var k :| 0 <= k < |timeline| && timeline[k].workflowDepth == maxDepth;
      assert twice[k] in xs;
    }
  }

  /** The earliest and latest StartedAt of the run. */
  predicate SpansStarts(xs: seq<Execution>, first: int, last: int)
  {
    (forall e :: e in xs ==> first <= e.startedAt <= last) &&
    (exists e :: e in xs && e.startedAt == first) &&
    (exists e :: e in xs && e.startedAt == last)
  }

  /** The latest completion of the run, or None when nothing completed. */
  predicate IsLatestCompletion(xs: seq<Execution>, c: Option<int>)
  {
    (c.None? <==> forall e :: e in xs ==> e.completedAt.None?) &&
    (c.Some? ==> (forall e :: e in xs && e.completedAt.Some? ==> e.completedAt.value <= c.value) &&
                 exists e :: e in xs && e.completedAt == c)
  }

  /** The scan over the sorted copy finds the run's time span and latest completion. */
  lemma {:induction false} SortedScanFacts(xs: seq<Execution>, normalize: string -> string)
    requires xs != []
    requires multiset(ByStart(xs)) == multiset(xs)
    ensures
      var sorted := ByStart(xs);
      SpansStarts(xs, sorted[0].startedAt, LatestStart(sorted, sorted[|sorted| - 1].startedAt)) &&
      IsLatestCompletion(xs, LatestCompletion(sorted))
  {
    var sorted := ByStart(xs);
    SameMembers(sorted, xs);
    ByStartOrdered(xs);
    SpanOfOrdered(xs, sorted);
    CompletionOfReordered(xs, sorted);
  }

  /** Over the executions in start order, the first start and the latest start span the run. */
  lemma SpanOfOrdered(xs: seq<Execution>, sorted: seq<Execution>)
    requires sorted != []
    requires forall e :: e in sorted <==> e in xs
    requires forall i, j :: 0 <= i < j < |sorted| ==> sorted[i].startedAt <= sorted[j].startedAt
    ensures SpansStarts(xs, sorted[0].startedAt, LatestStart(sorted, sorted[|sorted| - 1].startedAt))
  {
    var last := sorted[|sorted| - 1].startedAt;
    var u := LatestStart(sorted, last);
    forall e | e in xs ensures sorted[0].startedAt <= e.startedAt {
      var k :| 0 <= k < |sorted| && sorted[k] == e;
    }
    assert sorted[0] in xs;
    assert u == last;
    assert sorted[|sorted| - 1] in xs;
  }

  /** The latest completion is the same over any order of the executions. */
  lemma CompletionOfReordered(xs: seq<Execution>, sorted: seq<Execution>)
    requires forall e :: e in sorted <==> e in xs
    ensures IsLatestCompletion(xs, LatestCompletion(sorted))
  {
    var c := LatestCompletion(sorted);
    if c.Some? {
      var k :| 0 <= k < |sorted| && sorted[k].completedAt == c;
      assert sorted[k] in xs;
    }
    forall e | e in xs ensures e.completedAt.Some? ==> c.Some? && e.completedAt.value <= c.value {
      var k :| 0 <= k < |sorted| && sorted[k] == e;
    }
  }

  /** The tally over the sorted copy counts the run's executions. */
  lemma SortedTallyFacts(xs: seq<Execution>, normalize: string -> string)
    requires multiset(ByStart(xs)) == multiset(xs)
    ensures forall key :: CountOf(StatusTally(ByStart(xs), normalize), key) == CountWhere(xs, StatusIs(normalize, key))
    ensures MapSum(StatusTally(ByStart(xs), normalize)) == |xs|
    ensures CountWhere(ByStart(xs), ActiveIn(normalize)) == CountWhere(xs, ActiveIn(normalize))
  {
    var sorted := ByStart(xs);
    StatusTallyFacts(sorted, normalize);
    forall key ensures CountWhere(sorted, StatusIs(normalize, key)) == CountWhere(xs, StatusIs(normalize, key)) {
      CountWherePermutation(sorted, xs, StatusIs(normalize, key));
    }
    CountWherePermutation(sorted, xs, ActiveIn(normalize));
  }

  /** The duration runs from the earliest start to the latest completion, when there is one. */
  predicate DurationFromSpan(s: RunSummary)
  {
    s.durationMs == SpanDuration(s.startedAt, s.completedAt)
  }

  /** The whole milliseconds from `startedAt` to the completion, when there is one. */
  function SpanDuration(startedAt: int, completedAt: Option<int>): Option<int>
  {
    if completedAt.Some? then Some(Milliseconds(completedAt.value - startedAt)) else None
  }

  /** The display name: the workflow name, else the root's reasoner, else the run ID. */
  function DisplayNameOf(runId: string, name: string, rootReasoner: string): (r: string)
    ensures r != "" || (name == "" && rootReasoner == "" && runId == "")
  {
    if name != "" then name else if rootReasoner != "" then rootReasoner else runId
  }

  /** The current task: the latest execution's reasoner, else the root's, else the display name. */
  function CurrentTaskOf(latestReasoner: string, rootReasoner: string, displayName: string): (r: string)
    ensures r == latestReasoner || r == rootReasoner || r == displayName
  {
    if latestReasoner != "" then latestReasoner else if rootReasoner != "" then rootReasoner else displayName
  }

  /**
   * The part of summarizeRun after the DAG is built: naming from the DAG
   * root and the latest execution, then one pass over the sorted executions
   * for the counts, the active steps, the latest completion and the latest
   * start.
   */
  method AssembleSummary(runId: string, sorted: seq<Execution>, normalize: string -> string, dag: DagNode,
                         status: string, name: string, sessionId: Option<string>, actorId: Option<string>, maxDepth: nat)
    returns (s: RunSummary)
    requires sorted != []
    ensures s.workflowId == runId && s.runId == runId && s.totalExecutions == |sorted|
    ensures s.rootExecutionId == dag.executionId && s.rootReasoner == dag.reasonerId
    ensures s.displayName == DisplayNameOf(runId, name, dag.reasonerId)
    ensures s.agentId == (if dag.agentNodeId != "" then Some(dag.agentNodeId) else None)
    ensures s.sessionId == sessionId && s.actorId == actorId && s.maxDepth == maxDepth
    ensures s.currentTask == CurrentTaskOf(sorted[|sorted| - 1].reasonerId, dag.reasonerId, s.displayName)
    ensures s.status == status && (s.terminal <==> status == Succeeded || status == Failed)
    ensures s.statusCounts == StatusTally(sorted, normalize) && s.activeExecutions == CountWhere(sorted, ActiveIn(normalize))
    ensures s.startedAt == sorted[0].startedAt && s.updatedAt == LatestStart(sorted, sorted[|sorted| - 1].startedAt)
    ensures s.latestActivity == s.updatedAt && s.completedAt == LatestCompletion(sorted)
    ensures DurationFromSpan(s)
  {
    var displayName := DisplayNameOf(runId, name, dag.reasonerId);
    var agentId := if dag.agentNodeId != "" then Some(dag.agentNodeId) else None;
    var lastExec := sorted[|sorted| - 1];
    var currentTask := CurrentTaskOf(lastExec.reasonerId, dag.reasonerId, displayName);
    var counts, active, completedAt, updatedAt := TallyRun(sorted, normalize, lastExec.startedAt);
    var startedAt := sorted[0].startedAt;
    var terminal := status == Succeeded || status == Failed;
    var durationMs := SpanDuration(startedAt, completedAt);
    s := RunSummary(runId, runId, dag.executionId, status, displayName, currentTask, dag.reasonerId,
                    agentId, sessionId, actorId, |sorted|, maxDepth, active, counts, startedAt, updatedAt,
                    completedAt, durationMs, updatedAt, terminal);
  }

  /**
   * summarizeRun, the fallback of the run detail. The executions are sorted
   * by StartedAt on a copy and the DAG is built from the copy. The summary
   * counts every execution under its normalised status (the counts add up to
   * the number of executions), spans the earliest to the latest start, takes
   * the latest completion, and is terminal exactly for succeeded or failed.
   */
  method SummarizeRun(runId: string, xs: seq<Execution>, normalize: string -> string) returns (s: RunSummary)
    requires UniqueIds(xs) && Acyclic(ById(xs))
    ensures s.workflowId == runId && s.runId == runId && s.totalExecutions == |xs|
    ensures xs == [] ==> s == EmptySummary(runId)
    ensures xs != [] ==>
      var root := RootOf(ByStart(xs)).value;
      s.rootExecutionId == root.executionId && s.rootReasoner == root.reasonerId &&
      s.displayName == (if root.reasonerId != "" then root.reasonerId else runId) &&
      s.agentId == (if root.agentNodeId != "" then Some(root.agentNodeId) else None) &&
      s.sessionId == root.sessionId && s.actorId == root.actorId
    ensures xs != [] ==>
      var latest := ByStart(xs)[|xs| - 1];
      var root := RootOf(ByStart(xs)).value;
      s.currentTask == (if latest.reasonerId != "" then latest.reasonerId
                        else if root.reasonerId != "" then root.reasonerId else runId)
    ensures xs != [] ==>
      s.status == DeriveOverallStatus(xs, normalize) &&
      (s.terminal <==> s.status == Succeeded || s.status == Failed)
    ensures xs != [] ==>
      MapSum(s.statusCounts) == |xs| &&
      (forall key :: CountOf(s.statusCounts, key) == CountWhere(xs, StatusIs(normalize, key))) &&
      s.activeExecutions == CountWhere(xs, ActiveIn(normalize))
    ensures xs != [] ==>
      SpansStarts(xs, s.startedAt, s.updatedAt) && s.latestActivity == s.updatedAt &&
      IsLatestCompletion(xs, s.completedAt) && DurationFromSpan(s)
    ensures xs != [] ==> IsMaxDepth(xs, s.maxDepth)
  {
    if |xs| == 0 {
      return EmptySummary(runId);
    }
    var sorted := Sorting.SortExecutions(xs, StartKey);
    ByStartKeepsIndex(xs);
    assert sorted[|sorted| - 1] == ByStart(xs)[|xs| - 1];
    var dag, timeline, status, name, sessionId, actorId, maxDepth := BuildExecutionDag(sorted, normalize);
    MaxDepthOfSorted(xs, timeline, maxDepth, normalize);
    OverallStatusPermutation(sorted, xs, normalize);
    s := AssembleSummary(runId, sorted, normalize, dag, status, name, sessionId, actorId, maxDepth);
    SortedTallyFacts(xs, normalize);
    SortedScanFacts(xs, normalize);
  }
}
