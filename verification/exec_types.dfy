/**
 * The execution record shared by the control plane (one agent invocation; a run
 * is the set of executions sharing a RunID and ParentExecutionID gives the DAG
 * edges), with the two helpers that group and link them.
 *
 * Go's nil pointers are `Option`s; a nil slice element is `None`. Times are
 * integers on one clock; JSON payloads are opaque byte strings.
 */
module Exec {
  import opened Text

  /** One note attached to an execution; a nil Tags slice is `None`. */
  datatype Note = Note(message: string, tags: Option<seq<string>>, timestamp: int)

  datatype Execution = Execution(
    executionId: string,
    runId: string,
    parentExecutionId: Option<string>,
    agentNodeId: string,
    reasonerId: string,
    nodeId: string,
    inputPayload: seq<byte>,
    resultPayload: seq<byte>,
    errorMessage: Option<string>,
    inputUri: Option<string>,
    resultUri: Option<string>,
    status: string,
    startedAt: int,
    completedAt: Option<int>,
    durationMs: Option<int>,
    sessionId: Option<string>,
    actorId: Option<string>,
    notes: Option<seq<Note>>,
    createdAt: int,
    updatedAt: int)

  /** The parent ID, with nil read as "" (the `*p` of a non-nil pointer, "" otherwise). */
  function ParentId(e: Execution): string
  {
    match e.parentExecutionId
      case None => ""
      case Some(p) => p
  }

  /** `ParentExecutionID != nil && *ParentExecutionID != ""` */
  predicate HasParent(e: Execution)
  {
    e.parentExecutionId.Some? && e.parentExecutionId.value != ""
  }

  /** Times are nanosecond counts; the zero time.Time is 0. */
  const NanosPerMilli := 1_000_000

  /** time.Duration.Milliseconds: whole milliseconds, truncated toward zero. */
  function Milliseconds(d: int): (ms: int)
    ensures d >= 0 ==> ms >= 0 && ms * 1_000_000 <= d < ms * 1_000_000 + 1_000_000
    ensures d < 0 ==> ms <= 0 && -ms * 1_000_000 <= -d < -ms * 1_000_000 + 1_000_000
  {
    if d >= 0 then d / NanosPerMilli else -((-d) / NanosPerMilli)
  }

  /** Status strings the control plane uses (already normalised). */
  const Running := "running"
  const Pending := "pending"
  const Queued := "queued"
  const Succeeded := "succeeded"
  const Failed := "failed"
  const Cancelled := "cancelled"
  const Timeout := "timeout"

  /** running, pending or queued */
  predicate IsActiveStatus(s: string)
  {
    s == Running || s == Pending || s == Queued
  }

  /** The executions whose normalised status is `key`. */
  function StatusIs(normalize: string -> string, key: string): Execution -> bool
  {
    (e: Execution) => normalize(e.status) == key
  }

  /** The executions whose normalised status is running, pending or queued. */
  function ActiveIn(normalize: string -> string): Execution -> bool
  {
    (e: Execution) => IsActiveStatus(normalize(e.status))
  }

  /** The executions whose normalised status is failed, cancelled or timeout. */
  function FailedOutcome(normalize: string -> string): Execution -> bool
  {
    (e: Execution) => normalize(e.status) == Failed || normalize(e.status) == Cancelled || normalize(e.status) == Timeout
  }

  /** The non-nil entries of a slice, in order. */
  function NonNil(xs: seq<Option<Execution>>): (r: seq<Execution>)
    ensures |r| <= |xs|
  {
    if xs == [] then []
    else NonNil(xs[..|xs| - 1]) + (if xs[|xs| - 1].Some? then [xs[|xs| - 1].value] else [])
  }

  // ---------------------------------------------------------------------------
  // GroupExecutionsByRun
  // ---------------------------------------------------------------------------

  /** The executions of run `run`, in input order: the bucket the grouping builds. */
  function RunBucket(xs: seq<Option<Execution>>, run: string): seq<Execution>
  {
    if xs == [] then []
    else
      var last := xs[|xs| - 1];
      RunBucket(xs[..|xs| - 1], run) + (if last.Some? && last.value.runId == run then [last.value] else [])
  }

  lemma RunBucketStep(xs: seq<Option<Execution>>, i: nat, run: string)
    requires i < |xs|
    ensures RunBucket(xs[..i + 1], run) ==
      RunBucket(xs[..i], run) + (if xs[i].Some? && xs[i].value.runId == run then [xs[i].value] else [])
  {
    assert xs[..i + 1][..i] == xs[..i];
  }

  /** Every member of a bucket has the bucket's RunID and comes from the input. */
  lemma {:induction false} RunBucketMembers(xs: seq<Option<Execution>>, run: string)
    ensures forall e :: e in RunBucket(xs, run) ==> e.runId == run && Some(e) in xs
  {
    if xs != [] {
      RunBucketMembers(xs[..|xs| - 1], run);
      assert forall o :: o in xs[..|xs| - 1] ==> o in xs;
    }
  }

  /** A bucket is non-empty exactly when some non-nil input carries that RunID. */
  lemma {:induction false} RunBucketNonEmpty(xs: seq<Option<Execution>>, run: string)
    ensures RunBucket(xs, run) != [] <==> exists i :: 0 <= i < |xs| && xs[i].Some? && xs[i].value.runId == run
  {
    if xs != [] {
      var init := xs[..|xs| - 1];
      RunBucketNonEmpty(init, run);
      if exists i :: 0 <= i < |xs| && xs[i].Some? && xs[i].value.runId == run {
        var i :| 0 <= i < |xs| && xs[i].Some? && xs[i].value.runId == run;
        if i < |xs| - 1 { assert init[i] == xs[i]; }
      }
      if exists i :: 0 <= i < |init| && init[i].Some? && init[i].value.runId == run {
        var i :| 0 <= i < |init| && init[i].Some? && init[i].value.runId == run;
        assert xs[i] == init[i];
      }
    }
  }

  /** Sum of the bucket sizes over a list of runs. */
  function BucketTotal(xs: seq<Option<Execution>>, runs: seq<string>): nat
  {
    if runs == [] then 0 else |RunBucket(xs, runs[0])| + BucketTotal(xs, runs[1..])
  }

  lemma {:induction false} BucketTotalStep(xs: seq<Option<Execution>>, runs: seq<string>)
    requires xs != []
    requires forall i, j :: 0 <= i < j < |runs| ==> runs[i] != runs[j]
    ensures var last := xs[|xs| - 1];
      BucketTotal(xs, runs) == BucketTotal(xs[..|xs| - 1], runs)
        + (if last.Some? && last.value.runId in runs then 1 else 0)
  {
    if runs != [] {
      BucketTotalStep(xs, runs[1..]);
      var last := xs[|xs| - 1];
      if last.Some? && last.value.runId == runs[0] {
        assert last.value.runId !in runs[1..];
      }
    }
  }

  /**
   * Bucket sizes add up to the number of non-nil inputs: given any duplicate-free
   * list of runs that covers every RunID present, no execution is lost or counted twice.
   */
  lemma {:induction false} BucketSizesSum(xs: seq<Option<Execution>>, runs: seq<string>)
    requires forall i, j :: 0 <= i < j < |runs| ==> runs[i] != runs[j]
    requires forall i :: 0 <= i < |xs| && xs[i].Some? ==> xs[i].value.runId in runs
    ensures BucketTotal(xs, runs) == |NonNil(xs)|
  {
    if xs == [] {
      EmptyBucketTotal(runs);
    } else {
      var init := xs[..|xs| - 1];
      assert forall i :: 0 <= i < |init| ==> init[i] == xs[i];
      BucketSizesSum(init, runs);
      BucketTotalStep(xs, runs);
    }
  }

  lemma {:induction false} EmptyBucketTotal(runs: seq<string>)
    ensures BucketTotal([], runs) == 0
  {
    if runs != [] { EmptyBucketTotal(runs[1..]); }
  }

  /**
   * Bucket executions by RunID, skipping nil entries. Every bucket holds exactly
   * the executions of its run, in input order, and only runs that occur get a key.
   */
  method GroupExecutionsByRun(xs: seq<Option<Execution>>) returns (grouped: map<string, seq<Execution>>)
    ensures forall run :: run in grouped <==> RunBucket(xs, run) != []
    ensures forall run :: run in grouped ==> grouped[run] == RunBucket(xs, run)
  {
    grouped := map[];
    var i := 0;
    while i < |xs|
      invariant 0 <= i <= |xs|
      invariant forall run :: run in grouped <==> RunBucket(xs[..i], run) != []
      invariant forall run :: run in grouped ==> grouped[run] == RunBucket(xs[..i], run)
    {
      match xs[i] {
        case None =>
        case Some(e) =>
          var bucket := if e.runId in grouped then grouped[e.runId] else [];
          grouped := grouped[e.runId := bucket + [e]];
      }
      forall run
        ensures (run in grouped <==> RunBucket(xs[..i + 1], run) != [])
        ensures run in grouped ==> grouped[run] == RunBucket(xs[..i + 1], run)
      {
        RunBucketStep(xs, i, run);
      }
      i := i + 1;
    }
    assert xs[..i] == xs;
  }

  // ---------------------------------------------------------------------------
  // BuildExecutionGraph
  // ---------------------------------------------------------------------------

  datatype Edge = Edge(parent: string, child: string)

  /** The parent→child edges, one per execution with a non-empty parent, in input order. */
  function EdgesOf(xs: seq<Option<Execution>>): seq<Edge>
  {
    if xs == [] then []
    else
      var last := xs[|xs| - 1];
      EdgesOf(xs[..|xs| - 1])
        + (if last.Some? && HasParent(last.value) then [Edge(ParentId(last.value), last.value.executionId)] else [])
  }

  /** IDs of the executions without a parent. */
  function RootsOf(xs: seq<Option<Execution>>): set<string>
  {
    set i | 0 <= i < |xs| && xs[i].Some? && !HasParent(xs[i].value) :: xs[i].value.executionId
  }

  /** IDs of all non-nil executions. */
  function IdsOf(xs: seq<Option<Execution>>): set<string>
  {
    set i | 0 <= i < |xs| && xs[i].Some? :: xs[i].value.executionId
  }

  /** The last non-nil entry with this ID (a later duplicate overwrites an earlier one). */
  function LastWithId(xs: seq<Option<Execution>>, id: string): Option<Execution>
  {
    if xs == [] then None
    else
      var last := xs[|xs| - 1];
      if last.Some? && last.value.executionId == id then last else LastWithId(xs[..|xs| - 1], id)
  }

  lemma {:induction false} LastWithIdFound(xs: seq<Option<Execution>>, id: string)
    ensures LastWithId(xs, id).Some? <==> id in IdsOf(xs)
    ensures LastWithId(xs, id).Some? ==> LastWithId(xs, id).value.executionId == id
  {
    if xs != [] {
      var init := xs[..|xs| - 1];
      LastWithIdFound(init, id);
      assert forall i :: 0 <= i < |init| ==> init[i] == xs[i];
      assert IdsOf(xs) == IdsOf(init) + (if xs[|xs| - 1].Some? then {xs[|xs| - 1].value.executionId} else {});
    }
  }

  /** An edge appears exactly for an execution with a non-empty parent. */
  lemma {:induction false} EdgesOfMembers(xs: seq<Option<Execution>>, e: Edge)
    ensures e in EdgesOf(xs) <==>
      exists i :: 0 <= i < |xs| && xs[i].Some? && HasParent(xs[i].value)
        && e == Edge(ParentId(xs[i].value), xs[i].value.executionId)
  {
    if xs != [] {
      var init := xs[..|xs| - 1];
      EdgesOfMembers(init, e);
      assert forall i :: 0 <= i < |init| ==> init[i] == xs[i];
    }
  }

  /** Each non-nil execution yields either one edge or a root entry, never both. */
  lemma {:induction false} EdgesPlusRootEntries(xs: seq<Option<Execution>>)
    ensures |EdgesOf(xs)| + |RootEntries(xs)| == |NonNil(xs)|
  {
    if xs != [] {
      EdgesPlusRootEntries(xs[..|xs| - 1]);
    }
  }

  /** The parentless executions, in input order (before the set removes duplicates). */
  function RootEntries(xs: seq<Option<Execution>>): seq<Execution>
  {
    if xs == [] then []
    else
      var last := xs[|xs| - 1];
      RootEntries(xs[..|xs| - 1]) + (if last.Some? && !HasParent(last.value) then [last.value] else [])
  }

  lemma GraphStep(xs: seq<Option<Execution>>, i: nat)
    requires i < |xs|
    ensures IdsOf(xs[..i + 1]) == IdsOf(xs[..i]) + (if xs[i].Some? then {xs[i].value.executionId} else {})
    ensures RootsOf(xs[..i + 1]) == RootsOf(xs[..i])
      + (if xs[i].Some? && !HasParent(xs[i].value) then {xs[i].value.executionId} else {})
    ensures EdgesOf(xs[..i + 1]) == EdgesOf(xs[..i])
      + (if xs[i].Some? && HasParent(xs[i].value) then [Edge(ParentId(xs[i].value), xs[i].value.executionId)] else [])
    ensures forall id :: LastWithId(xs[..i + 1], id) == (if xs[i].Some? && xs[i].value.executionId == id then xs[i] else LastWithId(xs[..i], id))
  {
    var pre := xs[..i + 1];
    assert pre[..i] == xs[..i];
    assert pre[|pre| - 1] == xs[i];
    forall id
      ensures LastWithId(pre, id) == (if xs[i].Some? && xs[i].value.executionId == id then xs[i] else LastWithId(xs[..i], id))
    {
    }
  }

  /**
   * Node map, edge list and root set of a run. The roots come from iterating a Go
   * map, so their order is unspecified: they are a set here.
   */
  method BuildExecutionGraph(xs: seq<Option<Execution>>)
    returns (nodes: map<string, Execution>, edges: seq<Edge>, roots: set<string>)
    ensures nodes.Keys == IdsOf(xs)
    ensures forall id :: id in nodes ==> LastWithId(xs, id) == Some(nodes[id])
    ensures edges == EdgesOf(xs)
    ensures roots == RootsOf(xs)
  {
    nodes, edges, roots := map[], [], {};
    var i := 0;
    while i < |xs|
      invariant 0 <= i <= |xs|
      invariant nodes.Keys == IdsOf(xs[..i])
      invariant forall id :: id in nodes ==> LastWithId(xs[..i], id) == Some(nodes[id])
      invariant edges == EdgesOf(xs[..i])
      invariant roots == RootsOf(xs[..i])
    {
      GraphStep(xs, i);
      match xs[i] {
        case None =>
        case Some(e) =>
          nodes := nodes[e.executionId := e];
          if HasParent(e) {
            edges := edges + [Edge(ParentId(e), e.executionId)];
          } else {
            roots := roots + {e.executionId};
          }
      }
      i := i + 1;
    }
    assert xs[..i] == xs;
  }
}
