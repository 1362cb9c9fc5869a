/**
 * The workflow DAG views of a run (control-plane/internal/handlers/workflow_dag.go):
 * the full tree rooted at the run's first parentless execution, the timeline of
 * every execution ordered by start time with its depth in the parent chain, the
 * overall status, and the lightweight variant without a tree.
 *
 * The executions of a run come from the executions table, keyed by execution
 * ID, so IDs are unique; the depth recursion has no cycle guard, so the parent
 * relation must be acyclic (otherwise the source recurses forever).
 * types.NormalizeExecutionStatus is the parameter `normalize`: every node
 * carries the normalised status, and the overall status is derived from the
 * normalised statuses.
 */
module WorkflowDag {
  import opened Text
  import opened Exec
  import Sorting

  /** WorkflowDAGNode: one execution in the tree or the timeline. */
  datatype DagNode = DagNode(
    workflowId: string,
    executionId: string,
    agentNodeId: string,
    reasonerId: string,
    status: string,
    startedAt: int,
    completedAt: Option<int>,
    durationMs: Option<int>,
    parentExecutionId: Option<string>,
    workflowDepth: int,
    children: seq<DagNode>,
    notes: seq<Note>,
    notesCount: nat)

  /** The zero WorkflowDAGNode, returned for a nil root. */
  const EmptyDagNode := DagNode("", "", "", "", "", 0, None, None, None, 0, [], [], 0)

  /** WorkflowDAGLightweightNode */
  datatype LightNode = LightNode(
    executionId: string,
    parentExecutionId: Option<string>,
    agentNodeId: string,
    reasonerId: string,
    status: string,
    startedAt: int,
    completedAt: Option<int>,
    durationMs: Option<int>,
    workflowDepth: int)

  /** executionToDAGNode: the execution's identity, status and timing at the given depth, no children, no notes. */
  function ExecutionToDagNode(e: Execution, depth: int, normalize: string -> string): (n: DagNode)
    ensures n.workflowId == e.runId && n.executionId == e.executionId
    ensures n.agentNodeId == e.agentNodeId && n.reasonerId == e.reasonerId && n.status == normalize(e.status)
    ensures n.startedAt == e.startedAt && n.completedAt == e.completedAt && n.durationMs == e.durationMs
    ensures n.parentExecutionId == e.parentExecutionId && n.workflowDepth == depth
    ensures n.children == [] && n.notes == [] && n.notesCount == 0
  {
    DagNode(e.runId, e.executionId, e.agentNodeId, e.reasonerId, normalize(e.status), e.startedAt,
            e.completedAt, e.durationMs, e.parentExecutionId, depth, [], [], 0)
  }

  /** executionToLightweightNode: the same fields without run ID, children or notes. */
  function ExecutionToLightNode(e: Execution, depth: int, normalize: string -> string): (n: LightNode)
    ensures n.executionId == e.executionId && n.parentExecutionId == e.parentExecutionId
    ensures n.agentNodeId == e.agentNodeId && n.reasonerId == e.reasonerId && n.status == normalize(e.status)
    ensures n.startedAt == e.startedAt && n.completedAt == e.completedAt && n.durationMs == e.durationMs
    ensures n.workflowDepth == depth
  {
    LightNode(e.executionId, e.parentExecutionId, e.agentNodeId, e.reasonerId, normalize(e.status),
              e.startedAt, e.completedAt, e.durationMs, depth)
  }

  // ---------------------------------------------------------------------------
  // Overall status and request mode
  // ---------------------------------------------------------------------------

  /** The scan of deriveOverallStatus from some position on, with the running flag seen so far. */
  function OverallStatusFrom(xs: seq<Execution>, hasRunning: bool, normalize: string -> string): (s: string)
    ensures s == Failed <==> exists i :: 0 <= i < |xs| && normalize(xs[i].status) == Failed
    ensures s == Running <==>
      (forall i :: 0 <= i < |xs| ==> normalize(xs[i].status) != Failed)
      && (hasRunning || exists i :: 0 <= i < |xs| && IsActiveStatus(normalize(xs[i].status)))
    ensures s == Failed || s == Running || s == Succeeded
  {
    if xs == [] then (if hasRunning then Running else Succeeded)
    else if normalize(xs[0].status) == Failed then Failed
    else
      var rest := OverallStatusFrom(xs[1..], hasRunning || IsActiveStatus(normalize(xs[0].status)), normalize);
      assert forall i :: 0 < i < |xs| ==> xs[i] == xs[1..][i - 1];
      rest
  }

  /**
   * deriveOverallStatus over the normalised statuses: failed if any execution
   * failed, wherever it is; otherwise running if any is running, pending or
   * queued; otherwise succeeded (also for no executions).
   */
  function DeriveOverallStatus(xs: seq<Execution>, normalize: string -> string): (s: string)
    ensures s == Failed <==> exists i :: 0 <= i < |xs| && normalize(xs[i].status) == Failed
    ensures s == Running <==>
      (forall i :: 0 <= i < |xs| ==> normalize(xs[i].status) != Failed)
      && (exists i :: 0 <= i < |xs| && IsActiveStatus(normalize(xs[i].status)))
    ensures s == Succeeded <==>
      forall i :: 0 <= i < |xs| ==> normalize(xs[i].status) != Failed && !IsActiveStatus(normalize(xs[i].status))
  {
    OverallStatusFrom(xs, false, normalize)
  }

  /** Some execution has this normalised status. */
  predicate AnyWithStatus(xs: seq<Execution>, status: string, normalize: string -> string)
  {
    exists i :: 0 <= i < |xs| && normalize(xs[i].status) == status
  }

  predicate AnyActive(xs: seq<Execution>, normalize: string -> string)
  {
    exists i :: 0 <= i < |xs| && IsActiveStatus(normalize(xs[i].status))
  }

  lemma SameMembersSameStatuses(xs: seq<Execution>, ys: seq<Execution>, normalize: string -> string)
    requires multiset(xs) == multiset(ys)
    ensures AnyWithStatus(xs, Failed, normalize) ==> AnyWithStatus(ys, Failed, normalize)
    ensures AnyActive(xs, normalize) ==> AnyActive(ys, normalize)
  {
    if AnyWithStatus(xs, Failed, normalize) {
      var i :| 0 <= i < |xs| && normalize(xs[i].status) == Failed;
      assert xs[i] in multiset(ys);
      var j :| 0 <= j < |ys| && ys[j] == xs[i];
    }
    if AnyActive(xs, normalize) {
      var i :| 0 <= i < |xs| && IsActiveStatus(normalize(xs[i].status));
      assert xs[i] in multiset(ys);
      var j :| 0 <= j < |ys| && ys[j] == xs[i];
    }
  }

  /** The overall status does not depend on the order of the executions (the source derives it after sorting). */
  lemma OverallStatusPermutation(xs: seq<Execution>, ys: seq<Execution>, normalize: string -> string)
    requires multiset(xs) == multiset(ys)
    ensures DeriveOverallStatus(xs, normalize) == DeriveOverallStatus(ys, normalize)
  {
    SameMembersSameStatuses(xs, ys, normalize);
    SameMembersSameStatuses(ys, xs, normalize);
    assert DeriveOverallStatus(xs, normalize) == Failed <==> AnyWithStatus(xs, Failed, normalize);
    assert DeriveOverallStatus(ys, normalize) == Failed <==> AnyWithStatus(ys, Failed, normalize);
    assert DeriveOverallStatus(xs, normalize) == Running <==> !AnyWithStatus(xs, Failed, normalize) && AnyActive(xs, normalize);
    assert DeriveOverallStatus(ys, normalize) == Running <==> !AnyWithStatus(ys, Failed, normalize) && AnyActive(ys, normalize);
  }

  /** isLightweightRequest over the `mode` and `lightweight` query values. */
  predicate IsLightweightRequest(mode: string, lightweight: string)
  {
    EqualFold(mode, "lightweight") || EqualFold(lightweight, "true") || EqualFold(lightweight, "1")
  }

  lemma LowerOfLowercase(s: string)
    requires forall i :: 0 <= i < |s| ==> !('A' <= s[i] <= 'Z')
    ensures ToLower(s) == s
  {
  }

  /** The three query words are already lower-case. */
  lemma LowerLiterals()
    ensures ToLower("lightweight") == "lightweight" && ToLower("true") == "true" && ToLower("1") == "1"
  {
    LowerLightweight();
    LowerTrue();
    LowerOfLowercase("1");
  }

  lemma LowerLightweight()
    ensures ToLower("lightweight") == "lightweight"
  {
    var word := "lightweight";
    assert word[0] == 'l' && word[1] == 'i' && word[2] == 'g' && word[3] == 'h' && word[4] == 't'
      && word[5] == 'w' && word[6] == 'e' && word[7] == 'i' && word[8] == 'g' && word[9] == 'h' && word[10] == 't';
    LowerOfLowercase(word);
  }

  lemma LowerTrue()
    ensures ToLower("true") == "true"
  {
    var word := "true";
    assert word[0] == 't' && word[1] == 'r' && word[2] == 'u' && word[3] == 'e';
    LowerOfLowercase(word);
  }

  /** The request is lightweight exactly for mode=lightweight or lightweight=true/1, in any letter case. */
  lemma LightweightRequestCases(mode: string, lightweight: string)
    ensures IsLightweightRequest(mode, lightweight) <==>
      ToLower(mode) == "lightweight" || ToLower(lightweight) == "true" || ToLower(lightweight) == "1"
  {
    LowerLiterals();
    assert EqualFold(mode, "lightweight") == (ToLower(mode) == "lightweight");
    assert EqualFold(lightweight, "true") == (ToLower(lightweight) == "true");
    assert EqualFold(lightweight, "1") == (ToLower(lightweight) == "1");
  }

  /** Lower-casing the query values first does not change the decision. */
  lemma LightweightRequestCaseInsensitive(mode: string, lightweight: string)
    ensures IsLightweightRequest(mode, lightweight) == IsLightweightRequest(ToLower(mode), ToLower(lightweight))
  {
    ToLowerIdempotent(mode);
    ToLowerIdempotent(lightweight);
  }

  // ---------------------------------------------------------------------------
  // The execution map, children lists and root selection
  // ---------------------------------------------------------------------------

  predicate UniqueIds(xs: seq<Execution>)
  {
    forall i, j :: 0 <= i < j < |xs| ==> xs[i].executionId != xs[j].executionId
  }

  /** execMap: ExecutionID -> execution (a later duplicate would overwrite). */
  function ById(xs: seq<Execution>): map<string, Execution>
  {
    if xs == [] then map[]
    else ById(xs[..|xs| - 1])[xs[|xs| - 1].executionId := xs[|xs| - 1]]
  }

  predicate KeyedById(m: map<string, Execution>)
  {
    forall id :: id in m ==> m[id].executionId == id
  }

  /** `e` is the map's entry for its own ID. */
  predicate InMap(m: map<string, Execution>, e: Execution)
  {
    e.executionId in m && m[e.executionId] == e
  }

  /** With unique IDs the map holds every execution under its ID, and nothing else. */
  lemma ByIdContents(xs: seq<Execution>)
    requires UniqueIds(xs)
    ensures KeyedById(ById(xs))
    ensures forall i :: 0 <= i < |xs| ==> InMap(ById(xs), xs[i])
    ensures forall id :: id in ById(xs) ==> ById(xs)[id] in xs
    ensures |ById(xs)| <= |xs|
  {
    ByIdKeyed(xs);
    ByIdHoldsAll(xs);
    ByIdFromInput(xs);
    ByIdSize(xs);
  }

  lemma {:induction false} ByIdKeyed(xs: seq<Execution>)
    ensures KeyedById(ById(xs))
  {
    if xs != [] {
      ByIdKeyed(xs[..|xs| - 1]);
    }
  }

  lemma {:induction false} ByIdHoldsAll(xs: seq<Execution>)
    requires UniqueIds(xs)
    ensures forall i :: 0 <= i < |xs| ==> InMap(ById(xs), xs[i])
  {
    if xs != [] {
      var init, last := xs[..|xs| - 1], xs[|xs| - 1];
      ByIdHoldsAll(init);
      forall i | 0 <= i < |init|
        ensures InMap(ById(xs), xs[i])
      {
        assert xs[i] == init[i] && xs[i].executionId != last.executionId;
        assert InMap(ById(init), init[i]);
      }
    }
  }

  lemma {:induction false} ByIdFromInput(xs: seq<Execution>)
    ensures forall id :: id in ById(xs) ==> ById(xs)[id] in xs
  {
    if xs != [] {
      var init, last := xs[..|xs| - 1], xs[|xs| - 1];
      ByIdFromInput(init);
      forall id | id in ById(xs)
        ensures ById(xs)[id] in xs
      {
        if id != last.executionId {
          assert ById(init)[id] in init;
          var k :| 0 <= k < |init| && init[k] == ById(init)[id];
          assert xs[k] == init[k];
        }
      }
    }
  }

  lemma {:induction false} ByIdSize(xs: seq<Execution>)
    ensures |ById(xs)| <= |xs|
  {
    if xs != [] {
      var init, last := xs[..|xs| - 1], xs[|xs| - 1];
      ByIdSize(init);
      assert ById(xs).Keys == ById(init).Keys + {last.executionId};
    }
  }

  /** Two orders of the same executions, with unique IDs, file them in the same map. */
  lemma ByIdSameMembers(xs: seq<Execution>, ys: seq<Execution>)
    requires UniqueIds(xs) && UniqueIds(ys) && multiset(xs) == multiset(ys)
    ensures ById(xs) == ById(ys)
  {
    ByIdKeyed(xs);
    ByIdKeyed(ys);
    ByIdHoldsAll(xs);
    ByIdHoldsAll(ys);
    ByIdFromInput(xs);
    ByIdFromInput(ys);
    var a, b := ById(xs), ById(ys);
    forall id | id in a
      ensures id in b && b[id] == a[id]
    {
      assert a[id] in multiset(xs);
      var k :| 0 <= k < |ys| && ys[k] == a[id];
      assert InMap(b, ys[k]);
    }
    forall id | id in b
      ensures id in a
    {
      assert b[id] in multiset(ys);
      var k :| 0 <= k < |xs| && xs[k] == b[id];
      assert InMap(a, xs[k]);
    }
  }

  lemma ByIdHolds(xs: seq<Execution>, e: Execution)
    requires UniqueIds(xs) && e in xs
    ensures InMap(ById(xs), e)
  {
    ByIdContents(xs);
  }

  /** The executions whose parent is `id`, in input order. */
  function ChildrenOf(xs: seq<Execution>, id: string): seq<Execution>
  {
    if xs == [] then []
    else
      var last := xs[|xs| - 1];
      ChildrenOf(xs[..|xs| - 1], id) + (if HasParent(last) && ParentId(last) == id then [last] else [])
  }

  function KidsOf(kids: map<string, seq<Execution>>, id: string): seq<Execution>
  {
    if id in kids then kids[id] else []
  }

  /** childrenMap as the first loop builds it. */
  function ChildrenMap(xs: seq<Execution>): map<string, seq<Execution>>
  {
    if xs == [] then map[]
    else
      var last := xs[|xs| - 1];
      var cm := ChildrenMap(xs[..|xs| - 1]);
      if HasParent(last) then cm[ParentId(last) := KidsOf(cm, ParentId(last)) + [last]] else cm
  }

  /** childrenMap[id] lists exactly the executions whose parent is `id`, in input order. */
  lemma {:induction false} ChildrenMapIsChildrenOf(xs: seq<Execution>, id: string)
    ensures KidsOf(ChildrenMap(xs), id) == ChildrenOf(xs, id)
    ensures forall e :: e in ChildrenOf(xs, id) <==> e in xs && HasParent(e) && ParentId(e) == id
  {
    if xs != [] {
      var init := xs[..|xs| - 1];
      ChildrenMapIsChildrenOf(init, id);
      assert xs == init + [xs[|xs| - 1]];
    }
  }

  /** Index of the first execution without a parent. */
  function FirstRootIndex(xs: seq<Execution>): (r: Option<nat>)
    ensures r.Some? ==> r.value < |xs| && !HasParent(xs[r.value])
    ensures r.Some? ==> forall j :: 0 <= j < r.value ==> HasParent(xs[j])
    ensures r.None? ==> forall j :: 0 <= j < |xs| ==> HasParent(xs[j])
  {
    if xs == [] then None
    else
      var init := xs[..|xs| - 1];
      match FirstRootIndex(init)
        case Some(k) => Some(k)
        case None => if !HasParent(xs[|xs| - 1]) then Some(|xs| - 1) else None
  }

  /**
   * Root selection: the first execution without a (non-empty) parent, or the
   * first execution when all have one, or none for an empty list.
   */
  function RootOf(xs: seq<Execution>): (r: Option<Execution>)
    ensures r.Some? <==> xs != []
    ensures r.Some? ==> r.value in xs
    ensures (exists i :: 0 <= i < |xs| && !HasParent(xs[i])) ==>
      r.Some? && !HasParent(r.value) && exists i :: 0 <= i < |xs| && xs[i] == r.value && forall j :: 0 <= j < i ==> HasParent(xs[j])
    ensures (forall i :: 0 <= i < |xs| ==> HasParent(xs[i])) && xs != [] ==> r == Some(xs[0])
  {
    match FirstRootIndex(xs)
      case Some(k) => Some(xs[k])
      case None => if xs == [] then None else Some(xs[0])
  }

  // ---------------------------------------------------------------------------
  // Depth in the parent chain (computeDepth)
  // ---------------------------------------------------------------------------

  /** The parent of `e` when it is part of the run. */
  function ParentIn(m: map<string, Execution>, e: Execution): Option<Execution>
  {
    if HasParent(e) && ParentId(e) in m then Some(m[ParentId(e)]) else None
  }

  /** Depth following at most `fuel` parent links; None when the chain is longer. */
  function DepthFuel(m: map<string, Execution>, e: Execution, fuel: nat): (r: Option<nat>)
    ensures r.Some? ==> r.value <= fuel
    decreases fuel
  {
    match ParentIn(m, e)
      case None => Some(0)
      case Some(p) =>
        if fuel == 0 then None
        else match DepthFuel(m, p, fuel - 1)
          case None => None
          case Some(d) => Some(d + 1)
  }

  /** The parent chain of `e` ends within the run's size: no cycle. */
  predicate DepthDefined(m: map<string, Execution>, e: Execution)
  {
    DepthFuel(m, e, |m|).Some?
  }

  /** No execution of the run is on a parent cycle. */
  predicate Acyclic(m: map<string, Execution>)
  {
    forall id :: id in m ==> DepthDefined(m, m[id])
  }

  /** The depth in the parent chain (0 off the acyclic part, where the source would not return). */
  function Depth(m: map<string, Execution>, e: Execution): (d: nat)
    ensures d <= |m|
  {
    match DepthFuel(m, e, |m|)
      case None => 0
      case Some(d) => d
  }

  lemma AcyclicDefined(m: map<string, Execution>, e: Execution)
    requires Acyclic(m) && InMap(m, e)
    ensures DepthDefined(m, e)
  {
    assert DepthDefined(m, m[e.executionId]);
  }

  lemma {:induction false} DepthFuelMonotone(m: map<string, Execution>, e: Execution, f: nat, g: nat)
    requires f <= g && DepthFuel(m, e, f).Some?
    ensures DepthFuel(m, e, g) == DepthFuel(m, e, f)
    decreases f
  {
    match ParentIn(m, e)
      case None =>
      case Some(p) => DepthFuelMonotone(m, p, f - 1, g - 1);
  }

  /**
   * computeDepth's recurrence: 0 when the parent is empty or not in the run,
   * otherwise one more than the parent's depth.
   */
  lemma DepthRecurrence(m: map<string, Execution>, e: Execution)
    requires Acyclic(m) && DepthDefined(m, e)
    ensures ParentIn(m, e).None? ==> Depth(m, e) == 0
    ensures ParentIn(m, e).Some? ==>
      DepthDefined(m, ParentIn(m, e).value) && Depth(m, e) == Depth(m, ParentIn(m, e).value) + 1
  {
    match ParentIn(m, e)
      case None =>
      case Some(p) =>
        DepthFuelMonotone(m, p, |m| - 1, |m|);
  }

  /** The memo table holds true depths, none above the running maximum. */
  predicate CacheSound(m: map<string, Execution>, cache: map<string, nat>, maxDepth: nat)
  {
    forall id :: id in cache ==> id in m && cache[id] == Depth(m, m[id]) && cache[id] <= maxDepth
  }

  /**
   * The memoised computeDepth closure: returns the depth of `e`, records it
   * (and its ancestors') in the cache and raises the captured maximum.
   */
  method ComputeDepth(m: map<string, Execution>, e: Execution, cache: map<string, nat>, maxDepth: nat)
    returns (d: nat, cache': map<string, nat>, maxDepth': nat)
    requires Acyclic(m) && KeyedById(m) && InMap(m, e)
    requires CacheSound(m, cache, maxDepth)
    ensures d == Depth(m, e)
    ensures CacheSound(m, cache', maxDepth') && e.executionId in cache'
    ensures maxDepth' == if d > maxDepth then d else maxDepth
    decreases Depth(m, e)
  {
    if e.executionId in cache {
      return cache[e.executionId], cache, maxDepth;
    }
    AcyclicDefined(m, e);
    DepthRecurrence(m, e);
    d, cache', maxDepth' := 0, cache, maxDepth;
    if HasParent(e) && ParentId(e) in m {
      var parentDepth;
      parentDepth, cache', maxDepth' := ComputeDepth(m, m[ParentId(e)], cache, maxDepth);
      d := parentDepth + 1;
    }
    if d > maxDepth' {
      maxDepth' := d;
    }
    cache' := cache'[e.executionId := d];
  }

  // ---------------------------------------------------------------------------
  // The tree (buildNode)
  // ---------------------------------------------------------------------------

  /** Every children list names executions of the run whose parent is the list's key. */
  predicate ChildrenOk(m: map<string, Execution>, kids: map<string, seq<Execution>>)
  {
    forall id, k :: id in kids && 0 <= k < |kids[id]| ==>
      InMap(m, kids[id][k]) && HasParent(kids[id][k]) && ParentId(kids[id][k]) == id
  }

  /**
   * Each node's children are the nodes of its children list, in order, one
   * level deeper (every field as executionToDAGNode sets it); recursively.
   */
  predicate WellShaped(n: DagNode, kids: map<string, seq<Execution>>, normalize: string -> string)
    decreases n
  {
    var cs := KidsOf(kids, n.executionId);
    |n.children| == |cs|
    && forall k :: 0 <= k < |n.children| ==>
         n.children[k].(children := []) == ExecutionToDagNode(cs[k], n.workflowDepth + 1, normalize)
         && WellShaped(n.children[k], kids, normalize)
  }

  /** No tree node is deeper than its execution's depth in the parent chain. */
  predicate DepthsWithinRank(n: DagNode, m: map<string, Execution>)
    decreases n
  {
    n.executionId in m && n.workflowDepth <= Depth(m, m[n.executionId])
    && forall k :: 0 <= k < |n.children| ==> DepthsWithinRank(n.children[k], m)
  }

  predicate AllDepthsAtMost(n: DagNode, bound: int)
    decreases n
  {
    n.workflowDepth <= bound && forall k :: 0 <= k < |n.children| ==> AllDepthsAtMost(n.children[k], bound)
  }

  /** buildNode: the execution's node at `depth`, with its children built one level deeper. */
  function BuildNode(m: map<string, Execution>, kids: map<string, seq<Execution>>, e: Execution, depth: int, normalize: string -> string): (r: DagNode)
    requires Acyclic(m) && KeyedById(m) && ChildrenOk(m, kids) && InMap(m, e)
    ensures r.(children := []) == ExecutionToDagNode(e, depth, normalize)
    ensures WellShaped(r, kids, normalize)
    decreases |m| - Depth(m, e), 1, 0
  {
    var node := ExecutionToDagNode(e, depth, normalize);
    node.(children := BuildChildren(m, kids, e, KidsOf(kids, e.executionId), depth + 1, normalize))
  }

  function BuildChildren(m: map<string, Execution>, kids: map<string, seq<Execution>>, parent: Execution,
                         cs: seq<Execution>, depth: int, normalize: string -> string): (r: seq<DagNode>)
    requires Acyclic(m) && KeyedById(m) && ChildrenOk(m, kids) && InMap(m, parent)
    requires forall k :: 0 <= k < |cs| ==> InMap(m, cs[k]) && HasParent(cs[k]) && ParentId(cs[k]) == parent.executionId
    ensures |r| == |cs|
    ensures forall k :: 0 <= k < |cs| ==>
      r[k].(children := []) == ExecutionToDagNode(cs[k], depth, normalize) && WellShaped(r[k], kids, normalize)
    decreases |m| - Depth(m, parent), 0, |cs|
  {
    if cs == [] then []
    else
      AcyclicDefined(m, cs[0]);
      DepthRecurrence(m, cs[0]);
      assert ParentIn(m, cs[0]) == Some(parent);
      var first := BuildNode(m, kids, cs[0], depth, normalize);
      var rest := BuildChildren(m, kids, parent, cs[1..], depth, normalize);
      assert forall k :: 1 <= k < |cs| ==> cs[k] == cs[1..][k - 1];
      [first] + rest
  }

  /** A node built no deeper than its execution's chain depth keeps every node of its tree so. */
  lemma {:induction false} BuildNodeWithinRank(m: map<string, Execution>, kids: map<string, seq<Execution>>, e: Execution,
                                               depth: int, normalize: string -> string)
    requires Acyclic(m) && KeyedById(m) && ChildrenOk(m, kids) && InMap(m, e)
    requires depth <= Depth(m, e)
    ensures DepthsWithinRank(BuildNode(m, kids, e, depth, normalize), m)
    decreases |m| - Depth(m, e), 1, 0
  {
    var r := BuildNode(m, kids, e, depth, normalize);
    assert r.children == BuildChildren(m, kids, e, KidsOf(kids, e.executionId), depth + 1, normalize);
    BuildChildrenWithinRank(m, kids, e, KidsOf(kids, e.executionId), depth + 1, normalize);
  }

  lemma {:induction false} BuildChildrenWithinRank(m: map<string, Execution>, kids: map<string, seq<Execution>>, parent: Execution,
                                                   cs: seq<Execution>, depth: int, normalize: string -> string)
    requires Acyclic(m) && KeyedById(m) && ChildrenOk(m, kids) && InMap(m, parent)
    requires forall k :: 0 <= k < |cs| ==> InMap(m, cs[k]) && HasParent(cs[k]) && ParentId(cs[k]) == parent.executionId
    requires depth <= Depth(m, parent) + 1
    ensures forall k :: 0 <= k < |cs| ==> DepthsWithinRank(BuildChildren(m, kids, parent, cs, depth, normalize)[k], m)
    decreases |m| - Depth(m, parent), 0, |cs|
  {
    if cs != [] {
      AcyclicDefined(m, cs[0]);
      DepthRecurrence(m, cs[0]);
      assert ParentIn(m, cs[0]) == Some(parent);
      BuildNodeWithinRank(m, kids, cs[0], depth, normalize);
      BuildChildrenWithinRank(m, kids, parent, cs[1..], depth, normalize);
      var rest := BuildChildren(m, kids, parent, cs[1..], depth, normalize);
      var r := BuildChildren(m, kids, parent, cs, depth, normalize);
      assert r == [BuildNode(m, kids, cs[0], depth, normalize)] + rest;
      forall k | 1 <= k < |cs|
        ensures DepthsWithinRank(r[k], m)
      {
        assert r[k] == rest[k - 1];
      }
    }
  }

  /** A tree whose depths stay within the chain depths is bounded by any bound on those. */
  lemma {:induction false} RankBoundsTree(n: DagNode, m: map<string, Execution>, bound: int)
    requires DepthsWithinRank(n, m)
    requires forall id :: id in m ==> Depth(m, m[id]) <= bound
    ensures AllDepthsAtMost(n, bound)
    decreases n
  {
    forall k | 0 <= k < |n.children|
      ensures AllDepthsAtMost(n.children[k], bound)
    {
      RankBoundsTree(n.children[k], m, bound);
    }
  }

  // ---------------------------------------------------------------------------
  // The two builders
  // ---------------------------------------------------------------------------

  function StartKey(e: Execution): int { e.startedAt }

  /** The executions in timeline order: by StartedAt, earliest first. */
  function ByStart(xs: seq<Execution>): seq<Execution>
  {
    Sorting.SortBy(xs, StartKey)
  }

  /** Every execution in start order is one of the run's, filed under its ID. */
  lemma ByStartInMap(xs: seq<Execution>)
    requires UniqueIds(xs)
    ensures |ByStart(xs)| == |xs|
    ensures forall k :: 0 <= k < |xs| ==> InMap(ById(xs), ByStart(xs)[k])
  {
    var s := ByStart(xs);
    forall k | 0 <= k < |xs|
      ensures InMap(ById(xs), s[k])
    {
      assert s[k] in multiset(xs);
      ByIdHolds(xs, s[k]);
    }
  }

  /** Every execution occurs somewhere in start order. */
  lemma ByStartCovers(xs: seq<Execution>, i: nat)
    requires i < |xs|
    ensures exists k :: 0 <= k < |xs| && ByStart(xs)[k] == xs[i]
  {
    assert xs[i] in multiset(ByStart(xs));
  }

  /** Start order is ordered by StartedAt. */
  lemma ByStartOrdered(xs: seq<Execution>)
    ensures forall i, j :: 0 <= i < j < |ByStart(xs)| ==> ByStart(xs)[i].startedAt <= ByStart(xs)[j].startedAt
  {
    var s := ByStart(xs);
    forall i, j | 0 <= i < j < |s|
      ensures s[i].startedAt <= s[j].startedAt
    {
      assert StartKey(s[i]) <= StartKey(s[j]);
    }
  }

  /** Every execution's chain depth is at most the timeline's maximum. */
  lemma TimelineBoundsDepths(xs: seq<Execution>, depths: seq<nat>, maxDepth: nat)
    requires UniqueIds(xs) && Acyclic(ById(xs))
    requires |depths| == |xs|
    requires forall k :: 0 <= k < |xs| ==> depths[k] == Depth(ById(xs), ByStart(xs)[k])
    requires forall k :: 0 <= k < |xs| ==> depths[k] <= maxDepth
    ensures forall id :: id in ById(xs) ==> Depth(ById(xs), ById(xs)[id]) <= maxDepth
  {
    var m := ById(xs);
    ByIdContents(xs);
    forall id | id in m
      ensures Depth(m, m[id]) <= maxDepth
    {
      var i :| 0 <= i < |xs| && xs[i] == m[id];
      ByStartCovers(xs, i);
      var k :| 0 <= k < |xs| && ByStart(xs)[k] == xs[i];
      assert depths[k] <= maxDepth;
    }
  }

  /**
   * The memoised depth loop over the executions in start order: the chain
   * depth of each, and the largest of them (0 for none).
   */
  method TimelineDepths(m: map<string, Execution>, sorted: seq<Execution>) returns (depths: seq<nat>, maxDepth: nat)
    requires Acyclic(m) && KeyedById(m)
    requires forall k :: 0 <= k < |sorted| ==> InMap(m, sorted[k])
    ensures |depths| == |sorted|
    ensures forall k :: 0 <= k < |sorted| ==> depths[k] == Depth(m, sorted[k]) && depths[k] <= maxDepth
    ensures maxDepth == 0 || exists k :: 0 <= k < |sorted| && depths[k] == maxDepth
  {
    var cache: map<string, nat> := map[];
    depths, maxDepth := [], 0;
    var i := 0;
    while i < |sorted|
      invariant 0 <= i <= |sorted| && |depths| == i
      invariant CacheSound(m, cache, maxDepth)
      invariant forall k :: 0 <= k < i ==> depths[k] == Depth(m, sorted[k]) && depths[k] <= maxDepth
      invariant maxDepth == 0 || exists k :: 0 <= k < i && depths[k] == maxDepth
    {
      var d;
      d, cache, maxDepth := ComputeDepth(m, sorted[i], cache, maxDepth);
      depths := depths + [d];
      i := i + 1;
    }
  }

  /** The timeline loop: one childless node per execution, at its depth. */
  method DagNodes(sorted: seq<Execution>, depths: seq<nat>, normalize: string -> string) returns (timeline: seq<DagNode>)
    requires |depths| == |sorted|
    ensures |timeline| == |sorted|
    ensures forall k :: 0 <= k < |sorted| ==> timeline[k] == ExecutionToDagNode(sorted[k], depths[k], normalize)
  {
    timeline := [];
    var j := 0;
    while j < |sorted|
      invariant 0 <= j <= |sorted| && |timeline| == j
      invariant forall k :: 0 <= k < j ==> timeline[k] == ExecutionToDagNode(sorted[k], depths[k], normalize)
    {
      timeline := timeline + [ExecutionToDagNode(sorted[j], depths[j], normalize)];
      j := j + 1;
    }
  }

  /** The lightweight timeline loop. */
  method LightNodes(sorted: seq<Execution>, depths: seq<nat>, normalize: string -> string) returns (timeline: seq<LightNode>)
    requires |depths| == |sorted|
    ensures |timeline| == |sorted|
    ensures forall k :: 0 <= k < |sorted| ==> timeline[k] == ExecutionToLightNode(sorted[k], depths[k], normalize)
  {
    timeline := [];
    var j := 0;
    while j < |sorted|
      invariant 0 <= j <= |sorted| && |timeline| == j
      invariant forall k :: 0 <= k < j ==> timeline[k] == ExecutionToLightNode(sorted[k], depths[k], normalize)
    {
      timeline := timeline + [ExecutionToLightNode(sorted[j], depths[j], normalize)];
      j := j + 1;
    }
  }

  /** The first loop of buildExecutionDAG: execMap, childrenMap and the first parentless execution. */
  method IndexRun(xs: seq<Execution>)
    returns (execMap: map<string, Execution>, childrenMap: map<string, seq<Execution>>, rootIndex: Option<nat>)
    ensures execMap == ById(xs) && childrenMap == ChildrenMap(xs) && rootIndex == FirstRootIndex(xs)
  {
    execMap, childrenMap, rootIndex := map[], map[], None;
    var i := 0;
    while i < |xs|
      invariant 0 <= i <= |xs|
      invariant execMap == ById(xs[..i])
      invariant childrenMap == ChildrenMap(xs[..i])
      invariant rootIndex == FirstRootIndex(xs[..i])
    {
      var prefix := xs[..i + 1];
      assert prefix[..i] == xs[..i];
      var e := xs[i];
      execMap := execMap[e.executionId := e];
      if HasParent(e) {
        childrenMap := childrenMap[ParentId(e) := KidsOf(childrenMap, ParentId(e)) + [e]];
      } else if rootIndex.None? {
        rootIndex := Some(i);
      }
      i := i + 1;
    }
    assert xs[..i] == xs;
  }

  /** Every children list of a run with unique IDs names executions of the run whose parent is the key. */
  lemma ChildrenMapOk(xs: seq<Execution>)
    requires UniqueIds(xs)
    ensures ChildrenOk(ById(xs), ChildrenMap(xs))
  {
    var cm := ChildrenMap(xs);
    forall id, k | id in cm && 0 <= k < |cm[id]|
      ensures InMap(ById(xs), cm[id][k]) && HasParent(cm[id][k]) && ParentId(cm[id][k]) == id
    {
      ChildrenMapIsChildrenOf(xs, id);
      assert cm[id][k] in ChildrenOf(xs, id);
      ByIdHolds(xs, cm[id][k]);
    }
  }

  /**
   * The timeline of buildExecutionDAG: one childless node per execution in
   * start order with its chain depth, and the maximum depth, which bounds the
   * depth of every execution of the run.
   */
  method DagTimeline(xs: seq<Execution>, normalize: string -> string) returns (timeline: seq<DagNode>, maxDepth: nat)
    requires UniqueIds(xs) && Acyclic(ById(xs))
    ensures |timeline| == |xs|
    ensures forall k :: 0 <= k < |xs| ==>
      timeline[k] == ExecutionToDagNode(ByStart(xs)[k], Depth(ById(xs), ByStart(xs)[k]), normalize) && timeline[k].workflowDepth <= maxDepth
    ensures maxDepth == 0 || exists k :: 0 <= k < |timeline| && timeline[k].workflowDepth == maxDepth
    ensures forall id :: id in ById(xs) ==> Depth(ById(xs), ById(xs)[id]) <= maxDepth
  {
    ByIdContents(xs);
    ByStartInMap(xs);
    var sorted := Sorting.SortExecutions(xs, StartKey);
    var depths;
    depths, maxDepth := TimelineDepths(ById(xs), sorted);
    timeline := DagNodes(sorted, depths, normalize);
    TimelineBoundsDepths(xs, depths, maxDepth);
  }

  /**
   * buildExecutionDAG. The tree hangs from RootOf(xs) (input order) with every
   * node's children exactly its child executions, one level deeper; the
   * timeline has one node per execution in start order carrying its chain
   * depth; maxDepth bounds every tree and timeline depth and is attained by the
   * timeline (or 0); name, session and actor come from the root.
   */
  method BuildExecutionDag(xs: seq<Execution>, normalize: string -> string)
    returns (dag: DagNode, timeline: seq<DagNode>, status: string, workflowName: string,
             sessionId: Option<string>, actorId: Option<string>, maxDepth: nat)
    requires UniqueIds(xs) && Acyclic(ById(xs))
    ensures xs == [] ==> dag == EmptyDagNode
    ensures xs != [] ==> dag.(children := []) == ExecutionToDagNode(RootOf(xs).value, 0, normalize)
    ensures WellShaped(dag, ChildrenMap(xs), normalize)
    ensures AllDepthsAtMost(dag, maxDepth)
    ensures |timeline| == |xs|
    ensures forall k :: 0 <= k < |xs| ==>
      timeline[k] == ExecutionToDagNode(ByStart(xs)[k], Depth(ById(xs), ByStart(xs)[k]), normalize) && timeline[k].workflowDepth <= maxDepth
    ensures maxDepth == 0 || exists k :: 0 <= k < |timeline| && timeline[k].workflowDepth == maxDepth
    ensures status == DeriveOverallStatus(xs, normalize)
    ensures workflowName == (if RootOf(xs).Some? then RootOf(xs).value.reasonerId else "")
    ensures sessionId == (if RootOf(xs).Some? then RootOf(xs).value.sessionId else None)
    ensures actorId == (if RootOf(xs).Some? then RootOf(xs).value.actorId else None)
  {
    var execMap, childrenMap, rootIndex := IndexRun(xs);
    var root: Option<Execution> := if rootIndex.Some? then Some(xs[rootIndex.value]) else None;
    if root.None? && |xs| > 0 {
      root := Some(xs[0]);
    }
    assert root == RootOf(xs);

    ByIdContents(xs);
    ChildrenMapOk(xs);
    if root.Some? {
      ByIdHolds(xs, root.value);
      dag := BuildNode(execMap, childrenMap, root.value, 0, normalize);
      BuildNodeWithinRank(execMap, childrenMap, root.value, 0, normalize);
    } else {
      dag := EmptyDagNode;
    }

    timeline, maxDepth := DagTimeline(xs, normalize);
    if root.Some? {
      RankBoundsTree(dag, execMap, maxDepth);
    }

    var sorted := ByStart(xs);
    OverallStatusPermutation(sorted, xs, normalize);
    status := DeriveOverallStatus(sorted, normalize);
    workflowName := "";
    if root.Some? && root.value.reasonerId != "" {
      workflowName := root.value.reasonerId;
    }
    sessionId, actorId := None, None;
    if root.Some? {
      sessionId, actorId := root.value.sessionId, root.value.actorId;
    }
  }

  /**
   * buildLightweightExecutionDAG: empty input gives an empty timeline, empty
   * status and name, no session or actor and depth 0. Otherwise the timeline
   * as in the full DAG, and a root chosen AFTER sorting: the earliest-started
   * parentless execution, else the earliest-started one.
   */
  method BuildLightweightExecutionDag(xs: seq<Execution>, normalize: string -> string)
    returns (timeline: seq<LightNode>, status: string, workflowName: string,
             sessionId: Option<string>, actorId: Option<string>, maxDepth: nat)
    requires UniqueIds(xs) && Acyclic(ById(xs))
    ensures xs == [] ==> timeline == [] && status == "" && workflowName == "" && sessionId.None? && actorId.None? && maxDepth == 0
    ensures |timeline| == |xs|
    ensures forall k :: 0 <= k < |xs| ==>
      timeline[k] == ExecutionToLightNode(ByStart(xs)[k], Depth(ById(xs), ByStart(xs)[k]), normalize) && timeline[k].workflowDepth <= maxDepth
    ensures maxDepth == 0 || exists k :: 0 <= k < |timeline| && timeline[k].workflowDepth == maxDepth
    ensures xs != [] ==> status == DeriveOverallStatus(xs, normalize)
    ensures xs != [] ==> workflowName == RootOf(ByStart(xs)).value.reasonerId
    ensures xs != [] ==> sessionId == RootOf(ByStart(xs)).value.sessionId && actorId == RootOf(ByStart(xs)).value.actorId
  {
    if |xs| == 0 {
      return [], "", "", None, None, 0;
    }
    var execMap, _, _ := IndexRun(xs);
    ByIdContents(xs);
    ByStartInMap(xs);
    var sorted := Sorting.SortExecutions(xs, StartKey);
    var depths;
    depths, maxDepth := TimelineDepths(execMap, sorted);
    timeline := LightNodes(sorted, depths, normalize);
    assert sorted == ByStart(xs) && execMap == ById(xs);
    forall k | 0 <= k < |xs|
      ensures timeline[k] == ExecutionToLightNode(ByStart(xs)[k], Depth(ById(xs), ByStart(xs)[k]), normalize)
      ensures timeline[k].workflowDepth <= maxDepth
    {
      assert timeline[k] == ExecutionToLightNode(sorted[k], depths[k], normalize) && depths[k] <= maxDepth;
    }

    var root := LightweightRoot(sorted);
    OverallStatusPermutation(sorted, xs, normalize);
    status := DeriveOverallStatus(sorted, normalize);
    workflowName := "";
    if root.reasonerId != "" {
      workflowName := root.reasonerId;
    }
    sessionId, actorId := root.sessionId, root.actorId;
  }

  /** The root search of buildLightweightExecutionDAG over the sorted executions. */
  method LightweightRoot(sorted: seq<Execution>) returns (root: Execution)
    requires sorted != []
    ensures root == RootOf(sorted).value
  {
    root := sorted[0];
    var r := 0;
    while r < |sorted|
      invariant 0 <= r <= |sorted|
      invariant forall q :: 0 <= q < r ==> HasParent(sorted[q])
    {
      if !HasParent(sorted[r]) {
        root := sorted[r];
        return;
      }
      r := r + 1;
    }
  }
}
