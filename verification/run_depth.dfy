/**
 * computeMaxDepth (control-plane/internal/storage/execution_records.go): the
 * largest depth a breadth-first walk from the run's roots reaches, over the
 * (execution ID, parent ID) pairs of one run.
 *
 * The pairs come from the executions table, whose execution IDs are unique;
 * with a repeated ID the walk can revisit an ID forever (a root `a` that is
 * also listed as its own child), so unique IDs are required.
 */
module RunDepth {
  import opened Text

  /** execDepthInfo: an execution ID and its parent pointer. */
  datatype DepthInfo = DepthInfo(executionId: string, parentExecutionId: Option<string>)

  /** A nil or empty parent makes an execution a root. */
  predicate IsRootInfo(x: DepthInfo)
  {
    x.parentExecutionId.None? || x.parentExecutionId.value == ""
  }

  predicate UniqueInfoIds(infos: seq<DepthInfo>)
  {
    forall i, j :: 0 <= i < j < |infos| ==> infos[i].executionId != infos[j].executionId
  }

  function AllIds(infos: seq<DepthInfo>): set<string>
  {
    set i | 0 <= i < |infos| :: infos[i].executionId
  }

  function RootIds(infos: seq<DepthInfo>): set<string>
  {
    set i | 0 <= i < |infos| && IsRootInfo(infos[i]) :: infos[i].executionId
  }

  /** child ID -> parent ID for every non-root entry. */
  function ParentMap(infos: seq<DepthInfo>): map<string, string>
  {
    if infos == [] then map[]
    else
      var last := infos[|infos| - 1];
      var pm := ParentMap(infos[..|infos| - 1]);
      if IsRootInfo(last) then pm else pm[last.executionId := last.parentExecutionId.value]
  }

  /** The IDs listed under `parent`, in input order. */
  function ChildIds(infos: seq<DepthInfo>, parent: string): seq<string>
  {
    if infos == [] then []
    else
      var last := infos[|infos| - 1];
      ChildIds(infos[..|infos| - 1], parent)
        + (if !IsRootInfo(last) && last.parentExecutionId.value == parent then [last.executionId] else [])
  }

  function KidsOf(kids: map<string, seq<string>>, id: string): seq<string>
  {
    if id in kids then kids[id] else []
  }

  /** childrenMap as the first loop builds it. */
  function ChildrenIdMap(infos: seq<DepthInfo>): map<string, seq<string>>
  {
    if infos == [] then map[]
    else
      var last := infos[|infos| - 1];
      var cm := ChildrenIdMap(infos[..|infos| - 1]);
      if IsRootInfo(last) then cm
      else cm[last.parentExecutionId.value := KidsOf(cm, last.parentExecutionId.value) + [last.executionId]]
  }

  /** The roots, in input order. */
  function RootSeq(infos: seq<DepthInfo>): seq<string>
  {
    if infos == [] then []
    else
      var last := infos[|infos| - 1];
      RootSeq(infos[..|infos| - 1]) + (if IsRootInfo(last) then [last.executionId] else [])
  }

  /** `id` is `d` parent links below a root: the depth the walk gives it. */
  predicate AtLevel(infos: seq<DepthInfo>, id: string, d: nat)
    decreases d
  {
    if d == 0 then id in RootIds(infos)
    else id in ParentMap(infos) && AtLevel(infos, ParentMap(infos)[id], d - 1)
  }

  // ---------------------------------------------------------------------------
  // Facts about the index structures
  // ---------------------------------------------------------------------------

  lemma {:induction false} ChildrenIdMapIsChildIds(infos: seq<DepthInfo>, parent: string)
    ensures KidsOf(ChildrenIdMap(infos), parent) == ChildIds(infos, parent)
  {
    if infos != [] {
      ChildrenIdMapIsChildIds(infos[..|infos| - 1], parent);
    }
  }

  /** With unique IDs: an ID is a root or has a parent, never both; all are input IDs. */
  lemma {:induction false} ParentMapFacts(infos: seq<DepthInfo>)
    requires UniqueInfoIds(infos)
    ensures forall id :: id in ParentMap(infos) ==> id in AllIds(infos) && id !in RootIds(infos)
    ensures RootIds(infos) <= AllIds(infos)
  {
    if infos != [] {
      var init := infos[..|infos| - 1];
      var last := infos[|infos| - 1];
      assert forall i :: 0 <= i < |init| ==> init[i] == infos[i];
      ParentMapFacts(init);
      assert AllIds(infos) == AllIds(init) + {last.executionId};
      assert RootIds(infos) == RootIds(init) + (if IsRootInfo(last) then {last.executionId} else {});
      assert last.executionId !in AllIds(init);
    }
  }

  /** With unique IDs, ChildIds(p) lists exactly the IDs whose parent is p, each once. */
  lemma {:induction false} ChildIdsExact(infos: seq<DepthInfo>, parent: string)
    requires UniqueInfoIds(infos)
    ensures forall c :: c in ChildIds(infos, parent) <==> c in ParentMap(infos) && ParentMap(infos)[c] == parent
    ensures forall i, j :: 0 <= i < j < |ChildIds(infos, parent)| ==> ChildIds(infos, parent)[i] != ChildIds(infos, parent)[j]
  {
    if infos != [] {
      var init := infos[..|infos| - 1];
      var last := infos[|infos| - 1];
      assert forall i :: 0 <= i < |init| ==> init[i] == infos[i];
      ChildIdsExact(init, parent);
      ParentMapFacts(init);
      assert last.executionId !in AllIds(init);
      assert last.executionId !in ParentMap(init);
      assert last.executionId !in ChildIds(init, parent);
    }
  }

  lemma {:induction false} RootSeqFacts(infos: seq<DepthInfo>)
    requires UniqueInfoIds(infos)
    ensures forall r :: r in RootSeq(infos) <==> r in RootIds(infos)
    ensures forall i, j :: 0 <= i < j < |RootSeq(infos)| ==> RootSeq(infos)[i] != RootSeq(infos)[j]
  {
    if infos != [] {
      var init := infos[..|infos| - 1];
      var last := infos[|infos| - 1];
      assert forall i :: 0 <= i < |init| ==> init[i] == infos[i];
      RootSeqFacts(init);
      ParentMapFacts(init);
      assert RootIds(infos) == RootIds(init) + (if IsRootInfo(last) then {last.executionId} else {});
      assert last.executionId !in AllIds(init);
    }
  }

  /** With unique IDs an execution sits at one level at most. */
  lemma {:induction false} LevelUnique(infos: seq<DepthInfo>, id: string, d1: nat, d2: nat)
    requires UniqueInfoIds(infos)
    requires AtLevel(infos, id, d1) && AtLevel(infos, id, d2)
    ensures d1 == d2
    decreases d1
  {
    ParentMapFacts(infos);
    if d1 != 0 && d2 != 0 {
      LevelUnique(infos, ParentMap(infos)[id], d1 - 1, d2 - 1);
    }
  }

  /** Only input IDs have a level. */
  lemma LevelIsInput(infos: seq<DepthInfo>, id: string, d: nat)
    requires UniqueInfoIds(infos) && AtLevel(infos, id, d)
    ensures id in AllIds(infos)
  {
    ParentMapFacts(infos);
  }

  /** An entry whose parent never appears is not reached: it has no level. */
  lemma OrphanHasNoLevel(infos: seq<DepthInfo>, id: string, d: nat)
    requires UniqueInfoIds(infos)
    requires id in ParentMap(infos) && ParentMap(infos)[id] !in AllIds(infos)
    ensures !AtLevel(infos, id, d)
  {
    ParentMapFacts(infos);
    if d > 0 && AtLevel(infos, id, d) {
      LevelIsInput(infos, ParentMap(infos)[id], d - 1);
    }
  }

  // ---------------------------------------------------------------------------
  // The walk
  // ---------------------------------------------------------------------------

  /** The first loop: roots in order with depth 0, and the children lists. */
  method IndexDepthInfos(infos: seq<DepthInfo>)
    returns (depthMap: map<string, int>, childrenMap: map<string, seq<string>>, roots: seq<string>)
    ensures roots == RootSeq(infos) && childrenMap == ChildrenIdMap(infos)
    ensures forall id :: id in depthMap <==> id in roots
    ensures forall id :: id in depthMap ==> depthMap[id] == 0
  {
    depthMap, childrenMap, roots := map[], map[], [];
    var i := 0;
    while i < |infos|
      invariant 0 <= i <= |infos|
      invariant roots == RootSeq(infos[..i]) && childrenMap == ChildrenIdMap(infos[..i])
      invariant forall id :: id in depthMap <==> id in roots
      invariant forall id :: id in depthMap ==> depthMap[id] == 0
    {
      assert infos[..i + 1][..i] == infos[..i];
      var info := infos[i];
      if IsRootInfo(info) {
        roots := roots + [info.executionId];
        depthMap := depthMap[info.executionId := 0];
      } else {
        var parent := info.parentExecutionId.value;
        childrenMap := childrenMap[parent := KidsOf(childrenMap, parent) + [info.executionId]];
      }
      i := i + 1;
    }
    assert infos[..i] == infos;
  }

  /** The inner loop: give every child the next depth and append it to the queue. */
  method EnqueueChildren(queue: seq<string>, depthMap: map<string, int>, kids: seq<string>, depth: int)
    returns (queue': seq<string>, depthMap': map<string, int>)
    ensures queue' == queue + kids
    ensures forall id :: id in depthMap' <==> id in depthMap || id in kids
    ensures forall id :: id in depthMap' ==> depthMap'[id] == if id in kids then depth else depthMap[id]
  {
    queue', depthMap' := queue, depthMap;
    var j := 0;
    while j < |kids|
      invariant 0 <= j <= |kids|
      invariant queue' == queue + kids[..j]
      invariant forall id :: id in depthMap' <==> id in depthMap || id in kids[..j]
      invariant forall id :: id in depthMap' ==> depthMap'[id] == if id in kids[..j] then depth else depthMap[id]
    {
      assert kids[..j + 1] == kids[..j] + [kids[j]];
      depthMap' := depthMap'[kids[j] := depth];
      queue' := queue' + [kids[j]];
      j := j + 1;
    }
    assert kids[..j] == kids;
  }

  /** The walk's state: everything seen is at its recorded level and entered through a visited parent. */
  ghost predicate WalkInvariant(infos: seq<DepthInfo>, queue: seq<string>, popped: set<string>, depthMap: map<string, int>)
  {
    && (forall i, j :: 0 <= i < j < |queue| ==> queue[i] != queue[j])
    && (forall k :: 0 <= k < |queue| ==> queue[k] !in popped && queue[k] in AllIds(infos))
    && popped <= AllIds(infos)
    && (forall id :: id in popped || id in queue ==> id in depthMap && depthMap[id] >= 0 && AtLevel(infos, id, depthMap[id]))
    && (forall id :: (id in popped || id in queue) && id in ParentMap(infos) ==> ParentMap(infos)[id] in popped)
    && (forall r :: r in RootIds(infos) ==> r in popped || r in queue)
    && (forall p, c :: p in popped && c in ChildIds(infos, p) ==> c in popped || c in queue)
  }

  /** One step of the walk keeps its invariant. */
  lemma WalkStep(infos: seq<DepthInfo>, queue: seq<string>, popped: set<string>, depthMap: map<string, int>,
                 queue': seq<string>, depthMap': map<string, int>)
    requires UniqueInfoIds(infos)
    requires queue != [] && WalkInvariant(infos, queue, popped, depthMap)
    requires queue' == queue[1..] + ChildIds(infos, queue[0])
    requires forall id :: id in depthMap' <==> id in depthMap || id in ChildIds(infos, queue[0])
    requires forall id :: id in depthMap' ==>
      depthMap'[id] == if id in ChildIds(infos, queue[0]) then depthMap[queue[0]] + 1 else depthMap[id]
    ensures WalkInvariant(infos, queue', popped + {queue[0]}, depthMap')
    ensures forall p :: p in popped + {queue[0]} ==> p in depthMap' && depthMap'[p] == depthMap[p]
  {
    KidsAreFresh(infos, queue, popped, depthMap);
    ChildIdsExact(infos, queue[0]);
    WalkStepQueue(infos, queue, popped, ChildIds(infos, queue[0]), queue');
    WalkStepLevels(infos, queue, popped, depthMap, queue', depthMap');
    WalkStepLinks(infos, queue, popped, depthMap, queue');
  }

  /** A child of the execution at the head of the queue was never seen: its only parent was not yet visited. */
  lemma KidsAreFresh(infos: seq<DepthInfo>, queue: seq<string>, popped: set<string>, depthMap: map<string, int>)
    requires UniqueInfoIds(infos)
    requires queue != [] && WalkInvariant(infos, queue, popped, depthMap)
    ensures forall c :: c in ChildIds(infos, queue[0]) ==> c !in popped && c !in queue && c != queue[0] && c in AllIds(infos)
  {
    ChildIdsExact(infos, queue[0]);
    ParentMapFacts(infos);
    forall c | c in ChildIds(infos, queue[0])
      ensures c !in popped && c !in queue && c != queue[0] && c in AllIds(infos)
    {
      assert ParentMap(infos)[c] == queue[0];
    }
  }

  /** After a step the queue still holds distinct, unvisited input IDs. */
  lemma WalkStepQueue(infos: seq<DepthInfo>, queue: seq<string>, popped: set<string>, kids: seq<string>, queue': seq<string>)
    requires queue != [] && popped <= AllIds(infos)
    requires forall i, j :: 0 <= i < j < |queue| ==> queue[i] != queue[j]
    requires forall k :: 0 <= k < |queue| ==> queue[k] !in popped && queue[k] in AllIds(infos)
    requires forall i, j :: 0 <= i < j < |kids| ==> kids[i] != kids[j]
    requires forall c :: c in kids ==> c !in popped && c !in queue && c != queue[0] && c in AllIds(infos)
    requires queue' == queue[1..] + kids
    ensures forall i, j :: 0 <= i < j < |queue'| ==> queue'[i] != queue'[j]
    ensures forall k :: 0 <= k < |queue'| ==> queue'[k] !in popped + {queue[0]} && queue'[k] in AllIds(infos)
    ensures popped + {queue[0]} <= AllIds(infos)
  {
    forall i, j | 0 <= i < j < |queue'|
      ensures queue'[i] != queue'[j]
    {
      if j < |queue| - 1 {
        assert queue'[i] == queue[i + 1] && queue'[j] == queue[j + 1];
      } else if i < |queue| - 1 {
        assert queue'[i] == queue[i + 1] && queue'[j] == kids[j - |queue| + 1];
      } else {
        assert queue'[i] == kids[i - |queue| + 1] && queue'[j] == kids[j - |queue| + 1];
      }
    }
    forall k | 0 <= k < |queue'|
      ensures queue'[k] !in popped + {queue[0]} && queue'[k] in AllIds(infos)
    {
      if k < |queue| - 1 {
        assert queue'[k] == queue[k + 1];
        assert queue[k + 1] != queue[0];
      } else {
        assert queue'[k] in kids;
      }
    }
  }

  /** After a step everything seen is at its recorded level, and visited depths are unchanged. */
  lemma WalkStepLevels(infos: seq<DepthInfo>, queue: seq<string>, popped: set<string>, depthMap: map<string, int>,
                       queue': seq<string>, depthMap': map<string, int>)
    requires UniqueInfoIds(infos)
    requires queue != [] && WalkInvariant(infos, queue, popped, depthMap)
    requires queue' == queue[1..] + ChildIds(infos, queue[0])
    requires forall id :: id in depthMap' <==> id in depthMap || id in ChildIds(infos, queue[0])
    requires forall id :: id in depthMap' ==>
      depthMap'[id] == if id in ChildIds(infos, queue[0]) then depthMap[queue[0]] + 1 else depthMap[id]
    requires forall c :: c in ChildIds(infos, queue[0]) ==> c !in popped && c !in queue && c != queue[0]
    ensures forall id :: id in popped + {queue[0]} || id in queue' ==>
      id in depthMap' && depthMap'[id] >= 0 && AtLevel(infos, id, depthMap'[id])
    ensures forall p :: p in popped + {queue[0]} ==> p in depthMap' && depthMap'[p] == depthMap[p]
  {
    var cur := queue[0];
    var kids := ChildIds(infos, cur);
    ChildIdsExact(infos, cur);
    ParentMapFacts(infos);
    forall id | id in popped + {cur} || id in queue'
      ensures id in depthMap' && depthMap'[id] >= 0 && AtLevel(infos, id, depthMap'[id])
    {
      if id in kids {
        assert ParentMap(infos)[id] == cur;
        assert AtLevel(infos, id, depthMap[cur] + 1);
      } else {
        assert id in popped || id in queue;
      }
    }
  }

  /** After a step every seen execution was entered through a visited parent, and nothing reachable is lost. */
  lemma WalkStepLinks(infos: seq<DepthInfo>, queue: seq<string>, popped: set<string>, depthMap: map<string, int>,
                      queue': seq<string>)
    requires UniqueInfoIds(infos)
    requires queue != [] && WalkInvariant(infos, queue, popped, depthMap)
    requires queue' == queue[1..] + ChildIds(infos, queue[0])
    ensures forall id :: (id in popped + {queue[0]} || id in queue') && id in ParentMap(infos) ==>
      ParentMap(infos)[id] in popped + {queue[0]}
    ensures forall r :: r in RootIds(infos) ==> r in popped + {queue[0]} || r in queue'
    ensures forall p, c :: p in popped + {queue[0]} && c in ChildIds(infos, p) ==>
      c in popped + {queue[0]} || c in queue'
  {
    var cur := queue[0];
    var kids := ChildIds(infos, cur);
    ChildIdsExact(infos, cur);
    ParentMapFacts(infos);
    forall id | (id in popped + {cur} || id in queue') && id in ParentMap(infos)
      ensures ParentMap(infos)[id] in popped + {cur}
    {
      if id !in kids {
        assert id in popped || id in queue;
      }
    }
    forall p, c | p in popped + {cur} && c in ChildIds(infos, p)
      ensures c in popped + {cur} || c in queue'
    {
      if p != cur {
        assert c in popped || c in queue;
      }
    }
  }

  /** Once the queue is empty, every execution that has a level was visited. */
  lemma {:induction false} LevelsVisited(infos: seq<DepthInfo>, popped: set<string>, depthMap: map<string, int>, id: string, d: nat)
    requires UniqueInfoIds(infos)
    requires WalkInvariant(infos, [], popped, depthMap)
    requires AtLevel(infos, id, d)
    ensures id in popped
    decreases d
  {
    if d > 0 {
      var p := ParentMap(infos)[id];
      LevelsVisited(infos, popped, depthMap, p, d - 1);
      ChildIdsExact(infos, p);
      assert id in ChildIds(infos, p);
    }
  }

  /**
   * computeMaxDepth: 0 for no entries; otherwise the largest level any
   * execution reaches below a root (an execution whose parent chain does not
   * end at a root has no level and contributes nothing). The walk terminates
   * because every ID enters the queue at most once.
   */
  method ComputeMaxDepth(infos: seq<DepthInfo>) returns (maxDepth: int)
    requires UniqueInfoIds(infos)
    ensures infos == [] ==> maxDepth == 0
    ensures maxDepth >= 0
    ensures forall id, d: nat :: AtLevel(infos, id, d) ==> d <= maxDepth
    ensures maxDepth == 0 || exists id :: AtLevel(infos, id, maxDepth)
  {
    if |infos| == 0 {
      return 0;
    }
    var depthMap, childrenMap, roots := IndexDepthInfos(infos);
    WalkStarts(infos, roots, depthMap);
    var queue := roots;
    maxDepth := 0;
    ghost var popped: set<string> := {};
    while |queue| > 0
      invariant WalkInvariant(infos, queue, popped, depthMap)
      invariant maxDepth >= 0
      invariant forall p :: p in popped ==> depthMap[p] <= maxDepth
      invariant maxDepth == 0 || exists p :: p in popped && AtLevel(infos, p, maxDepth)
      decreases |AllIds(infos) - popped|
    {
      var current := queue[0];
      var currentDepth := depthMap[current];
      if currentDepth > maxDepth {
        maxDepth := currentDepth;
      }
      ChildrenIdMapIsChildIds(infos, current);
      var queue', depthMap' := EnqueueChildren(queue[1..], depthMap, KidsOf(childrenMap, current), currentDepth + 1);
      WalkStep(infos, queue, popped, depthMap, queue', depthMap');
      PopShrinks(AllIds(infos), popped, current);
      queue, depthMap, popped := queue', depthMap', popped + {current};
    }
    LevelsBounded(infos, popped, depthMap, maxDepth);
  }

  /** Visiting one more unvisited execution shrinks the set still to visit. */
  lemma PopShrinks(all: set<string>, popped: set<string>, current: string)
    requires current in all && current !in popped
    ensures |all - (popped + {current})| < |all - popped|
  {
    assert (all - (popped + {current})) + {current} == all - popped;
  }

  /** The walk starts from the roots, in input order, each at depth 0. */
  lemma WalkStarts(infos: seq<DepthInfo>, roots: seq<string>, depthMap: map<string, int>)
    requires UniqueInfoIds(infos)
    requires roots == RootSeq(infos)
    requires forall id :: id in depthMap <==> id in roots
    requires forall id :: id in depthMap ==> depthMap[id] == 0
    ensures WalkInvariant(infos, roots, {}, depthMap)
  {
    RootSeqFacts(infos);
    ParentMapFacts(infos);
  }

  /** When the walk ends, the largest visited depth bounds every level. */
  lemma LevelsBounded(infos: seq<DepthInfo>, popped: set<string>, depthMap: map<string, int>, maxDepth: int)
    requires UniqueInfoIds(infos)
    requires WalkInvariant(infos, [], popped, depthMap)
    requires forall p :: p in popped ==> depthMap[p] <= maxDepth
    ensures forall id, d: nat :: AtLevel(infos, id, d) ==> d <= maxDepth
  {
    forall id, d: nat | AtLevel(infos, id, d)
      ensures d <= maxDepth
    {
      LevelsVisited(infos, popped, depthMap, id, d);
      LevelUnique(infos, id, d, depthMap[id]);
    }
  }
}
