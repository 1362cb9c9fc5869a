/**
 * The Go SDK's agent (sdk/go/agent/agent.go): the execution context handed to
 * nested calls, the serverless entry point (reasoner routing, input extraction
 * and context reconstruction), reasoner registration, the target rewrite and
 * headers of Call, and the retry loop that posts status updates back to the
 * control plane.
 *
 * The clock and math/rand are parameters: an `Entropy` value carries what
 * time.Now().UnixNano() and rand.Intn(1_000_000) return for one call. A
 * reasoner's handler is arbitrary user code, so it is an opaque reference and
 * its result is supplied by an `invoke` function parameter.
 */
module AgentSdk {
  import opened Text

  // ---------------------------------------------------------------------------
  // Execution context
  // ---------------------------------------------------------------------------

  /** ExecutionContext; StartedAt is Unix nanoseconds. */
  datatype ExecutionContext = ExecutionContext(
    runId: string,
    executionId: string,
    parentExecutionId: string,
    sessionId: string,
    actorId: string,
    workflowId: string,
    parentWorkflowId: string,
    rootWorkflowId: string,
    depth: int,
    agentNodeId: string,
    reasonerName: string,
    startedAt: int)

  /** What the clock and the random source give one call. */
  datatype Entropy = Entropy(now: int, runDraw: nat, execDraw: nat)

  /** `%06d`: the decimal digits, left-padded with zeros to at least six. */
  function ZeroPad6(n: nat): (s: string)
    ensures |s| >= 6
    ensures forall i :: 0 <= i < |s| ==> IsDigit(s[i])
    ensures HasSuffix(s, NatToString(n))
  {
    var d := NatToString(n);
    if |d| >= 6 then d else seq(6 - |d|, _ => '0') + d
  }

  /** generateRunID / generateExecutionID: `<prefix>_<nanos>_<draw %06d>`. */
  function GeneratedId(prefix: string, nanos: int, draw: nat): (id: string)
    ensures HasPrefix(id, prefix + "_")
    ensures |id| > |prefix| + 1
  {
    prefix + "_" + IntToString(nanos) + "_" + ZeroPad6(draw)
  }

  function RunIdFrom(e: Entropy): (id: string)
    ensures HasPrefix(id, "run_")
  {
    assert "run" + "_" == "run_";
    GeneratedId("run", e.now, e.runDraw)
  }

  function ExecutionIdFrom(e: Entropy): (id: string)
    ensures HasPrefix(id, "exec_")
  {
    assert "exec" + "_" == "exec_";
    GeneratedId("exec", e.now, e.execDraw)
  }

  /** The identifiers every context handed to a reasoner carries. */
  predicate Anchored(c: ExecutionContext)
  {
    c.runId != "" && c.executionId != "" && c.workflowId != "" && c.rootWorkflowId != ""
  }

  /**
   * ExecutionContext.ChildContext: the context of a nested local call. The run
   * falls back to the workflow and then to a fresh run ID; the workflow falls
   * back to the run and the root to the workflow; the child gets a fresh
   * execution ID whose parent is the caller's execution.
   */
  function ChildContext(ec: ExecutionContext, agentNodeId: string, reasonerName: string, e: Entropy): (c: ExecutionContext)
    ensures Anchored(c) && HasPrefix(c.executionId, "exec_")
    ensures c.parentExecutionId == ec.executionId
    ensures c.sessionId == ec.sessionId && c.actorId == ec.actorId
    ensures c.depth == ec.depth + 1
    ensures ec.runId != "" ==> c.runId == ec.runId
    ensures ec.runId == "" && ec.workflowId != "" ==> c.runId == ec.workflowId
    ensures ec.runId == "" && ec.workflowId == "" ==> HasPrefix(c.runId, "run_")
    ensures ec.workflowId != "" ==> c.workflowId == ec.workflowId
    ensures ec.workflowId == "" ==> c.workflowId == c.runId
    ensures ec.rootWorkflowId != "" ==> c.rootWorkflowId == ec.rootWorkflowId
    ensures ec.rootWorkflowId == "" ==> c.rootWorkflowId == c.workflowId
    ensures c.parentWorkflowId == c.workflowId
    ensures c.agentNodeId == agentNodeId && c.reasonerName == reasonerName && c.startedAt == e.now
  {
    var runId := if ec.runId != "" then ec.runId else if ec.workflowId != "" then ec.workflowId else RunIdFrom(e);
    var workflowId := if ec.workflowId != "" then ec.workflowId else runId;
    var rootWorkflowId := if ec.rootWorkflowId != "" then ec.rootWorkflowId else workflowId;
    ExecutionContext(runId, ExecutionIdFrom(e), ec.executionId, ec.sessionId, ec.actorId,
                     workflowId, workflowId, rootWorkflowId, ec.depth + 1,
                     agentNodeId, reasonerName, e.now)
  }

  /** One nested local call: the callee's node, its reasoner and the call's entropy. */
  datatype NestedCall = NestedCall(agentNodeId: string, reasonerName: string, entropy: Entropy)

  /** The context after a chain of nested calls, outermost first. */
  function Descend(ec: ExecutionContext, calls: seq<NestedCall>): ExecutionContext
    decreases |calls|
  {
    if calls == [] then ec
    else Descend(ChildContext(ec, calls[0].agentNodeId, calls[0].reasonerName, calls[0].entropy), calls[1..])
  }

  /** Descending one more level is one more ChildContext step on the innermost context. */
  lemma {:induction false} DescendAppend(ec: ExecutionContext, calls: seq<NestedCall>, k: NestedCall)
    ensures Descend(ec, calls + [k]) == ChildContext(Descend(ec, calls), k.agentNodeId, k.reasonerName, k.entropy)
    decreases |calls|
  {
    if calls != [] {
      assert (calls + [k])[1..] == calls[1..] + [k];
      DescendAppend(ChildContext(ec, calls[0].agentNodeId, calls[0].reasonerName, calls[0].entropy), calls[1..], k);
    }
  }

  /** Below an anchored context the run, workflow and root workflow never change. */
  lemma {:induction false} AnchoredDescend(c: ExecutionContext, calls: seq<NestedCall>)
    requires Anchored(c)
    ensures var d := Descend(c, calls);
      d.runId == c.runId && d.workflowId == c.workflowId && d.rootWorkflowId == c.rootWorkflowId
      && d.depth == c.depth + |calls| && d.sessionId == c.sessionId && d.actorId == c.actorId
    decreases |calls|
  {
    if calls != [] {
      AnchoredDescend(ChildContext(c, calls[0].agentNodeId, calls[0].reasonerName, calls[0].entropy), calls[1..]);
    }
  }

  /**
   * A chain of nested calls stays in the run and workflow the first call fixed,
   * one level deeper per call, and the innermost context's parent is the
   * execution of the context just above it.
   */
  lemma DescendKeepsLineage(ec: ExecutionContext, calls: seq<NestedCall>)
    requires |calls| >= 1
    ensures var first := ChildContext(ec, calls[0].agentNodeId, calls[0].reasonerName, calls[0].entropy);
      var d := Descend(ec, calls);
      d.runId == first.runId && d.workflowId == first.workflowId && d.rootWorkflowId == first.rootWorkflowId
      && d.depth == ec.depth + |calls| && d.parentWorkflowId == d.workflowId
      && d.parentExecutionId == Descend(ec, calls[..|calls| - 1]).executionId
  {
    var last := calls[|calls| - 1];
    assert calls == calls[..|calls| - 1] + [last];
    DescendAppend(ec, calls[..|calls| - 1], last);
    var first := ChildContext(ec, calls[0].agentNodeId, calls[0].reasonerName, calls[0].entropy);
    AnchoredDescend(first, calls[1..]);
  }

  /**
   * Agent.buildChildContext: a parent with neither run nor execution starts a
   * fresh root at depth 0 whose workflow and root workflow are the new run;
   * any other parent gets an ordinary child context.
   */
  function BuildChildContext(parent: ExecutionContext, nodeId: string, reasonerName: string, e: Entropy): (c: ExecutionContext)
    ensures Anchored(c)
    ensures c.sessionId == parent.sessionId && c.actorId == parent.actorId && c.agentNodeId == nodeId
    ensures parent.runId == "" && parent.executionId == "" ==>
      c.depth == 0 && c.workflowId == c.runId && c.rootWorkflowId == c.runId && HasPrefix(c.runId, "run_")
      && c.parentExecutionId == "" && c.parentWorkflowId == ""
    ensures parent.runId != "" || parent.executionId != "" ==>
      c == ChildContext(parent, nodeId, reasonerName, e)
  {
    if parent.runId == "" && parent.executionId == "" then
      var runId := RunIdFrom(e);
      ExecutionContext(runId, ExecutionIdFrom(e), "", parent.sessionId, parent.actorId,
                       runId, "", runId, 0, nodeId, reasonerName, e.now)
    else
      ChildContext(parent, nodeId, reasonerName, e)
  }

  // ---------------------------------------------------------------------------
  // stringFromMap
  // ---------------------------------------------------------------------------

  /** `key` holds a string that is not blank. */
  predicate NonBlankAt(m: map<string, Json>, key: string)
  {
    key in m && m[key].JStr? && TrimSpace(m[key].s) != ""
  }

  /** Position of the first listed key holding a non-blank string. */
  function FirstNonBlank(m: map<string, Json>, keys: seq<string>): (r: Option<nat>)
    ensures r.None? <==> forall i :: 0 <= i < |keys| ==> !NonBlankAt(m, keys[i])
    ensures r.Some? ==> r.value < |keys| && NonBlankAt(m, keys[r.value])
    ensures r.Some? ==> forall j :: 0 <= j < r.value ==> !NonBlankAt(m, keys[j])
  {
    FirstWhere(keys, k => NonBlankAt(m, k))
  }

  /** The trimmed value of the first listed key holding a non-blank string, or "". */
  function FirstString(m: map<string, Json>, keys: seq<string>): (r: string)
    ensures r == "" <==> forall i :: 0 <= i < |keys| ==> !NonBlankAt(m, keys[i])
    ensures FirstNonBlank(m, keys).Some? ==> r == TrimSpace(m[keys[FirstNonBlank(m, keys).value]].s)
    ensures TrimSpace(r) == r
  {
    match FirstNonBlank(m, keys)
      case None => ""
      case Some(i) =>
        TrimSpaceIdempotent(m[keys[i]].s);
        TrimSpace(m[keys[i]].s)
  }

  /** The first non-blank key is the one before which every key is blank. */
  lemma FirstNonBlankAt(m: map<string, Json>, keys: seq<string>, i: nat)
    requires i < |keys| && NonBlankAt(m, keys[i])
    requires forall j :: 0 <= j < i ==> !NonBlankAt(m, keys[j])
    ensures FirstNonBlank(m, keys) == Some(i)
    ensures FirstString(m, keys) == TrimSpace(m[keys[i]].s)
  {
    var r := FirstNonBlank(m, keys);
    assert r.Some?;
    assert !(r.value < i);
    assert !(r.value > i);
  }

  /** stringFromMap: the loop over the keys with an early return. */
  method StringFromMap(m: map<string, Json>, keys: seq<string>) returns (r: string)
    ensures r == FirstString(m, keys)
  {
    var i := 0;
    while i < |keys|
      invariant 0 <= i <= |keys|
      invariant forall j :: 0 <= j < i ==> !NonBlankAt(m, keys[j])
    {
      var found, trimmed := NonBlankValue(m, keys[i]);
      if found {
        FirstNonBlankAt(m, keys, i);
        return trimmed;
      }
      i := i + 1;
    }
    assert FirstNonBlank(m, keys).None?;
    return "";
  }

  /** The body of the loop: the trimmed string under `key`, when it is one and not blank. */
  method NonBlankValue(m: map<string, Json>, key: string) returns (found: bool, trimmed: string)
    ensures found <==> NonBlankAt(m, key)
    ensures found ==> trimmed == TrimSpace(m[key].s)
  {
    found, trimmed := false, "";
    if key in m {
      var val := m[key];
      if val.JStr? && TrimSpace(val.s) != "" {
        found, trimmed := true, TrimSpace(val.s);
      }
    }
  }

  // ---------------------------------------------------------------------------
  // Serverless input
  // ---------------------------------------------------------------------------

  /** Keys that route the event rather than carry input, compared in lower case. */
  predicate ReservedInputKey(k: string)
  {
    var l := ToLower(k);
    l == "target" || l == "reasoner" || l == "skill" || l == "type" || l == "target_type"
    || l == "path" || l == "execution_context" || l == "executioncontext" || l == "context"
  }

  /** Reserved keys are recognised whatever their case. */
  lemma ReservedIgnoresCase(k: string)
    ensures ReservedInputKey(k) <==> ReservedInputKey(ToLower(k))
  {
    ToLowerIdempotent(k);
  }

  /**
   * extractInputFromServerless: no payload gives an empty input; an "input"
   * object is the input, any other "input" value is wrapped under "value";
   * without "input" the payload minus its routing keys is the input.
   */
  function ExtractInput(payload: Option<map<string, Json>>): (r: map<string, Json>)
    ensures payload.None? ==> r == map[]
    ensures payload.Some? && "input" in payload.value && payload.value["input"].JObj? ==>
      r == payload.value["input"].fields
    ensures payload.Some? && "input" in payload.value && !payload.value["input"].JObj? ==>
      r == map["value" := payload.value["input"]]
    ensures payload.Some? && "input" !in payload.value ==>
      (forall k :: k in r <==> k in payload.value && !ReservedInputKey(k))
      && forall k :: k in r ==> r[k] == payload.value[k]
  {
    match payload
      case None => map[]
      case Some(p) =>
        if "input" in p then
          match p["input"]
            case JObj(fields) => fields
            case raw => map["value" := raw]
        else
          map k | k in p && !ReservedInputKey(k) :: p[k]
  }

  /** Stripping the routing keys twice strips nothing more. */
  lemma ExtractInputIdempotent(p: map<string, Json>)
    requires "input" !in p
    ensures ExtractInput(Some(ExtractInput(Some(p)))) == ExtractInput(Some(p))
  {
    var once := ExtractInput(Some(p));
    assert "input" !in once;
    var twice := ExtractInput(Some(once));
    assert forall k :: k in twice <==> k in once;
  }

  /** extractInputFromServerless: the filtering loop over the payload's keys. */
  method ExtractInputFromServerless(payload: Option<map<string, Json>>) returns (r: map<string, Json>)
    ensures r == ExtractInput(payload)
  {
    if payload.None? {
      return map[];
    }
    var p := payload.value;
    if "input" in p {
      var raw := p["input"];
      if raw.JObj? {
        return raw.fields;
      }
      return map["value" := raw];
    }
    r := map[];
    var remaining := p.Keys;
    while remaining != {}
      invariant remaining <= p.Keys
      invariant forall k :: k in r <==> k in p.Keys - remaining && !ReservedInputKey(k)
      invariant forall k :: k in r ==> r[k] == p[k]
      decreases |remaining|
    {
      var k :| k in remaining;
      if !ReservedInputKey(k) {
        r := r[k := p[k]];
      }
      remaining := remaining - {k};
    }
    assert forall k :: k in r <==> k in ExtractInput(payload);
  }

  // ---------------------------------------------------------------------------
  // Serverless execution context
  // ---------------------------------------------------------------------------

  /** The raw values of the X-Run-ID, X-Execution-ID, ... request headers ("" when absent). */
  datatype ContextHeaders = ContextHeaders(
    runId: string,
    executionId: string,
    parentExecutionId: string,
    sessionId: string,
    actorId: string,
    workflowId: string)

  const NoHeaders := ContextHeaders("", "", "", "", "", "")

  /** payload["execution_context"] when it is an object. */
  function ContextMapOf(payload: map<string, Json>): (cm: Option<map<string, Json>>)
    ensures cm.Some? <==> "execution_context" in payload && payload["execution_context"].JObj?
  {
    if "execution_context" in payload && payload["execution_context"].JObj?
    then Some(payload["execution_context"].fields)
    else None
  }

  /** The execution_context keys each field is read from, snake_case first. */
  const RunIdKeys: seq<string> := ["run_id", "runId"]
  const ExecutionIdKeys: seq<string> := ["execution_id", "executionId"]
  const WorkflowIdKeys: seq<string> := ["workflow_id", "workflowId"]
  const ParentExecutionIdKeys: seq<string> := ["parent_execution_id", "parentExecutionId"]
  const SessionIdKeys: seq<string> := ["session_id", "sessionId"]
  const ActorIdKeys: seq<string> := ["actor_id", "actorId"]

  /** An empty field is filled from the execution_context object, when there is one. */
  function FillFrom(current: string, cm: Option<map<string, Json>>, keys: seq<string>): (r: string)
    ensures current != "" ==> r == current
    ensures current == "" && cm.None? ==> r == ""
    ensures current == "" && cm.Some? ==> r == FirstString(cm.value, keys)
  {
    if current == "" && cm.Some? then FirstString(cm.value, keys) else current
  }

  /**
   * The identifiers read before any fallback: each trimmed header value, or
   * when it is blank the value from the execution_context object.
   */
  function SeededIds(h: ContextHeaders, cm: Option<map<string, Json>>): (f: ContextHeaders)
    ensures TrimSpace(h.runId) != "" ==> f.runId == TrimSpace(h.runId)
    ensures TrimSpace(h.executionId) != "" ==> f.executionId == TrimSpace(h.executionId)
    ensures TrimSpace(h.parentExecutionId) != "" ==> f.parentExecutionId == TrimSpace(h.parentExecutionId)
    ensures TrimSpace(h.sessionId) != "" ==> f.sessionId == TrimSpace(h.sessionId)
    ensures TrimSpace(h.actorId) != "" ==> f.actorId == TrimSpace(h.actorId)
    ensures TrimSpace(h.workflowId) != "" ==> f.workflowId == TrimSpace(h.workflowId)
    ensures TrimSpace(h.runId) == "" && cm.Some? ==> f.runId == FirstString(cm.value, RunIdKeys)
    ensures TrimSpace(h.executionId) == "" && cm.Some? ==> f.executionId == FirstString(cm.value, ExecutionIdKeys)
    ensures TrimSpace(h.workflowId) == "" && cm.Some? ==> f.workflowId == FirstString(cm.value, WorkflowIdKeys)
    ensures TrimSpace(h.parentExecutionId) == "" && cm.Some? ==>
      f.parentExecutionId == FirstString(cm.value, ParentExecutionIdKeys)
    ensures TrimSpace(h.sessionId) == "" && cm.Some? ==> f.sessionId == FirstString(cm.value, SessionIdKeys)
    ensures TrimSpace(h.actorId) == "" && cm.Some? ==> f.actorId == FirstString(cm.value, ActorIdKeys)
  {
    ContextHeaders(
      FillFrom(TrimSpace(h.runId), cm, RunIdKeys),
      FillFrom(TrimSpace(h.executionId), cm, ExecutionIdKeys),
      FillFrom(TrimSpace(h.parentExecutionId), cm, ParentExecutionIdKeys),
      FillFrom(TrimSpace(h.sessionId), cm, SessionIdKeys),
      FillFrom(TrimSpace(h.actorId), cm, ActorIdKeys),
      FillFrom(TrimSpace(h.workflowId), cm, WorkflowIdKeys))
  }

  /** The fallbacks applied to the seeded identifiers. */
  function ContextFromIds(f: ContextHeaders, nodeId: string, reasonerName: string, e: Entropy): (c: ExecutionContext)
    ensures Anchored(c) && c.depth == 0
    ensures c.agentNodeId == nodeId && c.reasonerName == reasonerName && c.startedAt == e.now
    ensures f.runId != "" ==> c.runId == f.runId
    ensures f.runId == "" ==> c.runId == RunIdFrom(e)
    ensures f.executionId != "" ==> c.executionId == f.executionId
    ensures f.executionId == "" ==> c.executionId == ExecutionIdFrom(e)
    ensures f.workflowId != "" ==> c.workflowId == f.workflowId
    ensures f.workflowId == "" ==> c.workflowId == c.runId
    ensures c.parentExecutionId == f.parentExecutionId && c.sessionId == f.sessionId && c.actorId == f.actorId
    ensures c.rootWorkflowId == c.workflowId
    ensures c.parentWorkflowId == (if c.parentExecutionId != "" then c.rootWorkflowId else "")
  {
    var runId := if f.runId == "" then RunIdFrom(e) else f.runId;
    var execId := if f.executionId == "" then ExecutionIdFrom(e) else f.executionId;
    var workflowId := if f.workflowId == "" then runId else f.workflowId;
    var parentWorkflowId := if f.parentExecutionId != "" then workflowId else "";
    ExecutionContext(runId, execId, f.parentExecutionId, f.sessionId, f.actorId, workflowId, parentWorkflowId,
                     workflowId, 0, nodeId, reasonerName, e.now)
  }

  /**
   * buildExecutionContextFromServerless: header values (trimmed) win, empty
   * fields are filled from the execution_context object, and the run and
   * execution fall back to fresh IDs. The workflow defaults to the run, the
   * root workflow to the workflow, and the parent workflow is the root only
   * when there is a parent execution.
   */
  function ContextFromServerless(h: ContextHeaders, payload: map<string, Json>, nodeId: string,
                                 reasonerName: string, e: Entropy): (c: ExecutionContext)
    ensures Anchored(c) && c.depth == 0
    ensures c.agentNodeId == nodeId && c.reasonerName == reasonerName && c.startedAt == e.now
    ensures var f := SeededIds(h, ContextMapOf(payload));
      && (f.runId != "" ==> c.runId == f.runId)
      && (f.runId == "" ==> c.runId == RunIdFrom(e))
      && (f.executionId != "" ==> c.executionId == f.executionId)
      && (f.executionId == "" ==> c.executionId == ExecutionIdFrom(e))
      && (f.workflowId != "" ==> c.workflowId == f.workflowId)
      && (f.workflowId == "" ==> c.workflowId == c.runId)
      && c.parentExecutionId == f.parentExecutionId && c.sessionId == f.sessionId && c.actorId == f.actorId
    ensures c.rootWorkflowId == c.workflowId
    ensures c.parentWorkflowId == (if c.parentExecutionId != "" then c.rootWorkflowId else "")
  {
    ContextFromIds(SeededIds(h, ContextMapOf(payload)), nodeId, reasonerName, e)
  }

  /** A non-blank header beats whatever the execution_context object says. */
  lemma HeaderWins(h: ContextHeaders, p1: map<string, Json>, p2: map<string, Json>, nodeId: string,
                   reasonerName: string, e: Entropy)
    requires TrimSpace(h.runId) != "" && TrimSpace(h.executionId) != ""
    ensures ContextFromServerless(h, p1, nodeId, reasonerName, e).runId
         == ContextFromServerless(h, p2, nodeId, reasonerName, e).runId == TrimSpace(h.runId)
    ensures ContextFromServerless(h, p1, nodeId, reasonerName, e).executionId
         == ContextFromServerless(h, p2, nodeId, reasonerName, e).executionId == TrimSpace(h.executionId)
  {
  }

  // ---------------------------------------------------------------------------
  // Serverless routing
  // ---------------------------------------------------------------------------

  /** The first path segments under which a reasoner is addressed. */
  predicate IsRoutePrefix(p: string)
  {
    p == "execute" || p == "reasoners" || p == "skills"
  }

  /** The reasoner named by a path: "/execute|reasoners|skills/<name>/..." or a single segment. */
  function ReasonerFromPath(path: string): (name: string)
    ensures '/' !in name
  {
    var parts := Split(TrimChar(path, '/'), '/');
    if |parts| >= 2 && IsRoutePrefix(parts[0]) then parts[1]
    else if |parts| == 1 then parts[0]
    else ""
  }

  const PathKeys: seq<string> := ["path", "rawPath"]
  const ReasonerKeys: seq<string> := ["reasoner", "target", "skill"]

  /** The reasoner an event names: its reasoner/target/skill key, else its path. */
  function ResolveReasoner(event: map<string, Json>): (name: string)
    ensures FirstString(event, ReasonerKeys) != "" ==>
      name == FirstString(event, ReasonerKeys)
    ensures FirstString(event, ReasonerKeys) == "" ==>
      name == (if FirstString(event, PathKeys) == "" then ""
               else ReasonerFromPath(FirstString(event, PathKeys)))
  {
    var path := FirstString(event, PathKeys);
    var reasoner := FirstString(event, ReasonerKeys);
    if reasoner == "" && path != "" then ReasonerFromPath(path) else reasoner
  }

  /** The routing step of HandleServerlessEvent. */
  method RouteEvent(event: map<string, Json>) returns (reasoner: string)
    ensures reasoner == ResolveReasoner(event)
  {
    var path := StringFromMap(event, PathKeys);
    reasoner := StringFromMap(event, ReasonerKeys);
    if reasoner == "" && path != "" {
      reasoner := ReasonerFromPath(path);
    }
  }

  /** Stripping slashes from "/<prefix>/<name>" leaves "<prefix>/<name>". */
  lemma TrimRoute(prefix: string, name: string)
    requires prefix != "" && prefix[0] != '/' && name != "" && '/' !in name
    ensures TrimChar("/" + prefix + "/" + name, '/') == prefix + "/" + name
  {
    var s := "/" + prefix + "/" + name;
    var t := prefix + "/" + name;
    assert s[1..] == t;
    assert LStripChar(t, '/') == t;
    assert LStripChar(s, '/') == t;
    assert t[|t| - 1] == name[|name| - 1];
  }

  /** A route path "/<prefix>/<name>" resolves to `name`. */
  lemma RoutedPathNamesReasoner(prefix: string, name: string)
    requires IsRoutePrefix(prefix) && name != "" && '/' !in name
    ensures ReasonerFromPath("/" + prefix + "/" + name) == name
  {
    assert prefix != "" && prefix[0] != '/' && '/' !in prefix;
    TrimRoute(prefix, name);
    SplitPair(prefix, '/', name);
  }

  /** A bare "/<name>" (or "<name>") resolves to `name`. */
  lemma BarePathNamesReasoner(name: string)
    requires name != "" && '/' !in name
    ensures ReasonerFromPath("/" + name) == name
    ensures ReasonerFromPath(name) == name
  {
    var s := "/" + name;
    assert s[1..] == name;
    assert LStripChar(name, '/') == name;
    assert LStripChar(s, '/') == name;
    assert RStripChar(name, '/') == name;
    assert TrimChar(s, '/') == name;
    assert TrimChar(name, '/') == name;
    assert Split(name, '/') == [name];
  }

  /** A "path" value without surrounding whitespace is the event's path. */
  lemma PathKeyFirst(event: map<string, Json>, p: string)
    requires "path" in event && event["path"] == JStr(p)
    requires p != "" && !IsSpace(p[0]) && !IsSpace(p[|p| - 1])
    ensures FirstString(event, PathKeys) == p
  {
    TrimSpaceOfTrimmed(p);
    assert PathKeys[0] == "path";
    FirstNonBlankAt(event, PathKeys, 0);
  }

  /**
   * An event naming no reasoner directly but carrying the path
   * "/<prefix>/<name>" is routed to `name`.
   */
  lemma EventPathNamesReasoner(event: map<string, Json>, prefix: string, name: string)
    requires FirstString(event, ReasonerKeys) == ""
    requires "path" in event && event["path"] == JStr("/" + prefix + "/" + name)
    requires IsRoutePrefix(prefix) && name != "" && '/' !in name && !IsSpace(name[|name| - 1])
    ensures ResolveReasoner(event) == name
  {
    var p := "/" + prefix + "/" + name;
    assert p[0] == '/' && p[|p| - 1] == name[|name| - 1];
    PathKeyFirst(event, p);
    RoutedPathNamesReasoner(prefix, name);
  }

  // ---------------------------------------------------------------------------
  // Reasoners and the agent
  // ---------------------------------------------------------------------------

  /** A reasoner's HandlerFunc, CLIFormatter: opaque references to user code. */
  type HandlerRef = nat

  datatype Reasoner = Reasoner(
    name: string,
    handler: HandlerRef,
    inputSchema: string,
    outputSchema: string,
    cliEnabled: bool,
    defaultCli: bool,
    cliFormatter: Option<HandlerRef>,
    description: string)

  /** The ReasonerOption constructors. */
  datatype ReasonerOption =
    | WithInputSchema(raw: string)
    | WithOutputSchema(raw: string)
    | WithCli
    | WithDefaultCli
    | WithCliFormatter(formatter: HandlerRef)
    | WithDescription(desc: string)

  const DefaultSchema := "{\"type\":\"object\",\"additionalProperties\":true}"

  function ApplyOption(r: Reasoner, opt: ReasonerOption): Reasoner
  {
    match opt
      case WithInputSchema(raw) => if |raw| > 0 then r.(inputSchema := raw) else r
      case WithOutputSchema(raw) => if |raw| > 0 then r.(outputSchema := raw) else r
      case WithCli => r.(cliEnabled := true)
      case WithDefaultCli => r.(cliEnabled := true, defaultCli := true)
      case WithCliFormatter(f) => r.(cliFormatter := Some(f))
      case WithDescription(d) => r.(description := d)
  }

  /** The options applied in order. */
  function Configured(r: Reasoner, opts: seq<ReasonerOption>): Reasoner
    decreases |opts|
  {
    if opts == [] then r else ApplyOption(Configured(r, opts[..|opts| - 1]), opts[|opts| - 1])
  }

  /**
   * The flags set by the options: DefaultCLI exactly when some option is
   * WithDefaultCLI, CLIEnabled when some option is WithCLI or WithDefaultCLI
   * (or it was already enabled); name and handler are never touched.
   */
  lemma {:induction false} ConfiguredFlags(r: Reasoner, opts: seq<ReasonerOption>)
    ensures Configured(r, opts).name == r.name && Configured(r, opts).handler == r.handler
    ensures Configured(r, opts).defaultCli <==> r.defaultCli || exists i :: 0 <= i < |opts| && opts[i] == WithDefaultCli
    ensures Configured(r, opts).cliEnabled <==>
      r.cliEnabled || exists i :: 0 <= i < |opts| && (opts[i] == WithCli || opts[i] == WithDefaultCli)
    decreases |opts|
  {
    if opts != [] {
      var init := opts[..|opts| - 1];
      ConfiguredFlags(r, init);
      assert forall i :: 0 <= i < |init| ==> init[i] == opts[i];
    }
  }

  /** The metadata RegisterReasoner starts from. */
  function NewReasoner(name: string, handler: HandlerRef): Reasoner
  {
    Reasoner(name, handler, DefaultSchema, DefaultSchema, false, false, None, "")
  }

  /** What a reasoner's handler returned: a JSON value or an error message. */
  type HandlerOutcome = Result<Json>

  /** One attempt to POST a status update: a transport error or an HTTP status. */
  datatype HttpOutcome = TransportError(message: string) | Response(statusCode: int)

  predicate Delivered(o: HttpOutcome) { o.Response? && 200 <= o.statusCode < 300 }

  /** lastErr's text for a failed attempt. */
  function FailureMessage(o: HttpOutcome): string
  {
    match o
      case TransportError(m) => m
      case Response(code) => "status update returned " + IntToString(code)
  }

  const MaxStatusAttempts: nat := 5

  /** 2^n: time.Second << n in seconds. */
  function Pow2(n: nat): (r: nat)
    ensures r >= 1
  {
    if n == 0 then 1 else 2 * Pow2(n - 1)
  }

  function Sum(xs: seq<nat>): nat
  {
    if xs == [] then 0 else Sum(xs[..|xs| - 1]) + xs[|xs| - 1]
  }

  /** The backoffs 1, 2, 4, ... add up to one less than the next power of two. */
  lemma {:induction false} BackoffSum(sleeps: seq<nat>)
    requires forall k :: 0 <= k < |sleeps| ==> sleeps[k] == Pow2(k)
    ensures Sum(sleeps) == Pow2(|sleeps|) - 1
    decreases |sleeps|
  {
    if sleeps != [] {
      BackoffSum(sleeps[..|sleeps| - 1]);
    }
  }

  /** The Call target rewrite: a target without a "." is qualified with the node ID. */
  function CallTarget(nodeId: string, target: string): (t: string)
    ensures '.' in t
    ensures '.' in target ==> t == target
    ensures '.' !in target ==> t == nodeId + "." + target
  {
    if '.' in target then target
    else
      assert !HasPrefix(target, ".") by {
        if |target| > 0 { assert target[..1][0] == target[0]; }
      }
      nodeId + "." + TrimPrefix(target, ".")
  }

  /** Rewriting a rewritten target changes nothing. */
  lemma CallTargetIdempotent(nodeId: string, target: string)
    ensures CallTarget(nodeId, CallTarget(nodeId, target)) == CallTarget(nodeId, target)
  {
  }

  /** The control plane's execute endpoint for a target, under the base URL without its trailing "/". */
  function ExecuteUrl(base: string, target: string): (url: string)
    ensures HasPrefix(url, TrimSuffix(base, "/"))
    ensures HasSuffix(url, "/api/v1/execute/" + TrimPrefix(target, "/"))
  {
    var head := TrimSuffix(base, "/");
    var tail := "/api/v1/execute/" + TrimPrefix(target, "/");
    assert (head + tail)[|head + tail| - |tail|..] == tail;
    assert (head + tail)[..|head|] == head;
    head + tail
  }

  /** The headers Call sets, by name. */
  datatype CallHeader =
    | ContentType | Accept | RunIdHeader | ParentExecutionIdHeader
    | WorkflowIdHeader | SessionIdHeader | ActorIdHeader | Authorization

  /** The name each header is sent under. */
  function HeaderName(h: CallHeader): string
  {
    match h
      case ContentType => "Content-Type"
      case Accept => "Accept"
      case RunIdHeader => "X-Run-ID"
      case ParentExecutionIdHeader => "X-Parent-Execution-ID"
      case WorkflowIdHeader => "X-Workflow-ID"
      case SessionIdHeader => "X-Session-ID"
      case ActorIdHeader => "X-Actor-ID"
      case Authorization => "Authorization"
  }

  /**
   * The headers Call sets: JSON content headers and the run ID always, a
   * lineage header only for a context field that is present, and a bearer
   * token only when there is one.
   */
  function CallHeaders(ec: ExecutionContext, runId: string, token: string): (h: map<CallHeader, string>)
    ensures ContentType in h && h[ContentType] == "application/json"
    ensures Accept in h && h[Accept] == "application/json"
    ensures RunIdHeader in h && h[RunIdHeader] == runId
    ensures (ParentExecutionIdHeader in h <==> ec.executionId != "")
    ensures ec.executionId != "" ==> h[ParentExecutionIdHeader] == ec.executionId
    ensures (WorkflowIdHeader in h <==> ec.workflowId != "")
    ensures ec.workflowId != "" ==> h[WorkflowIdHeader] == ec.workflowId
    ensures (SessionIdHeader in h <==> ec.sessionId != "")
    ensures ec.sessionId != "" ==> h[SessionIdHeader] == ec.sessionId
    ensures (ActorIdHeader in h <==> ec.actorId != "")
    ensures ec.actorId != "" ==> h[ActorIdHeader] == ec.actorId
    ensures (Authorization in h <==> token != "")
    ensures token != "" ==> h[Authorization] == "Bearer " + token
  {
    var h := map[ContentType := "application/json", Accept := "application/json", RunIdHeader := runId];
    var h := if ec.executionId != "" then h[ParentExecutionIdHeader := ec.executionId] else h;
    var h := if ec.workflowId != "" then h[WorkflowIdHeader := ec.workflowId] else h;
    var h := if ec.sessionId != "" then h[SessionIdHeader := ec.sessionId] else h;
    var h := if ec.actorId != "" then h[ActorIdHeader := ec.actorId] else h;
    if token != "" then h[Authorization := "Bearer " + token] else h
  }

  /** The request Call sends: its URL and the headers it sets. */
  datatype OutgoingCall = OutgoingCall(url: string, headers: map<CallHeader, string>)

  /**
   * The response for a handler's outcome: an error is a 500 carrying its
   * message; an object result is the response as is, any other result is
   * wrapped under "result".
   */
  function HandlerResponse(out: HandlerOutcome): (r: (map<string, Json>, int))
    ensures out.Err? ==> r.1 == 500 && r.0 == map["error" := JStr(out.error)]
    ensures out.Ok? ==> r.1 == 200
    ensures out.Ok? && out.value.JObj? ==> r.0 == out.value.fields
    ensures out.Ok? && !out.value.JObj? ==> r.0 == map["result" := out.value] && "result" in r.0
  {
    match out
      case Err(msg) => (map["error" := JStr(msg)], 500)
      case Ok(JObj(fields)) => (fields, 200)
      case Ok(v) => (map["result" := v], 200)
  }

  class Agent {
    const nodeId: string
    const agentFieldUrl: string
    const token: string
    var reasoners: map<string, Reasoner>
    var defaultCliReasoner: string

    /**
     * At most one reasoner carries the DefaultCLI flag: the one the agent
     * records, which has a name.
     */
    ghost predicate Valid()
      reads this
    {
      forall r :: r in reasoners && reasoners[r].defaultCli ==> r != "" && r == defaultCliReasoner
    }

    constructor(nodeId: string, agentFieldUrl: string, token: string)
      ensures this.nodeId == nodeId && this.agentFieldUrl == agentFieldUrl && this.token == token
      ensures reasoners == map[] && defaultCliReasoner == ""
      ensures Valid()
    {
      this.nodeId := nodeId;
      this.agentFieldUrl := agentFieldUrl;
      this.token := token;
      reasoners := map[];
      defaultCliReasoner := "";
    }

    /**
     * RegisterReasoner: a nil handler panics. The options are applied in order
     * to the default metadata; a DefaultCLI flag is kept only when no other
     * name holds the default already, and then this name becomes the default.
     */
    method RegisterReasoner(name: string, handler: Option<HandlerRef>, opts: seq<ReasonerOption>)
      requires handler.Some?
      modifies this
      ensures var meta := Configured(NewReasoner(name, handler.value), opts);
        var keep := meta.defaultCli && (old(defaultCliReasoner) == "" || old(defaultCliReasoner) == name);
        reasoners == old(reasoners)[name := meta.(defaultCli := keep)]
        && defaultCliReasoner == (if keep then name else old(defaultCliReasoner))
      ensures old(defaultCliReasoner) != "" ==> defaultCliReasoner == old(defaultCliReasoner)
      ensures old(Valid()) && name != "" ==> Valid()
    {
      var meta := NewReasoner(name, handler.value);
      var i := 0;
      while i < |opts|
        invariant 0 <= i <= |opts|
        invariant meta == Configured(NewReasoner(name, handler.value), opts[..i])
      {
        assert opts[..i + 1][..i] == opts[..i];
        meta := ApplyOption(meta, opts[i]);
        i := i + 1;
      }
      assert opts[..i] == opts;
      if meta.defaultCli {
        if defaultCliReasoner != "" && defaultCliReasoner != name {
          meta := meta.(defaultCli := false);
        } else {
          defaultCliReasoner := name;
        }
      }
      reasoners := reasoners[name := meta];
    }

    /**
     * HandleServerlessEvent: after the optional adapter, an event naming no
     * reasoner is a 400, an unknown reasoner a 404 and a handler error a 500;
     * a handler's object result is the response as is, any other result is
     * wrapped under "result".
     */
    method HandleServerlessEvent(event: map<string, Json>,
                                 adapter: Option<map<string, Json> -> map<string, Json>>,
                                 invoke: (HandlerRef, map<string, Json>, ExecutionContext) -> HandlerOutcome,
                                 e: Entropy)
      returns (response: map<string, Json>, status: int)
      ensures var ev := if adapter.Some? then adapter.value(event) else event;
        var name := ResolveReasoner(ev);
        && (name == "" ==> status == 400 && response == map["error" := JStr("missing target or reasoner")])
        && (name != "" && name !in reasoners ==> status == 404 && response == map["error" := JStr("reasoner not found")])
        && (name != "" && name in reasoners ==>
              var out := invoke(reasoners[name].handler, ExtractInput(Some(ev)),
                                ContextFromServerless(NoHeaders, ev, nodeId, name, e));
              (response, status) == HandlerResponse(out))
      ensures status == 200 || status == 400 || status == 404 || status == 500
    {
      var ev := event;
      if adapter.Some? {
        ev := adapter.value(event);
      }
      var reasoner := RouteEvent(ev);
      if reasoner == "" {
        return map["error" := JStr("missing target or reasoner")], 400;
      }
      var input := ExtractInputFromServerless(Some(ev));
      var execCtx := ContextFromServerless(NoHeaders, ev, nodeId, reasoner, e);
      if reasoner !in reasoners {
        return map["error" := JStr("reasoner not found")], 404;
      }
      var out := invoke(reasoners[reasoner].handler, input, execCtx);
      response, status := HandlerResponse(out).0, HandlerResponse(out).1;
    }

    /**
     * Call, up to sending the request: a blank AgentField URL is an error;
     * otherwise the target is qualified with the node ID and the run is the
     * context's or a fresh one. Encoding the payload and building the request
     * can then fail: `marshalError` is what json.Marshal reports for the input
     * and `buildError` what http.NewRequestWithContext reports for the URL.
     * The request carries the headers of CallHeaders.
     */
    function CallRequest(ec: ExecutionContext, target: string, e: Entropy,
                         marshalError: Option<string>, buildError: Option<string>): (r: Result<OutgoingCall>)
      ensures TrimSpace(agentFieldUrl) == "" ==> r == Err("AgentFieldURL is required to call other reasoners")
      ensures TrimSpace(agentFieldUrl) != "" && marshalError.Some? ==>
        r == Err("marshal call payload: " + marshalError.value)
      ensures TrimSpace(agentFieldUrl) != "" && marshalError.None? && buildError.Some? ==>
        r == Err("build request: " + buildError.value)
      ensures r.Ok? <==> TrimSpace(agentFieldUrl) != "" && marshalError.None? && buildError.None?
      ensures r.Ok? ==> HasSuffix(r.value.url, "/api/v1/execute/" + TrimPrefix(CallTarget(nodeId, target), "/"))
      ensures r.Ok? ==> RunIdHeader in r.value.headers && r.value.headers[RunIdHeader] != ""
      ensures r.Ok? && ec.runId != "" ==> r.value.headers[RunIdHeader] == ec.runId
      ensures r.Ok? ==> r.value.headers == CallHeaders(ec, r.value.headers[RunIdHeader], token)
    {
      if TrimSpace(agentFieldUrl) == "" then Err("AgentFieldURL is required to call other reasoners")
      else
        var t := CallTarget(nodeId, target);
        var runId := if ec.runId != "" then ec.runId else RunIdFrom(e);
        if marshalError.Some? then Err("marshal call payload: " + marshalError.value)
        else if buildError.Some? then Err("build request: " + buildError.value)
        else Ok(OutgoingCall(ExecuteUrl(agentFieldUrl, t), CallHeaders(ec, runId, token)))
    }
  }

  /**
   * The postExecutionStatus retry loop. `buildError` is what building the
   * request reports (the URL is the same on every attempt, so it can only fail
   * on the first); `outcomes[k]` is what attempt k got back. At most five
   * attempts, stopping at the first 2xx; after a failed attempt other than the
   * last it sleeps 2^attempt seconds; when all five fail it returns the last
   * failure.
   */
  method PostExecutionStatus(buildError: Option<string>, outcomes: seq<HttpOutcome>)
    returns (err: Option<string>, attempts: nat, sleeps: seq<nat>)
    requires |outcomes| >= MaxStatusAttempts
    ensures buildError.Some? ==> err == Some("create status request: " + buildError.value) && attempts == 0 && sleeps == []
    ensures buildError.None? ==> 1 <= attempts <= MaxStatusAttempts
    ensures buildError.None? ==> forall k :: 0 <= k < attempts - 1 ==> !Delivered(outcomes[k])
    ensures buildError.None? && attempts < MaxStatusAttempts ==> Delivered(outcomes[attempts - 1])
    ensures buildError.None? ==> (err.None? <==> Delivered(outcomes[attempts - 1]))
    ensures buildError.None? && err.Some? ==> err.value == FailureMessage(outcomes[attempts - 1])
    ensures buildError.None? ==> |sleeps| == attempts - 1
    ensures forall k :: 0 <= k < |sleeps| ==> sleeps[k] == Pow2(k)
  {
    if buildError.Some? {
      return Some("create status request: " + buildError.value), 0, [];
    }
    var lastErr: Option<string> := None;
    sleeps := [];
    var attempt := 0;
    while attempt < MaxStatusAttempts
      invariant 0 <= attempt <= MaxStatusAttempts
      invariant forall k :: 0 <= k < attempt ==> !Delivered(outcomes[k])
      invariant |sleeps| == (if attempt == MaxStatusAttempts then attempt - 1 else attempt)
      invariant forall k :: 0 <= k < |sleeps| ==> sleeps[k] == Pow2(k)
      invariant attempt > 0 ==> lastErr == Some(FailureMessage(outcomes[attempt - 1]))
    {
      var o := outcomes[attempt];
      if Delivered(o) {
        return None, attempt + 1, sleeps;
      }
      lastErr := Some(FailureMessage(o));
      if attempt < MaxStatusAttempts - 1 {
        sleeps := sleeps + [Pow2(attempt)];
      }
      attempt := attempt + 1;
    }
    return lastErr, attempt, sleeps;
  }

  /** Between the attempts of one status update the agent sleeps at most 15 seconds. */
  lemma StatusBackoffBound(sleeps: seq<nat>)
    requires |sleeps| <= MaxStatusAttempts - 1
    requires forall k :: 0 <= k < |sleeps| ==> sleeps[k] == Pow2(k)
    ensures Sum(sleeps) <= 15
  {
    BackoffSum(sleeps);
    assert Pow2(|sleeps|) <= Pow2(4) by { Pow2Mono(|sleeps|, 4); }
  }

  lemma {:induction false} Pow2Mono(a: nat, b: nat)
    requires a <= b
    ensures Pow2(a) <= Pow2(b)
    decreases b
  {
    if a < b {
      Pow2Mono(a, b - 1);
    }
  }
}
