/**
 * Pure helpers of the execution gateway (control-plane/internal/handlers/execute.go):
 * target parsing and resolution, agent URL selection, the serverless payload,
 * request-header reading, log truncation and workflow hierarchy derivation.
 */
module Gateway {
  import opened Text
  import opened Exec

  // ---------------------------------------------------------------------------
  // Targets
  // ---------------------------------------------------------------------------

  /** A parsed `node_id.reasoner_name` target; TargetType is filled in later. */
  datatype Target = Target(nodeId: string, targetName: string, targetType: string)

  /**
   * parseTarget: the value must be non-empty and split on "." into exactly two
   * parts (either part may be empty). On success the parts glue back to the input.
   */
  function ParseTarget(value: string): (r: Result<Target>)
    ensures value == "" ==> r == Err("target is required")
    ensures r.Ok? <==> value != "" && Count(value, '.') == 1
    ensures r.Ok? ==> r.value.nodeId + "." + r.value.targetName == value && r.value.targetType == ""
    ensures r.Ok? ==> '.' !in r.value.nodeId && '.' !in r.value.targetName
    ensures value != "" && r.Err? ==> r.error == "target must be in format 'node_id.reasoner_name'"
  {
    if value == "" then Err("target is required")
    else
      var parts := Split(value, '.');
      SplitLength(value, '.');
      JoinSplit(value, '.');
      if |parts| != 2 then Err("target must be in format 'node_id.reasoner_name'")
      else
        assert Join(parts, '.') == parts[0] + ['.'] + parts[1];
        Ok(Target(parts[0], parts[1], ""))
  }

  /** In `a + "." + b` with a dot-free `a`, the first dot sits right after `a`. */
  lemma {:induction false} FirstDot(a: string, b: string)
    requires '.' !in a
    ensures IndexOfChar(a + "." + b, '.') == Some(|a|)
  {
    var s := a + "." + b;
    if a != [] {
      assert s[1..] == a[1..] + "." + b;
      FirstDot(a[1..], b);
    }
  }

  lemma {:induction false} DotFreeGlueUnique(a: string, b: string, c: string, d: string)
    requires '.' !in a && '.' !in c
    requires a + "." + b == c + "." + d
    ensures a == c && b == d
  {
    var s := a + "." + b;
    FirstDot(a, b);
    FirstDot(c, d);
    assert |a| == |c|;
    assert a == s[..|a|] == c;
    assert b == s[|a| + 1..] == d;
  }

  /** Round trip: a dot-free node and name glued with "." parse back to themselves. */
  lemma {:induction false} ParseTargetRoundTrip(node: string, name: string)
    requires '.' !in node && '.' !in name
    ensures ParseTarget(node + "." + name) == Ok(Target(node, name, ""))
  {
    var v := node + "." + name;
    CountAppend(node + ".", name, '.');
    CountAppend(node, ".", '.');
    CountZero(node, '.');
    CountZero(name, '.');
    assert Count(".", '.') == 1 by { assert "."[1..] == []; }
    var r := ParseTarget(v);
    DotFreeGlueUnique(r.value.nodeId, r.value.targetName, node, name);
  }

  /** The IDs an agent node advertises, with its addressing data. */
  datatype AgentNode = AgentNode(
    id: string,
    reasonerIds: seq<string>,
    skillIds: seq<string>,
    baseUrl: string,
    deploymentType: string,
    invocationUrl: Option<string>)

  /** Linear scan for an ID (the `for _, x := range ... if x.ID == name` loop). */
  function HasId(ids: seq<string>, name: string): (found: bool)
    ensures found <==> name in ids
  {
    if ids == [] then false else ids[0] == name || HasId(ids[1..], name)
  }

  /**
   * determineTargetType: reasoners are looked at first, so a name that is both a
   * reasoner and a skill resolves to "reasoner"; a name that is neither is an error.
   */
  function DetermineTargetType(agent: AgentNode, name: string): (r: Result<string>)
    ensures r == Ok("reasoner") <==> name in agent.reasonerIds
    ensures r == Ok("skill") <==> name !in agent.reasonerIds && name in agent.skillIds
    ensures r.Err? <==> name !in agent.reasonerIds && name !in agent.skillIds
  {
    if HasId(agent.reasonerIds, name) then Ok("reasoner")
    else if HasId(agent.skillIds, name) then Ok("skill")
    else Err("target '" + name + "' not found on agent '" + agent.id + "'")
  }

  // ---------------------------------------------------------------------------
  // Agent URL
  // ---------------------------------------------------------------------------

  /**
   * buildAgentURL: nil agent gives ""; a non-empty invocation URL always wins; a
   * serverless agent is called at base + "/execute" ("" without a base); any
   * other agent at base + "/skills/<name>" for skills and base + "/reasoners/<name>"
   * otherwise. One trailing "/" of the base is dropped.
   */
  function BuildAgentURL(agent: Option<AgentNode>, target: Target): (r: string)
    ensures agent.None? ==> r == ""
    ensures agent.Some? && agent.value.invocationUrl.Some? && agent.value.invocationUrl.value != ""
      ==> r == agent.value.invocationUrl.value
    ensures agent.Some? && !(agent.value.invocationUrl.Some? && agent.value.invocationUrl.value != "") ==>
      var base := TrimSuffix(agent.value.baseUrl, "/");
      if agent.value.deploymentType == "serverless" then
        r == (if base == "" then "" else base + "/execute")
      else if target.targetType == "skill" then r == base + "/skills/" + target.targetName
      else r == base + "/reasoners/" + target.targetName
  {
    match agent
      case None => ""
      case Some(a) =>
        if a.invocationUrl.Some? && a.invocationUrl.value != "" then a.invocationUrl.value
        else if a.deploymentType == "serverless" then
          var base := TrimSuffix(a.baseUrl, "/");
          if base == "" then "" else base + "/execute"
        else
          var base := TrimSuffix(a.baseUrl, "/");
          if target.targetType == "skill" then base + "/skills/" + target.targetName
          else base + "/reasoners/" + target.targetName
  }

  /**
   * A base URL written with or without one trailing "/" addresses the same
   * endpoint, and a non-serverless agent without invocation URL is always
   * addressed at a path that ends in the target's name.
   */
  lemma BuildAgentURLTrailingSlash(a: AgentNode, target: Target)
    requires !HasSuffix(a.baseUrl, "/")
    ensures BuildAgentURL(Some(a.(baseUrl := a.baseUrl + "/")), target) == BuildAgentURL(Some(a), target)
    ensures a.deploymentType != "serverless" && (a.invocationUrl.None? || a.invocationUrl.value == "")
      ==> HasSuffix(BuildAgentURL(Some(a), target), "/" + target.targetName)
  {
    var b := a.baseUrl + "/";
    assert HasSuffix(b, "/");
    assert TrimSuffix(b, "/") == a.baseUrl;
    var r := BuildAgentURL(Some(a), target);
    if a.deploymentType != "serverless" && (a.invocationUrl.None? || a.invocationUrl.value == "") {
      var base := TrimSuffix(a.baseUrl, "/");
      if target.targetType == "skill" {
        assert r == (base + "/skills") + ("/" + target.targetName);
      } else {
        assert r == (base + "/reasoners") + ("/" + target.targetName);
      }
    }
  }

  // ---------------------------------------------------------------------------
  // Request headers
  // ---------------------------------------------------------------------------

  /** The execution-related request headers, trimmed; blank optional ones are nil. */
  datatype ExecutionHeaders = ExecutionHeaders(
    runId: string,
    parentExecutionId: Option<string>,
    sessionId: Option<string>,
    actorId: Option<string>)

  /**
   * gin's GetHeader: a missing header reads as "". The map is keyed by
   * canonical header name: net/http stores each received header under its
   * canonical form and GetHeader canonicalises the name it is asked for, so a
   * header sent as "x-run-id" is found under "X-Run-ID". The canonicalisation
   * itself is not modelled; the map stands for the request after it.
   */
  function GetHeader(headers: map<string, string>, name: string): string
  {
    if name in headers then headers[name] else ""
  }

  /** A trimmed optional header: nil when blank. */
  function OptionalHeader(raw: string): (r: Option<string>)
    ensures r.None? <==> TrimSpace(raw) == ""
    ensures r.Some? ==> r.value == TrimSpace(raw)
  {
    var t := TrimSpace(raw);
    if t != "" then Some(t) else None
  }

  /**
   * readExecutionHeaders: each value is whitespace-trimmed; the parent, session
   * and actor IDs become nil when blank, the run ID stays a (possibly empty) string.
   */
  function ReadExecutionHeaders(headers: map<string, string>): (h: ExecutionHeaders)
    ensures h.runId == TrimSpace(GetHeader(headers, "X-Run-ID"))
    ensures h.parentExecutionId == OptionalHeader(GetHeader(headers, "X-Parent-Execution-ID"))
    ensures h.sessionId == OptionalHeader(GetHeader(headers, "X-Session-ID"))
    ensures h.actorId == OptionalHeader(GetHeader(headers, "X-Actor-ID"))
  {
    ExecutionHeaders(
      TrimSpace(GetHeader(headers, "X-Run-ID")),
      OptionalHeader(GetHeader(headers, "X-Parent-Execution-ID")),
      OptionalHeader(GetHeader(headers, "X-Session-ID")),
      OptionalHeader(GetHeader(headers, "X-Actor-ID")))
  }

  /** Every value read from the headers is already trimmed, and optional ones are never "". */
  lemma {:induction false} ReadExecutionHeadersNormalised(headers: map<string, string>)
    ensures var h := ReadExecutionHeaders(headers);
      TrimSpace(h.runId) == h.runId
      && (h.parentExecutionId.Some? ==> h.parentExecutionId.value != "" && TrimSpace(h.parentExecutionId.value) == h.parentExecutionId.value)
      && (h.sessionId.Some? ==> h.sessionId.value != "" && TrimSpace(h.sessionId.value) == h.sessionId.value)
      && (h.actorId.Some? ==> h.actorId.value != "" && TrimSpace(h.actorId.value) == h.actorId.value)
  {
    var h := ReadExecutionHeaders(headers);
    TrimSpaceIdempotent(GetHeader(headers, "X-Run-ID"));
    OptionalHeaderNormalised(GetHeader(headers, "X-Parent-Execution-ID"));
    OptionalHeaderNormalised(GetHeader(headers, "X-Session-ID"));
    OptionalHeaderNormalised(GetHeader(headers, "X-Actor-ID"));
  }

  lemma OptionalHeaderNormalised(raw: string)
    ensures OptionalHeader(raw).Some? ==>
      OptionalHeader(raw).value != "" && TrimSpace(OptionalHeader(raw).value) == OptionalHeader(raw).value
  {
    TrimSpaceIdempotent(raw);
  }

  // ---------------------------------------------------------------------------
  // Serverless payload
  // ---------------------------------------------------------------------------

  predicate Present(o: Option<string>) { o.Some? && o.value != "" }

  /** The execution_context object sent to a serverless agent. */
  function ExecContext(exec: Execution, headers: ExecutionHeaders): (ctx: map<string, Json>)
    ensures {"execution_id", "run_id", "workflow_id"} <= ctx.Keys
    ensures ctx["execution_id"] == JStr(exec.executionId)
    ensures ctx["run_id"] == JStr(exec.runId) && ctx["workflow_id"] == JStr(exec.runId)
    ensures "parent_execution_id" in ctx <==> Present(headers.parentExecutionId)
    ensures "session_id" in ctx <==> Present(headers.sessionId)
    ensures "actor_id" in ctx <==> Present(headers.actorId)
    ensures Present(headers.parentExecutionId) ==> ctx["parent_execution_id"] == JStr(headers.parentExecutionId.value)
    ensures Present(headers.sessionId) ==> ctx["session_id"] == JStr(headers.sessionId.value)
    ensures Present(headers.actorId) ==> ctx["actor_id"] == JStr(headers.actorId.value)
    ensures ctx.Keys <= {"execution_id", "run_id", "workflow_id", "parent_execution_id", "session_id", "actor_id"}
  {
    var base := map["execution_id" := JStr(exec.executionId), "run_id" := JStr(exec.runId), "workflow_id" := JStr(exec.runId)];
    var withParent := if Present(headers.parentExecutionId) then base["parent_execution_id" := JStr(headers.parentExecutionId.value)] else base;
    var withSession := if Present(headers.sessionId) then withParent["session_id" := JStr(headers.sessionId.value)] else withParent;
    if Present(headers.actorId) then withSession["actor_id" := JStr(headers.actorId.value)] else withSession
  }

  /**
   * buildServerlessPayload: without a target or execution only the input is sent;
   * otherwise the target name is repeated under path/target/reasoner, the input
   * and execution context are attached, and "type"/"skill" are added by target type.
   */
  function BuildServerlessPayload(target: Option<Target>, exec: Option<Execution>, headers: ExecutionHeaders, input: Json)
    : (p: map<string, Json>)
    ensures target.None? || exec.None? ==> p == map["input" := input]
    ensures target.Some? && exec.Some? ==>
      var name := target.value.targetName;
      var kind := target.value.targetType;
      && p.Keys == {"path", "target", "reasoner", "input", "execution_context"}
                   + (if kind != "" then {"type"} else {}) + (if kind == "skill" then {"skill"} else {})
      && p["path"] == JStr("/execute/" + name)
      && p["target"] == JStr(name) && p["reasoner"] == JStr(name)
      && p["input"] == input
      && p["execution_context"] == JObj(ExecContext(exec.value, headers))
      && (kind != "" ==> p["type"] == JStr(kind))
      && (kind == "skill" ==> p["skill"] == JStr(name))
  {
    if target.None? || exec.None? then map["input" := input]
    else
      var name := target.value.targetName;
      var kind := target.value.targetType;
      var payload := map[
        "path" := JStr("/execute/" + name),
        "target" := JStr(name),
        "reasoner" := JStr(name),
        "input" := input,
        "execution_context" := JObj(ExecContext(exec.value, headers))];
      if kind != "" then
        var typed := payload["type" := JStr(kind)];
        if kind == "skill" then typed["skill" := JStr(name)] else typed
      else payload
  }

  // ---------------------------------------------------------------------------
  // Log truncation
  // ---------------------------------------------------------------------------

  const LogLimit: nat := 1024

  /** truncateForLog: bodies up to 1024 bytes unchanged, longer ones cut to 1024 bytes + "...". */
  function TruncateForLog(body: seq<byte>): (r: seq<byte>)
    ensures |body| <= LogLimit ==> r == body
    ensures |body| > LogLimit ==> |r| == LogLimit + 3 && r[..LogLimit] == body[..LogLimit] && r[LogLimit..] == AsciiBytes("...")
    ensures |r| <= LogLimit + 3
  {
    if |body| <= LogLimit then body else body[..LogLimit] + AsciiBytes("...")
  }

  // ---------------------------------------------------------------------------
  // Workflow hierarchy
  // ---------------------------------------------------------------------------

  /** The stored workflow-execution fields the hierarchy is derived from. */
  datatype WorkflowExecution = WorkflowExecution(workflowId: string, rootWorkflowId: Option<string>, workflowDepth: int)

  datatype Hierarchy = Hierarchy(rootWorkflowId: string, parentWorkflowId: Option<string>, depth: int)

  /**
   * deriveWorkflowHierarchy: with no parent pointer the execution is its own root
   * at depth 0. With a parent pointer the parent is looked up: if found, the child
   * sits one level below it and inherits its root (or takes the parent's workflow
   * ID as root when the parent has none); if not found, depth is 1 and the run is
   * still the root. A parent pointer to "" is looked up like any other.
   */
  function DeriveWorkflowHierarchy(exec: Execution, store: map<string, WorkflowExecution>): (h: Hierarchy)
    ensures exec.parentExecutionId.None? ==> h == Hierarchy(exec.runId, None, 0)
    ensures exec.parentExecutionId.Some? && exec.parentExecutionId.value in store ==>
      var p := store[exec.parentExecutionId.value];
      && h.depth == p.workflowDepth + 1
      && h.parentWorkflowId == Some(p.workflowId)
      && h.rootWorkflowId == (if p.rootWorkflowId.Some? then p.rootWorkflowId.value else p.workflowId)
    ensures exec.parentExecutionId.Some? && exec.parentExecutionId.value !in store ==> h == Hierarchy(exec.runId, None, 1)
  {
    match exec.parentExecutionId
      case None => Hierarchy(exec.runId, None, 0)
      case Some(pid) =>
        if pid in store then
          var p := store[pid];
          Hierarchy(if p.rootWorkflowId.Some? then p.rootWorkflowId.value else p.workflowId, Some(p.workflowId), p.workflowDepth + 1)
        else Hierarchy(exec.runId, None, 1)
  }

  /**
   * When every stored depth is non-negative, a derived depth is 0 exactly for an
   * execution without parent pointer, and the parent workflow is known only when
   * the parent was found.
   */
  lemma DepthZeroIffNoParent(exec: Execution, store: map<string, WorkflowExecution>)
    requires forall id :: id in store ==> store[id].workflowDepth >= 0
    ensures var h := DeriveWorkflowHierarchy(exec, store);
      && h.depth >= 0
      && (h.depth == 0 <==> exec.parentExecutionId.None?)
      && (h.parentWorkflowId.Some? <==> exec.parentExecutionId.Some? && exec.parentExecutionId.value in store)
  {
  }
}
