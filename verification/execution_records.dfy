/**
 * The execution-record storage layer (control-plane/internal/storage/execution_records.go):
 * how a filtered SELECT is assembled, the executions table with its
 * read-modify-write update and the stale-execution sweep, the per-run
 * aggregation, and the time and payload column conversions.
 *
 * The table is a sequence of rows with unique execution IDs; statements the
 * code sends to the database are evaluated on it directly. Times are integer
 * nanoseconds on one clock, with 0 as Go's zero time.
 */
module ExecutionRecords {
  import opened Text
  import opened Exec
  import Sorting
  import RunDepth

  // ---------------------------------------------------------------------------
  // QueryExecutionRecords: query assembly
  // ---------------------------------------------------------------------------

  /** A value bound to a `?` placeholder. */
  datatype SqlArg = TextArg(text: string) | TimeArg(time: int)

  /** types.ExecutionFilter; a nil pointer field is `None`. */
  datatype ExecutionFilter = ExecutionFilter(
    runId: Option<string>,
    executionId: Option<string>,
    parentExecutionId: Option<string>,
    agentNodeId: Option<string>,
    reasonerId: Option<string>,
    status: Option<string>,
    sessionId: Option<string>,
    actorId: Option<string>,
    limit: int,
    offset: int,
    startTime: Option<int>,
    endTime: Option<int>,
    sortBy: string,
    sortDescending: bool)

  /** The placeholder character. */
  const Placeholder: char := '?'

  lemma NoPlaceholder(s: string)
    requires Placeholder !in s
    ensures Count(s, Placeholder) == 0
  {
    CountZero(s, Placeholder);
  }

  /** The columns of the executions table this file reads, writes or sorts by. */
  datatype Column =
    | ExecutionIdCol | RunIdCol | ParentExecutionIdCol
    | AgentNodeIdCol | ReasonerIdCol | NodeIdCol
    | StatusCol | InputPayloadCol | ResultPayloadCol | ErrorMessageCol
    | InputUriCol | ResultUriCol
    | SessionIdCol | ActorIdCol
    | StartedAtCol | CompletedAtCol | DurationMsCol
    | CreatedAtCol | UpdatedAtCol

  function ColumnName(c: Column): (name: string)
    ensures Count(name, Placeholder) == 0
  {
    var name := match c
      case ExecutionIdCol => "execution_id"
      case RunIdCol => "run_id"
      case ParentExecutionIdCol => "parent_execution_id"
      case AgentNodeIdCol => "agent_node_id"
      case ReasonerIdCol => "reasoner_id"
      case NodeIdCol => "node_id"
      case StatusCol => "status"
      case InputPayloadCol => "input_payload"
      case ResultPayloadCol => "result_payload"
      case ErrorMessageCol => "error_message"
      case InputUriCol => "input_uri"
      case ResultUriCol => "result_uri"
      case SessionIdCol => "session_id"
      case ActorIdCol => "actor_id"
      case StartedAtCol => "started_at"
      case CompletedAtCol => "completed_at"
      case DurationMsCol => "duration_ms"
      case CreatedAtCol => "created_at"
      case UpdatedAtCol => "updated_at";
    NoPlaceholder(name);
    name
  }

  /** The comparison of a conjunct. */
  datatype CmpOp = Equal | AtLeast | AtMost

  function OpText(op: CmpOp): (text: string)
    ensures Count(text, Placeholder) == 0
  {
    var text := match op
      case Equal => "="
      case AtLeast => ">="
      case AtMost => "<=";
    NoPlaceholder(text);
    text
  }

  /** One WHERE conjunct `column op ?` together with the value bound to its placeholder. */
  datatype Condition = Condition(column: Column, op: CmpOp, arg: SqlArg)

  function ClauseText(c: Condition): (clause: string)
    ensures Count(clause, Placeholder) == 1
  {
    var clause := ColumnName(c.column) + " " + OpText(c.op) + " ?";
    NoPlaceholder(" ");
    assert Count(" ?", Placeholder) == 1 by {
      assert " ?"[1..] == "?";
      assert "?"[1..] == "";
    }
    CountAppend(ColumnName(c.column), " ", Placeholder);
    CountAppend(ColumnName(c.column) + " ", OpText(c.op), Placeholder);
    CountAppend(ColumnName(c.column) + " " + OpText(c.op), " ?", Placeholder);
    clause
  }

  /** A filter field: the conjunct it would add, and its value when set. */
  datatype Slot = Slot(column: Column, op: CmpOp, value: Option<SqlArg>)

  function TextValue(v: Option<string>): Option<SqlArg>
  {
    if v.Some? then Some(TextArg(v.value)) else None
  }

  function TimeValue(v: Option<int>): Option<SqlArg>
  {
    if v.Some? then Some(TimeArg(v.value)) else None
  }

  /** The filter's ten optional fields, in the order QueryExecutionRecords checks them. */
  function FilterSlots(f: ExecutionFilter): (slots: seq<Slot>)
    ensures |slots| == 10
  {
    [ Slot(ExecutionIdCol, Equal, TextValue(f.executionId)),
      Slot(RunIdCol, Equal, TextValue(f.runId)),
      Slot(ParentExecutionIdCol, Equal, TextValue(f.parentExecutionId)),
      Slot(AgentNodeIdCol, Equal, TextValue(f.agentNodeId)),
      Slot(ReasonerIdCol, Equal, TextValue(f.reasonerId)),
      Slot(StatusCol, Equal, TextValue(f.status)),
      Slot(SessionIdCol, Equal, TextValue(f.sessionId)),
      Slot(ActorIdCol, Equal, TextValue(f.actorId)),
      Slot(StartedAtCol, AtLeast, TimeValue(f.startTime)),
      Slot(StartedAtCol, AtMost, TimeValue(f.endTime)) ]
  }

  /** The conjuncts of the set slots, in slot order. */
  function SetSlots(slots: seq<Slot>): (cs: seq<Condition>)
    ensures |cs| <= |slots|
  {
    if slots == [] then []
    else
      var last := slots[|slots| - 1];
      SetSlots(slots[..|slots| - 1])
        + (if last.value.Some? then [Condition(last.column, last.op, last.value.value)] else [])
  }

  /** How many slots are set. */
  function SetCount(slots: seq<Slot>): nat
  {
    |set k | 0 <= k < |slots| && slots[k].value.Some?|
  }

  /** The WHERE conjuncts of a filter: one per set field, in the fixed field order. */
  function Conditions(f: ExecutionFilter): seq<Condition>
  {
    SetSlots(FilterSlots(f))
  }

  /** A set slot's conjunct. */
  function SlotCondition(s: Slot): Condition
    requires s.value.Some?
  {
    Condition(s.column, s.op, s.value.value)
  }

  /** Each set slot yields exactly one conjunct, with that slot's column, comparison and value. */
  lemma {:induction false} SetSlotsExact(slots: seq<Slot>)
    ensures |SetSlots(slots)| == SetCount(slots)
    ensures forall c :: c in SetSlots(slots) <==>
      exists k :: 0 <= k < |slots| && slots[k].value.Some? && c == Condition(slots[k].column, slots[k].op, slots[k].value.value)
  {
    SetSlotsCount(slots);
    SetSlotsSound(slots);
    SetSlotsComplete(slots);
  }

  lemma {:induction false} SetSlotsCount(slots: seq<Slot>)
    ensures |SetSlots(slots)| == SetCount(slots)
  {
    if slots != [] {
      var n := |slots| - 1;
      var init := slots[..n];
      SetSlotsCount(init);
      var setInit := set k | 0 <= k < n && init[k].value.Some?;
      var setAll := set k | 0 <= k < |slots| && slots[k].value.Some?;
      assert setAll == setInit + (if slots[n].value.Some? then {n} else {});
    }
  }

  lemma {:induction false} SetSlotsSound(slots: seq<Slot>)
    ensures forall c :: c in SetSlots(slots) ==>
      exists k :: 0 <= k < |slots| && slots[k].value.Some? && c == SlotCondition(slots[k])
  {
    if slots != [] {
      var n := |slots| - 1;
      var init := slots[..n];
      SetSlotsSound(init);
      forall c | c in SetSlots(slots)
        ensures exists k :: 0 <= k < |slots| && slots[k].value.Some? && c == SlotCondition(slots[k])
      {
        if c in SetSlots(init) {
          var k :| 0 <= k < n && init[k].value.Some? && c == SlotCondition(init[k]);
          assert slots[k] == init[k];
        } else {
          assert slots[n].value.Some? && c == SlotCondition(slots[n]);
        }
      }
    }
  }

  lemma {:induction false} SetSlotsComplete(slots: seq<Slot>)
    ensures forall k :: 0 <= k < |slots| && slots[k].value.Some? ==> SlotCondition(slots[k]) in SetSlots(slots)
  {
    if slots != [] {
      var n := |slots| - 1;
      var init := slots[..n];
      SetSlotsComplete(init);
      assert SetSlots(slots) == SetSlots(init)
        + (if slots[n].value.Some? then [SlotCondition(slots[n])] else []);
      forall k | 0 <= k < |slots| && slots[k].value.Some?
        ensures SlotCondition(slots[k]) in SetSlots(slots)
      {
        if k < n {
          assert init[k] == slots[k];
        }
      }
    }
  }

  function ClausesOf(cs: seq<Condition>): (clauses: seq<string>)
    ensures |clauses| == |cs|
    ensures forall k :: 0 <= k < |cs| ==> clauses[k] == ClauseText(cs[k])
  {
    seq(|cs|, k requires 0 <= k < |cs| => ClauseText(cs[k]))
  }

  function ArgsOf(cs: seq<Condition>): (args: seq<SqlArg>)
    ensures |args| == |cs|
    ensures forall k :: 0 <= k < |cs| ==> args[k] == cs[k].arg
  {
    seq(|cs|, k requires 0 <= k < |cs| => cs[k].arg)
  }

  /** The columns every execution SELECT returns, in scan order. */
  const SelectedColumns: seq<Column> := [
    ExecutionIdCol, RunIdCol, ParentExecutionIdCol,
    AgentNodeIdCol, ReasonerIdCol, NodeIdCol,
    StatusCol, InputPayloadCol, ResultPayloadCol, ErrorMessageCol,
    InputUriCol, ResultUriCol,
    SessionIdCol, ActorIdCol,
    StartedAtCol, CompletedAtCol, DurationMsCol,
    CreatedAtCol, UpdatedAtCol]

  function SelectExecutions(): (sql: string)
    ensures Count(sql, Placeholder) == 0
  {
    var names := seq(|SelectedColumns|, k requires 0 <= k < |SelectedColumns| => ColumnName(SelectedColumns[k]));
    NoPlaceholder(", ");
    CountJoinWith(names, ", ", Placeholder, 0);
    NoPlaceholder("SELECT ");
    NoPlaceholder(" FROM executions");
    CountAppend("SELECT ", JoinWith(names, ", "), Placeholder);
    CountAppend("SELECT " + JoinWith(names, ", "), " FROM executions", Placeholder);
    "SELECT " + JoinWith(names, ", ") + " FROM executions"
  }

  /** " WHERE " and the conjuncts joined by " AND ", or nothing without conjuncts. */
  function WhereSql(cs: seq<Condition>): (s: string)
    ensures cs == [] <==> s == ""
    ensures Count(s, Placeholder) == |cs|
  {
    if cs == [] then ""
    else
      NoPlaceholder(" AND ");
      CountJoinWith(ClausesOf(cs), " AND ", Placeholder, 1);
      NoPlaceholder(" WHERE ");
      CountAppend(" WHERE ", JoinWith(ClausesOf(cs), " AND "), Placeholder);
      " WHERE " + JoinWith(ClausesOf(cs), " AND ")
  }

  /** The columns a caller may sort by; anything else sorts by started_at. */
  const SortableColumns: seq<Column> := [
    StatusCol, DurationMsCol, AgentNodeIdCol, ReasonerIdCol,
    ExecutionIdCol, RunIdCol, CreatedAtCol, UpdatedAtCol]

  function OrderColumn(sortBy: string): (col: Column)
    ensures col in SortableColumns || col == StartedAtCol
    ensures col in SortableColumns ==> ColumnName(col) == sortBy
    ensures (forall c :: c in SortableColumns ==> ColumnName(c) != sortBy) ==> col == StartedAtCol
  {
    if sortBy == "status" then StatusCol
    else if sortBy == "duration_ms" then DurationMsCol
    else if sortBy == "agent_node_id" then AgentNodeIdCol
    else if sortBy == "reasoner_id" then ReasonerIdCol
    else if sortBy == "execution_id" then ExecutionIdCol
    else if sortBy == "run_id" then RunIdCol
    else if sortBy == "created_at" then CreatedAtCol
    else if sortBy == "updated_at" then UpdatedAtCol
    else StartedAtCol
  }

  function OrderDirection(descending: bool): (dir: string)
    ensures dir == "DESC" <==> descending
    ensures dir == "ASC" <==> !descending
    ensures Count(dir, Placeholder) == 0
  {
    var dir := if descending then "DESC" else "ASC";
    NoPlaceholder(dir);
    dir
  }

  function OrderBySql(sortBy: string, descending: bool): (s: string)
    ensures Count(s, Placeholder) == 0
  {
    var col := ColumnName(OrderColumn(sortBy));
    var dir := OrderDirection(descending);
    NoPlaceholder(" ORDER BY ");
    NoPlaceholder(" ");
    CountAppend(" ORDER BY ", col, Placeholder);
    CountAppend(" ORDER BY " + col, " ", Placeholder);
    CountAppend(" ORDER BY " + col + " ", dir, Placeholder);
    " ORDER BY " + col + " " + dir
  }

  /**
   * A paging clause, `keyword` followed by the number: written only for a
   * positive number, and never a placeholder (the number is formatted into
   * the statement text, not bound).
   */
  function PagingSql(keyword: string, n: int): (s: string)
    requires Placeholder !in keyword
    ensures s == "" <==> n <= 0
    ensures Count(s, Placeholder) == 0
  {
    if n > 0 then
      NoPlaceholder(NatToString(n));
      NoPlaceholder(keyword);
      CountAppend(keyword, NatToString(n), Placeholder);
      keyword + NatToString(n)
    else ""
  }

  /** The paging keywords are plain text. */
  lemma PagingKeywordsPlain()
    ensures Placeholder !in " LIMIT " && Placeholder !in " OFFSET "
  {
  }

  /**
   * The WHERE conjuncts and their bound values, appended field by field:
   * each set field contributes one conjunct and one value at the same position.
   */
  method BuildWhere(f: ExecutionFilter) returns (where: seq<string>, args: seq<SqlArg>)
    ensures where == ClausesOf(Conditions(f)) && args == ArgsOf(Conditions(f))
  {
    var slots := FilterSlots(f);
    where, args := [], [];
    var i := 0;
    while i < |slots|
      invariant 0 <= i <= |slots|
      invariant where == ClausesOf(SetSlots(slots[..i])) && args == ArgsOf(SetSlots(slots[..i]))
    {
      where, args := AppendSlot(slots, i, where, args);
      i := i + 1;
    }
    assert slots[..i] == slots;
  }

  /** One field's step: a set slot appends its conjunct and its value. */
  method AppendSlot(slots: seq<Slot>, i: nat, where: seq<string>, args: seq<SqlArg>)
    returns (where': seq<string>, args': seq<SqlArg>)
    requires i < |slots|
    requires where == ClausesOf(SetSlots(slots[..i])) && args == ArgsOf(SetSlots(slots[..i]))
    ensures where' == ClausesOf(SetSlots(slots[..i + 1])) && args' == ArgsOf(SetSlots(slots[..i + 1]))
  {
    assert slots[..i + 1][..i] == slots[..i];
    var slot := slots[i];
    where', args' := where, args;
    if slot.value.Some? {
      var c := Condition(slot.column, slot.op, slot.value.value);
      where' := where + [ClauseText(c)];
      args' := args + [slot.value.value];
    }
  }

  /**
   * QueryExecutionRecords' statement text and bound values. The statement
   * carries exactly as many placeholders as there are bound values, one per
   * set filter field; it sorts by a whitelisted column, descending only when
   * asked, and pages only with a positive limit or offset.
   */
  method BuildExecutionQuery(f: ExecutionFilter) returns (query: string, args: seq<SqlArg>)
    ensures args == ArgsOf(Conditions(f)) && |args| == SetCount(FilterSlots(f))
    ensures query == SelectExecutions() + WhereSql(Conditions(f))
      + OrderBySql(f.sortBy, f.sortDescending) + PagingSql(" LIMIT ", f.limit) + PagingSql(" OFFSET ", f.offset)
    ensures Count(query, Placeholder) == |args|
  {
    PagingKeywordsPlain();
    var where;
    where, args := BuildWhere(f);
    SetSlotsExact(FilterSlots(f));
    var whereSql := "";
    if |where| > 0 {
      whereSql := " WHERE " + JoinWith(where, " AND ");
    }
    assert whereSql == WhereSql(Conditions(f));
    var orderColumn := ColumnName(OrderColumn(f.sortBy));
    var orderDirection := "DESC";
    if !f.sortDescending {
      orderDirection := "ASC";
    }
    var orderSql := " ORDER BY " + orderColumn + " " + orderDirection;
    var limitSql := "";
    if f.limit > 0 {
      limitSql := " LIMIT " + NatToString(f.limit);
    }
    var offsetSql := "";
    if f.offset > 0 {
      offsetSql := " OFFSET " + NatToString(f.offset);
    }
    assert orderSql == OrderBySql(f.sortBy, f.sortDescending);
    assert limitSql == PagingSql(" LIMIT ", f.limit) && offsetSql == PagingSql(" OFFSET ", f.offset);
    query := SelectExecutions() + whereSql + orderSql + limitSql + offsetSql;
    QueryPlaceholders(SelectExecutions(), whereSql, orderSql, limitSql, offsetSql);
  }

  /** Only the WHERE part of a query holds placeholders. */
  lemma QueryPlaceholders(a: string, b: string, c: string, d: string, e: string)
    requires Count(a, Placeholder) == 0 && Count(c, Placeholder) == 0
    requires Count(d, Placeholder) == 0 && Count(e, Placeholder) == 0
    ensures Count(a + b + c + d + e, Placeholder) == Count(b, Placeholder)
  {
    CountAppend(a, b, Placeholder);
    CountAppend(a + b, c, Placeholder);
    CountAppend(a + b + c, d, Placeholder);
    CountAppend(a + b + c + d, e, Placeholder);
  }

  // ---------------------------------------------------------------------------
  // Rows of the executions table
  // ---------------------------------------------------------------------------

  /**
   * bytesOrNil: an empty payload is written as NULL. Reading the column back
   * as scanExecution does gives the payload again.
   */
  function BytesOrNil(raw: seq<byte>): (col: Option<seq<byte>>)
    ensures col.None? <==> |raw| == 0
    ensures col.Some? ==> col.value == raw
    ensures ScanPayload(col) == raw
  {
    if |raw| == 0 then None else Some(raw)
  }

  /** A payload column as scanExecution reads it: NULL is an empty payload. */
  function ScanPayload(col: Option<seq<byte>>): seq<byte>
  {
    if col.None? then [] else col.value
  }

  /** One row of the executions table; payload columns are nullable blobs and notes a JSON column. */
  datatype ExecutionRow = ExecutionRow(
    executionId: string,
    runId: string,
    parentExecutionId: Option<string>,
    agentNodeId: string,
    reasonerId: string,
    nodeId: string,
    status: string,
    inputPayload: Option<seq<byte>>,
    resultPayload: Option<seq<byte>>,
    errorMessage: Option<string>,
    inputUri: Option<string>,
    resultUri: Option<string>,
    sessionId: Option<string>,
    actorId: Option<string>,
    startedAt: int,
    completedAt: Option<int>,
    durationMs: Option<int>,
    createdAt: int,
    updatedAt: int,
    notes: Option<seq<Note>>)

  /** scanExecution as written: the nineteen selected columns; the notes column is not read. */
  function ScanRowAsWritten(row: ExecutionRow): (e: Execution)
    ensures e.executionId == row.executionId && e.notes.None?
  {
    Execution(
      executionId := row.executionId,
      runId := row.runId,
      parentExecutionId := row.parentExecutionId,
      agentNodeId := row.agentNodeId,
      reasonerId := row.reasonerId,
      nodeId := row.nodeId,
      inputPayload := ScanPayload(row.inputPayload),
      resultPayload := ScanPayload(row.resultPayload),
      errorMessage := row.errorMessage,
      inputUri := row.inputUri,
      resultUri := row.resultUri,
      status := row.status,
      startedAt := row.startedAt,
      completedAt := row.completedAt,
      durationMs := row.durationMs,
      sessionId := row.sessionId,
      actorId := row.actorId,
      notes := None,
      createdAt := row.createdAt,
      updatedAt := row.updatedAt)
  }

  /**
   * UpdateExecutionRecord's UPDATE as written: seventeen columns from the
   * updated record; execution_id, created_at and notes keep their stored values.
   * Reading the row back gives the record without its notes.
   */
  function UpdateColumnsAsWritten(row: ExecutionRow, u: Execution): (r: ExecutionRow)
    ensures r.executionId == row.executionId && r.createdAt == row.createdAt && r.notes == row.notes
    ensures row.executionId == u.executionId ==> ScanRowAsWritten(r) == u.(createdAt := row.createdAt, notes := None)
  {
    row.(
      runId := u.runId,
      parentExecutionId := u.parentExecutionId,
      agentNodeId := u.agentNodeId,
      reasonerId := u.reasonerId,
      nodeId := u.nodeId,
      status := u.status,
      inputPayload := BytesOrNil(u.inputPayload),
      resultPayload := BytesOrNil(u.resultPayload),
      errorMessage := u.errorMessage,
      inputUri := u.inputUri,
      resultUri := u.resultUri,
      sessionId := u.sessionId,
      actorId := u.actorId,
      startedAt := u.startedAt,
      completedAt := u.completedAt,
      durationMs := u.durationMs,
      updatedAt := u.updatedAt)
  }

  /** scanExecution with the notes column read as well (see Findings in the README). */
  function ScanRow(row: ExecutionRow): (e: Execution)
    ensures e.executionId == row.executionId && e.notes == row.notes
  {
    ScanRowAsWritten(row).(notes := row.notes)
  }

  /**
   * The UPDATE with the notes column written as well: reading the row back
   * gives exactly the updated record, except that created_at is never rewritten.
   */
  function UpdateColumns(row: ExecutionRow, u: Execution): (r: ExecutionRow)
    ensures r.executionId == row.executionId && r.createdAt == row.createdAt
    ensures row.executionId == u.executionId ==> ScanRow(r) == u.(createdAt := row.createdAt)
  {
    UpdateColumnsAsWritten(row, u).(notes := u.notes)
  }

  predicate UniqueRowIds(rows: seq<ExecutionRow>)
  {
    forall i, j :: 0 <= i < j < |rows| ==> rows[i].executionId != rows[j].executionId
  }

  /** The position of the row with this execution ID. */
  function FindRow(rows: seq<ExecutionRow>, id: string): (r: Option<nat>)
    ensures r.Some? ==> r.value < |rows| && rows[r.value].executionId == id
    ensures r.None? ==> forall k :: 0 <= k < |rows| ==> rows[k].executionId != id
  {
    if rows == [] then None
    else if rows[0].executionId == id then Some(0)
    else match FindRow(rows[1..], id)
      case None => None
      case Some(k) => Some(k + 1)
  }

  /**
   * SELECT ... WHERE execution_id = ? followed by scanExecution with the notes
   * column read (the corrected design of the README's Findings): the stored
   * record, or nil when no row has the ID.
   */
  function Lookup(rows: seq<ExecutionRow>, id: string): (r: Option<Execution>)
    ensures r.None? <==> forall k :: 0 <= k < |rows| ==> rows[k].executionId != id
    ensures UniqueRowIds(rows) ==> forall k :: 0 <= k < |rows| && rows[k].executionId == id ==> r == Some(ScanRow(rows[k]))
  {
    match FindRow(rows, id)
      case None => None
      case Some(k) => Some(ScanRow(rows[k]))
  }

  /** UPDATE executions SET ... WHERE execution_id = u.ExecutionID, notes column included (the corrected design). */
  function UpdateWhere(rows: seq<ExecutionRow>, u: Execution): (r: seq<ExecutionRow>)
    ensures |r| == |rows|
    ensures forall k :: 0 <= k < |rows| ==>
      r[k] == if rows[k].executionId == u.executionId then UpdateColumns(rows[k], u) else rows[k]
  {
    seq(|rows|, k requires 0 <= k < |rows| => if rows[k].executionId == u.executionId then UpdateColumns(rows[k], u) else rows[k])
  }

  /**
   * After the UPDATE, the updated record reads back (with its stored created_at)
   * when its row exists, no row appears when it does not, and every other
   * record reads as before.
   */
  lemma UpdatePersists(rows: seq<ExecutionRow>, u: Execution)
    requires UniqueRowIds(rows)
    ensures UniqueRowIds(UpdateWhere(rows, u))
    ensures Lookup(rows, u.executionId).None? ==> Lookup(UpdateWhere(rows, u), u.executionId).None?
    ensures Lookup(rows, u.executionId).Some? ==>
      Lookup(UpdateWhere(rows, u), u.executionId) == Some(u.(createdAt := Lookup(rows, u.executionId).value.createdAt))
    ensures forall id :: id != u.executionId ==> Lookup(UpdateWhere(rows, u), id) == Lookup(rows, id)
  {
    var r := UpdateWhere(rows, u);
    assert forall k :: 0 <= k < |rows| ==> r[k].executionId == rows[k].executionId;
    forall id | id != u.executionId
      ensures Lookup(r, id) == Lookup(rows, id)
    {
      if Lookup(rows, id).Some? {
        var k := FindRow(rows, id).value;
        assert r[k] == rows[k];
      }
    }
  }

  /** The outcome of an update callback: an error, nil (write nothing), or the record to write. */
  datatype UpdaterResult = UpdateError(message: string) | KeepCurrent | Write(updated: Execution)

  /**
   * The executions table as LocalStorage reads and writes it once the notes
   * column is read and written too (the corrected design of the README's
   * Findings; ScanRowAsWritten and UpdateColumnsAsWritten are the code as
   * written). Rows are kept in insertion order, which is also the order the
   * database returns rows whose sort keys tie.
   */
  class ExecutionStore {
    var rows: seq<ExecutionRow>

    ghost predicate Valid()
      reads this
    {
      UniqueRowIds(rows)
    }

    constructor(initial: seq<ExecutionRow>)
      requires UniqueRowIds(initial)
      ensures rows == initial && Valid()
    {
      rows := initial;
    }

    /** GetExecutionRecord: the stored record with this ID, or nil. */
    function GetExecutionRecord(executionId: string): (r: Option<Execution>)
      reads this
      ensures r.Some? ==> r.value.executionId == executionId
      ensures r.None? <==> forall k :: 0 <= k < |rows| ==> rows[k].executionId != executionId
    {
      Lookup(rows, executionId)
    }

    /**
     * UpdateExecutionRecord: read the record (nil when absent), hand it to the
     * callback, and act on the outcome. An error or a nil result writes
     * nothing; a record is stamped with the current time and written to the
     * row with its own execution ID.
     */
    method UpdateExecutionRecord(executionId: string, updater: Option<Option<Execution> -> UpdaterResult>, now: int)
      returns (r: Result<Option<Execution>>)
      requires Valid()
      modifies this
      ensures Valid()
      ensures updater.None? ==> r == Err("nil updater") && rows == old(rows)
      ensures updater.Some? ==>
        var current := Lookup(old(rows), executionId);
        match updater.value(current)
          case UpdateError(msg) => r == Err(msg) && rows == old(rows)
          case KeepCurrent => r == Ok(current) && rows == old(rows)
          case Write(u) => r == Ok(Some(u.(updatedAt := now))) && rows == UpdateWhere(old(rows), u.(updatedAt := now))
    {
      if updater.None? {
        return Err("nil updater");
      }
      var current := Lookup(rows, executionId);
      var outcome := updater.value(current);
      match outcome {
        case UpdateError(msg) =>
          r := Err(msg);
        case KeepCurrent =>
          r := Ok(current);
        case Write(u) =>
          var updated := u.(updatedAt := now);
          UpdatePersists(rows, updated);
          rows := UpdateWhere(rows, updated);
          r := Ok(Some(updated));
      }
    }

    /**
     * MarkStaleExecutions: with a positive limit and a live context, every
     * selected stale row is moved to timeout and counted; otherwise nothing
     * changes. `now` is the clock reading and `cancelled` the context's state.
     */
    method MarkStaleExecutions(staleAfter: int, limit: int, now: int, cancelled: bool) returns (r: Result<int>)
      requires Valid()
      modifies this
      ensures Valid()
      ensures limit <= 0 ==> r == Ok(0) && rows == old(rows)
      ensures limit > 0 && cancelled ==> r.Err? && rows == old(rows)
      ensures limit > 0 && !cancelled ==> (rows, r) == StaleSweep(old(rows), staleAfter, limit, now)
    {
      var after;
      after, r := MarkStaleRows(rows, staleAfter, limit, now, cancelled);
      if limit > 0 && !cancelled {
        StaleSweepKeepsIds(rows, staleAfter, limit, now);
      }
      rows := after;
    }
  }

  /** The error of a sweep whose context was cancelled before it began (the context's own error, wrapped after it, is not modelled). */
  const StaleSweepCancelled := "context cancelled before marking stale executions"

  /** MarkStaleExecutions on the table's rows `start`: the new rows and the result. */
  method MarkStaleRows(start: seq<ExecutionRow>, staleAfter: int, limit: int, now: int, cancelled: bool)
    returns (after: seq<ExecutionRow>, r: Result<int>)
    requires UniqueRowIds(start)
    ensures limit <= 0 ==> r == Ok(0) && after == start
    ensures limit > 0 && cancelled ==> r == Err(StaleSweepCancelled) && after == start
    ensures limit > 0 && !cancelled ==> (after, r) == StaleSweep(start, staleAfter, limit, now)
  {
    if limit <= 0 {
      return start, Ok(0);
    }
    if cancelled {
      return start, Err(StaleSweepCancelled);
    }
    after, r := SweepStale(start, staleAfter, limit, now);
  }

  /**
   * The rows and the result of a sweep over `before`: the stale candidates at
   * the cutoff `now - staleAfter` (at most `limit`, oldest first) are timed
   * out at `now`, and their number is the result.
   */
  function StaleSweep(before: seq<ExecutionRow>, staleAfter: int, limit: int, now: int): (seq<ExecutionRow>, Result<int>)
    requires limit > 0
  {
    var stale := StaleCandidates(before, now - staleAfter, limit);
    (MarkTimedOut(before, RowIds(stale), now), Ok(|stale|))
  }

  /** A sweep keeps execution IDs unique. */
  lemma StaleSweepKeepsIds(before: seq<ExecutionRow>, staleAfter: int, limit: int, now: int)
    requires limit > 0 && UniqueRowIds(before)
    ensures UniqueRowIds(StaleSweep(before, staleAfter, limit, now).0)
  {
    MarkKeepsIds(before, RowIds(StaleCandidates(before, now - staleAfter, limit)), now);
  }

  /** Selects the stale candidates of `start` and marks them timed out. */
  method SweepStale(start: seq<ExecutionRow>, staleAfter: int, limit: int, now: int)
    returns (swept: seq<ExecutionRow>, r: Result<int>)
    requires limit > 0 && UniqueRowIds(start)
    ensures (swept, r) == StaleSweep(start, staleAfter, limit, now)
  {
    var stale := StaleCandidates(start, now - staleAfter, limit);
    assert StaleSweep(start, staleAfter, limit, now) == (MarkTimedOut(start, RowIds(stale), now), Ok(|stale|));
    StaleCandidatesUnique(start, now - staleAfter, limit);
    if |stale| == 0 {
      MarkNothing(start, now);
      assert RowIds(stale) == {};
      return start, Ok(0);
    }
    StaleCandidatesActive(start, now - staleAfter, limit);
    var updated;
    swept, updated := SweepRows(start, stale, now);
    r := Ok(updated);
  }

  // ---------------------------------------------------------------------------
  // MarkStaleExecutions
  // ---------------------------------------------------------------------------

  const TimeoutMessage := "execution timed out"

  /**
   * The recorded duration: the elapsed time clamped at zero, in whole
   * milliseconds (Go's Duration.Milliseconds truncates).
   */
  function StaleDurationMs(startedAt: int, now: int): (ms: int)
    ensures ms >= 0
    ensures now <= startedAt ==> ms == 0
    ensures now > startedAt ==> ms * NanosPerMilli <= now - startedAt < (ms + 1) * NanosPerMilli
  {
    Milliseconds(if now - startedAt < 0 then 0 else now - startedAt)
  }

  /** The row the sweep's UPDATE writes. */
  function TimedOut(row: ExecutionRow, now: int): (r: ExecutionRow)
    ensures r.executionId == row.executionId && r.status == Timeout && !IsActiveStatus(r.status)
    ensures r.durationMs.Some? && r.durationMs.value >= 0 && r.completedAt == Some(now)
  {
    row.(
      status := Timeout,
      errorMessage := Some(TimeoutMessage),
      completedAt := Some(now),
      durationMs := Some(StaleDurationMs(row.startedAt, now)),
      updatedAt := now)
  }

  predicate IsStale(row: ExecutionRow, cutoff: int)
  {
    IsActiveStatus(row.status) && row.startedAt <= cutoff
  }

  /** The active rows started at or before the cutoff, in table order. */
  function StaleRows(rows: seq<ExecutionRow>, cutoff: int): (r: seq<ExecutionRow>)
    ensures forall x :: x in r <==> x in rows && IsStale(x, cutoff)
  {
    if rows == [] then []
    else
      var last := rows[|rows| - 1];
      assert rows == rows[..|rows| - 1] + [last];
      StaleRows(rows[..|rows| - 1], cutoff) + (if IsStale(last, cutoff) then [last] else [])
  }

  function StartedKey(row: ExecutionRow): int
  {
    row.startedAt
  }

  /** The first n elements (all of them when there are fewer). */
  function Take<T>(xs: seq<T>, n: int): (r: seq<T>)
    ensures n >= |xs| ==> r == xs
    ensures 0 <= n < |xs| ==> r == xs[..n]
    ensures n <= 0 ==> r == []
  {
    if n >= |xs| then xs else if n <= 0 then [] else xs[..n]
  }

  /**
   * The sweep's SELECT: active rows started at or before the cutoff, oldest
   * first, at most `limit` of them; a stale row is left out only when the
   * limit is reached and every selected row is at least as old.
   */
  function StaleCandidates(rows: seq<ExecutionRow>, cutoff: int, limit: int): (r: seq<ExecutionRow>)
    requires limit > 0
    ensures |r| <= limit
    ensures forall x :: x in r ==> x in rows && IsStale(x, cutoff)
    ensures Sorting.SortedBy(r, StartedKey)
  {
    var sorted := Sorting.SortBy(StaleRows(rows, cutoff), StartedKey);
    var r := Take(sorted, limit);
    forall x | x in r
      ensures x in rows && IsStale(x, cutoff)
    {
      assert x in multiset(sorted);
    }
    r
  }

  /**
   * The selection takes the oldest stale rows: a stale row is left out only
   * when the limit is reached and every selected row started no later.
   */
  lemma StaleSelectionIsOldest(rows: seq<ExecutionRow>, cutoff: int, limit: int, x: ExecutionRow)
    requires limit > 0
    requires x in rows && IsStale(x, cutoff) && x !in StaleCandidates(rows, cutoff, limit)
    ensures |StaleCandidates(rows, cutoff, limit)| == limit
    ensures forall k :: 0 <= k < limit ==> StaleCandidates(rows, cutoff, limit)[k].startedAt <= x.startedAt
  {
    var sorted := Sorting.SortBy(StaleRows(rows, cutoff), StartedKey);
    var r := StaleCandidates(rows, cutoff, limit);
    assert r == Take(sorted, limit);
    assert x in multiset(sorted);
    var p :| 0 <= p < |sorted| && sorted[p] == x;
    assert forall q :: 0 <= q < |r| ==> r[q] == sorted[q];
    assert p >= limit;
    forall k | 0 <= k < limit
      ensures r[k].startedAt <= x.startedAt
    {
      assert r[k] == sorted[k];
    }
  }

  function RowIds(rows: seq<ExecutionRow>): set<string>
  {
    set k | 0 <= k < |rows| :: rows[k].executionId
  }

  /**
   * The table after the sweep: every active row whose ID was selected is timed
   * out; all other rows are untouched.
   */
  function MarkTimedOut(rows: seq<ExecutionRow>, ids: set<string>, now: int): (r: seq<ExecutionRow>)
    ensures |r| == |rows|
    ensures forall k :: 0 <= k < |rows| ==>
      r[k] == if rows[k].executionId in ids && IsActiveStatus(rows[k].status) then TimedOut(rows[k], now) else rows[k]
  {
    seq(|rows|, k requires 0 <= k < |rows| =>
      if rows[k].executionId in ids && IsActiveStatus(rows[k].status) then TimedOut(rows[k], now) else rows[k])
  }

  /**
   * What the sweep may change: only running, pending or queued rows, each moved
   * to timeout with a non-negative duration; IDs and row order are kept.
   */
  lemma SweepOnlyTimesOutActiveRows(rows: seq<ExecutionRow>, ids: set<string>, now: int, k: nat)
    requires k < |rows|
    ensures MarkTimedOut(rows, ids, now)[k].executionId == rows[k].executionId
    ensures MarkTimedOut(rows, ids, now)[k] != rows[k] ==>
      IsActiveStatus(rows[k].status) && rows[k].executionId in ids
      && MarkTimedOut(rows, ids, now)[k].status == Timeout
      && MarkTimedOut(rows, ids, now)[k].durationMs.Some?
      && MarkTimedOut(rows, ids, now)[k].durationMs.value >= 0
  {
  }

  /** One UPDATE ... WHERE execution_id = ? AND status IN (active). */
  function TimeOutWhere(rows: seq<ExecutionRow>, id: string, now: int): (r: seq<ExecutionRow>)
    ensures |r| == |rows|
  {
    seq(|rows|, k requires 0 <= k < |rows| =>
      if rows[k].executionId == id && IsActiveStatus(rows[k].status) then TimedOut(rows[k], now) else rows[k])
  }

  /** RowsAffected() > 0 for that UPDATE. */
  predicate HasActiveRow(rows: seq<ExecutionRow>, id: string)
  {
    exists k :: 0 <= k < |rows| && rows[k].executionId == id && IsActiveStatus(rows[k].status)
  }

  lemma MarkNothing(rows: seq<ExecutionRow>, now: int)
    ensures MarkTimedOut(rows, {}, now) == rows
  {
  }

  lemma MarkOneMore(rows: seq<ExecutionRow>, ids: set<string>, id: string, now: int)
    ensures TimeOutWhere(MarkTimedOut(rows, ids, now), id, now) == MarkTimedOut(rows, ids + {id}, now)
  {
    var a := TimeOutWhere(MarkTimedOut(rows, ids, now), id, now);
    var b := MarkTimedOut(rows, ids + {id}, now);
    forall k | 0 <= k < |rows|
      ensures a[k] == b[k]
    {
    }
  }

  lemma {:induction false} StaleRowsUnique(rows: seq<ExecutionRow>, cutoff: int)
    requires UniqueRowIds(rows)
    ensures UniqueRowIds(StaleRows(rows, cutoff))
  {
    if rows != [] {
      var init := rows[..|rows| - 1];
      var last := rows[|rows| - 1];
      StaleRowsUnique(init, cutoff);
      var s := StaleRows(init, cutoff);
      forall k | 0 <= k < |s|
        ensures s[k].executionId != last.executionId
      {
        assert s[k] in init;
      }
    }
  }

  /** Reordering a table with unique IDs keeps them unique. */
  lemma PermutationKeepsUniqueIds(xs: seq<ExecutionRow>, ys: seq<ExecutionRow>)
    requires UniqueRowIds(xs) && multiset(xs) == multiset(ys)
    ensures UniqueRowIds(ys)
  {
    var key := (r: ExecutionRow) => r.executionId;
    assert Sorting.UniqueKeys(xs, key);
    Sorting.PermutationKeepsUniqueKeys(xs, ys, key);
    assert forall i, j :: 0 <= i < j < |ys| ==> key(ys[i]) != key(ys[j]);
  }

  lemma StaleCandidatesUnique(rows: seq<ExecutionRow>, cutoff: int, limit: int)
    requires limit > 0 && UniqueRowIds(rows)
    ensures UniqueRowIds(StaleCandidates(rows, cutoff, limit))
  {
    StaleRowsUnique(rows, cutoff);
    var sorted := Sorting.SortBy(StaleRows(rows, cutoff), StartedKey);
    PermutationKeepsUniqueIds(StaleRows(rows, cutoff), sorted);
  }

  lemma StaleCandidatesActive(rows: seq<ExecutionRow>, cutoff: int, limit: int)
    requires limit > 0
    ensures forall x :: x in StaleCandidates(rows, cutoff, limit) ==> x in rows && IsActiveStatus(x.status)
  {
  }

  lemma MarkKeepsIds(rows: seq<ExecutionRow>, ids: set<string>, now: int)
    requires UniqueRowIds(rows)
    ensures UniqueRowIds(MarkTimedOut(rows, ids, now))
  {
    var r := MarkTimedOut(rows, ids, now);
    assert forall k :: 0 <= k < |rows| ==> r[k].executionId == rows[k].executionId;
  }

  /** A selected row is still active when its UPDATE runs: earlier UPDATEs hit other IDs. */
  lemma StillActive(start: seq<ExecutionRow>, stale: seq<ExecutionRow>, i: nat, now: int)
    requires UniqueRowIds(stale) && i < |stale|
    requires forall x :: x in stale ==> x in start && IsActiveStatus(x.status)
    ensures HasActiveRow(MarkTimedOut(start, RowIds(stale[..i]), now), stale[i].executionId)
  {
    assert stale[i] in stale;
    var k :| 0 <= k < |start| && start[k] == stale[i];
    assert stale[i].executionId !in RowIds(stale[..i]);
    assert MarkTimedOut(start, RowIds(stale[..i]), now)[k] == start[k];
  }

  /**
   * The sweep's UPDATE loop over the selected rows: each UPDATE times out the
   * row if it is still active, and counts it when a row was affected.
   */
  method SweepRows(start: seq<ExecutionRow>, stale: seq<ExecutionRow>, now: int)
    returns (rows: seq<ExecutionRow>, updated: int)
    requires UniqueRowIds(start) && UniqueRowIds(stale)
    requires forall x :: x in stale ==> x in start && IsActiveStatus(x.status)
    ensures rows == MarkTimedOut(start, RowIds(stale), now) && UniqueRowIds(rows)
    ensures updated == |stale|
  {
    MarkNothing(start, now);
    assert RowIds(stale[..0]) == {};
    rows := start;
    updated := 0;
    var i := 0;
    while i < |stale|
      invariant 0 <= i <= |stale|
      invariant rows == MarkTimedOut(start, RowIds(stale[..i]), now)
      invariant updated == i
    {
      assert RowIds(stale[..i + 1]) == RowIds(stale[..i]) + {stale[i].executionId} by {
        assert stale[..i + 1] == stale[..i] + [stale[i]];
      }
      StillActive(start, stale, i, now);
      var affected := HasActiveRow(rows, stale[i].executionId);
      MarkOneMore(start, RowIds(stale[..i]), stale[i].executionId, now);
      rows := TimeOutWhere(rows, stale[i].executionId, now);
      if affected {
        updated := updated + 1;
      }
      i := i + 1;
    }
    assert stale[..i] == stale;
    MarkKeepsIds(start, RowIds(stale), now);
  }

  // ---------------------------------------------------------------------------
  // getRunAggregation
  // ---------------------------------------------------------------------------

  /** One row of SELECT status, COUNT(*) ... GROUP BY status. */
  datatype StatusCount = StatusCount(status: string, count: int)

  /** StatusCounts as the loop fills it: a later row with the same normalised status overwrites. */
  function StatusCountMap(rows: seq<StatusCount>, normalize: string -> string): (m: map<string, int>)
    ensures forall s :: s in m <==> exists i :: 0 <= i < |rows| && normalize(rows[i].status) == s
  {
    if rows == [] then map[]
    else
      var last := rows[|rows| - 1];
      var m := StatusCountMap(rows[..|rows| - 1], normalize);
      assert forall i :: 0 <= i < |rows| - 1 ==> rows[..|rows| - 1][i] == rows[i];
      m[normalize(last.status) := last.count]
  }

  /** The running, pending and queued counts added up, row by row. */
  function ActiveSum(rows: seq<StatusCount>, normalize: string -> string): int
  {
    if rows == [] then 0
    else
      var last := rows[|rows| - 1];
      ActiveSum(rows[..|rows| - 1], normalize) + (if IsActiveStatus(normalize(last.status)) then last.count else 0)
  }

  function CountOf(m: map<string, int>, s: string): int
  {
    if s in m then m[s] else 0
  }

  /** The status loop: the counts map and the active total. */
  method CountStatuses(rows: seq<StatusCount>, normalize: string -> string) returns (counts: map<string, int>, active: int)
    ensures counts == StatusCountMap(rows, normalize)
    ensures active == ActiveSum(rows, normalize)
  {
    counts, active := map[], 0;
    var i := 0;
    while i < |rows|
      invariant 0 <= i <= |rows|
      invariant counts == StatusCountMap(rows[..i], normalize)
      invariant active == ActiveSum(rows[..i], normalize)
    {
      assert rows[..i + 1][..i] == rows[..i];
      var normalized := normalize(rows[i].status);
      counts := counts[normalized := rows[i].count];
      if normalized == Running || normalized == Pending || normalized == Queued {
        active := active + rows[i].count;
      }
      i := i + 1;
    }
    assert rows[..i] == rows;
  }

  /**
   * When the grouped statuses stay distinct after normalisation,
   * ActiveExecutions is the running count plus the pending count plus the
   * queued count.
   */
  lemma {:induction false} ActiveIsSumOfActiveCounts(rows: seq<StatusCount>, normalize: string -> string)
    requires forall i, j :: 0 <= i < j < |rows| ==> normalize(rows[i].status) != normalize(rows[j].status)
    ensures ActiveSum(rows, normalize) ==
      CountOf(StatusCountMap(rows, normalize), Running)
      + CountOf(StatusCountMap(rows, normalize), Pending)
      + CountOf(StatusCountMap(rows, normalize), Queued)
  {
    if rows != [] {
      var init := rows[..|rows| - 1];
      var last := rows[|rows| - 1];
      ActiveIsSumOfActiveCounts(init, normalize);
      var s := normalize(last.status);
      forall i | 0 <= i < |init|
        ensures normalize(init[i].status) != s
      {
        assert rows[i] == init[i];
      }
    }
  }

  /** Runs with more executions than this skip the depth walk. */
  const MaxNodesForDepthCalc := 1000

  /** A depth row: a NULL or empty parent makes a root. */
  function DepthInfoOf(executionId: string, parent: Option<string>): (info: RunDepth.DepthInfo)
    ensures info.executionId == executionId
    ensures info.parentExecutionId.None? <==> parent.None? || parent.value == ""
    ensures info.parentExecutionId.Some? ==> info.parentExecutionId == parent
  {
    if parent.Some? && parent.value != "" then RunDepth.DepthInfo(executionId, parent)
    else RunDepth.DepthInfo(executionId, None)
  }

  /** getRunAggregation's MaxDepth: -1 for a run too large to walk, else the walk's depth. */
  method RunMaxDepth(totalExecutions: int, infos: seq<RunDepth.DepthInfo>) returns (maxDepth: int)
    requires totalExecutions <= MaxNodesForDepthCalc ==> RunDepth.UniqueInfoIds(infos)
    ensures totalExecutions > MaxNodesForDepthCalc <==> maxDepth == -1
    ensures totalExecutions <= MaxNodesForDepthCalc ==>
      (forall id, d: nat :: RunDepth.AtLevel(infos, id, d) ==> d <= maxDepth)
      && maxDepth >= 0 && (maxDepth == 0 || exists id :: RunDepth.AtLevel(infos, id, maxDepth))
  {
    if totalExecutions > MaxNodesForDepthCalc {
      maxDepth := -1;
    } else {
      maxDepth := RunDepth.ComputeMaxDepth(infos);
    }
  }

  /** A nullable text column kept only when non-NULL and non-empty (the root's session and actor). */
  function NonEmptyOrNil(v: Option<string>): (r: Option<string>)
    ensures r.Some? <==> v.Some? && v.value != ""
    ensures r.Some? ==> r == v
  {
    if v.Some? && v.value != "" then v else None
  }

  // ---------------------------------------------------------------------------
  // Time columns
  // ---------------------------------------------------------------------------

  /** Go's zero time.Time. */
  const ZeroTime: int := 0

  /** The layouts parseTimeString tries, in order. */
  datatype TimeLayout =
    | RFC3339Nano | RFC3339
    | IsoNanoNoZone | IsoSecondsNoZone
    | SpaceNanoNoZone | SpaceSecondsNoZone

  const SupportedTimeLayouts: seq<TimeLayout> := [
    RFC3339Nano, RFC3339, IsoNanoNoZone, IsoSecondsNoZone, SpaceNanoNoZone, SpaceSecondsNoZone]

  /** The index of the first layout, from position i on, that parses the value. */
  function FirstParsingLayout(layouts: seq<TimeLayout>, value: string, parse: (TimeLayout, string) -> Option<int>, i: nat)
    : (r: Option<nat>)
    requires i <= |layouts|
    ensures r.Some? ==> (i <= r.value < |layouts| && parse(layouts[r.value], value).Some?
      && forall j :: i <= j < r.value ==> parse(layouts[j], value).None?)
    ensures r.None? ==> forall j :: i <= j < |layouts| ==> parse(layouts[j], value).None?
    decreases |layouts| - i
  {
    if i == |layouts| then None
    else if parse(layouts[i], value).Some? then Some(i)
    else FirstParsingLayout(layouts, value, parse, i + 1)
  }

  /** The case the second attempt targets: a 'T' separator, no trailing Z, no sign or dash. */
  predicate MissingZone(value: string)
  {
    !HasSuffix(value, "Z") && 'T' in value && '+' !in value && '-' !in value
  }

  /** %q of a string, without Go's escaping of special characters. */
  function Quoted(s: string): string
  {
    "\"" + s + "\""
  }

  /**
   * parseTimeString: after trimming, a blank value is the zero time with no
   * error; otherwise the first supported layout that parses it, then an
   * RFC3339Nano parse with a "Z" appended for a zone-less 'T' timestamp,
   * else an error naming the value. `parse` is time.Parse.
   */
  function ParseTimeString(value: string, parse: (TimeLayout, string) -> Option<int>): (r: Result<int>)
    ensures TrimSpace(value) == "" ==> r == Ok(ZeroTime)
    ensures r.Err? ==> TrimSpace(value) != ""
    ensures r.Err? ==> forall k :: 0 <= k < |SupportedTimeLayouts| ==> parse(SupportedTimeLayouts[k], TrimSpace(value)).None?
    ensures r.Err? ==> r.error == "unable to parse time value " + Quoted(TrimSpace(value))
    ensures r.Ok? && TrimSpace(value) != "" ==>
      (exists k :: 0 <= k < |SupportedTimeLayouts| && parse(SupportedTimeLayouts[k], TrimSpace(value)) == Some(r.value))
      || (MissingZone(TrimSpace(value)) && parse(RFC3339Nano, TrimSpace(value) + "Z") == Some(r.value))
    ensures var v := TrimSpace(value);
      v != "" ==> forall k ::
        (0 <= k < |SupportedTimeLayouts| && parse(SupportedTimeLayouts[k], v).Some?
         && forall j :: 0 <= j < k ==> parse(SupportedTimeLayouts[j], v).None?)
        ==> r == Ok(parse(SupportedTimeLayouts[k], v).value)
    ensures var v := TrimSpace(value);
      v != "" && (forall k :: 0 <= k < |SupportedTimeLayouts| ==> parse(SupportedTimeLayouts[k], v).None?) ==>
        (r.Ok? <==> MissingZone(v) && parse(RFC3339Nano, v + "Z").Some?)
        && (r.Ok? ==> r.value == parse(RFC3339Nano, v + "Z").value)
  {
    ParseTrimmed(TrimSpace(value), parse)
  }

  /** parseTimeString after the trim. */
  function ParseTrimmed(v: string, parse: (TimeLayout, string) -> Option<int>): (r: Result<int>)
    ensures v == "" ==> r == Ok(ZeroTime)
    ensures r.Err? ==> (v != ""
      && (forall k :: 0 <= k < |SupportedTimeLayouts| ==> parse(SupportedTimeLayouts[k], v).None?)
      && r.error == "unable to parse time value " + Quoted(v))
    ensures r.Ok? && v != "" ==>
      (exists k :: 0 <= k < |SupportedTimeLayouts| && parse(SupportedTimeLayouts[k], v) == Some(r.value))
      || (MissingZone(v) && parse(RFC3339Nano, v + "Z") == Some(r.value))
    ensures v != "" ==> forall k ::
      (0 <= k < |SupportedTimeLayouts| && parse(SupportedTimeLayouts[k], v).Some?
       && forall j :: 0 <= j < k ==> parse(SupportedTimeLayouts[j], v).None?)
      ==> r == Ok(parse(SupportedTimeLayouts[k], v).value)
    ensures v != "" && (forall k :: 0 <= k < |SupportedTimeLayouts| ==> parse(SupportedTimeLayouts[k], v).None?) ==>
      (r.Ok? <==> MissingZone(v) && parse(RFC3339Nano, v + "Z").Some?)
      && (r.Ok? ==> r.value == parse(RFC3339Nano, v + "Z").value)
  {
    if v == "" then Ok(ZeroTime)
    else match FirstParsingLayout(SupportedTimeLayouts, v, parse, 0)
      case Some(k) => Ok(parse(SupportedTimeLayouts[k], v).value)
      case None =>
        if MissingZone(v) && parse(RFC3339Nano, v + "Z").Some? then Ok(parse(RFC3339Nano, v + "Z").value)
        else Err("unable to parse time value " + Quoted(v))
  }

  /** Parsing trims first, so surrounding whitespace never changes the outcome. */
  lemma ParseTimeStringIgnoresSpace(value: string, parse: (TimeLayout, string) -> Option<int>)
    ensures ParseTimeString(TrimSpace(value), parse) == ParseTimeString(value, parse)
  {
    TrimSpaceIdempotent(value);
    assert ParseTimeString(TrimSpace(value), parse) == ParseTrimmed(TrimSpace(TrimSpace(value)), parse);
  }

  /**
   * The appended-"Z" attempt never succeeds when RFC3339Nano only accepts text
   * with a dash in it (its date part has two): a value it would retry has no dash.
   */
  lemma ZoneRetryNeverSucceeds(value: string, parse: (TimeLayout, string) -> Option<int>)
    requires forall s :: parse(RFC3339Nano, s).Some? ==> '-' in s
    ensures ParseTimeString(value, parse).Ok? && TrimSpace(value) != "" ==>
      exists k :: 0 <= k < |SupportedTimeLayouts| && parse(SupportedTimeLayouts[k], TrimSpace(value)) == Some(ParseTimeString(value, parse).value)
  {
    var v := TrimSpace(value);
    if MissingZone(v) {
      forall i | 0 <= i < |v + "Z"|
        ensures (v + "Z")[i] != '-'
      {
        if i < |v| {
          assert (v + "Z")[i] == v[i];
        }
      }
      assert parse(RFC3339Nano, v + "Z").None?;
    }
  }

  /** The shapes a database driver hands back for a timestamp column. */
  datatype DbTimeValue =
    | DbNil
    | DbTime(time: int)
    | DbText(text: string)
    | DbBytes(bytes: string)
    | DbNullTime(valid: bool, time: int)
    | DbNullString(valid: bool, text: string)
    | DbOther(typeName: string)

  /**
   * parseDBTime: NULLs are the zero time, native times pass through, text is
   * parsed, and any other type is an error.
   */
  function ParseDBTime(v: DbTimeValue, parse: (TimeLayout, string) -> Option<int>): (r: Result<int>)
    ensures v.DbNil? || (v.DbNullTime? && !v.valid) || (v.DbNullString? && !v.valid) ==> r == Ok(ZeroTime)
    ensures v.DbTime? || (v.DbNullTime? && v.valid) ==> r == Ok(v.time)
    ensures v.DbOther? ==> r == Err("unsupported time value type " + v.typeName)
  {
    match v
      case DbNil => Ok(ZeroTime)
      case DbTime(t) => Ok(t)
      case DbText(s) => ParseTimeString(s, parse)
      case DbBytes(b) => ParseTimeString(b, parse)
      case DbNullTime(valid, t) => if valid then Ok(t) else Ok(ZeroTime)
      case DbNullString(valid, s) => if valid then ParseTimeString(s, parse) else Ok(ZeroTime)
      case DbOther(name) => Err("unsupported time value type " + name)
  }

  function TextOf(v: DbTimeValue): string
  {
    match v
      case DbText(s) => s
      case DbBytes(b) => b
      case DbNullString(valid, s) => if valid then s else ""
      case _ => ""
  }

  /** Only a non-blank text value can fail to parse: blank text is the zero time. */
  lemma ParseDBTimeErrNotBlank(v: DbTimeValue, parse: (TimeLayout, string) -> Option<int>)
    ensures ParseDBTime(v, parse).Err? && !v.DbOther? ==> TrimSpace(TextOf(v)) != ""
  {
    match v
      case DbText(s) =>
        assert ParseDBTime(v, parse) == ParseTimeString(s, parse);
      case DbBytes(b) =>
        assert ParseDBTime(v, parse) == ParseTimeString(b, parse);
      case DbNullString(valid, s) =>
        if valid {
          assert ParseDBTime(v, parse) == ParseTimeString(s, parse);
        }
      case _ =>
  }
}
