/**
 * Execution notes (control-plane/internal/handlers/execution_notes.go): the
 * handler that appends a note to an execution through the store's
 * read-modify-write callback, the handler that lists an execution's notes
 * with an optional comma-separated tag filter, the case- and space-insensitive
 * tag match, and the lookup of the execution ID from the request.
 */
module ExecutionNotes {
  import opened Text
  import opened Exec
  import opened ExecutionRecords

  // ---------------------------------------------------------------------------
  // Tag matching
  // ---------------------------------------------------------------------------

  /** A nil Tags slice ranges over nothing. */
  function TagsOf(note: Note): seq<string>
  {
    match note.tags
      case None => []
      case Some(ts) => ts
  }

  /**
   * The reference meaning of noteHasTags: an empty filter accepts every note;
   * otherwise some filter tag equals some note tag once both are normalised.
   */
  predicate MatchesTags(note: Note, filterTags: seq<string>)
  {
    |filterTags| == 0 ||
    exists i, j :: 0 <= i < |filterTags| && 0 <= j < |TagsOf(note)| &&
      LowerTrim(filterTags[i]) == LowerTrim(TagsOf(note)[j])
  }

  /**
   * noteHasTags: build the set of normalised note tags, then accept on the
   * first filter tag found in it.
   */
  method NoteHasTags(note: Note, filterTags: seq<string>) returns (r: bool)
    ensures r == MatchesTags(note, filterTags)
  {
    if |filterTags| == 0 {
      return true;
    }
    var tags := TagsOf(note);
    var noteTags := NormalisedTags(tags, LowerTrim);
    r := AnyTagIn(filterTags, noteTags);
    if r {
      var i :| 0 <= i < |filterTags| && LowerTrim(filterTags[i]) in noteTags;
      var k :| 0 <= k < |tags| && LowerTrim(tags[k]) == LowerTrim(filterTags[i]);
    } else {
      forall a, b | 0 <= a < |filterTags| && 0 <= b < |tags|
        ensures LowerTrim(filterTags[a]) != LowerTrim(tags[b])
      {
        assert LowerTrim(tags[b]) in noteTags;
      }
    }
  }

  /** The first loop of noteHasTags: the set of the note's tags, each normalised by `norm`. */
  method NormalisedTags(tags: seq<string>, norm: string -> string) returns (noteTags: set<string>)
    ensures forall k :: 0 <= k < |tags| ==> norm(tags[k]) in noteTags
    ensures forall t :: t in noteTags ==> exists k :: 0 <= k < |tags| && norm(tags[k]) == t
  {
    noteTags := {};
    var j := 0;
    while j < |tags|
      invariant 0 <= j <= |tags|
      invariant forall k :: 0 <= k < j ==> norm(tags[k]) in noteTags
      invariant forall t :: t in noteTags ==> exists k :: 0 <= k < j && norm(tags[k]) == t
    {
      noteTags := noteTags + {norm(tags[j])};
      j := j + 1;
    }
  }

  /** The second loop of noteHasTags: is some normalised filter tag in the set. */
  method AnyTagIn(filterTags: seq<string>, noteTags: set<string>) returns (r: bool)
    ensures r <==> exists i :: 0 <= i < |filterTags| && LowerTrim(filterTags[i]) in noteTags
  {
    var i := 0;
    while i < |filterTags|
      invariant 0 <= i <= |filterTags|
      invariant forall k :: 0 <= k < i ==> LowerTrim(filterTags[k]) !in noteTags
    {
      if LowerTrim(filterTags[i]) in noteTags {
        return true;
      }
      i := i + 1;
    }
    return false;
  }

  /** Tag comparison ignores surrounding space and letter case on both sides. */
  lemma MatchIgnoresCaseAndSpace(note: Note, tag: string, other: string)
    requires other in TagsOf(note)
    requires ToLower(TrimSpace(tag)) == ToLower(TrimSpace(other))
    ensures MatchesTags(note, [tag])
  {
    var j :| 0 <= j < |TagsOf(note)| && TagsOf(note)[j] == other;
    assert LowerTrim([tag][0]) == LowerTrim(TagsOf(note)[j]);
  }

  /** A note without tags passes only the empty filter. */
  lemma UntaggedNoteMatchesOnlyEmptyFilter(note: Note, filterTags: seq<string>)
    requires TagsOf(note) == []
    ensures MatchesTags(note, filterTags) <==> filterTags == []
  {
  }

  // ---------------------------------------------------------------------------
  // Adding a note
  // ---------------------------------------------------------------------------

  /** The request body; Message is bound with `binding:"required"`. */
  datatype AddNoteRequest = AddNoteRequest(message: string, tags: Option<seq<string>>)

  /** A value stored in the request context under "execution_id". */
  datatype ContextValue = ContextString(s: string) | ContextOther

  /**
   * getExecutionIDFromContext: a string stored in the request context wins,
   * even an empty one; otherwise a non-empty X-Execution-ID header; otherwise
   * the execution_id query parameter.
   */
  function ExecutionIdFromContext(context: Option<ContextValue>, header: string, query: string): (id: string)
    ensures (context.Some? && context.value.ContextString?) ==> id == context.value.s
    ensures !(context.Some? && context.value.ContextString?) && header != "" ==> id == header
    ensures !(context.Some? && context.value.ContextString?) && header == "" ==> id == query
  {
    if context.Some? && context.value.ContextString? then context.value.s
    else if header != "" then header
    else query
  }

  /** Status and body of a handler response. */
  datatype AddNoteResponse =
    | AddNoteFailed(status: int, error: string)
    | NoteAdded(note: Note)

  /** The `workflow_note_added` event sent after a successful add. */
  datatype NoteAddedEvent = NoteAddedEvent(executionId: string, workflowId: string, agentNodeId: string, note: Note)

  /**
   * Request validation before the store is touched: a missing message is a
   * binding error, the execution ID must be non-empty and the trimmed message
   * non-blank. The note keeps the trimmed message and never a nil tag list.
   */
  function NewNote(request: Option<AddNoteRequest>, executionId: string, now: int): (r: Result<Note>)
    ensures r.Err? <==>
      request.None? || request.value.message == "" || executionId == "" ||
      TrimSpace(request.value.message) == ""
    ensures r.Ok? ==>
      r.value.message == TrimSpace(request.value.message) && r.value.message != "" &&
      r.value.tags.Some? && r.value.timestamp == now &&
      (request.value.tags.Some? ==> r.value.tags == request.value.tags) &&
      (request.value.tags.None? ==> r.value.tags == Some([]))
  {
    if request.None? || request.value.message == "" then Err("Invalid request body")
    else if executionId == "" then Err("execution_id is required in context or X-Execution-ID header")
    else if TrimSpace(request.value.message) == "" then Err("message cannot be empty")
    else
      var tags := if request.value.tags.None? then Some([]) else request.value.tags;
      Ok(Note(TrimSpace(request.value.message), tags, now))
  }

  /** A nil Notes slice read as the empty list. */
  function NotesOf(e: Execution): seq<Note>
  {
    match e.notes
      case None => []
      case Some(ns) => ns
  }

  /**
   * The callback handed to UpdateExecutionRecord: a missing execution is an
   * error; otherwise the note goes at the end of the (possibly nil) list and
   * the update time is set.
   */
  function AddNoteUpdater(executionId: string, note: Note, now: int): (f: Option<Execution> -> UpdaterResult)
  {
    (current: Option<Execution>) =>
      match current
        case None => UpdateError("execution with ID " + executionId + " not found")
        case Some(e) => Write(e.(notes := Some(NotesOf(e) + [note]), updatedAt := now))
  }

  /** The callback appends exactly one note and leaves every other field alone. */
  lemma AddNoteUpdaterAppendsOne(executionId: string, note: Note, now: int, current: Option<Execution>)
    ensures current.None? ==> AddNoteUpdater(executionId, note, now)(current).UpdateError?
    ensures current.Some? ==>
      var out := AddNoteUpdater(executionId, note, now)(current);
      out.Write? &&
      |NotesOf(out.updated)| == |NotesOf(current.value)| + 1 &&
      NotesOf(out.updated)[..|NotesOf(current.value)|] == NotesOf(current.value) &&
      NotesOf(out.updated)[|NotesOf(current.value)|] == note &&
      out.updated.(notes := current.value.notes, updatedAt := current.value.updatedAt) == current.value
  {
    if current.Some? {
      var out := AddNoteUpdater(executionId, note, now)(current);
      assert NotesOf(out.updated) == NotesOf(current.value) + [note];
    }
  }

  /**
   * AddExecutionNoteHandler. On success the stored execution holds the old
   * notes followed by the new one and the new update time, nothing else about
   * it changes, and an event is produced exactly when the execution belongs to
   * a run. No other execution changes, whatever the outcome.
   */
  method AddExecutionNote(store: ExecutionStore, request: Option<AddNoteRequest>, executionId: string, now: int)
    returns (response: AddNoteResponse, event: Option<NoteAddedEvent>)
    requires store.Valid()
    modifies store
    ensures store.Valid()
    ensures NewNote(request, executionId, now).Err? ==>
      response == AddNoteFailed(400, NewNote(request, executionId, now).error) &&
      event.None? && store.rows == old(store.rows)
    ensures NewNote(request, executionId, now).Ok? && old(store.GetExecutionRecord(executionId)).None? ==>
      response.AddNoteFailed? && response.status == 500 && event.None? && store.rows == old(store.rows)
    ensures NewNote(request, executionId, now).Ok? && old(store.GetExecutionRecord(executionId)).Some? ==>
      var note := NewNote(request, executionId, now).value;
      var before := old(store.GetExecutionRecord(executionId)).value;
      response == NoteAdded(note) &&
      store.GetExecutionRecord(executionId) == Some(before.(notes := Some(NotesOf(before) + [note]), updatedAt := now)) &&
      NotesOf(store.GetExecutionRecord(executionId).value) == NotesOf(before) + [note] &&
      (event.Some? <==> before.runId != "") &&
      (event.Some? ==> event.value == NoteAddedEvent(executionId, before.runId, before.agentNodeId, note))
    ensures forall id :: id != executionId ==> store.GetExecutionRecord(id) == old(store.GetExecutionRecord(id))
  {
    var validated := NewNote(request, executionId, now);
    if validated.Err? {
      return AddNoteFailed(400, validated.error), None;
    }
    var note := validated.value;
    var current := store.GetExecutionRecord(executionId);
    var updated := store.UpdateExecutionRecord(executionId, Some(AddNoteUpdater(executionId, note, now)), now);
    if updated.Err? {
      return AddNoteFailed(500, "Failed to add note: " + updated.error), None;
    }
    var written := current.value.(notes := Some(NotesOf(current.value) + [note]), updatedAt := now);
    assert updated.value == Some(written);
    ReadBackAfterUpdate(old(store.rows), written);
    UpdatePersists(old(store.rows), written);
    var runId := current.value.runId;
    if runId != "" {
      event := Some(NoteAddedEvent(executionId, runId, updated.value.value.agentNodeId, note));
    } else {
      event := None;
    }
    response := NoteAdded(note);
  }

  /** After a write of `u`, reading its ID returns `u` with the stored creation time. */
  lemma ReadBackAfterUpdate(rows: seq<ExecutionRow>, u: Execution)
    requires UniqueRowIds(rows)
    requires Lookup(rows, u.executionId).Some?
    ensures Lookup(UpdateWhere(rows, u), u.executionId).Some?
    ensures NotesOf(Lookup(UpdateWhere(rows, u), u.executionId).value) == NotesOf(u)
  {
    UpdatePersists(rows, u);
  }

  // ---------------------------------------------------------------------------
  // Listing notes
  // ---------------------------------------------------------------------------

  /** The `tags` query parameter: absent or empty means no filter; otherwise split on commas, each piece trimmed. */
  function ParseTagFilter(query: string): (tags: seq<string>)
    ensures query == "" <==> tags == []
    ensures query != "" ==> |tags| == |Split(query, ',')|
    ensures forall i :: 0 <= i < |tags| ==> TrimSpace(tags[i]) == tags[i]
  {
    if query == "" then []
    else
      var pieces := Split(query, ',');
      var tags := seq(|pieces|, i requires 0 <= i < |pieces| => TrimSpace(pieces[i]));
      forall i | 0 <= i < |tags| ensures TrimSpace(tags[i]) == tags[i] {
        TrimSpaceIdempotent(pieces[i]);
      }
      tags
  }

  /** The notes accepted by a filter, in their stored order. */
  function FilterNotes(notes: seq<Note>, filterTags: seq<string>): (r: seq<Note>)
    ensures |r| <= |notes|
  {
    if notes == [] then []
    else
      var rest := FilterNotes(notes[..|notes| - 1], filterTags);
      if MatchesTags(notes[|notes| - 1], filterTags) then rest + [notes[|notes| - 1]] else rest
  }

  /** A filtered list holds exactly the stored notes the filter accepts; the empty filter keeps all. */
  lemma {:induction false} FilterNotesExact(notes: seq<Note>, filterTags: seq<string>)
    ensures forall n :: n in FilterNotes(notes, filterTags) <==> n in notes && MatchesTags(n, filterTags)
    ensures filterTags == [] ==> FilterNotes(notes, filterTags) == notes
  {
    if notes != [] {
      var init := notes[..|notes| - 1];
      FilterNotesExact(init, filterTags);
      assert notes == init + [notes[|notes| - 1]];
    }
  }

  /** The handler's filtering loop. */
  method FilterByTags(notes: seq<Note>, filterTags: seq<string>) returns (r: seq<Note>)
    ensures r == FilterNotes(notes, filterTags)
  {
    r := [];
    var i := 0;
    while i < |notes|
      invariant 0 <= i <= |notes|
      invariant r == FilterNotes(notes[..i], filterTags)
    {
      assert notes[..i + 1][..i] == notes[..i];
      var keep := NoteHasTags(notes[i], filterTags);
      if keep {
        r := r + [notes[i]];
      }
      i := i + 1;
    }
    assert notes[..i] == notes;
  }

  datatype GetNotesResponse =
    | GetNotesFailed(status: int, error: string)
    | NotesListed(executionId: string, notes: seq<Note>, total: int)

  /**
   * GetExecutionNotesHandler: 400 without an ID, 404 for an unknown execution,
   * otherwise the execution's notes (the empty list for nil), filtered when a
   * tag filter is given, with their count.
   */
  method GetExecutionNotes(store: ExecutionStore, executionId: string, tagsQuery: string)
    returns (response: GetNotesResponse)
    ensures executionId == "" ==> response == GetNotesFailed(400, "execution_id is required")
    ensures executionId != "" && store.GetExecutionRecord(executionId).None? ==>
      response == GetNotesFailed(404, "execution not found")
    ensures executionId != "" && store.GetExecutionRecord(executionId).Some? ==>
      var all := NotesOf(store.GetExecutionRecord(executionId).value);
      response == NotesListed(executionId, FilterNotes(all, ParseTagFilter(tagsQuery)), |FilterNotes(all, ParseTagFilter(tagsQuery))|)
  {
    if executionId == "" {
      return GetNotesFailed(400, "execution_id is required");
    }
    var filterTags := ParseTagFilter(tagsQuery);
    var execution := store.GetExecutionRecord(executionId);
    if execution.None? {
      return GetNotesFailed(404, "execution not found");
    }
    var filtered: seq<Note>;
    var all := NotesOf(execution.value);
    if |filterTags| > 0 {
      filtered := FilterByTags(all, filterTags);
    } else {
      FilterNotesExact(all, filterTags);
      filtered := all;
    }
    response := NotesListed(executionId, filtered, |filtered|);
  }

  /** Without a tag filter the listing returns every stored note. */
  lemma ListingWithoutFilterIsComplete(notes: seq<Note>)
    ensures FilterNotes(notes, ParseTagFilter("")) == notes
  {
    FilterNotesExact(notes, []);
  }

  // ---------------------------------------------------------------------------
  // Persistence of a note through the SQL store
  // ---------------------------------------------------------------------------

  /**
   * As written, the store's UPDATE writes no notes column and its SELECT reads
   * none, so the note appended by the callback does not come back: after the
   * add, the listing of the same execution is empty.
   */
  lemma NoteLostAsWritten(row: ExecutionRow, note: Note, now: int)
    ensures
      var current := ScanRowAsWritten(row);
      var out := AddNoteUpdater(row.executionId, note, now)(Some(current));
      out.Write? &&
      NotesOf(ScanRowAsWritten(UpdateColumnsAsWritten(row, out.updated.(updatedAt := now)))) == [] &&
      NotesOf(out.updated) == [note]
  {
  }

  /**
   * With the notes column written and read back, the execution returned after
   * the add holds the earlier notes followed by the new one.
   */
  lemma NoteKept(row: ExecutionRow, note: Note, now: int)
    ensures
      var current := ScanRow(row);
      var out := AddNoteUpdater(row.executionId, note, now)(Some(current));
      out.Write? &&
      NotesOf(ScanRow(UpdateColumns(row, out.updated.(updatedAt := now)))) == NotesOf(current) + [note]
  {
  }
}
