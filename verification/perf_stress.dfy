/**
 * The bookkeeping of the durable-execution load generator
 * (control-plane/tools/perf/nested_workflow_stress.py): the header option
 * parser, the metrics counters, the scenario loader, the failure list kept
 * per request and the argument checks of main.
 *
 * HTTP traffic, clocks and the asyncio scheduling are not modelled: a
 * request's outcome (latency, final status, HTTP code, exception type) is an
 * input.
 */
module PerfStress {
  import opened Text

  // ---------------------------------------------------------------------------
  // --header KEY:VALUE / KEY=VALUE
  // ---------------------------------------------------------------------------

  /**
   * parse_header: split at the first ':' when there is one, otherwise at the
   * first '='; both halves are stripped. Anything else is rejected.
   */
  function ParseHeader(header: string): (r: Result<(string, string)>)
    ensures r.Err? <==> ':' !in header && '=' !in header
    ensures r.Err? ==> r.error == "invalid header '" + header + "', expected KEY:VALUE or KEY=VALUE"
    ensures ':' in header ==> r == Ok((PyStrip(SplitOnce(header, ':').0), PyStrip(SplitOnce(header, ':').1.value)))
    ensures ':' !in header && '=' in header ==> r == Ok((PyStrip(SplitOnce(header, '=').0), PyStrip(SplitOnce(header, '=').1.value)))
  {
    var (key, value) := if ':' in header then SplitOnce(header, ':') else SplitOnce(header, '=');
    if value.None? then Err("invalid header '" + header + "', expected KEY:VALUE or KEY=VALUE")
    else Ok((PyStrip(key), PyStrip(value.value)))
  }

  /** A header written "key:value" reads back as its stripped halves; the value may itself hold ':'. */
  lemma ParseColonHeader(key: string, value: string)
    requires ':' !in key
    ensures ParseHeader(key + ":" + value) == Ok((PyStrip(key), PyStrip(value)))
  {
    var h := key + ":" + value;
    assert h == key + [':'] + value;
    assert ':' in h by { assert h[|key|] == ':'; }
    SplitOnceAt(key, ':', value);
  }

  /** A header written "key=value" without any ':' reads back as its stripped halves. */
  lemma ParseEqualsHeader(key: string, value: string)
    requires ':' !in key && ':' !in value && '=' !in key
    ensures ParseHeader(key + "=" + value) == Ok((PyStrip(key), PyStrip(value)))
  {
    var h := key + "=" + value;
    assert h == key + ['='] + value;
    assert '=' in h by { assert h[|key|] == '='; }
    assert ':' !in h by {
      forall i | 0 <= i < |h| ensures h[i] != ':' {
        if i < |key| { assert h[i] == key[i]; }
        else if i > |key| { assert h[i] == value[i - |key| - 1]; }
      }
    }
    SplitOnceAt(key, '=', value);
  }

  // ---------------------------------------------------------------------------
  // Metrics
  // ---------------------------------------------------------------------------

  /** A Python float: a finite value, an infinity or NaN. */
  datatype Float = Finite(value: real) | Infinite(negative: bool) | NaN

  /** The arguments of one Metrics.record call; `exc` is the exception's type name. */
  datatype Call = Call(latency: Option<Float>, status: Option<string>, httpCode: Option<int>, exc: Option<string>)

  /** The counters of a Metrics object. */
  datatype Counters = Counters(
    total: nat,
    latencies: seq<real>,
    statusCounts: map<string, nat>,
    httpCodes: map<int, nat>,
    exceptions: map<string, nat>)

  const NoCounters := Counters(0, [], map[], map[], map[])

  /** A Counter lookup: a missing key counts zero. */
  function Tally<K>(m: map<K, nat>, k: K): nat
  {
    if k in m then m[k] else 0
  }

  /** `counter[k] += 1` */
  function Bump<K(!new)>(m: map<K, nat>, k: K): (r: map<K, nat>)
    ensures Tally(r, k) == Tally(m, k) + 1
    ensures forall j :: j != k ==> Tally(r, j) == Tally(m, j)
    ensures r.Keys == m.Keys + {k}
  {
    m[k := Tally(m, k) + 1]
  }

  /** The latency kept by a call: present and finite. */
  predicate KeepsLatency(c: Call)
  {
    c.latency.Some? && c.latency.value.Finite?
  }

  /** `if status:` */
  predicate CountsStatus(c: Call)
  {
    c.status.Some? && c.status.value != ""
  }

  /** What one record call does to the counters. */
  function Step(m: Counters, c: Call): Counters
  {
    Counters(
      m.total + 1,
      if KeepsLatency(c) then m.latencies + [c.latency.value.value] else m.latencies,
      if CountsStatus(c) then Bump(m.statusCounts, c.status.value) else m.statusCounts,
      if c.httpCode.Some? then Bump(m.httpCodes, c.httpCode.value) else m.httpCodes,
      if c.exc.Some? then Bump(m.exceptions, c.exc.value) else m.exceptions)
  }

  /** The counters after a sequence of record calls on fresh Metrics. */
  function Replay(calls: seq<Call>): Counters
  {
    if calls == [] then NoCounters else Step(Replay(calls[..|calls| - 1]), calls[|calls| - 1])
  }

  /** The finite latencies of the calls, in call order. */
  function KeptLatencies(calls: seq<Call>): (ls: seq<real>)
    ensures |ls| <= |calls|
  {
    if calls == [] then []
    else
      var c := calls[|calls| - 1];
      KeptLatencies(calls[..|calls| - 1]) + (if KeepsLatency(c) then [c.latency.value.value] else [])
  }

  function StatusCalls(calls: seq<Call>, s: string): nat
  {
    CountWhere(calls, (c: Call) => CountsStatus(c) && c.status.value == s)
  }

  function HttpCalls(calls: seq<Call>, code: int): nat
  {
    CountWhere(calls, (c: Call) => c.httpCode == Some(code))
  }

  function ExceptionCalls(calls: seq<Call>, name: string): nat
  {
    CountWhere(calls, (c: Call) => c.exc == Some(name))
  }

  /**
   * After any sequence of calls: one total per call, the finite latencies in
   * order, and every counter equal to the number of calls that gave its key.
   */
  lemma {:induction false} ReplayCounts(calls: seq<Call>)
    ensures Replay(calls).total == |calls|
    ensures Replay(calls).latencies == KeptLatencies(calls)
    ensures forall s :: Tally(Replay(calls).statusCounts, s) == StatusCalls(calls, s)
    ensures forall code :: Tally(Replay(calls).httpCodes, code) == HttpCalls(calls, code)
    ensures forall name :: Tally(Replay(calls).exceptions, name) == ExceptionCalls(calls, name)
    decreases |calls|
  {
    if calls != [] {
      var init, c := calls[..|calls| - 1], calls[|calls| - 1];
      ReplayCounts(init);
      assert calls == init + [c];
      forall s ensures Tally(Replay(calls).statusCounts, s) == StatusCalls(calls, s) {
        CountWhereAppend(init, [c], (c: Call) => CountsStatus(c) && c.status.value == s);
      }
      forall code ensures Tally(Replay(calls).httpCodes, code) == HttpCalls(calls, code) {
        CountWhereAppend(init, [c], (c: Call) => c.httpCode == Some(code));
      }
      forall name ensures Tally(Replay(calls).exceptions, name) == ExceptionCalls(calls, name) {
        CountWhereAppend(init, [c], (c: Call) => c.exc == Some(name));
      }
    }
  }

  /** No counter ever exceeds the number of calls. */
  lemma CountersBounded(calls: seq<Call>)
    ensures |Replay(calls).latencies| <= Replay(calls).total
    ensures forall s :: Tally(Replay(calls).statusCounts, s) <= Replay(calls).total
    ensures forall code :: Tally(Replay(calls).httpCodes, code) <= Replay(calls).total
    ensures forall name :: Tally(Replay(calls).exceptions, name) <= Replay(calls).total
  {
    ReplayCounts(calls);
    forall s ensures StatusCalls(calls, s) <= |calls| {
      CountWhereBound(calls, (c: Call) => CountsStatus(c) && c.status.value == s);
    }
    forall code ensures HttpCalls(calls, code) <= |calls| {
      CountWhereBound(calls, (c: Call) => c.httpCode == Some(code));
    }
    forall name ensures ExceptionCalls(calls, name) <= |calls| {
      CountWhereBound(calls, (c: Call) => c.exc == Some(name));
    }
  }

  lemma {:induction false} CountWhereBound<T>(xs: seq<T>, p: T -> bool)
    ensures CountWhere(xs, p) <= |xs|
    decreases |xs|
  {
    if xs != [] {
      CountWhereBound(xs[..|xs| - 1], p);
    }
  }

  /** The Metrics object of one load run. */
  class Metrics {
    var total: nat
    var latencies: seq<real>
    var statusCounts: map<string, nat>
    var httpCodes: map<int, nat>
    var exceptions: map<string, nat>

    function Snapshot(): Counters
      reads this
    {
      Counters(total, latencies, statusCounts, httpCodes, exceptions)
    }

    constructor ()
      ensures Snapshot() == NoCounters
    {
      total := 0;
      latencies := [];
      statusCounts := map[];
      httpCodes := map[];
      exceptions := map[];
    }

    /** Metrics.record */
    method Record(latency: Option<Float>, status: Option<string>, httpCode: Option<int>, exc: Option<string>)
      modifies this
      ensures Snapshot() == Step(old(Snapshot()), Call(latency, status, httpCode, exc))
    {
      ghost var next := Step(Snapshot(), Call(latency, status, httpCode, exc));
      var kept, statuses, codes, names := latencies, statusCounts, httpCodes, exceptions;
      if latency.Some? && latency.value.Finite? {
        kept := kept + [latency.value.value];
      }
      assert kept == next.latencies;
      if status.Some? && status.value != "" {
        statuses := statuses[status.value := Tally(statuses, status.value) + 1];
      }
      assert statuses == next.statusCounts;
      if httpCode.Some? {
        codes := codes[httpCode.value := Tally(codes, httpCode.value) + 1];
      }
      assert codes == next.httpCodes;
      if exc.Some? {
        names := names[exc.value := Tally(names, exc.value) + 1];
      }
      assert names == next.exceptions;
      total, latencies, statusCounts, httpCodes, exceptions := total + 1, kept, statuses, codes, names;
    }
  }

  // ---------------------------------------------------------------------------
  // Failures
  // ---------------------------------------------------------------------------

  const SuccessStatuses: set<string> := {"success", "succeeded", "completed"}

  /** How one request ended; `snapshot` is the response body kept for the report. */
  datatype Outcome = Outcome(sequence: nat, latency: Float, status: Option<string>, httpCode: Option<int>, exc: Option<string>, snapshot: Json)

  /** An entry of the failures list. */
  datatype Failure = Failure(sequence: nat, status: string, httpStatus: Option<int>, response: Json)

  /** `final_status and final_status not in SUCCESS_STATUSES` */
  predicate Failed(o: Outcome)
  {
    o.status.Some? && o.status.value != "" && o.status.value !in SuccessStatuses
  }

  function FailureOf(o: Outcome): Failure
    requires Failed(o)
  {
    Failure(o.sequence, o.status.value, o.httpCode, o.snapshot)
  }

  /** The failures list after the requests finished in the given order. */
  function Failures(outcomes: seq<Outcome>): (fs: seq<Failure>)
    ensures |fs| <= |outcomes|
  {
    if outcomes == [] then []
    else
      var o := outcomes[|outcomes| - 1];
      Failures(outcomes[..|outcomes| - 1]) + (if Failed(o) then [FailureOf(o)] else [])
  }

  /** Every failed request is listed with its sequence number and status, and nothing else is. */
  lemma {:induction false} FailuresExact(outcomes: seq<Outcome>)
    ensures forall i :: 0 <= i < |outcomes| && Failed(outcomes[i]) ==> FailureOf(outcomes[i]) in Failures(outcomes)
    ensures forall f :: f in Failures(outcomes) ==> f.status != "" && f.status !in SuccessStatuses
    ensures forall f :: f in Failures(outcomes) ==> exists i :: 0 <= i < |outcomes| && outcomes[i].sequence == f.sequence
    ensures |Failures(outcomes)| == CountWhere(outcomes, Failed)
    decreases |outcomes|
  {
    if outcomes != [] {
      var init, o := outcomes[..|outcomes| - 1], outcomes[|outcomes| - 1];
      FailuresExact(init);
      assert outcomes == init + [o];
      CountWhereAppend(init, [o], Failed);
      forall f | f in Failures(outcomes)
        ensures exists i :: 0 <= i < |outcomes| && outcomes[i].sequence == f.sequence
      {
        if f in Failures(init) {
          var i :| 0 <= i < |init| && init[i].sequence == f.sequence;
          assert outcomes[i] == init[i];
        } else {
          assert outcomes[|init|].sequence == f.sequence;
        }
      }
    }
  }

  /** The call a finished request makes to Metrics.record. */
  function CallOf(o: Outcome): Call
  {
    Call(Some(o.latency), o.status, o.httpCode, o.exc)
  }

  /**
   * The tail of invoke_request: record the outcome in the metrics, then
   * append a failure entry when the final status is set and not a success.
   */
  method FinishRequest(metrics: Metrics, failures: seq<Failure>, o: Outcome) returns (failures': seq<Failure>)
    modifies metrics
    ensures metrics.Snapshot() == Step(old(metrics.Snapshot()), CallOf(o))
    ensures failures' == failures + (if Failed(o) then [FailureOf(o)] else [])
  {
    metrics.Record(Some(o.latency), o.status, o.httpCode, o.exc);
    failures' := failures;
    if o.status.Some? && o.status.value != "" && o.status.value !in SuccessStatuses {
      failures' := failures' + [Failure(o.sequence, o.status.value, o.httpCode, o.snapshot)];
    }
  }

  /** The record calls of requests finishing in the given order. */
  function CallsOf(outcomes: seq<Outcome>): (calls: seq<Call>)
    ensures |calls| == |outcomes|
    ensures forall i :: 0 <= i < |outcomes| ==> calls[i] == CallOf(outcomes[i])
  {
    seq(|outcomes|, i requires 0 <= i < |outcomes| => CallOf(outcomes[i]))
  }

  /** The counters after the given calls, starting from `m` rather than from nothing. */
  function ReplayFrom(m: Counters, calls: seq<Call>): Counters
  {
    if calls == [] then m else Step(ReplayFrom(m, calls[..|calls| - 1]), calls[|calls| - 1])
  }

  /** Replaying from fresh counters is Replay, so ReplayCounts describes a run that starts from a new Metrics. */
  lemma {:induction false} ReplayFromFresh(calls: seq<Call>)
    ensures ReplayFrom(NoCounters, calls) == Replay(calls)
    decreases |calls|
  {
    if calls != [] {
      ReplayFromFresh(calls[..|calls| - 1]);
    }
  }

  /** One more call is one more step. */
  lemma ReplayFromSnoc(m: Counters, calls: seq<Call>, c: Call)
    ensures ReplayFrom(m, calls + [c]) == Step(ReplayFrom(m, calls), c)
  {
    assert (calls + [c])[..|calls|] == calls;
  }

  /**
   * Requests finishing one after another leave the failures list equal to
   * Failures of their outcomes, and the metrics equal to the old metrics with
   * each request's record call replayed, in order.
   */
  method FinishAll(metrics: Metrics, outcomes: seq<Outcome>) returns (failures: seq<Failure>)
    modifies metrics
    ensures failures == Failures(outcomes)
    ensures metrics.Snapshot() == ReplayFrom(old(metrics.Snapshot()), CallsOf(outcomes))
    ensures metrics.total == old(metrics.total) + |outcomes|
  {
    failures := [];
    var i := 0;
    while i < |outcomes|
      invariant 0 <= i <= |outcomes|
      invariant failures == Failures(outcomes[..i])
      invariant metrics.Snapshot() == ReplayFrom(old(metrics.Snapshot()), CallsOf(outcomes[..i]))
      invariant metrics.total == old(metrics.total) + i
    {
      assert outcomes[..i + 1][..i] == outcomes[..i];
      assert CallsOf(outcomes[..i + 1]) == CallsOf(outcomes[..i]) + [CallOf(outcomes[i])];
      ReplayFromSnoc(old(metrics.Snapshot()), CallsOf(outcomes[..i]), CallOf(outcomes[i]));
      failures := FinishRequest(metrics, failures, outcomes[i]);
      i := i + 1;
    }
    assert outcomes[..i] == outcomes;
  }

  // ---------------------------------------------------------------------------
  // Scenarios
  // ---------------------------------------------------------------------------

  /** A scenario: its name (whatever JSON value the entry gave) and its overrides. */
  datatype Scenario = Scenario(name: Json, overrides: map<string, Json>)

  const DefaultScenario := Scenario(JStr("default"), map[])

  /** Python truthiness of a JSON value. */
  predicate Truthy(j: Json)
  {
    match j
      case JNull => false
      case JBool(b) => b
      case JNum(n) => n != 0
      case JStr(s) => s != ""
      case JArr(items) => items != []
      case JObj(fields) => fields != map[]
  }

  /** `entry.get("name") or f"scenario_{idx + 1}"` */
  function ScenarioName(fields: map<string, Json>, idx: nat): Json
  {
    if "name" in fields && Truthy(fields["name"]) then fields["name"]
    else JStr("scenario_" + NatToString(idx + 1))
  }

  /** The scenario of entry `idx`, when it is an object. */
  function ScenarioAt(entry: Json, idx: nat): Option<Scenario>
  {
    if entry.JObj? then Some(Scenario(ScenarioName(entry.fields, idx), entry.fields - {"name"})) else None
  }

  /** The scenarios of the object entries, in order. */
  function ScenariosOf(data: seq<Json>): (ss: seq<Scenario>)
    ensures |ss| <= |data|
  {
    if data == [] then []
    else
      var s := ScenarioAt(data[|data| - 1], |data| - 1);
      ScenariosOf(data[..|data| - 1]) + (if s.Some? then [s.value] else [])
  }

  /**
   * load_scenarios on the scenario file: None when no file was given, else
   * the file's text already decoded (an `Err` is a JSON syntax error).
   */
  function Scenarios(file: Option<Result<Json>>): (r: Result<seq<Scenario>>)
    ensures r.Ok? ==> r.value != []
  {
    match file
      case None => Ok([DefaultScenario])
      case Some(Err(e)) => Err("Scenario file must contain valid JSON: " + e)
      case Some(Ok(data)) =>
        var entries := if data.JObj? then [data] else if data.JArr? then data.items else [];
        if !data.JObj? && !data.JArr? then Err("Scenario file must describe a list of scenario objects")
        else
          var ss := ScenariosOf(entries);
          if ss == [] then Ok([DefaultScenario]) else Ok(ss)
  }

  /** Every scenario comes from an object entry, its overrides never hold "name", and its name is truthy. */
  lemma {:induction false} ScenariosOfEntries(data: seq<Json>)
    ensures |ScenariosOf(data)| == CountWhere(data, (j: Json) => j.JObj?)
    ensures forall s :: s in ScenariosOf(data) ==> "name" !in s.overrides && Truthy(s.name)
    ensures forall i :: 0 <= i < |data| && data[i].JObj? ==> ScenarioAt(data[i], i).value in ScenariosOf(data)
    decreases |data|
  {
    if data != [] {
      var init := data[..|data| - 1];
      ScenariosOfEntries(init);
      assert data == init + [data[|data| - 1]];
      CountWhereAppend(init, [data[|data| - 1]], (j: Json) => j.JObj?);
      var last := ScenarioAt(data[|data| - 1], |data| - 1);
      if last.Some? {
        assert "name" !in last.value.overrides;
        var n := NatToString(|data|);
        assert Truthy(last.value.name) by {
          assert "scenario_" + n != "";
        }
      }
    }
  }

  /** A single object in the file is a one-scenario list. */
  lemma SingleObjectScenario(fields: map<string, Json>)
    ensures Scenarios(Some(Ok(JObj(fields)))) == Ok([Scenario(ScenarioName(fields, 0), fields - {"name"})])
  {
    var d := [JObj(fields)];
    var sc := Scenario(ScenarioName(fields, 0), fields - {"name"});
    assert d[..|d| - 1] == [];
    assert ScenarioAt(d[0], 0) == Some(sc);
    assert ScenariosOf(d) == [sc];
  }

  /** A list with no object in it falls back to the default scenario. */
  lemma NoObjectsFallBack(items: seq<Json>)
    requires forall i :: 0 <= i < |items| ==> !items[i].JObj?
    ensures Scenarios(Some(Ok(JArr(items)))) == Ok([DefaultScenario])
  {
    ScenariosOfEntries(items);
    CountWhereNone(items, (j: Json) => j.JObj?);
  }

  lemma {:induction false} CountWhereNone<T>(xs: seq<T>, p: T -> bool)
    requires forall i :: 0 <= i < |xs| ==> !p(xs[i])
    ensures CountWhere(xs, p) == 0
    decreases |xs|
  {
    if xs != [] {
      CountWhereNone(xs[..|xs| - 1], p);
    }
  }

  /** load_scenarios: the loop over the entries. */
  method LoadScenarios(file: Option<Result<Json>>) returns (r: Result<seq<Scenario>>)
    ensures r == Scenarios(file)
  {
    if file.None? {
      return Ok([DefaultScenario]);
    }
    if file.value.Err? {
      return Err("Scenario file must contain valid JSON: " + file.value.error);
    }
    var data := file.value.value;
    var entries: seq<Json>;
    if data.JObj? {
      entries := [data];
    } else if data.JArr? {
      entries := data.items;
    } else {
      return Err("Scenario file must describe a list of scenario objects");
    }
    var scenarios: seq<Scenario> := [];
    var idx := 0;
    while idx < |entries|
      invariant 0 <= idx <= |entries|
      invariant scenarios == ScenariosOf(entries[..idx])
    {
      assert entries[..idx + 1][..idx] == entries[..idx];
      var entry := entries[idx];
      if entry.JObj? {
        var name := if "name" in entry.fields && Truthy(entry.fields["name"]) then entry.fields["name"]
                    else JStr("scenario_" + NatToString(idx + 1));
        var overrides := map k | k in entry.fields && k != "name" :: entry.fields[k];
        assert overrides == entry.fields - {"name"};
        scenarios := scenarios + [Scenario(name, overrides)];
      }
      idx := idx + 1;
    }
    assert entries[..idx] == entries;
    if scenarios == [] {
      scenarios := [DefaultScenario];
    }
    return Ok(scenarios);
  }

  // ---------------------------------------------------------------------------
  // Argument checks
  // ---------------------------------------------------------------------------

  /** main: the request count is checked first, then the concurrency. */
  function CheckCounts(requests: int, concurrency: int): (r: Result<()>)
    ensures r.Ok? <==> requests > 0 && concurrency > 0
    ensures requests <= 0 ==> r == Err("--requests must be positive")
    ensures requests > 0 && concurrency <= 0 ==> r == Err("--concurrency must be positive")
  {
    if requests <= 0 then Err("--requests must be positive")
    else if concurrency <= 0 then Err("--concurrency must be positive")
    else Ok(())
  }
}
