/**
 * The dashboard views of the UI API (control-plane/internal/handlers/ui/
 * dashboard.go): the two response caches with their time-to-live and key, the
 * comparison window, and the incident list, the weekly activity heat map and
 * the failure hotspots computed from the executions of the selected range.
 *
 * Times are nanoseconds since the Unix epoch, read in UTC; `time.Now()` is a
 * `now` parameter. Status normalisation (types.NormalizeExecutionStatus) is a
 * parameter `normalize`. Go's float64 ratios are reals.
 */
module Dashboard {
  import opened Text
  import opened Exec
  import Sorting

  const NanosPerSecond := 1_000_000_000
  const NanosPerHour := 3_600_000_000_000

  // ---------------------------------------------------------------------------
  // Summary cache
  // ---------------------------------------------------------------------------

  /** The small dashboard summary (agents, executions today/yesterday, success rate, packages). */
  datatype DashboardSummary = DashboardSummary(
    agentsRunning: int,
    agentsTotal: int,
    executionsToday: int,
    executionsYesterday: int,
    successRate: real,
    packagesAvailable: int,
    packagesInstalled: int)

  /** The last summary served, reused for 30 seconds. A nil pointer is `None`. */
  class DashboardCache {
    var data: Option<DashboardSummary>
    var timestamp: int
    const ttl: int

    constructor ()
      ensures data == None && timestamp == 0 && ttl == 30 * NanosPerSecond
    {
      data := None;
      timestamp := 0;
      ttl := 30 * NanosPerSecond;
    }

    /** A hit exactly when a summary is stored and it is younger than the TTL. */
    method Get(now: int) returns (r: Option<DashboardSummary>)
      ensures r.Some? <==> data.Some? && now - timestamp < ttl
      ensures r.Some? ==> r == data
    {
      if data.Some? && now - timestamp < ttl {
        r := data;
      } else {
        r := None;
      }
    }

    /** Stores the summary and restarts its age. */
    method Set(d: Option<DashboardSummary>, now: int)
      modifies this
      ensures data == d && timestamp == now
    {
      data := d;
      timestamp := now;
    }
  }

  // ---------------------------------------------------------------------------
  // Time ranges, cache keys and time-to-live
  // ---------------------------------------------------------------------------

  /** How long a cached enhanced dashboard stays valid for a range preset. */
  function TtlForPreset(preset: string): (ttl: int)
    ensures 30 * NanosPerSecond <= ttl <= 300 * NanosPerSecond
    ensures preset != "1h" && preset != "24h" && preset != "7d" && preset != "30d" ==> ttl == 60 * NanosPerSecond
  {
    if preset == "1h" then 30 * NanosPerSecond
    else if preset == "24h" then 60 * NanosPerSecond
    else if preset == "7d" then 120 * NanosPerSecond
    else if preset == "30d" then 300 * NanosPerSecond
    else 60 * NanosPerSecond
  }

  /** A longer preset range is cached for longer; a custom range is cached like 24h. */
  lemma TtlGrowsWithRange()
    ensures TtlForPreset("1h") < TtlForPreset("24h") < TtlForPreset("7d") < TtlForPreset("30d")
    ensures TtlForPreset("custom") == TtlForPreset("24h")
  {
    assert "custom" != "1h" && "custom" != "24h" && "custom" != "7d" && "custom" != "30d";
  }

  /** `t.Truncate(time.Hour).Unix()`: the start of t's hour, in whole seconds. */
  function HourStart(t: int): (s: int)
    ensures s * 1_000_000_000 <= t < s * 1_000_000_000 + 3_600_000_000_000
    ensures s % 3600 == 0
  {
    (t / NanosPerHour) * 3600
  }

  /** `fmt.Sprintf("%d-%d-%s", startHour, endHour, compareStr)` */
  function KeyText(startHour: int, endHour: int, compare: bool): (key: string)
    ensures HasSuffix(key, if compare then "-1" else "-0")
  {
    IntToString(startHour) + "-" + IntToString(endHour) + "-" + (if compare then "1" else "0")
  }

  /** The cache key of a range: both ends cut to the hour, then the comparison flag. */
  function CacheKey(startTime: int, endTime: int, compare: bool): (key: string)
    ensures HasSuffix(key, if compare then "-1" else "-0")
  {
    KeyText(HourStart(startTime), HourStart(endTime), compare)
  }

  /** The parts a cache key is made of. */
  datatype CacheKeyParts = CacheKeyParts(startHour: int, endHour: int, compare: bool)

  /** Reads `"<start>-<end>"` back; the first integer may carry a sign. */
  function ParseHours(body: string): (r: Option<(int, int)>)
  {
    if body == [] then None
    else match IndexOfChar(body[1..], '-')
      case None => None
      case Some(i) =>
        match (ParseInt(body[..i + 1]), ParseInt(body[i + 2..]))
          case (Some(s), Some(e)) => Some((s, e))
          case _ => None
  }

  /** Reads a cache key back into its parts. */
  function ParseCacheKey(key: string): (r: Option<CacheKeyParts>)
  {
    if |key| < 2 || key[|key| - 2] != '-' || (key[|key| - 1] != '0' && key[|key| - 1] != '1') then None
    else match ParseHours(key[..|key| - 2])
      case None => None
      case Some((s, e)) => Some(CacheKeyParts(s, e, key[|key| - 1] == '1'))
  }

  /** After its first character, a rendered integer holds only digits. */
  lemma NoDashAfterSign(n: int)
    ensures '-' !in IntToString(n)[1..]
  {
    var a := IntToString(n);
    var d := NatToString(if n >= 0 then n else -n);
    assert forall k :: 0 <= k < |d| ==> IsDigit(d[k]);
    if n < 0 {
      assert a[1..] == d;
    } else {
      assert forall k :: 0 <= k < |a[1..]| ==> a[1..][k] == d[k + 1];
    }
  }

  /** Two integers written `a` and `b` and joined by a dash read back as those integers. */
  lemma ParseHoursOfParts(a: string, b: string, s: int, e: int)
    requires a != [] && '-' !in a[1..]
    requires ParseInt(a) == Some(s) && ParseInt(b) == Some(e)
    ensures ParseHours(a + "-" + b) == Some((s, e))
  {
    var body := a + "-" + b;
    assert body[1..] == a[1..] + ['-'] + b;
    IndexOfCharAfter(a[1..], '-', b);
    var i := |a| - 1;
    assert body[..i + 1] == a;
    assert body[i + 2..] == b;
  }

  /** A key made of readable hours and a flag reads back as them. */
  lemma ParseKeyOfParts(body: string, compare: bool, s: int, e: int)
    requires ParseHours(body) == Some((s, e))
    ensures ParseCacheKey(body + "-" + (if compare then "1" else "0")) == Some(CacheKeyParts(s, e, compare))
  {
    var key := body + "-" + (if compare then "1" else "0");
    assert key[..|key| - 2] == body;
  }

  /** A key text reads back as the hours and flag it was made from. */
  lemma ParseKeyTextRoundTrip(startHour: int, endHour: int, compare: bool)
    ensures ParseCacheKey(KeyText(startHour, endHour, compare)) == Some(CacheKeyParts(startHour, endHour, compare))
  {
    NoDashAfterSign(startHour);
    ParseIntToString(startHour);
    ParseIntToString(endHour);
    var a := IntToString(startHour);
    var b := IntToString(endHour);
    ParseHoursOfParts(a, b, startHour, endHour);
    assert KeyText(startHour, endHour, compare) == (a + "-" + b) + "-" + (if compare then "1" else "0");
    ParseKeyOfParts(a + "-" + b, compare, startHour, endHour);
  }

  /** A cache key reads back as the hours of its range and its flag. */
  lemma ParseCacheKeyRoundTrip(startTime: int, endTime: int, compare: bool)
    ensures ParseCacheKey(CacheKey(startTime, endTime, compare))
         == Some(CacheKeyParts(HourStart(startTime), HourStart(endTime), compare))
  {
    ParseKeyTextRoundTrip(HourStart(startTime), HourStart(endTime), compare);
  }

  /** Two requests share a cache entry exactly when their hours and comparison flags agree. */
  lemma CacheKeyIdentifiesWindow(s1: int, e1: int, c1: bool, s2: int, e2: int, c2: bool)
    ensures CacheKey(s1, e1, c1) == CacheKey(s2, e2, c2)
        <==> HourStart(s1) == HourStart(s2) && HourStart(e1) == HourStart(e2) && c1 == c2
  {
    ParseCacheKeyRoundTrip(s1, e1, c1);
    ParseCacheKeyRoundTrip(s2, e2, c2);
  }

  /** The window just before [start, end), of the same length. */
  function ComparisonPeriod(startTime: int, endTime: int): (prev: (int, int))
    ensures prev.1 == startTime
    ensures prev.1 - prev.0 == endTime - startTime
  {
    (startTime - (endTime - startTime), startTime)
  }

  // ---------------------------------------------------------------------------
  // Incidents
  // ---------------------------------------------------------------------------

  /** One failed, timed-out or cancelled execution as the dashboard lists it. */
  datatype IncidentItem = IncidentItem(
    executionId: string,
    workflowId: string,
    name: string,
    status: string,
    startedAt: int,
    completedAt: Option<int>,
    agentNodeId: string,
    reasonerId: string,
    error: string)

  /** The incident row of an execution: the run is its workflow, the reasoner its name, a nil error reads as "". */
  function IncidentOf(e: Execution): IncidentItem
  {
    IncidentItem(e.executionId, e.runId, e.reasonerId, e.status, e.startedAt, e.completedAt,
                 e.agentNodeId, e.reasonerId, if e.errorMessage.Some? then e.errorMessage.value else "")
  }

  /** The incident rows of the failed, timed-out and cancelled executions, in input order. */
  function Incidents(xs: seq<Execution>, normalize: string -> string): (r: seq<IncidentItem>)
    ensures |r| == CountWhere(xs, FailedOutcome(normalize))
  {
    if xs == [] then []
    else
      var last := xs[|xs| - 1];
      Incidents(xs[..|xs| - 1], normalize) + (if FailedOutcome(normalize)(last) then [IncidentOf(last)] else [])
  }

  /** Every incident row comes from a failed, timed-out or cancelled execution, and each of those has its row. */
  lemma {:induction false} IncidentsAreFailures(xs: seq<Execution>, normalize: string -> string, item: IncidentItem)
    ensures item in Incidents(xs, normalize)
        <==> exists i :: 0 <= i < |xs| && FailedOutcome(normalize)(xs[i]) && IncidentOf(xs[i]) == item
  {
    if xs != [] {
      var init := xs[..|xs| - 1];
      IncidentsAreFailures(init, normalize, item);
      assert forall i :: 0 <= i < |init| ==> init[i] == xs[i];
      if exists i :: 0 <= i < |xs| && FailedOutcome(normalize)(xs[i]) && IncidentOf(xs[i]) == item {
        var i :| 0 <= i < |xs| && FailedOutcome(normalize)(xs[i]) && IncidentOf(xs[i]) == item;
        if i < |init| {
          assert FailedOutcome(normalize)(init[i]) && IncidentOf(init[i]) == item;
        }
      }
    }
  }

  /** Newest first: ordering by the negated start time. */
  function NewestFirst(item: IncidentItem): int
  {
    -item.startedAt
  }

  /**
   * The incidents of a range: the failed, timed-out and cancelled executions,
   * newest first, at most `limit` of them. Those left out started no later
   * than any listed one. (`make` with a negative capacity panics, hence the
   * requirement.)
   */
  method BuildIncidentItems(xs: seq<Execution>, limit: int, normalize: string -> string) returns (items: seq<IncidentItem>)
    requires limit >= 0
    ensures |items| == if CountWhere(xs, FailedOutcome(normalize)) <= limit then CountWhere(xs, FailedOutcome(normalize)) else limit
    ensures forall i, j :: 0 <= i < j < |items| ==> items[i].startedAt >= items[j].startedAt
    ensures multiset(items) <= multiset(Incidents(xs, normalize))
    ensures forall e :: e in xs && FailedOutcome(normalize)(e) ==>
              IncidentOf(e) in items || forall k :: 0 <= k < |items| ==> items[k].startedAt >= e.startedAt
  {
    var incidents := CollectIncidents(xs, normalize);
    items := NewestIncidents(xs, normalize, incidents, limit);
  }

  /** The failed executions' incident items, in input order. */
  method CollectIncidents(xs: seq<Execution>, normalize: string -> string) returns (incidents: seq<IncidentItem>)
    ensures incidents == Incidents(xs, normalize)
  {
    incidents := [];
    var i := 0;
    while i < |xs|
      invariant 0 <= i <= |xs|
      invariant incidents == Incidents(xs[..i], normalize)
    {
      assert xs[..i + 1][..i] == xs[..i];
      if FailedOutcome(normalize)(xs[i]) {
        incidents := incidents + [IncidentOf(xs[i])];
      }
      i := i + 1;
    }
    assert xs[..i] == xs;
  }

  /** The newest `limit` of the incident items, newest first. */
  method NewestIncidents(xs: seq<Execution>, normalize: string -> string, incidents: seq<IncidentItem>, limit: int)
    returns (items: seq<IncidentItem>)
    requires limit >= 0 && incidents == Incidents(xs, normalize)
    ensures |items| == if CountWhere(xs, FailedOutcome(normalize)) <= limit then CountWhere(xs, FailedOutcome(normalize)) else limit
    ensures forall i, j :: 0 <= i < j < |items| ==> items[i].startedAt >= items[j].startedAt
    ensures multiset(items) <= multiset(Incidents(xs, normalize))
    ensures forall e :: e in xs && FailedOutcome(normalize)(e) ==>
              IncidentOf(e) in items || forall k :: 0 <= k < |items| ==> items[k].startedAt >= e.startedAt
  {
    var sorted := Sorting.SortExecutions(incidents, NewestFirst);
    var n := if |sorted| > limit then limit else |sorted|;
    items := sorted[..n];
    CutOfNewestFirst(incidents, sorted, n);
    KeepsNewest(xs, normalize, sorted, n);
  }

  /** A prefix of the newest-first order is newest first and drawn from the incidents. */
  lemma CutOfNewestFirst(incidents: seq<IncidentItem>, sorted: seq<IncidentItem>, n: nat)
    requires Sorting.SortedBy(sorted, NewestFirst) && multiset(sorted) == multiset(incidents)
    requires n <= |sorted|
    ensures |sorted| == |incidents|
    ensures forall i, j :: 0 <= i < j < n ==> sorted[..n][i].startedAt >= sorted[..n][j].startedAt
    ensures multiset(sorted[..n]) <= multiset(incidents)
  {
    assert |multiset(sorted)| == |multiset(incidents)|;
    assert sorted == sorted[..n] + sorted[n..];
    assert multiset(sorted) == multiset(sorted[..n]) + multiset(sorted[n..]);
    forall i, j | 0 <= i < j < n
      ensures sorted[..n][i].startedAt >= sorted[..n][j].startedAt
    {
      assert NewestFirst(sorted[i]) <= NewestFirst(sorted[j]);
    }
  }

  /** The part of the newest-first incident list kept by the cut. */
  lemma KeepsNewest(xs: seq<Execution>, normalize: string -> string, sorted: seq<IncidentItem>, n: nat)
    requires Sorting.SortedBy(sorted, NewestFirst) && multiset(sorted) == multiset(Incidents(xs, normalize))
    requires n <= |sorted|
    ensures forall e :: e in xs && FailedOutcome(normalize)(e) ==>
              IncidentOf(e) in sorted[..n] || forall k :: 0 <= k < n ==> sorted[k].startedAt >= e.startedAt
  {
    forall e | e in xs && FailedOutcome(normalize)(e)
      ensures IncidentOf(e) in sorted[..n] || forall k :: 0 <= k < n ==> sorted[k].startedAt >= e.startedAt
    {
      var i :| 0 <= i < |xs| && xs[i] == e;
      IncidentsAreFailures(xs, normalize, IncidentOf(e));
      assert IncidentOf(e) in multiset(sorted);
      Sorting.KeptBeforeCut(sorted, NewestFirst, n, IncidentOf(e));
    }
  }

  // ---------------------------------------------------------------------------
  // Activity patterns
  // ---------------------------------------------------------------------------

  /** Executions and failures started in one hour of one weekday. */
  datatype HeatmapCell = HeatmapCell(total: int, failed: int, errorRate: real)

  /** `float64(part) / float64(whole) * 100` when `whole` is positive, 0 otherwise. */
  function Percent(part: int, whole: int): (r: real)
    ensures whole <= 0 ==> r == 0.0
    ensures 0 < whole ==> r * (whole as real) == (part as real) * 100.0
    ensures 0 <= part <= whole ==> 0.0 <= r <= 100.0
  {
    if whole > 0 then (part as real / whole as real) * 100.0 else 0.0
  }

  /** `t.Weekday()` in UTC, Sunday being 0: 1 January 1970 was a Thursday. */
  function Weekday(t: int): (d: int)
    ensures 0 <= d < 7
  {
    ((t / NanosPerSecond) / 86400 + 4) % 7
  }

  /** `t.Hour()` in UTC. */
  function HourOfDay(t: int): (h: int)
    ensures 0 <= h < 24
  {
    ((t / NanosPerSecond) % 86400) / 3600
  }

  /** A day later is the next weekday at the same hour. */
  lemma NextDay(t: int)
    ensures Weekday(t + 86_400_000_000_000) == (Weekday(t) + 1) % 7
    ensures HourOfDay(t + 86_400_000_000_000) == HourOfDay(t)
  {
    var s := t / NanosPerSecond;
    assert (t + 86_400_000_000_000) / NanosPerSecond == s + 86400;
    assert (s + 86400) / 86400 == s / 86400 + 1;
    assert (s + 86400) % 86400 == s % 86400;
  }

  /** The executions that started in hour `h` of weekday `d`. */
  function InCell(d: int, h: int): Execution -> bool
  {
    (e: Execution) => Weekday(e.startedAt) == d && HourOfDay(e.startedAt) == h
  }

  /** The failed, timed-out and cancelled executions among them. */
  function FailedInCell(d: int, h: int, normalize: string -> string): Execution -> bool
  {
    (e: Execution) => InCell(d, h)(e) && FailedOutcome(normalize)(e)
  }

  /** Seven days of twenty-four hours. */
  predicate IsGrid(g: seq<seq<HeatmapCell>>)
  {
    |g| == 7 && forall d :: 0 <= d < 7 ==> |g[d]| == 24
  }

  /** Every cell counts the executions, and the failures, that started in it. */
  predicate CountsMatch(g: seq<seq<HeatmapCell>>, xs: seq<Execution>, normalize: string -> string)
    requires IsGrid(g)
  {
    forall d, h :: 0 <= d < 7 && 0 <= h < 24 ==>
      g[d][h].total == CountWhere(xs, InCell(d, h)) && g[d][h].failed == CountWhere(xs, FailedInCell(d, h, normalize))
  }

  /** The executions counted in one row of the grid. */
  function RowTotal(row: seq<HeatmapCell>): int
  {
    if row == [] then 0 else RowTotal(row[..|row| - 1]) + row[|row| - 1].total
  }

  /** The executions counted in the whole grid. */
  function GridTotal(g: seq<seq<HeatmapCell>>): int
  {
    if g == [] then 0 else GridTotal(g[..|g| - 1]) + RowTotal(g[|g| - 1])
  }

  lemma {:induction false} RowTotalUpdate(row: seq<HeatmapCell>, h: nat, c: HeatmapCell)
    requires h < |row|
    ensures RowTotal(row[h := c]) == RowTotal(row) - row[h].total + c.total
  {
    var init := row[..|row| - 1];
    if h < |row| - 1 {
      assert row[h := c][..|row| - 1] == init[h := c];
      RowTotalUpdate(init, h, c);
    } else {
      assert row[h := c][..|row| - 1] == init;
    }
  }

  lemma {:induction false} GridTotalUpdate(g: seq<seq<HeatmapCell>>, d: nat, row: seq<HeatmapCell>)
    requires d < |g|
    ensures GridTotal(g[d := row]) == GridTotal(g) - RowTotal(g[d]) + RowTotal(row)
  {
    var init := g[..|g| - 1];
    if d < |g| - 1 {
      assert g[d := row][..|g| - 1] == init[d := row];
      GridTotalUpdate(init, d, row);
    } else {
      assert g[d := row][..|g| - 1] == init;
    }
  }

  /** Replacing one cell changes the grid total by the change in that cell's total. */
  lemma CellUpdate(g: seq<seq<HeatmapCell>>, d: nat, h: nat, c: HeatmapCell)
    requires d < |g| && h < |g[d]|
    ensures GridTotal(g[d := g[d][h := c]]) == GridTotal(g) - g[d][h].total + c.total
  {
    RowTotalUpdate(g[d], h, c);
    GridTotalUpdate(g, d, g[d][h := c]);
  }

  lemma {:induction false} EmptyRowTotal(n: nat)
    ensures RowTotal(seq(n, _ => HeatmapCell(0, 0, 0.0))) == 0
  {
    if n > 0 {
      assert seq(n, _ => HeatmapCell(0, 0, 0.0))[..n - 1] == seq(n - 1, _ => HeatmapCell(0, 0, 0.0));
      EmptyRowTotal(n - 1);
    }
  }

  lemma {:induction false} EmptyGridTotal(n: nat)
    ensures GridTotal(seq(n, _ => seq(24, _ => HeatmapCell(0, 0, 0.0)))) == 0
  {
    if n > 0 {
      assert seq(n, _ => seq(24, _ => HeatmapCell(0, 0, 0.0)))[..n - 1] == seq(n - 1, _ => seq(24, _ => HeatmapCell(0, 0, 0.0)));
      EmptyGridTotal(n - 1);
      EmptyRowTotal(24);
    }
  }

  /** Counting one more execution: only its own cell changes. */
  lemma CountStep(xs: seq<Execution>, i: nat, normalize: string -> string, d: int, h: int)
    requires i < |xs|
    ensures CountWhere(xs[..i + 1], InCell(d, h))
         == CountWhere(xs[..i], InCell(d, h)) + (if InCell(d, h)(xs[i]) then 1 else 0)
    ensures CountWhere(xs[..i + 1], FailedInCell(d, h, normalize))
         == CountWhere(xs[..i], FailedInCell(d, h, normalize)) + (if FailedInCell(d, h, normalize)(xs[i]) then 1 else 0)
  {
    assert xs[..i + 1][..i] == xs[..i];
  }

  /** Adding execution `i` to its own cell keeps every cell counting the executions before it. */
  lemma CountedOnce(g: seq<seq<HeatmapCell>>, xs: seq<Execution>, i: nat, normalize: string -> string, cell: HeatmapCell)
    requires i < |xs| && IsGrid(g) && CountsMatch(g, xs[..i], normalize)
    requires forall d, h :: 0 <= d < 7 && 0 <= h < 24 ==> g[d][h].errorRate == 0.0
    requires var e := xs[i]; var c := g[Weekday(e.startedAt)][HourOfDay(e.startedAt)];
             cell == HeatmapCell(c.total + 1, c.failed + (if FailedOutcome(normalize)(e) then 1 else 0), c.errorRate)
    ensures var g' := g[Weekday(xs[i].startedAt) := g[Weekday(xs[i].startedAt)][HourOfDay(xs[i].startedAt) := cell]];
            IsGrid(g') && CountsMatch(g', xs[..i + 1], normalize)
            && GridTotal(g') == GridTotal(g) + 1
            && forall d, h :: 0 <= d < 7 && 0 <= h < 24 ==> g'[d][h].errorRate == 0.0
  {
    var d0 := Weekday(xs[i].startedAt);
    var h0 := HourOfDay(xs[i].startedAt);
    CellUpdate(g, d0, h0, cell);
    var g': seq<seq<HeatmapCell>> := g[d0 := g[d0][h0 := cell]];
    forall d, h | 0 <= d < 7 && 0 <= h < 24
      ensures g'[d][h].total == CountWhere(xs[..i + 1], InCell(d, h))
      ensures g'[d][h].failed == CountWhere(xs[..i + 1], FailedInCell(d, h, normalize))
    {
      CountStep(xs, i, normalize, d, h);
    }
  }

  /** The two loops that build the 7x24 grid and count every execution into its cell. */
  method CountActivity(xs: seq<Execution>, normalize: string -> string) returns (heatmap: seq<seq<HeatmapCell>>)
    ensures IsGrid(heatmap) && CountsMatch(heatmap, xs, normalize)
    ensures GridTotal(heatmap) == |xs|
    ensures forall d, h :: 0 <= d < 7 && 0 <= h < 24 ==> heatmap[d][h].errorRate == 0.0
  {
    heatmap := seq(7, _ => seq(24, _ => HeatmapCell(0, 0, 0.0)));
    EmptyGridTotal(7);
    var i := 0;
    while i < |xs|
      invariant 0 <= i <= |xs|
      invariant IsGrid(heatmap) && CountsMatch(heatmap, xs[..i], normalize)
      invariant GridTotal(heatmap) == i
      invariant forall d, h :: 0 <= d < 7 && 0 <= h < 24 ==> heatmap[d][h].errorRate == 0.0
    {
      var e := xs[i];
      var dayOfWeek := Weekday(e.startedAt);
      var hourOfDay := HourOfDay(e.startedAt);
      var cell := heatmap[dayOfWeek][hourOfDay];
      cell := cell.(total := cell.total + 1);
      if FailedOutcome(normalize)(e) {
        cell := cell.(failed := cell.failed + 1);
      }
      CountedOnce(heatmap, xs, i, normalize, cell);
      heatmap := heatmap[dayOfWeek := heatmap[dayOfWeek][hourOfDay := cell]];
      i := i + 1;
    }
    assert xs[..i] == xs;
  }

  /**
   * The weekly activity heat map: a 7x24 grid (Sunday first) whose cells count
   * the executions and failures that started in that hour of that weekday,
   * with the failure percentage. The totals add up to the number of executions.
   */
  method BuildActivityPatterns(xs: seq<Execution>, normalize: string -> string) returns (heatmap: seq<seq<HeatmapCell>>)
    ensures IsGrid(heatmap) && CountsMatch(heatmap, xs, normalize)
    ensures GridTotal(heatmap) == |xs|
    ensures forall d, h :: 0 <= d < 7 && 0 <= h < 24 ==>
              0 <= heatmap[d][h].failed <= heatmap[d][h].total
              && heatmap[d][h].errorRate == Percent(heatmap[d][h].failed, heatmap[d][h].total)
  {
    heatmap := CountActivity(xs, normalize);
    forall d, h | 0 <= d < 7 && 0 <= h < 24
      ensures heatmap[d][h].failed <= heatmap[d][h].total
    {
      CountWhereMono(xs, FailedInCell(d, h, normalize), InCell(d, h));
    }
    ghost var counted: seq<seq<HeatmapCell>> := heatmap;
    for day := 0 to 7
      invariant IsGrid(heatmap) && GridTotal(heatmap) == |xs|
      invariant forall d, h :: 0 <= d < 7 && 0 <= h < 24 ==>
                  heatmap[d][h].total == counted[d][h].total && heatmap[d][h].failed == counted[d][h].failed
      invariant forall d, h :: 0 <= d < day && 0 <= h < 24 ==>
                  heatmap[d][h].errorRate == Percent(heatmap[d][h].failed, heatmap[d][h].total)
      invariant forall d, h :: day <= d < 7 && 0 <= h < 24 ==> heatmap[d][h].errorRate == 0.0
    {
      var row := RowErrorRates(heatmap[day]);
      GridTotalUpdate(heatmap, day, row);
      heatmap := heatmap[day := row];
    }
  }

  /** The inner loop of the error-rate pass: one day's cells get their failure percentage. */
  method RowErrorRates(row: seq<HeatmapCell>) returns (r: seq<HeatmapCell>)
    requires forall h :: 0 <= h < |row| ==> row[h].errorRate == 0.0
    ensures |r| == |row| && RowTotal(r) == RowTotal(row)
    ensures forall h :: 0 <= h < |row| ==>
              r[h].total == row[h].total && r[h].failed == row[h].failed
              && r[h].errorRate == Percent(row[h].failed, row[h].total)
  {
    r := row;
    for hour := 0 to |row|
      invariant |r| == |row| && RowTotal(r) == RowTotal(row)
      invariant forall h :: 0 <= h < |row| ==> r[h].total == row[h].total && r[h].failed == row[h].failed
      invariant forall h :: 0 <= h < hour ==> r[h].errorRate == Percent(row[h].failed, row[h].total)
      invariant forall h :: hour <= h < |row| ==> r[h].errorRate == 0.0
    {
      var cell := r[hour];
      if cell.total > 0 {
        cell := cell.(errorRate := (cell.failed as real / cell.total as real) * 100.0);
      }
      RowTotalUpdate(r, hour, cell);
      r := r[hour := cell];
    }
  }

  // ---------------------------------------------------------------------------
  // Hotspots
  // ---------------------------------------------------------------------------

  /** How often one (shortened) error message occurred. */
  datatype ErrorCount = ErrorCount(message: string, count: int)

  /** One reasoner's failure statistics. */
  datatype HotspotItem = HotspotItem(
    reasonerId: string,
    totalExecutions: int,
    failedExecutions: int,
    errorRate: real,
    contributionPct: real,
    topErrors: seq<ErrorCount>)

  /** What the first pass collects per reasoner. */
  datatype ReasonerStats = ReasonerStats(total: int, failed: int, errorMsgs: map<string, int>)

  const NoStats := ReasonerStats(0, 0, map[])

  /** Messages longer than 100 characters are cut to 100 followed by "...". */
  function ShortenError(m: string): (r: string)
    ensures |r| <= 103
    ensures |m| <= 100 ==> r == m
    ensures |m| > 100 ==> |r| == 103 && r[..100] == m[..100] && HasSuffix(r, "...")
  {
    if |m| > 100 then m[..100] + "..." else m
  }

  /** The message a failure contributes to its reasoner's error counts; nil and empty messages contribute none. */
  function CountedError(e: Execution): Option<string>
  {
    if e.errorMessage.Some? && e.errorMessage.value != "" then Some(ShortenError(e.errorMessage.value)) else None
  }

  function StatsOf(stats: map<string, ReasonerStats>, r: string): ReasonerStats
  {
    if r in stats then stats[r] else NoStats
  }

  /** One turn of the first loop: count `e` under its reasoner, unless it has none. */
  function AddToTally(stats: map<string, ReasonerStats>, e: Execution, normalize: string -> string): map<string, ReasonerStats>
  {
    if e.reasonerId == "" then stats
    else
      var s := StatsOf(stats, e.reasonerId);
      if FailedOutcome(normalize)(e) then
        var msgs := match CountedError(e)
          case None => s.errorMsgs
          case Some(m) => s.errorMsgs[m := CountOf(s.errorMsgs, m) + 1];
        stats[e.reasonerId := ReasonerStats(s.total + 1, s.failed + 1, msgs)]
      else stats[e.reasonerId := ReasonerStats(s.total + 1, s.failed, s.errorMsgs)]
  }

  /** The per-reasoner statistics of a list of executions. */
  function Tally(xs: seq<Execution>, normalize: string -> string): (m: map<string, ReasonerStats>)
    ensures "" !in m
    ensures forall r :: r in m ==> 0 <= m[r].failed <= m[r].total
  {
    if xs == [] then map[] else AddToTally(Tally(xs[..|xs| - 1], normalize), xs[|xs| - 1], normalize)
  }

  function OfReasoner(r: string): Execution -> bool
  {
    (e: Execution) => e.reasonerId == r
  }

  function FailedOf(r: string, normalize: string -> string): Execution -> bool
  {
    (e: Execution) => e.reasonerId == r && FailedOutcome(normalize)(e)
  }

  function ErrorOf(r: string, normalize: string -> string, m: string): Execution -> bool
  {
    (e: Execution) => e.reasonerId == r && FailedOutcome(normalize)(e) && CountedError(e) == Some(m)
  }

  /** The failures `totalFailures` counts: those of executions that name a reasoner. */
  function CountedFailure(normalize: string -> string): Execution -> bool
  {
    (e: Execution) => e.reasonerId != "" && FailedOutcome(normalize)(e)
  }

  /** A reasoner is tallied exactly when it ran, with all its runs and all its failures counted. */
  lemma {:induction false} TallyCounts(xs: seq<Execution>, normalize: string -> string, r: string)
    requires r != ""
    ensures r in Tally(xs, normalize) <==> CountWhere(xs, OfReasoner(r)) > 0
    ensures StatsOf(Tally(xs, normalize), r).total == CountWhere(xs, OfReasoner(r))
    ensures StatsOf(Tally(xs, normalize), r).failed == CountWhere(xs, FailedOf(r, normalize))
  {
    if xs != [] {
      TallyCounts(xs[..|xs| - 1], normalize, r);
    }
  }

  /** Each error message of a reasoner is counted once per failure that carries it. */
  lemma {:induction false} TallyErrorCounts(xs: seq<Execution>, normalize: string -> string, r: string, m: string)
    requires r != ""
    ensures CountOf(StatsOf(Tally(xs, normalize), r).errorMsgs, m) == CountWhere(xs, ErrorOf(r, normalize, m))
  {
    if xs != [] {
      TallyErrorCounts(xs[..|xs| - 1], normalize, r, m);
    }
  }

  /** A reasoner's failures are a share of all counted failures. */
  lemma FailuresAreAShare(xs: seq<Execution>, normalize: string -> string, r: string)
    requires r in Tally(xs, normalize)
    ensures Tally(xs, normalize)[r].failed <= CountWhere(xs, CountedFailure(normalize))
  {
    TallyCounts(xs, normalize, r);
    CountWhereMono(xs, FailedOf(r, normalize), CountedFailure(normalize));
  }

  /** The body of the first loop: count one execution. */
  method TallyOne(stats: map<string, ReasonerStats>, totalFailures: int, e: Execution, normalize: string -> string)
    returns (stats': map<string, ReasonerStats>, totalFailures': int)
    ensures stats' == AddToTally(stats, e, normalize)
    ensures totalFailures' == totalFailures + (if CountedFailure(normalize)(e) then 1 else 0)
  {
    stats', totalFailures' := stats, totalFailures;
    if e.reasonerId != "" {
      var s := if e.reasonerId in stats then stats[e.reasonerId] else NoStats;
      s := s.(total := s.total + 1);
      if FailedOutcome(normalize)(e) {
        s := s.(failed := s.failed + 1);
        totalFailures' := totalFailures + 1;
        if e.errorMessage.Some? && e.errorMessage.value != "" {
          var msg := e.errorMessage.value;
          if |msg| > 100 {
            msg := msg[..100] + "...";
          }
          s := s.(errorMsgs := s.errorMsgs[msg := CountOf(s.errorMsgs, msg) + 1]);
        }
      }
      stats' := stats[e.reasonerId := s];
    }
  }

  /** The first loop of buildHotspotSummary: per-reasoner counts and the number of counted failures. */
  method TallyReasoners(xs: seq<Execution>, normalize: string -> string) returns (stats: map<string, ReasonerStats>, totalFailures: int)
    ensures stats == Tally(xs, normalize)
    ensures totalFailures == CountWhere(xs, CountedFailure(normalize))
  {
    stats := map[];
    totalFailures := 0;
    var i := 0;
    while i < |xs|
      invariant 0 <= i <= |xs|
      invariant stats == Tally(xs[..i], normalize)
      invariant totalFailures == CountWhere(xs[..i], CountedFailure(normalize))
    {
      assert xs[..i + 1][..i] == xs[..i];
      assert Tally(xs[..i + 1], normalize) == AddToTally(stats, xs[i], normalize);
      assert CountWhere(xs[..i + 1], CountedFailure(normalize))
          == totalFailures + (if CountedFailure(normalize)(xs[i]) then 1 else 0);
      stats, totalFailures := TallyOne(stats, totalFailures, xs[i], normalize);
      i := i + 1;
    }
    assert xs[..i] == xs;
  }

  function MessageOf(c: ErrorCount): string { c.message }

  /** Most frequent first: ordering by the negated count. */
  function MostFrequentFirst(c: ErrorCount): int { -c.count }

  /** `top` holds at most three of the most frequent messages of `msgs`, most frequent first. */
  predicate IsTopErrors(top: seq<ErrorCount>, msgs: map<string, int>)
  {
    && |top| == (if |msgs| < 3 then |msgs| else 3)
    && (forall k :: 0 <= k < |top| ==> top[k].message in msgs && msgs[top[k].message] == top[k].count)
    && Sorting.UniqueKeys(top, MessageOf)
    && (forall i, j :: 0 <= i < j < |top| ==> top[i].count >= top[j].count)
    && (forall m :: m in msgs ==>
          ErrorCount(m, msgs[m]) in top || forall k :: 0 <= k < |top| ==> top[k].count >= msgs[m])
  }

  /** Every message of `msgs` listed once with its count, in some order. */
  predicate ListsAll(all: seq<ErrorCount>, msgs: map<string, int>)
  {
    && |all| == |msgs|
    && (forall k :: 0 <= k < |all| ==> all[k].message in msgs && msgs[all[k].message] == all[k].count)
    && (forall m :: m in msgs ==> ErrorCount(m, msgs[m]) in all)
    && Sorting.UniqueKeys(all, MessageOf)
  }

  /** The messages of a reasoner's failures, most frequent first, cut to three. */
  method TopErrors(msgs: map<string, int>) returns (top: seq<ErrorCount>)
    ensures IsTopErrors(top, msgs)
  {
    var all: seq<ErrorCount> := [];
    var remaining := msgs.Keys;
    while remaining != {}
      invariant remaining <= msgs.Keys
      invariant |all| + |remaining| == |msgs|
      invariant forall k :: 0 <= k < |all| ==>
                  all[k].message in msgs && all[k].message !in remaining && msgs[all[k].message] == all[k].count
      invariant forall m :: m in msgs && m !in remaining ==> ErrorCount(m, msgs[m]) in all
      invariant Sorting.UniqueKeys(all, MessageOf)
      decreases |remaining|
    {
      var m :| m in remaining;
      all := all + [ErrorCount(m, msgs[m])];
      remaining := remaining - {m};
    }
    var sorted := Sorting.SortExecutions(all, MostFrequentFirst);
    top := sorted;
    if |top| > 3 {
      top := top[..3];
    }
    TopOfSorted(all, msgs, sorted, |top|);
    assert top == sorted[..|top|];
  }

  /** Cutting the sorted message list keeps the most frequent messages. */
  lemma TopOfSorted(all: seq<ErrorCount>, msgs: map<string, int>, sorted: seq<ErrorCount>, n: nat)
    requires ListsAll(all, msgs)
    requires Sorting.SortedBy(sorted, MostFrequentFirst) && multiset(sorted) == multiset(all)
    requires n == if |msgs| < 3 then |msgs| else 3
    ensures n <= |sorted| && IsTopErrors(sorted[..n], msgs)
  {
    assert |sorted| == |multiset(all)| == |all|;
    var top := sorted[..n];
    forall k | 0 <= k < |top|
      ensures top[k].message in msgs && msgs[top[k].message] == top[k].count
    {
      assert top[k] in multiset(all);
    }
    Sorting.PermutationKeepsUniqueKeys(all, sorted, MessageOf);
    forall m | m in msgs
      ensures ErrorCount(m, msgs[m]) in top || forall k :: 0 <= k < |top| ==> top[k].count >= msgs[m]
    {
      assert ErrorCount(m, msgs[m]) in multiset(sorted);
      Sorting.KeptBeforeCut(sorted, MostFrequentFirst, n, ErrorCount(m, msgs[m]));
    }
  }

  /** The row of a reasoner with statistics `s`, out of `totalFailures` counted failures. */
  predicate IsHotspotFor(item: HotspotItem, s: ReasonerStats, totalFailures: int)
  {
    && item.totalExecutions == s.total
    && item.failedExecutions == s.failed
    && item.errorRate == Percent(s.failed, s.total)
    && item.contributionPct == Percent(s.failed, totalFailures)
    && IsTopErrors(item.topErrors, s.errorMsgs)
  }

  function ReasonerOf(item: HotspotItem): string { item.reasonerId }

  /** Most failures first: ordering by the negated failure count. */
  function MostFailuresFirst(item: HotspotItem): int { -item.failedExecutions }

  /** A row of a reasoner of `stats` that failed at least once. */
  predicate IsRow(item: HotspotItem, stats: map<string, ReasonerStats>, totalFailures: int)
  {
    item.reasonerId in stats && stats[item.reasonerId].failed != 0
    && IsHotspotFor(item, stats[item.reasonerId], totalFailures)
  }

  predicate RowsOf(items: seq<HotspotItem>, stats: map<string, ReasonerStats>, totalFailures: int)
  {
    forall k :: 0 <= k < |items| ==> IsRow(items[k], stats, totalFailures)
  }

  /** Every reasoner of `stats` outside `pending` that failed at least once has a row. */
  predicate Covers(items: seq<HotspotItem>, stats: map<string, ReasonerStats>, pending: set<string>)
  {
    forall r :: r in stats && r !in pending && stats[r].failed != 0 ==>
      exists k :: 0 <= k < |items| && items[k].reasonerId == r
  }

  /** The body of the second loop for a reasoner with failures. */
  method HotspotItemFor(r: string, s: ReasonerStats, totalFailures: int) returns (item: HotspotItem)
    ensures item.reasonerId == r && IsHotspotFor(item, s, totalFailures)
  {
    item := HotspotItem(r, s.total, s.failed, 0.0, 0.0, []);
    if s.total > 0 {
      item := item.(errorRate := (s.failed as real / s.total as real) * 100.0);
    }
    if totalFailures > 0 {
      item := item.(contributionPct := (s.failed as real / totalFailures as real) * 100.0);
    }
    var topErrors := TopErrors(s.errorMsgs);
    item := item.(topErrors := topErrors);
  }

  /** Appending the row of the reasoner just visited. */
  lemma AppendRow(items: seq<HotspotItem>, item: HotspotItem, stats: map<string, ReasonerStats>, totalFailures: int, remaining: set<string>)
    requires RowsOf(items, stats, totalFailures) && IsRow(item, stats, totalFailures)
    requires Covers(items, stats, remaining) && Sorting.UniqueKeys(items, ReasonerOf)
    requires item.reasonerId in remaining
    requires forall k :: 0 <= k < |items| ==> items[k].reasonerId !in remaining
    ensures RowsOf(items + [item], stats, totalFailures)
    ensures Covers(items + [item], stats, remaining - {item.reasonerId})
    ensures Sorting.UniqueKeys(items + [item], ReasonerOf)
    ensures forall k :: 0 <= k < |items + [item]| ==> (items + [item])[k].reasonerId !in remaining - {item.reasonerId}
  {
    AppendRowRows(items, item, stats, totalFailures);
    AppendRowCovers(items, item, stats, remaining);
    AppendRowUnique(items, item, remaining);
    AppendRowVisited(items, item, remaining);
  }

  lemma AppendRowRows(items: seq<HotspotItem>, item: HotspotItem, stats: map<string, ReasonerStats>, totalFailures: int)
    requires RowsOf(items, stats, totalFailures) && IsRow(item, stats, totalFailures)
    ensures RowsOf(items + [item], stats, totalFailures)
  {
    var next := items + [item];
    assert forall k :: 0 <= k < |items| ==> next[k] == items[k];
    assert next[|items|] == item;
  }

  lemma AppendRowCovers(items: seq<HotspotItem>, item: HotspotItem, stats: map<string, ReasonerStats>, remaining: set<string>)
    requires Covers(items, stats, remaining)
    ensures Covers(items + [item], stats, remaining - {item.reasonerId})
  {
    var next := items + [item];
    forall r | r in stats && r !in remaining - {item.reasonerId} && stats[r].failed != 0
      ensures exists k :: 0 <= k < |next| && next[k].reasonerId == r
    {
      if r == item.reasonerId {
        assert next[|items|] == item;
      } else {
        var k :| 0 <= k < |items| && items[k].reasonerId == r;
        assert next[k] == items[k];
      }
    }
  }

  lemma AppendRowUnique(items: seq<HotspotItem>, item: HotspotItem, remaining: set<string>)
    requires Sorting.UniqueKeys(items, ReasonerOf)
    requires item.reasonerId in remaining
    requires forall k :: 0 <= k < |items| ==> items[k].reasonerId !in remaining
    ensures Sorting.UniqueKeys(items + [item], ReasonerOf)
  {
    var next := items + [item];
    assert forall k :: 0 <= k < |items| ==> next[k] == items[k];
    assert next[|items|] == item;
  }

  lemma AppendRowVisited(items: seq<HotspotItem>, item: HotspotItem, remaining: set<string>)
    requires forall k :: 0 <= k < |items| ==> items[k].reasonerId !in remaining
    ensures forall k :: 0 <= k < |items + [item]| ==> (items + [item])[k].reasonerId !in remaining - {item.reasonerId}
  {
    var next := items + [item];
    assert forall k :: 0 <= k < |items| ==> next[k] == items[k];
    assert next[|items|] == item;
  }

  /** The second loop: one row per reasoner with a failure, in map order. */
  method HotspotItems(stats: map<string, ReasonerStats>, totalFailures: int) returns (items: seq<HotspotItem>)
    ensures RowsOf(items, stats, totalFailures)
    ensures Covers(items, stats, {})
    ensures Sorting.UniqueKeys(items, ReasonerOf)
  {
    items := [];
    var remaining := stats.Keys;
    while remaining != {}
      invariant remaining <= stats.Keys
      invariant RowsOf(items, stats, totalFailures)
      invariant forall k :: 0 <= k < |items| ==> items[k].reasonerId !in remaining
      invariant Covers(items, stats, remaining)
      invariant Sorting.UniqueKeys(items, ReasonerOf)
      decreases |remaining|
    {
      var r :| r in remaining;
      var s := stats[r];
      if s.failed != 0 {
        var item := HotspotItemFor(r, s, totalFailures);
        AppendRow(items, item, stats, totalFailures, remaining);
        items := items + [item];
      } else {
        assert Covers(items, stats, remaining - {r});
      }
      remaining := remaining - {r};
    }
  }

  /**
   * The failure hotspots: for each reasoner with at least one failure, its
   * executions, failures, failure percentage, share of all failures and its
   * three most frequent error messages; most failures first, at most ten rows.
   * A reasoner left out has no more failures than any listed one.
   */
  method BuildHotspotSummary(xs: seq<Execution>, normalize: string -> string) returns (items: seq<HotspotItem>)
    ensures |items| <= 10
    ensures forall i, j :: 0 <= i < j < |items| ==> items[i].failedExecutions >= items[j].failedExecutions
    ensures Sorting.UniqueKeys(items, ReasonerOf)
    ensures RowsOf(items, Tally(xs, normalize), CountWhere(xs, CountedFailure(normalize)))
    ensures TopByFailures(items, Tally(xs, normalize))
    ensures |items| == 10 || Covers(items, Tally(xs, normalize), {})
  {
    var stats, totalFailures := TallyReasoners(xs, normalize);
    items := TopHotspotItems(stats, totalFailures);
  }

  /** The second loop, the sort by failures and the cut to ten rows. */
  method TopHotspotItems(stats: map<string, ReasonerStats>, totalFailures: int) returns (items: seq<HotspotItem>)
    ensures |items| <= 10
    ensures forall i, j :: 0 <= i < j < |items| ==> items[i].failedExecutions >= items[j].failedExecutions
    ensures Sorting.UniqueKeys(items, ReasonerOf)
    ensures RowsOf(items, stats, totalFailures)
    ensures TopByFailures(items, stats)
    ensures |items| == 10 || Covers(items, stats, {})
  {
    var all := HotspotItems(stats, totalFailures);
    var sorted := Sorting.SortExecutions(all, MostFailuresFirst);
    var n := if |sorted| > 10 then 10 else |sorted|;
    items := sorted[..n];
    TopHotspots(stats, totalFailures, all, sorted, n);
  }

  /** Reordering the rows keeps every failing reasoner listed. */
  lemma ReorderedCovers(stats: map<string, ReasonerStats>, all: seq<HotspotItem>, sorted: seq<HotspotItem>)
    requires Covers(all, stats, {})
    requires multiset(sorted) == multiset(all)
    ensures Covers(sorted, stats, {})
  {
    forall r | r in stats && stats[r].failed != 0
      ensures exists k :: 0 <= k < |sorted| && sorted[k].reasonerId == r
    {
      var j :| 0 <= j < |all| && all[j].reasonerId == r;
      assert all[j] in multiset(sorted);
      var k :| 0 <= k < |sorted| && sorted[k] == all[j];
    }
  }

  /** A reasoner with failures that has no row failed no more often than any listed reasoner. */
  predicate TopByFailures(items: seq<HotspotItem>, stats: map<string, ReasonerStats>)
  {
    forall r :: r in stats && stats[r].failed != 0 ==>
      (exists k :: 0 <= k < |items| && items[k].reasonerId == r)
      || forall k :: 0 <= k < |items| ==> items[k].failedExecutions >= stats[r].failed
  }

  /** Cutting the sorted rows keeps the reasoners with the most failures. */
  lemma TopHotspots(stats: map<string, ReasonerStats>, totalFailures: int, all: seq<HotspotItem>, sorted: seq<HotspotItem>, n: nat)
    requires RowsOf(all, stats, totalFailures) && Sorting.UniqueKeys(all, ReasonerOf)
    requires Covers(all, stats, {})
    requires Sorting.SortedBy(sorted, MostFailuresFirst) && multiset(sorted) == multiset(all)
    requires n <= |sorted|
    ensures Sorting.UniqueKeys(sorted[..n], ReasonerOf)
    ensures RowsOf(sorted[..n], stats, totalFailures)
    ensures TopByFailures(sorted[..n], stats)
    ensures forall i, j :: 0 <= i < j < n ==> sorted[..n][i].failedExecutions >= sorted[..n][j].failedExecutions
    ensures n == |sorted| ==> Covers(sorted[..n], stats, {})
  {
    if n == |sorted| {
      ReorderedCovers(stats, all, sorted);
      assert sorted[..n] == sorted;
    }
    SortedRows(stats, totalFailures, all, sorted, n);
    SortedCover(stats, all, sorted, n);
    forall i, j | 0 <= i < j < n
      ensures sorted[..n][i].failedExecutions >= sorted[..n][j].failedExecutions
    {
      assert MostFailuresFirst(sorted[i]) <= MostFailuresFirst(sorted[j]);
    }
  }

  lemma SortedRows(stats: map<string, ReasonerStats>, totalFailures: int, all: seq<HotspotItem>, sorted: seq<HotspotItem>, n: nat)
    requires RowsOf(all, stats, totalFailures) && Sorting.UniqueKeys(all, ReasonerOf)
    requires multiset(sorted) == multiset(all)
    requires n <= |sorted|
    ensures Sorting.UniqueKeys(sorted[..n], ReasonerOf)
    ensures RowsOf(sorted[..n], stats, totalFailures)
  {
    Sorting.PermutationKeepsUniqueKeys(all, sorted, ReasonerOf);
    Sorting.PermutationKeepsAll(all, sorted, (item: HotspotItem) => IsRow(item, stats, totalFailures));
    assert forall k :: 0 <= k < n ==> sorted[..n][k] == sorted[k];
  }

  lemma SortedCover(stats: map<string, ReasonerStats>, all: seq<HotspotItem>, sorted: seq<HotspotItem>, n: nat)
    requires Covers(all, stats, {})
    requires Sorting.SortedBy(sorted, MostFailuresFirst) && multiset(sorted) == multiset(all)
    requires forall k :: 0 <= k < |all| ==> all[k].reasonerId in stats && all[k].failedExecutions == stats[all[k].reasonerId].failed
    requires n <= |sorted|
    ensures TopByFailures(sorted[..n], stats)
  {
    forall r | r in stats && stats[r].failed != 0
      ensures (exists k :: 0 <= k < n && sorted[..n][k].reasonerId == r)
              || forall k :: 0 <= k < n ==> sorted[..n][k].failedExecutions >= stats[r].failed
    {
      var j :| 0 <= j < |all| && all[j].reasonerId == r;
      assert all[j] in multiset(sorted);
      Sorting.KeptBeforeCut(sorted, MostFailuresFirst, n, all[j]);
      if all[j] in sorted[..n] {
        var k :| 0 <= k < n && sorted[..n][k] == all[j];
        assert sorted[..n][k].reasonerId == r;
      }
    }
  }

  /** What a hotspot row says about the executions: runs, failures and percentages of that reasoner. */
  lemma HotspotRowMeaning(xs: seq<Execution>, normalize: string -> string, item: HotspotItem)
    requires item.reasonerId in Tally(xs, normalize)
    requires IsHotspotFor(item, Tally(xs, normalize)[item.reasonerId], CountWhere(xs, CountedFailure(normalize)))
    ensures item.reasonerId != ""
    ensures item.totalExecutions == CountWhere(xs, OfReasoner(item.reasonerId))
    ensures item.failedExecutions == CountWhere(xs, FailedOf(item.reasonerId, normalize))
    ensures 0.0 <= item.errorRate <= 100.0 && 0.0 <= item.contributionPct <= 100.0
    ensures forall k :: 0 <= k < |item.topErrors| ==>
              item.topErrors[k].count == CountWhere(xs, ErrorOf(item.reasonerId, normalize, item.topErrors[k].message))
  {
    var r := item.reasonerId;
    TallyCounts(xs, normalize, r);
    FailuresAreAShare(xs, normalize, r);
    forall k | 0 <= k < |item.topErrors|
      ensures item.topErrors[k].count == CountWhere(xs, ErrorOf(r, normalize, item.topErrors[k].message))
    {
      TallyErrorCounts(xs, normalize, r, item.topErrors[k].message);
    }
  }

  // ---------------------------------------------------------------------------
  // Enhanced dashboard cache
  // ---------------------------------------------------------------------------

  /** The parts of the enhanced dashboard response this model computes. */
  datatype EnhancedDashboard = EnhancedDashboard(
    generatedAt: int,
    startTime: int,
    endTime: int,
    preset: string,
    incidents: seq<IncidentItem>,
    hotspots: seq<HotspotItem>,
    heatmap: seq<seq<HeatmapCell>>,
    previousPeriod: Option<(int, int)>)

  /** A cached response and when it was stored; a nil response pointer is `None`. */
  datatype CacheEntry = CacheEntry(data: Option<EnhancedDashboard>, timestamp: int)

  /** `k` is an entry stored no later than any other. */
  predicate IsOldest(entries: map<string, CacheEntry>, k: string)
  {
    k in entries && forall j :: j in entries ==> entries[k].timestamp <= entries[j].timestamp
  }

  /**
   * The eviction scan: visit the entries in map order, keeping the first one
   * and then any strictly older one. With no empty key in the map the result
   * is an oldest entry; "" is both the "nothing chosen yet" mark and a
   * possible key, so an empty key can end the scan on "".
   */
  method OldestEntryKey(entries: map<string, CacheEntry>) returns (oldestKey: string)
    ensures oldestKey == "" || oldestKey in entries
    ensures "" !in entries && entries != map[] ==> IsOldest(entries, oldestKey) && oldestKey != ""
    ensures entries == map[] ==> oldestKey == ""
  {
    oldestKey := "";
    var oldestTime := 0;
    var remaining := entries.Keys;
    ghost var visited: set<string> := {};
    while remaining != {}
      invariant remaining + visited == entries.Keys && remaining !! visited
      invariant oldestKey == "" || (oldestKey in visited && oldestTime == entries[oldestKey].timestamp)
      invariant "" !in entries ==> (oldestKey == "" <==> visited == {})
      invariant "" !in entries && oldestKey != "" ==> forall j :: j in visited ==> oldestTime <= entries[j].timestamp
      decreases |remaining|
    {
      var k :| k in remaining;
      if oldestKey == "" || entries[k].timestamp < oldestTime {
        oldestKey := k;
        oldestTime := entries[k].timestamp;
      }
      remaining := remaining - {k};
      visited := visited + {k};
    }
  }

  /** Cached enhanced responses by key, at most ten of them. */
  class EnhancedDashboardCache {
    var entries: map<string, CacheEntry>
    const maxSize: int := 10

    constructor ()
      ensures entries == map[]
    {
      entries := map[];
    }

    /** No empty key and no more than `maxSize` entries; keys made by CacheKey end in "-0" or "-1", so they keep it. */
    ghost predicate Bounded()
      reads this
    {
      "" !in entries && |entries| <= maxSize
    }

    /** A hit exactly when the key is stored and younger than its preset's TTL. */
    method Get(key: string, preset: string, now: int) returns (data: Option<EnhancedDashboard>, found: bool)
      ensures found <==> key in entries && now - entries[key].timestamp < TtlForPreset(preset)
      ensures found ==> data == entries[key].data
      ensures !found ==> data == None
    {
      if key !in entries {
        return None, false;
      }
      var entry := entries[key];
      var ttl := TtlForPreset(preset);
      if now - entry.timestamp >= ttl {
        return None, false;
      }
      return entry.data, true;
    }

    /**
     * Stores a response under `key`. When the cache is full it first evicts the
     * oldest entry; an empty oldest key is not evicted.
     */
    method Set(key: string, data: Option<EnhancedDashboard>, now: int)
      modifies this
      ensures |old(entries)| < maxSize ==> entries == old(entries)[key := CacheEntry(data, now)]
      ensures |old(entries)| >= maxSize && "" !in old(entries) ==>
                exists v :: IsOldest(old(entries), v) && entries == (old(entries) - {v})[key := CacheEntry(data, now)]
      ensures |old(entries)| >= maxSize && "" in old(entries) ==>
                entries == old(entries)[key := CacheEntry(data, now)]
                || exists v :: v in old(entries) && entries == (old(entries) - {v})[key := CacheEntry(data, now)]
      ensures key != "" && old(Bounded()) ==> Bounded()
    {
      if |entries| >= maxSize {
        var oldestKey := OldestEntryKey(entries);
        if oldestKey != "" {
          assert (entries - {oldestKey}).Keys == entries.Keys - {oldestKey};
          entries := entries - {oldestKey};
        }
      }
      entries := entries[key := CacheEntry(data, now)];
    }
  }
}
