/** The dashboard's seven daily counts of audit events and failed executions. */
module EventSeries {
  import opened Wrappers
  import opened Counting
  import opened Decimal
  import opened Calendar
  import opened TenantTables
  import AuditLog
  import WorkflowStore

  const SERIES_DAYS := 7

  datatype ExecutionStamp = ExecutionStamp(status: WorkflowStore.ExecutionStatus, createdAt: int)

  /** A row of the grouped query; COUNT(*) arrives as text. */
  datatype DailyCount = DailyCount(day: string, count: string)

  datatype Point = Point(time: string, events: int, failures: int)

  // ---------------------------------------------------------------------
  // What the database answers
  // ---------------------------------------------------------------------

  /** The times of the tenant's audit events. */
  function EventTimes(t: Table<AuditLog.AuditEvent>, tenant: string): seq<int> {
    if t == [] then []
    else (if t[0].tenantId == tenant then [t[0].data.occurredAt] else []) + EventTimes(t[1..], tenant)
  }

  /** The creation times of the tenant's failed executions. */
  function FailureTimes(t: Table<ExecutionStamp>, tenant: string): seq<int> {
    if t == [] then []
    else
      (if t[0].tenantId == tenant && t[0].data.status == WorkflowStore.Failed then [t[0].data.createdAt] else []) +
      FailureTimes(t[1..], tenant)
  }

  function Since(times: seq<int>, from: int): seq<int> {
    if times == [] then [] else (if times[0] >= from then [times[0]] else []) + Since(times[1..], from)
  }

  /** How many of the times lie in `[lo, hi)`. */
  function Count(times: seq<int>, lo: int, hi: int): nat {
    if times == [] then 0 else (if lo <= times[0] < hi then 1 else 0) + Count(times[1..], lo, hi)
  }

  /** to_char(time AT TIME ZONE 'UTC', 'YYYY-MM-DD') */
  function DayKey(t: int): string {
    FormatDay(Day(t))
  }

  function CountKey(times: seq<int>, key: string): nat {
    if times == [] then 0 else (if DayKey(times[0]) == key then 1 else 0) + CountKey(times[1..], key)
  }

  /** GROUP BY day: one row for every day that occurs, in any order. */
  predicate Grouped(rows: seq<DailyCount>, times: seq<int>) {
    && (forall i, j :: 0 <= i < j < |rows| ==> rows[i].day != rows[j].day)
    && (forall i :: 0 <= i < |rows| ==> rows[i].count == ToDecimal(CountKey(times, rows[i].day)))
    && (forall k :: 0 <= k < |times| ==> exists i :: 0 <= i < |rows| && rows[i].day == DayKey(times[k]))
  }

  // ---------------------------------------------------------------------
  // The handler
  // ---------------------------------------------------------------------

  /** Number(text) of a decimal integer. */
  function Number(text: string): int
    requires ParseInt(text).Some?
  {
    ParseInt(text).value
  }

  predicate Countable(rows: seq<DailyCount>) {
    forall i :: 0 <= i < |rows| ==> ParseInt(rows[i].count).Some?
  }

  /** The last row of a day decides. */
  function LastCount(rows: seq<DailyCount>, day: string): Option<int>
    requires Countable(rows)
  {
    if rows == [] then None
    else if rows[|rows| - 1].day == day then Some(Number(rows[|rows| - 1].count))
    else LastCount(rows[..|rows| - 1], day)
  }

  method IndexByDay(rows: seq<DailyCount>) returns (index: map<string, int>)
    requires Countable(rows)
    ensures Indexes(index, rows)
  {
    index := map[];
    for n := 0 to |rows|
      invariant forall day :: (if day in index then Some(index[day]) else None) == LastCount(rows[..n], day)
    {
      assert rows[..n + 1][..n] == rows[..n];
      index := index[rows[n].day := Number(rows[n].count)];
    }
    assert rows[..|rows|] == rows;
  }

  /** Midnight six days before today. */
  function WindowStart(now: int): int {
    StartOfUtcDay(now) - (SERIES_DAYS - 1) * DAY_MS
  }

  /** Day `i` of the window, counted from the rows themselves. */
  function CountedPoint(events: seq<int>, failures: seq<int>, start: int, i: nat): Point {
    var lo := start + i * DAY_MS;
    Point(DayKey(lo), Count(events, lo, lo + DAY_MS), Count(failures, lo, lo + DAY_MS))
  }

  /** The loop over the days of the window. */
  method Fill(start: int, eventsByDay: map<string, int>, failuresByDay: map<string, int>) returns (series: seq<Point>)
    ensures |series| == SERIES_DAYS
    ensures forall i :: 0 <= i < SERIES_DAYS ==> series[i] == FilledPoint(start, eventsByDay, failuresByDay, i)
  {
    hide DayKey;
    series := [];
    for i := 0 to SERIES_DAYS
      invariant |series| == i
      invariant forall k :: 0 <= k < i ==> series[k] == FilledPoint(start, eventsByDay, failuresByDay, k)
    {
      series := series + [FilledPoint(start, eventsByDay, failuresByDay, i)];
    }
  }

  function FilledPoint(start: int, eventsByDay: map<string, int>, failuresByDay: map<string, int>, i: nat): Point {
    var key := DayKey(start + i * DAY_MS);
    Point(key,
          if key in eventsByDay then eventsByDay[key] else 0,
          if key in failuresByDay then failuresByDay[key] else 0)
  }

  /**
   * `eventRows` and `failureRows` are what the two queries answer. The context getter
   * fails when no context is active.
   */
  method Execute(ctx: Option<string>, now: int, events: Table<AuditLog.AuditEvent>, executions: Table<ExecutionStamp>,
                 eventRows: seq<DailyCount>, failureRows: seq<DailyCount>)
    returns (r: Result<seq<Point>, Error>)
    requires ctx.Some? ==> Grouped(eventRows, Since(EventTimes(events, ctx.value), WindowStart(now)))
    requires ctx.Some? ==> Grouped(failureRows, Since(FailureTimes(executions, ctx.value), WindowStart(now)))
    ensures ctx.None? ==> r == Failure(NoContext)
    ensures ctx.Some? ==> r.Success? && |r.value| == SERIES_DAYS
    ensures ctx.Some? ==> forall i :: 0 <= i < SERIES_DAYS ==>
      r.value[i] == CountedPoint(EventTimes(events, ctx.value), FailureTimes(executions, ctx.value), WindowStart(now), i)
    ensures ctx.Some? ==> |r.value| == 7 && forall i :: 0 <= i < 7 ==>
      var lo := StartOfUtcDay(now) + (i - 6) * 86_400_000;
      var hi := lo + 86_400_000;
      && r.value[i].time == FormatDay(Day(lo))
      && r.value[i].events == |set k: nat |
           k < |events| && events[k].tenantId == ctx.value && lo <= events[k].data.occurredAt < hi|
      && r.value[i].failures == |set k: nat |
           && k < |executions| && executions[k].tenantId == ctx.value && executions[k].data.status == WorkflowStore.Failed
           && lo <= executions[k].data.createdAt < hi|
  {
    if ctx.None? {
      return Failure(NoContext);
    }
    var start := WindowStart(now);
    WindowStartsAtMidnight(now);
    GroupedIsCountable(eventRows, Since(EventTimes(events, ctx.value), start));
    GroupedIsCountable(failureRows, Since(FailureTimes(executions, ctx.value), start));
    var eventsByDay := IndexByDay(eventRows);
    var failuresByDay := IndexByDay(failureRows);
    var series := Fill(start, eventsByDay, failuresByDay);
    forall i | 0 <= i < SERIES_DAYS
      ensures series[i] == CountedPoint(EventTimes(events, ctx.value), FailureTimes(executions, ctx.value), start, i)
    {
      FilledIsCounted(eventRows, failureRows, eventsByDay, failuresByDay,
                      EventTimes(events, ctx.value), FailureTimes(executions, ctx.value), start, i);
    }
    hide EventTimes, FailureTimes, Count, DayKey, StartOfUtcDay, Grouped;
    forall i | 0 <= i < SERIES_DAYS {
      PointCounts(events, executions, ctx.value, now, i);
    }
    return Success(series);
  }

  // ---------------------------------------------------------------------
  // Grouping, indexing and filling amount to counting
  // ---------------------------------------------------------------------

  lemma GroupedIsCountable(rows: seq<DailyCount>, times: seq<int>)
    requires Grouped(rows, times)
    ensures Countable(rows)
  {
    forall i | 0 <= i < |rows| ensures ParseInt(rows[i].count).Some? {
      ParseIntOfDecimal(CountKey(times, rows[i].day));
    }
  }

  lemma WindowStartsAtMidnight(now: int)
    ensures WindowStart(now) % DAY_MS == 0
  {
    StartOfUtcDayIff(now);
    DaysApart(StartOfUtcDay(now), -(SERIES_DAYS - 1));
  }

  lemma DaysApart(midnight: int, n: int)
    requires midnight % DAY_MS == 0
    ensures (midnight + n * DAY_MS) % DAY_MS == 0
  {
  }

  lemma SameDayIff(t: int, start: int)
    requires start % DAY_MS == 0
    ensures Day(t) == Day(start) <==> start <= t < start + DAY_MS
  {
  }

  /** A time shares its key with the midnight of its own day only. */
  lemma KeyIff(t: int, start: int)
    requires start % DAY_MS == 0
    ensures DayKey(t) == DayKey(start) <==> start <= t < start + DAY_MS
  {
    hide FormatDay;
    SameDayIff(t, start);
    if FormatDay(Day(t)) == FormatDay(Day(start)) {
      FormatDayIsInjective(Day(t), Day(start));
    }
  }

  lemma {:induction false} KeyCountsDay(times: seq<int>, start: int)
    requires start % DAY_MS == 0
    ensures CountKey(times, DayKey(start)) == Count(times, start, start + DAY_MS)
  {
    if times != [] {
      KeyCountsDay(times[1..], start);
      KeyIff(times[0], start);
    }
  }

  lemma {:induction false} SinceKeepsCounts(times: seq<int>, from: int, lo: int, hi: int)
    requires from <= lo
    ensures Count(Since(times, from), lo, hi) == Count(times, lo, hi)
  {
    if times != [] {
      SinceKeepsCounts(times[1..], from, lo, hi);
      var rest := Since(times[1..], from);
      assert Since(times, from) == if times[0] >= from then [times[0]] + rest else rest;
      assert ([times[0]] + rest)[1..] == rest;
    }
  }

  lemma {:induction false} LastCountOfDistinct(rows: seq<DailyCount>, day: string, i: nat)
    requires Countable(rows) && i < |rows| && rows[i].day == day
    requires forall j, k :: 0 <= j < k < |rows| ==> rows[j].day != rows[k].day
    ensures LastCount(rows, day) == Some(Number(rows[i].count))
  {
    hide ParseInt;
    if i < |rows| - 1 {
      assert rows[i].day != rows[|rows| - 1].day;
      LastCountOfDistinct(rows[..|rows| - 1], day, i);
    }
  }

  lemma {:induction false} LastCountOfAbsent(rows: seq<DailyCount>, day: string)
    requires Countable(rows) && forall i :: 0 <= i < |rows| ==> rows[i].day != day
    ensures LastCount(rows, day) == None
  {
    hide ParseInt;
    if rows != [] {
      LastCountOfAbsent(rows[..|rows| - 1], day);
    }
  }

  lemma {:induction false} AbsentKey(times: seq<int>, key: string)
    requires forall k :: 0 <= k < |times| ==> DayKey(times[k]) != key
    ensures CountKey(times, key) == 0
  {
    if times != [] {
      AbsentKey(times[1..], key);
    }
  }

  lemma IndexCounts(rows: seq<DailyCount>, times: seq<int>, start: int, lo: int)
    requires start <= lo && lo % DAY_MS == 0
    requires Grouped(rows, Since(times, start)) && Countable(rows)
    ensures LastCount(rows, DayKey(lo)).GetOr(0) == Count(times, lo, lo + DAY_MS)
  {
    var recent, key := Since(times, start), DayKey(lo);
    KeyCountsDay(recent, lo);
    SinceKeepsCounts(times, start, lo, lo + DAY_MS);
    if i :| 0 <= i < |rows| && rows[i].day == key {
      LastCountOfDistinct(rows, key, i);
      ParseIntOfDecimal(CountKey(recent, key));
    } else {
      LastCountOfAbsent(rows, key);
      AbsentKey(recent, key);
    }
  }

  /** `index` holds what the last row of each day says. */
  ghost predicate Indexes(index: map<string, int>, rows: seq<DailyCount>)
    requires Countable(rows)
  {
    forall day :: (if day in index then Some(index[day]) else None) == LastCount(rows, day)
  }

  lemma IndexedIsCounted(rows: seq<DailyCount>, index: map<string, int>, times: seq<int>, start: int, lo: int)
    requires start <= lo && lo % DAY_MS == 0
    requires Countable(rows) && Grouped(rows, Since(times, start)) && Indexes(index, rows)
    ensures (if DayKey(lo) in index then index[DayKey(lo)] else 0) == Count(times, lo, lo + DAY_MS)
  {
    hide DayKey;
    IndexCounts(rows, times, start, lo);
  }

  lemma FilledIsCounted(eventRows: seq<DailyCount>, failureRows: seq<DailyCount>,
                        eventsByDay: map<string, int>, failuresByDay: map<string, int>,
                        events: seq<int>, failures: seq<int>, start: int, i: nat)
    requires start % DAY_MS == 0
    requires Countable(eventRows) && Grouped(eventRows, Since(events, start)) && Indexes(eventsByDay, eventRows)
    requires Countable(failureRows) && Grouped(failureRows, Since(failures, start)) && Indexes(failuresByDay, failureRows)
    ensures FilledPoint(start, eventsByDay, failuresByDay, i) == CountedPoint(events, failures, start, i)
  {
    hide DayKey, Grouped, Indexes, Countable, Count, Since;
    var lo := start + i * DAY_MS;
    DaysApart(start, i);
    IndexedIsCounted(eventRows, eventsByDay, events, start, lo);
    IndexedIsCounted(failureRows, failuresByDay, failures, start, lo);
  }

  // ---------------------------------------------------------------------
  // What is counted, by the columns of the two tables
  // ---------------------------------------------------------------------

  lemma CountFrom(mine: bool, time: int, rest: seq<int>, lo: int, hi: int)
    ensures Count((if mine then [time] else []) + rest, lo, hi) ==
            (if mine && lo <= time < hi then 1 else 0) + Count(rest, lo, hi)
  {
    assert ([time] + rest)[1..] == rest && [] + rest == rest;
  }

  lemma {:induction false} EventsAreCounted(t: Table<AuditLog.AuditEvent>, tenant: string, lo: int, hi: int, p: nat -> bool)
    requires forall k: nat :: k < |t| ==> (p(k) <==> t[k].tenantId == tenant && lo <= t[k].data.occurredAt < hi)
    ensures Count(EventTimes(t, tenant), lo, hi) == CountBelow(|t|, p)
  {
    if t != [] {
      hide Count;
      var rest := EventTimes(t[1..], tenant);
      var q := (k: nat) => p(k + 1);
      EventsAreCounted(t[1..], tenant, lo, hi, q);
      CountFirst(|t|, p);
      CountSame(|t| - 1, q, (k: nat) => p(k + 1));
      CountFrom(t[0].tenantId == tenant, t[0].data.occurredAt, rest, lo, hi);
    }
  }

  lemma {:induction false} FailuresAreCounted(t: Table<ExecutionStamp>, tenant: string, lo: int, hi: int, p: nat -> bool)
    requires forall k: nat :: k < |t| ==>
      (p(k) <==> t[k].tenantId == tenant && t[k].data.status == WorkflowStore.Failed && lo <= t[k].data.createdAt < hi)
    ensures Count(FailureTimes(t, tenant), lo, hi) == CountBelow(|t|, p)
  {
    if t != [] {
      hide Count;
      var rest := FailureTimes(t[1..], tenant);
      var q := (k: nat) => p(k + 1);
      FailuresAreCounted(t[1..], tenant, lo, hi, q);
      CountFirst(|t|, p);
      CountSame(|t| - 1, q, (k: nat) => p(k + 1));
      CountFrom(t[0].tenantId == tenant && t[0].data.status == WorkflowStore.Failed, t[0].data.createdAt, rest, lo, hi);
    }
  }

  lemma EventCount(t: Table<AuditLog.AuditEvent>, tenant: string, lo: int, hi: int)
    ensures Count(EventTimes(t, tenant), lo, hi) ==
            |set k: nat | k < |t| && t[k].tenantId == tenant && lo <= t[k].data.occurredAt < hi|
  {
    var p := (k: nat) => k < |t| && t[k].tenantId == tenant && lo <= t[k].data.occurredAt < hi;
    EventsAreCounted(t, tenant, lo, hi, p);
    CountIsSize(|t|, p);
    assert (set k: nat | k < |t| && p(k)) ==
           set k: nat | k < |t| && t[k].tenantId == tenant && lo <= t[k].data.occurredAt < hi;
  }

  lemma FailureCount(t: Table<ExecutionStamp>, tenant: string, lo: int, hi: int)
    ensures Count(FailureTimes(t, tenant), lo, hi) ==
            |set k: nat |
              && k < |t| && t[k].tenantId == tenant && t[k].data.status == WorkflowStore.Failed
              && lo <= t[k].data.createdAt < hi|
  {
    var p := (k: nat) =>
      k < |t| && t[k].tenantId == tenant && t[k].data.status == WorkflowStore.Failed && lo <= t[k].data.createdAt < hi;
    FailuresAreCounted(t, tenant, lo, hi, p);
    CountIsSize(|t|, p);
    assert (set k: nat | k < |t| && p(k)) ==
           set k: nat |
             && k < |t| && t[k].tenantId == tenant && t[k].data.status == WorkflowStore.Failed
             && lo <= t[k].data.createdAt < hi;
  }

  lemma PointCounts(events: Table<AuditLog.AuditEvent>, executions: Table<ExecutionStamp>, tenant: string, now: int, i: nat)
    ensures
      var point := CountedPoint(EventTimes(events, tenant), FailureTimes(executions, tenant), WindowStart(now), i);
      var lo := StartOfUtcDay(now) + (i - 6) * 86_400_000;
      var hi := lo + 86_400_000;
      && point.time == FormatDay(Day(lo))
      && point.events == |set k: nat |
           k < |events| && events[k].tenantId == tenant && lo <= events[k].data.occurredAt < hi|
      && point.failures == |set k: nat |
           && k < |executions| && executions[k].tenantId == tenant && executions[k].data.status == WorkflowStore.Failed
           && lo <= executions[k].data.createdAt < hi|
  {
    hide EventTimes, FailureTimes, Count, FormatDay, StartOfUtcDay;
    var lo := WindowStart(now) + i * DAY_MS;
    EventCount(events, tenant, lo, lo + DAY_MS);
    FailureCount(executions, tenant, lo, lo + DAY_MS);
  }

  /** The series is private: it counts what the tenant's own tables hold, and the shared ones add nothing. */
  lemma SeriesIsPrivate(events: Table<AuditLog.AuditEvent>, executions: Table<ExecutionStamp>, tenant: string, lo: int, hi: int)
    ensures EventTimes(events, tenant) == EventTimes(Private(events, tenant), tenant)
    ensures FailureTimes(executions, tenant) == FailureTimes(Private(executions, tenant), tenant)
    ensures var own := Private(events, tenant);
            |set k: nat | k < |events| && events[k].tenantId == tenant && lo <= events[k].data.occurredAt < hi| ==
            |set k: nat | k < |own| && lo <= own[k].data.occurredAt < hi|
    ensures var own := Private(executions, tenant);
            |set k: nat |
              && k < |executions| && executions[k].tenantId == tenant && executions[k].data.status == WorkflowStore.Failed
              && lo <= executions[k].data.createdAt < hi| ==
            |set k: nat | k < |own| && own[k].data.status == WorkflowStore.Failed && lo <= own[k].data.createdAt < hi|
  {
    hide EventTimes, FailureTimes, Count, Private;
    EventTimesArePrivate(events, tenant);
    FailureTimesArePrivate(executions, tenant);
    var own, ownExecutions := Private(events, tenant), Private(executions, tenant);
    PrivateMembers(events, tenant);
    PrivateMembers(executions, tenant);
    assert forall k :: 0 <= k < |own| ==> own[k] in own;
    assert forall k :: 0 <= k < |ownExecutions| ==> ownExecutions[k] in ownExecutions;
    EventCount(events, tenant, lo, hi);
    EventCount(own, tenant, lo, hi);
    FailureCount(executions, tenant, lo, hi);
    FailureCount(ownExecutions, tenant, lo, hi);
    assert (set k: nat | k < |own| && own[k].tenantId == tenant && lo <= own[k].data.occurredAt < hi) ==
           set k: nat | k < |own| && lo <= own[k].data.occurredAt < hi;
    assert (set k: nat |
             && k < |ownExecutions| && ownExecutions[k].tenantId == tenant && ownExecutions[k].data.status == WorkflowStore.Failed
             && lo <= ownExecutions[k].data.createdAt < hi) ==
           set k: nat |
             k < |ownExecutions| && ownExecutions[k].data.status == WorkflowStore.Failed && lo <= ownExecutions[k].data.createdAt < hi;
  }

  lemma {:induction false} EventTimesArePrivate(t: Table<AuditLog.AuditEvent>, tenant: string)
    ensures EventTimes(t, tenant) == EventTimes(Private(t, tenant), tenant)
  {
    if t != [] {
      EventTimesArePrivate(t[1..], tenant);
      PrivateHead(t, tenant);
    }
  }

  lemma {:induction false} FailureTimesArePrivate(t: Table<ExecutionStamp>, tenant: string)
    ensures FailureTimes(t, tenant) == FailureTimes(Private(t, tenant), tenant)
  {
    if t != [] {
      FailureTimesArePrivate(t[1..], tenant);
      PrivateHead(t, tenant);
    }
  }

  /** Whatever is to be grouped, some rows group it. */
  lemma {:induction false} GroupingExists(times: seq<int>) returns (rows: seq<DailyCount>)
    ensures Grouped(rows, times)
  {
    hide DayKey, ToDecimal;
    rows := [];
    if times != [] {
      var key := DayKey(times[0]);
      var row := DailyCount(key, ToDecimal(CountKey(times, key)));
      var rest := GroupingExists(times[1..]);
      if i :| 0 <= i < |rest| && rest[i].day == key {
        rows := rest[i := row];
        assert rows[i].day == key;
        assert forall j :: 0 <= j < |rest| ==> rows[j].day == rest[j].day;
      } else {
        rows := rest + [row];
        assert rows[|rest|].day == key;
        assert forall j :: 0 <= j < |rest| ==> rows[j].day == rest[j].day;
      }
      assert forall k :: 0 < k < |times| ==> times[k] == times[1..][k - 1];
    }
  }

  // ---------------------------------------------------------------------
  // The series as a whole
  // ---------------------------------------------------------------------

  function Sum(counts: seq<int>): int {
    if counts == [] then 0 else Sum(counts[..|counts| - 1]) + counts[|counts| - 1]
  }

  lemma {:induction false} CountSplits(times: seq<int>, lo: int, mid: int, hi: int)
    requires lo <= mid <= hi
    ensures Count(times, lo, hi) == Count(times, lo, mid) + Count(times, mid, hi)
  {
    if times != [] {
      CountSplits(times[1..], lo, mid, hi);
    }
  }

  lemma {:induction false} CountsPartitionWindow(counts: seq<int>, times: seq<int>, start: int)
    requires forall i :: 0 <= i < |counts| ==> counts[i] == Count(times, start + i * DAY_MS, start + i * DAY_MS + DAY_MS)
    ensures Sum(counts) == Count(times, start, start + |counts| * DAY_MS)
  {
    if counts != [] {
      var n := |counts| - 1;
      CountsPartitionWindow(counts[..n], times, start);
      CountSplits(times, start, start + n * DAY_MS, start + |counts| * DAY_MS);
    } else {
      NothingInside(times, start);
    }
  }

  /** The points partition the window: they add up to the counts over all of it. */
  lemma PointsPartitionWindow(points: seq<Point>, events: seq<int>, failures: seq<int>, start: int)
    requires forall i :: 0 <= i < |points| ==> points[i] == CountedPoint(events, failures, start, i)
    ensures Sum(seq(|points|, i requires 0 <= i < |points| => points[i].events)) ==
            Count(events, start, start + |points| * DAY_MS)
    ensures Sum(seq(|points|, i requires 0 <= i < |points| => points[i].failures)) ==
            Count(failures, start, start + |points| * DAY_MS)
  {
    hide DayKey;
    CountsPartitionWindow(seq(|points|, i requires 0 <= i < |points| => points[i].events), events, start);
    CountsPartitionWindow(seq(|points|, i requires 0 <= i < |points| => points[i].failures), failures, start);
  }

  lemma {:induction false} NothingInside(times: seq<int>, lo: int)
    ensures Count(times, lo, lo) == 0
  {
    if times != [] {
      NothingInside(times[1..], lo);
    }
  }

  /** The points' days are seven successive days, oldest first, and from the year 100 on the last is today. */
  lemma WindowEndsToday(now: int, i: nat)
    requires i < SERIES_DAYS
    ensures Day(WindowStart(now) + i * DAY_MS) == Day(WindowStart(now)) + i
    ensures !(0 <= DateOf(Day(now)).year <= 99) <==> Day(WindowStart(now) + 6 * DAY_MS) == Day(now)
  {
    StartOfUtcDayIff(now);
  }
}
