/**
  * The occupancy-metrics engine of src/services/metricsService.ts: occupancy periods from a
  * spot's history, per-spot metrics, the global ranking and averages, the hour-of-day table
  * and the duration text.
  *
  * The clock is the parameter `now`, one instant for the whole computation; the local
  * hour of a timestamp is the parameter `hourOf`. Utilisation is held in tenths of a percent.
  */
module MetricsService {
  import opened Wrappers
  import opened Text
  import opened Sequences
  import opened Sorting
  import opened Rounding
  import opened Api

  const MinuteMs: int := 60000
  const DayMs: int := 86400000
  const DayMinutes: int := 1440

  /** An hour of the day. */
  type Hour = h: int | 0 <= h < 24

  datatype Period = Period(start: int, end: int, durationMinutes: nat)

  // ---------------------------------------------------------------------------------------
  // Durations and periods
  // ---------------------------------------------------------------------------------------

  /** Whole minutes from `startTime` to `endTime`, floored, and 0 when the end comes first. */
  function CalculateOccupancyDuration(startTime: int, endTime: int): (d: nat)
    ensures endTime < startTime ==> d == 0
    ensures startTime <= endTime ==> d * MinuteMs <= endTime - startTime < (d + 1) * MinuteMs
  {
    var m := (endTime - startTime) / MinuteMs;
    if m < 0 then 0 else m
  }

  function Close(start: int, end: int): Period {
    Period(start, end, CalculateOccupancyDuration(start, end))
  }

  /** The start of the period still open after scanning `h` (the loop's `occupancyStart`). */
  function OpenAfter(h: seq<HistoryItem>): Option<int> {
    if h == [] then None
    else
      var open, item := OpenAfter(h[..|h| - 1]), h[|h| - 1];
      var occupied := IsOccupiedFlag(item.ocupada);
      if occupied && open.None? then Some(item.dataHora)
      else if !occupied && open.Some? then None
      else open
  }

  /** The periods closed by a free sample while scanning `h` (the loop's `periods`). */
  function ClosedIn(h: seq<HistoryItem>): seq<Period> {
    if h == [] then []
    else
      var open, item := OpenAfter(h[..|h| - 1]), h[|h| - 1];
      ClosedIn(h[..|h| - 1]) +
        (if !IsOccupiedFlag(item.ocupada) && open.Some? then [Close(open.value, item.dataHora)] else [])
  }

  /** What `parseOccupancyPeriods` returns: the closed periods, and one more ending at `now` if one is open. */
  function OccupancyPeriods(h: seq<HistoryItem>, now: int): seq<Period> {
    var open := OpenAfter(h);
    ClosedIn(h) + (if open.Some? then [Close(open.value, now)] else [])
  }

  /** `parseOccupancyPeriods`. */
  method ParseOccupancyPeriods(historico: seq<HistoryItem>, now: int) returns (periods: seq<Period>)
    ensures periods == OccupancyPeriods(historico, now)
    ensures historico == [] ==> periods == []
  {
    periods := [];
    if |historico| == 0 {
      return;
    }
    var occupancyStart: Option<int> := None;
    var i := 0;
    while i < |historico|
      invariant 0 <= i <= |historico|
      invariant periods == ClosedIn(historico[..i])
      invariant occupancyStart == OpenAfter(historico[..i])
    {
      var item := historico[i];
      var isOccupied := IsOccupiedFlag(item.ocupada);
      var timestamp := item.dataHora;
      assert historico[..i + 1][..i] == historico[..i];
      if isOccupied && occupancyStart.None? {
        occupancyStart := Some(timestamp);
      } else if !isOccupied && occupancyStart.Some? {
        var duration := CalculateOccupancyDuration(occupancyStart.value, timestamp);
        periods := periods + [Period(occupancyStart.value, timestamp, duration)];
        occupancyStart := None;
      }
      i := i + 1;
    }
    assert historico[..i] == historico;
    if occupancyStart.Some? {
      var duration := CalculateOccupancyDuration(occupancyStart.value, now);
      periods := periods + [Period(occupancyStart.value, now, duration)];
    }
  }

  /** The occupied flags of a history, in order. */
  function Flags(h: seq<HistoryItem>): (f: seq<bool>)
    ensures |f| == |h|
    ensures forall i :: 0 <= i < |h| ==> f[i] == IsOccupiedFlag(h[i].ocupada)
  {
    seq(|h|, i requires 0 <= i < |h| => IsOccupiedFlag(h[i].ocupada))
  }

  /** The number of maximal runs of `true` in `f`: positions holding `true` whose predecessor does not. */
  function RunCount(f: seq<bool>): nat {
    if f == [] then 0
    else RunCount(f[..|f| - 1]) + (if f[|f| - 1] && (|f| == 1 || !f[|f| - 2]) then 1 else 0)
  }

  /** A period is open exactly when the last sample read is occupied. */
  lemma OpenExactlyAfterOccupied(h: seq<HistoryItem>)
    ensures OpenAfter(h).Some? <==> h != [] && IsOccupiedFlag(h[|h| - 1].ocupada)
  {
  }

  lemma FlagsPrefix(h: seq<HistoryItem>)
    requires h != []
    ensures Flags(h[..|h| - 1]) == Flags(h)[..|h| - 1]
  {
  }

  lemma {:induction false} ScanCountsRuns(h: seq<HistoryItem>)
    ensures |ClosedIn(h)| + (if OpenAfter(h).Some? then 1 else 0) == RunCount(Flags(h))
  {
    if h != [] {
      var init := h[..|h| - 1];
      ScanCountsRuns(init);
      FlagsPrefix(h);
      OpenExactlyAfterOccupied(init);
    }
  }

  /** There is one period per maximal run of occupied samples. */
  lemma PeriodCountIsRunCount(h: seq<HistoryItem>, now: int)
    ensures |OccupancyPeriods(h, now)| == RunCount(Flags(h))
  {
    ScanCountsRuns(h);
  }

  lemma {:induction false} RunCountZero(f: seq<bool>)
    ensures RunCount(f) == 0 <==> forall i :: 0 <= i < |f| ==> !f[i]
  {
    if f != [] {
      var init := f[..|f| - 1];
      RunCountZero(init);
    }
  }

  /** Every period carries the duration of its own start and end. */
  lemma {:induction false} ClosedDurations(h: seq<HistoryItem>)
    ensures forall k :: 0 <= k < |ClosedIn(h)| ==>
      ClosedIn(h)[k] == Close(ClosedIn(h)[k].start, ClosedIn(h)[k].end)
  {
    if h != [] {
      ClosedDurations(h[..|h| - 1]);
    }
  }

  lemma PeriodDurations(h: seq<HistoryItem>, now: int)
    ensures var ps := OccupancyPeriods(h, now);
      forall k :: 0 <= k < |ps| ==>
        ps[k].durationMinutes == CalculateOccupancyDuration(ps[k].start, ps[k].end)
  {
    ClosedDurations(h);
  }

  /** Samples `i` to `j - 1` are occupied, and sample `i` is the first or follows a free one. */
  ghost predicate OccupiedRun(h: seq<HistoryItem>, i: int, j: int) {
    0 <= i < j <= |h| && (i == 0 || !IsOccupiedFlag(h[i - 1].ocupada)) &&
    forall m :: i <= m < j ==> IsOccupiedFlag(h[m].ocupada)
  }

  /** Period `p` was closed by the free sample `j` that ends the run of samples from `i`. */
  ghost predicate ClosedRun(h: seq<HistoryItem>, p: Period, i: int, j: int) {
    OccupiedRun(h, i, j) && j < |h| && !IsOccupiedFlag(h[j].ocupada) &&
    p.start == h[i].dataHora && p.end == h[j].dataHora
  }

  /**
    * Period `p` is the one of the run of samples `i` to `j - 1`: it starts at the time of
    * sample `i` and ends at the time of the free sample `j` closing the run, or at `now` when
    * the run lasts to the end of the history.
    */
  ghost predicate PeriodOfRun(h: seq<HistoryItem>, now: int, p: Period, i: int, j: int) {
    OccupiedRun(h, i, j) && p.start == h[i].dataHora &&
    (if j < |h| then !IsOccupiedFlag(h[j].ocupada) && p.end == h[j].dataHora else p.end == now)
  }

  lemma ClosedRunExtends(init: seq<HistoryItem>, x: HistoryItem, p: Period, i: int, j: int)
    requires ClosedRun(init, p, i, j)
    ensures ClosedRun(init + [x], p, i, j) && (init + [x])[..i] == init[..i]
  {
    var h := init + [x];
    assert forall m :: 0 <= m < |init| ==> h[m] == init[m];
  }

  /** Period `k` of `c` is the closed period of the k-th run of occupied samples of `h`. */
  ghost predicate KthClosed(h: seq<HistoryItem>, c: seq<Period>, k: int)
    requires 0 <= k < |c|
  {
    exists i, j :: ClosedRun(h, c[k], i, j) && RunCount(Flags(h[..i])) == k
  }

  /** The open period starts at the first sample of the run that has lasted to the end of `h`. */
  ghost predicate OpenRun(h: seq<HistoryItem>, start: int, runsBefore: nat) {
    exists i :: OccupiedRun(h, i, |h|) && start == h[i].dataHora && RunCount(Flags(h[..i])) == runsBefore
  }

  lemma KthClosedExtends(init: seq<HistoryItem>, x: HistoryItem, c: seq<Period>, k: int)
    requires 0 <= k < |c| && KthClosed(init, c, k)
    ensures KthClosed(init + [x], c, k)
  {
    var i, j :| ClosedRun(init, c[k], i, j) && RunCount(Flags(init[..i])) == k;
    ClosedRunExtends(init, x, c[k], i, j);
  }

  /** The closed periods and the open one, each tied to its run of occupied samples. */
  lemma {:induction false} ScanInstants(h: seq<HistoryItem>)
    ensures forall k :: 0 <= k < |ClosedIn(h)| ==> KthClosed(h, ClosedIn(h), k)
    ensures OpenAfter(h).Some? ==> OpenRun(h, OpenAfter(h).value, |ClosedIn(h)|)
  {
    if h != [] {
      var init, x := h[..|h| - 1], h[|h| - 1];
      ScanInstants(init);
      assert h == init + [x];
      ScanInstantsStep(init, x);
    }
  }

  /** One more sample keeps every period tied to its run. */
  lemma ScanInstantsStep(init: seq<HistoryItem>, x: HistoryItem)
    requires forall k :: 0 <= k < |ClosedIn(init)| ==> KthClosed(init, ClosedIn(init), k)
    requires OpenAfter(init).Some? ==> OpenRun(init, OpenAfter(init).value, |ClosedIn(init)|)
    ensures var h := init + [x];
      (forall k :: 0 <= k < |ClosedIn(h)| ==> KthClosed(h, ClosedIn(h), k)) &&
      (OpenAfter(h).Some? ==> OpenRun(h, OpenAfter(h).value, |ClosedIn(h)|))
  {
    var h := init + [x];
    assert h[..|h| - 1] == init && h[|h| - 1] == x;
    var c, o := ClosedIn(init), OpenAfter(init);
    forall k | 0 <= k < |c| ensures KthClosed(h, c, k) {
      KthClosedExtends(init, x, c, k);
    }
    var occupied := IsOccupiedFlag(x.ocupada);
    if !occupied && o.Some? {
      assert ClosedIn(h) == c + [Close(o.value, x.dataHora)] && OpenAfter(h) == None;
      RunCloses(init, x, c, o.value);
    } else if occupied && o.None? {
      assert ClosedIn(h) == c && OpenAfter(h) == Some(x.dataHora);
      RunOpens(init, x);
    } else if occupied {
      assert ClosedIn(h) == c && OpenAfter(h) == o;
      RunContinues(init, x, o.value, |c|);
    } else {
      assert ClosedIn(h) == c && OpenAfter(h) == None;
    }
  }

  /** A free sample closes the open run into the next period. */
  lemma RunCloses(init: seq<HistoryItem>, x: HistoryItem, c: seq<Period>, start: int)
    requires !IsOccupiedFlag(x.ocupada)
    requires forall k :: 0 <= k < |c| ==> KthClosed(init + [x], c, k)
    requires OpenRun(init, start, |c|)
    ensures forall k :: 0 <= k < |c| + 1 ==> KthClosed(init + [x], c + [Close(start, x.dataHora)], k)
  {
    var h := init + [x];
    var i :| OccupiedRun(init, i, |init|) && start == init[i].dataHora && RunCount(Flags(init[..i])) == |c|;
    assert forall m :: 0 <= m < |init| ==> h[m] == init[m];
    assert h[..i] == init[..i];
    var p := Close(start, x.dataHora);
    assert ClosedRun(h, p, i, |init|);
    CloseNewest(h, c, p, i, |init|);
  }

  /** An occupied sample after a free one (or first) opens a run. */
  lemma RunOpens(init: seq<HistoryItem>, x: HistoryItem)
    requires IsOccupiedFlag(x.ocupada) && OpenAfter(init).None?
    ensures OpenRun(init + [x], x.dataHora, |ClosedIn(init)|)
  {
    var h := init + [x];
    OpenExactlyAfterOccupied(init);
    ScanCountsRuns(init);
    assert h[..|init|] == init;
    assert OccupiedRun(h, |init|, |h|);
  }

  /** An occupied sample extends the open run. */
  lemma RunContinues(init: seq<HistoryItem>, x: HistoryItem, start: int, n: nat)
    requires IsOccupiedFlag(x.ocupada) && OpenRun(init, start, n)
    ensures OpenRun(init + [x], start, n)
  {
    var h := init + [x];
    var i :| OccupiedRun(init, i, |init|) && start == init[i].dataHora && RunCount(Flags(init[..i])) == n;
    assert forall m :: 0 <= m < |init| ==> h[m] == init[m];
    assert h[..i] == init[..i];
    assert OccupiedRun(h, i, |h|);
  }

  lemma CloseNewest(h: seq<HistoryItem>, c: seq<Period>, p: Period, i: int, j: int)
    requires forall k :: 0 <= k < |c| ==> KthClosed(h, c, k)
    requires ClosedRun(h, p, i, j) && RunCount(Flags(h[..i])) == |c|
    ensures forall k :: 0 <= k < |c| + 1 ==> KthClosed(h, c + [p], k)
  {
    var c' := c + [p];
    forall k | 0 <= k < |c'| ensures KthClosed(h, c', k) {
      if k < |c| {
        assert KthClosed(h, c, k);
        var i0, j0 :| ClosedRun(h, c[k], i0, j0) && RunCount(Flags(h[..i0])) == k;
        assert c'[k] == c[k];
        assert ClosedRun(h, c'[k], i0, j0);
      } else {
        assert c'[k] == p;
        assert ClosedRun(h, c'[k], i, j);
      }
    }
  }

  /** Period `k` of `ps` is the period of the k-th run of occupied samples of `h`. */
  ghost predicate KthPeriod(h: seq<HistoryItem>, now: int, ps: seq<Period>, k: int)
    requires 0 <= k < |ps|
  {
    exists i, j :: PeriodOfRun(h, now, ps[k], i, j) && RunCount(Flags(h[..i])) == k
  }

  /**
    * The k-th period belongs to the k-th run of occupied samples: it starts when the run's
    * first sample was taken and ends when the free sample closing the run was taken, or at
    * `now` for a run that lasts to the end of the history.
    */
  lemma PeriodInstants(h: seq<HistoryItem>, now: int)
    ensures var ps := OccupancyPeriods(h, now);
      forall k :: 0 <= k < |ps| ==> KthPeriod(h, now, ps, k)
  {
    ScanInstants(h);
    var c, ps := ClosedIn(h), OccupancyPeriods(h, now);
    forall k | 0 <= k < |ps| ensures KthPeriod(h, now, ps, k) {
      if k < |c| {
        assert KthClosed(h, c, k);
        var i, j :| ClosedRun(h, c[k], i, j) && RunCount(Flags(h[..i])) == k;
        assert ps[k] == c[k];
        assert PeriodOfRun(h, now, ps[k], i, j);
      } else {
        assert OpenRun(h, OpenAfter(h).value, |c|);
        var i :| OccupiedRun(h, i, |h|) && OpenAfter(h).value == h[i].dataHora && RunCount(Flags(h[..i])) == |c|;
        assert ps[k] == Close(OpenAfter(h).value, now);
        assert PeriodOfRun(h, now, ps[k], i, |h|);
      }
    }
  }

  ghost predicate SortedByTime(h: seq<HistoryItem>) {
    forall i, j :: 0 <= i < j < |h| ==> h[i].dataHora <= h[j].dataHora
  }

  /** Periods that each start no later than they end, and each end no later than the next starts. */
  ghost predicate Chronological(ps: seq<Period>) {
    (forall k :: 0 <= k < |ps| ==> ps[k].start <= ps[k].end) &&
    (forall k :: 0 <= k < |ps| - 1 ==> ps[k].end <= ps[k + 1].start)
  }

  /** What the scan keeps true of a time-ordered history. */
  ghost predicate ScanOrdered(h: seq<HistoryItem>) {
    var c, o := ClosedIn(h), OpenAfter(h);
    Chronological(c) &&
    (h != [] ==> forall k :: 0 <= k < |c| ==> c[k].end <= h[|h| - 1].dataHora) &&
    (o.Some? ==> h != [] && o.value <= h[|h| - 1].dataHora && (c != [] ==> c[|c| - 1].end <= o.value))
  }

  lemma {:induction false} ScanKeepsOrder(h: seq<HistoryItem>)
    requires SortedByTime(h)
    ensures ScanOrdered(h)
  {
    if h != [] {
      var init, x := h[..|h| - 1], h[|h| - 1];
      assert SortedByTime(init);
      ScanKeepsOrder(init);
      assert init != [] ==> init[|init| - 1].dataHora <= x.dataHora;
      assert h == init + [x];
      ScanStepOrdered(init, x);
    }
  }

  /** One more sample, no earlier than the last, keeps the scan ordered. */
  lemma ScanStepOrdered(init: seq<HistoryItem>, x: HistoryItem)
    requires ScanOrdered(init)
    requires init != [] ==> init[|init| - 1].dataHora <= x.dataHora
    ensures ScanOrdered(init + [x])
  {
    var h := init + [x];
    assert h[..|h| - 1] == init && h[|h| - 1] == x;
    var c, o := ClosedIn(init), OpenAfter(init);
    var occupied := IsOccupiedFlag(x.ocupada);
    EndsBounded(c, init, x.dataHora);
    if !occupied && o.Some? {
      assert ClosedIn(h) == c + [Close(o.value, x.dataHora)] && OpenAfter(h) == None;
      ChronologicalAppend(c, Close(o.value, x.dataHora));
      ClosedEndsBounded(c, Close(o.value, x.dataHora), x.dataHora);
    } else if occupied && o.None? {
      assert ClosedIn(h) == c && OpenAfter(h) == Some(x.dataHora);
    } else {
      assert ClosedIn(h) == c && OpenAfter(h) == o;
    }
  }

  /** The periods closed so far end no later than a sample that comes after the scanned ones. */
  lemma EndsBounded(c: seq<Period>, init: seq<HistoryItem>, t: int)
    requires init != [] ==> forall k :: 0 <= k < |c| ==> c[k].end <= init[|init| - 1].dataHora
    requires init != [] ==> init[|init| - 1].dataHora <= t
    requires init == [] ==> c == []
    ensures forall k :: 0 <= k < |c| ==> c[k].end <= t
  {
  }

  lemma ClosedEndsBounded(c: seq<Period>, p: Period, t: int)
    requires forall k :: 0 <= k < |c| ==> c[k].end <= t
    requires p.end <= t
    ensures forall k :: 0 <= k < |c + [p]| ==> (c + [p])[k].end <= t
  {
    forall k | 0 <= k < |c + [p]| ensures (c + [p])[k].end <= t {
      if k < |c| {
        assert (c + [p])[k] == c[k];
      }
    }
  }

  lemma ChronologicalAppend(c: seq<Period>, p: Period)
    requires Chronological(c) && p.start <= p.end
    requires c != [] ==> c[|c| - 1].end <= p.start
    ensures Chronological(c + [p])
  {
    var r := c + [p];
    forall k | 0 <= k < |r| - 1 ensures r[k].end <= r[k + 1].start {
      assert r[k] == c[k];
    }
  }

  /**
    * A history in time order, read no later than `now`, gives periods in time order that do
    * not overlap, each lasting the floor of its length in minutes.
    */
  lemma PeriodsChronological(h: seq<HistoryItem>, now: int)
    requires SortedByTime(h)
    requires h != [] ==> h[|h| - 1].dataHora <= now
    ensures var ps := OccupancyPeriods(h, now);
      Chronological(ps) &&
      forall k :: 0 <= k < |ps| ==> ps[k].durationMinutes == (ps[k].end - ps[k].start) / MinuteMs
  {
    ScanKeepsOrder(h);
    PeriodDurations(h, now);
  }

  lemma {:induction false} RepeatedSampleScan(p: seq<HistoryItem>, y: HistoryItem, q: seq<HistoryItem>)
    requires p != [] && IsOccupiedFlag(y.ocupada) == IsOccupiedFlag(p[|p| - 1].ocupada)
    ensures ClosedIn(p + [y] + q) == ClosedIn(p + q)
    ensures OpenAfter(p + [y] + q) == OpenAfter(p + q)
    decreases |q|
  {
    if q == [] {
      assert p + [y] + q == p + [y];
      assert (p + [y])[..|p|] == p;
      assert p + q == p;
      OpenExactlyAfterOccupied(p);
    } else {
      var q', x := q[..|q| - 1], q[|q| - 1];
      RepeatedSampleScan(p, y, q');
      assert (p + [y] + q)[..|p + [y] + q| - 1] == p + [y] + q';
      assert (p + q)[..|p + q| - 1] == p + q';
    }
  }

  /** A sample repeating the state of the one before it changes no period. */
  lemma RepeatedSampleChangesNothing(p: seq<HistoryItem>, y: HistoryItem, q: seq<HistoryItem>, now: int)
    requires p != [] && IsOccupiedFlag(y.ocupada) == IsOccupiedFlag(p[|p| - 1].ocupada)
    ensures OccupancyPeriods(p + [y] + q, now) == OccupancyPeriods(p + q, now)
  {
    RepeatedSampleScan(p, y, q);
  }

  // ---------------------------------------------------------------------------------------
  // Metrics of one spot
  // ---------------------------------------------------------------------------------------

  /** `periods.reduce((acc, p) => acc + p.durationMinutes, 0)`. */
  function TotalDuration(ps: seq<Period>): nat {
    if ps == [] then 0 else TotalDuration(ps[..|ps| - 1]) + ps[|ps| - 1].durationMinutes
  }

  /** `p => p.start >= yesterday`. */
  function StartsInWindow(yesterday: int): Period -> bool {
    (p: Period) => p.start >= yesterday
  }

  /** The reduce over the recent periods, with each period's start and end clipped to the window. */
  function ClippedMinutes(ps: seq<Period>, yesterday: int, now: int): nat {
    if ps == [] then 0
    else
      var p := ps[|ps| - 1];
      var effectiveStart := if p.start < yesterday then yesterday else p.start;
      var effectiveEnd := if p.end > now then now else p.end;
      ClippedMinutes(ps[..|ps| - 1], yesterday, now) + CalculateOccupancyDuration(effectiveStart, effectiveEnd)
  }

  /** `recentTotalMinutes`: the minutes occupied by the periods that begin within the last 24 hours. */
  function RecentMinutes(ps: seq<Period>, now: int): nat {
    var yesterday := now - DayMs;
    ClippedMinutes(Filter(ps, StartsInWindow(yesterday)), yesterday, now)
  }

  /**
    * A period adds to the recent minutes only if it begins within the last 24 hours, and then
    * its whole length up to `now`: a period that began earlier is dropped, not clipped.
    */
  lemma RecentMinutesAppend(ps: seq<Period>, p: Period, now: int)
    ensures RecentMinutes(ps + [p], now) == RecentMinutes(ps, now) +
      (if p.start >= now - DayMs then CalculateOccupancyDuration(p.start, Min(p.end, now)) else 0)
  {
    var w := StartsInWindow(now - DayMs);
    FilterConcat(ps, [p], w);
    FilterSingle(p, w);
    var a := Filter(ps, w);
    if w(p) {
      ClippedAppend(a, p, now - DayMs, now);
    } else {
      assert a + [] == a;
    }
  }

  lemma ClippedAppend(a: seq<Period>, p: Period, yesterday: int, now: int)
    requires p.start >= yesterday
    ensures ClippedMinutes(a + [p], yesterday, now) ==
      ClippedMinutes(a, yesterday, now) + CalculateOccupancyDuration(p.start, Min(p.end, now))
  {
    assert (a + [p])[..|a|] == a;
  }

  /** Utilisation in tenths of a percent: `min(100, round(minutes / 1440 * 100, 1 decimal))`. */
  function UtilizationTenths(recentMinutes: nat): (u: int)
    ensures 0 <= u <= 1000
    ensures recentMinutes >= DayMinutes ==> u == 1000
    ensures recentMinutes <= DayMinutes ==>
      2 * DayMinutes * u - DayMinutes <= 2000 * recentMinutes < 2 * DayMinutes * u + DayMinutes
  {
    var r := RoundDiv(1000 * recentMinutes, DayMinutes);
    RoundDivAtLeast(1000 * recentMinutes, DayMinutes, 0);
    if recentMinutes >= DayMinutes then
      RoundDivAtLeast(1000 * recentMinutes, DayMinutes, 1000);
      Min(1000, r)
    else
      RoundDivAtMost(1000 * recentMinutes, DayMinutes, 1000);
      Min(1000, r)
  }

  datatype SpotMetrics = SpotMetrics(
    spotId: string,
    spotName: string,
    averageOccupancyMinutes: int,
    totalOccupancyTime: nat,
    occupancyCount: nat,
    utilizationTenths: int,
    lastOccupancy: Option<int>)

  /** `calculateSpotMetrics`, with the clock as `now`. */
  function CalculateSpotMetrics(spotId: string, spotName: string, historico: seq<HistoryItem>, now: int): (m: SpotMetrics)
    ensures m.spotId == spotId && m.spotName == spotName
    ensures m.occupancyCount == RunCount(Flags(historico))
    ensures m.occupancyCount == 0 ==> m.totalOccupancyTime == 0 && m.averageOccupancyMinutes == 0
    ensures m.occupancyCount > 0 ==>
      var c, t, a := m.occupancyCount, m.totalOccupancyTime, m.averageOccupancyMinutes;
      2 * c * a - c <= 2 * t < 2 * c * a + c
    ensures 0 <= m.utilizationTenths <= 1000
    ensures m.lastOccupancy.None? <==> forall i :: 0 <= i < |historico| ==> !IsOccupiedFlag(historico[i].ocupada)
    ensures historico != [] && IsOccupiedFlag(historico[|historico| - 1].ocupada) ==> m.lastOccupancy == Some(now)
    ensures var ps := OccupancyPeriods(historico, now);
      m.totalOccupancyTime == TotalDuration(ps) &&
      m.utilizationTenths == UtilizationTenths(RecentMinutes(ps, now)) &&
      m.lastOccupancy == (if ps == [] then None else Some(ps[|ps| - 1].end))
  {
    var periods := OccupancyPeriods(historico, now);
    PeriodCountIsRunCount(historico, now);
    RunCountZero(Flags(historico));
    OpenExactlyAfterOccupied(historico);
    var totalTime := TotalDuration(periods);
    var averageMinutes := if |periods| > 0 then RoundDiv(totalTime, |periods|) else 0;
    var lastOccupancy := if |periods| > 0 then Some(periods[|periods| - 1].end) else None;
    SpotMetrics(spotId, spotName, averageMinutes, totalTime, |periods|,
      UtilizationTenths(RecentMinutes(periods, now)), lastOccupancy)
  }

  /**
    * The last occupancy is the end of the last period: `now` while occupied, else the time of
    * a free sample that follows an occupied one.
    */
  lemma LastOccupancyEndsRun(spotId: string, spotName: string, h: seq<HistoryItem>, now: int)
    requires CalculateSpotMetrics(spotId, spotName, h, now).lastOccupancy.Some?
    ensures var t := CalculateSpotMetrics(spotId, spotName, h, now).lastOccupancy.value;
      t == now || exists j :: 0 < j < |h| && !IsOccupiedFlag(h[j].ocupada) && IsOccupiedFlag(h[j - 1].ocupada) && t == h[j].dataHora
  {
    var ps := OccupancyPeriods(h, now);
    PeriodInstants(h, now);
    var k := |ps| - 1;
    assert KthPeriod(h, now, ps, k);
    var i, j :| PeriodOfRun(h, now, ps[k], i, j) && RunCount(Flags(h[..i])) == k;
    if j < |h| {
      assert IsOccupiedFlag(h[j - 1].ocupada);
    }
  }

  /** An empty history gives all-zero metrics. */
  lemma EmptyHistoryMetrics(spotId: string, spotName: string, now: int)
    ensures CalculateSpotMetrics(spotId, spotName, [], now) == SpotMetrics(spotId, spotName, 0, 0, 0, 0, None)
  {
  }

  // ---------------------------------------------------------------------------------------
  // Global metrics
  // ---------------------------------------------------------------------------------------

  /** `Object.entries(spotsData)`: spot ids with their histories, in entry order. */
  type SpotsData = seq<(string, seq<HistoryItem>)>

  /** `calculateSpotMetrics(id, `Vaga ${id}`, historico)` for one entry. */
  function MetricsOf(entry: (string, seq<HistoryItem>), now: int): SpotMetrics {
    CalculateSpotMetrics(entry.0, "Vaga " + entry.0, entry.1, now)
  }

  /** One `SpotMetrics` per entry, in entry order, empty histories included. */
  function AllSpotMetrics(spotsData: SpotsData, now: int): (ms: seq<SpotMetrics>)
    ensures |ms| == |spotsData|
    ensures forall i :: 0 <= i < |spotsData| ==> ms[i] == MetricsOf(spotsData[i], now)
  {
    seq(|spotsData|, i requires 0 <= i < |spotsData| => MetricsOf(spotsData[i], now))
  }

  /** Entry `i` gives record `i`, carrying the entry's id and the name "Vaga " + id. */
  lemma AllSpotMetricsEntries(spotsData: SpotsData, now: int)
    ensures var ms := AllSpotMetrics(spotsData, now);
      forall i :: 0 <= i < |ms| ==>
        ms[i].spotId == spotsData[i].0 && ms[i].spotName == "Vaga " + spotsData[i].0 &&
        ms[i] == CalculateSpotMetrics(spotsData[i].0, "Vaga " + spotsData[i].0, spotsData[i].1, now)
  {
    var ms := AllSpotMetrics(spotsData, now);
    forall i | 0 <= i < |ms|
      ensures ms[i] == CalculateSpotMetrics(spotsData[i].0, "Vaga " + spotsData[i].0, spotsData[i].1, now)
    {
      assert ms[i] == MetricsOf(spotsData[i], now);
    }
  }

  function Utilization(s: SpotMetrics): int { s.utilizationTenths }

  function HasEvents(s: SpotMetrics): bool { s.occupancyCount > 0 }

  function SumAverages(ms: seq<SpotMetrics>): int {
    if ms == [] then 0 else SumAverages(ms[..|ms| - 1]) + ms[|ms| - 1].averageOccupancyMinutes
  }

  function SumUtilization(ms: seq<SpotMetrics>): int {
    if ms == [] then 0 else SumUtilization(ms[..|ms| - 1]) + ms[|ms| - 1].utilizationTenths
  }

  function SumCounts(ms: seq<SpotMetrics>): nat {
    if ms == [] then 0 else SumCounts(ms[..|ms| - 1]) + ms[|ms| - 1].occupancyCount
  }

  datatype HourBucket = HourBucket(hour: int, occupancyRate: int)

  datatype GlobalMetrics = GlobalMetrics(
    averageOccupancyMinutes: int,
    mostUsedSpots: seq<SpotMetrics>,
    leastUsedSpots: seq<SpotMetrics>,
    peakHours: seq<HourBucket>,
    totalOccupancyEvents: nat,
    averageUtilizationTenths: int)

  /** The most used spots: the first five after a stable sort by descending utilisation. */
  function MostUsed(ms: seq<SpotMetrics>): seq<SpotMetrics> {
    Take(SortDesc(ms, Utilization), 5)
  }

  /** The least used spots: the last five spots with an event in that order, reversed. */
  function LeastUsed(ms: seq<SpotMetrics>): seq<SpotMetrics> {
    Reverse(TakeLast(Filter(SortDesc(ms, Utilization), HasEvents), 5))
  }

  /** What `calculateGlobalMetrics` returns for the spot metrics `ms` and the hourly table. */
  function Assemble(ms: seq<SpotMetrics>, hourly: seq<HourBucket>): GlobalMetrics {
    GlobalMetrics(
      if |ms| > 0 then RoundDiv(SumAverages(ms), |ms|) else 0,
      MostUsed(ms),
      LeastUsed(ms),
      hourly,
      SumCounts(ms),
      if |ms| > 0 then RoundDiv(SumUtilization(ms), |ms|) else 0)
  }

  function GlobalMetricsOf(spotsData: SpotsData, now: int, hourOf: int -> Hour): GlobalMetrics {
    Assemble(AllSpotMetrics(spotsData, now), HourlyOccupancy(spotsData, hourOf))
  }

  /** The `forEach` of `calculateGlobalMetrics`: one `SpotMetrics` per entry, pushed in entry order. */
  method CollectSpotMetrics(spotsData: SpotsData, now: int) returns (spotMetrics: seq<SpotMetrics>)
    ensures spotMetrics == AllSpotMetrics(spotsData, now)
  {
    spotMetrics := [];
    var i := 0;
    while i < |spotsData|
      invariant 0 <= i <= |spotsData|
      invariant |spotMetrics| == i
      invariant forall k :: 0 <= k < i ==> spotMetrics[k] == MetricsOf(spotsData[k], now)
    {
      var metrics := MetricsOf(spotsData[i], now);
      spotMetrics := spotMetrics + [metrics];
      i := i + 1;
    }
  }

  /** `calculateGlobalMetrics`. */
  method CalculateGlobalMetrics(spotsData: SpotsData, now: int, hourOf: int -> Hour) returns (g: GlobalMetrics)
    ensures g == GlobalMetricsOf(spotsData, now, hourOf)
  {
    var spotMetrics := CollectSpotMetrics(spotsData, now);
    var hourlyOccupancy := CalculateHourlyOccupancy(spotsData, hourOf);
    g := Assemble(spotMetrics, hourlyOccupancy);
  }

  /**
    * The most used spots are at most five, in non-increasing utilisation, drawn from the
    * spots, and no spot left out is more utilised than any spot listed.
    */
  lemma MostUsedSpotsRanked(ms: seq<SpotMetrics>)
    ensures var most := MostUsed(ms);
      |most| == Min(5, |ms|) &&
      NonIncreasing(most, Utilization) &&
      multiset(most) <= multiset(ms) &&
      forall x, y :: x in multiset(ms) - multiset(most) && y in most ==> Utilization(x) <= Utilization(y)
  {
    TopKAreLargest(ms, Utilization, 5);
    assert MostUsed(ms) == Take(SortDesc(ms, Utilization), 5);
  }

  lemma FilterTake<T>(s: seq<T>, k: nat, p: T -> bool)
    ensures Filter(Take(s, k), p) <= Filter(s, p)
  {
    var t := Take(s, k);
    assert s == t + s[|t|..];
    FilterConcat(t, s[|t|..], p);
  }

  /** Spots of equal utilisation appear among the most used in their entry order. */
  lemma MostUsedSpotsStable(ms: seq<SpotMetrics>, v: int)
    ensures var p := (s: SpotMetrics) => Utilization(s) == v;
      Filter(MostUsed(ms), p) <= Filter(ms, p)
  {
    var p := (s: SpotMetrics) => Utilization(s) == v;
    SortDescStable(ms, Utilization, v, p);
    FilterTake(SortDesc(ms, Utilization), 5, p);
  }

  /**
    * The least used spots are at most five spots with at least one event, in non-decreasing
    * utilisation, and no spot with an event left out is less utilised than any spot listed.
    */
  lemma LeastUsedSpotsRanked(ms: seq<SpotMetrics>)
    ensures var active, least := Filter(ms, HasEvents), LeastUsed(ms);
      |least| == Min(5, |active|) &&
      (forall y :: y in least ==> y.occupancyCount > 0) &&
      NonDecreasing(least, Utilization) &&
      multiset(least) <= multiset(active) &&
      forall x, y :: x in multiset(active) - multiset(least) && y in least ==> x.utilizationTenths >= y.utilizationTenths
  {
    var sorted := SortDesc(ms, Utilization);
    var f := Filter(sorted, HasEvents);
    SortDescSorted(ms, Utilization);
    FilterSorted(sorted, Utilization, HasEvents);
    FilterPermutation(sorted, ms, HasEvents);
    var active, least := Filter(ms, HasEvents), LeastUsed(ms);
    assert |f| == |multiset(f)| == |active|;
    BottomKAreSmallest(f, Utilization, 5);
    assert least == Reverse(TakeLast(f, 5));
    LeastUsedHaveEvents(ms);
    forall x: SpotMetrics, y: SpotMetrics | x in multiset(active) - multiset(least) && y in least
      ensures x.utilizationTenths >= y.utilizationTenths
    {
      assert x in multiset(f) - multiset(least);
      assert Utilization(x) >= Utilization(y);
    }
  }

  lemma LeastUsedHaveEvents(ms: seq<SpotMetrics>)
    ensures forall y :: y in LeastUsed(ms) ==> y.occupancyCount > 0
  {
    var f := Filter(SortDesc(ms, Utilization), HasEvents);
    FilterMembers(SortDesc(ms, Utilization), HasEvents);
    forall y | y in LeastUsed(ms) ensures y.occupancyCount > 0 {
      var b := TakeLast(f, 5);
      ReverseOrderedMembers(b, y);
      var i :| 0 <= i < |b| && b[i] == y;
      assert f[|f| - |b| + i] == y;
      assert y in f;
      assert HasEvents(y);
    }
  }

  lemma ReverseOrderedMembers<T>(b: seq<T>, y: T)
    requires y in Reverse(b)
    ensures y in b
  {
    var i :| 0 <= i < |b| && Reverse(b)[i] == y;
    assert b[|b| - 1 - i] == y;
  }

  /** The sum of the occupied-run counts of the histories. */
  function RunTotal(spotsData: SpotsData): nat {
    if spotsData == [] then 0
    else RunTotal(spotsData[..|spotsData| - 1]) + RunCount(Flags(spotsData[|spotsData| - 1].1))
  }

  lemma {:induction false} SumCountsIsRunTotal(spotsData: SpotsData, now: int)
    ensures SumCounts(AllSpotMetrics(spotsData, now)) == RunTotal(spotsData)
  {
    if spotsData != [] {
      var init := spotsData[..|spotsData| - 1];
      SumCountsIsRunTotal(init, now);
      var ms := AllSpotMetrics(spotsData, now);
      assert ms[..|ms| - 1] == AllSpotMetrics(init, now);
    }
  }

  /** The total number of events is the number of occupied runs over all histories. */
  lemma TotalEventsAreRuns(spotsData: SpotsData, now: int, hourOf: int -> Hour)
    ensures GlobalMetricsOf(spotsData, now, hourOf).totalOccupancyEvents == RunTotal(spotsData)
  {
    SumCountsIsRunTotal(spotsData, now);
  }

  lemma {:induction false} SumUtilizationBounds(ms: seq<SpotMetrics>)
    requires forall i :: 0 <= i < |ms| ==> 0 <= ms[i].utilizationTenths <= 1000
    ensures 0 <= SumUtilization(ms) <= 1000 * |ms|
  {
    if ms != [] {
      SumUtilizationBounds(ms[..|ms| - 1]);
    }
  }

  lemma {:induction false} SumAveragesNonNegative(ms: seq<SpotMetrics>)
    requires forall i :: 0 <= i < |ms| ==> 0 <= ms[i].averageOccupancyMinutes
    ensures 0 <= SumAverages(ms)
  {
    if ms != [] {
      SumAveragesNonNegative(ms[..|ms| - 1]);
    }
  }

  lemma AllSpotMetricsBounds(spotsData: SpotsData, now: int)
    ensures var ms := AllSpotMetrics(spotsData, now);
      forall i :: 0 <= i < |ms| ==> 0 <= ms[i].utilizationTenths <= 1000 && 0 <= ms[i].averageOccupancyMinutes
  {
  }

  /** Both averages lie in range on any spot metrics of that range, and are 0 without spots. */
  lemma AveragesBounded(ms: seq<SpotMetrics>, hourly: seq<HourBucket>)
    requires forall i :: 0 <= i < |ms| ==> 0 <= ms[i].utilizationTenths <= 1000 && 0 <= ms[i].averageOccupancyMinutes
    ensures var g := Assemble(ms, hourly);
      0 <= g.averageUtilizationTenths <= 1000 && 0 <= g.averageOccupancyMinutes &&
      (ms == [] ==> g.averageUtilizationTenths == 0 && g.averageOccupancyMinutes == 0)
  {
    if ms != [] {
      SumUtilizationBounds(ms);
      RoundDivRange(SumUtilization(ms), |ms|, 0, 1000);
      SumAveragesNonNegative(ms);
      RoundDivAtLeast(SumAverages(ms), |ms|, 0);
    }
  }

  /**
    * Both averages are the rounded means over every entry, 0 without entries; average
    * utilisation lies in [0, 100 %] and the average duration is not negative.
    */
  lemma GlobalAveragesBounded(spotsData: SpotsData, now: int, hourOf: int -> Hour)
    ensures var g := GlobalMetricsOf(spotsData, now, hourOf);
      0 <= g.averageUtilizationTenths <= 1000 && 0 <= g.averageOccupancyMinutes &&
      (spotsData == [] ==> g.averageUtilizationTenths == 0 && g.averageOccupancyMinutes == 0)
    ensures var g, ms, n := GlobalMetricsOf(spotsData, now, hourOf), AllSpotMetrics(spotsData, now), |spotsData|;
      spotsData != [] ==>
        2 * n * g.averageOccupancyMinutes - n <= 2 * SumAverages(ms) < 2 * n * g.averageOccupancyMinutes + n &&
        2 * n * g.averageUtilizationTenths - n <= 2 * SumUtilization(ms) < 2 * n * g.averageUtilizationTenths + n
  {
    AllSpotMetricsBounds(spotsData, now);
    AveragesBounded(AllSpotMetrics(spotsData, now), HourlyOccupancy(spotsData, hourOf));
  }

  // ---------------------------------------------------------------------------------------
  // Hour-of-day table
  // ---------------------------------------------------------------------------------------

  /** Every sample of every spot, in entry order. */
  function AllItems(spotsData: SpotsData): seq<HistoryItem> {
    if spotsData == [] then [] else AllItems(spotsData[..|spotsData| - 1]) + spotsData[|spotsData| - 1].1
  }

  /** Samples taken in hour `h`. */
  function HourTotal(items: seq<HistoryItem>, hourOf: int -> Hour, h: int): nat {
    if items == [] then 0
    else HourTotal(items[..|items| - 1], hourOf, h) + (if hourOf(items[|items| - 1].dataHora) == h then 1 else 0)
  }

  /** Occupied samples taken in hour `h`. */
  function HourOccupied(items: seq<HistoryItem>, hourOf: int -> Hour, h: int): nat {
    if items == [] then 0
    else
      var x := items[|items| - 1];
      HourOccupied(items[..|items| - 1], hourOf, h) + (if hourOf(x.dataHora) == h && IsOccupiedFlag(x.ocupada) then 1 else 0)
  }

  function HourRate(occupied: nat, total: nat): int {
    if total > 0 then RoundDiv(100 * occupied, total) else 0
  }

  /** The 24 buckets `calculateHourlyOccupancy` returns. */
  function HourlyOccupancy(spotsData: SpotsData, hourOf: int -> Hour): seq<HourBucket> {
    var items := AllItems(spotsData);
    seq(24, h requires 0 <= h < 24 => HourBucket(h, HourRate(HourOccupied(items, hourOf, h), HourTotal(items, hourOf, h))))
  }

  lemma HourCountsAppend(items: seq<HistoryItem>, x: HistoryItem, hourOf: int -> Hour, h: int)
    ensures HourTotal(items + [x], hourOf, h) == HourTotal(items, hourOf, h) + (if hourOf(x.dataHora) == h then 1 else 0)
    ensures HourOccupied(items + [x], hourOf, h) ==
      HourOccupied(items, hourOf, h) + (if hourOf(x.dataHora) == h && IsOccupiedFlag(x.ocupada) then 1 else 0)
  {
    assert (items + [x])[..|items|] == items;
  }

  /** The two 24-entry counter tables hold the per-hour counts of `items`. */
  ghost predicate Tallied(occupied: array<nat>, total: array<nat>, items: seq<HistoryItem>, hourOf: int -> Hour)
    reads occupied, total
  {
    occupied.Length == 24 && total.Length == 24 &&
    forall k :: 0 <= k < 24 ==>
      occupied[k] == HourOccupied(items, hourOf, k) && total[k] == HourTotal(items, hourOf, k)
  }

  /** The inner `forEach` of `calculateHourlyOccupancy`: counts one spot's samples into the tables. */
  method TallyHistory(occupied: array<nat>, total: array<nat>, seen: seq<HistoryItem>, historico: seq<HistoryItem>, hourOf: int -> Hour)
    requires occupied != total
    requires Tallied(occupied, total, seen, hourOf)
    modifies occupied, total
    ensures Tallied(occupied, total, seen + historico, hourOf)
  {
    assert seen + historico[..0] == seen;
    for j := 0 to |historico|
      invariant Tallied(occupied, total, seen + historico[..j], hourOf)
    {
      var item := historico[j];
      var hour := hourOf(item.dataHora);
      assert seen + historico[..j + 1] == (seen + historico[..j]) + [item];
      forall k | 0 <= k < 24 {
        HourCountsAppend(seen + historico[..j], item, hourOf, k);
      }
      total[hour] := total[hour] + 1;
      if IsOccupiedFlag(item.ocupada) {
        occupied[hour] := occupied[hour] + 1;
      }
    }
    assert historico[..|historico|] == historico;
  }

  /** `calculateHourlyOccupancy`: a table of 24 counter pairs, filled from every sample. */
  method CalculateHourlyOccupancy(spotsData: SpotsData, hourOf: int -> Hour) returns (buckets: seq<HourBucket>)
    ensures buckets == HourlyOccupancy(spotsData, hourOf)
  {
    var occupied := new nat[24];
    var total := new nat[24];
    for h := 0 to 24
      invariant forall k :: 0 <= k < h ==> occupied[k] == 0 && total[k] == 0
    {
      occupied[h] := 0;
      total[h] := 0;
    }
    assert Tallied(occupied, total, AllItems(spotsData[..0]), hourOf);
    for s := 0 to |spotsData|
      invariant Tallied(occupied, total, AllItems(spotsData[..s]), hourOf)
    {
      TallyHistory(occupied, total, AllItems(spotsData[..s]), spotsData[s].1, hourOf);
      assert spotsData[..s + 1][..s] == spotsData[..s];
    }
    assert spotsData[..|spotsData|] == spotsData;
    buckets := [];
    for h := 0 to 24
      invariant |buckets| == h
      invariant forall k :: 0 <= k < h ==> buckets[k] == HourlyOccupancy(spotsData, hourOf)[k]
    {
      buckets := buckets + [HourBucket(h, HourRate(occupied[h], total[h]))];
    }
  }

  lemma {:induction false} OccupiedAtMostTotal(items: seq<HistoryItem>, hourOf: int -> Hour, h: int)
    ensures HourOccupied(items, hourOf, h) <= HourTotal(items, hourOf, h)
  {
    if items != [] {
      OccupiedAtMostTotal(items[..|items| - 1], hourOf, h);
    }
  }

  /** The table has one bucket per hour of the day, bucket `h` labelled `h`. */
  lemma HourlyHours(spotsData: SpotsData, hourOf: int -> Hour)
    ensures var r := HourlyOccupancy(spotsData, hourOf);
      |r| == 24 && forall h :: 0 <= h < 24 ==> r[h].hour == h
  {
  }

  /** The peak-hour table of the global metrics is the hourly table. */
  lemma PeakHoursAreHourly(spotsData: SpotsData, now: int, hourOf: int -> Hour)
    ensures GlobalMetricsOf(spotsData, now, hourOf).peakHours == HourlyOccupancy(spotsData, hourOf)
  {
  }

  /**
    * Exactly 24 buckets in hour order, each rate the rounded percentage of occupied samples,
    * in [0, 100], and 0 for an hour without samples.
    */
  lemma HourlyBuckets(spotsData: SpotsData, hourOf: int -> Hour)
    ensures var r, items := HourlyOccupancy(spotsData, hourOf), AllItems(spotsData);
      |r| == 24 &&
      forall h :: 0 <= h < 24 ==>
        r[h].hour == h && 0 <= r[h].occupancyRate <= 100 &&
        (HourTotal(items, hourOf, h) == 0 ==> r[h].occupancyRate == 0) &&
        (HourTotal(items, hourOf, h) > 0 ==>
          var o, t, q := HourOccupied(items, hourOf, h), HourTotal(items, hourOf, h), r[h].occupancyRate;
          2 * t * q - t <= 200 * o < 2 * t * q + t)
  {
    var items := AllItems(spotsData);
    forall h | 0 <= h < 24
      ensures 0 <= HourRate(HourOccupied(items, hourOf, h), HourTotal(items, hourOf, h)) <= 100
    {
      var o, t := HourOccupied(items, hourOf, h), HourTotal(items, hourOf, h);
      OccupiedAtMostTotal(items, hourOf, h);
      if t > 0 {
        RoundDivRange(100 * o, t, 0, 100);
      }
    }
  }

  /** Samples over the hours below `n`. */
  function TotalBelow(items: seq<HistoryItem>, hourOf: int -> Hour, n: nat): nat {
    if n == 0 then 0 else TotalBelow(items, hourOf, n - 1) + HourTotal(items, hourOf, n - 1)
  }

  lemma {:induction false} TotalBelowAppend(items: seq<HistoryItem>, x: HistoryItem, hourOf: int -> Hour, n: nat)
    ensures TotalBelow(items + [x], hourOf, n) == TotalBelow(items, hourOf, n) + (if hourOf(x.dataHora) < n then 1 else 0)
  {
    if n > 0 {
      TotalBelowAppend(items, x, hourOf, n - 1);
      HourCountsAppend(items, x, hourOf, n - 1);
    }
  }

  lemma {:induction false} TotalBelowEmpty(hourOf: int -> Hour, n: nat)
    ensures TotalBelow([], hourOf, n) == 0
  {
    if n > 0 {
      TotalBelowEmpty(hourOf, n - 1);
    }
  }

  lemma {:induction false} TotalBelowAll(items: seq<HistoryItem>, hourOf: int -> Hour)
    ensures TotalBelow(items, hourOf, 24) == |items|
  {
    if items == [] {
      TotalBelowEmpty(hourOf, 24);
    } else {
      var init := items[..|items| - 1];
      var x := items[|items| - 1];
      TotalBelowAll(init, hourOf);
      assert init + [x] == items;
      assert hourOf(x.dataHora) < 24;
      TotalBelowAppend(init, x, hourOf, 24);
    }
  }

  /** The bucket totals add up to the number of samples over all spots. */
  lemma HourTotalsSumToObservations(spotsData: SpotsData, hourOf: int -> Hour)
    ensures TotalBelow(AllItems(spotsData), hourOf, 24) == |AllItems(spotsData)|
  {
    TotalBelowAll(AllItems(spotsData), hourOf);
  }

  // ---------------------------------------------------------------------------------------
  // Duration text
  // ---------------------------------------------------------------------------------------

  /** `formatDuration`: "<m>min" under an hour, else "<h>h <m>min", or "<h>h" on the hour. */
  function FormatDuration(minutes: int): string {
    if minutes < 60 then IntToString(minutes) + "min"
    else
      var hours := minutes / 60;
      var mins := minutes % 60;
      if mins > 0 then NatToString(hours) + "h " + NatToString(mins) + "min" else NatToString(hours) + "h"
  }

  /** The duration text reads back as the number of minutes it was made from. */
  lemma FormatDurationRoundTrip(minutes: nat)
    ensures ParseDuration(FormatDuration(minutes)) == Some(minutes)
  {
    var hours, mins := minutes / 60, minutes % 60;
    if minutes < 60 {
      ParseNumberThen(minutes, "min");
    } else if mins > 0 {
      assert FormatDuration(minutes) == NatToString(hours) + "h " + NatToString(mins) + "min";
      HoursAndMinutesRoundTrip(hours, mins);
    } else {
      ParseNumberThen(hours, "h");
    }
  }

  /** `"<h>h <m>min"` reads back as `60 h + m` minutes. */
  lemma HoursAndMinutesRoundTrip(hours: nat, mins: nat)
    ensures ParseDuration(NatToString(hours) + "h " + NatToString(mins) + "min") == Some(60 * hours + mins)
  {
    var tail := NatToString(mins) + "min";
    AppendAssoc(NatToString(hours) + "h ", NatToString(mins), "min");
    AppendAssoc(NatToString(hours), "h ", tail);
    ParseNumberThen(hours, "h " + tail);
    assert ("h " + tail)[..2] == "h " && ("h " + tail)[2..] == tail;
    ParseMinutesOf(hours, mins);
  }
}
