/**
  * The statistics and chart points of src/components/dashboard/SpotDetailModal.tsx, computed
  * from the history of the spot the modal shows (if any).
  */
module SpotDetailModal {
  import opened Wrappers
  import opened Sequences
  import opened Rounding
  import opened ParkingTypes

  const MinuteMs: int := 60000

  datatype StatusConfig = StatusConfig(caption: string, color: string, icon: string)

  /** `statusConfig`. */
  function StatusConfigOf(st: SpotStatus): StatusConfig {
    match st
    case Free => StatusConfig("Livre", "bg-success text-success-foreground", "text-success")
    case Occupied => StatusConfig("Ocupada", "bg-destructive text-destructive-foreground", "text-destructive")
    case Inactive => StatusConfig("Inativo", "bg-warning text-warning-foreground", "text-warning")
  }

  /** `spot ? statusConfig[spot.status] : statusConfig.inactive`. */
  function Config(spot: Option<ParkingSpot>): (c: StatusConfig)
    ensures spot.None? ==> c == StatusConfigOf(Inactive) && c.caption == "Inativo"
    ensures spot.Some? ==> c == StatusConfigOf(spot.value.status)
  {
    if spot.Some? then StatusConfigOf(spot.value.status) else StatusConfigOf(Inactive)
  }

  /** Each status has its own label, so the label tells the status. */
  lemma StatusLabelsDistinct(a: SpotStatus, b: SpotStatus)
    requires StatusConfigOf(a).caption == StatusConfigOf(b).caption
    ensures a == b
  {
  }

  /** `spot?.occupancyHistory`, empty without a spot. */
  function HistoryOf(spot: Option<ParkingSpot>): seq<OccupancyRecord> {
    if spot.Some? then spot.value.occupancyHistory else []
  }

  /** Sum of the gaps to the next sample over the samples that are occupied and have a successor. */
  function GapTotal(h: seq<OccupancyRecord>): int {
    if |h| < 2 then 0
    else
      var n := |h|;
      GapTotal(h[..n - 1]) + (if h[n - 2].status == Occupied then h[n - 1].timestamp - h[n - 2].timestamp else 0)
  }

  /** Number of samples that are occupied and have a successor. */
  function GapCount(h: seq<OccupancyRecord>): nat {
    if |h| < 2 then 0
    else GapCount(h[..|h| - 1]) + (if h[|h| - 2].status == Occupied then 1 else 0)
  }

  /** The gaps counted are exactly the occupied samples other than the last one. */
  lemma {:induction false} GapCountIsOccupiedBeforeLast(h: seq<OccupancyRecord>)
    requires h != []
    ensures GapCount(h) == CountRecords(h[..|h| - 1], Occupied)
  {
    if |h| >= 2 {
      var init := h[..|h| - 1];
      GapCountIsOccupiedBeforeLast(init);
      assert init[..|init| - 1] == h[..|h| - 2];
      CountRecordsStep(init, Occupied);
    } else {
      assert h[..0] == [];
    }
  }

  /** In a history in time order no gap is negative. */
  lemma {:induction false} GapTotalNonNegative(h: seq<OccupancyRecord>)
    requires forall i :: 0 < i < |h| ==> h[i - 1].timestamp <= h[i].timestamp
    ensures GapTotal(h) >= 0
  {
    if |h| >= 2 {
      GapTotalNonNegative(h[..|h| - 1]);
    }
  }

  /** `avgDuration`: the mean gap in rounded minutes, 0 without gaps. */
  function AverageGap(h: seq<OccupancyRecord>): int {
    if GapCount(h) > 0 then RoundDiv(GapTotal(h), GapCount(h) * MinuteMs) else 0
  }

  /** The loop of lines 38-46 and the rounding after it. */
  method AverageOccupiedGap(history: seq<OccupancyRecord>) returns (avgDuration: int)
    ensures avgDuration == AverageGap(history)
    ensures GapCount(history) == 0 ==> avgDuration == 0
    ensures GapCount(history) > 0 ==>
      var d := GapCount(history) * MinuteMs;
      2 * d * avgDuration - d <= 2 * GapTotal(history) < 2 * d * avgDuration + d
  {
    var totalDuration := 0;
    var durationCount := 0;
    var i := 1;
    while i < |history|
      invariant 1 <= i && (|history| == 0 ==> durationCount == 0)
      invariant |history| > 0 ==>
        i <= |history| && totalDuration == GapTotal(history[..i]) && durationCount == GapCount(history[..i])
    {
      assert history[..i + 1][..i] == history[..i];
      if history[i - 1].status == Occupied {
        var duration := history[i].timestamp - history[i - 1].timestamp;
        totalDuration := totalDuration + duration;
        durationCount := durationCount + 1;
      }
      i := i + 1;
    }
    if |history| > 0 {
      assert history[..i] == history;
    }
    avgDuration := if durationCount > 0 then RoundDiv(totalDuration, durationCount * MinuteMs) else 0;
  }

  lemma AverageGapNonNegative(h: seq<OccupancyRecord>)
    requires forall i :: 0 < i < |h| ==> h[i - 1].timestamp <= h[i].timestamp
    ensures AverageGap(h) >= 0
  {
    GapTotalNonNegative(h);
    if GapCount(h) > 0 {
      RoundDivAtLeast(GapTotal(h), GapCount(h) * MinuteMs, 0);
    }
  }

  datatype DetailStats = DetailStats(
    totalEvents: nat,
    occupiedPercent: int,
    avgDuration: int,
    lastEvents: seq<OccupancyRecord>)

  /** `occupiedPercent`: the rounded share of occupied samples, in percent. */
  function OccupiedPercent(h: seq<OccupancyRecord>): (p: int)
    requires h != []
    ensures 0 <= p <= 100
    ensures 2 * |h| * p - |h| <= 200 * CountRecords(h, Occupied) < 2 * |h| * p + |h|
  {
    var occupiedCount := CountRecords(h, Occupied);
    RoundDivRange(100 * occupiedCount, |h|, 0, 100);
    RoundDiv(100 * occupiedCount, |h|)
  }

  /** `slice(-10).reverse()`: the ten most recent samples, newest first. */
  function LastEvents(h: seq<OccupancyRecord>): (r: seq<OccupancyRecord>)
    ensures |r| == Min(10, |h|)
    ensures forall i :: 0 <= i < |r| ==> r[i] == h[|h| - 1 - i]
  {
    var t := TakeLast(h, 10);
    var r := Reverse(t);
    assert forall i :: 0 <= i < |r| ==> r[i] == t[|t| - 1 - i];
    r
  }

  /** The `stats` memo of the modal. */
  method ComputeStats(spot: Option<ParkingSpot>) returns (st: DetailStats)
    ensures HistoryOf(spot) == [] ==> st == DetailStats(0, 0, 0, [])
    ensures HistoryOf(spot) != [] ==>
      var h := HistoryOf(spot);
      var n := |h|;
      st.totalEvents == n &&
      0 <= st.occupiedPercent <= 100 &&
      2 * n * st.occupiedPercent - n <= 200 * CountRecords(h, Occupied) < 2 * n * st.occupiedPercent + n &&
      |st.lastEvents| == Min(10, n) &&
      (forall i :: 0 <= i < |st.lastEvents| ==> st.lastEvents[i] == h[n - 1 - i]) &&
      st.avgDuration == AverageGap(h)
  {
    var history := HistoryOf(spot);
    if |history| == 0 {
      return DetailStats(0, 0, 0, []);
    }
    var occupiedPercent := OccupiedPercent(history);
    var lastEvents := LastEvents(history);
    var avgDuration := AverageOccupiedGap(history);
    st := DetailStats(|history|, occupiedPercent, avgDuration, lastEvents);
  }

  datatype ChartPoint = ChartPoint(index: nat, value: int)

  function Point(index: nat, r: OccupancyRecord): ChartPoint {
    ChartPoint(index, if r.status == Occupied then 1 else 0)
  }

  /** `chartData`: the last 20 samples, numbered from 0, valued 1 when occupied. */
  function ChartData(spot: Option<ParkingSpot>): (c: seq<ChartPoint>)
    ensures var h := HistoryOf(spot);
      |c| == Min(20, |h|) &&
      forall i :: 0 <= i < |c| ==>
        c[i].index == i && (c[i].value == 1 <==> h[|h| - |c| + i].status == Occupied) && 0 <= c[i].value <= 1
  {
    var h := HistoryOf(spot);
    if |h| == 0 then []
    else RecentPoints(h); Points(TakeLast(h, 20))
  }

  lemma RecentPoints(h: seq<OccupancyRecord>)
    ensures var c := Points(TakeLast(h, 20));
      |c| == Min(20, |h|) &&
      forall i :: 0 <= i < |c| ==>
        c[i].index == i && (c[i].value == 1 <==> h[|h| - |c| + i].status == Occupied) && 0 <= c[i].value <= 1
  {
    var recent := TakeLast(h, 20);
    var c := Points(recent);
    forall i | 0 <= i < |c|
      ensures c[i].index == i && (c[i].value == 1 <==> h[|h| - |c| + i].status == Occupied) && 0 <= c[i].value <= 1
    {
      assert recent[i] == h[|h| - |recent| + i];
    }
  }

  /** One point per sample, numbered from 0. */
  function Points(recent: seq<OccupancyRecord>): (c: seq<ChartPoint>)
    ensures |c| == |recent|
    ensures forall i :: 0 <= i < |c| ==>
      c[i].index == i && (c[i].value == 1 <==> recent[i].status == Occupied) && 0 <= c[i].value <= 1
  {
    seq(|recent|, i requires 0 <= i < |recent| => Point(i, recent[i]))
  }

  function SumValues(c: seq<ChartPoint>): int {
    if c == [] then 0 else SumValues(c[..|c| - 1]) + c[|c| - 1].value
  }

  lemma {:induction false} SumValuesCounts(c: seq<ChartPoint>, h: seq<OccupancyRecord>)
    requires |c| == |h|
    requires forall i :: 0 <= i < |c| ==> (c[i].value == 1 <==> h[i].status == Occupied) && 0 <= c[i].value <= 1
    ensures SumValues(c) == CountRecords(h, Occupied)
  {
    if c != [] {
      SumValuesCounts(c[..|c| - 1], h[..|h| - 1]);
      CountRecordsStep(h, Occupied);
    }
  }

  /** The chart's values add up to the number of occupied samples among the last 20. */
  lemma ChartCountsOccupied(spot: Option<ParkingSpot>)
    ensures SumValues(ChartData(spot)) == CountRecords(TakeLast(HistoryOf(spot), 20), Occupied)
  {
    var h := HistoryOf(spot);
    var c := ChartData(spot);
    var recent := TakeLast(h, 20);
    SumValuesCounts(c, recent);
  }
}
