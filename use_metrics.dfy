/**
  * src/hooks/useMetrics.ts: the gating of the metrics on available data, the per-spot list
  * and the three busiest hours as text.
  */
module UseMetrics {
  import opened Wrappers
  import opened Text
  import opened Sequences
  import opened Sorting
  import opened Rounding
  import opened MetricsService

  datatype MetricsView = MetricsView(
    globalMetrics: Option<GlobalMetrics>,
    spotMetrics: seq<SpotMetrics>,
    isCalculating: bool,
    peakHoursFormatted: seq<string>)

  /** `enabled && Object.keys(rawData).length > 0`. */
  predicate HasData(rawData: SpotsData, enabled: bool) {
    enabled && |rawData| > 0
  }

  function Rate(b: HourBucket): int { b.occupancyRate }

  /** `hour.toString().padStart(2, '0')`. */
  function TwoDigitHour(hour: int): string {
    PadStart(IntToString(hour), 2, '0')
  }

  /** An hour of the day prints as exactly two digits that denote it. */
  lemma TwoDigitHourDenotes(hour: Hour)
    ensures var t := TwoDigitHour(hour);
      |t| == 2 && AllDigits(t) && DigitsValue(t) == hour
  {
    TwoDigitsDenote(hour);
  }

  /** `"HH:00 (r%)"`. */
  function FormatPeakHour(b: HourBucket): string {
    TwoDigitHour(b.hour) + ":00 (" + IntToString(b.occupancyRate) + "%)"
  }

  function FormatAll(bs: seq<HourBucket>): (r: seq<string>)
    ensures |r| == |bs| && forall i :: 0 <= i < |bs| ==> r[i] == FormatPeakHour(bs[i])
  {
    seq(|bs|, i requires 0 <= i < |bs| => FormatPeakHour(bs[i]))
  }

  /** The three busiest hours: a stable sort by descending rate, then the first three. */
  function TopHours(g: GlobalMetrics): seq<HourBucket> {
    Take(SortDesc(g.peakHours, Rate), 3)
  }

  function PeakHoursFormatted(globalMetrics: Option<GlobalMetrics>): seq<string> {
    if globalMetrics.None? then [] else FormatAll(TopHours(globalMetrics.value))
  }

  /** `useMetrics`, with the clock `now` and the local hour `hourOf` of the metrics engine. */
  function UseMetrics(rawData: SpotsData, enabled: bool, now: int, hourOf: int -> Hour): (v: MetricsView)
    ensures v.globalMetrics.None? <==> !HasData(rawData, enabled)
    ensures v.globalMetrics.Some? ==> v.globalMetrics.value == GlobalMetricsOf(rawData, now, hourOf)
    ensures v.spotMetrics == if HasData(rawData, enabled) then AllSpotMetrics(rawData, now) else []
    ensures !v.isCalculating
    ensures v.peakHoursFormatted == PeakHoursFormatted(v.globalMetrics)
  {
    var hasData := HasData(rawData, enabled);
    var globalMetrics := if hasData then Some(GlobalMetricsOf(rawData, now, hourOf)) else None;
    var spotMetrics := if hasData then AllSpotMetrics(rawData, now) else [];
    MetricsView(globalMetrics, spotMetrics, false, PeakHoursFormatted(globalMetrics))
  }

  /** With data there is one spot record per entry, in entry order, named "Vaga " + its id; none without. */
  lemma SpotListFollowsEntries(rawData: SpotsData, enabled: bool, now: int, hourOf: int -> Hour)
    ensures var ms := UseMetrics(rawData, enabled, now, hourOf).spotMetrics;
      |ms| == (if HasData(rawData, enabled) then |rawData| else 0) &&
      forall i :: 0 <= i < |ms| ==>
        ms[i].spotId == rawData[i].0 && ms[i].spotName == "Vaga " + rawData[i].0 &&
        ms[i] == CalculateSpotMetrics(rawData[i].0, "Vaga " + rawData[i].0, rawData[i].1, now)
  {
    AllSpotMetricsEntries(rawData, now);
  }

  /**
    * The busy-hour texts are at most three, none without metrics; with metrics they are the
    * formatted hours of highest rate, in non-increasing rate, and no hour left out has a
    * higher rate than one listed.
    */
  lemma PeakHoursAreTopThree(globalMetrics: Option<GlobalMetrics>)
    ensures var r := PeakHoursFormatted(globalMetrics);
      |r| <= 3 && (globalMetrics.None? ==> r == [])
    ensures globalMetrics.Some? ==>
      var hours := globalMetrics.value.peakHours;
      var top := TopHours(globalMetrics.value);
      var r := PeakHoursFormatted(globalMetrics);
      |r| == Min(3, |hours|) && (forall i :: 0 <= i < |r| ==> r[i] == FormatPeakHour(top[i])) &&
      NonIncreasing(top, Rate) && multiset(top) <= multiset(hours) &&
      forall x, y :: x in multiset(hours) - multiset(top) && y in top ==> Rate(x) <= Rate(y)
  {
    if globalMetrics.Some? {
      TopKAreLargest(globalMetrics.value.peakHours, Rate, 3);
      assert TopHours(globalMetrics.value) == Take(SortDesc(globalMetrics.value.peakHours, Rate), 3);
    }
  }

  /** With data, the table has 24 hours of the day, so exactly three texts are listed. */
  lemma ThreePeakHoursWithData(rawData: SpotsData, now: int, hourOf: int -> Hour)
    ensures |TopHours(GlobalMetricsOf(rawData, now, hourOf))| == 3
    ensures forall b :: b in TopHours(GlobalMetricsOf(rawData, now, hourOf)) ==> 0 <= b.hour < 24
  {
    var g := GlobalMetricsOf(rawData, now, hourOf);
    PeakHoursAreHourly(rawData, now, hourOf);
    HourlyHours(rawData, hourOf);
    TopThreeOfDay(g.peakHours);
  }

  /** Three of 24 buckets labelled by valid hours are taken, each with a valid hour. */
  lemma TopThreeOfDay(hours: seq<HourBucket>)
    requires |hours| == 24 && forall h :: 0 <= h < 24 ==> hours[h].hour == h
    ensures var top := Take(SortDesc(hours, Rate), 3);
      |top| == 3 && forall b :: b in top ==> 0 <= b.hour < 24
  {
    var sorted := SortDesc(hours, Rate);
    var top := Take(sorted, 3);
    forall b | b in top ensures 0 <= b.hour < 24 {
      assert b in sorted;
      assert b in multiset(sorted);
      assert b in multiset(hours);
      var h :| 0 <= h < 24 && hours[h] == b;
    }
  }

  /** The text of a bucket starts with the bucket's two-digit hour, then ":00". */
  lemma PeakHourTextHead(b: HourBucket)
    requires 0 <= b.hour < 24
    ensures var t := FormatPeakHour(b);
      |t| >= 5 && t[..2] == TwoDigitHour(b.hour) && t[2..5] == ":00"
  {
    TwoDigitHourDenotes(b.hour);
    HeadOfHourText(TwoDigitHour(b.hour), IntToString(b.occupancyRate));
  }

  lemma HeadOfHourText(a: string, rate: string)
    requires |a| == 2
    ensures var t := a + ":00 (" + rate + "%)";
      |t| >= 5 && t[..2] == a && t[2..5] == ":00"
  {
    var t := a + ":00 (" + rate + "%)";
    assert t[0] == a[0] && t[1] == a[1] && t[2] == ':' && t[3] == '0' && t[4] == '0';
  }

  /** The text of an hour of the day starts with that hour in two digits, then ":00". */
  lemma PeakHourTextStartsWithHour(b: HourBucket)
    requires 0 <= b.hour < 24
    ensures var t := FormatPeakHour(b);
      |t| >= 5 && AllDigits(t[..2]) && DigitsValue(t[..2]) == b.hour && t[2..5] == ":00"
  {
    PeakHourTextHead(b);
    TwoDigitHourDenotes(b.hour);
  }
}
