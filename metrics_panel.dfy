/**
  * What src/components/dashboard/MetricsPanel.tsx shows for the global metrics: a loading
  * placeholder, a waiting message, or the panel with the hourly bars and the top three most
  * and least used spots.
  */
module MetricsPanel {
  import opened Wrappers
  import opened Text
  import opened Sequences
  import opened Sorting
  import opened Rounding
  import opened MetricsService
  import UseMetrics

  /** One bar of the hourly chart. */
  datatype ChartBar = ChartBar(hour: string, ocupacao: int)

  /** One line of a ranking: its position from 1, the spot's name and utilisation (tenths). */
  datatype RankedSpot = RankedSpot(rank: nat, spotName: string, utilizationTenths: int)

  datatype PanelData = PanelData(
    averageText: string,
    bars: seq<ChartBar>,
    mostUsed: seq<RankedSpot>,
    leastUsed: seq<RankedSpot>)

  datatype PanelView = Loading | Waiting | Panel(data: PanelData)

  datatype BarColour = Red | Amber | Green

  /** `entry.ocupacao > 70 ? red : entry.ocupacao > 40 ? amber : green`. */
  function BarColourOf(rate: int): (c: BarColour)
    ensures c == Red <==> rate > 70
    ensures c == Amber <==> 40 < rate <= 70
    ensures c == Green <==> rate <= 40
  {
    if rate > 70 then Red else if rate > 40 then Amber else Green
  }

  /** A higher rate never gets a calmer colour. */
  lemma BarColourMonotone(a: int, b: int)
    requires a <= b
    ensures BarColourOf(a) == Red ==> BarColourOf(b) == Red
    ensures BarColourOf(b) == Green ==> BarColourOf(a) == Green
  {
  }

  /** `peakHoursData`: each hour as "HHh" with its rate. */
  function PeakHoursData(hours: seq<HourBucket>): (bars: seq<ChartBar>)
    ensures |bars| == |hours|
    ensures forall i :: 0 <= i < |hours| ==>
      bars[i] == ChartBar(UseMetrics.TwoDigitHour(hours[i].hour) + "h", hours[i].occupancyRate)
  {
    seq(|hours|, i requires 0 <= i < |hours| => ChartBar(UseMetrics.TwoDigitHour(hours[i].hour) + "h", hours[i].occupancyRate))
  }

  /** Each bar of an hour of the day is labelled with that hour in two digits and "h". */
  lemma BarLabelsDenoteHours(hours: seq<HourBucket>, i: nat)
    requires i < |hours| && 0 <= hours[i].hour < 24
    ensures var l := PeakHoursData(hours)[i].hour;
      |l| == 3 && AllDigits(l[..2]) && DigitsValue(l[..2]) == hours[i].hour && l[2] == 'h'
  {
    UseMetrics.TwoDigitHourDenotes(hours[i].hour);
    var l := PeakHoursData(hours)[i].hour;
    assert l[..2] == UseMetrics.TwoDigitHour(hours[i].hour);
  }

  /** `spots.slice(0, 3).map((spot, idx) => ...)`, ranked from 1. */
  function TopThree(spots: seq<SpotMetrics>): (r: seq<RankedSpot>)
    ensures |r| == Min(3, |spots|)
    ensures forall i :: 0 <= i < |r| ==>
      r[i] == RankedSpot(i + 1, spots[i].spotName, spots[i].utilizationTenths)
  {
    var t := Take(spots, 3);
    seq(|t|, i requires 0 <= i < |t| => RankedSpot(i + 1, t[i].spotName, t[i].utilizationTenths))
  }

  /** `MetricsPanel({ metrics, isLoading })`: loading wins, then the waiting message. */
  function MetricsPanelView(metrics: Option<GlobalMetrics>, isLoading: bool): (v: PanelView)
    ensures isLoading <==> v == Loading
    ensures !isLoading && metrics.None? <==> v == Waiting
    ensures v.Panel? ==> (metrics.Some? &&
      var m := metrics.value;
      v.data.averageText == FormatDuration(m.averageOccupancyMinutes) &&
      v.data.bars == PeakHoursData(m.peakHours) &&
      v.data.mostUsed == TopThree(m.mostUsedSpots) && v.data.leastUsed == TopThree(m.leastUsedSpots))
  {
    if isLoading then Loading
    else if metrics.None? then Waiting
    else
      var m := metrics.value;
      Panel(PanelData(FormatDuration(m.averageOccupancyMinutes), PeakHoursData(m.peakHours),
        TopThree(m.mostUsedSpots), TopThree(m.leastUsedSpots)))
  }

  /**
    * The "most used" listing of the panel holds the three spots of highest utilisation, in
    * non-increasing order: no spot left out is used more than one listed.
    */
  lemma MostUsedListingIsTopThree(ms: seq<SpotMetrics>)
    ensures var listed := Take(MostUsed(ms), 3);
      |listed| == Min(3, |ms|) &&
      NonIncreasing(listed, Utilization) && multiset(listed) <= multiset(ms) &&
      forall x, y :: x in multiset(ms) - multiset(listed) && y in listed ==> Utilization(x) <= Utilization(y)
  {
    var sorted := SortDesc(ms, Utilization);
    assert Take(MostUsed(ms), 3) == Take(sorted, 3);
    TopKAreLargest(ms, Utilization, 3);
  }
}
