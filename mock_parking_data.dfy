/**
  * The demonstration data of src/data/mockParkingData.ts. Every `Math.random()` draw is a
  * parameter (a real in [0, 1)), and the clock is the parameter `now`.
  */
module MockParkingData {
  import opened Wrappers
  import opened Text
  import opened Sequences
  import opened Rounding
  import opened ParkingTypes
  import UseVagas

  /** A value of `Math.random()`. */
  type Draw = r: real | 0.0 <= r < 1.0

  const HourMs: int := 3600000

  /** How far back `lastUpdate` may lie, in milliseconds. */
  const MaxAgeMs: int := 300000

  const SensorTypes: seq<SensorType> := [Ultrasonic, Infrared, ReedSwitch, Digital]

  /** `Math.floor(r * 120) + 10`: a duration of 10 to 129 minutes. */
  function DurationOfDraw(r: Draw): (d: int)
    ensures 10 <= d <= 129
  {
    ScaledDraw(r, 120, 10)
  }

  /** The history record generated for the hour `i` back from `now`. */
  predicate IsGeneratedRecord(rec: OccupancyRecord, now: int, i: int, statusDraw: Draw, durationDraw: Draw) {
    rec.timestamp == now - i * HourMs &&
    (rec.status == Occupied <==> statusDraw > 0.4) &&
    (rec.status == Free <==> statusDraw <= 0.4) &&
    rec.duration == Some(DurationOfDraw(durationDraw))
  }

  /** What `generateOccupancyHistory` returns: 24 hourly records, newest first. */
  predicate IsGeneratedHistory(history: seq<OccupancyRecord>, now: int, statusDraws: seq<Draw>, durationDraws: seq<Draw>)
    requires |statusDraws| == 24 && |durationDraws| == 24
  {
    |history| == 24 &&
    forall i :: 0 <= i < 24 ==> IsGeneratedRecord(history[i], now, i, statusDraws[i], durationDraws[i])
  }

  /** `generateOccupancyHistory`, with the 24 status draws and the 24 duration draws. */
  method GenerateOccupancyHistory(now: int, statusDraws: seq<Draw>, durationDraws: seq<Draw>)
    returns (history: seq<OccupancyRecord>)
    requires |statusDraws| == 24 && |durationDraws| == 24
    ensures IsGeneratedHistory(history, now, statusDraws, durationDraws)
    ensures forall i :: 0 <= i < |history| ==>
      history[i].status != Inactive && history[i].duration.Some? && 10 <= history[i].duration.value <= 129
    ensures forall i :: 0 < i < |history| ==> history[i].timestamp == history[i - 1].timestamp - HourMs
  {
    history := [];
    for i := 0 to 24
      invariant |history| == i
      invariant forall k :: 0 <= k < i ==> IsGeneratedRecord(history[k], now, k, statusDraws[k], durationDraws[k])
    {
      var status := if statusDraws[i] > 0.4 then Occupied else Free;
      history := history + [OccupancyRecord(now - i * HourMs, status, Some(DurationOfDraw(durationDraws[i])))];
    }
  }

  /** `spot-` and the index padded to three digits. */
  function SpotId(i: nat): string {
    "spot-" + PadStart(NatToString(i), 3, '0')
  }

  /** `Math.ceil(i / 10)` for a positive index. */
  function Row(i: nat): (r: nat)
    requires i >= 1
    ensures r >= 1 && 10 * (r - 1) < i <= 10 * r
  {
    (i + 9) / 10
  }

  /** `((i - 1) % 10) + 1`. */
  function Column(i: nat): (c: nat)
    requires i >= 1
    ensures 1 <= c <= 10 && i == 10 * (Row(i) - 1) + c
  {
    (i - 1) % 10 + 1
  }

  /** `A<row>-<column>`: ten spots per row. */
  function SpotName(i: nat): string
    requires i >= 1
  {
    "A" + NatToString(Row(i)) + "-" + NatToString(Column(i))
  }

  /** The status drawn from `rand`. */
  function StatusOfDraw(r: Draw): (st: SpotStatus)
    ensures st == Free <==> r > 0.7
    ensures st == Occupied <==> 0.1 < r <= 0.7
    ensures st == Inactive <==> r <= 0.1
  {
    if r > 0.7 then Free else if r > 0.1 then Occupied else Inactive
  }

  /** `Math.floor(r * sensorTypes.length)`. */
  function SensorIndex(r: Draw): (k: nat)
    ensures k < |SensorTypes| && k as real <= r as real * 4.0 < (k + 1) as real
  {
    (r as real * 4.0).Floor
  }

  function SensorOfDraw(r: Draw): SensorType {
    SensorTypes[SensorIndex(r)]
  }

  /** Every sensor type is drawn by a quarter of the draws, so each can occur. */
  lemma EverySensorCanBeDrawn(t: SensorType)
    ensures exists r: Draw :: SensorOfDraw(r) == t
  {
    var k := if t == Ultrasonic then 0 else if t == Infrared then 1 else if t == ReedSwitch then 2 else 3;
    var r: Draw := k as real / 4.0;
    assert SensorIndex(r) == k;
    assert SensorOfDraw(r) == t;
  }

  /** The `TimeClip` of a `Date` built from a fractional number of milliseconds: truncation toward 0. */
  function TimeClip(x: real): (t: int)
    ensures x >= 0.0 ==> t as real <= x < t as real + 1.0
    ensures x < 0.0 ==> t as real - 1.0 < x <= t as real
  {
    if x >= 0.0 then x.Floor else -((-x).Floor)
  }

  /** `Date.now() - Math.random() * 300000`, as a `Date`. */
  function LastUpdateOfDraw(now: int, r: Draw): (t: int)
    ensures now - MaxAgeMs <= t <= now
  {
    TimeClip(now as real - r as real * 300000.0)
  }

  /** The draws consumed by one generated spot. */
  datatype SpotDraws = SpotDraws(
    status: Draw,
    sensor: Draw,
    age: Draw,
    historyStatus: seq<Draw>,
    historyDuration: seq<Draw>)

  predicate WellSized(d: SpotDraws) {
    |d.historyStatus| == 24 && |d.historyDuration| == 24
  }

  /** The spot generated for index `i` (from 1). */
  predicate IsGeneratedSpot(spot: ParkingSpot, i: nat, d: SpotDraws, now: int)
    requires i >= 1 && WellSized(d)
  {
    spot.id == SpotId(i) && spot.name == SpotName(i) &&
    spot.status == StatusOfDraw(d.status) &&
    spot.sensorType == SensorOfDraw(d.sensor) &&
    spot.lastUpdate == LastUpdateOfDraw(now, d.age) &&
    (spot.isOnline <==> spot.status != Inactive) &&
    IsGeneratedHistory(spot.occupancyHistory, now, d.historyStatus, d.historyDuration)
  }

  /** `generateParkingSpots(count)`: spots 1..count, one set of draws each. */
  method GenerateParkingSpots(count: int, draws: seq<SpotDraws>, now: int) returns (spots: seq<ParkingSpot>)
    requires |draws| == if count > 0 then count else 0
    requires forall k :: 0 <= k < |draws| ==> WellSized(draws[k])
    ensures |spots| == |draws|
    ensures forall k :: 0 <= k < |spots| ==> IsGeneratedSpot(spots[k], k + 1, draws[k], now)
  {
    spots := [];
    var i := 1;
    while i <= count
      invariant 1 <= i <= (if count > 0 then count + 1 else 1) && |spots| == i - 1
      invariant forall k :: 0 <= k < |spots| ==> IsGeneratedSpot(spots[k], k + 1, draws[k], now)
    {
      var d := draws[i - 1];
      var status := StatusOfDraw(d.status);
      var history := GenerateOccupancyHistory(now, d.historyStatus, d.historyDuration);
      var spot := ParkingSpot(
        SpotId(i), SpotName(i), status, SensorOfDraw(d.sensor), LastUpdateOfDraw(now, d.age),
        status != Inactive, history);
      assert IsGeneratedSpot(spot, i, d, now);
      assert forall k :: 0 <= k < |spots| ==> (spots + [spot])[k] == spots[k];
      spots := spots + [spot];
      i := i + 1;
    }
  }

  /** The id carries the index as a (zero-padded) number, three digits wide below 1000. */
  lemma SpotIdDenotes(i: nat)
    ensures var id := SpotId(i);
      |id| >= 8 && id[..5] == "spot-" && AllDigits(id[5..]) && DigitsValue(id[5..]) == i &&
      (i < 1000 ==> |id| == 8)
  {
    var id := SpotId(i);
    var t := PadStart(NatToString(i), 3, '0');
    PadStartZerosValue(NatToString(i), 3);
    assert id[5..] == t && id[..5] == "spot-";
    if i < 1000 {
      assert Pow10(3) == 1000;
      NatToStringShort(i, 3);
    }
  }

  /** A number below 10^k prints with at most k digits. */
  lemma {:induction false} NatToStringShort(n: nat, k: nat)
    requires k >= 1 && n < Pow10(k)
    ensures |NatToString(n)| <= k
  {
    if n >= 10 {
      assert k >= 2;
      NatToStringShort(n / 10, k - 1);
    }
  }

  function Pow10(k: nat): (p: nat)
    ensures p >= 1
  {
    if k == 0 then 1 else 10 * Pow10(k - 1)
  }

  /** Distinct indices give distinct ids. */
  lemma SpotIdsDistinct(i: nat, j: nat)
    requires SpotId(i) == SpotId(j)
    ensures i == j
  {
    SpotIdDenotes(i);
    SpotIdDenotes(j);
  }

  /** The name spells the row and the column the index falls in. */
  lemma SpotNameDenotes(i: nat)
    requires i >= 1
    ensures var r := Row(i); var c := Column(i);
      SpotName(i) == "A" + NatToString(r) + "-" + NatToString(c) &&
      r >= 1 && 1 <= c <= 10 && i == 10 * (r - 1) + c
  {
  }

  /** Distinct indices give distinct names. */
  lemma SpotNamesDistinct(i: nat, j: nat)
    requires i >= 1 && j >= 1
    requires SpotName(i) == SpotName(j)
    ensures i == j
  {
    SpotNameTail(i);
    SpotNameTail(j);
    NumberPairInjective(Row(i), Column(i), Row(j), Column(j));
  }

  /** After the leading "A" comes `"<row>-<column>"`. */
  lemma SpotNameTail(i: nat)
    requires i >= 1
    ensures SpotName(i)[1..] == NatToString(Row(i)) + "-" + NatToString(Column(i))
  {
    var r, c := NatToString(Row(i)), NatToString(Column(i));
    AppendAssoc("A", r, "-");
    AppendAssoc("A", r + "-", c);
    assert ("A" + (r + "-" + c))[1..] == r + "-" + c;
  }

  /** Every generated spot is online exactly when it is not inactive, and was seen in the last five minutes. */
  lemma GeneratedSpotsOnlineRule(spots: seq<ParkingSpot>, draws: seq<SpotDraws>, now: int)
    requires |spots| == |draws|
    requires forall k :: 0 <= k < |draws| ==> WellSized(draws[k])
    requires forall k :: 0 <= k < |spots| ==> IsGeneratedSpot(spots[k], k + 1, draws[k], now)
    ensures forall k :: 0 <= k < |spots| ==>
      (spots[k].isOnline <==> spots[k].status != Inactive) &&
      (spots[k].status == Inactive <==> draws[k].status <= 0.1) &&
      now - MaxAgeMs <= spots[k].lastUpdate <= now &&
      |spots[k].occupancyHistory| == 24
  {
    forall k | 0 <= k < |spots|
      ensures (spots[k].isOnline <==> spots[k].status != Inactive) &&
        (spots[k].status == Inactive <==> draws[k].status <= 0.1) &&
        now - MaxAgeMs <= spots[k].lastUpdate <= now &&
        |spots[k].occupancyHistory| == 24
    {
      assert IsGeneratedSpot(spots[k], k + 1, draws[k], now);
    }
  }

  /** One row of the hourly chart data. */
  datatype HourlyEntry = HourlyEntry(hour: string, occupied: int, free: int)

  /** `HH:00`. */
  function HourLabel(i: nat): string {
    TwoDigits(i) + ":00"
  }

  /** The label of an hour of the day is five characters: its two digits, then ":00". */
  lemma HourLabelDenotes(i: nat)
    requires i < 24
    ensures var l := HourLabel(i);
      |l| == 5 && AllDigits(l[..2]) && DigitsValue(l[..2]) == i && l[2..] == ":00"
  {
    TwoDigitsDenote(i);
    assert HourLabel(i)[..2] == TwoDigits(i);
  }

  /** `Math.floor(r * k) + base`: a whole number from `base` to `base + k - 1`. */
  function ScaledDraw(r: Draw, k: nat, base: int): (v: int)
    requires k >= 1
    ensures base <= v <= base + k - 1
  {
    ScaledBounds(r, k);
    (r as real * k as real).Floor + base
  }

  lemma ScaledBounds(r: Draw, k: nat)
    requires k >= 1
    ensures 0.0 <= r as real * k as real < k as real
  {
    assert k as real - r as real * k as real == (1.0 - r as real) * k as real;
  }

  /** The scaled draw is the whole part of `r * k`, shifted by `base`. */
  lemma ScaledDrawIsFloor(r: Draw, k: nat, base: int)
    requires k >= 1
    ensures var v := ScaledDraw(r, k, base);
      (v - base) as real <= r as real * k as real < (v - base + 1) as real
  {
  }

  /** The entry generated for hour `i` from the pair of draws `d`. */
  function HourEntryOf(i: nat, d: (Draw, Draw)): HourlyEntry {
    HourlyEntry(HourLabel(i), ScaledDraw(d.0, 30, 10), ScaledDraw(d.1, 15, 5))
  }

  /** `generateHourlyData`, with an (occupied, free) pair of draws per hour. */
  method GenerateHourlyData(draws: seq<(Draw, Draw)>) returns (data: seq<HourlyEntry>)
    requires |draws| == 24
    ensures |data| == 24
    ensures forall i :: 0 <= i < 24 ==> data[i] == HourEntryOf(i, draws[i])
    ensures forall i :: 0 <= i < 24 ==> 10 <= data[i].occupied <= 39 && 5 <= data[i].free <= 19
  {
    data := [];
    for i := 0 to 24
      invariant |data| == i
      invariant forall k :: 0 <= k < i ==> data[k] == HourEntryOf(k, draws[k])
    {
      data := data + [HourEntryOf(i, draws[i])];
    }
    forall i | 0 <= i < 24 ensures 10 <= data[i].occupied <= 39 && 5 <= data[i].free <= 19 {
      assert data[i] == HourEntryOf(i, draws[i]);
    }
  }

  /**
    * This file's `calculateStats`. It guards only against an empty list, so it agrees with the
    * one of the hooks only where some spot is active or there is no spot at all.
    */
  function MockCalculateStats(spots: seq<ParkingSpot>): (st: ParkingStats)
    requires spots == [] || CountStatus(spots, Inactive) < |spots|
    ensures st == UseVagas.CalculateStats(spots)
  {
    var totalSpots := |spots|;
    var occupiedSpots := CountStatus(spots, Occupied);
    var inactiveSpots := CountStatus(spots, Inactive);
    var averageOccupancy := if totalSpots > 0 then RoundDiv(100 * occupiedSpots, totalSpots - inactiveSpots) else 0;
    ParkingStats(totalSpots, CountStatus(spots, Free), occupiedSpots, inactiveSpots, averageOccupancy, UseVagas.FixedPeakHours)
  }

  /** A JavaScript number as far as the percentage is concerned. */
  datatype JsNumber = Finite(value: int) | NaN | Infinity

  /** `Math.round((a / b) * 100)` for non-negative counts, with JavaScript's division by zero. */
  function JsRoundPercent(a: nat, b: nat): (r: JsNumber)
    ensures b == 0 && a == 0 <==> r == NaN
    ensures b > 0 ==> r == Finite(RoundDiv(100 * a, b))
  {
    if b == 0 then (if a == 0 then NaN else Infinity) else Finite(RoundDiv(100 * a, b))
  }

  /** `averageOccupancy` as the mock's `calculateStats` writes it, for every list of spots. */
  function MockAverageAsWritten(spots: seq<ParkingSpot>): (r: JsNumber)
    ensures spots == [] ==> r == Finite(0)
  {
    var totalSpots := |spots|;
    if totalSpots > 0 then JsRoundPercent(CountStatus(spots, Occupied), totalSpots - CountStatus(spots, Inactive))
    else Finite(0)
  }

  /** Where some spot is active, the mock's average is the hook's. */
  lemma MockAverageAgrees(spots: seq<ParkingSpot>)
    requires spots == [] || CountStatus(spots, Inactive) < |spots|
    ensures MockAverageAsWritten(spots) == Finite(UseVagas.CalculateStats(spots).averageOccupancy)
  {
    StatusCountsPartition(spots);
  }

  /** A list of inactive spots only makes the mock's average 0/0, that is NaN. */
  lemma AllInactiveGivesNaN(spots: seq<ParkingSpot>)
    requires spots != [] && CountStatus(spots, Inactive) == |spots|
    ensures MockAverageAsWritten(spots) == NaN
    ensures UseVagas.CalculateStats(spots).averageOccupancy == 0
  {
    StatusCountsPartition(spots);
    assert CountStatus(spots, Occupied) == 0;
    assert MockAverageAsWritten(spots) == JsRoundPercent(0, 0);
    var st := UseVagas.CalculateStats(spots);
    assert st.totalSpots == st.inactiveSpots;
  }

  /** A single inactive spot is such a list. */
  lemma OneInactiveSpotGivesNaN()
    ensures var s := ParkingSpot("spot-001", "A1-1", Inactive, Ultrasonic, 0, false, []);
      MockAverageAsWritten([s]) == NaN
  {
    var s := ParkingSpot("spot-001", "A1-1", Inactive, Ultrasonic, 0, false, []);
    assert [s][..0] == [];
    AllInactiveGivesNaN([s]);
  }
}
