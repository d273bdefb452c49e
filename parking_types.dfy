/** The front-end's domain records (src/types/parking.ts). Dates are integer milliseconds. */
module ParkingTypes {
  import opened Wrappers

  datatype SpotStatus = Free | Occupied | Inactive

  datatype SensorType = Ultrasonic | Infrared | ReedSwitch | Digital

  /** One entry of a spot's history; `duration` is in minutes and optional. */
  datatype OccupancyRecord = OccupancyRecord(timestamp: int, status: SpotStatus, duration: Option<int>)

  datatype ParkingSpot = ParkingSpot(
    id: string,
    name: string,
    status: SpotStatus,
    sensorType: SensorType,
    lastUpdate: int,
    isOnline: bool,
    occupancyHistory: seq<OccupancyRecord>)

  datatype ParkingStats = ParkingStats(
    totalSpots: nat,
    freeSpots: nat,
    occupiedSpots: nat,
    inactiveSpots: nat,
    averageOccupancy: int,
    peakHours: seq<string>)

  /** `filter(x => x.status === st).length` over the statuses of a list, in order. */
  function CountOf(statuses: seq<SpotStatus>, st: SpotStatus): (n: nat)
    ensures n <= |statuses|
  {
    if statuses == [] then 0
    else CountOf(statuses[..|statuses| - 1], st) + (if statuses[|statuses| - 1] == st then 1 else 0)
  }

  function SpotStatuses(spots: seq<ParkingSpot>): (r: seq<SpotStatus>)
    ensures |r| == |spots| && forall i :: 0 <= i < |spots| ==> r[i] == spots[i].status
  {
    seq(|spots|, i requires 0 <= i < |spots| => spots[i].status)
  }

  function RecordStatuses(history: seq<OccupancyRecord>): (r: seq<SpotStatus>)
    ensures |r| == |history| && forall i :: 0 <= i < |history| ==> r[i] == history[i].status
  {
    seq(|history|, i requires 0 <= i < |history| => history[i].status)
  }

  /** `spots.filter(s => s.status === st).length`. */
  function CountStatus(spots: seq<ParkingSpot>, st: SpotStatus): nat {
    CountOf(SpotStatuses(spots), st)
  }

  /** `history.filter(h => h.status === st).length`. */
  function CountRecords(history: seq<OccupancyRecord>, st: SpotStatus): nat {
    CountOf(RecordStatuses(history), st)
  }

  /** Counting spots one at a time from the end. */
  lemma CountStatusStep(spots: seq<ParkingSpot>, st: SpotStatus)
    requires spots != []
    ensures CountStatus(spots, st) ==
      CountStatus(spots[..|spots| - 1], st) + (if spots[|spots| - 1].status == st then 1 else 0)
  {
    assert SpotStatuses(spots[..|spots| - 1]) == SpotStatuses(spots)[..|spots| - 1];
  }

  /** Counting records one at a time from the end. */
  lemma CountRecordsStep(history: seq<OccupancyRecord>, st: SpotStatus)
    requires history != []
    ensures CountRecords(history, st) ==
      CountRecords(history[..|history| - 1], st) + (if history[|history| - 1].status == st then 1 else 0)
  {
    assert RecordStatuses(history[..|history| - 1]) == RecordStatuses(history)[..|history| - 1];
  }

  /** Every spot has exactly one of the three statuses. */
  lemma {:induction false} StatusCountsPartition(spots: seq<ParkingSpot>)
    ensures CountStatus(spots, Free) + CountStatus(spots, Occupied) + CountStatus(spots, Inactive) == |spots|
  {
    if spots != [] {
      StatusCountsPartition(spots[..|spots| - 1]);
      CountStatusStep(spots, Free);
      CountStatusStep(spots, Occupied);
      CountStatusStep(spots, Inactive);
    }
  }
}
