/** The statistics of src/hooks/useVagas.ts: per-status counts and the occupancy percentage. */
module UseVagas {
  import opened ParkingTypes
  import opened Rounding

  /** The peak hours every computed statistic carries, fixed in the source. */
  const FixedPeakHours: seq<string> := ["08:00-10:00", "17:00-19:00"]

  /** `calculateStats`: the percentage counts only the spots that are not inactive. */
  function CalculateStats(spots: seq<ParkingSpot>): (st: ParkingStats)
    ensures st.totalSpots == |spots|
    ensures st.freeSpots == CountStatus(spots, Free)
    ensures st.occupiedSpots == CountStatus(spots, Occupied)
    ensures st.inactiveSpots == CountStatus(spots, Inactive)
    ensures st.freeSpots + st.occupiedSpots + st.inactiveSpots == st.totalSpots
    ensures 0 <= st.averageOccupancy <= 100
    ensures st.totalSpots == st.inactiveSpots ==> st.averageOccupancy == 0
    ensures st.totalSpots > st.inactiveSpots ==>
      var active := st.totalSpots - st.inactiveSpots;
      2 * active * st.averageOccupancy - active <= 200 * st.occupiedSpots < 2 * active * st.averageOccupancy + active
    ensures st.peakHours == FixedPeakHours
  {
    var totalSpots := |spots|;
    var freeSpots := CountStatus(spots, Free);
    var occupiedSpots := CountStatus(spots, Occupied);
    var inactiveSpots := CountStatus(spots, Inactive);
    StatusCountsPartition(spots);
    var activeSpots := totalSpots - inactiveSpots;
    var averageOccupancy :=
      if activeSpots > 0 then
        RoundDivRange(100 * occupiedSpots, activeSpots, 0, 100);
        RoundDiv(100 * occupiedSpots, activeSpots)
      else 0;
    ParkingStats(totalSpots, freeSpots, occupiedSpots, inactiveSpots, averageOccupancy, FixedPeakHours)
  }

  /** `emptyStats`: the statistics before any data arrives. */
  const EmptyStats: ParkingStats := ParkingStats(0, 0, 0, 0, 0, [])

  /** With no spots the computed statistics are the empty ones, except for the fixed peak hours. */
  lemma NoSpotsGiveEmptyStats()
    ensures CalculateStats([]) == EmptyStats.(peakHours := FixedPeakHours)
  {
  }
}
