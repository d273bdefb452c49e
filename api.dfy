/**
  * Domain logic of src/services/api.ts: the backend's history items, the current state of a
  * spot and the mapping of a history onto the front-end's `ParkingSpot`.
  */
module Api {
  import opened Wrappers
  import opened Text
  import opened ParkingTypes

  /**
    * One item of a spot's history as the backend sends it: `data_hora` (here already the
    * instant in milliseconds) and `ocupada`, a loosely typed "True"/"False" text that may be absent.
    */
  datatype HistoryItem = HistoryItem(dataHora: int, ocupada: Option<string>)

  /** `item.ocupada?.toLowerCase() === "true"`: a missing value reads as free. */
  predicate IsOccupiedFlag(ocupada: Option<string>) {
    ocupada.Some? && ToLower(ocupada.value) == "true"
  }

  /** The flag reads as occupied exactly for the sixteen upper/lower-case spellings of "true". */
  lemma OccupiedFlagSpellings(ocupada: Option<string>)
    ensures IsOccupiedFlag(ocupada) <==>
      ocupada.Some? && |ocupada.value| == 4 &&
      ocupada.value[0] in "tT" && ocupada.value[1] in "rR" &&
      ocupada.value[2] in "uU" && ocupada.value[3] in "eE"
  {
    if ocupada.Some? {
      LowerIsTrue(ocupada.value);
    }
  }

  function ItemStatus(item: HistoryItem): SpotStatus {
    if IsOccupiedFlag(item.ocupada) then Occupied else Free
  }

  datatype Estado = Estado(status: SpotStatus, lastUpdate: int)

  /**
    * `getEstadoAtual`: an empty history means the sensor is inactive (stamped with the clock,
    * `now`); otherwise the last item alone decides.
    */
  function GetEstadoAtual(historico: seq<HistoryItem>, now: int): (e: Estado)
    ensures historico == [] ==> e == Estado(Inactive, now)
    ensures historico != [] ==>
      e.status != Inactive &&
      (e.status == Occupied <==> IsOccupiedFlag(historico[|historico| - 1].ocupada)) &&
      e.lastUpdate == historico[|historico| - 1].dataHora
  {
    if |historico| == 0 then Estado(Inactive, now)
    else
      var ultimo := historico[|historico| - 1];
      Estado(ItemStatus(ultimo), ultimo.dataHora)
  }

  /** Only the last item matters: two histories ending in the same item give the same state. */
  lemma OnlyLastItemMatters(a: seq<HistoryItem>, b: seq<HistoryItem>, x: HistoryItem, now: int, now': int)
    ensures GetEstadoAtual(a + [x], now) == GetEstadoAtual(b + [x], now')
  {
  }

  /** `historico.map(item => ({timestamp, status}))`. */
  function HistoryRecords(historico: seq<HistoryItem>): (r: seq<OccupancyRecord>)
    ensures |r| == |historico|
    ensures forall i :: 0 <= i < |r| ==>
      r[i].timestamp == historico[i].dataHora && r[i].status != Inactive &&
      (r[i].status == Occupied <==> IsOccupiedFlag(historico[i].ocupada)) && r[i].duration == None
  {
    seq(|historico|, i requires 0 <= i < |historico| =>
      OccupancyRecord(historico[i].dataHora, ItemStatus(historico[i]), None))
  }

  /** `mapApiToSpot`. */
  function MapApiToSpot(id: string, historico: seq<HistoryItem>, now: int): (spot: ParkingSpot)
    ensures spot.id == id && spot.name == "Vaga " + id && spot.sensorType == Ultrasonic
    ensures spot.isOnline <==> spot.status != Inactive
    ensures spot.status == Inactive <==> historico == []
    ensures spot.lastUpdate == if historico == [] then now else historico[|historico| - 1].dataHora
    ensures |spot.occupancyHistory| == |historico|
    ensures forall i :: 0 <= i < |historico| ==>
      spot.occupancyHistory[i].timestamp == historico[i].dataHora &&
      spot.occupancyHistory[i].status != Inactive &&
      (spot.occupancyHistory[i].status == Occupied <==> IsOccupiedFlag(historico[i].ocupada))
  {
    var estado := GetEstadoAtual(historico, now);
    ParkingSpot(id, "Vaga " + id, estado.status, Ultrasonic, estado.lastUpdate,
      estado.status != Inactive, HistoryRecords(historico))
  }

  /** For a non-empty history the spot's status is that of the last entry of its own history. */
  lemma StatusIsLastRecord(id: string, historico: seq<HistoryItem>, now: int)
    requires historico != []
    ensures var spot := MapApiToSpot(id, historico, now);
      spot.status == spot.occupancyHistory[|spot.occupancyHistory| - 1].status
  {
  }
}
