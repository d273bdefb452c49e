/**
  * The rules of src/components/dashboard/ParkingSpotCard.tsx: how long ago a spot reported,
  * its status label and pulsing dot, and the sensor icon and label tables.
  */
module ParkingSpotCard {
  import opened Text
  import opened ParkingTypes
  import SpotDetailModal

  const MinuteMs: int := 60000

  /** `Math.floor((now - lastUpdate) / 60000)`: whole minutes elapsed, rounded down. */
  function ElapsedMinutes(now: int, lastUpdate: int): (m: int)
    ensures MinuteMs * m <= now - lastUpdate < MinuteMs * (m + 1)
  {
    (now - lastUpdate) / MinuteMs
  }

  /** `timeSinceUpdate`: "agora", then whole minutes, then whole hours. */
  function TimeSinceUpdate(now: int, lastUpdate: int): (r: string)
    ensures r == "agora" <==> now - lastUpdate < MinuteMs
    ensures var m := ElapsedMinutes(now, lastUpdate);
      1 <= m < 60 ==> r == NatToString(m) + "min"
    ensures var m := ElapsedMinutes(now, lastUpdate);
      m >= 60 ==> r == NatToString(m / 60) + "h"
  {
    var minutes := ElapsedMinutes(now, lastUpdate);
    if minutes < 1 then "agora"
    else if minutes < 60 then
      var r := NatToString(minutes) + "min";
      assert r[|r| - 1] == 'n';
      r
    else
      var r := NatToString(minutes / 60) + "h";
      assert r[|r| - 1] == 'h';
      r
  }

  /**
    * Apart from "agora", the text reads back as a number of minutes: the exact minutes below
    * an hour, the elapsed time rounded down to whole hours from then on.
    */
  lemma TimeSinceUpdateReadsBack(now: int, lastUpdate: int)
    requires now - lastUpdate >= MinuteMs
    ensures var m := ElapsedMinutes(now, lastUpdate);
      var v := ParseDuration(TimeSinceUpdate(now, lastUpdate));
      v.Some? && 1 <= v.value <= m < v.value + 60 && (m < 60 ==> v.value == m)
  {
    var m := ElapsedMinutes(now, lastUpdate);
    if m < 60 {
      ParseNumberThen(m, "min");
    } else {
      ParseNumberThen(m / 60, "h");
    }
  }

  /** The status text under the spot. */
  function StatusLabel(st: SpotStatus): string {
    if st == Free then "Livre" else if st == Occupied then "Ocupada" else "Inativo"
  }

  /** The card and the detail view name every status alike. */
  lemma StatusLabelAsInDetail(st: SpotStatus)
    ensures StatusLabel(st) == SpotDetailModal.StatusConfigOf(st).caption
  {
  }

  /** The status dot pulses for every status but `inactive`. */
  predicate Pulses(st: SpotStatus) {
    st != Inactive
  }

  /** A spot coming from the API or the mock data pulses exactly when it is online. */
  lemma PulsesIffOnline(spot: ParkingSpot)
    requires spot.isOnline <==> spot.status != Inactive
    ensures Pulses(spot.status) <==> spot.isOnline
  {
  }

  datatype SensorIcon = Radio | Zap | Magnet | CircleDot

  /** `sensorIcons`. */
  function SensorIconOf(t: SensorType): SensorIcon {
    match t
    case Ultrasonic => Radio
    case Infrared => Zap
    case ReedSwitch => Magnet
    case Digital => CircleDot
  }

  /** `sensorLabels`, with the ultrasonic label spelt as the file spells it. */
  function SensorLabelOf(t: SensorType): string {
    match t
    case Ultrasonic => "UltrassÃ´nico"
    case Infrared => "Infravermelho"
    case ReedSwitch => "Reed Switch"
    case Digital => "Digital"
  }

  /** Both tables cover the four sensor types, and each tells them apart. */
  lemma SensorTablesDistinguish(a: SensorType, b: SensorType)
    ensures SensorIconOf(a) == SensorIconOf(b) <==> a == b
    ensures SensorLabelOf(a) == SensorLabelOf(b) <==> a == b
  {
    if a != b {
      assert SensorLabelOf(a)[0] != SensorLabelOf(b)[0] || |SensorLabelOf(a)| != |SensorLabelOf(b)|;
    }
  }
}
