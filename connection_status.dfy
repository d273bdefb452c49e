/**
  * The connection summary of src/components/dashboard/ConnectionStatus.tsx: three rows (API,
  * IoT platform, sensors), each online, partial or offline, with a description.
  */
module ConnectionStatus {
  import opened Wrappers
  import opened Text

  datatype LinkStatus = Online | Partial | Offline

  datatype SensorStats = SensorStats(total: int, online: int)

  datatype ConnectionRow = ConnectionRow(name: string, status: LinkStatus, description: string)

  /** `sensorStats ? sensorStats.online : 0` and the same for `total`. */
  function SensorCounts(sensorStats: Option<SensorStats>): (counts: (int, int))
    ensures sensorStats.None? ==> counts == (0, 0)
    ensures sensorStats.Some? ==> counts == (sensorStats.value.online, sensorStats.value.total)
  {
    if sensorStats.Some? then (sensorStats.value.online, sensorStats.value.total) else (0, 0)
  }

  /** The sensor row: online when all sensors are, else partial when any is, else offline. */
  function SensorRowStatus(online: int, total: int): LinkStatus {
    if total > 0 && online == total then Online else if online > 0 then Partial else Offline
  }

  /** For counts with `0 <= online <= total`, the three statuses split the cases exactly. */
  lemma SensorRowCases(online: int, total: int)
    requires 0 <= online <= total
    ensures SensorRowStatus(online, total) == Online <==> total > 0 && online == total
    ensures SensorRowStatus(online, total) == Partial <==> 0 < online < total
    ensures SensorRowStatus(online, total) == Offline <==> online == 0
  {
  }

  /** `"<online>/<total> ativos"`, or "Aguardando dados" without sensors. */
  function SensorDescription(online: int, total: int): string {
    if total > 0 then IntToString(online) + "/" + IntToString(total) + " ativos" else "Aguardando dados"
  }

  /** Reads `"<n>" + sep + rest` back: the number, then the separator character, then `rest`. */
  lemma ReadNumberThen(n: nat, sep: char, rest: string)
    requires !IsDigit(sep)
    ensures var d := NatToString(n) + [sep] + rest;
      var k := DigitPrefixLength(d);
      k == |NatToString(n)| && DigitsValue(d[..k]) == n && d[k] == sep && d[k + 1..] == rest
  {
    var a := NatToString(n);
    var t := [sep] + rest;
    ReadNumber(n, t);
    assert a + [sep] + rest == a + t;
  }

  /** The description gives back both counts it was made from. */
  lemma SensorDescriptionReadsBack(online: nat, total: nat)
    requires total > 0
    ensures var d := SensorDescription(online, total);
      var k := DigitPrefixLength(d);
      DigitsValue(d[..k]) == online && d[k] == '/' &&
      var rest := d[k + 1..];
      var j := DigitPrefixLength(rest);
      DigitsValue(rest[..j]) == total && rest[j..] == " ativos"
  {
    var b := NatToString(total);
    assert SensorDescription(online, total) == NatToString(online) + ['/'] + (b + " ativos");
    ReadNumberThen(online, '/', b + " ativos");
    ReadNumber(total, " ativos");
  }

  /** Without any sensor the description says it waits for data, whatever `online` says. */
  lemma NoSensorsWaitForData(online: int, total: int)
    requires total <= 0
    ensures SensorDescription(online, total) == "Aguardando dados"
  {
  }

  /** The three rows, in display order. */
  function Connections(isApiConnected: bool, sensorStats: Option<SensorStats>): (rows: seq<ConnectionRow>)
    ensures |rows| == 3
    ensures rows[0].status == rows[1].status == if isApiConnected then Online else Offline
    ensures rows[0].description == if isApiConnected then "Dados carregados" else "Sem conexão"
    ensures var (online, total) := SensorCounts(sensorStats);
      rows[2].status == SensorRowStatus(online, total) && rows[2].description == SensorDescription(online, total)
    ensures sensorStats.None? ==> rows[2] == ConnectionRow("Sensores Ultrassônicos", Offline, "Aguardando dados")
  {
    var (online, total) := SensorCounts(sensorStats);
    var api := if isApiConnected then Online else Offline;
    [ ConnectionRow("API Backend", api, if isApiConnected then "Dados carregados" else "Sem conexão"),
      ConnectionRow("Plataforma IoT", api, "Django + PythonAnywhere"),
      ConnectionRow("Sensores Ultrassônicos", SensorRowStatus(online, total), SensorDescription(online, total)) ]
  }

  /** The status word shown before the description. */
  function StatusText(s: LinkStatus): string {
    match s
    case Online => "online"
    case Partial => "parcial"
    case Offline => "offline"
  }

  /** The three words differ, so the text tells the status. */
  lemma StatusTextDistinguishes(a: LinkStatus, b: LinkStatus)
    ensures StatusText(a) == StatusText(b) <==> a == b
  {
    if a != b {
      assert StatusText(a)[1] != StatusText(b)[1] || |StatusText(a)| != |StatusText(b)|;
    }
  }
}
