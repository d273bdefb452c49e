# park-sense core, modelled in Dafny

park-sense is a parking dashboard. Ultrasonic sensors report whether each parking spot ("vaga") is occupied. A backend keeps each spot's history of samples (`data_hora`, `ocupada`). The dashboard derives three things from these histories:
- each spot's current status;
- occupancy statistics;
- occupancy periods and metrics per spot and across spots.

Live updates arrive over MQTT. An edge function proxies the backend. The rest of the dashboard is display rules and two settings hooks (accessibility flags and theme).

This project models those rules and proves what they promise.

Modules follow the source files:

| module | file |
|---|---|
| `MetricsService` | `src/services/metricsService.ts` |
| `Api` | `src/services/api.ts` |
| `UseVagas` | `src/hooks/useVagas.ts` |
| `SpotDetailModal` | `src/components/dashboard/SpotDetailModal.tsx` |
| `UseMetrics` | `src/hooks/useMetrics.ts` |
| `MockParkingData` | `src/data/mockParkingData.ts` |
| `Mqtt` | `src/services/mqttService.ts` |
| `ProxyVagas` | `supabase/functions/proxy-vagas/index.ts` |
| `ParkingSpotCard` | `src/components/dashboard/ParkingSpotCard.tsx` |
| `ConnectionStatus` | `src/components/dashboard/ConnectionStatus.tsx` |
| `MetricsPanel` | `src/components/dashboard/MetricsPanel.tsx` |
| `UseAccessibility` | `src/hooks/useAccessibility.ts` |
| `UseTheme` | `src/hooks/useTheme.ts` |

`ParkingTypes` holds the records of `src/types/parking.ts`.

Helper modules hold the library behaviour the source relies on:
- `Wrappers`: an `Option`.
- `Text`: decimal text, `padStart`, ASCII `toLowerCase`, `split("/")`, and a reader for duration texts.
- `Sequences`: `filter`, `slice`, `reverse`.
- `Sorting`: a stable descending sort by an integer key, as `Array.prototype.sort` is stable.
- `Rounding`: `Math.round` of a quotient.
- `Browser`: a `Document` class holding the root class list and `localStorage`.

Representation choices:
- **Time.** Timestamps are integer milliseconds. The clock is an explicit `now`. The local hour of a timestamp is a function parameter `hourOf` into 0..23.
- **Rounding.** `Math.round(a / b)` is `RoundDiv(a, b) = floor((2a + b) / 2b)`, half-up. A utilisation rate with one decimal is held as an integer number of tenths.
- **Imperative code.** The loops of the source are methods with loops:
  - `parseOccupancyPeriods`;
  - the push loop of `calculateGlobalMetrics`;
  - the 24-counter table of `calculateHourlyOccupancy`;
  - the gap loop of the detail modal;
  - the `generate*` loops of the mock data.

  Each method is proved equal to a specification function, and the lemmas are about those functions.
- **State.**
  - `MqttService` is a class whose methods update its fields.
  - The settings hooks' effects are methods on a `Browser.Document`.
- **Random draws.** `Math.random` draws are parameters of type `Draw`, a real in [0, 1).

Behaviour of the code that the model keeps as written:
- Utilisation drops a period that began more than 24 hours before `now`, so the start clip at `metricsService.ts:108` never takes effect.
- `lastOccupancy` is the end of the last period.
- Global metrics include spots whose history is empty.
- `mostUsedSpots` includes spots with zero utilisation.
- `JSON.parse` accepts the payloads `true` and `1` as JSON scalars without an `ocupada` field, so both read as free. The plain-text rule of `mqttService.ts:137` applies only to payloads that do not parse, or parse to `null`, such as `True`.
- The ultrasonic label of `ParkingSpotCard.tsx` is spelt `UltrassÃ´nico` in that file, and the model keeps that spelling.

## Model

| member | source | states |
|---|---|---|
| MetricsService.CalculateOccupancyDuration | src/services/metricsService.ts:35-41 | whole minutes between two instants, floored; 0 when the end comes first |
| MetricsService.ParseOccupancyPeriods | src/services/metricsService.ts:46-87 | the loop returns exactly the closed periods plus, when one is still open, a period ending at `now`; empty history gives no periods |
| MetricsService.PeriodInstants | src/services/metricsService.ts:55-84 | the k-th period is that of the k-th run of occupied samples: it starts at the run's first sample time and ends at the time of the free sample closing the run, or at `now` when the run reaches the end |
| MetricsService.OpenExactlyAfterOccupied | src/services/metricsService.ts:53-72 | a period is open after the scan iff the last sample read is occupied |
| MetricsService.PeriodCountIsRunCount | src/services/metricsService.ts:55-86 | the number of periods equals the number of maximal runs of occupied samples |
| MetricsService.RunCountZero | src/services/metricsService.ts:51-86 | there are no runs iff no sample is occupied |
| MetricsService.PeriodDurations | src/services/metricsService.ts:65-83 | every period's duration is the floored, non-negative minutes between its start and end |
| MetricsService.PeriodsChronological | src/services/metricsService.ts:55-86 | for a time-ordered history ending no later than `now`, periods come out in input order, each starting before it ends and ending before the next starts |
| MetricsService.RepeatedSampleChangesNothing | src/services/metricsService.ts:60-72 | inserting a sample with the same occupied state as the one before it leaves the periods unchanged |
| MetricsService.RecentMinutesAppend | src/services/metricsService.ts:103-111 | a period adds its minutes up to `now` exactly when it starts within the last 24 hours; an earlier period adds nothing |
| MetricsService.UtilizationTenths | src/services/metricsService.ts:113-122 | utilisation in tenths of a percent lies in 0..1000, is capped at 1000 from a full day on, and is the half-up rounding of the exact rate below that |
| MetricsService.CalculateSpotMetrics | src/services/metricsService.ts:92-125 | keeps id and name; count = number of occupied runs; total = sum of the period durations; average = rounded total/count or 0; utilisation = the capped rounding of the recent minutes, within 0..1000; last occupancy = end of the last period, absent iff never occupied, `now` when the history ends occupied |
| MetricsService.LastOccupancyEndsRun | src/services/metricsService.ts:114 | the last occupancy is `now` or the time of a free sample that follows an occupied one |
| MetricsService.EmptyHistoryMetrics | src/services/metricsService.ts:97-123 | an empty history gives all-zero metrics and no last occupancy |
| MetricsService.AllSpotMetrics | src/services/metricsService.ts:136-139 | one metrics record per entry, in entry order, empty histories included |
| MetricsService.AllSpotMetricsEntries | src/services/metricsService.ts:136-138 | record i carries entry i's id, the name "Vaga " + id, and the spot metrics of entry i's history |
| MetricsService.CollectSpotMetrics | src/services/metricsService.ts:133-139 | the `forEach` push loop yields exactly the per-entry metrics, in entry order |
| MetricsService.CalculateGlobalMetrics | src/services/metricsService.ts:130-175 | the push loop and aggregation return exactly the global metrics of the entries |
| MetricsService.MostUsedSpotsRanked | src/services/metricsService.ts:142-147 | most-used has min(5, n) spots in non-increasing utilisation, drawn from the spots, none of the others above any listed one |
| MetricsService.MostUsedSpotsStable | src/services/metricsService.ts:142-147 | spots of equal utilisation keep their input order (stable sort) |
| MetricsService.LeastUsedSpotsRanked | src/services/metricsService.ts:148-151 | least-used has min(5, active) spots, each with an event, in non-decreasing utilisation, none of the other active spots below any listed one |
| MetricsService.LeastUsedHaveEvents | src/services/metricsService.ts:149 | every least-used spot has at least one occupancy period |
| MetricsService.TotalEventsAreRuns | src/services/metricsService.ts:162-172 | total events is the number of occupied runs over all spots |
| MetricsService.GlobalAveragesBounded | src/services/metricsService.ts:154-173 | with spots, each average is the half-up rounded mean of the per-spot values over every entry; both non-negative, the utilisation average at most 100.0 %, and both 0 without spots |
| MetricsService.CalculateHourlyOccupancy | src/services/metricsService.ts:180-210 | the counter-table loops return exactly the 24 specified buckets |
| MetricsService.TallyHistory | src/services/metricsService.ts:192-201 | counting one more spot's samples leaves each hour's tables holding the occupied and total counts of all samples seen so far |
| MetricsService.HourlyHours | src/services/metricsService.ts:186-205 | there are 24 buckets and bucket h is for hour h |
| MetricsService.HourlyBuckets | src/services/metricsService.ts:183-209 | 24 buckets in hour order; each rate is the rounded occupied/total percentage within 0..100, or 0 for an empty bucket |
| MetricsService.OccupiedAtMostTotal | src/services/metricsService.ts:197-200 | a bucket never counts more occupied samples than samples |
| MetricsService.HourTotalsSumToObservations | src/services/metricsService.ts:191-202 | bucket totals sum to the number of samples across all spots |
| MetricsService.FormatDurationRoundTrip | src/services/metricsService.ts:215-222 | the "Nmin" / "Hh" / "Hh Mmin" text reads back as the minutes it was made from |
| Api.OccupiedFlagSpellings | src/services/api.ts:63-83 | the flag reads occupied exactly for the case variants of "true"; a missing flag is free |
| Api.GetEstadoAtual | src/services/api.ts:52-66 | empty history: inactive at `now`; otherwise never inactive, occupied iff the last item's flag, stamped with its time |
| Api.OnlyLastItemMatters | src/services/api.ts:60-65 | two histories with the same last item give the same status and time |
| Api.HistoryRecords | src/services/api.ts:81-84 | same length and order; each record occupied/free by the same rule, never inactive, without duration |
| Api.MapApiToSpot | src/services/api.ts:71-86 | keeps id, names it "Vaga " + id, ultrasonic, online iff not inactive, inactive iff no history, history mapped item by item |
| Api.StatusIsLastRecord | src/services/api.ts:62-84 | for a non-empty history the spot status is the status of its last record |
| ParkingTypes.StatusCountsPartition | src/hooks/useVagas.ts:26-31 | the three status counts sum to the number of spots |
| UseVagas.CalculateStats | src/hooks/useVagas.ts:26-48 | counts by status summing to the total; average within 0..100, 0 without active spots, else rounded occupied/active percentage; fixed peak hours |
| UseVagas.NoSpotsGiveEmptyStats | src/hooks/useVagas.ts:26-59 | no spots give the empty statistics, with the fixed peak hours |
| SpotDetailModal.Config | src/components/dashboard/SpotDetailModal.tsx:16-22 | no spot selects the whole inactive configuration; otherwise the spot's status configuration |
| SpotDetailModal.StatusLabelsDistinct | src/components/dashboard/SpotDetailModal.tsx:16-20 | the three configurations have different captions |
| SpotDetailModal.AverageOccupiedGap | src/components/dashboard/SpotDetailModal.tsx:38-47 | the loop's result is the rounded average gap in minutes over occupied samples with a successor, 0 when none |
| SpotDetailModal.GapCountIsOccupiedBeforeLast | src/components/dashboard/SpotDetailModal.tsx:39-45 | the gaps averaged are exactly the occupied samples other than the last |
| SpotDetailModal.AverageGapNonNegative | src/components/dashboard/SpotDetailModal.tsx:38-47 | for a time-ordered history the average gap is non-negative |
| SpotDetailModal.OccupiedPercent | src/components/dashboard/SpotDetailModal.tsx:31-32 | the rounded occupied percentage, within 0..100 |
| SpotDetailModal.LastEvents | src/components/dashboard/SpotDetailModal.tsx:35 | the last min(10, n) samples, newest first |
| SpotDetailModal.ComputeStats | src/components/dashboard/SpotDetailModal.tsx:25-55 | empty history gives zeros; otherwise total = length, the occupied percentage, the last ten newest first, and the average gap |
| SpotDetailModal.ChartData | src/components/dashboard/SpotDetailModal.tsx:58-66 | the last min(20, n) samples, indexed from 0, value 1 iff occupied |
| SpotDetailModal.ChartCountsOccupied | src/components/dashboard/SpotDetailModal.tsx:58-66 | the chart's values add up to the occupied samples among the last 20 |
| UseMetrics.UseMetrics | src/hooks/useMetrics.ts:27-55 | global metrics absent iff no data, else the global metrics of the entries; the spot list is the per-entry metrics with data and empty without; never calculating; peak texts come from the global metrics |
| UseMetrics.SpotListFollowsEntries | src/hooks/useMetrics.ts:37-42 | with data, spot record i carries entry i's id, the name "Vaga " + id and its metrics; without data the list is empty |
| UseMetrics.PeakHoursAreTopThree | src/hooks/useMetrics.ts:48-54 | at most three formatted hours, none without metrics; they are the highest rates in non-increasing order |
| UseMetrics.ThreePeakHoursWithData | src/hooks/useMetrics.ts:48-54 | with metrics there are always exactly three peak hours, each a valid hour |
| UseMetrics.PeakHourTextStartsWithHour | src/hooks/useMetrics.ts:51-53 | each entry starts with the two-digit hour, then ":00" |
| UseMetrics.TwoDigitHourDenotes | src/hooks/useMetrics.ts:52 | an hour prints as two digits that denote it |
| MockParkingData.GenerateOccupancyHistory | src/data/mockParkingData.ts:5-16 | 24 records one hour apart from `now` backwards, occupied iff the draw exceeds 0.4, durations in 10..129 |
| MockParkingData.DurationOfDraw | src/data/mockParkingData.ts:12 | a drawn duration lies in 10..129 |
| MockParkingData.Row | src/data/mockParkingData.ts:30 | the row is `ceil(i / 10)` |
| MockParkingData.Column | src/data/mockParkingData.ts:30 | the column is `(i - 1) mod 10 + 1`, within 1..10 |
| MockParkingData.StatusOfDraw | src/data/mockParkingData.ts:22-26 | free iff draw > 0.7, occupied iff 0.1 < draw <= 0.7, inactive iff draw <= 0.1 |
| MockParkingData.SensorIndex | src/data/mockParkingData.ts:32 | the drawn index is `floor(4 * draw)` |
| MockParkingData.EverySensorCanBeDrawn | src/data/mockParkingData.ts:3-32 | every sensor type is drawn by some draw |
| MockParkingData.TimeClip | src/data/mockParkingData.ts:33 | `new Date(x)` truncates a fractional time toward zero |
| MockParkingData.LastUpdateOfDraw | src/data/mockParkingData.ts:33 | the last update lies within the five minutes before `now` |
| MockParkingData.GenerateParkingSpots | src/data/mockParkingData.ts:18-40 | one spot per index 1..n, each built from its draws as specified |
| MockParkingData.SpotIdDenotes | src/data/mockParkingData.ts:29 | the id is "spot-" followed by digits denoting the index, exactly three below 1000 |
| MockParkingData.SpotIdsDistinct | src/data/mockParkingData.ts:29 | different indices give different ids |
| MockParkingData.SpotNameDenotes | src/data/mockParkingData.ts:30 | the name is "A<row>-<column>" with `i = 10 (row - 1) + column` |
| MockParkingData.SpotNamesDistinct | src/data/mockParkingData.ts:30 | different indices give different names |
| MockParkingData.GeneratedSpotsOnlineRule | src/data/mockParkingData.ts:22-36 | every generated spot is online iff not inactive, inactive iff its draw <= 0.1, updated within five minutes, with 24 history records |
| MockParkingData.HourLabelDenotes | src/data/mockParkingData.ts:65 | the hour label is the two-digit hour, then ":00" |
| MockParkingData.ScaledDraw | src/data/mockParkingData.ts:68-69 | `floor(draw * k) + base` lies in base..base+k-1 |
| MockParkingData.ScaledDrawIsFloor | src/data/mockParkingData.ts:68-69 | the scaled draw minus base is the floor of draw · k |
| MockParkingData.GenerateHourlyData | src/data/mockParkingData.ts:62-73 | 24 entries labelled by hour in order, occupied in 10..39, free in 5..19 |
| MockParkingData.MockCalculateStats | src/data/mockParkingData.ts:42-60 | where some spot is active (or none exist) the copy agrees with `UseVagas.CalculateStats` |
| MockParkingData.JsRoundPercent | src/data/mockParkingData.ts:48-50 | `Math.round(a / b * 100)` is NaN exactly for 0/0 and the rounded percentage for b > 0 |
| MockParkingData.MockAverageAsWritten | src/data/mockParkingData.ts:46-51 | the average as the copy computes it: 0 for no spots |
| MockParkingData.MockAverageAgrees | src/data/mockParkingData.ts:46-51 | with an active spot, it is the average of `UseVagas.CalculateStats` |
| MockParkingData.AllInactiveGivesNaN | src/data/mockParkingData.ts:48-50 | when every spot is inactive the copy gives NaN while the corrected statistics give 0 |
| MockParkingData.OneInactiveSpotGivesNaN | src/data/mockParkingData.ts:48-50 | a single inactive spot already gives NaN |
| Mqtt.VagaIdIsLastSegment | src/services/mqttService.ts:119-121 | the id holds no "/", ends the topic, and is the whole topic or follows a "/" |
| Mqtt.JsonRule | src/services/mqttService.ts:129-133 | a parsed payload is occupied iff its field is boolean true or "True"/"true", whatever the payload text |
| Mqtt.PlainTextRule | src/services/mqttService.ts:134-138 | when parsing or the field read throws, occupied iff the payload is "1" or a case variant of "true" |
| Mqtt.BareScalarsReadFree | src/services/mqttService.ts:129-133 | for any parse outcome consistent with the JSON grammar, the payloads `true`, `false` and natural numerals read as free |
| Mqtt.TrueAndOneReadFree | src/services/mqttService.ts:129-137 | `true` and `1` read as free under every consistent parse outcome, though the plain-text rule would read them occupied |
| Mqtt.NonJsonTrueReadsOccupied | src/services/mqttService.ts:134-137 | a payload that cannot begin JSON is occupied iff it lower-cases to "true", so `True` and `TRUE` read occupied |
| Mqtt.Remove | src/services/mqttService.ts:205-207 | removing keeps every other callback and drops the removed one |
| Mqtt.RemoveNoDuplicates | src/services/mqttService.ts:205-207 | removal keeps the subscribers a set |
| Mqtt.Deliveries | src/services/mqttService.ts:141-151 | each subscriber, in order, receives the decoded message |
| Mqtt.EachSubscriberOnce | src/services/mqttService.ts:151 | each registered subscriber receives the message exactly once, and only they do |
| Mqtt.MqttService.constructor | src/services/mqttService.ts:50-62 | no client, no subscribers, not connecting, no reconnect attempts |
| Mqtt.MqttService.IsConnected | src/services/mqttService.ts:233-236 | connected iff a client exists and it is connected |
| Mqtt.MqttService.Connect | src/services/mqttService.ts:68-89 | no-op while connected or connecting; otherwise creates a client and marks connecting, or stays idle when creation throws |
| Mqtt.MqttService.OnConnect | src/services/mqttService.ts:92-98 | clears connecting and resets the reconnect counter to 0 |
| Mqtt.MqttService.OnError | src/services/mqttService.ts:159-162 | clears connecting, nothing else changes |
| Mqtt.MqttService.OnClose | src/services/mqttService.ts:165-168 | clears connecting; the client is no longer connected |
| Mqtt.MqttService.OnReconnect | src/services/mqttService.ts:171-181 | increments the counter and ends the client once it reaches 5 |
| Mqtt.MqttService.OnMessage | src/services/mqttService.ts:115-156 | for a parse outcome consistent with the payload, appends one delivery of the decoded message per subscriber; nothing else changes |
| Mqtt.MqttService.Subscribe | src/services/mqttService.ts:195-202 | adds the callback (a set) and connects when neither connected nor connecting |
| Mqtt.MqttService.Unsubscribe | src/services/mqttService.ts:205-213 | removes only that callback, and disconnects when none is left |
| Mqtt.MqttService.Disconnect | src/services/mqttService.ts:219-227 | drops the client; afterwards not connected |
| Mqtt.SubscribeThenCleanup | src/services/mqttService.ts:197-207 | a new callback's cleanup restores the previous subscribers |
| ProxyVagas.Get | supabase/functions/proxy-vagas/index.ts:54 | a field lookup finds a value iff the key occurs, and the value is one of the key's entries |
| ProxyVagas.PathParts | supabase/functions/proxy-vagas/index.ts:21 | path segments are non-empty and contain no "/" |
| ProxyVagas.PathSensor | supabase/functions/proxy-vagas/index.ts:21-23 | a sensor taken from the path is "A" and two digits, and a segment of the path |
| ProxyVagas.ResolveSensor | supabase/functions/proxy-vagas/index.ts:20-24 | a non-empty query parameter wins unchecked; otherwise the path rule decides |
| ProxyVagas.PathNamesSensor | supabase/functions/proxy-vagas/index.ts:21-23 | a path ending in a sensor id, with or without a trailing "/", names that sensor |
| ProxyVagas.QueryWins | supabase/functions/proxy-vagas/index.ts:20-24 | any non-empty query sensor is used as given |
| ProxyVagas.BadPathIsRejected | supabase/functions/proxy-vagas/index.ts:23-31 | without a query and without a sensor-shaped last segment the answer is 400 and the backend is not called |
| ProxyVagas.BackendUrlRoundTrip | supabase/functions/proxy-vagas/index.ts:8-33 | the sensor is read back from the URL built for it |
| ProxyVagas.Unwrap | supabase/functions/proxy-vagas/index.ts:54 | an array passes through; an object gives its truthy `dados`, or itself; null gives nothing |
| ProxyVagas.UnwrapEnvelope | supabase/functions/proxy-vagas/index.ts:54 | an envelope with a `dados` array yields that array |
| ProxyVagas.Handle | supabase/functions/proxy-vagas/index.ts:10-67 | OPTIONS gives "ok" without a backend call; no sensor gives 400; otherwise the backend is called at the sensor's URL and the answer is what `Forward` makes of its outcome; 200 iff OPTIONS or a JSON body |
| ProxyVagas.HandlePassesBackendThrough | supabase/functions/proxy-vagas/index.ts:44-59 | after the backend call, an accepted non-OK status reaches the client and a good reply is answered 200 with its unwrapped body |
| ProxyVagas.Forward | supabase/functions/proxy-vagas/index.ts:44-66 | a non-OK status the Response constructor accepts is passed through with an error, any other gives the 500 of the `catch`; a failed fetch or null body gives 500; otherwise 200 with the unwrapped body |
| ProxyVagas.ForwardStatusAccepted | supabase/functions/proxy-vagas/index.ts:44-66 | every answer has a status the Response constructor accepts |
| ProxyVagas.RejectedStatusBecomes500 | supabase/functions/proxy-vagas/index.ts:45-48 | a backend status such as 304 or one outside 200..599 ends in the 500 answer |
| ParkingSpotCard.ElapsedMinutes | src/components/dashboard/ParkingSpotCard.tsx:47 | whole elapsed minutes, floored |
| ParkingSpotCard.TimeSinceUpdate | src/components/dashboard/ParkingSpotCard.tsx:46-52 | "agora" iff less than a minute elapsed (future times included); "<m>min" below an hour; "<h>h" from then on |
| ParkingSpotCard.TimeSinceUpdateReadsBack | src/components/dashboard/ParkingSpotCard.tsx:50-51 | the text reads back as the minutes below an hour and as whole hours from then on |
| ParkingSpotCard.StatusLabelAsInDetail | src/components/dashboard/ParkingSpotCard.tsx:89 | the card labels each status as the detail view does, "Livre"/"Ocupada"/"Inativo" |
| ParkingSpotCard.PulsesIffOnline | src/components/dashboard/ParkingSpotCard.tsx:86 | the dot pulses iff the status is not inactive, which for a mapped spot is iff online |
| ParkingSpotCard.SensorTablesDistinguish | src/components/dashboard/ParkingSpotCard.tsx:11-23 | both tables cover the four sensor types and give different entries to different types |
| ConnectionStatus.SensorCounts | src/components/dashboard/ConnectionStatus.tsx:10-11 | missing statistics read as 0 of 0 |
| ConnectionStatus.SensorRowCases | src/components/dashboard/ConnectionStatus.tsx:12-30 | online iff all of at least one sensor; partial iff some but not all; offline iff none |
| ConnectionStatus.SensorDescriptionReadsBack | src/components/dashboard/ConnectionStatus.tsx:31-33 | the description "<online>/<total> ativos" gives back both counts |
| ConnectionStatus.NoSensorsWaitForData | src/components/dashboard/ConnectionStatus.tsx:31-33 | without sensors the description is "Aguardando dados" |
| ConnectionStatus.Connections | src/components/dashboard/ConnectionStatus.tsx:14-35 | three rows; API and IoT online iff the API is connected; the sensor row by the sensor rule |
| ConnectionStatus.StatusTextDistinguishes | src/components/dashboard/ConnectionStatus.tsx:75 | "online", "parcial" and "offline" tell the statuses apart |
| MetricsPanel.MetricsPanelView | src/components/dashboard/MetricsPanel.tsx:23-210 | loading takes precedence; without metrics only the waiting view; otherwise the panel from the metrics |
| MetricsPanel.PeakHoursData | src/components/dashboard/MetricsPanel.tsx:50-53 | same length and order, labelled with the two-digit hour and "h", same rate |
| MetricsPanel.BarLabelsDenoteHours | src/components/dashboard/MetricsPanel.tsx:51 | each bar label is the hour's two digits followed by "h" |
| MetricsPanel.BarColourOf | src/components/dashboard/MetricsPanel.tsx:153-158 | red iff rate > 70, amber iff 40 < rate <= 70, green iff rate <= 40 |
| MetricsPanel.BarColourMonotone | src/components/dashboard/MetricsPanel.tsx:153-158 | a higher rate is never a cooler colour |
| MetricsPanel.TopThree | src/components/dashboard/MetricsPanel.tsx:180-217 | at most three spots, ranked 1.. in list order |
| MetricsPanel.MostUsedListingIsTopThree | src/components/dashboard/MetricsPanel.tsx:180 | the three listed most-used spots are the three highest utilisations |
| UseAccessibility.ToggleHighContrast | src/hooks/useAccessibility.ts:62-64 | flips high contrast alone |
| UseAccessibility.ToggleLargeText | src/hooks/useAccessibility.ts:66-68 | flips large text alone |
| UseAccessibility.ToggleReduceMotion | src/hooks/useAccessibility.ts:70-72 | flips reduced motion alone |
| UseAccessibility.ResetSettings | src/hooks/useAccessibility.ts:74-76 | all three flags false |
| UseAccessibility.TogglesAreInvolutions | src/hooks/useAccessibility.ts:62-72 | toggling a flag twice restores the settings |
| UseAccessibility.TogglesCommute | src/hooks/useAccessibility.ts:62-72 | toggles of different flags commute |
| UseAccessibility.ResetAfterToggles | src/hooks/useAccessibility.ts:74-76 | reset gives the defaults whatever was toggled before |
| UseAccessibility.Encode | src/hooks/useAccessibility.ts:56 | the stored text is a non-empty JSON object |
| UseAccessibility.InitialSettings | src/hooks/useAccessibility.ts:21-30 | defaults without a window, when reading throws, or when nothing, "" or unparseable text is stored; the parsed settings otherwise |
| UseAccessibility.ApplySettings | src/hooks/useAccessibility.ts:33-60 | each class present iff its flag, other classes untouched; settings stored when storage accepts, errors ignored |
| UseAccessibility.ClassesMatchIdempotent | src/hooks/useAccessibility.ts:36-52 | applying the same settings twice leaves the classes as once |
| UseAccessibility.ReloadRestoresSettings | src/hooks/useAccessibility.ts:21-56 | settings written by the effect are those read on the next load |
| UseTheme.InitialTheme | src/hooks/useTheme.ts:6-9 | the stored text when non-empty, unchecked; "dark" otherwise |
| UseTheme.ToggleTheme | src/hooks/useTheme.ts:25-27 | "light" iff the theme was "dark"; any other theme becomes "dark" |
| UseTheme.ToggleTwice | src/hooks/useTheme.ts:25-27 | two toggles restore "dark" and "light"; any other text ends up "light" |
| UseTheme.ApplyTheme | src/hooks/useTheme.ts:11-23 | `light` and not `dark` iff the theme is "light", else `dark` and not `light`; other classes untouched; theme stored under "gamatec-theme" |
| UseTheme.StoredThemeReloads | src/hooks/useTheme.ts:7-22 | a stored theme is the theme read on the next load |

## Left out

- The HTTP and broker I/O are left out: `getVaga`'s fetch, the `useVagas` hook state, `mqtt.connect` and the broker link, and `serve`/`fetch` in the proxy. Only the decisions around them are modelled. The backend answer is a parameter of the proxy.
- Rendering and JSX are left out, along with the display-only components.
- `OccupancyChart.tsx` imports `calculateHourlyOccupancy` from `src/services/api.ts`, which does not define it, so it is not modelled.
- Dates are integer milliseconds. `new Date(string)` parsing, time zones (`getHours` is the parameter `hourOf`) and locale formatting are not modelled.
- Floating point is not modelled. `Math.round` is exact half-up rounding of rationals, and float artefacts at exact halves are out of scope.
- `MetricsService.CalculateSpotMetrics`: one `now` stands for the two clock reads of `metricsService.ts:77` and `metricsService.ts:103`.
- Calls the model cannot see are abstracted:
  - `Math.random` draws are parameters.
  - `JSON.parse` is an abstract outcome.
  - `localStorage` and `classList` are a `map` and a `set`.
  - `Object.entries` order is taken as the given entry order.
  - The `localeCompare` ordering of `useVagas` is not modelled.
- `Mqtt.MqttService.OnMessage`: callbacks are recorded as deliveries, not run. They are taken not to throw and not to change the subscriber set during the `forEach`; in the source a throwing callback ends the loop at `mqttService.ts:151`, the `catch` of `mqttService.ts:152-155` logs it, and later subscribers miss the message. Events are taken to come from the current client, each handler runs atomically, and log output is left out.
- `Mqtt.MqttService.Connect`: the broker URL and options are not modelled, only whether creating the client throws.
- `ProxyVagas.Forward`: the 500 body carries the fixed message, not the `error.message` detail. A body that is not JSON is taken as a failed fetch.
- `ProxyVagas.Handle`: `new URL` failures are not modelled. The CORS headers are on every response, so only the JSON content type is recorded.
- `UseAccessibility.InitialSettings`: stored JSON of another shape is taken by the source as is. The model reads only well-shaped settings or a parse failure.
- `UseAccessibility.Encode`: only the stringified form of the three flags is modelled, not JSON in general.
- `UseTheme.ApplyTheme`: a throwing `setItem` is uncaught in the source. The model stops there, with the classes already set and storage unchanged.
- `UseTheme.InitialTheme`: a throwing `getItem` and a missing `window` are not modelled.
- `SpotDetailModal`: a `null` history is modelled as an empty one.
- `Api.GetEstadoAtual` and `Api.MapApiToSpot`: histories are sequences, never `null`. The source's `null` history (inactive in `api.ts:53`, a throw at `historico.map` in `api.ts:81`, no periods in `metricsService.ts:51`) is not modelled.
- `MockParkingData.GenerateParkingSpots`: one `now` stands for the per-spot clock reads of `mockParkingData.ts:7` and `mockParkingData.ts:33`.
- `Mqtt.ParsesAsJson`: only payloads whose `JSON.parse` outcome the JSON grammar fixes at sight (the scalars `true`, `false`, `null`, natural numerals, and texts that cannot begin JSON) are tied to their outcome. Any other payload may take any outcome.
- The rest of `mockParkingData.ts` (the `mockParkingSpots` constant and exports) is plain data and is not modelled.

## Findings

| source | as written | input that shows it | evidently intended | confidence | as-written member | corrected member |
|---|---|---|---|---|---|---|
| src/data/mockParkingData.ts:48-50 | `averageOccupancy` divides by `total - inactive` with only a `total > 0` guard | one spot, inactive: 0/0 gives `NaN` | 0 when no spot is active, as `src/hooks/useVagas.ts:34-37` does | high (not executed) | MockParkingData.OneInactiveSpotGivesNaN | UseVagas.CalculateStats |
