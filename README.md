# Flora Care dashboard: device registry and dashboard aggregator

A Dafny model of the two stateful cores of the Flora Care plant-monitoring
dashboard.

* **The server registry** (`server.js`). This is the in-memory `devices`
  table.
  * `POST /api/ingest` merges one reading into the table and broadcasts the
    device's new sensor block.
  * `GET /api/devices` returns a snapshot of the table.
  * `POST /api/command` accepts a command only for a registered device.
* **The dashboard aggregator** (`public/script.js`). This is the browser's
  local copy of the table.
  * A live WebSocket delta or a polled device list is reconciled into it.
  * A rolling log keeps the 100 newest observations.
  * The active-device count, the sensor averages and the alert rules are
    derived from the table.
  * A counter bounds WebSocket reconnects.

Modules, one file each:

| file | module | models |
|---|---|---|
| `wrappers.dfy` | `Wrappers` | `Option`, for a JSON field that may be missing |
| `collections.dfy` | `Collections` | a key table listed in insertion order (`Object.values`) |
| `readings.dfy` | `Readings` | the four-field sensor block and the per-field fallback to 0 |
| `registry.dfy` | `Registry` | server.js: records, payload, upsert rules, class `Server` |
| `view.dfy` | `View` | the dashboard's records, live and polled reconciliation |
| `rolling_log.dfy` | `RollingLog` | the bounded, newest-first log |
| `stats.dfy` | `Stats` | `updateStats`: active count and means, or no data |
| `alerts.dfy` | `Alerts` | `checkAlerts`: stale, low-moisture, high-temperature |
| `reconnect.dfy` | `Reconnect` | the `reconnectAttempts` rule of `onopen`/`onclose` |
| `client.dfy` | `Client` | class `Dashboard` and the lemmas that tie the parts together |

The server's mutable state is the class `Registry.Server`:
* `devices: map<string, Device>`;
* `order`, the keys in insertion order;
* `outbox: seq<Event>`, which stands in for `broadcast`.

Its invariant `Consistent` requires the following:
* every record sits under its own non-empty id;
* every record has a non-empty name and location;
* every key is listed once in `order`;
* every broadcast names a registered device.

`Ingest` is proved against the function `Registry.Ingested`, and the merge
rules are proved about that function.

The dashboard's state is the class `Client.Dashboard`. It holds `devices`,
`order`, `logs`, `logId` and `reconnectAttempts`. Its invariant requires the
following:
* the log holds at most 100 entries;
* its ids strictly decrease from the newest entry;
* every id is below `logId`;
* the reconnect counter is at most 5.

Each handler is proved against a function:
* `ProcessDelta` against `View.Reconciled`;
* `ProcessBatch` against `View.Listed`, `View.ListedOrder` and
  `RollingLog.PushedAll`;
* `AddLog` against `RollingLog.Pushed`;
* `OnClose` against `Reconnect.OnEvent`.

Statistics and alerts are functions of the table's values in insertion order.

Modelling conventions:
* Times are integer milliseconds.
* Sensor values are `real`s that have already been parsed.
* A missing field is `None`.
* JavaScript truthiness is written out:
  * `deviceId`, `name` and `location` count only when present and non-empty;
  * in an ingest payload, a `lastSeen` of `0` counts as missing;
  * `active` makes a device inactive only when it is literally `false`;
  * `v || 0` turns a missing sensor field into 0.
* The clock (`new Date()`) is a parameter `now`.
* The confirmation dialog of `clearLogs` is a parameter `confirmed`.
* The log's formatted `data` text is `format(sensors)`, where `format` is a
  parameter; the live and the polled paths format differently.

The two sides differ, and each is modelled as written:
* The server always rewrites all four sensors, so an ingest without
  `sensors` zeroes them. It honours `active`.
* The dashboard's live path keeps the old sensors when a delta has none. It
  ignores `active`, because the broadcast does not carry it.
* `Client.InactiveIngestShowsActive` proves this consequence: after an ingest
  with `active: false`, the server holds the device inactive while the live
  dashboard shows it active.

Two further facts about the source shape the model:
* server.js keeps an open registry only: any non-empty id registers on its
  first ingest, and there is no fixed set of devices.
* `processWebSocketData` never changes a known device's name or location;
  only an ingest on the server and a polled list on the dashboard do.

## Model

| member | source | states |
|---|---|---|
| `Readings.Coerced` | server.js:43-46 | each sensor field is the supplied value, or 0 when it is missing, independently of the other three |
| `Readings.DefaultName` | server.js:32 | the name given to a device first seen without one is non-empty and ends with its id |
| `Registry.Created` | server.js:30-37 | a first sighting creates an active record under its id, stamped now, with zero sensors, the supplied non-empty name and location or the non-empty defaults |
| `Registry.Upserted` | server.js:28-49 | a new id gets its id, the supplied non-empty name or `"Device " + id`, and the supplied non-empty location or `"Unknown"`; a stored name or location changes only to a non-empty value; `isActive` is false exactly when `active` is `false`; `lastSeen` is the supplied non-zero time, else now; sensors are replaced wholesale, all zero when `sensors` is missing |
| `Registry.Ingested` | server.js:28-49 | an ingest adds the id to the table if it is new, removes no record and changes no other id's record |
| `Registry.IngestedWellFormed` | server.js:28-49 | after an ingest every record still sits under its own non-empty id with a non-empty name and location |
| `Registry.IngestTwice` | server.js:22-58 | ingesting a payload twice gives the same table as the second ingest alone; with an explicit non-zero `lastSeen` the repetition changes nothing |
| `Registry.IngestConsistent` | server.js:28-55 | an ingest and its broadcast keep the server invariant; a new id goes last in the listing order |
| `Registry.ListedOnce` | server.js:18 | listing the table by its keys yields each record once, under its own id, with no id twice |
| `Registry.Server.constructor` | server.js:14 | the registry starts with no devices and no broadcasts |
| `Registry.Server.Ingest` | server.js:22-58 | a missing or empty `deviceId` gets a 400 with the same table, order and outbox; otherwise the table becomes `Ingested(old table)`, a new id is appended to the order, and exactly one event `{deviceId, sensors}` carrying the stored sensors is appended to the outbox |
| `Registry.Server.Snapshot` | server.js:17-19 | the snapshot has one entry per registered device, each equal to the stored record, no id twice, and every record appears |
| `Registry.Server.Command` | server.js:61-68 | a command is accepted exactly when its `deviceId` is present and registered; otherwise 400 "Invalid deviceId"; the registry is not modified |
| `View.Reconciled` | public/script.js:61-86 | after a delta the device is active and `lastSeen` is now; an unknown id starts as `"Device " + id` in `"Unknown"` with zero sensors; name and location never change; sensors are replaced field by field (missing becomes 0) when the delta carries them and kept otherwise |
| `View.Shadow` | public/script.js:64-73 | an unknown id gets a placeholder under that id that is inactive, never stamped and has zero sensors |
| `View.Listed` | public/script.js:123-128 | after a polled list the last listed record is stored under its id |
| `View.ListedOrder` | public/script.js:123-128 | a polled list only appends to the key order, never reorders or drops a key |
| `View.ListedKeys` | public/script.js:123-128 | the table after a polled list holds exactly its old keys and the listed ids |
| `View.ListedOrderKeys` | public/script.js:123-128 | the key order after a polled list holds exactly the old keys and the listed ids |
| `View.IdsNamed` | public/script.js:123-124 | the listed ids are exactly the ids some list entry carries |
| `View.ListedUntouched` | public/script.js:121-130 | an id the polled list does not name keeps its record, or stays absent |
| `View.ListedLast` | public/script.js:121-130 | every listed id ends up present and holding the last record listed for it |
| `View.ListedKeyed` | public/script.js:123-128 | after a polled list every record still sits under its own id |
| `RollingLog.Pushed` | public/script.js:246-257 | the new entry goes first, the log grows by one up to 100 entries, and the rest is the old log with its oldest entries cut |
| `RollingLog.PushedAll` | public/script.js:246-257 | after a run of additions the last entry added is first |
| `RollingLog.PushedOrdered` | public/script.js:246-255 | adding the entry with the next id keeps the log within 100 entries, with ids strictly decreasing from the newest and all below the next id |
| `RollingLog.PushedAllKeepsNewest` | public/script.js:254-255 | any sequence of additions leaves the first 100 of the added entries, newest first, followed by the old log |
| `RollingLog.NewestFirst` | public/script.js:254-255 | after n additions to an empty log it holds min(n, 100) entries, the i-th being the i-th most recent addition |
| `Stats.Actives` | public/script.js:224 | the filtered list holds only active devices of the table and every active one |
| `Stats.ActivesCount` | public/script.js:224 | the filter keeps each active device exactly as often as the table lists it and drops every inactive one |
| `Stats.Average` | public/script.js:232-243 | an average is "no data" exactly when no device is active |
| `Stats.Summarize` | public/script.js:223-243 | the active count is the number of active devices; every average is "no data" exactly when no device is active |
| `Stats.InactiveIgnored` | public/script.js:224-237 | adding an inactive device changes neither the count nor any average |
| `Stats.MeanWithinRange` | public/script.js:233-237 | each average lies between the smallest and the largest reading of the active devices |
| `Stats.MeanOfEqualReadings` | public/script.js:233-237 | when every active device reports the same value, the average is that value |
| `Alerts.DeviceAlerts` | public/script.js:278-302 | a device raises one alert per rule it breaks and no other, all about itself: stale exactly when it is stale, low moisture exactly when active with moisture below 20, high temperature exactly when active above 35 |
| `Alerts.Raised` | public/script.js:274-303 | at most three times as many alerts as listed devices are shown, each naming a device of the table by its id and name |
| `Alerts.RaisedByDevices` | public/script.js:274-303 | an alert is shown exactly when some device of the table raises it |
| `Alerts.StaleInMilliseconds` | public/script.js:279-281 | the stale rule holds exactly when the device has a `lastSeen` and more than 300 000 ms have passed |
| `Alerts.StaleBoundary` | public/script.js:279-287 | 300 s or 299 s of silence raise nothing, 301 s raise the stale alert, and a never-stamped device is never stale |
| `Alerts.InactiveOnlyStale` | public/script.js:288-301 | an inactive device raises at most the stale alert |
| `Alerts.AllThreeTogether` | public/script.js:278-302 | a stale, active, dry and hot device raises stale, low-moisture and high-temperature alerts, in that order |
| `Alerts.MoistureBoundary` | public/script.js:289 | on an active device, moisture 19.9 warns and 20.0 does not |
| `Reconnect.OnEvent` | public/script.js:22-48 | an open resets the count to 0 and schedules nothing; a close with fewer than five attempts made schedules a reconnect and counts one more attempt; a close with five attempts made schedules nothing; the count never exceeds five |
| `Reconnect.AttemptsBounded` | public/script.js:14-15 | over any run of opens and closes the attempt count stays at most five |
| `Reconnect.ClosesScheduleAtMostFive` | public/script.js:41-47 | n closes without an open schedule min(n, 5 - attempts) reconnects and leave min(attempts + n, 5) attempts |
| `Client.ListedEntries` | public/script.js:123-130 | a polled list yields exactly one log entry per listed device |
| `Client.ListedEntriesAt` | public/script.js:129 | the i-th entry for a polled list logs the i-th listed device, its id, its name and its formatted sensors, with the i-th id handed out |
| `Client.BatchStep` | public/script.js:123-130 | handling the next listed device extends the table, the order and the log of the entries before it by that device |
| `Client.ActiveKeysSplit` | public/script.js:224 | the set of active keys splits into the first key, when it is active, and the active keys of the rest, which exclude the first key |
| `Client.ActiveCountIsKeyCount` | public/script.js:224-226 | over keys listed without repetition, the number of active devices equals the number of keys whose record is active |
| `Client.BroadcastRoundTrip` | public/script.js:79-85 | a broadcast `{deviceId, sensors}` is accepted when its id is non-empty and reproduces the server's sensor block exactly on an active device |
| `Client.InactiveIngestShowsActive` | public/script.js:75-76 | after an ingest with `active: false` the server holds the device inactive, while the live dashboard shows it active with the same sensors |
| `Client.HotDryReading` | public/script.js:61-93 | a first reading of 36 °C and 15 % moisture shows the device active and raises exactly the low-moisture and high-temperature warnings |
| `Client.Dashboard.constructor` | public/script.js:10-14 | the dashboard starts with no devices, an empty log, log ids from 1 and no reconnect attempts |
| `Client.Dashboard.AddLog` | public/script.js:246-257 | the log becomes `Pushed(old log, entry)` with id `logId`, and `logId` grows by one; the device table is unchanged |
| `Client.Dashboard.ClearLogs` | public/script.js:305-311 | when confirmed the log is emptied; `logId` is never reset |
| `Client.Dashboard.ProcessDelta` | public/script.js:61-94 | a delta without an id changes nothing; otherwise only that id's record changes, to `Reconciled`; a new id is appended to the order; exactly one log entry with the device's name and sensors is added |
| `Client.Dashboard.ProcessBatch` | public/script.js:121-136 | a response without a device list changes nothing; otherwise the table becomes `Listed`, the order `ListedOrder`, and one entry per listed device is logged in list order |
| `Client.Dashboard.ApplyListed` | public/script.js:123-129 | one listed record is stored under its id, as it is or spread over the old record, which gives the same value, and is logged |
| `Client.Dashboard.OnOpen` | public/script.js:22-26 | an open resets the attempt count to 0 |
| `Client.Dashboard.OnClose` | public/script.js:37-48 | a close follows `OnEvent`: it schedules and counts a reconnect only while fewer than five attempts have been made |
| `Client.Dashboard.Statistics` | public/script.js:223-243 | the active count shown is at most the number of devices in the table |
| `Client.Dashboard.CurrentAlerts` | public/script.js:274-303 | every alert shown names a device of the table, by its id and its current name |
| `Client.Dashboard.ActiveCountMatches` | public/script.js:224-226 | the displayed active count is the number of devices in the table with `isActive` |
| `Client.Dashboard.NoDataWhenNoneActive` | public/script.js:232-243 | each of the four averages (temperature, humidity, soil moisture, light) shows "no data" exactly when no device in the table is active |
| `Client.Dashboard.AlertsMatchTable` | public/script.js:274-303 | the alerts shown are exactly those some device of the table raises at time now |

## Left out

- HTTP and WebSocket plumbing are not modelled: Express, CORS, static files, `http.createServer`, `listen` and `PORT`.
- The WebSocket transport is not modelled: `ws.Server`, the `readyState` filter and `send` in `broadcast`, the client's `new WebSocket`, `onmessage` JSON parsing, and `refreshData`. `broadcast` is modelled as appending to `outbox`.
- Timers, `fetch` and `AbortController` are not modelled. This covers the 3 s fallback to polling, the 5 s poll and render ticks, the 5 s reconnect delay and the 10 s timeout. Only the `reconnectAttempts` rule is kept.
- The client's `sendCommand` is a network call and is not modelled. The server's forwarding of a command is a `console.log`, which is I/O.
- Rendering is not modelled: `updateDeviceDisplay`, `updateLogDisplay`, `updateConnectionStatus`, the DOM writes, the alert message text, `exportLogs` and the `alert` dialog. Alerts are modelled as kind, device id and device name.
- Stats.Summarize: the means are exact; the display rounding (`toFixed(1)`, `Math.round`) is floating-point formatting. The `lastUpdate` time and the `totalLogs` figure are display only.
- Readings.Coerced: sensor values are already-parsed numbers. On the server, `Number(v || 0)` gives NaN for a non-numeric string, and the model does not capture NaN; on the client `parseFloat(v) || 0` does give 0.
- Registry.Server.Ingest: `lastSeen` strings and `new Date(string)` parsing are not modelled. An unparseable time (an Invalid Date in the source) has no counterpart in the model.
- Registry.Server.Ingest: ids are strings. A non-string `deviceId` and ids that name inherited object properties (such as `"toString"`) are not modelled.
- Registry.Server.Snapshot: insertion order is kept for every key. JavaScript lists integer-like keys first, in numeric order.
- Client.Dashboard.CurrentAlerts: the dashboard's table is listed in insertion order too (`Client.Dashboard.Devices`), so for integer-like ids the order of the alerts, and of the table the averages are taken over, can differ from the source's; which alerts are shown does not.
- View.Listed: a polled entry is a complete record, because the server always sends all six fields, so the shallow spread `{...old, ...dev}` yields the listed record. An entry with missing fields, or without `sensors`, is not modelled; the latter throws in the source when it is logged.
