/** The dashboard's state (public/script.js): the global `devices` table,
    the `dataLogs` log with its `logId` counter and the `reconnectAttempts`
    counter, and the handlers that update them. */
module Client {
  import opened Wrappers
  import opened Collections
  import opened Readings
  import opened View
  import opened RollingLog
  import opened Reconnect
  import Stats
  import Alerts
  import Registry

  /** The log entries a polled list produces, one per listed device, with ids
      counted up from `first`. */
  function ListedEntries(devs: seq<DeviceView>, first: int, now: int, format: Sensors -> string): (es: seq<LogEntry>)
    ensures |es| == |devs|
  {
    if devs == [] then []
    else
      var n := |devs| - 1;
      ListedEntries(devs[..n], first, now, format)
      + [LogEntry(first + n, now, devs[n].id, devs[n].name, format(devs[n].sensors))]
  }

  /** The active keys of `ks`, split at its first key. */
  lemma ActiveKeysSplit(m: map<string, DeviceView>, ks: seq<string>)
    requires |ks| > 0 && Distinct(ks) && forall k | k in ks :: k in m
    ensures ks[0] !in (set k | k in ks[1..] && m[k].isActive)
    ensures (set k | k in ks && m[k].isActive)
         == (if m[ks[0]].isActive then {ks[0]} else {}) + (set k | k in ks[1..] && m[k].isActive)
  {
    assert forall k | k in ks :: k == ks[0] || k in ks[1..];
  }

  /** Entry `i` of a polled list's log entries records listed device `i`,
      with the `i`-th id handed out. */
  lemma {:induction false} ListedEntriesAt(devs: seq<DeviceView>, first: int, now: int, format: Sensors -> string, i: int)
    requires 0 <= i < |devs|
    ensures ListedEntries(devs, first, now, format)[i]
         == LogEntry(first + i, now, devs[i].id, devs[i].name, format(devs[i].sensors))
  {
    var n := |devs| - 1;
    if i < n {
      ListedEntriesAt(devs[..n], first, now, format, i);
    }
  }

  lemma ListedEntriesSnoc(devs: seq<DeviceView>, i: int, first: int, now: int, format: Sensors -> string)
    requires 0 <= i < |devs|
    ensures ListedEntries(devs[..i + 1], first, now, format)
         == ListedEntries(devs[..i], first, now, format)
            + [LogEntry(first + i, now, devs[i].id, devs[i].name, format(devs[i].sensors))]
  {
    assert devs[..i + 1][..i] == devs[..i];
  }

  /** Applying entry `i` of a polled list extends the table, the key order and
      the log of the first `i` entries by that entry. */
  lemma BatchStep(m: map<string, DeviceView>, order: seq<string>, log: seq<LogEntry>, first: int,
                  devs: seq<DeviceView>, i: int, now: int, format: Sensors -> string)
    requires 0 <= i < |devs|
    ensures Listed(m, devs[..i + 1]) == Listed(m, devs[..i])[devs[i].id := devs[i]]
    ensures ListedOrder(order, devs[..i + 1]) == Enrolled(ListedOrder(order, devs[..i]), devs[i].id)
    ensures PushedAll(log, ListedEntries(devs[..i + 1], first, now, format))
         == Pushed(PushedAll(log, ListedEntries(devs[..i], first, now, format)),
                   LogEntry(first + i, now, devs[i].id, devs[i].name, format(devs[i].sensors)))
  {
    assert devs[..i + 1][..i] == devs[..i];
    ListedEntriesSnoc(devs, i, first, now, format);
    PushedAllSnoc(log, ListedEntries(devs[..i], first, now, format),
                  LogEntry(first + i, now, devs[i].id, devs[i].name, format(devs[i].sensors)));
  }

  /** Over a table enumerated without repetition, the active devices are
      exactly the keys whose record is active. */
  lemma {:induction false} ActiveCountIsKeyCount(m: map<string, DeviceView>, ks: seq<string>)
    requires Distinct(ks) && forall k | k in ks :: k in m
    ensures |Stats.Actives(ValuesAt(m, ks))| == |set k | k in ks && m[k].isActive|
  {
    if ks != [] {
      ActiveCountIsKeyCount(m, ks[1..]);
      ActiveKeysSplit(m, ks);
      assert ValuesAt(m, ks)[1..] == ValuesAt(m, ks[1..]);
    }
  }

  /** The delta a dashboard receives for a broadcast `{deviceId, sensors}`. */
  function AsDelta(e: Registry.Event): Delta {
    var s := e.sensors;
    Delta(Some(e.deviceId), Some(SensorReading(Some(s.temperature), Some(s.humidity), Some(s.soilMoisture), Some(s.lightLevel))))
  }

  /** A broadcast reproduces the server's sensor block on the dashboard, and
      the device shows as active and just seen. */
  lemma BroadcastRoundTrip(m: map<string, DeviceView>, e: Registry.Event, now: int)
    ensures Accepted(AsDelta(e)) <==> e.deviceId != ""
    ensures Reconciled(m, e.deviceId, AsDelta(e).sensors, now).sensors == e.sensors
    ensures Reconciled(m, e.deviceId, AsDelta(e).sensors, now).isActive
  {
  }

  /** The broadcast carries only `{deviceId, sensors}`: after an ingest that
      marks a device inactive, the server holds it inactive while the live
      dashboard shows it active. */
  lemma InactiveIngestShowsActive(m: map<string, Registry.Device>, p: Registry.Payload, now: int,
                                  view: map<string, DeviceView>, seen: int)
    requires Truthy(p.deviceId) && p.active == Some(false)
    ensures
      var id := p.deviceId.value;
      var e := Registry.Event(id, Registry.Upserted(m, id, p, now).sensors);
      && !Registry.Ingested(m, id, p, now)[id].isActive
      && Reconciled(view, id, AsDelta(e).sensors, seen).isActive
      && Reconciled(view, id, AsDelta(e).sensors, seen).sensors == Registry.Ingested(m, id, p, now)[id].sensors
  {
  }

  /** A hot, dry reading from a new device: the dashboard shows it active and
      raises both the low-moisture and the high-temperature warning. */
  lemma HotDryReading(now: int)
    ensures
      var reading := SensorReading(Some(36.0), Some(50.0), Some(15.0), Some(800.0));
      var d := Reconciled(map[], "ESP32_001", Some(reading), now);
      && d.isActive
      && Alerts.DeviceAlerts(d, now)
         == [Alerts.Alert(Alerts.LowMoisture, "ESP32_001", "Device ESP32_001"),
             Alerts.Alert(Alerts.HighTemperature, "ESP32_001", "Device ESP32_001")]
  {
    assert "Device " + "ESP32_001" == "Device ESP32_001";
  }

  class Dashboard {
    var devices: map<string, DeviceView>
    var order: seq<string>
    var logs: seq<LogEntry>
    var logId: int
    var reconnectAttempts: nat

    ghost predicate Valid()
      reads this
    {
      && Keyed(devices)
      && Enumerates(order, devices)
      && Ordered(logs, logId)
      && reconnectAttempts <= MaxReconnectAttempts
    }

    /** The page's initial state: no devices, an empty log, ids from 1. */
    constructor ()
      ensures Valid()
      ensures devices == map[] && order == [] && logs == [] && logId == 1 && reconnectAttempts == 0
    {
      devices := map[];
      order := [];
      logs := [];
      logId := 1;
      reconnectAttempts := 0;
    }

    /** `addLog`: a new entry with the next id goes first; the log is cut to 100. */
    method AddLog(device: DeviceView, data: string, now: int)
      requires Valid()
      modifies this
      ensures Valid()
      ensures logs == Pushed(old(logs), LogEntry(old(logId), now, device.id, device.name, data))
      ensures logId == old(logId) + 1
      ensures devices == old(devices) && order == old(order)
      ensures reconnectAttempts == old(reconnectAttempts)
    {
      var entry := LogEntry(logId, now, device.id, device.name, data);
      PushedOrdered(logs, entry, logId);
      logId := logId + 1;
      logs := [entry] + logs;
      if |logs| > Capacity {
        logs := logs[..Capacity];
      }
    }

    /** `clearLogs` once the user has answered the confirmation: the log is
        emptied and the id counter keeps counting. */
    method ClearLogs(confirmed: bool)
      requires Valid()
      modifies this
      ensures Valid()
      ensures logs == (if confirmed then [] else old(logs))
      ensures logId == old(logId)
      ensures devices == old(devices) && order == old(order)
      ensures reconnectAttempts == old(reconnectAttempts)
    {
      if confirmed {
        logs := [];
      }
    }

    /** `processWebSocketData`: a delta without an id is ignored; otherwise
        the device (created as a shadow if unknown) is reconciled and one log
        entry, formatted from its sensors, is added. */
    method ProcessDelta(delta: Delta, now: int, format: Sensors -> string)
      requires Valid()
      modifies this
      ensures Valid()
      ensures reconnectAttempts == old(reconnectAttempts)
      ensures !Accepted(delta) ==>
        devices == old(devices) && order == old(order) && logs == old(logs) && logId == old(logId)
      ensures Accepted(delta) ==>
        var id := delta.deviceId.value;
        var d := Reconciled(old(devices), id, delta.sensors, now);
        && devices == old(devices)[id := d]
        && order == Enrolled(old(order), id)
        && logs == Pushed(old(logs), LogEntry(old(logId), now, id, d.name, format(d.sensors)))
        && logId == old(logId) + 1
    {
      if !Accepted(delta) {
        return;
      }
      var id := delta.deviceId.value;
      // An unknown id starts from a shadow record; the record is then updated
      // field by field.
      var d := if id in devices then devices[id] else Shadow(id);
      d := d.(isActive := true);
      d := d.(lastSeen := Some(now));
      if delta.sensors.Some? {
        d := d.(sensors := Coerced(delta.sensors.value));
      }
      assert d == Reconciled(devices, id, delta.sensors, now);
      if id in devices {
        EnumeratesUpdate(order, devices, id, d);
      } else {
        EnumeratesInsert(order, devices, id, d);
        order := order + [id];
      }
      devices := devices[id := d];
      AddLog(d, format(d.sensors), now);
    }

    /** `processHttpData`: a response without a device list changes nothing;
        otherwise every listed record is stored under its id and logged. */
    method ProcessBatch(batch: Option<seq<DeviceView>>, now: int, format: Sensors -> string)
      requires Valid()
      modifies this
      ensures Valid()
      ensures reconnectAttempts == old(reconnectAttempts)
      ensures batch.None? ==>
        devices == old(devices) && order == old(order) && logs == old(logs) && logId == old(logId)
      ensures batch.Some? ==>
        var devs := batch.value;
        && devices == Listed(old(devices), devs)
        && order == ListedOrder(old(order), devs)
        && logs == PushedAll(old(logs), ListedEntries(devs, old(logId), now, format))
        && logId == old(logId) + |devs|
    {
      if batch.None? {
        return;
      }
      var devs := batch.value;
      var i := 0;
      assert devs[..0] == [];
      assert ListedEntries(devs[..0], logId, now, format) == [];
      while i < |devs|
        invariant 0 <= i <= |devs|
        invariant Valid()
        invariant reconnectAttempts == old(reconnectAttempts)
        invariant devices == Listed(old(devices), devs[..i])
        invariant order == ListedOrder(old(order), devs[..i])
        invariant logs == PushedAll(old(logs), ListedEntries(devs[..i], old(logId), now, format))
        invariant logId == old(logId) + i
      {
        BatchStep(old(devices), old(order), old(logs), old(logId), devs, i, now, format);
        ApplyListed(devs[i], now, format);
        i := i + 1;
      }
      assert devs[..|devs|] == devs;
    }

    /** The `forEach` step of `processHttpData`: store one listed record under
        its id and log it. A listed record carries all six fields, so storing it
        as it is and spreading it over the existing record leave the same value. */
    method ApplyListed(dev: DeviceView, now: int, format: Sensors -> string)
      requires Valid()
      modifies this
      ensures Valid()
      ensures devices == old(devices)[dev.id := dev]
      ensures order == Enrolled(old(order), dev.id)
      ensures logs == Pushed(old(logs), LogEntry(old(logId), now, dev.id, dev.name, format(dev.sensors)))
      ensures logId == old(logId) + 1
      ensures reconnectAttempts == old(reconnectAttempts)
    {
      if dev.id in devices {
        EnumeratesUpdate(order, devices, dev.id, dev);
      } else {
        EnumeratesInsert(order, devices, dev.id, dev);
        order := order + [dev.id];
      }
      devices := devices[dev.id := dev];
      AddLog(dev, format(dev.sensors), now);
    }

    /** `onopen`: a connection that opens resets the attempt count. */
    method OnOpen()
      requires Valid()
      modifies this
      ensures Valid()
      ensures reconnectAttempts == 0
      ensures devices == old(devices) && order == old(order) && logs == old(logs) && logId == old(logId)
    {
      reconnectAttempts := 0;
    }

    /** `onclose`: a reconnect is scheduled, and counted, only while fewer than
        five attempts have been made. */
    method OnClose() returns (reconnect: bool)
      requires Valid()
      modifies this
      ensures Valid()
      ensures Step(reconnectAttempts, reconnect) == OnEvent(old(reconnectAttempts), Closed)
      ensures devices == old(devices) && order == old(order) && logs == old(logs) && logId == old(logId)
    {
      if reconnectAttempts < MaxReconnectAttempts {
        reconnectAttempts := reconnectAttempts + 1;
        reconnect := true;
      } else {
        reconnect := false;
      }
    }

    /** The devices in the order `Object.values(devices)` lists them. */
    function Devices(): (ds: seq<DeviceView>)
      reads this
      requires Valid()
    {
      ValuesAt(devices, order)
    }

    /** What `updateStats` shows for the current table. */
    function Statistics(): (s: Stats.Summary)
      reads this
      requires Valid()
      ensures s.activeCount <= |devices|
    {
      Stats.Summarize(Devices())
    }

    /** What `checkAlerts` shows at time `now`. */
    function CurrentAlerts(now: int): (r: seq<Alerts.Alert>)
      reads this
      requires Valid()
      ensures forall a | a in r :: a.deviceId in devices && a.deviceName == devices[a.deviceId].name
    {
      Alerts.Raised(Devices(), now)
    }

    /** The active count is the number of devices in the table that are active. */
    lemma ActiveCountMatches()
      requires Valid()
      ensures Statistics().activeCount == |set k | k in devices && devices[k].isActive|
    {
      ActiveCountIsKeyCount(devices, order);
      assert (set k | k in order && devices[k].isActive) == (set k | k in devices && devices[k].isActive);
    }

    /** Every average is "no data" exactly when no device in the table is active. */
    lemma NoDataWhenNoneActive()
      requires Valid()
      ensures Statistics().temperature.NoData? <==> forall k | k in devices :: !devices[k].isActive
      ensures Statistics().humidity.NoData? <==> forall k | k in devices :: !devices[k].isActive
      ensures Statistics().soilMoisture.NoData? <==> forall k | k in devices :: !devices[k].isActive
      ensures Statistics().lightLevel.NoData? <==> forall k | k in devices :: !devices[k].isActive
    {
      var ds := Devices();
      if exists k | k in devices :: devices[k].isActive {
        var k :| k in devices && devices[k].isActive;
        var i :| 0 <= i < |order| && order[i] == k;
        assert ds[i].isActive;
      }
    }

    /** The alerts shown are exactly those some device in the table raises. */
    lemma AlertsMatchTable(now: int, a: Alerts.Alert)
      requires Valid()
      ensures a in CurrentAlerts(now) <==> exists k | k in devices :: a in Alerts.DeviceAlerts(devices[k], now)
    {
      var ds := Devices();
      Alerts.RaisedByDevices(ds, now, a);
      if a in CurrentAlerts(now) {
        var i :| 0 <= i < |ds| && a in Alerts.DeviceAlerts(ds[i], now);
        assert order[i] in devices;
      }
      if exists k | k in devices :: a in Alerts.DeviceAlerts(devices[k], now) {
        var k :| k in devices && a in Alerts.DeviceAlerts(devices[k], now);
        var i :| 0 <= i < |order| && order[i] == k;
        assert a in Alerts.DeviceAlerts(ds[i], now);
      }
    }
  }
}
