/** The alert rules the dashboard evaluates afresh on every refresh
    (public/script.js, `checkAlerts`): a stale alert for a device silent for
    more than 300 s, and, for an active device, a low-moisture warning below
    20 % and a high-temperature warning above 35 °C. */
module Alerts {
  import opened Wrappers
  import opened View

  datatype Kind = Stale | LowMoisture | HighTemperature

  /** One displayed alert; the source's message text is built from these parts. */
  datatype Alert = Alert(kind: Kind, deviceId: string, deviceName: string)

  const StaleAfterSeconds: real := 300.0
  const LowMoistureBelow: real := 20.0
  const HighTemperatureAbove: real := 35.0

  /** `(now - lastSeen) / 1000 > 300` for a device that has a `lastSeen`; times in milliseconds. */
  predicate IsStale(d: DeviceView, now: int) {
    d.lastSeen.Some? && (now - d.lastSeen.value) as real / 1000.0 > StaleAfterSeconds
  }

  predicate IsDry(d: DeviceView) {
    d.isActive && d.sensors.soilMoisture < LowMoistureBelow
  }

  predicate IsHot(d: DeviceView) {
    d.isActive && d.sensors.temperature > HighTemperatureAbove
  }

  function AlertOf(k: Kind, d: DeviceView): Alert {
    Alert(k, d.id, d.name)
  }

  /** The alerts shown for one device, in the order they are shown. Each rule
      is evaluated on its own, so a device can raise any combination of them. */
  function DeviceAlerts(d: DeviceView, now: int): (r: seq<Alert>)
    ensures |r| == (if IsStale(d, now) then 1 else 0) + (if IsDry(d) then 1 else 0) + (if IsHot(d) then 1 else 0)
    ensures forall i | 0 <= i < |r| :: r[i].deviceId == d.id && r[i].deviceName == d.name
    ensures AlertOf(Stale, d) in r <==> IsStale(d, now)
    ensures AlertOf(LowMoisture, d) in r <==> IsDry(d)
    ensures AlertOf(HighTemperature, d) in r <==> IsHot(d)
  {
    var stale := if IsStale(d, now) then [AlertOf(Stale, d)] else [];
    var warnings :=
      if d.isActive then
        (if d.sensors.soilMoisture < LowMoistureBelow then [AlertOf(LowMoisture, d)] else [])
        + (if d.sensors.temperature > HighTemperatureAbove then [AlertOf(HighTemperature, d)] else [])
      else [];
    stale + warnings
  }

  /** Every alert of every device, in table order. */
  function Raised(ds: seq<DeviceView>, now: int): (r: seq<Alert>)
    ensures |r| <= 3 * |ds|
    ensures forall a | a in r :: exists d | d in ds :: a.deviceId == d.id && a.deviceName == d.name
  {
    if ds == [] then [] else DeviceAlerts(ds[0], now) + Raised(ds[1..], now)
  }

  /** An alert is shown exactly when one of the devices raises it. */
  lemma {:induction false} RaisedByDevices(ds: seq<DeviceView>, now: int, a: Alert)
    ensures a in Raised(ds, now) <==> exists i | 0 <= i < |ds| :: a in DeviceAlerts(ds[i], now)
  {
    if ds != [] {
      RaisedByDevices(ds[1..], now, a);
      if a in Raised(ds[1..], now) {
        var i :| 0 <= i < |ds[1..]| && a in DeviceAlerts(ds[1..][i], now);
        assert a in DeviceAlerts(ds[i + 1], now);
      }
      if exists i | 0 <= i < |ds| :: a in DeviceAlerts(ds[i], now) {
        var i :| 0 <= i < |ds| && a in DeviceAlerts(ds[i], now);
        if i > 0 {
          assert a in DeviceAlerts(ds[1..][i - 1], now);
        }
      }
    }
  }

  /** The stale rule in whole milliseconds: strictly more than 300 000 ms. */
  lemma StaleInMilliseconds(d: DeviceView, now: int)
    ensures IsStale(d, now) <==> d.lastSeen.Some? && now - d.lastSeen.value > 300000
  {
  }

  /** Exactly 300 s of silence raises nothing; 301 s raises the stale alert;
      a device never stamped is never stale. */
  lemma StaleBoundary(d: DeviceView, now: int)
    ensures d.lastSeen == Some(now - 300000) ==> !IsStale(d, now)
    ensures d.lastSeen == Some(now - 299000) ==> !IsStale(d, now)
    ensures d.lastSeen == Some(now - 301000) ==> IsStale(d, now)
    ensures d.lastSeen.None? ==> !IsStale(d, now)
  {
  }

  /** An inactive device can raise the stale alert and nothing else. */
  lemma InactiveOnlyStale(d: DeviceView, now: int)
    requires !d.isActive
    ensures DeviceAlerts(d, now) == if IsStale(d, now) then [AlertOf(Stale, d)] else []
  {
  }

  /** The three rules fire together for an active device that is stale, dry and hot. */
  lemma AllThreeTogether(d: DeviceView, now: int)
    requires d.lastSeen.Some? && now - d.lastSeen.value > 300000
    requires d.isActive && d.sensors.soilMoisture < 20.0 && d.sensors.temperature > 35.0
    ensures DeviceAlerts(d, now) == [AlertOf(Stale, d), AlertOf(LowMoisture, d), AlertOf(HighTemperature, d)]
  {
    StaleInMilliseconds(d, now);
  }

  /** Soil moisture 19.9 on an active device warns; 20.0 does not. */
  lemma MoistureBoundary(d: DeviceView)
    requires d.isActive
    ensures d.sensors.soilMoisture == 19.9 ==> IsDry(d)
    ensures d.sensors.soilMoisture == 20.0 ==> !IsDry(d)
  {
  }
}
