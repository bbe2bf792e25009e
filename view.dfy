/** The dashboard's local copy of the device table (public/script.js) and
    the two ways it is reconciled: a live delta from the WebSocket and a
    batch polled from `GET /api/devices`. */
module View {
  import opened Wrappers
  import opened Collections
  import opened Readings

  /** A device as the dashboard holds it. `lastSeen` is absent (`null`) for a
      device known only from a shadow record that was never stamped. */
  datatype DeviceView = DeviceView(
    id: string,
    name: string,
    location: string,
    isActive: bool,
    lastSeen: Option<int>,
    sensors: Sensors)

  /** A message received on the WebSocket: `{deviceId, sensors}`, either may be missing. */
  datatype Delta = Delta(deviceId: Option<string>, sensors: Option<SensorReading>)

  /** Every record sits under its own id. */
  ghost predicate Keyed(m: map<string, DeviceView>) {
    forall k | k in m :: m[k].id == k
  }

  /** `if (!data.deviceId) return;`: a delta is processed only with a non-empty id. */
  predicate Accepted(delta: Delta) {
    Truthy(delta.deviceId)
  }

  /** The placeholder created for an id the dashboard has not seen before. */
  function Shadow(id: string): (d: DeviceView)
    ensures d.id == id && !d.isActive && d.lastSeen.None?
    ensures d.sensors == Zero
  {
    DeviceView(id, DefaultName(id), UnknownLocation, false, None, Zero)
  }

  /** The record `processWebSocketData` leaves under `id`: the existing record,
      or a shadow one, marked active and stamped `now`, with its sensor block
      replaced only when the delta carries one. */
  function Reconciled(m: map<string, DeviceView>, id: string, sensors: Option<SensorReading>, now: int): (d: DeviceView)
    ensures d.isActive && d.lastSeen == Some(now)
    ensures id in m ==> d.id == m[id].id && d.name == m[id].name && d.location == m[id].location
    ensures id !in m ==> d.id == id && d.name == DefaultName(id) && d.location == UnknownLocation
    ensures sensors.Some? ==> d.sensors == Coerced(sensors.value)
    ensures sensors.None? && id in m ==> d.sensors == m[id].sensors
    ensures sensors.None? && id !in m ==> d.sensors == Zero
  {
    var base := if id in m then m[id] else Shadow(id);
    var d := base.(isActive := true, lastSeen := Some(now));
    if sensors.Some? then d.(sensors := Coerced(sensors.value)) else d
  }

  /** The ids a polled list names. */
  function Ids(devs: seq<DeviceView>): set<string> {
    set d | d in devs :: d.id
  }

  /** `Ids` holds exactly the ids that some entry of the list carries. */
  lemma IdsNamed(devs: seq<DeviceView>, k: string)
    ensures k in Ids(devs) <==> exists i | 0 <= i < |devs| :: devs[i].id == k
  {
    if k in Ids(devs) {
      var d :| d in devs && d.id == k;
      var i :| 0 <= i < |devs| && devs[i] == d;
    }
  }

  /** The table after a polled list has been applied entry by entry. A listed
      record carries all six fields, so both `devices[dev.id] = dev` and the
      spread `{...devices[dev.id], ...dev}` leave exactly `dev` under its id. */
  function Listed(m: map<string, DeviceView>, devs: seq<DeviceView>): (r: map<string, DeviceView>)
    ensures devs != [] ==> devs[|devs| - 1].id in r && r[devs[|devs| - 1].id] == devs[|devs| - 1]
  {
    if devs == [] then m
    else Listed(m, devs[..|devs| - 1])[devs[|devs| - 1].id := devs[|devs| - 1]]
  }

  /** The key order after a polled list: ids met for the first time are
      appended in the order they are listed. */
  function ListedOrder(order: seq<string>, devs: seq<DeviceView>): (r: seq<string>)
    ensures order <= r
  {
    if devs == [] then order
    else Enrolled(ListedOrder(order, devs[..|devs| - 1]), devs[|devs| - 1].id)
  }

  /** Entry `i` is the last one in the list that names `k`. */
  predicate LastFor(devs: seq<DeviceView>, i: int, k: string) {
    0 <= i < |devs| && devs[i].id == k && forall j | i < j < |devs| :: devs[j].id != k
  }

  /** The table after a polled list holds its old keys and every listed id, and no other. */
  lemma {:induction false} ListedKeys(m: map<string, DeviceView>, devs: seq<DeviceView>)
    ensures Listed(m, devs).Keys == m.Keys + Ids(devs)
  {
    if devs != [] {
      var n := |devs| - 1;
      ListedKeys(m, devs[..n]);
      assert Ids(devs) == Ids(devs[..n]) + {devs[n].id} by {
        assert devs == devs[..n] + [devs[n]];
      }
    }
  }

  /** The key order after a polled list holds the old keys and every listed id, and no other. */
  lemma {:induction false} ListedOrderKeys(order: seq<string>, devs: seq<DeviceView>, k: string)
    ensures k in ListedOrder(order, devs) <==> k in order || k in Ids(devs)
  {
    if devs != [] {
      var n := |devs| - 1;
      ListedOrderKeys(order, devs[..n], k);
      assert Ids(devs) == Ids(devs[..n]) + {devs[n].id} by {
        assert devs == devs[..n] + [devs[n]];
      }
    }
  }

  /** A key that the polled list does not name keeps its record, or stays absent. */
  lemma {:induction false} ListedUntouched(m: map<string, DeviceView>, devs: seq<DeviceView>, k: string)
    requires forall i | 0 <= i < |devs| :: devs[i].id != k
    ensures k in Listed(m, devs) <==> k in m
    ensures k in m ==> Listed(m, devs)[k] == m[k]
  {
    if devs != [] {
      ListedUntouched(m, devs[..|devs| - 1], k);
    }
  }

  /** A listed id ends up holding the last entry listed for it. */
  lemma {:induction false} ListedLast(m: map<string, DeviceView>, devs: seq<DeviceView>, i: int)
    requires 0 <= i < |devs| && LastFor(devs, i, devs[i].id)
    ensures devs[i].id in Listed(m, devs)
    ensures Listed(m, devs)[devs[i].id] == devs[i]
  {
    var n := |devs| - 1;
    if i < n {
      var k := devs[i].id;
      assert LastFor(devs[..n], i, k);
      ListedLast(m, devs[..n], i);
      assert devs[n].id != k;
    }
  }

  /** A polled list keeps the table keyed by id. */
  lemma {:induction false} ListedKeyed(m: map<string, DeviceView>, devs: seq<DeviceView>)
    requires Keyed(m)
    ensures Keyed(Listed(m, devs))
  {
    if devs != [] {
      ListedKeyed(m, devs[..|devs| - 1]);
    }
  }
}
