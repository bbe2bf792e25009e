/** The server's device registry (server.js): the `devices` table, the
    `POST /api/ingest` handler that merges a reading into it and broadcasts
    the new sensor block, the `GET /api/devices` snapshot and the
    `POST /api/command` target check. */
module Registry {
  import opened Wrappers
  import opened Collections
  import opened Readings

  /** One record of the registry. `lastSeen` is a time in milliseconds. */
  datatype Device = Device(
    id: string,
    name: string,
    location: string,
    isActive: bool,
    lastSeen: int,
    sensors: Sensors)

  /** The body of `POST /api/ingest`; every field may be missing. */
  datatype Payload = Payload(
    deviceId: Option<string>,
    sensors: Option<SensorReading>,
    active: Option<bool>,
    lastSeen: Option<int>,
    name: Option<string>,
    location: Option<string>)

  /** The message handed to `broadcast`: the device id and its new sensor block. */
  datatype Event = Event(deviceId: string, sensors: Sensors)

  /** An HTTP reply: `200 {ok: true}` or `400 {ok: false, error}`. */
  datatype Reply = Ok | BadRequest(error: string) {
    function Status(): int {
      if Ok? then 200 else 400
    }
  }

  const MissingDeviceId := "Missing deviceId"
  const InvalidDeviceId := "Invalid deviceId"

  /** `lastSeen ? new Date(lastSeen) : new Date()`: a missing or zero time means "now". */
  function Stamp(lastSeen: Option<int>, now: int): int {
    if lastSeen.Some? && lastSeen.value != 0 then lastSeen.value else now
  }

  /** `sensors?.field || 0` for each of the four fields. */
  function SensorsOf(sensors: Option<SensorReading>): Sensors {
    Coerced(sensors.GetOr(Blank))
  }

  /** The registry invariant: every record sits under its own non-empty id and
      has a non-empty name and location. */
  ghost predicate WellFormed(m: map<string, Device>) {
    forall k | k in m :: k != "" && m[k].id == k && m[k].name != "" && m[k].location != ""
  }

  /** The record created on the first sighting of `id`. */
  function Created(id: string, p: Payload, now: int): (d: Device)
    ensures d.id == id && d.isActive && d.lastSeen == now && d.sensors == Zero
    ensures d.name != "" && d.location != ""
    ensures Truthy(p.name) ==> d.name == p.name.value
    ensures Truthy(p.location) ==> d.location == p.location.value
  {
    Device(
      id,
      if Truthy(p.name) then p.name.value else DefaultName(id),
      if Truthy(p.location) then p.location.value else UnknownLocation,
      true,
      now,
      Zero)
  }

  /** The record an ingest of `p` leaves under `id` in the registry `m`. */
  function Upserted(m: map<string, Device>, id: string, p: Payload, now: int): (d: Device)
    ensures d.id == (if id in m then m[id].id else id)
    ensures Truthy(p.name) ==> d.name == p.name.value
    ensures !Truthy(p.name) && id in m ==> d.name == m[id].name
    ensures !Truthy(p.name) && id !in m ==> d.name == DefaultName(id)
    ensures Truthy(p.location) ==> d.location == p.location.value
    ensures !Truthy(p.location) && id in m ==> d.location == m[id].location
    ensures !Truthy(p.location) && id !in m ==> d.location == UnknownLocation
    ensures !d.isActive <==> p.active == Some(false)
    ensures p.lastSeen.Some? && p.lastSeen.value != 0 ==> d.lastSeen == p.lastSeen.value
    ensures p.lastSeen.None? || p.lastSeen.value == 0 ==> d.lastSeen == now
    ensures p.sensors.None? ==> d.sensors == Zero
    ensures p.sensors.Some? ==> d.sensors == Coerced(p.sensors.value)
  {
    var d := if id in m then m[id] else Created(id, p, now);
    var d := d.(isActive := p.active != Some(false), lastSeen := Stamp(p.lastSeen, now), sensors := SensorsOf(p.sensors));
    var d := if Truthy(p.name) then d.(name := p.name.value) else d;
    if Truthy(p.location) then d.(location := p.location.value) else d
  }

  /** The registry after a successful ingest of `p` for `id`. */
  function Ingested(m: map<string, Device>, id: string, p: Payload, now: int): (m': map<string, Device>)
    ensures m'.Keys == m.Keys + {id}
    ensures forall k | k in m && k != id :: m'[k] == m[k]
  {
    m[id := Upserted(m, id, p, now)]
  }

  /** Ingest keeps the registry invariant. */
  lemma IngestedWellFormed(m: map<string, Device>, id: string, p: Payload, now: int)
    requires WellFormed(m) && id != ""
    ensures WellFormed(Ingested(m, id, p, now))
  {
  }

  /** Ingesting the same payload twice leaves what the second ingest alone
      would have left: nothing of the first survives but its effect on the
      record's existence. With an explicit non-zero `lastSeen` the repetition
      changes nothing at all. */
  lemma IngestTwice(m: map<string, Device>, id: string, p: Payload, t1: int, t2: int)
    ensures Ingested(Ingested(m, id, p, t1), id, p, t2) == Ingested(m, id, p, t2)
    ensures p.lastSeen.Some? && p.lastSeen.value != 0 ==>
      Ingested(Ingested(m, id, p, t1), id, p, t2) == Ingested(m, id, p, t1)
  {
  }

  /** The server's state invariant: a well-formed table, its keys listed once
      each in `order`, and every broadcast naming a registered device. */
  ghost predicate Consistent(m: map<string, Device>, order: seq<string>, outbox: seq<Event>) {
    && WellFormed(m)
    && Enumerates(order, m)
    && (forall i | 0 <= i < |outbox| :: outbox[i].deviceId in m)
  }

  /** A successful ingest, with its broadcast, keeps the server consistent. */
  lemma IngestConsistent(m: map<string, Device>, order: seq<string>, outbox: seq<Event>, id: string, p: Payload, now: int)
    requires Consistent(m, order, outbox) && id != ""
    ensures Enrolled(order, id) == if id in m then order else order + [id]
    ensures Consistent(Ingested(m, id, p, now), Enrolled(order, id), outbox + [Event(id, Upserted(m, id, p, now).sensors)])
  {
    IngestedWellFormed(m, id, p, now);
    if id in m {
      EnumeratesUpdate(order, m, id, Upserted(m, id, p, now));
    } else {
      EnumeratesInsert(order, m, id, Upserted(m, id, p, now));
    }
  }

  /** Listing a well-formed table by its enumerated keys gives each record
      once, under its own id. */
  lemma ListedOnce(m: map<string, Device>, order: seq<string>)
    requires WellFormed(m) && Enumerates(order, m)
    ensures forall i | 0 <= i < |order| :: ValuesAt(m, order)[i].id == order[i]
    ensures forall i, j | 0 <= i < j < |order| :: ValuesAt(m, order)[i].id != ValuesAt(m, order)[j].id
    ensures forall k | k in m :: m[k] in ValuesAt(m, order)
  {
    EnumeratedValues(m, order);
  }

  /** The registry of the server process. `order` lists the keys in the order
      they were first inserted, the order `Object.values` reports them in;
      `outbox` holds every message passed to `broadcast`, oldest first. */
  class Server {
    var devices: map<string, Device>
    var order: seq<string>
    var outbox: seq<Event>

    ghost predicate Valid()
      reads this
    {
      Consistent(devices, order, outbox)
    }

    /** The registry starts empty. */
    constructor ()
      ensures Valid()
      ensures devices == map[] && order == [] && outbox == []
    {
      devices := map[];
      order := [];
      outbox := [];
    }

    /** `POST /api/ingest`. */
    method Ingest(p: Payload, now: int) returns (reply: Reply)
      requires Valid()
      modifies this
      ensures Valid()
      ensures reply.Ok? <==> Truthy(p.deviceId)
      ensures !Truthy(p.deviceId) ==>
        && reply == BadRequest(MissingDeviceId)
        && devices == old(devices) && order == old(order) && outbox == old(outbox)
      ensures Truthy(p.deviceId) ==>
        var id := p.deviceId.value;
        && devices == Ingested(old(devices), id, p, now)
        && order == (if id in old(devices) then old(order) else old(order) + [id])
        && outbox == old(outbox) + [Event(id, devices[id].sensors)]
    {
      if !Truthy(p.deviceId) {
        return BadRequest(MissingDeviceId);
      }
      var id := p.deviceId.value;
      IngestConsistent(devices, order, outbox, id, p, now);
      // A first sighting starts from the default record; either way the
      // record is then updated field by field, as the handler does.
      var d := if id in devices then devices[id] else Created(id, p, now);
      d := d.(isActive := p.active != Some(false));
      d := d.(lastSeen := Stamp(p.lastSeen, now));
      d := d.(sensors := SensorsOf(p.sensors));
      if Truthy(p.name) {
        d := d.(name := p.name.value);
      }
      if Truthy(p.location) {
        d := d.(location := p.location.value);
      }
      assert d == Upserted(devices, id, p, now);
      if id !in devices {
        order := order + [id];
      }
      devices := devices[id := d];
      outbox := outbox + [Event(id, d.sensors)];
      reply := Ok;
    }

    /** `GET /api/devices`: every record once, in insertion order. */
    function Snapshot(): (list: seq<Device>)
      reads this
      requires Valid()
      ensures |list| == |devices|
      ensures forall i | 0 <= i < |list| :: list[i].id in devices && devices[list[i].id] == list[i]
      ensures forall i, j | 0 <= i < j < |list| :: list[i].id != list[j].id
      ensures forall k | k in devices :: devices[k] in list
    {
      ListedOnce(devices, order);
      ValuesAt(devices, order)
    }

    /** `POST /api/command`: accepted exactly when the target is registered. */
    method Command(deviceId: Option<string>, command: string) returns (reply: Reply)
      requires Valid()
      ensures reply.Ok? <==> deviceId.Some? && deviceId.value in devices
      ensures reply.BadRequest? ==> reply.error == InvalidDeviceId
    {
      if !Truthy(deviceId) || deviceId.value !in devices {
        return BadRequest(InvalidDeviceId);
      }
      reply := Ok;
    }
  }
}
