/** The four-field sensor block carried by every device record and every broadcast. */
module Readings {
  import opened Wrappers

  /** Temperature in °C, humidity in %, soil moisture in %, light level in lux. */
  datatype Sensors = Sensors(temperature: real, humidity: real, soilMoisture: real, lightLevel: real)

  /** The block a freshly created record starts with. */
  const Zero := Sensors(0.0, 0.0, 0.0, 0.0)

  /** A `sensors` object as it arrives in a request body or a message:
      any of its fields may be missing. Values are already parsed numbers. */
  datatype SensorReading = SensorReading(
    temperature: Option<real>,
    humidity: Option<real>,
    soilMoisture: Option<real>,
    lightLevel: Option<real>)

  /** A reading with none of its fields. */
  const Blank := SensorReading(None, None, None, None)

  /** `v || 0`: a missing field, or one whose value is falsy, reads as 0. */
  function OrZero(v: Option<real>): real {
    v.GetOr(0.0)
  }

  /** Every field of the block taken from the reading, each falling back to 0 on its own. */
  function Coerced(r: SensorReading): (s: Sensors)
    ensures r.temperature.Some? ==> s.temperature == r.temperature.value
    ensures r.humidity.Some? ==> s.humidity == r.humidity.value
    ensures r.soilMoisture.Some? ==> s.soilMoisture == r.soilMoisture.value
    ensures r.lightLevel.Some? ==> s.lightLevel == r.lightLevel.value
    ensures r.temperature.None? ==> s.temperature == 0.0
    ensures r.humidity.None? ==> s.humidity == 0.0
    ensures r.soilMoisture.None? ==> s.soilMoisture == 0.0
    ensures r.lightLevel.None? ==> s.lightLevel == 0.0
  {
    Sensors(OrZero(r.temperature), OrZero(r.humidity), OrZero(r.soilMoisture), OrZero(r.lightLevel))
  }

  /** The location a device gets when it is first seen without one. */
  const UnknownLocation := "Unknown"

  /** The name a device gets when it is first seen without one. */
  function DefaultName(id: string): (name: string)
    ensures |name| > |id| && name[|name| - |id|..] == id
  {
    "Device " + id
  }

  /** A string field that is present and non-empty (JavaScript truthiness). */
  predicate Truthy(s: Option<string>) {
    s.Some? && s.value != ""
  }
}
