/** The figures the dashboard derives from its device table (public/script.js,
    `updateStats`): how many devices are active and the mean of each sensor
    over the active ones, or "no data" (`'--'`) when none is active. */
module Stats {
  import opened Readings
  import opened View

  /** A displayed average: a mean, or `'--'`. */
  datatype Stat = NoData | Mean(value: real)

  datatype Summary = Summary(
    activeCount: nat,
    temperature: Stat,
    humidity: Stat,
    soilMoisture: Stat,
    lightLevel: Stat)

  datatype Field = Temperature | Humidity | SoilMoisture | LightLevel

  function Reading(s: Sensors, f: Field): real {
    match f
    case Temperature => s.temperature
    case Humidity => s.humidity
    case SoilMoisture => s.soilMoisture
    case LightLevel => s.lightLevel
  }

  /** `devices.filter(d => d.isActive)`. */
  function Actives(ds: seq<DeviceView>): (r: seq<DeviceView>)
    ensures |r| <= |ds|
    ensures forall i | 0 <= i < |r| :: r[i].isActive && r[i] in ds
    ensures forall i | 0 <= i < |ds| && ds[i].isActive :: ds[i] in r
  {
    if ds == [] then []
    else (if ds[0].isActive then [ds[0]] else []) + Actives(ds[1..])
  }

  /** `arr.reduce((a, b) => a + b, 0)` over one sensor field. */
  function Sum(ds: seq<DeviceView>, f: Field): real {
    if ds == [] then 0.0 else Reading(ds[0].sensors, f) + Sum(ds[1..], f)
  }

  /** The average of one field over the active devices, or no data. */
  function Average(ds: seq<DeviceView>, f: Field): (s: Stat)
    ensures s.NoData? <==> forall i | 0 <= i < |ds| :: !ds[i].isActive
  {
    var actives := Actives(ds);
    if |actives| > 0 then Mean(Sum(actives, f) / |actives| as real) else NoData
  }

  /** What `updateStats` displays. Every average is missing exactly when no
      device is active; otherwise each is a mean over the active devices. */
  function Summarize(ds: seq<DeviceView>): (s: Summary)
    ensures s.activeCount == |Actives(ds)|
    ensures s.activeCount == 0 <==> forall i | 0 <= i < |ds| :: !ds[i].isActive
    ensures s.activeCount == 0 <==> s.temperature.NoData?
    ensures s.activeCount == 0 <==> s.humidity.NoData?
    ensures s.activeCount == 0 <==> s.soilMoisture.NoData?
    ensures s.activeCount == 0 <==> s.lightLevel.NoData?
  {
    Summary(
      |Actives(ds)|,
      Average(ds, Temperature),
      Average(ds, Humidity),
      Average(ds, SoilMoisture),
      Average(ds, LightLevel))
  }

  /** The filter keeps each active device exactly as often as it is listed,
      and no inactive one, so no reading weighs twice in a mean. */
  lemma {:induction false} ActivesCount(ds: seq<DeviceView>, x: DeviceView)
    ensures multiset(Actives(ds))[x] == if x.isActive then multiset(ds)[x] else 0
  {
    if ds != [] {
      assert ds == [ds[0]] + ds[1..];
      ActivesCount(ds[1..], x);
    }
  }

  lemma {:induction false} ActivesAppend(ds: seq<DeviceView>, es: seq<DeviceView>)
    ensures Actives(ds + es) == Actives(ds) + Actives(es)
  {
    if ds == [] {
      assert ds + es == es;
    } else {
      assert (ds + es)[0] == ds[0];
      assert (ds + es)[1..] == ds[1..] + es;
      ActivesAppend(ds[1..], es);
    }
  }

  /** An inactive device changes none of the figures. */
  lemma InactiveIgnored(ds: seq<DeviceView>, d: DeviceView)
    requires !d.isActive
    ensures Summarize(ds + [d]) == Summarize(ds)
  {
    ActivesAppend(ds, [d]);
    assert Actives([d]) == [];
    assert Actives(ds + [d]) == Actives(ds);
  }

  lemma {:induction false} SumBounds(ds: seq<DeviceView>, f: Field, lo: real, hi: real)
    requires forall i | 0 <= i < |ds| :: lo <= Reading(ds[i].sensors, f) <= hi
    ensures |ds| as real * lo <= Sum(ds, f) <= |ds| as real * hi
  {
    if ds != [] {
      SumBounds(ds[1..], f, lo, hi);
    }
  }

  lemma {:induction false} ActivesWithin(ds: seq<DeviceView>, f: Field, lo: real, hi: real)
    requires forall i | 0 <= i < |ds| && ds[i].isActive :: lo <= Reading(ds[i].sensors, f) <= hi
    ensures forall i | 0 <= i < |Actives(ds)| :: lo <= Reading(Actives(ds)[i].sensors, f) <= hi
  {
    if ds != [] {
      ActivesWithin(ds[1..], f, lo, hi);
    }
  }

  lemma AverageOfActives(ds: seq<DeviceView>, f: Field)
    requires |Actives(ds)| > 0
    ensures Average(ds, f) == Mean(Sum(Actives(ds), f) / |Actives(ds)| as real)
  {
  }

  /** A mean lies between the smallest and the largest reading of the active devices. */
  lemma MeanWithinRange(ds: seq<DeviceView>, f: Field, lo: real, hi: real)
    requires forall i | 0 <= i < |ds| && ds[i].isActive :: lo <= Reading(ds[i].sensors, f) <= hi
    ensures Average(ds, f).Mean? ==> lo <= Average(ds, f).value <= hi
  {
    var actives := Actives(ds);
    if |actives| > 0 {
      ActivesWithin(ds, f, lo, hi);
      QuotientWithin(actives, f, lo, hi);
      AverageOfActives(ds, f);
    } else {
      assert Average(ds, f) == NoData;
    }
  }

  lemma QuotientWithin(ds: seq<DeviceView>, f: Field, lo: real, hi: real)
    requires |ds| > 0
    requires forall i | 0 <= i < |ds| :: lo <= Reading(ds[i].sensors, f) <= hi
    ensures lo <= Sum(ds, f) / |ds| as real <= hi
  {
    SumBounds(ds, f, lo, hi);
    QuotientBounds(Sum(ds, f), |ds| as real, lo, hi);
  }

  lemma QuotientBounds(total: real, n: real, lo: real, hi: real)
    requires n > 0.0 && n * lo <= total <= n * hi
    ensures lo <= total / n <= hi
  {
  }

  /** When every active device reports the same value, that value is the mean. */
  lemma MeanOfEqualReadings(ds: seq<DeviceView>, f: Field, v: real)
    requires exists i | 0 <= i < |ds| :: ds[i].isActive
    requires forall i | 0 <= i < |ds| && ds[i].isActive :: Reading(ds[i].sensors, f) == v
    ensures Average(ds, f) == Mean(v)
  {
    MeanWithinRange(ds, f, v, v);
  }
}
