/**
 * The last step of the demo generator: a synthetic reading, whatever its
 * trend and jitter made of it, is clamped into a realistic range per field.
 */
module Simulation {
  import opened Sensor

  /** `max(lo, min(hi, x))`, with Python's `min` and `max` on two numbers. */
  function Clamp(x: real, lo: real, hi: real): (r: real)
    ensures lo <= r
    ensures lo <= hi ==> r <= hi
    ensures lo <= x <= hi ==> r == x
    ensures r == x || r == lo || r == hi
  {
    var m := if x < hi then x else hi;
    if lo < m then m else lo
  }

  const VoltageLow := 3.0
  const VoltageHigh := 5.2
  const CurrentLow := 0.1
  const CurrentHigh := 2.5
  const TemperatureLow := 18.0
  const TemperatureHigh := 35.0

  /** Voltage in [3.0, 5.2] V, current in [0.1, 2.5] A and temperature in [18.0, 35.0] C. */
  predicate InDemoRange(t: Triple) {
    && VoltageLow <= t.voltage <= VoltageHigh
    && CurrentLow <= t.current <= CurrentHigh
    && TemperatureLow <= t.temperature <= TemperatureHigh
  }

  /** The clamping of the three generated values, each into its own range. */
  function ClampReading(raw: Triple): (r: Triple)
    ensures InDemoRange(r)
  {
    Triple(Clamp(raw.voltage, VoltageLow, VoltageHigh),
           Clamp(raw.current, CurrentLow, CurrentHigh),
           Clamp(raw.temperature, TemperatureLow, TemperatureHigh))
  }

  /** A value already inside the bounds is left alone, so clamping twice is clamping once. */
  lemma ClampIdempotent(x: real, lo: real, hi: real)
    requires lo <= hi
    ensures Clamp(Clamp(x, lo, hi), lo, hi) == Clamp(x, lo, hi)
  {
  }

  /** Clamping never reverses the order of two values. */
  lemma ClampMonotone(x: real, y: real, lo: real, hi: real)
    requires x <= y
    ensures Clamp(x, lo, hi) <= Clamp(y, lo, hi)
  {
  }

  /** A reading inside the demo ranges comes out of the clamp unchanged, and clamping is idempotent. */
  lemma ClampReadingKeepsInRange(t: Triple)
    ensures InDemoRange(t) ==> ClampReading(t) == t
    ensures ClampReading(ClampReading(t)) == ClampReading(t)
  {
  }

  /** A clamped reading is never all zeros: every demo reading reaches the database. */
  lemma DemoReadingIsValid(raw: Triple)
    ensures IsValid(ClampReading(raw))
  {
  }
}
