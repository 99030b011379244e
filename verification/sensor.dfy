/** One sensor reading as the rest of the system passes it around. */
module Sensor {
  /** Voltage, current and temperature, in the order the device sends them. */
  datatype Triple = Triple(voltage: real, current: real, temperature: real)

  /** A reading worth keeping: not all three values are zero (an idle sensor). */
  predicate IsValid(t: Triple) {
    !(t.voltage == 0.0 && t.current == 0.0 && t.temperature == 0.0)
  }
}
