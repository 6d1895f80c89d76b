/**
 * The telemetry records of the battery dashboard.
 *
 * Numbers are modelled as mathematical reals (no floating-point rounding, no
 * NaN or Infinity), and a timestamp as an already-parsed instant given in
 * milliseconds since the epoch.
 */
module BatteryTypes {

  /** One raw telemetry reading, as it arrives row-wise after the column zip. */
  datatype BatteryData = BatteryData(
    timestamp: int,   // milliseconds
    soc: real,        // state of charge, percent (not validated)
    voltage: real,    // volts
    current: real     // amps
  )

  /**
   * A reading enriched with derived quantities. It keeps every field of the
   * raw reading and adds the parsed instant, the instantaneous power and the
   * energy and charge accumulated since the previous reading.
   */
  datatype ProcessedData = ProcessedData(
    timestamp: int,
    soc: real,
    voltage: real,
    current: real,
    datetime: int,    // the parsed instant, milliseconds
    power: real,      // watts
    energy: real,     // watt-hours since the previous reading
    amperHours: real  // amp-hours since the previous reading
  )
  {
    /** The raw reading this record was derived from. */
    function Raw(): BatteryData {
      BatteryData(timestamp, soc, voltage, current)
    }
  }

  /** Summary of a whole trace. */
  datatype BatteryStats = BatteryStats(
    maxSOC: real, minSOC: real, avgSOC: real,
    maxVoltage: real, minVoltage: real, avgVoltage: real,
    maxCurrent: real, minCurrent: real, avgCurrent: real,
    totalEnergy: real, totalAmperHours: real,
    chargingCycles: nat, dischargingCycles: nat
  )

  /** The record returned for an empty trace: every field is zero. */
  const ZeroStats := BatteryStats(0.0, 0.0, 0.0, 0.0, 0.0, 0.0, 0.0, 0.0, 0.0, 0.0, 0.0, 0, 0)
}
