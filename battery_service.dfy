/**
 * The telemetry pipeline of the battery service: the column-to-row zip of the
 * fetched arrays, the per-reading enrichment (`processData`) and the summary
 * statistics (`calculateStats`).
 */
module BatteryService {
  import opened BatteryTypes
  import opened Reductions
  import opened CycleDetector

  // ---------------------------------------------------------------------------
  // Column-to-row zip

  /**
   * One reading per timestamp, the i-th built from the i-th entry of every
   * column. The timestamp column decides the length: entries of the other
   * columns beyond it are ignored.
   */
  function Zip(timestamps: seq<int>, voltages: seq<real>, currents: seq<real>, socs: seq<real>): (rows: seq<BatteryData>)
    requires |voltages| >= |timestamps| && |currents| >= |timestamps| && |socs| >= |timestamps|
    ensures |rows| == |timestamps|
  {
    seq(|timestamps|, i requires 0 <= i < |timestamps| =>
      BatteryData(timestamps[i], socs[i], voltages[i], currents[i]))
  }

  function TimestampColumn(rows: seq<BatteryData>): seq<int>
  {
    seq(|rows|, i requires 0 <= i < |rows| => rows[i].timestamp)
  }

  function VoltageColumn(rows: seq<BatteryData>): seq<real>
  {
    seq(|rows|, i requires 0 <= i < |rows| => rows[i].voltage)
  }

  function CurrentColumn(rows: seq<BatteryData>): seq<real>
  {
    seq(|rows|, i requires 0 <= i < |rows| => rows[i].current)
  }

  function SocColumn(rows: seq<BatteryData>): seq<real>
  {
    seq(|rows|, i requires 0 <= i < |rows| => rows[i].soc)
  }

  /**
   * Zipping loses nothing within the length of the timestamp column: each
   * column's leading part can be read back from the rows.
   */
  lemma ZipColumns(timestamps: seq<int>, voltages: seq<real>, currents: seq<real>, socs: seq<real>)
    requires |voltages| >= |timestamps| && |currents| >= |timestamps| && |socs| >= |timestamps|
    ensures TimestampColumn(Zip(timestamps, voltages, currents, socs)) == timestamps
    ensures VoltageColumn(Zip(timestamps, voltages, currents, socs)) == voltages[..|timestamps|]
    ensures CurrentColumn(Zip(timestamps, voltages, currents, socs)) == currents[..|timestamps|]
    ensures SocColumn(Zip(timestamps, voltages, currents, socs)) == socs[..|timestamps|]
  {
  }

  /** Every row-wise trace is the zip of its own columns. */
  lemma ZipOfColumns(rows: seq<BatteryData>)
    ensures Zip(TimestampColumn(rows), VoltageColumn(rows), CurrentColumn(rows), SocColumn(rows)) == rows
  {
  }

  // ---------------------------------------------------------------------------
  // Enrichment

  /** Milliseconds in an hour: 1000 * 60 * 60. */
  const MsPerHour: real := 3600000.0

  /**
   * Hours from instant `prev` to instant `now`. Nothing is validated: the
   * interval is negative when `now` is earlier and zero when they coincide.
   */
  function HoursBetween(prev: int, now: int): (h: real)
    ensures h < 0.0 <==> now < prev
    ensures h == 0.0 <==> now == prev
    ensures h * MsPerHour == (now - prev) as real
  {
    (now - prev) as real / MsPerHour
  }

  /** Hours from the reading before `index` to the reading at `index`. */
  function IntervalHours(data: seq<BatteryData>, index: nat): real
    requires 0 < index < |data|
  {
    HoursBetween(data[index - 1].timestamp, data[index].timestamp)
  }

  /**
   * The enrichment of the reading at `index`, which reads the instant of the
   * reading before it. The first reading is its own predecessor, so it
   * accumulates no energy and no charge; every later one accumulates its
   * power, resp. its current, times the hours since the reading before it,
   * whatever the sign of that interval.
   */
  function EnrichAt(data: seq<BatteryData>, index: nat): (r: ProcessedData)
    requires index < |data|
    ensures r.Raw() == data[index] && r.datetime == data[index].timestamp
    ensures r.power == data[index].voltage * data[index].current
    ensures index == 0 ==> r.energy == 0.0 && r.amperHours == 0.0
    ensures index > 0 ==>
      r.energy == r.power * IntervalHours(data, index) && r.amperHours == data[index].current * IntervalHours(data, index)
  {
    var item := data[index];
    var power := item.voltage * item.current;
    var prevTime := if index > 0 then data[index - 1].timestamp else item.timestamp;
    var hours := HoursBetween(prevTime, item.timestamp);
    ProcessedData(item.timestamp, item.soc, item.voltage, item.current,
                  item.timestamp, power, power * hours, item.current * hours)
  }

  /** Enriches every reading, in order. */
  function ProcessData(data: seq<BatteryData>): (out: seq<ProcessedData>)
    ensures |out| == |data|
    ensures forall i :: 0 <= i < |data| ==>
      && out[i].Raw() == data[i]
      && out[i].datetime == data[i].timestamp
      && out[i].power == data[i].voltage * data[i].current
    ensures |data| > 0 ==> out[0].energy == 0.0 && out[0].amperHours == 0.0
    ensures forall i :: 0 < i < |data| ==>
      out[i].energy == out[i].power * IntervalHours(data, i) && out[i].amperHours == data[i].current * IntervalHours(data, i)
  {
    seq(|data|, i requires 0 <= i < |data| => EnrichAt(data, i))
  }

  function RawColumn(out: seq<ProcessedData>): seq<BatteryData>
  {
    seq(|out|, i requires 0 <= i < |out| => out[i].Raw())
  }

  /** Enrichment keeps the raw readings: stripping the derived fields gives the input back. */
  lemma ProcessKeepsReadings(data: seq<BatteryData>)
    ensures RawColumn(ProcessData(data)) == data
  {
  }

  /** Enriching a prefix gives the prefix of the enriched trace: no reading looks ahead. */
  lemma ProcessPrefix(data: seq<BatteryData>, k: nat)
    requires k <= |data|
    ensures ProcessData(data[..k]) == ProcessData(data)[..k]
  {
    forall i | 0 <= i < k
      ensures ProcessData(data[..k])[i] == ProcessData(data)[i]
    {
      EnrichAtLocal(data[..k], data, i);
    }
  }

  /** The enrichment at an index depends only on the reading there and the one before. */
  lemma EnrichAtLocal(a: seq<BatteryData>, b: seq<BatteryData>, index: nat)
    requires index < |a| && index < |b| && a[index] == b[index]
    requires index > 0 ==> a[index - 1] == b[index - 1]
    ensures EnrichAt(a, index) == EnrichAt(b, index)
  {
  }

  // ---------------------------------------------------------------------------
  // Statistics

  function EnergyColumn(data: seq<ProcessedData>): seq<real>
  {
    seq(|data|, i requires 0 <= i < |data| => data[i].energy)
  }

  function AmperHoursColumn(data: seq<ProcessedData>): seq<real>
  {
    seq(|data|, i requires 0 <= i < |data| => data[i].amperHours)
  }

  /**
   * The statistics of a trace: all zero for an empty trace; otherwise the
   * extrema and means of SOC, voltage and current, the left-to-right totals
   * of energy and charge, and the counts of the cycle detector run over the
   * SOC trace.
   */
  function StatsOf(data: seq<ProcessedData>): BatteryStats
  {
    if |data| == 0 then ZeroStats
    else
      var socs := SocColumn(RawColumn(data));
      var voltages := VoltageColumn(RawColumn(data));
      var currents := CurrentColumn(RawColumn(data));
      var cycles := Run(socs);
      BatteryStats(
        Max(socs), Min(socs), Mean(socs),
        Max(voltages), Min(voltages), Mean(voltages),
        Max(currents), Min(currents), Mean(currents),
        Sum(EnergyColumn(data)), Sum(AmperHoursColumn(data)),
        cycles.chargingCycles, cycles.dischargingCycles)
  }

  /**
   * Computes the statistics; the cycle detector is a scan over adjacent
   * pairs that updates two counters and two flags.
   */
  method CalculateStats(data: seq<ProcessedData>) returns (stats: BatteryStats)
    ensures stats == StatsOf(data)
  {
    if |data| == 0 {
      return ZeroStats;
    }
    var socs := SocColumn(RawColumn(data));
    var voltages := VoltageColumn(RawColumn(data));
    var currents := CurrentColumn(RawColumn(data));

    var chargingCycles: nat := 0;
    var dischargingCycles: nat := 0;
    var isCharging := false;
    var isDischarging := false;

    for i := 1 to |data|
      invariant Detector(chargingCycles, dischargingCycles, isCharging, isDischarging) == Run(socs[..i])
    {
      var prevSOC := data[i - 1].soc;
      var currentSOC := data[i].soc;
      if currentSOC > prevSOC {
        if !isCharging {
          chargingCycles := chargingCycles + 1;
          isCharging := true;
          isDischarging := false;
        }
      } else if currentSOC < prevSOC {
        if !isDischarging {
          dischargingCycles := dischargingCycles + 1;
          isDischarging := true;
          isCharging := false;
        }
      }
      assert socs[..i + 1][..i] == socs[..i];
    }
    assert socs[..|data|] == socs;

    stats := BatteryStats(
      Max(socs), Min(socs), Mean(socs),
      Max(voltages), Min(voltages), Mean(voltages),
      Max(currents), Min(currents), Mean(currents),
      Sum(EnergyColumn(data)), Sum(AmperHoursColumn(data)),
      chargingCycles, dischargingCycles);
  }

  /** An empty trace has the all-zero statistics, counts included. */
  lemma StatsOfEmpty()
    ensures StatsOf([]) == BatteryStats(0.0, 0.0, 0.0, 0.0, 0.0, 0.0, 0.0, 0.0, 0.0, 0.0, 0.0, 0, 0)
  {
  }

  /** Minimum <= mean <= maximum for SOC, voltage and current of a non-empty trace. */
  lemma StatsOrdered(data: seq<ProcessedData>)
    requires |data| > 0
    ensures StatsOf(data).minSOC <= StatsOf(data).avgSOC <= StatsOf(data).maxSOC
    ensures StatsOf(data).minVoltage <= StatsOf(data).avgVoltage <= StatsOf(data).maxVoltage
    ensures StatsOf(data).minCurrent <= StatsOf(data).avgCurrent <= StatsOf(data).maxCurrent
  {
    MeanBetween(SocColumn(RawColumn(data)));
    MeanBetween(VoltageColumn(RawColumn(data)));
    MeanBetween(CurrentColumn(RawColumn(data)));
  }

  /** The extrema are attained by a reading and bound every reading. */
  lemma StatsExtrema(data: seq<ProcessedData>)
    requires |data| > 0
    ensures exists i :: 0 <= i < |data| && data[i].soc == StatsOf(data).maxSOC
    ensures exists i :: 0 <= i < |data| && data[i].soc == StatsOf(data).minSOC
    ensures exists i :: 0 <= i < |data| && data[i].voltage == StatsOf(data).maxVoltage
    ensures exists i :: 0 <= i < |data| && data[i].voltage == StatsOf(data).minVoltage
    ensures exists i :: 0 <= i < |data| && data[i].current == StatsOf(data).maxCurrent
    ensures exists i :: 0 <= i < |data| && data[i].current == StatsOf(data).minCurrent
    ensures forall i :: 0 <= i < |data| ==>
      && StatsOf(data).minSOC <= data[i].soc <= StatsOf(data).maxSOC
      && StatsOf(data).minVoltage <= data[i].voltage <= StatsOf(data).maxVoltage
      && StatsOf(data).minCurrent <= data[i].current <= StatsOf(data).maxCurrent
  {
    var socs := SocColumn(RawColumn(data));
    var voltages := VoltageColumn(RawColumn(data));
    var currents := CurrentColumn(RawColumn(data));
    var st := StatsOf(data);
    assert st.maxSOC == Max(socs) && st.minSOC == Min(socs);
    assert st.maxVoltage == Max(voltages) && st.minVoltage == Min(voltages);
    assert st.maxCurrent == Max(currents) && st.minCurrent == Min(currents);
    var i :| 0 <= i < |socs| && socs[i] == Max(socs);
    var j :| 0 <= j < |socs| && socs[j] == Min(socs);
    var k :| 0 <= k < |voltages| && voltages[k] == Max(voltages);
    var l :| 0 <= l < |voltages| && voltages[l] == Min(voltages);
    var m :| 0 <= m < |currents| && currents[m] == Max(currents);
    var n :| 0 <= n < |currents| && currents[n] == Min(currents);
    forall x | 0 <= x < |data|
      ensures st.minSOC <= data[x].soc <= st.maxSOC
      ensures st.minVoltage <= data[x].voltage <= st.maxVoltage
      ensures st.minCurrent <= data[x].current <= st.maxCurrent
    {
      assert socs[x] == data[x].soc && voltages[x] == data[x].voltage && currents[x] == data[x].current;
    }
  }

  /**
   * The cycle counts of a non-empty trace alternate (they differ by at most
   * one) and count at most one event per adjacent pair of readings.
   */
  lemma StatsCycles(data: seq<ProcessedData>)
    requires |data| > 0
    ensures -1 <= StatsOf(data).chargingCycles - StatsOf(data).dischargingCycles <= 1
    ensures StatsOf(data).chargingCycles + StatsOf(data).dischargingCycles <= |data| - 1
  {
    RunAlternating(SocColumn(RawColumn(data)));
    RunBounded(SocColumn(RawColumn(data)));
  }

  // ---------------------------------------------------------------------------
  // Totals over a whole trace

  /** Hours from the first to the last reading of a trace. */
  function ElapsedHours(data: seq<BatteryData>): real
  {
    if |data| == 0 then 0.0 else HoursBetween(data[0].timestamp, data[|data| - 1].timestamp)
  }

  /** Consecutive intervals add up. */
  lemma HoursAdd(a: int, b: int, c: int)
    ensures HoursBetween(a, b) + HoursBetween(b, c) == HoursBetween(a, c)
  {
    assert (b - a) as real + (c - b) as real == (c - a) as real;
  }

  /** Nothing accumulates over an empty interval, whatever the rate. */
  lemma NoTimeNoAccumulation(r: real, t: int)
    ensures r * HoursBetween(t, t) == 0.0
  {
    assert HoursBetween(t, t) == 0.0;
  }

  /**
   * A column that accumulates a constant rate over the interval between each
   * reading and the one before it, and nothing at the first reading, sums to
   * the rate times the hours from the first reading to the last.
   */
  lemma {:induction false} Telescope(col: seq<real>, data: seq<BatteryData>, rate: real)
    requires |col| == |data| > 0
    requires col[0] == 0.0
    requires forall i :: 0 < i < |col| ==> col[i] == rate * IntervalHours(data, i)
    ensures Sum(col) == rate * ElapsedHours(data)
  {
    var n := |col|;
    if n == 1 {
      assert Sum(col) == Sum([]) + col[0];
      NoTimeNoAccumulation(rate, data[0].timestamp);
    } else {
      var before := ElapsedHours(data[..n - 1]);
      var last := IntervalHours(data, n - 1);
      Telescope(col[..n - 1], data[..n - 1], rate);
      assert Sum(col) == Sum(col[..n - 1]) + col[n - 1];
      assert Sum(col[..n - 1]) + col[n - 1] == rate * before + rate * last == rate * (before + last);
      HoursAdd(data[0].timestamp, data[n - 2].timestamp, data[n - 1].timestamp);
    }
  }

  /**
   * Under a constant power the total energy is that power times the hours
   * from the first reading to the last, however irregular the sampling.
   */
  lemma ConstantPowerEnergy(data: seq<BatteryData>, power: real)
    requires |data| > 0
    requires forall i :: 0 <= i < |data| ==> data[i].voltage * data[i].current == power
    ensures StatsOf(ProcessData(data)).totalEnergy == power * ElapsedHours(data)
  {
    ConstantPowerSteps(data, power);
    Telescope(EnergyColumn(ProcessData(data)), data, power);
    StatsTotals(ProcessData(data));
  }

  /**
   * Under a constant current the total charge is that current times the
   * hours from the first reading to the last, however irregular the sampling.
   */
  lemma ConstantCurrentCharge(data: seq<BatteryData>, current: real)
    requires |data| > 0
    requires forall i :: 0 <= i < |data| ==> data[i].current == current
    ensures StatsOf(ProcessData(data)).totalAmperHours == current * ElapsedHours(data)
  {
    ConstantCurrentSteps(data, current);
    Telescope(AmperHoursColumn(ProcessData(data)), data, current);
    StatsTotals(ProcessData(data));
  }

  /** A later reading of the given power accumulates that power times its interval. */
  lemma EnergyStep(data: seq<BatteryData>, i: nat, power: real)
    requires 0 < i < |data| && data[i].voltage * data[i].current == power
    ensures EnergyColumn(ProcessData(data))[i] == power * IntervalHours(data, i)
  {
    var r := EnrichAt(data, i);
    assert EnergyColumn(ProcessData(data))[i] == r.energy;
    assert r.power == power;
  }

  /** A later reading of the given current accumulates that current times its interval. */
  lemma ChargeStep(data: seq<BatteryData>, i: nat, current: real)
    requires 0 < i < |data| && data[i].current == current
    ensures AmperHoursColumn(ProcessData(data))[i] == current * IntervalHours(data, i)
  {
    assert AmperHoursColumn(ProcessData(data))[i] == EnrichAt(data, i).amperHours;
  }

  /** At a constant power every later reading accumulates that power times its interval. */
  lemma ConstantPowerSteps(data: seq<BatteryData>, power: real)
    requires forall i :: 0 <= i < |data| ==> data[i].voltage * data[i].current == power
    ensures forall i :: 0 < i < |data| ==> EnergyColumn(ProcessData(data))[i] == power * IntervalHours(data, i)
  {
    forall i | 0 < i < |data|
      ensures EnergyColumn(ProcessData(data))[i] == power * IntervalHours(data, i)
    {
      EnergyStep(data, i, power);
    }
  }

  /** At a constant current every later reading accumulates that current times its interval. */
  lemma ConstantCurrentSteps(data: seq<BatteryData>, current: real)
    requires forall i :: 0 <= i < |data| ==> data[i].current == current
    ensures forall i :: 0 < i < |data| ==> AmperHoursColumn(ProcessData(data))[i] == current * IntervalHours(data, i)
  {
    forall i | 0 < i < |data|
      ensures AmperHoursColumn(ProcessData(data))[i] == current * IntervalHours(data, i)
    {
      ChargeStep(data, i, current);
    }
  }

  /** The totals are the left-to-right sums of the energy and charge columns. */
  lemma StatsTotals(data: seq<ProcessedData>)
    ensures StatsOf(data).totalEnergy == Sum(EnergyColumn(data))
    ensures StatsOf(data).totalAmperHours == Sum(AmperHoursColumn(data))
  {
  }

  /** A single reading: its own values are the extrema and means, and nothing accumulates. */
  lemma SingleReading(r: BatteryData)
    ensures StatsOf(ProcessData([r])) == BatteryStats(
      r.soc, r.soc, r.soc, r.voltage, r.voltage, r.voltage, r.current, r.current, r.current,
      0.0, 0.0, 0, 0)
  {
    var out := ProcessData([r]);
    MeanOfConstant(SocColumn(RawColumn(out)), r.soc);
    MeanOfConstant(VoltageColumn(RawColumn(out)), r.voltage);
    MeanOfConstant(CurrentColumn(RawColumn(out)), r.current);
    assert EnergyColumn(out) == [0.0] && AmperHoursColumn(out) == [0.0];
    assert Sum([0.0]) == Sum([]) + 0.0;
  }

  /** Four hourly readings at 3.7 V and 2 A with a rising SOC. */
  const HourlyCharge := [
    BatteryData(0, 10.0, 3.7, 2.0),
    BatteryData(3600000, 20.0, 3.7, 2.0),
    BatteryData(7200000, 30.0, 3.7, 2.0),
    BatteryData(10800000, 40.0, 3.7, 2.0)]

  /**
   * The hourly charging trace is one charging cycle, no discharging cycle,
   * 22.2 Wh and 6 Ah.
   */
  lemma HourlyChargeExample()
    ensures StatsOf(ProcessData(HourlyCharge)).chargingCycles == 1
    ensures StatsOf(ProcessData(HourlyCharge)).dischargingCycles == 0
    ensures StatsOf(ProcessData(HourlyCharge)).totalEnergy == 22.2
    ensures StatsOf(ProcessData(HourlyCharge)).totalAmperHours == 6.0
  {
    HourlyChargeEnergy();
    HourlyChargeAmperHours();
    HourlyChargeCycles();
  }

  /** The hourly trace spans three hours. */
  lemma HourlyChargeSpan()
    ensures ElapsedHours(HourlyCharge) == 3.0
  {
  }

  /** The hourly trace stores 7.4 W x 3 h = 22.2 Wh. */
  lemma HourlyChargeEnergy()
    ensures StatsOf(ProcessData(HourlyCharge)).totalEnergy == 22.2
  {
    HourlyChargeSpan();
    ConstantPowerEnergy(HourlyCharge, 7.4);
  }

  /** The hourly trace moves 2 A x 3 h = 6 Ah. */
  lemma HourlyChargeAmperHours()
    ensures StatsOf(ProcessData(HourlyCharge)).totalAmperHours == 6.0
  {
    HourlyChargeSpan();
    ConstantCurrentCharge(HourlyCharge, 2.0);
  }

  /** The rising hourly trace is one charging run, ending in the charging state. */
  lemma HourlyChargeCycles()
    ensures Run(SocColumn(RawColumn(ProcessData(HourlyCharge)))) == Detector(1, 0, true, false)
  {
    var socs := SocColumn(RawColumn(ProcessData(HourlyCharge)));
    assert socs == [10.0, 20.0, 30.0, 40.0];
    RunRising(socs);
  }
}
