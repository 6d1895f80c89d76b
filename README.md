# Battery telemetry core, modelled in Dafny

This project models the data pipeline of the battery dashboard's service
module, `src/services/batteryService.ts`. The pipeline has three steps:

- **The column-to-row zip.** The telemetry API delivers four parallel
  columns: timestamps, voltages, currents and states of charge (SOC). The
  zip turns them into one `BatteryData` reading per timestamp.
- **`processData`.** It enriches every reading with four derived values:
  its instant, its instantaneous power (voltage × current), and the energy
  (Wh) and charge (Ah) accumulated over the interval since the reading
  before it. The first reading is its own predecessor, so it accumulates
  nothing.
- **`calculateStats`.** It summarises a trace:
  - the maximum, minimum and mean of SOC, voltage and current;
  - the totals of energy and charge;
  - the number of charging and discharging cycles found by a direction
    detector. That detector is a loop that updates two counters and two
    flags.

The model has four modules:

- `BatteryTypes` (`battery_types.dfy`): the three record types and the
  all-zero statistics of an empty trace.
- `Reductions` (`reductions.dfy`): maximum, minimum, left-to-right sum and
  mean of a column. It also holds the bounds lemmas on sums and means.
- `CycleDetector` (`cycle_detector.dfy`): the detector's state and one step
  of its scan. The function `Run` folds `Step` over the SOC trace.
  `LastDirection`, `UpTurns` and `DownTurns` describe the same counts from
  the trace alone, as an independent reference. Lemmas relate the detector
  to that reference and prove its alternation invariant, its bounds and its
  behaviour on plateaus and on monotone traces.
- `BatteryService` (`battery_service.dfy`): the zip, the enrichment
  (`EnrichAt`, `ProcessData`) and the statistics:
  - the specification function `StatsOf`;
  - the imperative `CalculateStats`, whose cycle loop is proved against
    `Run` by a loop invariant;
  - the lemmas about extrema, means, cycle counts and totals.

Two modelling choices apply throughout:

- **Numbers are mathematical reals.** The identities proved hold exactly, so
  there is no rounding.
- **Timestamps are instants already parsed to integer milliseconds.** The
  `datetime` of an enriched reading is that same instant.

The source's behaviour is modelled where it differs from the behaviour one
might recommend:

- Time intervals are not validated, so a timestamp earlier than its
  predecessor gives a negative interval, hence energy and charge of the
  opposite sign to the power and the current.
- A cycle is a turn of the SOC direction, not a full charge-discharge round
  trip.
- An empty trace gives the all-zero record.
- No error is raised for a malformed input. An unparseable timestamp is
  outside the model (see below), and the source itself has no error path
  for it.

## Model

| member | source | states |
|---|---|---|
| BatteryTypes.ZeroStats | src/services/batteryService.ts:75-81 | contract-less definition of the all-zero record; its use for the empty trace is stated by `StatsOfEmpty` |
| BatteryService.IntervalHours | src/services/batteryService.ts:57-58 | contract-less definition: `HoursBetween` from the previous reading's instant to this one's; its sign, zero case and scale are stated by `HoursBetween`, and its telescoping by `Telescope` |
| BatteryService.SocColumn | src/services/batteryService.ts:84 | contract-less definition of the SOC column (`data.map(d => d.soc)`, applied to the readings behind the enriched trace); stated by `ZipColumns` and `ZipOfColumns` |
| BatteryService.VoltageColumn | src/services/batteryService.ts:85 | contract-less definition of the voltage column; stated by `ZipColumns` and `ZipOfColumns` |
| BatteryService.CurrentColumn | src/services/batteryService.ts:86 | contract-less definition of the current column; stated by `ZipColumns` and `ZipOfColumns` |
| BatteryService.StatsOf | src/services/batteryService.ts:73-128 | contract-less definition of the statistics, against which `CalculateStats` is proved; its properties are stated by `StatsOfEmpty`, `StatsOrdered`, `StatsExtrema`, `StatsCycles`, `StatsTotals`, `SingleReading`, `ConstantPowerEnergy` and `ConstantCurrentCharge` |
| Reductions.Sum | src/services/batteryService.ts:116 | contract-less definition of `reduce((a, b) => a + b, 0)`, also used for the totals at lines 123-124; stated by `SumConstant` and `SumBetween` |
| Reductions.Mean | src/services/batteryService.ts:116 | contract-less definition of the sum divided by the length, also used at lines 119 and 122; stated by `MeanWithin`, `MeanBetween`, `MeanConstant` and `MeanOfConstant` |
| CycleDetector.Step | src/services/batteryService.ts:98-110 | contract-less definition of one loop iteration; stated by `StepAlternating` and `PlateauStep` |
| CycleDetector.Run | src/services/batteryService.ts:94-111 | contract-less definition of the whole loop as a fold of `Step`, against which `CalculateStats` is proved; stated by `RunCountsTurns`, `RunAlternating`, `RunBounded`, `RunStutter`, `RunConstant`, `RunRising`, `RunFalling` |
| BatteryService.EnergyColumn | src/services/batteryService.ts:123 | contract-less definition of the `d.energy` projection inside the total-energy `reduce`; its sum is stated by `StatsTotals`, `Telescope` and `ConstantPowerEnergy` |
| BatteryService.AmperHoursColumn | src/services/batteryService.ts:124 | contract-less definition of the `d.amperHours` projection inside the total-charge `reduce`; its sum is stated by `StatsTotals`, `Telescope` and `ConstantCurrentCharge` |
| BatteryService.ElapsedHours | src/services/batteryService.ts:57-58 | contract-less definition of the hours from the first reading's instant to the last one's (zero for an empty trace); the per-interval hours telescope to it by `Telescope` |
| BatteryService.Zip | src/services/batteryService.ts:36-41 | the zip has exactly one row per timestamp |
| BatteryService.ZipColumns | src/services/batteryService.ts:36-41 | reading each column back from the zipped rows gives the timestamps, and the leading part of every other column, unchanged: the zip loses and reorders nothing |
| BatteryService.ZipOfColumns | src/services/batteryService.ts:36-41 | every row-wise trace is the zip of its own columns (the other direction of the round trip) |
| BatteryService.HoursBetween | src/services/batteryService.ts:57-58 | the interval in hours is negative exactly when the later instant precedes the earlier one, zero exactly when they coincide, and equals the millisecond difference divided by 1000·60·60 |
| BatteryService.EnrichAt | src/services/batteryService.ts:52-69 | an enriched reading keeps the raw reading's fields, its instant is its timestamp, and its power is voltage × current. At index 0 its energy and charge are 0. Later, they are power × hours and current × hours since the previous reading |
| BatteryService.ProcessData | src/services/batteryService.ts:51-71 | enrichment keeps length and order; every reading gets its own raw fields, instant and power; the first accumulates nothing; every later one accumulates over the interval since its predecessor |
| BatteryService.ProcessKeepsReadings | src/services/batteryService.ts:63-69 | stripping the derived fields from the enriched trace gives back the input trace |
| BatteryService.ProcessPrefix | src/services/batteryService.ts:52-57 | enriching a prefix of the trace gives the same prefix of the enriched trace: no reading depends on a later one |
| BatteryService.EnrichAtLocal | src/services/batteryService.ts:52-61 | a reading's enrichment depends only on that reading and the one before it |
| BatteryService.CalculateStats | src/services/batteryService.ts:73-128 | the imperative computation, including its cycle-detection loop over adjacent pairs, returns exactly `StatsOf`: zeros for an empty trace, otherwise the extrema, means, totals and the detector's counts |
| BatteryService.StatsOfEmpty | src/services/batteryService.ts:74-82 | an empty trace yields every statistic zero, both cycle counts included |
| BatteryService.StatsOrdered | src/services/batteryService.ts:114-122 | for a non-empty trace, minimum <= mean <= maximum for SOC, voltage and current |
| BatteryService.StatsExtrema | src/services/batteryService.ts:114-122 | each maximum and minimum is the value of some reading, and every reading lies between them |
| BatteryService.StatsCycles | src/services/batteryService.ts:89-111 | the two cycle counts differ by at most one, and together they are at most the number of adjacent pairs |
| BatteryService.StatsTotals | src/services/batteryService.ts:123-124 | total energy and total charge are the left-to-right sums of the per-reading energy and charge |
| BatteryService.Telescope | src/services/batteryService.ts:57-61 | a column that is zero at the first reading, and at every later one equals a fixed rate times the interval since its predecessor, sums to the rate times the hours from the first reading to the last |
| BatteryService.EnergyStep | src/services/batteryService.ts:54-60 | a later reading whose voltage × current equals a given power accumulates that power times its interval |
| BatteryService.ChargeStep | src/services/batteryService.ts:57-61 | a later reading whose current equals a given current accumulates that current times its interval |
| BatteryService.ConstantPowerSteps | src/services/batteryService.ts:54-60 | at a constant power, each later reading's energy is that power times its interval |
| BatteryService.ConstantCurrentSteps | src/services/batteryService.ts:57-61 | at a constant current, each later reading's charge is that current times its interval |
| BatteryService.ConstantPowerEnergy | src/services/batteryService.ts:123 | at a constant power, the total energy is power × hours from the first reading to the last, however irregular the sampling |
| BatteryService.ConstantCurrentCharge | src/services/batteryService.ts:124 | at a constant current, the total charge is current × hours from the first reading to the last, however irregular the sampling |
| BatteryService.SingleReading | src/services/batteryService.ts:73-128 | a one-reading trace has that reading's values as every extremum and mean, no energy, no charge and no cycles |
| BatteryService.HourlyChargeEnergy | src/services/batteryService.ts:123 | four hourly readings at 3.7 V and 2 A store 22.2 Wh |
| BatteryService.HourlyChargeAmperHours | src/services/batteryService.ts:124 | the same trace moves 6 Ah |
| BatteryService.HourlyChargeCycles | src/services/batteryService.ts:94-111 | the same trace with rising SOC is one charging run |
| BatteryService.HourlyChargeExample | src/services/batteryService.ts:73-128 | the same trace gives one charging cycle, no discharging cycle, 22.2 Wh and 6 Ah |
| Reductions.Max | src/services/batteryService.ts:114 | the maximum of a non-empty column is one of its elements and bounds every element from above |
| Reductions.Min | src/services/batteryService.ts:115 | the minimum of a non-empty column is one of its elements and bounds every element from below |
| Reductions.SumConstant | src/services/batteryService.ts:116 | a column of one repeated value sums to that value times its length |
| Reductions.SumBetween | src/services/batteryService.ts:116 | a column whose elements lie between lo and hi sums to between n·lo and n·hi |
| Reductions.MeanWithin | src/services/batteryService.ts:116 | the mean of a column whose elements lie between lo and hi lies there too |
| Reductions.MeanBetween | src/services/batteryService.ts:114-116 | the mean lies between the minimum and the maximum |
| Reductions.MeanConstant | src/services/batteryService.ts:116 | the mean of a column of one repeated value is that value (from `SumConstant`) |
| Reductions.MeanOfConstant | src/services/batteryService.ts:114-116 | a constant column has that constant as minimum, maximum and mean |
| CycleDetector.RunCountsTurns | src/services/batteryService.ts:94-111 | the charging count is the number of rises that start a rising run, the discharging count the number of falls that start a falling run, and each flag is set exactly when the last strict SOC move went in its direction |
| CycleDetector.StepAlternating | src/services/batteryService.ts:98-110 | one step keeps the flags exclusive and the counters alternating |
| CycleDetector.RunAlternating | src/services/batteryService.ts:89-111 | after any trace the flags are never both set and the counts differ by at most one |
| CycleDetector.RunBounded | src/services/batteryService.ts:94-111 | the two counts together are at most the number of adjacent pairs |
| CycleDetector.PlateauStep | src/services/batteryService.ts:98-110 | an equal pair of SOC values changes nothing |
| CycleDetector.RunStutter | src/services/batteryService.ts:94-111 | repeating a reading anywhere in the trace changes no count and no flag |
| CycleDetector.RunConstant | src/services/batteryService.ts:94-111 | a trace whose SOC never changes counts nothing and leaves both flags clear |
| CycleDetector.RunRising | src/services/batteryService.ts:98-103 | a strictly rising trace is exactly one charging cycle, with the charging flag set |
| CycleDetector.RunFalling | src/services/batteryService.ts:104-109 | a strictly falling trace is exactly one discharging cycle, with the discharging flag set |
| CycleDetector.RunSingle | src/services/batteryService.ts:94 | a one-reading trace counts nothing (the loop body never runs) |
| CycleDetector.RunZigZag | src/services/batteryService.ts:94-111 | rise, fall, rise, fall counts two cycles of each kind and ends discharging |

## Left out

- Fetching (`fetchBatteryData`, src/services/batteryService.ts:6-33 and 43-47): the HTTP request, its status check, the JSON-shape checks and error logging are I/O. Only the column zip they feed is modelled.
- Zip: requires every column to be at least as long as the timestamp column. With a shorter column the source builds readings whose missing fields are `undefined`, and the model has no value for that.
- Date parsing: `new Date(item.timestamp)` is not modelled. A timestamp is an integer instant in milliseconds, so no invalid-date value exists and its propagation as NaN is not captured.
- Floating point: JavaScript numbers are IEEE doubles. The model uses exact reals, so rounding, NaN and Infinity (for example, from a non-numeric field) are not modelled.
- `Math.max(...xs)` / `Math.min(...xs)`: the argument-count limit of the spread call on very long traces is not modelled.
- The React components and charts that display these values (and the commented-out auto-refresh) are not part of this model, nor are the type declarations in src/types/battery.ts beyond the three records.
