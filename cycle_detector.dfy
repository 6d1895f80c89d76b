/**
 * The charge/discharge cycle detector of the statistics: a scan over the SOC
 * trace with two counters and two flags. A "cycle" here is a reversal of the
 * direction in which the SOC moves, not a full charge-discharge round trip.
 */
module CycleDetector {

  /** The detector's state: the two counters and the two direction flags. */
  datatype Detector = Detector(
    chargingCycles: nat,
    dischargingCycles: nat,
    isCharging: bool,
    isDischarging: bool
  )

  /** The state before the scan: nothing counted, no direction seen. */
  const Idle := Detector(0, 0, false, false)

  /**
   * One step of the scan, comparing a reading's SOC with its predecessor's.
   * A rise counts a charging cycle unless the detector is already charging;
   * a fall counts a discharging cycle unless it is already discharging; an
   * equal SOC changes nothing.
   */
  function Step(d: Detector, prevSoc: real, soc: real): Detector
  {
    if soc > prevSoc then
      if !d.isCharging then Detector(d.chargingCycles + 1, d.dischargingCycles, true, false) else d
    else if soc < prevSoc then
      if !d.isDischarging then Detector(d.chargingCycles, d.dischargingCycles + 1, false, true) else d
    else
      d
  }

  /** The detector after scanning the whole trace, pair by pair from the left. */
  function Run(socs: seq<real>): Detector
  {
    if |socs| <= 1 then Idle
    else Step(Run(socs[..|socs| - 1]), socs[|socs| - 2], socs[|socs| - 1])
  }

  // ---------------------------------------------------------------------------
  // A reference description in terms of the trace alone

  /** The direction of the last strict SOC move in the trace: 1 up, -1 down, 0 none. */
  function LastDirection(socs: seq<real>): int
  {
    if |socs| <= 1 then 0
    else if socs[|socs| - 1] > socs[|socs| - 2] then 1
    else if socs[|socs| - 1] < socs[|socs| - 2] then -1
    else LastDirection(socs[..|socs| - 1])
  }

  /** The number of rises that start a rising run (no rise since the last fall). */
  function UpTurns(socs: seq<real>): nat
  {
    if |socs| <= 1 then 0
    else
      var p := socs[..|socs| - 1];
      UpTurns(p) + if socs[|socs| - 1] > socs[|socs| - 2] && LastDirection(p) != 1 then 1 else 0
  }

  /** The number of falls that start a falling run (no fall since the last rise). */
  function DownTurns(socs: seq<real>): nat
  {
    if |socs| <= 1 then 0
    else
      var p := socs[..|socs| - 1];
      DownTurns(p) + if socs[|socs| - 1] < socs[|socs| - 2] && LastDirection(p) != -1 then 1 else 0
  }

  /**
   * The detector counts exactly the turns into a rising and into a falling
   * run, and its flags record the direction of the last strict move.
   */
  lemma {:induction false} RunCountsTurns(socs: seq<real>)
    ensures Run(socs).chargingCycles == UpTurns(socs)
    ensures Run(socs).dischargingCycles == DownTurns(socs)
    ensures Run(socs).isCharging <==> LastDirection(socs) == 1
    ensures Run(socs).isDischarging <==> LastDirection(socs) == -1
  {
    if |socs| > 1 {
      RunCountsTurns(socs[..|socs| - 1]);
    }
  }

  // ---------------------------------------------------------------------------
  // The alternation invariant

  /**
   * The flags are exclusive, both are clear only before the first move, and
   * the counters take turns: the counter of the current direction is equal to
   * the other one or one ahead of it.
   */
  ghost predicate Alternating(d: Detector)
  {
    && !(d.isCharging && d.isDischarging)
    && (!d.isCharging && !d.isDischarging ==> d.chargingCycles == 0 && d.dischargingCycles == 0)
    && (d.isCharging ==> d.chargingCycles == d.dischargingCycles || d.chargingCycles == d.dischargingCycles + 1)
    && (d.isDischarging ==> d.dischargingCycles == d.chargingCycles || d.dischargingCycles == d.chargingCycles + 1)
  }

  /** One step of the scan keeps the counters alternating. */
  lemma StepAlternating(d: Detector, prevSoc: real, soc: real)
    requires Alternating(d)
    ensures Alternating(Step(d, prevSoc, soc))
  {
  }

  /**
   * After any trace the flags are never both set and the two counters differ
   * by at most one.
   */
  lemma {:induction false} RunAlternating(socs: seq<real>)
    ensures Alternating(Run(socs))
    ensures !(Run(socs).isCharging && Run(socs).isDischarging)
    ensures -1 <= Run(socs).chargingCycles - Run(socs).dischargingCycles <= 1
  {
    if |socs| > 1 {
      RunAlternating(socs[..|socs| - 1]);
      StepAlternating(Run(socs[..|socs| - 1]), socs[|socs| - 2], socs[|socs| - 1]);
    }
  }

  /** A trace of n readings has n - 1 adjacent pairs, and each counts at most once. */
  lemma {:induction false} RunBounded(socs: seq<real>)
    requires |socs| > 0
    ensures Run(socs).chargingCycles + Run(socs).dischargingCycles <= |socs| - 1
  {
    if |socs| > 1 {
      RunBounded(socs[..|socs| - 1]);
    }
  }

  // ---------------------------------------------------------------------------
  // Plateaus

  /** An equal pair of SOC values leaves the detector as it is. */
  lemma PlateauStep(d: Detector, soc: real)
    ensures Step(d, soc, soc) == d
  {
  }

  /** The trace with the reading at index i repeated right after it. */
  function Stutter(socs: seq<real>, i: nat): (r: seq<real>)
    requires i < |socs|
    ensures |r| == |socs| + 1
  {
    socs[..i + 1] + [socs[i]] + socs[i + 1..]
  }

  /** Repeating a reading anywhere in the trace changes no count and no flag. */
  lemma {:induction false} RunStutter(socs: seq<real>, i: nat)
    requires i < |socs|
    ensures Run(Stutter(socs, i)) == Run(socs)
  {
    var t := Stutter(socs, i);
    var n := |socs|;
    if i == n - 1 {
      assert t[..n] == socs;
      PlateauStep(Run(socs), socs[i]);
    } else {
      var p := socs[..n - 1];
      assert t[..n] == Stutter(p, i);
      assert t[n - 1] == socs[n - 2] && t[n] == socs[n - 1];
      RunStutter(p, i);
    }
  }

  /** A trace whose SOC never changes counts nothing. */
  lemma {:induction false} RunConstant(socs: seq<real>)
    requires forall i :: 0 < i < |socs| ==> socs[i] == socs[i - 1]
    ensures Run(socs) == Idle
  {
    if |socs| > 1 {
      RunConstant(socs[..|socs| - 1]);
    }
  }

  // ---------------------------------------------------------------------------
  // Monotone traces

  /** A strictly rising trace of two or more readings is one charging cycle. */
  lemma {:induction false} RunRising(socs: seq<real>)
    requires |socs| >= 2
    requires forall i :: 0 < i < |socs| ==> socs[i - 1] < socs[i]
    ensures Run(socs) == Detector(1, 0, true, false)
  {
    if |socs| > 2 {
      RunRising(socs[..|socs| - 1]);
    }
  }

  /** A strictly falling trace of two or more readings is one discharging cycle. */
  lemma {:induction false} RunFalling(socs: seq<real>)
    requires |socs| >= 2
    requires forall i :: 0 < i < |socs| ==> socs[i - 1] > socs[i]
    ensures Run(socs) == Detector(0, 1, false, true)
  {
    if |socs| > 2 {
      RunFalling(socs[..|socs| - 1]);
    }
  }

  /** A single reading counts nothing. */
  lemma RunSingle(soc: real)
    ensures Run([soc]) == Idle
  {
  }

  /** Rise, fall, rise, fall: two cycles of each kind. */
  lemma RunZigZag()
    ensures Run([10.0, 20.0, 15.0, 25.0, 20.0]) == Detector(2, 2, false, true)
  {
    var s := [10.0, 20.0, 15.0, 25.0, 20.0];
    assert s[..4][..3][..2] == [10.0, 20.0];
    assert Run([10.0, 20.0]) == Detector(1, 0, true, false);
    assert s[..4][..3] == [10.0, 20.0, 15.0];
    assert Run([10.0, 20.0, 15.0]) == Detector(1, 1, false, true);
    assert s[..4] == [10.0, 20.0, 15.0, 25.0];
    assert Run([10.0, 20.0, 15.0, 25.0]) == Detector(2, 1, true, false);
  }
}
