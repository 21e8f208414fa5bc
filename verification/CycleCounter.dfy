/** Charge/discharge cycles counted from the state of charge (client.py). Percentages are reals. */
module CycleCounter {
  import opened Common

  datatype Cycles = Cycles(count: nat, charge: real, discharge: real, lastSoc: Option<real>)

  const START := Cycles(0, 0.0, 0.0, None)
  const STEP := 10.0

  function Rise(from: Option<real>, to: real): (d: real)
    ensures d >= 0.0
  {
    if from.Some? && to > from.value then to - from.value else 0.0
  }

  function Fall(from: Option<real>, to: real): (d: real)
    ensures d >= 0.0
  {
    if from.Some? && to < from.value then from.value - to else 0.0
  }

  function Sample(s: Cycles, soc: real): Cycles {
    var charge := s.charge + Rise(s.lastSoc, soc);
    var discharge := s.discharge + Fall(s.lastSoc, soc);
    if s.lastSoc.Some? && charge >= STEP && discharge >= STEP
    then Cycles(s.count + 1, charge - STEP, discharge - STEP, Some(soc))
    else Cycles(s.count, charge, discharge, Some(soc))
  }

  function Samples(s: Cycles, socs: seq<real>): Cycles
    decreases |socs|
  {
    if socs == [] then s else Samples(Sample(s, socs[0]), socs[1..])
  }

  // ----- what the samples really did -----

  function TotalRise(from: Option<real>, socs: seq<real>): (d: real)
    ensures d >= 0.0
    decreases |socs|
  {
    if socs == [] then 0.0 else Rise(from, socs[0]) + TotalRise(Some(socs[0]), socs[1..])
  }

  function TotalFall(from: Option<real>, socs: seq<real>): (d: real)
    ensures d >= 0.0
    decreases |socs|
  {
    if socs == [] then 0.0 else Fall(from, socs[0]) + TotalFall(Some(socs[0]), socs[1..])
  }

  /** Whole cycles in a charge and a discharge. */
  function WholeCycles(charge: real, discharge: real): int {
    (if charge <= discharge then charge / STEP else discharge / STEP).Floor
  }

  /** Conservation: whatever the SOC history, each percent of rise is in a counted cycle or in the charge accumulator,
      each percent of fall in a counted cycle or in the discharge accumulator. */
  lemma {:induction false} RiseAndFallAreConserved(s: Cycles, socs: seq<real>)
    ensures var t := Samples(s, socs);
      && s.count <= t.count
      && TotalRise(s.lastSoc, socs) == STEP * (t.count - s.count) as real + t.charge - s.charge
      && TotalFall(s.lastSoc, socs) == STEP * (t.count - s.count) as real + t.discharge - s.discharge
    decreases |socs|
  {
    if socs != [] {
      RiseAndFallAreConserved(Sample(s, socs[0]), socs[1..]);
    }
  }

  /** The accumulators stay non-negative, and their difference is the net change of the SOC. */
  lemma {:induction false} AccumulatorsTrackSoc(s: Cycles, socs: seq<real>)
    requires s.charge >= 0.0 && s.discharge >= 0.0
    ensures var t := Samples(s, socs);
      && t.charge >= 0.0 && t.discharge >= 0.0
      && (socs != [] ==> t.lastSoc == Some(socs[|socs| - 1]))
      && (socs != [] && s.lastSoc.Some? ==>
            t.charge - t.discharge == s.charge - s.discharge + socs[|socs| - 1] - s.lastSoc.value)
    decreases |socs|
  {
    if socs != [] {
      AccumulatorsTrackSoc(Sample(s, socs[0]), socs[1..]);
    }
  }

  lemma FloorIsLargest(x: real, n: int)
    ensures n as real <= x <==> n <= x.Floor
  {
  }

  /** From a fresh counter: every percent is accounted for, and the count never exceeds the whole cycles contained in
      the total rise and the total fall. */
  lemma CountIsConserved(socs: seq<real>)
    ensures var t := Samples(START, socs); var rise := TotalRise(None, socs); var fall := TotalFall(None, socs);
      && rise == 10.0 * t.count as real + t.charge
      && fall == 10.0 * t.count as real + t.discharge
      && (socs != [] ==> t.charge - t.discharge == socs[|socs| - 1] - socs[0])
      && t.count <= WholeCycles(rise, fall)
  {
    RiseAndFallAreConserved(START, socs);
    AccumulatorsTrackSoc(START, socs);
    if socs != [] {
      AccumulatorsTrackSoc(Sample(START, socs[0]), socs[1..]);
    }
    var t := Samples(START, socs);
    FloorIsLargest(TotalRise(None, socs) / STEP, t.count);
    FloorIsLargest(TotalFall(None, socs) / STEP, t.count);
  }

  /** n further samples at the same SOC. */
  function Flat(soc: real, n: nat): (socs: seq<real>)
    ensures |socs| == n
  {
    seq(n, _ => soc)
  }

  /** One sample counts at most one cycle; flat samples count the cycles still waiting in the accumulators, one each. */
  lemma {:induction false} FlatSamplesCatchUp(s: Cycles, n: nat)
    requires s.lastSoc.Some? && s.charge >= 0.0 && s.discharge >= 0.0
    ensures var waiting := WholeCycles(s.charge, s.discharge);
      && waiting >= 0
      && Samples(s, Flat(s.lastSoc.value, n)).count == s.count + if n <= waiting then n else waiting
    decreases n
  {
    var soc := s.lastSoc.value;
    FloorIsLargest(s.charge / STEP, 1);
    FloorIsLargest(s.discharge / STEP, 1);
    if n > 0 {
      var t := Sample(s, soc);
      assert Flat(soc, n)[1..] == Flat(soc, n - 1);
      FlatSamplesCatchUp(t, n - 1);
      if s.charge >= STEP && s.discharge >= STEP {
        OneCycleLess(s.charge, s.discharge);
      }
    }
  }

  lemma OneCycleLess(charge: real, discharge: real)
    ensures WholeCycles(charge - STEP, discharge - STEP) == WholeCycles(charge, discharge) - 1
  {
    var x := if charge <= discharge then charge / STEP else discharge / STEP;
    assert (x - 1.0).Floor == x.Floor - 1;
  }

  /** After enough flat samples the count reaches the whole cycles of the history exactly. */
  lemma CountCatchesUp(socs: seq<real>, n: nat)
    requires socs != [] && n >= WholeCycles(Samples(START, socs).charge, Samples(START, socs).discharge)
    ensures Samples(Samples(START, socs), Flat(socs[|socs| - 1], n)).count
      == WholeCycles(TotalRise(None, socs), TotalFall(None, socs))
  {
    CountIsConserved(socs);
    AccumulatorsTrackSoc(START, socs);
    var s := Samples(START, socs);
    FlatSamplesCatchUp(s, n);
    AddWholeCycles(s.charge, s.discharge, s.count);
  }

  lemma {:induction false} AddWholeCycles(charge: real, discharge: real, k: nat)
    ensures WholeCycles(charge + STEP * k as real, discharge + STEP * k as real) == WholeCycles(charge, discharge) + k
  {
    var x := if charge <= discharge then charge / STEP else discharge / STEP;
    assert (x + k as real).Floor == x.Floor + k;
  }

  /** The counter as the client keeps it. */
  class Counter {
    var cycleCount: nat
    var chargeAccumulated: real
    var dischargeAccumulated: real
    var lastSoc: Option<real>

    constructor ()
      ensures View() == START
    {
      cycleCount, chargeAccumulated, dischargeAccumulated, lastSoc := 0, 0.0, 0.0, None;
    }

    function View(): Cycles
      reads this
    {
      Cycles(cycleCount, chargeAccumulated, dischargeAccumulated, lastSoc)
    }

    /** The cycle part of _upload_meter_readings, for a snapshot with active racks. */
    method Update(currentSoc: real)
      modifies this
      ensures View() == Sample(old(View()), currentSoc)
    {
      if lastSoc.Some? {
        var delta := currentSoc - lastSoc.value;
        if delta > 0.0 {
          chargeAccumulated := chargeAccumulated + delta;
        } else if delta < 0.0 {
          dischargeAccumulated := dischargeAccumulated + -delta;
        }
        if chargeAccumulated >= STEP && dischargeAccumulated >= STEP {
          cycleCount := cycleCount + 1;
          chargeAccumulated := chargeAccumulated - STEP;
          dischargeAccumulated := dischargeAccumulated - STEP;
        }
      }
      lastSoc := Some(currentSoc);
    }
  }
}
