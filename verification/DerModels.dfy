/** The IEEE 2030.5 resources the control stack reads (models/ieee2030_5_models.py). */
module DerModels {
  import opened Common

  /** An mRID is a 128-bit number, written in hex; every resource is taken to have one. */
  type MRID = nat

  datatype Interval = Interval(start: int, duration: int) {

    /** Duration 0 means "until replaced". */
    predicate IsActive(now: int) {
      now >= start && (duration == 0 || now < start + duration)
    }

    function SecondsUntilStart(now: int): int {
      if start - now > 0 then start - now else 0
    }
  }

  function Pow10(n: int): real
    decreases if n < 0 then -n else n
  {
    if n == 0 then 1.0
    else if n > 0 then 10.0 * Pow10(n - 1)
    else Pow10(n + 1) / 10.0
  }

  datatype SignedPerCent = SignedPerCent(value: int, multiplier: int) {
    function ToWatts(): real {
      value as real * Pow10(multiplier)
    }
  }

  /** The multiplier counts powers of ten in either direction: without one the value is the watts, one more of it means
      ten times the watts; and watts add up. This leaves no other reading. */
  lemma WattsByPowersOfTen(v: int, w: int, m: int)
    ensures SignedPerCent(v, 0).ToWatts() == v as real
    ensures SignedPerCent(v, m + 1).ToWatts() == 10.0 * SignedPerCent(v, m).ToWatts()
    ensures SignedPerCent(v + w, m).ToWatts() == SignedPerCent(v, m).ToWatts() + SignedPerCent(w, m).ToWatts()
  {
    assert Pow10(m + 1) == 10.0 * Pow10(m);
  }

  datatype ControlBase = ControlBase(
    fixedW: Option<SignedPerCent>,
    fixedVar: Option<SignedPerCent>,
    maxLimW: Option<int>,
    connect: Option<bool>,
    energize: Option<bool>)

  datatype Control = Control(
    mRID: MRID,
    creationTime: int,
    interval: Option<Interval>,
    currentStatus: Option<int>,
    randomizeStart: Option<int>,
    randomizeDuration: Option<int>,
    base: Option<ControlBase>)

  /** What the handler does with a control; the order of the tests is the order of its branches. */
  datatype Action = Connect | Energize | Disconnect | DeEnergize | Setpoint(watts: real) | NoAction

  function ActionOf(c: Control): Action {
    match c.base
    case None => NoAction
    case Some(b) =>
      if b.connect == Some(true) then Connect
      else if b.energize == Some(true) then Energize
      else if b.connect == Some(false) then Disconnect
      else if b.energize == Some(false) then DeEnergize
      else if b.fixedW.Some? then Setpoint(b.fixedW.value.ToWatts())
      else NoAction
  }

  /** The control commands the PCS: it connects, energizes, stops or sets a power. */
  predicate Acts(c: Control) {
    ActionOf(c) != NoAction
  }

  /** opModConnect=false or opModEnergize=false is present, whatever else the control says. */
  predicate IsDeEnergize(c: Control) {
    c.base.Some? && (c.base.value.connect == Some(false) || c.base.value.energize == Some(false))
  }

  datatype EventStatus = Pending | Scheduled | Active | Completed | Cancelled | Superseded | Failed
}
