/** Runs of the client, from its empty start, in which what one might expect fails. */
module ClientWitnesses {
  import opened Common
  import opened DerModels
  import opened Plant
  import opened PlantProofs
  import H = HandlerSpec
  import HP = HandlerProofs
  import opened ClientSpec
  import opened ClientProofs
  import opened SweepProofs
  import opened ClientSafety
  import opened StopProofs

  const SETTINGS := Settings(H.Settings(PLANT, 10, 0), 10, false)

  const TIMES := H.Times(0, 0, 0, 0)

  /** The first write is acknowledged. */
  const ACKS := Env([], [Call(true, [Try(false, Fine)])])

  const NO_CANCEL := CancelEnv(TIMES, Env([], []), Env([], []))

  const MESSAGE := MessageEnv(0, 0, 0, PassEnv(false, false, TIMES, ACKS, NO_CANCEL, false), NO_CANCEL)

  function SetpointBase(watts: int): ControlBase {
    ControlBase(Some(SignedPerCent(watts, 0)), None, None, None, None)
  }

  function SetpointControl(id: MRID, watts: int): Control {
    Control(id, 0, None, None, None, None, Some(SetpointBase(watts)))
  }

  /** A setpoint control processed first, under the limits of the plant or beyond them. */
  function First(id: MRID, watts: int): Op {
    Process(SetpointControl(id, watts), Program(9, 1), MESSAGE)
  }

  lemma SetpointActs(id: MRID, watts: int)
    ensures ActionOf(SetpointControl(id, watts)) == Setpoint(watts as real)
    ensures ModesOf(SetpointControl(id, watts)) == [FixedWMode]
  {
    assert SetpointBase(watts).fixedW.value.ToWatts() == watts as real;
  }

  lemma SetpointOutcome(h: H.Handler, c: Control, watts: int)
    requires H.Wf(h) && !h.plant.stopped && h.plant.soc == None
    requires c.interval == None && ActionOf(c) == Setpoint(watts as real)
    ensures var h' := H.HandleControl(SETTINGS.handler, h, c, TIMES, ACKS); var e := h'.objs[|h.objs|];
      && e.control == c && e.status == (if -5000 <= watts <= 5000 then Completed else Failed)
      && h'.active == Some(|h.objs|) && !h'.plant.stopped && h'.plant.soc == None
  {
    hide SetPower;
    RegisterAfter(h.plant, watts);
    var h0 := H.Allocate(h, c, 0);
    var h1 := H.Execute(SETTINGS.handler, h0, |h.objs|, 0, ACKS);
    assert h1.objs[|h.objs|].control == c && h1.active == Some(|h.objs|);
  }

  lemma RegisterAfter(s: State, watts: int)
    requires !s.stopped && s.soc == None
    ensures var (r, t) := SetPower(PLANT, watts as real, ACKS, s);
      !t.stopped && t.soc == None && (r.Success() <==> -5000 <= watts <= 5000)
  {
    var f := Power(watts as real, Encode(0.01, watts as real), None);
    assert ACKS.CallAt(0).TryAt(0) == Try(false, Fine);
    assert Tries(2, f, ACKS.CallAt(0), 0, false, s).1.stopped == false;
    assert Attempts(PLANT.writer.value, watts as real, None, 0, ACKS, s).1.stopped == false;
    assert ReplyTo(2, ACKS.CallAt(0)) == Ack && Reaches(PLANT.writer.value, ACKS, 0, 0);
    RequestIsSafe(PLANT, watts as real, ACKS, s, false);
    InformativeAttempts(PLANT.writer.value, ACKS, 0);
  }

  /** The slots of the modes, in this order, belong to the first control, and no other slot is taken. */
  ghost predicate Holds(slots: Dict<Mode, nat>, modes: seq<Mode>) {
    && slots.keys == modes
    && (forall m :: m in slots.vals <==> m in modes)
    && (forall m :: m in slots.vals ==> slots.vals[m] == 0)
  }

  /** The first control takes its slots. */
  lemma {:induction false} FirstOccupies(c: Client, modes: seq<Mode>, rest: seq<Mode>)
    requires Wf(c) && |c.objs| == 1 && NoDuplicates(modes + rest) && Holds(c.slots, modes)
    ensures Holds(Occupy(c, 0, rest).slots, modes + rest)
    decreases |rest|
  {
    if rest == [] {
      assert modes + rest == modes;
    } else {
      assert modes + rest == modes + [rest[0]] + rest[1..];
      assert rest[0] !in modes by {
        assert (modes + rest)[|modes|] == rest[0] && (modes + rest)[..|modes|] == modes;
      }
      FirstOccupies(c.(slots := c.slots.Put(rest[0], 0)), modes + [rest[0]], rest[1..]);
    }
  }

  /** The state after the first control: it has run and holds its slots. */
  lemma AfterFirst(t: Control, watts: int)
    requires t.interval == None && ActionOf(t) == Setpoint(watts as real)
    ensures var c := Step(SETTINGS, START, Process(t, Program(9, 1), MESSAGE));
      && |c.objs| == 1 && c.objs[0] == Tracked(t, Program(9, 1), 0, 0, c.objs[0].status)
      && c.objs[0].status == (if -5000 <= watts <= 5000 then Completed else Failed)
      && Holds(c.slots, ModesOf(t))
      && c.processed == [t.mRID] && c.tracked == Dict([t.mRID], map[t.mRID := 0]) && c.activeDefault == None
      && c.handler == H.HandleControl(SETTINGS.handler, H.START, t, TIMES, ACKS)
  {
    hide H.HandleControl, ExecutePass;
    var c := Track(START, Tracked(t, Program(9, 1), 0, 0, Pending));
    FirstPass(c, t, watts);
    assert Admit(SETTINGS, START, t, Program(9, 1), MESSAGE) == ExecutePass(SETTINGS, c, 0, 0, MESSAGE.pass);
  }

  lemma {:induction false} NothingToResolve(c: Client, modes: seq<Mode>)
    requires Wf(c) && |c.objs| == 1 && c.slots.vals == map[]
    ensures Resolve(c, 0, modes) == (false, c)
    decreases |modes|
  {
    if modes != [] {
      NothingToResolve(c, modes[1..]);
    }
  }

  lemma FirstPass(c: Client, t: Control, watts: int)
    requires Wf(c) && c.handler == H.START && c.slots == Dict([], map[])
    requires c.objs == [Tracked(t, Program(9, 1), 0, 0, Pending)]
    requires t.interval == None && ActionOf(t) == Setpoint(watts as real)
    ensures var d := ExecutePass(SETTINGS, c, 0, 0, MESSAGE.pass);
      && |d.objs| == 1 && d.objs[0] == Tracked(t, Program(9, 1), 0, 0, d.objs[0].status)
      && d.objs[0].status == (if -5000 <= watts <= 5000 then Completed else Failed)
      && Holds(d.slots, ModesOf(t))
      && d.processed == c.processed && d.tracked == c.tracked && d.activeDefault == None
      && d.handler == H.HandleControl(SETTINGS.handler, H.START, t, TIMES, ACKS)
  {
    assert NoDuplicates(ModesOf(t)) && !IsDeEnergize(t);
    SetpointOutcome(H.START, t, watts);
    hide H.HandleControl, ModesOf, ActionOf, Resolve, Occupy, NoDuplicates;
    var c0 := Enlist(c, 0, 0);
    NothingToResolve(c0, ModesOf(t));
    var c1 := HandOver(SETTINGS, c0, 0, MESSAGE.pass);
    FirstOccupies(Note(c1, 0), [], ModesOf(t));
    assert [] + ModesOf(t) == ModesOf(t);
    TakeSlotsEffects(c1, 0);
  }

  const DEFAULT := Default(Program(9, 1), Some(SetpointBase(1000)))

  lemma DefaultIsWritten(c: Client)
    requires Wf(c) && !c.handler.plant.stopped && c.handler.plant.soc == None && c.activeDefault == None
    requires !AnyActive(c, c.tracked.keys)
    ensures var h := CheckDefault(SETTINGS, c, Some(DEFAULT), ACKS).handler;
      h == c.handler.(plant := h.plant) && LastAcked(h.plant.log) == Some(10)
  {
    assert SetpointBase(1000).fixedW.value.ToWatts() == 1000.0;
    assert ACKS.CallAt(0).TryAt(0) == Try(false, Fine);
    assert ReplyTo(2, ACKS.CallAt(0)) == Ack && Reaches(PLANT.writer.value, ACKS, 0, 0);
    RequestIsSafe(PLANT, 1000.0, ACKS, c.handler.plant, false);
    assert Encode(0.01, 1000.0) == 10;
  }

  /** A setpoint of 4000 W is COMPLETED and owns the PCS; then a default control of 1000 W is written past it. */
  lemma DefaultOverwritesSetpoint()
    ensures var h := Run(SETTINGS, START, [First(1, 4000), ApplyDefault(Some(DEFAULT), ACKS)]).handler;
      Claim(SETTINGS.handler, h) == Some(40) && LastAcked(h.plant.log) == Some(10)
  {
    hide Run, ProcessControl, CheckDefault, Claim, LastAcked;
    RunTwo(First(1, 4000), ApplyDefault(Some(DEFAULT), ACKS));
    SetpointIsClaimed();
    DefaultIsWritten(Step(SETTINGS, START, First(1, 4000)));
    ClaimSurvives(Step(SETTINGS, START, First(1, 4000)).handler,
      CheckDefault(SETTINGS, Step(SETTINGS, START, First(1, 4000)), Some(DEFAULT), ACKS).handler);
  }

  lemma ClaimSurvives(h: H.Handler, h': H.Handler)
    requires H.Wf(h) && H.Wf(h') && h' == h.(plant := h'.plant)
    ensures Claim(SETTINGS.handler, h') == Claim(SETTINGS.handler, h)
  {
  }

  lemma SetpointIsClaimed()
    ensures var c := Step(SETTINGS, START, First(1, 4000));
      && Claim(SETTINGS.handler, c.handler) == Some(40)
      && !c.handler.plant.stopped && c.handler.plant.soc == None && c.activeDefault == None
      && !AnyActive(c, c.tracked.keys)
  {
    hide H.HandleControl, ProcessControl;
    SetpointActs(1, 4000);
    AfterFirst(SetpointControl(1, 4000), 4000);
    SetpointOutcome(H.START, SetpointControl(1, 4000), 4000);
    assert Encode(0.01, 4000.0) == 40;
  }

  lemma RunTwo(a: Op, b: Op)
    ensures Run(SETTINGS, START, [a, b]) == Step(SETTINGS, Step(SETTINGS, START, a), b)
  {
    hide Step;
    var d := Step(SETTINGS, START, a);
    assert [a, b][1..] == [b] && [b][1..] == [];
    assert Run(SETTINGS, d, [b]) == Run(SETTINGS, Step(SETTINGS, d, b), []);
  }

  /** The first control exceeds the limits and FAILS; the second would be fine, but is SUPERSEDED by it. */
  lemma FailedHolderBlocks()
    ensures var second := Process(SetpointControl(2, 1000), Program(9, 2), MESSAGE);
      var c := Run(SETTINGS, START, [First(1, 9000), second]);
      |c.objs| == 2 && c.objs[0].status == Failed && c.objs[1].status == Superseded
  {
    hide H.HandleControl, CarryOut, Run;
    var control := SetpointControl(2, 1000);
    var second := Process(control, Program(9, 2), MESSAGE);
    SetpointActs(1, 9000);
    AfterFirst(SetpointControl(1, 9000), 9000);
    SetpointOutcome(H.START, SetpointControl(1, 9000), 9000);
    RunTwo(First(1, 9000), second);
    var c := Step(SETTINGS, START, First(1, 9000));
    var d := Track(c, Tracked(control, Program(9, 2), 0, 0, Pending));
    assert ModesOf(control) == [FixedWMode];
    assert d.objs[0] == c.objs[0];
    assert Resolve(Enlist(d, 1, 0), 1, [FixedWMode]) == (true, Enlist(d, 1, 0));
    assert Admit(SETTINGS, c, control, Program(9, 2), MESSAGE) == ExecutePass(SETTINGS, d, 1, 0, MESSAGE.pass);
  }

  // ----- the second slot -----

  /** A setpoint of active and one of reactive power: two modes. */
  const BOTH := Control(1, 0, None, None, None, None,
    Some(ControlBase(Some(SignedPerCent(4000, 0)), Some(SignedPerCent(100, 0)), None, None, None)))

  const OPEN := Control(2, 0, None, None, None, None, Some(ControlBase(None, None, None, Some(false), None)))

  lemma DisconnectIsAcknowledged(s: State)
    requires !s.stopped
    ensures DisconnectPcs(PLANT, ACKS, s).0.Success()
  {
    assert ACKS.CallAt(0).TryAt(0) == Try(false, Fine);
    assert ReplyTo(2, ACKS.CallAt(0)) == Ack && Reaches(PLANT.writer.value, ACKS, 0, 0);
    RequestIsSafe(PLANT, 0.0, ACKS, s, true);
    hide Attempts;
  }

  /** A disconnect whose write is acknowledged completes, while the stop is clear. */
  lemma DisconnectOutcome(h: H.Handler)
    requires H.Wf(h) && !h.plant.stopped
    ensures H.HandleControl(SETTINGS.handler, h, OPEN, TIMES, ACKS).objs[|h.objs|].status == Completed
  {
    hide DisconnectPcs;
    DisconnectIsAcknowledged(h.plant);
    var h0 := H.Allocate(h, OPEN, 0);
    assert ActionOf(OPEN) == Disconnect;
    assert H.Execute(SETTINGS.handler, h0, |h.objs|, 0, ACKS).objs[|h.objs|].status == Completed;
  }

  /** The pass of OPEN completes and sweeps. */
  lemma OpenCompletes(c: Client)
    requires Wf(c) && KeyedById(c) && !c.handler.plant.stopped
    requires |c.objs| == 2 && c.objs[1] == Tracked(OPEN, Program(9, 1), 0, 0, Pending) && ConnectMode !in c.slots.vals
    ensures CompletedSweep(SETTINGS, c, 1, 0, MESSAGE.pass)
    ensures BeforeSweep(SETTINGS, c, 1, 0, MESSAGE.pass).slots == c.slots.Put(ConnectMode, 1)
    ensures BeforeSweep(SETTINGS, c, 1, 0, MESSAGE.pass).objs[0] == c.objs[0]
  {
    hide H.HandleControl, Sweep;
    DisconnectOutcome(c.handler);
    assert ModesOf(OPEN) == [ConnectMode];
    assert Resolve(Enlist(c, 1, 0), 1, [ConnectMode]) == (false, Enlist(c, 1, 0));
    BeforeSweepEffects(SETTINGS, c, 1, 0, MESSAGE.pass);
    SweepEffects(SETTINGS, BeforeSweep(SETTINGS, c, 1, 0, MESSAGE.pass), 2, MESSAGE.pass.sweep, 1);
  }

  lemma AfterBoth()
    ensures var c := Step(SETTINGS, START, Process(BOTH, Program(9, 1), MESSAGE));
      && c.objs == [Tracked(BOTH, Program(9, 1), 0, 0, Completed)]
      && Holds(c.slots, [FixedWMode, FixedVarMode])
      && c.processed == [1] && c.tracked == Dict([1], map[1 := 0]) && !c.handler.plant.stopped
  {
    hide H.HandleControl, ProcessControl;
    assert ModesOf(BOTH) == [FixedWMode, FixedVarMode];
    assert BOTH.base.value.fixedW.value.ToWatts() == 4000.0;
    AfterFirst(BOTH, 4000);
    SetpointOutcome(H.START, BOTH, 4000);
  }

  /** A control of two modes is COMPLETED; a disconnect sweeps it. It is SUPERSEDED and loses its first slot, but the
      second one stays taken by it. */
  lemma SecondSlotSurvives()
    ensures var c := Run(SETTINGS, START,
        [Process(BOTH, Program(9, 1), MESSAGE), Process(OPEN, Program(9, 1), MESSAGE)]);
      && |c.objs| == 2 && c.objs[0].control == BOTH && c.objs[0].status == Superseded
      && FixedWMode !in c.slots.vals
      && FixedVarMode in c.slots.vals && c.slots.vals[FixedVarMode] == 0
  {
    hide Step, ExecutePass, Run, ModesOf;
    RunTwo(Process(BOTH, Program(9, 1), MESSAGE), Process(OPEN, Program(9, 1), MESSAGE));
    AfterBoth();
    OpenIsAdmitted(Step(SETTINGS, START, Process(BOTH, Program(9, 1), MESSAGE)));
    var c := Step(SETTINGS, START, Process(BOTH, Program(9, 1), MESSAGE));
    SweptByOpen(Track(c, Tracked(OPEN, Program(9, 1), 0, 0, Pending)));
  }

  lemma OpenIsAdmitted(c: Client)
    requires Wf(c) && c.processed == [1]
    ensures var d := Track(c, Tracked(OPEN, Program(9, 1), 0, 0, Pending));
      Step(SETTINGS, c, Process(OPEN, Program(9, 1), MESSAGE))
      == MarkProcessed(SETTINGS, ExecutePass(SETTINGS, d, |c.objs|, 0, MESSAGE.pass), 2)
  {
    hide ExecutePass;
  }

  lemma SweptByOpen(c: Client)
    requires Wf(c) && KeyedById(c) && !c.handler.plant.stopped
    requires |c.objs| == 2 && c.objs[0] == Tracked(BOTH, Program(9, 1), 0, 0, Completed)
    requires c.objs[1] == Tracked(OPEN, Program(9, 1), 0, 0, Pending)
    requires Holds(c.slots, [FixedWMode, FixedVarMode])
    ensures var d := ExecutePass(SETTINGS, c, 1, 0, MESSAGE.pass);
      && |d.objs| == 2 && d.objs[0].control == BOTH && d.objs[0].status == Superseded
      && FixedWMode !in d.slots.vals
      && FixedVarMode in d.slots.vals && d.slots.vals[FixedVarMode] == 0
  {
    hide H.HandleControl, ExecutePass, BeforeSweep, Sweep, ModesOf;
    OpenCompletes(c);
    CompletedPass(SETTINGS, c, 1, 0, MESSAGE.pass);
    BeforeSweepEffects(SETTINGS, c, 1, 0, MESSAGE.pass);
    var c2 := BeforeSweep(SETTINGS, c, 1, 0, MESSAGE.pass);
    assert c2.slots.keys == [FixedWMode, FixedVarMode, ConnectMode];
    SurvivingSlots(SETTINGS, c2, 2, MESSAGE.pass.sweep, FixedWMode);
    SurvivingSlots(SETTINGS, c2, 2, MESSAGE.pass.sweep, FixedVarMode);
    assert !ComesFirst(c2.slots.vals, c2.slots.keys, FixedVarMode);
    assert ComesFirst(c2.slots.vals, c2.slots.keys, FixedWMode);
    SlotsAfterSweep(SETTINGS, c, 1, 0, MESSAGE.pass, FixedVarMode);
    SweepEffects(SETTINGS, c2, 2, MESSAGE.pass.sweep, 1);
  }
}
