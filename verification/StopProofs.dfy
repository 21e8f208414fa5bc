/** Exactly when an emergency stop is lifted in a run driven by the client, whenever it was set: before a step, between
    the client's own check and the handler, or while the bus is written. */
module StopProofs {
  import opened Common
  import opened DerModels
  import opened Plant
  import opened PlantProofs
  import H = HandlerSpec
  import HP = HandlerProofs
  import opened ClientSpec
  import opened ClientProofs
  import opened SweepProofs
  import opened ClientSafety

  // ----- the account of the stop -----

  /** Stops set, less stops lifted, less the one that is still set. */
  function Balance(s: State): int {
    s.raised - s.resets - if s.stopped then 1 else 0
  }

  /** Between s and t the stop was lifted n times; every other stop set in between, or before, is still set. */
  ghost predicate Lifted(s: State, t: State, n: nat) {
    && t.resets == s.resets + n
    && Balance(t) == Balance(s)
    && (n == 0 && s.stopped ==> t.stopped)
  }

  /** 1 if handling the control lifts the stop, 0 if not. */
  function LiftsOf(c: Control, s: State): nat {
    if HP.Recovers(c) && s.stopped then 1 else 0
  }

  // ----- the handler -----

  lemma ExecuteLifts(st: H.Settings, h: H.Handler, r: nat, now: int, env: Env)
    requires H.Wf(h) && r < |h.objs|
    ensures Lifted(h.plant, H.Execute(st, h, r, now, env).plant, LiftsOf(h.objs[r].control, h.plant))
  {
    match ActionOf(h.objs[r].control) {
      case Connect => ReconnectIsSafe(st.power, env, h.plant.Lift());
      case Disconnect => DisconnectIsSafe(st.power, env, h.plant);
      case DeEnergize => SetPowerIsSafe(st.power, 0.0, env, h.plant);
      case Setpoint(watts) => SetPowerIsSafe(st.power, watts, env, h.plant);
      case _ =>
    }
  }

  lemma HandleLifts(st: H.Settings, h: H.Handler, control: Control, t: H.Times, env: Env)
    requires H.Wf(h)
    ensures Lifted(h.plant, H.HandleControl(st, h, control, t, env).plant,
      if H.StartsLater(control, t.checked) then 0 else LiftsOf(control, h.plant))
  {
    hide H.Execute;
    ExecuteLifts(st, H.Allocate(h, control, t.received), |h.objs|, t.executed, env);
  }

  /** Cancelling the active event lifts the stop to undo a disconnect or de-energize event, and again if the default
      control applied afterwards recovers and meets a stop. */
  function CancelLifts(st: H.Settings, h: H.Handler, id: MRID, env: Env): nat
    requires H.Wf(h)
  {
    if id in h.store.vals && h.active == Some(h.store.vals[id]) && H.Cancellable(h.objs[h.active.value].status) then
      (if IsDeEnergize(h.objs[h.active.value].control) && h.plant.stopped then 1 else 0)
      + (if h.fallback.Some? then LiftsOf(h.fallback.value, H.Recovery(st, h, h.active.value, env)) else 0)
    else 0
  }

  lemma RecoveryLifts(st: H.Settings, h: H.Handler, e: nat, env: Env)
    requires H.Wf(h) && e < |h.objs|
    ensures Lifted(h.plant, H.Recovery(st, h, e, env), if IsDeEnergize(h.objs[e].control) &&
      h.plant.stopped then 1 else 0)
  {
    ReconnectIsSafe(st.power, env, h.plant.Lift());
    SetPowerIsSafe(st.power, 0.0, env, h.plant);
  }

  lemma CancelControlLifts(st: H.Settings, h: H.Handler, id: MRID, t: H.Times, env: Env, env': Env)
    requires HP.Shape(h)
    ensures Lifted(h.plant, H.CancelControl(st, h, id, t, env, env').0.plant, CancelLifts(st, h, id, env))
  {
    hide H.Recovery, H.Execute;
    if h.store.Has(id) && H.Cancellable(h.objs[h.store.vals[id]].status) {
      var e := h.store.vals[id];
      HP.EqualityIsIdentity(h, e);
      if h.active == Some(e) {
        RecoveryLifts(st, h, e, env);
        if h.fallback.Some? {
          var h1 := H.SetStatus(h, e, Cancelled).(active := None, plant := H.Recovery(st, h, e, env));
          ExecuteLifts(st, H.Allocate(h1, h.fallback.value, t.received), |h.objs|, t.executed, env');
        }
      }
    }
  }

  // ----- the client -----

  /** A pass only handles its control: the handler cancel at the end of a sweep never fires. */
  lemma CarryOutHandler(st: Settings, c: Client, r: nat, env: PassEnv)
    requires Wf(c) && KeyedById(c) && r < |c.objs|
    ensures CarryOut(st, c, r, env).handler == Handled(st, c, r, env)
  {
    hide H.HandleControl, TakeSlots, Sweep;
    var c1 := HandOver(st, c, r, env);
    TakeSlotsEffects(c1, r);
    if c1.objs[r].status == Completed && IsDeEnergize(c.objs[r].control) {
      HandledIsActive(st, c, r, env);
      SweepLeavesHandler(st, TakeSlots(c1, r), c.objs[r].control.mRID, env.sweep);
    }
  }

  /** The pass lifts the stop: its control is let through and wins its arbitration, somebody triggers the stop while
      the responses are sent, and the control, which is not put off, connects or energizes. */
  predicate PassLifts(c: Client, r: nat, now: int, env: PassEnv)
    requires Wf(c) && r < |c.objs|
  {
    && !c.handler.plant.stopped
    && !Resolve(Enlist(c, r, now), r, ModesOf(c.objs[r].control)).0
    && env.stopMid
    && !H.StartsLater(c.objs[r].control, env.t.checked)
    && HP.Recovers(c.objs[r].control)
  }

  lemma PassHandler(st: Settings, c: Client, r: nat, now: int, env: PassEnv)
    requires Wf(c) && KeyedById(c) && r < |c.objs|
    ensures ExecutePass(st, c, r, now, env).handler ==
      if c.handler.plant.stopped || Resolve(Enlist(c, r, now), r, ModesOf(c.objs[r].control)).0 then c.handler
      else Handled(st, c, r, env)
  {
    hide CarryOut, H.HandleControl, Resolve, ModesOf;
    ResolveEffects(Enlist(c, r, now), r, ModesOf(c.objs[r].control));
    var (lost, c1) := Resolve(Enlist(c, r, now), r, ModesOf(c.objs[r].control));
    if !c.handler.plant.stopped && !lost {
      CarryOutHandler(st, c1, r, env);
    }
  }

  lemma PassLiftsExactly(st: Settings, c: Client, r: nat, now: int, env: PassEnv)
    requires Wf(c) && KeyedById(c) && r < |c.objs|
    ensures Lifted(c.handler.plant, ExecutePass(st, c, r, now, env).handler.plant, if PassLifts(c, r, now,
      env) then 1 else 0)
  {
    hide ExecutePass, H.HandleControl, Resolve, ModesOf, Enlist;
    PassHandler(st, c, r, now, env);
    var h := c.handler.(plant := c.handler.plant.Disturb(env.stopMid));
    HandleLifts(st.handler, h, c.objs[r].control, env.t, env.env);
  }

  /** The lifts of the executions refs[i..] of a scheduler round. */
  function TickLifts(st: Settings, c: Client, refs: seq<nat>, i: nat, now: int, envs: seq<PassEnv>): nat
    requires Wf(c) && i <= |refs| && forall j :: 0 <= j < |refs| ==> refs[j] < |c.objs|
    decreases |refs| - i
  {
    if i == |refs| then 0
    else
      var env := At(envs, i, Quiet(now));
      var c0 := Interrupt(c, env.stopBefore);
      if Due(c.objs[refs[i]], now) then
        (if PassLifts(c0, refs[i], now, env) then 1 else 0)
        + TickLifts(st, ExecutePass(st, c0, refs[i], now, env), refs, i + 1, now, envs)
      else TickLifts(st, c0, refs, i + 1, now, envs)
  }

  lemma {:induction false} RunDueLifts(st: Settings, c: Client, refs: seq<nat>, i: nat, now: int, envs: seq<PassEnv>)
    requires Wf(c) && KeyedById(c) && i <= |refs| && forall j :: 0 <= j < |refs| ==> refs[j] < |c.objs|
    ensures Lifted(c.handler.plant, RunDue(st, c, refs, i, now, envs).handler.plant, TickLifts(st, c, refs, i, now,
      envs))
    decreases |refs| - i
  {
    hide ExecutePass, PassLifts;
    if i < |refs| {
      var env := At(envs, i, Quiet(now));
      var c0 := Interrupt(c, env.stopBefore);
      if Due(c.objs[refs[i]], now) {
        PassLiftsExactly(st, c0, refs[i], now, env);
        PassOutcome(st, c0, refs[i], now, env);
        RunDueLifts(st, ExecutePass(st, c0, refs[i], now, env), refs, i + 1, now, envs);
      } else {
        RunDueLifts(st, c0, refs, i + 1, now, envs);
      }
    }
  }

  /** The control is executed as soon as it is admitted. */
  predicate RunsAtOnce(t: Tracked, now: int) {
    t.control.interval.Some? ==>
      var iv := t.control.interval.value;
      iv.start + t.offset <= now < iv.start + iv.duration + t.adjustment
  }

  function NewlyTracked(st: Settings, control: Control, program: Program, env: MessageEnv): Tracked {
    Tracked(control, program, RandomStart(st, control, env.pickStart), RandomDuration(st, control, env.pickDuration),
      Pending)
  }

  lemma AdmitLifts(st: Settings, c: Client, control: Control, program: Program, env: MessageEnv)
    requires Wf(c) && KeyedById(c)
    ensures var t := NewlyTracked(st, control, program, env);
      Lifted(c.handler.plant, Admit(st, c, control, program, env).handler.plant,
        if RunsAtOnce(t, env.now) && PassLifts(Track(c, t), |c.objs|, env.now, env.pass) then 1 else 0)
  {
    hide ExecutePass, PassLifts;
    PassLiftsExactly(st, Track(c, NewlyTracked(st, control, program, env)), |c.objs|, env.now, env.pass);
  }

  /** How often a step lifts the stop: in the passes it runs, or by acting on a server cancel; never otherwise. */
  function StepLifts(st: Settings, c: Client, op: Op): nat
    requires Wf(c)
  {
    match op
    case Process(control, program, msg) =>
      if control.mRID !in c.processed then
        var t := NewlyTracked(st, control, program, msg);
        if RunsAtOnce(t, msg.now) && PassLifts(Track(c, t), |c.objs|, msg.now, msg.pass) then 1 else 0
      else if control.currentStatus == Some(CANCELLED_BY_SERVER) && control.mRID !in c.cancelled then
        CancelLifts(st.handler, c.handler, control.mRID, msg.cancel.env)
      else 0
    case Tick(now, envs) => TickLifts(st, c, H.Refs(c.tracked, c.tracked.keys), 0, now, envs)
    case _ => 0
  }

  lemma StepLiftsExactly(st: Settings, c: Client, op: Op)
    requires Protected(st, c, false)
    ensures Lifted(c.handler.plant, Step(st, c, op).handler.plant, StepLifts(st, c, op))
  {
    hide Admit, PassLifts, H.CancelControl, CancelLifts;
    match op {
      case Process(control, program, msg) =>
        if control.mRID !in c.processed {
          AdmitLifts(st, c, control, program, msg);
        } else {
          CancelControlLifts(st.handler, c.handler, control.mRID, msg.cancel.t, msg.cancel.env, msg.cancel.env');
        }
      case Tick(now, envs) => RunDueLifts(st, c, H.Refs(c.tracked, c.tracked.keys), 0, now, envs);
      case Untrack(id) => CancelProgramHolds(c, id, c.tracked.keys);
      case ApplyDefault(best, env) =>
        if best.Some? && best.value.base.Some? && best.value.base.value.fixedW.Some? {
          SetPowerIsSafe(st.handler.power, best.value.base.value.fixedW.value.ToWatts(), env, c.handler.plant);
        }
      case _ =>
    }
  }

  // ----- main results -----

  function RunLifts(st: Settings, c: Client, ops: seq<Op>): nat
    requires Wf(c)
    decreases |ops|
  {
    if ops == [] then 0 else StepLifts(st, c, ops[0]) + RunLifts(st, Step(st, c, ops[0]), ops[1..])
  }

  lemma {:induction false} RunLiftsExactly(st: Settings, c: Client, ops: seq<Op>)
    requires Protected(st, c, false)
    ensures Lifted(c.handler.plant, Run(st, c, ops).handler.plant, RunLifts(st, c, ops))
    decreases |ops|
  {
    hide Step, StepLifts, Guarded;
    if ops != [] {
      StepLiftsExactly(st, c, ops[0]);
      StepProtects(st, c, ops[0], false);
      RunLiftsExactly(st, Step(st, c, ops[0]), ops[1..]);
    }
  }

  lemma {:induction false} SomeStepLifts(st: Settings, c: Client, ops: seq<Op>)
    requires Wf(c)
    ensures RunLifts(st, c, ops) > 0 <==> exists i :: 0 <= i < |ops| && StepLifts(st, Run(st, c, ops[..i]), ops[i]) > 0
    decreases |ops|
  {
    hide Step, StepLifts;
    if ops != [] {
      var d := Step(st, c, ops[0]);
      var rest := ops[1..];
      SomeStepLifts(st, d, rest);
      assert Run(st, c, ops[..0]) == c;
      forall i | 0 <= i < |rest| ensures Run(st, c, ops[..i + 1]) == Run(st, d, rest[..i]) && ops[i + 1] == rest[i] {
        assert ops[..i + 1][1..] == rest[..i];
      }
      if i :| 0 <= i < |rest| && StepLifts(st, Run(st, d, rest[..i]), rest[i]) > 0 {
        assert StepLifts(st, Run(st, c, ops[..i + 1]), ops[i + 1]) > 0;
      }
      if i :| 0 <= i < |ops| && StepLifts(st, Run(st, c, ops[..i]), ops[i]) > 0 {
        assert i > 0 ==> StepLifts(st, Run(st, d, rest[..i - 1]), rest[i - 1]) > 0;
      }
    }
  }

  /** Over every run of the client, every stop set at any moment is still set at the end or was lifted, and some stop
      was lifted if and only if some step acted on a server cancel that lifts it, or ran a pass that won its
      arbitration, had the stop triggered after the client's check, and connects or energizes. */
  lemma StopsAreLiftedExactly(st: Settings, ops: seq<Op>)
    ensures var p := Run(st, START, ops).handler.plant;
      && p.raised == p.resets + (if p.stopped then 1 else 0)
      && p.resets == RunLifts(st, START, ops)
      && (p.resets > 0 <==> exists i :: 0 <= i < |ops| && StepLifts(st, Run(st, START, ops[..i]), ops[i]) > 0)
  {
    RunLiftsExactly(st, START, ops);
    SomeStepLifts(st, START, ops);
  }

  // ----- a stop lifted without a server cancel -----

  const ENERGIZE := Control(1, 0, None, None, None, None, Some(ControlBase(None, None, None, None, Some(true))))

  /** The very first control energizes; the stop is triggered while the responses to it are sent, and is gone at the
      end of the step. */
  lemma EnergizeLiftsStop(st: Settings)
    ensures var t := H.Times(0, 0, 0, 0);
      var none := CancelEnv(t, Env([], []), Env([], []));
      var msg := MessageEnv(0, 0, 0, PassEnv(false, true, t, Env([], []), none, false), none);
      var p := Step(st, START, Process(ENERGIZE, Program(9, 1), msg)).handler.plant;
      !p.stopped && p.raised == p.resets == 1
  {
    var t := H.Times(0, 0, 0, 0);
    var none := CancelEnv(t, Env([], []), Env([], []));
    var msg := MessageEnv(0, 0, 0, PassEnv(false, true, t, Env([], []), none, false), none);
    var tracked := NewlyTracked(st, ENERGIZE, Program(9, 1), msg);
    var c := Track(START, tracked);
    assert ModesOf(ENERGIZE) == [EnergizeMode];
    assert !Resolve(Enlist(c, 0, 0), 0, [EnergizeMode]).0;
    PassHandler(st, c, 0, 0, msg.pass);
    EnergizeLifts(st, START.handler, msg.pass);
    hide ExecutePass;
  }

  lemma EnergizeLifts(st: Settings, h: H.Handler, env: PassEnv)
    requires H.Wf(h)
    ensures var h0 := h.(plant := h.plant.Disturb(env.stopMid));
      H.HandleControl(st.handler, h0, ENERGIZE, env.t, env.env).plant == h0.plant.Lift()
  {
  }
}
