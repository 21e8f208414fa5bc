/** The guarantees of the handler and of the power layer, carried over to every run driven by the client. */
module ClientSafety {
  import opened Common
  import opened DerModels
  import opened Plant
  import opened PlantProofs
  import H = HandlerSpec
  import HP = HandlerProofs
  import opened ClientSpec
  import opened ClientProofs

  // ----- what a pass does to the handler -----

  /** The handler as the client calls it: the emergency stop may have been triggered since the client's own check. */
  function Disturbed(c: Client, env: PassEnv): (h: H.Handler)
    requires Wf(c)
    ensures H.Wf(h)
  {
    c.handler.(plant := c.handler.plant.Disturb(env.stopMid))
  }

  function HandleOp(c: Client, r: nat, env: PassEnv): H.Op
    requires r < |c.objs|
  {
    H.Handle(c.objs[r].control, env.t, env.env)
  }

  function SweepOp(id: MRID, env: PassEnv): H.Op {
    H.Cancel(id, env.sweep.t, env.sweep.env, env.sweep.env')
  }

  /** A pass leaves the handler alone, or gives it the control, or does that and then cancels what a sweep found. */
  ghost predicate HandlerMoves(st: Settings, c: Client, r: nat, env: PassEnv, h': H.Handler)
    requires Wf(c) && r < |c.objs|
  {
    var h1 := H.Step(st.handler, Disturbed(c, env), HandleOp(c, r, env));
    || h' == c.handler
    || (!c.handler.plant.stopped && h' == h1)
    || (!c.handler.plant.stopped && h1.active.Some?
        && h' == H.Step(st.handler, h1, SweepOp(h1.objs[h1.active.value].control.mRID, env)))
  }

  lemma PassMovesHandler(st: Settings, c: Client, r: nat, now: int, env: PassEnv)
    requires Wf(c) && KeyedById(c) && r < |c.objs|
    ensures HandlerMoves(st, c, r, env, ExecutePass(st, c, r, now, env).handler)
  {
    hide H.HandleControl, H.CancelControl;
    var control := c.objs[r].control;
    ResolveEffects(Enlist(c, r, now), r, ModesOf(control));
    var (lost, c1) := Resolve(Enlist(c, r, now), r, ModesOf(control));
    if !c.handler.plant.stopped && !lost {
      hide TakeSlots;
      var c2 := HandOver(st, c1, r, env);
      TakeSlotsEffects(c2, r);
      SweepMovesHandler(st, TakeSlots(c2, r), control.mRID, env.sweep);
    }
  }

  lemma SweepMovesHandler(st: Settings, c: Client, exclude: MRID, env: CancelEnv)
    requires Wf(c) && KeyedById(c)
    ensures var d := Sweep(st, c, exclude, env); var h := c.handler;
      || d.handler == h
      || (h.active.Some? && d.handler ==
            H.Step(st.handler, h, H.Cancel(h.objs[h.active.value].control.mRID, env.t, env.env, env.env')))
  {
    hide H.CancelControl;
    SweepSlotsEffects(c, exclude, c.slots.keys, |c.objs|);
    var c1 := SweepSlots(c, exclude, c.slots.keys);
    SweepScheduledEffects(c1, exclude, c1.tracked.keys, |c1.objs|);
  }

  // ----- the handler's guarantees -----

  /** The handler owns the PCS, every write was safe, and, if agree is asked for, the device agrees. */
  ghost predicate Guarded(st: H.Settings, h: H.Handler, agree: bool) {
    && HP.Owned(h)
    && SafeLog(st.power, h.plant.log)
    && (agree ==> HP.HasPcs(st) && HP.DeviceAgrees(st, h))
  }

  lemma HandlerStepGuards(st: H.Settings, h: H.Handler, op: H.Op, agree: bool)
    requires Guarded(st, h, agree) && (agree ==> HP.Informative(op))
    ensures Guarded(st, H.Step(st, h, op), agree)
  {
    hide H.Step;
    HP.StepKeepsOwned(st, h, op);
    HP.StepKeepsLogSafe(st, h, op);
    if agree {
      HP.StepAgrees(st, h, op);
    }
  }

  ghost predicate InformativeCancel(env: CancelEnv) {
    env.env.Informative() && env.env'.Informative()
  }

  ghost predicate InformativePass(env: PassEnv) {
    env.env.Informative() && InformativeCancel(env.sweep)
  }

  ghost predicate InformativeOp(op: Op) {
    match op
    case Process(_, _, msg) => InformativePass(msg.pass) && InformativeCancel(msg.cancel)
    case Tick(_, envs) => forall i :: 0 <= i < |envs| ==> InformativePass(envs[i])
    case _ => true
  }

  ghost predicate Protected(st: Settings, c: Client, agree: bool) {
    Wf(c) && KeyedById(c) && Guarded(st.handler, c.handler, agree)
  }

  lemma MovesGuard(st: Settings, c: Client, r: nat, env: PassEnv, h': H.Handler, agree: bool)
    requires Wf(c) && r < |c.objs| && Guarded(st.handler, c.handler, agree) && (agree ==> InformativePass(env))
    requires HandlerMoves(st, c, r, env, h')
    ensures Guarded(st.handler, h', agree)
  {
    hide H.Step;
    var h := Disturbed(c, env);
    assert Guarded(st.handler, h, agree);
    HandlerStepGuards(st.handler, h, HandleOp(c, r, env), agree);
    var h1 := H.Step(st.handler, h, HandleOp(c, r, env));
    if h1.active.Some? {
      HandlerStepGuards(st.handler, h1, SweepOp(h1.objs[h1.active.value].control.mRID, env), agree);
    }
  }

  lemma PassProtects(st: Settings, c: Client, r: nat, now: int, env: PassEnv, agree: bool)
    requires Protected(st, c, agree) && r < |c.objs| && (agree ==> InformativePass(env))
    ensures Protected(st, ExecutePass(st, c, r, now, env), agree)
  {
    hide ExecutePass, HandlerMoves, Guarded;
    PassMovesHandler(st, c, r, now, env);
    PassOutcome(st, c, r, now, env);
    MovesGuard(st, c, r, env, ExecutePass(st, c, r, now, env).handler, agree);
  }

  lemma {:induction false} RunDueProtects(st: Settings, c: Client, refs: seq<nat>, i: nat, now: int,
      envs: seq<PassEnv>, agree: bool)
    requires Protected(st, c, agree) && i <= |refs| && forall j :: 0 <= j < |refs| ==> refs[j] < |c.objs|
    requires agree ==> InformativeOp(Tick(now, envs))
    ensures Protected(st, RunDue(st, c, refs, i, now, envs), agree)
    decreases |refs| - i
  {
    hide ExecutePass;
    if i < |refs| {
      var env := At(envs, i, Quiet(now));
      var c0 := Interrupt(c, env.stopBefore);
      if Due(c.objs[refs[i]], now) {
        PassProtects(st, c0, refs[i], now, env, agree);
        RunDueProtects(st, ExecutePass(st, c0, refs[i], now, env), refs, i + 1, now, envs, agree);
      } else {
        RunDueProtects(st, c0, refs, i + 1, now, envs, agree);
      }
    }
  }

  lemma AdmitProtects(st: Settings, c: Client, control: Control, program: Program, env: MessageEnv, agree: bool)
    requires Protected(st, c, agree) && (agree ==> InformativePass(env.pass))
    ensures Protected(st, Admit(st, c, control, program, env), agree)
  {
    hide ExecutePass;
    var t := Tracked(control, program, RandomStart(st, control, env.pickStart),
                     RandomDuration(st, control, env.pickDuration), Pending);
    PassProtects(st, Track(c, t), |c.objs|, env.now, env.pass, agree);
  }

  lemma {:induction false} CancelProgramProtects(st: Settings, c: Client, program: MRID, keys: seq<MRID>, agree: bool)
    requires Protected(st, c, agree) && forall k :: k in keys ==> k in c.tracked.vals
    ensures Protected(st, CancelProgram(c, program, keys), agree)
    decreases |keys|
  {
    if keys != [] {
      var c1 := if c.objs[c.tracked.vals[keys[0]]].program.mRID == program then CancelTracked(c, keys[0]) else c;
      CancelProgramProtects(st, c1, program, keys[1..], agree);
    }
  }

  /** The default control is written behind the handler's back: safely, but whoever was active stays active. */
  lemma DefaultProtects(st: Settings, c: Client, best: Option<Default>, env: Env)
    requires Protected(st, c, false)
    ensures Protected(st, CheckDefault(st, c, best, env), false)
  {
    if best.Some? && best.value.base.Some? && best.value.base.value.fixedW.Some? {
      var watts := best.value.base.value.fixedW.value.ToWatts();
      SetPowerIsSafe(st.handler.power, watts, env, c.handler.plant);
      SafeStepKeepsLogSafe(st.handler.power, c.handler.plant, SetPower(st.handler.power, watts, env,
        c.handler.plant).1);
    }
  }

  lemma StepProtects(st: Settings, c: Client, op: Op, agree: bool)
    requires Protected(st, c, agree) && (agree ==> InformativeOp(op) && !op.ApplyDefault?)
    ensures Protected(st, Step(st, c, op), agree)
  {
    match op {
      case Process(control, program, msg) =>
        if control.mRID !in c.processed {
          AdmitProtects(st, c, control, program, msg, agree);
        } else {
          HandlerStepGuards(st.handler, c.handler,
            H.Cancel(control.mRID, msg.cancel.t, msg.cancel.env, msg.cancel.env'), agree);
          hide H.CancelControl;
        }
      case Tick(now, envs) => RunDueProtects(st, c, H.Refs(c.tracked, c.tracked.keys), 0, now, envs, agree);
      case ApplyDefault(best, env) => DefaultProtects(st, c, best, env);
      case Untrack(id) => CancelProgramProtects(st, c, id, c.tracked.keys, agree);
      case _ =>
    }
  }

  /** Over every run driven by the client: one owner of the PCS, every P_SET inside the envelope; and in runs that
      apply no default control, handler and device agree. */
  lemma {:induction false} ProtectedAlways(st: Settings, c: Client, ops: seq<Op>, agree: bool)
    requires Protected(st, c, agree)
    requires agree ==> forall i :: 0 <= i < |ops| ==> InformativeOp(ops[i]) && !ops[i].ApplyDefault?
    ensures Protected(st, Run(st, c, ops), agree)
    decreases |ops|
  {
    if ops != [] {
      StepProtects(st, c, ops[0], agree);
      ProtectedAlways(st, Step(st, c, ops[0]), ops[1..], agree);
    }
  }

  /** Exactly when a default control leaves handler and device in agreement: the request does not pass the gates or no
      attempt is acknowledged, or the active event makes no claim on the register, or the default asks for the very word
      the active event asked for. */
  lemma DefaultMayOverwrite(st: Settings, c: Client, best: Default, env: Env)
    requires Protected(st, c, true) && !AnyActive(c, c.tracked.keys) && c.activeDefault != Some(best)
    requires best.base.Some? && best.base.value.fixedW.Some?
    ensures var watts := best.base.value.fixedW.value.ToWatts();
      HP.DeviceAgrees(st.handler, CheckDefault(st, c, Some(best), env).handler) <==>
        || !Executes(st.handler.power, watts, env, c.handler.plant)
        || Claim(st.handler, c.handler) in {None, Some(Encode(st.handler.power.writer.value.scale, watts))}
  {
    hide Executes;
    RequestIsSafe(st.handler.power, best.base.value.fixedW.value.ToWatts(), env, c.handler.plant, false);
  }

  /** The register word the handler's active event stands for. */
  function Claim(st: H.Settings, h: H.Handler): Option<int>
    requires H.Wf(h) && st.power.writer.Some?
  {
    if h.active.None? || h.objs[h.active.value].status != Completed then None
    else
      match ActionOf(h.objs[h.active.value].control)
      case Setpoint(watts) => Some(Encode(st.power.writer.value.scale, watts))
      case Disconnect => Some(0)
      case DeEnergize => Some(0)
      case _ => None
  }

  // ----- the emergency stop -----

  /** The one client step that may lift a stop it meets at its beginning: acting on a server cancel that the handler
      answers by lifting it. */
  ghost predicate MayLift(c: Client, op: Op)
    requires Wf(c)
  {
    && op.Process?
    && op.control.mRID in c.processed
    && op.control.currentStatus == Some(CANCELLED_BY_SERVER)
    && op.control.mRID !in c.cancelled
    && HP.MayLift(c.handler, H.Cancel(op.control.mRID, op.msg.cancel.t, op.msg.cancel.env, op.msg.cancel.env'))
  }

  /** The stop stays set and nothing is written to P_SET. */
  ghost predicate Held(s: State, t: State) {
    && t.stopped
    && s.log <= t.log
    && (forall i :: |s.log| <= i < |t.log| ==> !t.log[i].PSet?)
  }

  lemma {:induction false} RunDueHolds(st: Settings, c: Client, refs: seq<nat>, i: nat, now: int, envs: seq<PassEnv>)
    requires Wf(c) && c.handler.plant.stopped
    requires i <= |refs| && forall j :: 0 <= j < |refs| ==> refs[j] < |c.objs|
    ensures RunDue(st, c, refs, i, now, envs).handler == c.handler
    decreases |refs| - i
  {
    if i < |refs| {
      var env := At(envs, i, Quiet(now));
      assert Interrupt(c, env.stopBefore) == c;
      if Due(c.objs[refs[i]], now) {
        RunDueHolds(st, ExecutePass(st, c, refs[i], now, env), refs, i + 1, now, envs);
      } else {
        RunDueHolds(st, c, refs, i + 1, now, envs);
      }
    }
  }

  lemma {:induction false} CancelProgramHolds(c: Client, program: MRID, keys: seq<MRID>)
    requires Wf(c) && forall k :: k in keys ==> k in c.tracked.vals
    ensures CancelProgram(c, program, keys).handler == c.handler
    decreases |keys|
  {
    if keys != [] {
      var c1 := if c.objs[c.tracked.vals[keys[0]]].program.mRID == program then CancelTracked(c, keys[0]) else c;
      CancelProgramHolds(c1, program, keys[1..]);
    }
  }

  lemma ProcessHolds(st: Settings, c: Client, op: Op)
    requires Protected(st, c, false) && c.handler.plant.stopped && op.Process? && !MayLift(c, op)
    ensures Held(c.handler.plant, Step(st, c, op).handler.plant)
  {
    var msg := op.msg;
    if op.control.mRID in c.processed {
      HP.StepMoves(st.handler, c.handler, H.Cancel(op.control.mRID, msg.cancel.t, msg.cancel.env, msg.cancel.env'));
      hide H.CancelControl;
    } else {
      hide H.HandleControl, H.CancelControl, CarryOut;
    }
  }

  /** A step that begins under the emergency stop leaves it set and writes no P_SET, unless it acts on a server cancel
      that the handler answers by lifting the stop. A stop set while a step is under way is another matter: see
      module StopProofs. */
  lemma StopHoldsInClient(st: Settings, c: Client, op: Op)
    requires Protected(st, c, false) && c.handler.plant.stopped && !MayLift(c, op)
    ensures Held(c.handler.plant, Step(st, c, op).handler.plant)
  {
    match op {
      case Process(control, program, msg) => ProcessHolds(st, c, op);
      case Tick(now, envs) => RunDueHolds(st, c, H.Refs(c.tracked, c.tracked.keys), 0, now, envs);
      case Untrack(id) => CancelProgramHolds(c, id, c.tracked.keys);
      case ApplyDefault(best, env) =>
        if best.Some? && best.value.base.Some? && best.value.base.value.fixedW.Some? {
          SetPowerIsSafe(st.handler.power, best.value.base.value.fixedW.value.ToWatts(), env, c.handler.plant);
        }
      case _ =>
    }
  }
}
