/** What becomes of a control: whether it is run, put on the schedule or dropped when it arrives, what takes it off the
    schedule, and that a cancel cancels. */
module AdmissionProofs {
  import opened Common
  import opened DerModels
  import opened Plant
  import H = HandlerSpec
  import opened ClientSpec
  import opened ClientProofs
  import opened PlantProofs
  import O = OutcomeProofs
  import opened SchedulingProofs
  import opened ArbitrationProofs
  import opened SweepProofs
  import opened StopProofs

  // ----- a new control -----

  /** The control at r has a start, its own plus the random offset, and an end, its own plus the random adjustment. */
  function StartOf(t: Tracked): int
    requires t.control.interval.Some?
  {
    t.control.interval.value.start + t.offset
  }

  function EndOf(t: Tracked): int
    requires t.control.interval.Some?
  {
    t.control.interval.value.start + t.control.interval.value.duration + t.adjustment
  }

  /** What a server message with an mRID that is not remembered does. The control is tracked under its mRID with its
      random draws. Without an interval, or from its start to its end, it is executed, by one pass; before its start it
      is put on the schedule; at or after its end it is cancelled, neither of them with a pass. */
  lemma NewControlOutcome(st: Settings, c: Client, control: Control, program: Program, env: MessageEnv)
    requires Wf(c) && KeyedById(c) && control.mRID !in c.processed
    ensures var d := ProcessControl(st, c, control, program, env); var r := |c.objs|;
      && |d.objs| == r + 1 && d.tracked == c.tracked.Put(control.mRID, r)
      && var t := d.objs[r];
         && t.control == control && t.program == program
         && t.offset == RandomStart(st, control, env.pickStart)
         && t.adjustment == RandomDuration(st, control, env.pickDuration)
         && if control.interval.Some? && env.now < StartOf(t) then
              t.status == Scheduled && OnlyMarked(c, d)
            else if control.interval.Some? && env.now >= EndOf(t) then
              t.status == Cancelled && OnlyMarked(c, d)
            else d.history.passes == c.history.passes + [Pass(r, env.now)]
  {
    hide ExecutePass, RandomStart, RandomDuration;
    var t := Tracked(control, program, RandomStart(st, control, env.pickStart),
                     RandomDuration(st, control, env.pickDuration), Pending);
    PassOutcome(st, Track(c, t), |c.objs|, env.now, env.pass);
  }

  /** Apart from the new control only the memory of mRIDs changed. */
  ghost predicate OnlyMarked(c: Client, d: Client) {
    && |c.objs| <= |d.objs| && d.objs[..|c.objs|] == c.objs
    && d.slots == c.slots && d.cancelled == c.cancelled && d.activeDefault == c.activeDefault && d.handler == c.handler
    && d.history == c.history.(processed := d.history.processed)
  }

  // ----- cancelling -----

  /** Only the status of control r changed, to CANCELLED. */
  ghost predicate OnlyCancelled(c: Client, d: Client, r: nat)
    requires r < |c.objs|
  {
    d.objs == c.objs[r := c.objs[r].(status := Cancelled)]
  }

  /** Exactly what a message with a remembered mRID does. With currentStatus 2, the first time, the handler cancels the
      event and the control tracked under the mRID is CANCELLED; otherwise nothing happens. */
  lemma ServerCancelExactly(st: Settings, c: Client, control: Control, program: Program, env: MessageEnv)
    requires Wf(c) && control.mRID in c.processed
    ensures var d := ProcessControl(st, c, control, program, env); var id := control.mRID;
      if control.currentStatus == Some(2) && id !in c.cancelled then
        && d.handler == H.CancelControl(st.handler, c.handler, id, env.cancel.t, env.cancel.env, env.cancel.env').0
        && d.cancelled == c.cancelled + {id} && d.history == c.history.(cancels := c.history.cancels + [id])
        && d.tracked == c.tracked && d.slots == c.slots && d.processed == c.processed
        && (if id in c.tracked.vals then OnlyCancelled(c, d, c.tracked.vals[id]) else d.objs == c.objs)
      else d == c
  {
    hide H.CancelControl;
  }

  /** Control i is tracked and belongs to the program. */
  ghost predicate TrackedFor(c: Client, keys: seq<MRID>, program: MRID, i: nat)
    requires Wf(c) && i < |c.objs| && forall k :: k in keys ==> k in c.tracked.vals
  {
    c.objs[i].program.mRID == program && exists k :: k in keys && c.tracked.vals[k] == i
  }

  lemma {:induction false} CancelProgramExactly(c: Client, program: MRID, keys: seq<MRID>, i: nat)
    requires Wf(c) && i < |c.objs| && forall k :: k in keys ==> k in c.tracked.vals
    ensures var d := CancelProgram(c, program, keys);
      && d == c.(objs := d.objs)
      && d.objs[i] == if TrackedFor(c, keys, program, i) then c.objs[i].(status := Cancelled) else c.objs[i]
    decreases |keys|
  {
    if keys != [] {
      var c1 := if c.objs[c.tracked.vals[keys[0]]].program.mRID == program then CancelTracked(c, keys[0]) else c;
      CancelProgramExactly(c1, program, keys[1..], i);
      assert TrackedFor(c, keys, program, i) <==>
        TrackedFor(c1, keys[1..], program, i)
        || (c.tracked.vals[keys[0]] == i && c.objs[i].program.mRID == program);
    }
  }

  /** Removing a program cancels every tracked control of it, and changes nothing else. */
  lemma UntrackExactly(st: Settings, c: Client, program: MRID, i: nat)
    requires Wf(c) && KeyedById(c) && i < |c.objs|
    ensures var d := Step(st, c, Untrack(program));
      && d == c.(objs := d.objs)
      && var tracked := exists k :: k in c.tracked.vals && c.tracked.vals[k] == i;
         d.objs[i] ==
           if tracked && c.objs[i].program.mRID == program then c.objs[i].(status := Cancelled) else c.objs[i]
  {
    CancelProgramExactly(c, program, c.tracked.keys, i);
  }

  /** A control that is off the schedule is in no later pass of any run. */
  lemma OffScheduleNeverRuns(st: Settings, c: Client, r: nat, ops: seq<Op>)
    requires Timely(c) && r < |c.objs| && c.objs[r].status != Scheduled
    requires forall i :: 0 <= i < |ops| ==> ClockOk(ops[i])
    ensures var d := Run(st, c, ops);
      c.history.passes <= d.history.passes
      && forall j :: |c.history.passes| <= j < |d.history.passes| ==> d.history.passes[j].ref != r
  {
    TimelyAlways(st, c, ops);
  }

  /** A control that the server cancels before it was run is CANCELLED, and no run executes it any more. */
  lemma CancelledBeforeStartNeverRuns(st: Settings, c: Client, control: Control, program: Program, env: MessageEnv,
      ops: seq<Op>)
    requires Timely(c) && control.mRID in c.processed && control.mRID in c.tracked.vals
    requires control.currentStatus == Some(2) && control.mRID !in c.cancelled
    requires forall i :: 0 <= i < |ops| ==> ClockOk(ops[i])
    requires c.objs[c.tracked.vals[control.mRID]].status == Scheduled && env.now <= env.pass.t.checked
    ensures var r := c.tracked.vals[control.mRID];
      var d := Run(st, Step(st, c, Process(control, program, env)), ops);
      && Step(st, c, Process(control, program, env)).objs[r].status == Cancelled
      && NotYetRun(d.history.passes, r)
  {
    hide ProcessControl;
    var r := c.tracked.vals[control.mRID];
    var c1 := Step(st, c, Process(control, program, env));
    ServerCancelExactly(st, c, control, program, env);
    StepKeepsTimely(st, c, Process(control, program, env));
    OffScheduleNeverRuns(st, c1, r, ops);
    ScheduledHasNotRun(c, r);
    var d := Run(st, c1, ops);
    forall j | 0 <= j < |d.history.passes| ensures d.history.passes[j].ref != r {
      assert j < |c.history.passes| ==> d.history.passes[j] == c.history.passes[j];
    }
  }

  lemma ScheduledHasNotRun(c: Client, r: nat)
    requires Timely(c) && r < |c.objs| && c.objs[r].status == Scheduled
    ensures NotYetRun(c.history.passes, r)
  {
    forall j | 0 <= j < |c.history.passes| ensures c.history.passes[j].ref != r {
      assert ProperPass(c.objs, c.history.passes[j]);
    }
  }

  // ----- a scheduled control -----

  /** Every holder of a slot has been executed. */
  ghost predicate HoldersRan(c: Client)
    requires Wf(c)
  {
    forall m :: m in c.slots.vals ==> !NotYetRun(c.history.passes, c.slots.vals[m])
  }

  /** What may happen to control i while it is not executed: nothing, a cancel, or, as long as it is scheduled, the
      sweep of another control. */
  ghost predicate Waits(c: Client, d: Client, i: nat) {
    && i < |c.objs| <= |d.objs|
    && NotYetRun(d.history.passes, i)
    && |c.history.sweeps| <= |d.history.sweeps|
    && (|| d.objs[i] == c.objs[i]
        || d.objs[i] == c.objs[i].(status := Cancelled)
        || (d.objs[i] == c.objs[i].(status := Superseded) && |c.history.sweeps| < |d.history.sweeps|))
  }

  lemma WaitsComposes(c: Client, d: Client, e: Client, i: nat)
    requires Waits(c, d, i) && Waits(d, e, i)
    ensures Waits(c, e, i)
  {
  }

  /** Control i holds no slot. */
  ghost predicate HoldsNothing(c: Client, i: nat) {
    forall m :: m in c.slots.vals ==> c.slots.vals[m] != i
  }

  lemma {:induction false} ResolveSpares(c: Client, r: nat, modes: seq<Mode>, i: nat)
    requires Wf(c) && HoldsNothing(c, i) && r < |c.objs| && i < |c.objs|
    ensures Resolve(c, r, modes).1.objs[i] == c.objs[i]
    decreases |modes|
  {
    hide Beats;
    if modes != [] && modes[0] in c.slots.vals {
      ResolveSpares(SetStatus(c, c.slots.vals[modes[0]], Superseded), r, modes[1..], i);
    } else if modes != [] {
      ResolveSpares(c, r, modes[1..], i);
    }
  }

  lemma {:induction false} SweepSlotsSpare(c: Client, exclude: MRID, modes: seq<Mode>, i: nat)
    requires Wf(c) && NoDuplicates(modes) && forall m :: m in modes ==> m in c.slots.vals
    requires HoldsNothing(c, i) && i < |c.objs|
    ensures SweepSlots(c, exclude, modes).objs[i] == c.objs[i]
    decreases |modes|
  {
    if modes != [] {
      SweepSlotsSpare(SweepSlot(c, exclude, modes[0]), exclude, modes[1..], i);
    }
  }

  lemma SweepOnWaiting(st: Settings, c: Client, exclude: MRID, env: CancelEnv, i: nat)
    requires Wf(c) && KeyedById(c) && HoldsNothing(c, i) && i < |c.objs|
    ensures var d := Sweep(st, c, exclude, env);
      && d.history.sweeps == c.history.sweeps
      && (d.objs[i] == c.objs[i] || d.objs[i] == c.objs[i].(status := Superseded))
  {
    var c1 := SweepSlots(c, exclude, c.slots.keys);
    SweepSlotsSpare(c, exclude, c.slots.keys, i);
    SweepSlotsEffects(c, exclude, c.slots.keys, |c.objs|);
    SweepKeepsOrEmpties(st, c, exclude, env, FixedWMode);
    SweepScheduledEffects(c1, exclude, c1.tracked.keys, |c.objs|);
    hide SweepSlots, SweepScheduled, H.CancelControl;
  }

  lemma CarryOutOnWaiting(st: Settings, c: Client, r: nat, env: PassEnv, i: nat)
    requires Wf(c) && KeyedById(c) && r < |c.objs| && i < |c.objs| && i != r && HoldsNothing(c, i)
    ensures var d := CarryOut(st, c, r, env);
      || (d.objs[i] == c.objs[i] && |c.history.sweeps| <= |d.history.sweeps|)
      || (d.objs[i] == c.objs[i].(status := Superseded) && |c.history.sweeps| < |d.history.sweeps|)
  {
    hide H.HandleControl, Sweep, ModesOf, IsDeEnergize, Hold, Occupy;
    var c1 := HandOver(st, c, r, env);
    var c2 := TakeSlots(c1, r);
    TakeSlotsEffects(c1, r);
    SweepsNoted(c1, r);
    forall m | m in c2.slots.vals ensures c2.slots.vals[m] != i {
      TakeSlotsTakes(c1, r, m);
    }
    hide TakeSlots;
    SweepOnWaiting(st, c2, c.objs[r].control.mRID, env.sweep, i);
    SweepEffects(st, c2, c.objs[r].control.mRID, env.sweep, r);
  }

  lemma SweepsNoted(c: Client, r: nat)
    requires Wf(c) && r < |c.objs|
    ensures TakeSlots(c, r).history.sweeps ==
      c.history.sweeps + if c.objs[r].status == Completed && IsDeEnergize(c.objs[r].control) then [r] else []
  {
    hide ModesOf;
    HoldEffects(c.history, r, ModesOf(c.objs[r].control));
    OccupyEffects(Note(c, r), r, ModesOf(c.objs[r].control));
  }

  /** A pass of another control. */
  lemma PassOnWaiting(st: Settings, c: Client, r: nat, now: int, env: PassEnv, i: nat)
    requires Wf(c) && KeyedById(c) && r < |c.objs| && i < |c.objs| && i != r
    requires HoldersRan(c) && NotYetRun(c.history.passes, i)
    ensures Waits(c, ExecutePass(st, c, r, now, env), i)
  {
    hide CarryOut, Resolve, ModesOf, Enter;
    PassOutcome(st, c, r, now, env);
    var h := c.history.(passes := c.history.passes + [Pass(r, now)]);
    EnterEffects(h, r, ModesOf(c.objs[r].control));
    var c0 := Enlist(c, r, now);
    ResolveEffects(c0, r, ModesOf(c.objs[r].control));
    ResolveSpares(c0, r, ModesOf(c.objs[r].control), i);
    var (lost, c1) := Resolve(c0, r, ModesOf(c.objs[r].control));
    if !c.handler.plant.stopped && !lost {
      CarryOutOnWaiting(st, c1, r, env, i);
    }
  }

  lemma PassKeepsHoldersRan(st: Settings, c: Client, r: nat, now: int, env: PassEnv)
    requires Wf(c) && KeyedById(c) && r < |c.objs| && HoldersRan(c)
    ensures HoldersRan(ExecutePass(st, c, r, now, env))
  {
    hide ExecutePass;
    var d := ExecutePass(st, c, r, now, env);
    PassOutcome(st, c, r, now, env);
    assert d.history.passes[|c.history.passes|].ref == r;
    forall m | m in d.slots.vals ensures !NotYetRun(d.history.passes, d.slots.vals[m]) {
      SlotOnlyImproves(st, c, r, now, env, m);
      var e := d.slots.vals[m];
      if e != r {
        assert e == c.slots.vals[m];
        var j :| 0 <= j < |c.history.passes| && c.history.passes[j].ref == e;
        assert d.history.passes[j].ref == e;
      }
    }
  }

  // ----- steps -----

  /** On the way from c to d control i was executed at the time now. */
  ghost predicate RunsAt(c: Client, d: Client, i: nat, now: int) {
    exists j :: |c.history.passes| <= j < |d.history.passes| && d.history.passes[j] == Pass(i, now)
  }

  /** What a round does to control i if it is tracked: executed if its time has come, unless swept before its turn. */
  lemma {:induction false} RunDueOnWaiting(st: Settings, c: Client, refs: seq<nat>, k: nat, now: int,
        envs: seq<PassEnv>, i: nat)
    requires Timely(c) && HoldersRan(c) && k <= |refs| && forall j :: 0 <= j < |refs| ==> refs[j] < |c.objs|
    requires ClockOk(Tick(now, envs)) && i < |c.objs| && NotYetRun(c.history.passes, i)
    ensures var d := RunDue(st, c, refs, k, now, envs);
      HoldersRan(d) && (Waits(c, d, i) || (Due(c.objs[i], now) && RunsAt(c, d, i, now)))
    decreases |refs| - k
  {
    hide ExecutePass, Interrupt, HoldersRan;
    if k < |refs| {
      var env := At(envs, k, Quiet(now));
      var c0 := Interrupt(c, env.stopBefore);
      InterruptKeepsTimely(c, env.stopBefore);
      InterruptKeepsHoldersRan(c, env.stopBefore);
      if Due(c.objs[refs[k]], now) {
        var d := ExecutePass(st, c0, refs[k], now, env);
        DueIsReady(c0, refs[k], now, env);
        PassKeepsTimely(st, c0, refs[k], now, env);
        PassKeepsHoldersRan(st, c0, refs[k], now, env);
        if refs[k] == i {
          RunDueKeepsTimely(st, d, refs, k + 1, now, envs);
          RunDueKeepsHoldersRan(st, d, refs, k + 1, now, envs);
          var e := RunDue(st, d, refs, k + 1, now, envs);
          assert e.history.passes[|c.history.passes|] == d.history.passes[|c.history.passes|];
        } else {
          PassOnWaiting(st, c0, refs[k], now, env, i);
          RunDueOnWaiting(st, d, refs, k + 1, now, envs, i);
          RunDueKeepsTimely(st, d, refs, k + 1, now, envs);
          LaterPass(c, d, RunDue(st, d, refs, k + 1, now, envs), i, now);
        }
      } else {
        RunDueOnWaiting(st, c0, refs, k + 1, now, envs, i);
      }
    }
  }

  lemma InterruptKeepsHoldersRan(c: Client, triggered: bool)
    requires Wf(c) && HoldersRan(c)
    ensures HoldersRan(Interrupt(c, triggered))
  {
  }

  lemma LaterPass(c: Client, d: Client, e: Client, i: nat, now: int)
    requires c.history.passes <= d.history.passes <= e.history.passes && Waits(c, d, i)
    requires Waits(d, e, i) || (Due(d.objs[i], now) && RunsAt(d, e, i, now))
    ensures Waits(c, e, i) || (Due(c.objs[i], now) && RunsAt(c, e, i, now))
  {
    if Waits(d, e, i) {
      WaitsComposes(c, d, e, i);
    }
  }

  lemma {:induction false} RunDueKeepsHoldersRan(st: Settings, c: Client, refs: seq<nat>, k: nat, now: int,
        envs: seq<PassEnv>)
    requires Wf(c) && KeyedById(c) && HoldersRan(c)
    requires k <= |refs| && forall j :: 0 <= j < |refs| ==> refs[j] < |c.objs|
    ensures HoldersRan(RunDue(st, c, refs, k, now, envs))
    decreases |refs| - k
  {
    hide ExecutePass, Interrupt, HoldersRan;
    if k < |refs| {
      var env := At(envs, k, Quiet(now));
      var c0 := Interrupt(c, env.stopBefore);
      InterruptKeepsHoldersRan(c, env.stopBefore);
      if Due(c.objs[refs[k]], now) {
        PassKeepsHoldersRan(st, c0, refs[k], now, env);
        PassOutcome(st, c0, refs[k], now, env);
        RunDueKeepsHoldersRan(st, ExecutePass(st, c0, refs[k], now, env), refs, k + 1, now, envs);
      } else {
        RunDueKeepsHoldersRan(st, c0, refs, k + 1, now, envs);
      }
    }
  }

  lemma AdmitOnWaiting(st: Settings, c: Client, control: Control, program: Program, env: MessageEnv, i: nat)
    requires Timely(c) && HoldersRan(c) && i < |c.objs| && NotYetRun(c.history.passes, i)
    ensures var d := Admit(st, c, control, program, env); HoldersRan(d) && Waits(c, d, i)
  {
    hide ExecutePass;
    var t := Tracked(control, program, RandomStart(st, control, env.pickStart),
                     RandomDuration(st, control, env.pickDuration), Pending);
    PassOnWaiting(st, Track(c, t), |c.objs|, env.now, env.pass, i);
    PassKeepsHoldersRan(st, Track(c, t), |c.objs|, env.now, env.pass);
  }

  lemma ProcessOnWaiting(st: Settings, c: Client, op: Op, i: nat)
    requires Timely(c) && HoldersRan(c) && i < |c.objs| && NotYetRun(c.history.passes, i) && op.Process?
    ensures HoldersRan(Step(st, c, op)) && Waits(c, Step(st, c, op), i)
  {
    hide Admit, ServerCancel;
    if op.control.mRID in c.processed {
      ServerCancelExactly(st, c, op.control, op.program, op.msg);
      hide ProcessControl;
    } else {
      AdmitOnWaiting(st, c, op.control, op.program, op.msg, i);
    }
  }

  /** The step is no round at or after the start of control i. */
  ghost predicate BeforeStart(c: Client, op: Op, i: nat) {
    op.Tick? && i < |c.objs| ==> !Due(c.objs[i].(status := Scheduled), op.now)
  }

  lemma StepOnWaiting(st: Settings, c: Client, op: Op, i: nat)
    requires Timely(c) && HoldersRan(c) && ClockOk(op) && i < |c.objs| && NotYetRun(c.history.passes, i)
    requires BeforeStart(c, op, i)
    ensures HoldersRan(Step(st, c, op)) && Waits(c, Step(st, c, op), i)
  {
    match op {
      case Process(_, _, _) => ProcessOnWaiting(st, c, op, i);
      case Tick(now, envs) =>
        RunDueOnWaiting(st, c, H.Refs(c.tracked, c.tracked.keys), 0, now, envs, i);
      case Untrack(program) => UntrackExactly(st, c, program, i);
      case _ =>
    }
  }

  lemma {:induction false} RunOnWaiting(st: Settings, c: Client, ops: seq<Op>, i: nat)
    requires Timely(c) && HoldersRan(c) && i < |c.objs| && NotYetRun(c.history.passes, i)
    requires forall j :: 0 <= j < |ops| ==> ClockOk(ops[j]) && BeforeStart(c, ops[j], i)
    ensures HoldersRan(Run(st, c, ops)) && Waits(c, Run(st, c, ops), i)
    decreases |ops|
  {
    hide Step, HoldersRan;
    if ops != [] {
      var d := Step(st, c, ops[0]);
      StepOnWaiting(st, c, ops[0], i);
      StepKeepsTimely(st, c, ops[0]);
      RunOnWaiting(st, d, ops[1..], i);
      WaitsComposes(c, d, Run(st, d, ops[1..]), i);
    }
  }

  /** A control that is on the schedule is executed by the first round at or after its start, at that time and only
      then; unless its mRID was processed anew meanwhile, so that another control is tracked under it, or the control
      was cancelled, or superseded by a sweep. */
  lemma ScheduledControlRuns(st: Settings, c: Client, ops: seq<Op>, now: int, envs: seq<PassEnv>, i: nat)
    requires Timely(c) && HoldersRan(c) && i < |c.objs| && c.objs[i].status == Scheduled
    requires forall j :: 0 <= j < |ops| ==> ClockOk(ops[j]) && (ops[j].Tick? ==> ops[j].now < StartOf(c.objs[i]))
    requires StartOf(c.objs[i]) <= now && ClockOk(Tick(now, envs))
    ensures var d := Run(st, c, ops); var e := Step(st, d, Tick(now, envs)); var id := c.objs[i].control.mRID;
      && Wf(d) && NotYetRun(d.history.passes, i)
      && (id in d.tracked.vals && d.tracked.vals[id] == i ==>
            || RunsAt(d, e, i, now)
            || (NotYetRun(e.history.passes, i)
                && (|| e.objs[i].status == Cancelled
                    || (e.objs[i].status == Superseded && |c.history.sweeps| < |e.history.sweeps|))))
  {
    hide Step, Run;
    ScheduledHasNotRun(c, i);
    RunOnWaiting(st, c, ops, i);
    TimelyAlways(st, c, ops);
    var d := Run(st, c, ops);
    TickOnWaiting(st, d, now, envs, i);
    if Waits(d, Step(st, d, Tick(now, envs)), i) {
      WaitsComposes(c, d, Step(st, d, Tick(now, envs)), i);
    }
  }

  lemma TickOnWaiting(st: Settings, c: Client, now: int, envs: seq<PassEnv>, i: nat)
    requires Timely(c) && HoldersRan(c) && i < |c.objs| && NotYetRun(c.history.passes, i) && ClockOk(Tick(now, envs))
    ensures var d := Step(st, c, Tick(now, envs)); var id := c.objs[i].control.mRID;
      && (Waits(c, d, i) || RunsAt(c, d, i, now))
      && (id in c.tracked.vals && c.tracked.vals[id] == i ==> |d.objs| >= |c.objs| && !Due(d.objs[i], now))
  {
    hide RunDue;
    var refs := H.Refs(c.tracked, c.tracked.keys);
    RunDueOnWaiting(st, c, refs, 0, now, envs, i);
    var id := c.objs[i].control.mRID;
    if id in c.tracked.vals && c.tracked.vals[id] == i {
      var k :| 0 <= k < |c.tracked.keys| && c.tracked.keys[k] == id;
      TickRunsEveryDueControl(st, c, refs, 0, now, envs, k);
    }
  }

  /** From the empty client every run keeps the holders of slots among the executed controls. */
  lemma {:induction false} HoldersRanAlways(st: Settings, c: Client, ops: seq<Op>)
    requires Timely(c) && HoldersRan(c) && forall j :: 0 <= j < |ops| ==> ClockOk(ops[j])
    ensures Timely(Run(st, c, ops)) && HoldersRan(Run(st, c, ops))
    decreases |ops|
  {
    hide Step, HoldersRan;
    if ops != [] {
      StepKeepsHoldersRan(st, c, ops[0]);
      StepKeepsTimely(st, c, ops[0]);
      HoldersRanAlways(st, Step(st, c, ops[0]), ops[1..]);
    }
  }

  lemma StepKeepsHoldersRan(st: Settings, c: Client, op: Op)
    requires Timely(c) && HoldersRan(c) && ClockOk(op)
    ensures HoldersRan(Step(st, c, op))
  {
    match op {
      case Process(control, program, msg) =>
        if control.mRID in c.processed {
          ServerCancelExactly(st, c, control, program, msg);
          hide ProcessControl;
        } else {
          AdmitKeepsHoldersRan(st, c, control, program, msg);
          hide Admit;
        }
      case Tick(now, envs) => RunDueKeepsHoldersRan(st, c, H.Refs(c.tracked, c.tracked.keys), 0, now, envs);
      case Untrack(program) => CancelProgramOnlyEnds(c, program, c.tracked.keys);
      case _ =>
    }
  }

  lemma AdmitKeepsHoldersRan(st: Settings, c: Client, control: Control, program: Program, env: MessageEnv)
    requires Timely(c) && HoldersRan(c)
    ensures HoldersRan(Admit(st, c, control, program, env))
  {
    hide ExecutePass;
    var t := Tracked(control, program, RandomStart(st, control, env.pickStart),
                     RandomDuration(st, control, env.pickDuration), Pending);
    PassKeepsHoldersRan(st, Track(c, t), |c.objs|, env.now, env.pass);
  }

  // ----- an execution -----

  /** Exactly what a pass does with its control. Under the stop the control fails; against a holder that stands in its
      way it is superseded; neither touches slots or handler. Otherwise the handler handles it, the control gets the
      status of the handler's event, or fails if the callback raises, and holds the slot of each of its modes; the
      holders it displaced are superseded. */
  lemma ExecutedExactly(st: Settings, c: Client, r: nat, now: int, env: PassEnv, m: Mode)
    requires Wf(c) && KeyedById(c) && r < |c.objs|
    ensures var d := ExecutePass(st, c, r, now, env); var t := d.objs[r];
      if c.handler.plant.stopped then
        d.objs == c.objs[r := c.objs[r].(status := Failed)] && d.slots == c.slots && d.handler == c.handler
      else if HasRival(c, r) then
        t.status == Superseded && d.slots == c.slots && d.handler == c.handler
      else
        && d.handler == Handled(st, c, r, env) && d.activeDefault == None
        && t.status == (if env.callbackRaises then Failed else d.handler.objs[|c.handler.objs|].status)
        && (GoesFor(c.objs[r].control, m) ==>
              && m in d.slots.vals && d.slots.vals[m] == r
              && (m in c.slots.vals && c.slots.vals[m] != r ==> d.objs[c.slots.vals[m]].status == Superseded))
  {
    hide ModesOf, Resolve, CarryOut, HasRival, Enter, Handled, GoesFor;
    LosesToRival(c, r, now);
    EnterEffects(c.history.(passes := c.history.passes + [Pass(r, now)]), r, ModesOf(c.objs[r].control));
    EndedHolderStillBlocksIfAny(st, c, r, now, env);
    if !c.handler.plant.stopped && !HasRival(c, r) {
      WonExactly(st, c, r, now, env, m);
    }
  }

  lemma EndedHolderStillBlocksIfAny(st: Settings, c: Client, r: nat, now: int, env: PassEnv)
    requires Wf(c) && KeyedById(c) && r < |c.objs|
    ensures var d := ExecutePass(st, c, r, now, env);
      !c.handler.plant.stopped && HasRival(c, r) ==>
        d.objs[r].status == Superseded && d.slots == c.slots && d.handler == c.handler
  {
    hide ExecutePass, HasRival;
    if !c.handler.plant.stopped {
      EndedHolderStillBlocks(st, c, r, now, env);
    }
  }

  lemma WonExactly(st: Settings, c: Client, r: nat, now: int, env: PassEnv, m: Mode)
    requires Wf(c) && KeyedById(c) && r < |c.objs| && !c.handler.plant.stopped
    requires !Resolve(Enlist(c, r, now), r, ModesOf(c.objs[r].control)).0
    ensures var d := ExecutePass(st, c, r, now, env);
      && d.handler == Handled(st, c, r, env) && d.activeDefault == None
      && d.objs[r].status == (if env.callbackRaises then Failed else d.handler.objs[|c.handler.objs|].status)
      && (GoesFor(c.objs[r].control, m) ==>
            && m in d.slots.vals && d.slots.vals[m] == r
            && (m in c.slots.vals && c.slots.vals[m] != r ==> d.objs[c.slots.vals[m]].status == Superseded))
  {
    hide ModesOf, Resolve, Handled, GoesFor, Sweep, Beats, Contenders, IsDeEnergize, Enlist;
    var c1 := Resolve(Enlist(c, r, now), r, ModesOf(c.objs[r].control)).1;
    PassHandler(st, c, r, now, env);
    WonArbitration(c, r, now, m);
    BeforeSweepEffects(st, c, r, now, env);
    SweepEffects(st, BeforeSweep(st, c, r, now, env), c.objs[r].control.mRID, env.sweep, r);
    SweepClearsDefault(st, BeforeSweep(st, c, r, now, env), c.objs[r].control.mRID, env.sweep);
    ModesAreNamed(c.objs[r].control, m);
    CarryOutEffects(st, c1, r, env);
    if GoesFor(c.objs[r].control, m) {
      OwnSlotStays(st, c1, r, env, m);
    }
    hide HandOver, TakeSlots, BeforeSweep;
  }

  /** A control's own sweep leaves it its slots. */
  lemma OwnSlotStays(st: Settings, c: Client, r: nat, env: PassEnv, m: Mode)
    requires Wf(c) && KeyedById(c) && r < |c.objs| && m in ModesOf(c.objs[r].control)
    ensures var d := CarryOut(st, c, r, env); m in d.slots.vals && d.slots.vals[m] == r
  {
    hide H.HandleControl, TakeSlots, ModesOf, Sweep, IsDeEnergize, Emptied;
    var c1 := HandOver(st, c, r, env);
    var c2 := TakeSlots(c1, r);
    TakeSlotsEffects(c1, r);
    TakeSlotsTakes(c1, r, m);
    SurvivingSlots(st, c2, c.objs[r].control.mRID, env.sweep, m);
    OwnIsNotEmptied(c2, c.objs[r].control.mRID, m);
  }

  lemma OwnIsNotEmptied(c: Client, exclude: MRID, m: Mode)
    requires Wf(c) && m in c.slots.vals && c.objs[c.slots.vals[m]].control.mRID == exclude
    ensures !Emptied(c, exclude, c.slots.keys, m)
  {
  }

  /** Exactly what a default control does: nothing while a tracked control is ACTIVE, or if there is none, it has no
      setpoint, or it is the one in force; otherwise its power is requested, and it comes into force exactly if the
      request reports success. Nothing but the device and the default in force changes. */
  lemma DefaultExactly(st: Settings, c: Client, best: Option<Default>, env: Env)
    requires Wf(c) && KeyedById(c)
    ensures var d := Step(st, c, ApplyDefault(best, env));
      if (exists k :: k in c.tracked.vals && c.objs[c.tracked.vals[k]].status == Active)
         || best == None || best == c.activeDefault || best.value.base == None || best.value.base.value.fixedW == None
      then d == c
      else
        var watts := best.value.base.value.fixedW.value.ToWatts(); var p := c.handler.plant;
        && d == c.(handler := c.handler.(plant := d.handler.plant), activeDefault := d.activeDefault)
        && d.activeDefault == (if Reports(st.handler.power, watts, env, p) then best else c.activeDefault)
        && SafeStep(st.handler.power, p, d.handler.plant)
        && O.RegisterAfter(st.handler.power, watts, env, p, d.handler.plant)
  {
    hide SetPower, Reports, SafeStep, O.RegisterAfter;
    AnyActiveExactly(c, c.tracked.keys);
    if best.Some? && best.value.base.Some? && best.value.base.value.fixedW.Some? {
      O.RequestOutcome(st.handler.power, best.value.base.value.fixedW.value.ToWatts(), env, c.handler.plant, false);
    }
  }

  lemma {:induction false} AnyActiveExactly(c: Client, keys: seq<MRID>)
    requires Wf(c) && forall k :: k in keys ==> k in c.tracked.vals
    ensures AnyActive(c, keys) <==> exists k :: k in keys && c.objs[c.tracked.vals[k]].status == Active
    decreases |keys|
  {
    if keys != [] {
      AnyActiveExactly(c, keys[1..]);
      assert forall k :: k in keys <==> k == keys[0] || k in keys[1..];
    }
  }
}
