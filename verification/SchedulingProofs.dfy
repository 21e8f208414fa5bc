/** Scheduling: when, how often and with what outcome a control is executed, over every run of the client. */
module SchedulingProofs {
  import opened Common
  import opened DerModels
  import opened Plant
  import H = HandlerSpec
  import opened ClientSpec
  import opened ClientProofs

  // ----- the invariant -----

  /** Between steps a control is SCHEDULED, only if it has an interval, or has reached a final status. */
  predicate Settled(t: Tracked) {
    && t.offset >= 0
    && t.status !in {Pending, Active}
    && (t.status == Scheduled ==> t.control.interval.Some?)
  }

  /** The pass did not come before the control's start plus its random offset, and left it off the schedule. */
  ghost predicate ProperPass(objs: seq<Tracked>, p: Pass) {
    && p.ref < |objs|
    && objs[p.ref].status != Scheduled
    && (objs[p.ref].control.interval.Some? ==> objs[p.ref].control.interval.value.start + objs[p.ref].offset <= p.time)
  }

  ghost predicate ProperPasses(objs: seq<Tracked>, passes: seq<Pass>) {
    forall j :: 0 <= j < |passes| ==> ProperPass(objs, passes[j])
  }

  /** No control is executed twice. */
  ghost predicate RunOnce(passes: seq<Pass>) {
    forall i, j :: 0 <= i < j < |passes| ==> passes[i].ref != passes[j].ref
  }

  ghost predicate NotYetRun(passes: seq<Pass>, r: nat) {
    forall j :: 0 <= j < |passes| ==> passes[j].ref != r
  }

  ghost predicate Timely(c: Client) {
    && Wf(c)
    && KeyedById(c)
    && (forall i :: 0 <= i < |c.objs| ==> Settled(c.objs[i]))
    && ProperPasses(c.objs, c.history.passes)
    && RunOnce(c.history.passes)
  }

  /** The clock does not run backwards: the handler reads it after the client did. */
  ghost predicate ClockOk(op: Op) {
    match op
    case Process(_, _, msg) => msg.now <= msg.pass.t.checked
    case Tick(now, envs) => forall i :: 0 <= i < |envs| ==> now <= envs[i].t.checked
    case _ => true
  }

  // ----- one pass -----

  /** A control that has not run yet and whose effective start has come. */
  ghost predicate Ready(c: Client, r: nat, now: int, env: PassEnv) {
    && Wf(c) && KeyedById(c) && r < |c.objs|
    && (forall i :: 0 <= i < |c.objs| && i != r ==> Settled(c.objs[i]))
    && ProperPasses(c.objs, c.history.passes) && RunOnce(c.history.passes) && NotYetRun(c.history.passes, r)
    && c.objs[r].offset >= 0
    && (c.objs[r].control.interval.Some? ==> c.objs[r].control.interval.value.start + c.objs[r].offset <= now)
    && now <= env.t.checked
  }

  /** Superseding others keeps their passes proper. */
  lemma ProperPassesSurvive(c: Client, d: Client, r: nat, passes: seq<Pass>)
    requires OnlySupersedes(c, d, r) && ProperPasses(c.objs, passes) && NotYetRun(passes, r)
    ensures ProperPasses(d.objs, passes)
  {
    forall j | 0 <= j < |passes| ensures ProperPass(d.objs, passes[j]) {
      assert ProperPass(c.objs, passes[j]);
    }
  }

  lemma PassKeepsTimely(st: Settings, c: Client, r: nat, now: int, env: PassEnv)
    requires Ready(c, r, now, env)
    ensures var d := ExecutePass(st, c, r, now, env);
      && Timely(d)
      && d.history.passes == c.history.passes + [Pass(r, now)]
      && OnlySupersedes(c.(history := d.history), d, r)
  {
    hide ExecutePass;
    PassOutcome(st, c, r, now, env);
    var d := ExecutePass(st, c, r, now, env);
    ProperPassesSurvive(c.(history := d.history), d, r, c.history.passes);
    assert ProperPass(d.objs, Pass(r, now));
  }

  // ----- steps -----

  /** No new pass runs a control that was not SCHEDULED before the step, and such a control is never put back on
      the schedule: not one that ran, was swept, superseded or cancelled. Only the status of a control changes. */
  ghost predicate RunsOnlyScheduled(c: Client, d: Client) {
    && |c.objs| <= |d.objs|
    && c.history.passes <= d.history.passes
    && (forall j :: |c.history.passes| <= j < |d.history.passes| && d.history.passes[j].ref < |c.objs| ==>
          c.objs[d.history.passes[j].ref].status == Scheduled)
    && (forall i :: 0 <= i < |c.objs| ==>
          && d.objs[i] == c.objs[i].(status := d.objs[i].status)
          && (c.objs[i].status != Scheduled ==> d.objs[i].status != Scheduled))
  }

  lemma RunsOnlyScheduledComposes(c: Client, d: Client, e: Client)
    requires RunsOnlyScheduled(c, d) && RunsOnlyScheduled(d, e)
    ensures RunsOnlyScheduled(c, e)
  {
    forall j | |c.history.passes| <= j < |e.history.passes| && e.history.passes[j].ref < |c.objs|
      ensures c.objs[e.history.passes[j].ref].status == Scheduled
    {
      if j < |d.history.passes| {
        assert e.history.passes[j] == d.history.passes[j];
      }
    }
  }

  lemma DueIsReady(c: Client, r: nat, now: int, env: PassEnv)
    requires Timely(c) && r < |c.objs| && Due(c.objs[r], now) && now <= env.t.checked
    ensures Ready(c, r, now, env)
  {
    forall j | 0 <= j < |c.history.passes| ensures c.history.passes[j].ref != r {
      assert ProperPass(c.objs, c.history.passes[j]);
    }
  }

  lemma InterruptKeepsTimely(c: Client, triggered: bool)
    requires Timely(c)
    ensures Timely(Interrupt(c, triggered)) && RunsOnlyScheduled(c, Interrupt(c, triggered))
  {
  }

  lemma {:induction false} RunDueKeepsTimely(st: Settings, c: Client, refs: seq<nat>, i: nat, now: int,
        envs: seq<PassEnv>)
    requires Timely(c) && i <= |refs| && forall j :: 0 <= j < |refs| ==> refs[j] < |c.objs|
    requires ClockOk(Tick(now, envs))
    ensures Timely(RunDue(st, c, refs, i, now, envs))
    ensures RunsOnlyScheduled(c, RunDue(st, c, refs, i, now, envs))
    decreases |refs| - i
  {
    hide ExecutePass, Interrupt;
    if i < |refs| {
      var env := At(envs, i, Quiet(now));
      var c0 := Interrupt(c, env.stopBefore);
      InterruptKeepsTimely(c, env.stopBefore);
      if Due(c.objs[refs[i]], now) {
        var d := ExecutePass(st, c0, refs[i], now, env);
        DueIsReady(c0, refs[i], now, env);
        PassKeepsTimely(st, c0, refs[i], now, env);
        assert RunsOnlyScheduled(c0, d);
        RunDueKeepsTimely(st, d, refs, i + 1, now, envs);
        RunsOnlyScheduledComposes(c0, d, RunDue(st, d, refs, i + 1, now, envs));
      } else {
        RunDueKeepsTimely(st, c0, refs, i + 1, now, envs);
      }
      RunsOnlyScheduledComposes(c, c0, RunDue(st, c, refs, i, now, envs));
    }
  }

  lemma TrackIsReady(c: Client, t: Tracked, now: int, env: PassEnv)
    requires Timely(c) && t.offset >= 0 && now <= env.t.checked
    requires t.control.interval.Some? ==> t.control.interval.value.start + t.offset <= now
    ensures Ready(Track(c, t), |c.objs|, now, env)
  {
    var d := Track(c, t);
    forall j | 0 <= j < |d.history.passes|
      ensures ProperPass(d.objs, d.history.passes[j]) && d.history.passes[j].ref != |c.objs|
    {
      assert ProperPass(c.objs, c.history.passes[j]);
    }
  }

  lemma TrackKeepsTimely(c: Client, t: Tracked, status: EventStatus)
    requires Timely(c) && t.offset >= 0
    requires status == Cancelled || (status == Scheduled && t.control.interval.Some?)
    ensures Timely(SetStatus(Track(c, t), |c.objs|, status))
    ensures RunsOnlyScheduled(c, SetStatus(Track(c, t), |c.objs|, status))
  {
    var d := SetStatus(Track(c, t), |c.objs|, status);
    forall j | 0 <= j < |d.history.passes| ensures ProperPass(d.objs, d.history.passes[j]) {
      assert ProperPass(c.objs, c.history.passes[j]);
    }
  }

  lemma AdmitKeepsTimely(st: Settings, c: Client, control: Control, program: Program, env: MessageEnv)
    requires Timely(c) && env.now <= env.pass.t.checked
    ensures Timely(Admit(st, c, control, program, env))
    ensures RunsOnlyScheduled(c, Admit(st, c, control, program, env))
  {
    hide ExecutePass;
    var t := Tracked(control, program, RandomStart(st, control, env.pickStart),
                     RandomDuration(st, control, env.pickDuration), Pending);
    if control.interval.None? || control.interval.value.start + t.offset <= env.now {
      if control.interval.None? ||
         env.now < control.interval.value.start + control.interval.value.duration + t.adjustment
      {
        TrackIsReady(c, t, env.now, env.pass);
        PassKeepsTimely(st, Track(c, t), |c.objs|, env.now, env.pass);
        assert RunsOnlyScheduled(c, ExecutePass(st, Track(c, t), |c.objs|, env.now, env.pass));
      } else {
        TrackKeepsTimely(c, t, Cancelled);
      }
    } else {
      TrackKeepsTimely(c, t, Scheduled);
    }
  }

  lemma CancelKeepsTimely(c: Client, id: MRID)
    requires Timely(c)
    ensures Timely(CancelTracked(c, id)) && RunsOnlyScheduled(c, CancelTracked(c, id))
    ensures CancelTracked(c, id).tracked == c.tracked
  {
    var d := CancelTracked(c, id);
    forall j | 0 <= j < |d.history.passes| ensures ProperPass(d.objs, d.history.passes[j]) {
      assert ProperPass(c.objs, c.history.passes[j]);
    }
  }

  lemma {:induction false} CancelProgramKeepsTimely(c: Client, program: MRID, keys: seq<MRID>)
    requires Timely(c) && forall k :: k in keys ==> k in c.tracked.vals
    ensures Timely(CancelProgram(c, program, keys)) && RunsOnlyScheduled(c, CancelProgram(c, program, keys))
    decreases |keys|
  {
    if keys != [] {
      CancelKeepsTimely(c, keys[0]);
      var c1 := if c.objs[c.tracked.vals[keys[0]]].program.mRID == program then CancelTracked(c, keys[0]) else c;
      CancelProgramKeepsTimely(c1, program, keys[1..]);
      RunsOnlyScheduledComposes(c, c1, CancelProgram(c1, program, keys[1..]));
    }
  }

  lemma StepKeepsTimely(st: Settings, c: Client, op: Op)
    requires Timely(c) && ClockOk(op)
    ensures Timely(Step(st, c, op))
    ensures RunsOnlyScheduled(c, Step(st, c, op))
  {
    match op {
      case Process(control, program, msg) =>
        if control.mRID !in c.processed {
          AdmitKeepsTimely(st, c, control, program, msg);
        } else {
          ServerCancelKeepsTimely(st, c, control.mRID, msg.cancel);
        }
      case Tick(now, envs) => RunDueKeepsTimely(st, c, H.Refs(c.tracked, c.tracked.keys), 0, now, envs);
      case Untrack(id) => CancelProgramKeepsTimely(c, id, c.tracked.keys);
      case _ =>
    }
  }

  lemma ServerCancelKeepsTimely(st: Settings, c: Client, id: MRID, env: CancelEnv)
    requires Timely(c)
    ensures var c1 := c.(cancelled := c.cancelled + {id}, history := c.history.(cancels := c.history.cancels + [id]));
      Timely(ServerCancel(st, c1, id, env)) && RunsOnlyScheduled(c, ServerCancel(st, c1, id, env))
  {
    var c1 := c.(cancelled := c.cancelled + {id}, history := c.history.(cancels := c.history.cancels + [id]));
    var h := H.CancelControl(st.handler, c1.handler, id, env.t, env.env, env.env').0;
    CancelKeepsTimely(c1.(handler := h), id);
  }

  /** A tick leaves no control on the schedule whose effective start has come: none is forgotten. */
  lemma {:induction false} TickRunsEveryDueControl(st: Settings, c: Client, refs: seq<nat>, i: nat, now: int,
      envs: seq<PassEnv>, k: nat)
    requires Timely(c) && i <= k < |refs| && forall j :: 0 <= j < |refs| ==> refs[j] < |c.objs|
    requires ClockOk(Tick(now, envs))
    ensures !Due(RunDue(st, c, refs, i, now, envs).objs[refs[k]], now)
    decreases k - i
  {
    hide ExecutePass;
    var env := At(envs, i, Quiet(now));
    var c0 := Interrupt(c, env.stopBefore);
    var d := if Due(c.objs[refs[i]], now) then ExecutePass(st, c0, refs[i], now, env) else c0;
    if Due(c.objs[refs[i]], now) {
      DueIsReady(c0, refs[i], now, env);
      PassKeepsTimely(st, c0, refs[i], now, env);
      assert ProperPass(d.objs, d.history.passes[|c.history.passes|]);
    }
    if i == k {
      RunDueKeepsTimely(st, d, refs, i + 1, now, envs);
    } else {
      TickRunsEveryDueControl(st, d, refs, i + 1, now, envs, k);
    }
  }

  /** Scheduling, over every run with a clock that does not run backwards: every pass happens at or after the
      control's start plus its random offset, no control is executed twice, a control that ran, was swept or was
      cancelled is never executed again, and between steps no control is ACTIVE. */
  lemma {:induction false} TimelyAlways(st: Settings, c: Client, ops: seq<Op>)
    requires Timely(c) && forall i :: 0 <= i < |ops| ==> ClockOk(ops[i])
    ensures Timely(Run(st, c, ops)) && RunsOnlyScheduled(c, Run(st, c, ops))
    decreases |ops|
  {
    if ops != [] {
      var c1 := Step(st, c, ops[0]);
      StepKeepsTimely(st, c, ops[0]);
      TimelyAlways(st, c1, ops[1..]);
      RunsOnlyScheduledComposes(c, c1, Run(st, c1, ops[1..]));
    }
  }
}
