/** What holds after every run of the handler from its empty start, and how large its event store can be. */
module HandlerTheorems {
  import opened Common
  import opened DerModels
  import opened Plant
  import opened PlantProofs
  import opened HandlerSpec
  import opened HandlerProofs
  import opened CleanupProofs

  // ----- the store stays a proper dict -----

  lemma PutKeepsExact<V>(d: Dict<MRID, V>, k: MRID, v: V)
    requires d.Exact()
    ensures d.Put(k, v).Exact()
  {
  }

  lemma StoredExecutionKeepsExact(st: Settings, h: Handler, control: Control, t: Times, env: Env)
    requires Wf(h) && h.store.Exact()
    ensures Store(Execute(st, Allocate(h, control, t.received), |h.objs|, t.executed, env), |h.objs|).store.Exact()
  {
    hide Execute;
    var h0 := Allocate(h, control, t.received);
    ExecuteOutcome(st, h0, |h.objs|, t.executed, env);
    PutKeepsExact(h.store, control.mRID, |h.objs|);
  }

  lemma {:induction false} RunDueKeepsStore(st: Settings, h: Handler, refs: seq<nat>, i: nat, now: int,
        visits: seq<Visit>)
    requires Wf(h) && i <= |refs| && forall j :: 0 <= j < |refs| ==> refs[j] < |h.objs|
    ensures RunDue(st, h, refs, i, now, visits).store == h.store
    decreases |refs| - i
  {
    hide Execute;
    if i < |refs| {
      var v := At(visits, i, Visit(false, now, Env([], [])));
      var h0 := Interrupt(h, v.stopBefore);
      if Due(h.objs[refs[i]], now) {
        ExecuteOutcome(st, h0, refs[i], v.time, v.env);
        RunDueKeepsStore(st, Execute(st, h0, refs[i], v.time, v.env), refs, i + 1, now, visits);
      } else {
        RunDueKeepsStore(st, h0, refs, i + 1, now, visits);
      }
    }
  }

  lemma StepKeepsExact(st: Settings, h: Handler, op: Op)
    requires Wf(h) && h.store.Exact()
    ensures Step(st, h, op).store.Exact()
  {
    hide Execute, RunDue, DropStale, DropExcess;
    match op {
      case Handle(c, t, env) =>
        if StartsLater(c, t.checked) {
          PutKeepsExact(h.store, c.mRID, |h.objs|);
        } else {
          StoredExecutionKeepsExact(st, h, c, t, env);
          var h1 := Store(Execute(st, Allocate(h, c, t.received), |h.objs|, t.executed, env), |h.objs|);
          CleanupResult(st, h1, t.cleaned, c.mRID, c.mRID);
        }
      case Cancel(id, t, env, env') =>
        if h.store.Has(id) && Cancellable(h.objs[h.store.vals[id]].status) && h.fallback.Some? {
          var e := h.store.vals[id];
          var h1 := SetStatus(h, e, Cancelled).(active := None, plant := Recovery(st, h, e, env));
          StoredExecutionKeepsExact(st, h1, h.fallback.value, t, env');
        }
      case Tick(now, visits) => RunDueKeepsStore(st, h, Refs(h.store, h.store.keys), 0, now, visits);
      case _ =>
    }
  }

  // ----- main results -----

  /** After every run: one owner of the PCS, every P_SET write safe, the store a dict without duplicates, and, in
      production with a writer whose exceptions carry texts, handler and device in agreement. */
  lemma EveryRun(st: Settings, ops: seq<Op>)
    ensures var h := Run(st, START, ops);
      && Owned(h)
      && SafeLog(st.power, h.plant.log)
      && h.store.Exact()
      && (HasPcs(st) && (forall i :: 0 <= i < |ops| ==> Informative(ops[i])) ==> DeviceAgrees(st, h))
  {
    hide Run, Step;
    OwnedAlways(st, START, ops);
    EnvelopeAlways(st, START, ops);
    ExactAlways(st, START, ops);
    if HasPcs(st) && forall i :: 0 <= i < |ops| ==> Informative(ops[i]) {
      DeviceAgreesAlways(st, START, ops);
    }
  }

  lemma {:induction false} ExactAlways(st: Settings, h: Handler, ops: seq<Op>)
    requires Wf(h) && h.store.Exact()
    ensures Run(st, h, ops).store.Exact()
    decreases |ops|
  {
    hide Step;
    if ops != [] {
      StepKeepsExact(st, h, ops[0]);
      ExactAlways(st, Step(st, h, ops[0]), ops[1..]);
    }
  }

  /** Whatever was stored before, right after a control is handled at once the store holds at most maxTracked
      events, and no stale one. */
  lemma StoreIsBounded(st: Settings, ops: seq<Op>, c: Control, t: Times, env: Env, kept: MRID)
    requires !StartsLater(c, t.checked)
    ensures var h := Step(st, Run(st, START, ops), Handle(c, t, env));
      && |h.store.keys| <= st.maxTracked
      && (kept in h.store.vals ==> !Stale(h.objs[h.store.vals[kept]], t.cleaned - st.retention))
  {
    hide Run, Execute;
    EveryRun(st, ops);
    var h := Run(st, START, ops);
    FreshEventKeepsOwned(st, h, c, t, env);
    StoredExecutionKeepsExact(st, h, c, t, env);
    var h1 := Store(Execute(st, Allocate(h, c, t.received), |h.objs|, t.executed, env), |h.objs|);
    CleanupKeepsOwned(st, h1, t.cleaned);
    CleanupResult(st, h1, t.cleaned, kept, kept);
  }

  // ----- evicted events -----

  /** Event r is neither stored nor active. */
  ghost predicate Forgotten(h: Handler, r: nat) {
    && Wf(h) && r < |h.objs| && h.active != Some(r)
    && forall k :: k in h.store.vals ==> h.store.vals[k] != r
  }

  lemma ExecuteForgets(st: Settings, h: Handler, r: nat, e: nat, now: int, env: Env)
    requires Forgotten(h, r) && e < |h.objs| && e != r
    ensures var h' := Execute(st, h, e, now, env); Forgotten(h', r) && h'.objs[r] == h.objs[r] && h'.store == h.store
  {
    hide Execute;
    ExecuteOutcome(st, h, e, now, env);
  }

  lemma FreshForgets(st: Settings, h: Handler, r: nat, control: Control, t: Times, env: Env)
    requires Forgotten(h, r)
    ensures var h' := Store(Execute(st, Allocate(h, control, t.received), |h.objs|, t.executed, env), |h.objs|);
      Forgotten(h', r) && h'.objs[r] == h.objs[r]
  {
    hide Execute;
    ExecuteForgets(st, Allocate(h, control, t.received), r, |h.objs|, t.executed, env);
  }

  lemma {:induction false} RunDueForgets(st: Settings, h: Handler, r: nat, refs: seq<nat>, i: nat, now: int,
        visits: seq<Visit>)
    requires Forgotten(h, r) && i <= |refs| && forall j :: 0 <= j < |refs| ==> refs[j] < |h.objs| && refs[j] != r
    ensures var h' := RunDue(st, h, refs, i, now, visits); Forgotten(h', r) && h'.objs[r] == h.objs[r]
    decreases |refs| - i
  {
    hide Execute;
    if i < |refs| {
      var v := At(visits, i, Visit(false, now, Env([], [])));
      var h0 := Interrupt(h, v.stopBefore);
      if Due(h.objs[refs[i]], now) {
        ExecuteForgets(st, h0, r, refs[i], v.time, v.env);
        RunDueForgets(st, Execute(st, h0, refs[i], v.time, v.env), r, refs, i + 1, now, visits);
      } else {
        RunDueForgets(st, h0, r, refs, i + 1, now, visits);
      }
    }
  }

  lemma StepForgets(st: Settings, h: Handler, r: nat, op: Op)
    requires Forgotten(h, r)
    ensures Forgotten(Step(st, h, op), r) && Step(st, h, op).objs[r] == h.objs[r]
  {
    hide Execute;
    match op {
      case Handle(c, t, env) => FreshForgets(st, h, r, c, t, env);
      case Cancel(id, t, env, env') =>
        if h.store.Has(id) && Cancellable(h.objs[h.store.vals[id]].status) && h.fallback.Some? {
          var e := h.store.vals[id];
          var h1 := SetStatus(h, e, Cancelled).(active := None, plant := Recovery(st, h, e, env));
          FreshForgets(st, h1, r, h.fallback.value, t, env');
        }
      case Tick(now, visits) =>
        var refs := Refs(h.store, h.store.keys);
        forall j | 0 <= j < |refs| ensures refs[j] < |h.objs| && refs[j] != r {
          assert h.store.keys[j] in h.store.vals;
        }
        RunDueForgets(st, h, r, refs, 0, now, visits);
      case _ =>
    }
  }

  /** An event that is neither stored nor active is never touched again. */
  lemma {:induction false} ForgottenForever(st: Settings, h: Handler, r: nat, ops: seq<Op>)
    requires Forgotten(h, r)
    ensures Forgotten(Run(st, h, ops), r) && Run(st, h, ops).objs[r] == h.objs[r]
    decreases |ops|
  {
    hide Step;
    if ops != [] {
      StepForgets(st, h, r, ops[0]);
      ForgottenForever(st, Step(st, h, ops[0]), r, ops[1..]);
    }
  }

  const TINY := Settings(Config(false, Limits(0, 0, 0.0, 100.0), None), 1, 10)

  /** Starts at time 100. */
  const WAITING := Control(1, 0, Some(Interval(100, 60)), None, None, None, None)

  const NOTHING := Control(2, 0, None, None, None, None, None)

  const FIRST := Handle(WAITING, Times(0, 0, 0, 0), Env([], []))

  const SECOND := Handle(NOTHING, Times(1, 1, 1, 1), Env([], []))

  /** The handler after the two controls, before the clean-up. */
  function BeforeEviction(): Handler {
    Handler(
      [Event(WAITING, Scheduled, 0, None, None), Event(NOTHING, Completed, 1, Some(1), None)],
      Dict([1, 2], map[1 := 0, 2 := 1]), None, None, START.plant)
  }

  lemma AfterWaiting()
    ensures Step(TINY, START, FIRST) ==
      Handler([Event(WAITING, Scheduled, 0, None, None)], Dict([1], map[1 := 0]), None, None, START.plant)
  {
    hide Cleanup, Execute;
    assert StartsLater(WAITING, 0);
  }

  lemma StepsToEviction()
    ensures Wf(BeforeEviction()) && Step(TINY, Step(TINY, START, FIRST), SECOND) == Cleanup(TINY, BeforeEviction(), 1)
  {
    hide Cleanup, DisconnectPcs, ReconnectPcs, SetPower;
    AfterWaiting();
    var h1 := Handler([Event(WAITING, Scheduled, 0, None, None)], Dict([1], map[1 := 0]), None, None, START.plant);
    assert ActionOf(NOTHING) == NoAction;
    assert Execute(TINY, Allocate(h1, NOTHING, 1), 1, 1, Env([], [])).objs == BeforeEviction().objs;
    assert Store(Execute(TINY, Allocate(h1, NOTHING, 1), 1, 1, Env([], [])), 1) == BeforeEviction();
    hide Execute;
  }

  lemma EvictsWaiting()
    requires Wf(BeforeEviction())
    ensures Forgotten(Cleanup(TINY, BeforeEviction(), 1), 0)
    ensures Cleanup(TINY, BeforeEviction(), 1).objs == BeforeEviction().objs
  {
    var h := BeforeEviction();
    assert StaleKeys(h, -9, [2]) == [] && StaleKeys(h, -9, [1, 2]) == [];
    assert DropStale(TINY, h, 1) == h;
    var received, keys := ReceivedTimes(h), h.store.keys;
    assert keys == [1, 2] && received[1] == 0 && received[2] == 1;
    NeverItself(received, keys, 1);
    assert (set x | x in keys && GoesBefore(received, keys, x, 1)) == {};
    EvictedExactly(TINY, h, 1);
    ExcessGoesOldestFirst(TINY, h, 1, 2);
  }

  /** A control that waits for its start is evicted by the next one, and whatever happens then, it stays SCHEDULED and
      is never executed. */
  lemma WaitingEventIsEvicted(later: seq<Op>)
    ensures var h := Run(TINY, START, [FIRST, SECOND] + later);
      h.objs != [] && h.objs[0] == Event(WAITING, Scheduled, 0, None, None)
  {
    hide Step, Cleanup, Execute;
    StepsToEviction();
    EvictsWaiting();
    RunTwoAndMore(FIRST, SECOND, later);
    ForgottenForever(TINY, Step(TINY, Step(TINY, START, FIRST), SECOND), 0, later);
  }

  lemma RunTwoAndMore(a: Op, b: Op, later: seq<Op>)
    ensures Run(TINY, START, [a, b] + later) == Run(TINY, Step(TINY, Step(TINY, START, a), b), later)
  {
    hide Step;
    assert ([a, b] + later)[1..] == [b] + later;
    assert ([b] + later)[1..] == later;
    assert Run(TINY, Step(TINY, START, a), [b] + later) == Run(TINY, Step(TINY, Step(TINY, START, a), b), later);
  }

  // ----- events that are COMPLETED without a write -----

  /** In production without a writer, exactly the power events that the stop does not block and the validation admits
      are COMPLETED, and no power event writes anything. */
  lemma UnwrittenPowerEvents(st: Settings, h: Handler, r: nat, now: int, env: Env)
    requires Wf(h) && r < |h.objs| && st.power.production && st.power.writer.None? && !h.plant.stopped
    requires ActionOf(h.objs[r].control).Setpoint?
    ensures var h' := Execute(st, h, r, now, env); var watts := ActionOf(h.objs[r].control).watts;
      && h'.plant.log == h.plant.log
      && (h'.objs[r].status == Completed <==> !env.Trigger(0) && Admissible(st.power.limits, h.plant.soc, watts))
  {
    RequestIsSafe(st.power, ActionOf(h.objs[r].control).watts, env, h.plant, false);
  }

  const UNWRITTEN := Control(1, 0, None, None, None, None,
    Some(ControlBase(Some(SignedPerCent(4000, 0)), None, None, None, None)))

  /** A setpoint of 4000 W is COMPLETED and owns the PCS, and nothing was written. */
  lemma SetpointCompletesUnwritten(t: Times)
    ensures var h := Step(Settings(NO_WRITER, 10, 10), START, Handle(UNWRITTEN, t, Env([], [])));
      && h.active == Some(0) && h.objs[0].control == UNWRITTEN && h.objs[0].status == Completed
      && h.plant == START.plant
  {
    hide Cleanup;
    var st := Settings(NO_WRITER, 10, 10);
    assert UNWRITTEN.base.value.fixedW.value.ToWatts() == 4000.0;
    var h0 := Allocate(START, UNWRITTEN, t.received);
    UnwrittenPowerEvents(st, h0, 0, t.executed, Env([], []));
    NoWriterReadsAsSuccess(Env([], []));
    var h1 := Store(Execute(st, h0, 0, t.executed, Env([], [])), 0);
    OwnedAlways(st, START, []);
    FreshEventKeepsOwned(st, START, UNWRITTEN, t, Env([], []));
    CleanupKeepsOwned(st, h1, t.cleaned);
    hide SetPower;
  }
}
