/** What every step of the handler keeps, and so every run: who owns the PCS, what the device register holds,
    which writes reach the bus and what may lift the emergency stop. */
module HandlerProofs {
  import opened Common
  import opened DerModels
  import opened Plant
  import opened PlantProofs
  import opened HandlerSpec

  // ----- the invariants -----

  /** Every stored event sits under its own id; the active event has acted, with an outcome. */
  ghost predicate Shape(h: Handler) {
    && Wf(h)
    && (forall k :: k in h.store.vals ==> h.objs[h.store.vals[k]].control.mRID == k)
    && (h.active.Some? ==>
          var e := h.objs[h.active.value]; Acts(e.control) && e.status in {Completed, Failed})
  }

  /** At most one stored event that acts on the PCS is COMPLETED, and it is the active one. */
  ghost predicate SingleOwner(h: Handler)
    requires Wf(h)
  {
    forall k :: k in h.store.vals ==>
      var e := h.objs[h.store.vals[k]];
      e.status == Completed && Acts(e.control) ==> h.active == Some(h.store.vals[k])
  }

  ghost predicate Owned(h: Handler) {
    Shape(h) && SingleOwner(h)
  }

  /** While the active event is COMPLETED the last acknowledged P_SET word is the one it asked for. */
  ghost predicate DeviceAgrees(st: Settings, h: Handler)
    requires Wf(h) && st.power.writer.Some?
  {
    h.active.Some? && h.objs[h.active.value].status == Completed ==>
      match ActionOf(h.objs[h.active.value].control)
      case Setpoint(watts) => LastAcked(h.plant.log) == Some(Encode(st.power.writer.value.scale, watts))
      case Disconnect => LastAcked(h.plant.log) == Some(0)
      case DeEnergize => LastAcked(h.plant.log) == Some(0)
      case _ => true
  }

  // ----- one execution -----

  /** The commands the emergency stop does not block; they lift it. */
  predicate Recovers(c: Control) {
    ActionOf(c) in {Connect, Energize}
  }

  /** Safe records only; under an emergency stop nothing is written to P_SET and the stop stays, unless the
      step may lift it. */
  ghost predicate PlantMoves(st: Settings, s: State, t: State, mayLift: bool) {
    && s.log <= t.log
    && s.soc == t.soc
    && (forall i :: |s.log| <= i < |t.log| ==> SafeRecord(st.power, t.log[i]) && (t.log[i].PSet? ==>
         t.log[i].soc == s.soc))
    && (s.stopped && !mayLift ==> t.stopped && forall i :: |s.log| <= i < |t.log| ==> !t.log[i].PSet?)
  }

  /** Event r became the active one, and displaced the previous one unless that carries the same mRID. */
  ghost predicate TookOver(h: Handler, r: nat, h': Handler)
    requires Wf(h) && Wf(h') && r < |h.objs| == |h'.objs|
  {
    && h'.active == Some(r)
    && Acts(h.objs[r].control)
    && (forall i :: 0 <= i < |h.objs| && i != r ==>
          h'.objs[i] ==
          if h.active ==
            Some(i) && h.objs[i].control.mRID != h.objs[r].control.mRID && h.objs[i].status in {Active, Completed}
          then h.objs[i].(status := Superseded) else h.objs[i])
  }

  /** Event r was blocked, or had nothing to do: nobody else notices. */
  ghost predicate LeftAlone(h: Handler, r: nat, h': Handler)
    requires Wf(h) && Wf(h') && r < |h.objs| == |h'.objs|
  {
    && h'.active == h.active
    && h'.plant == h.plant
    && (Acts(h.objs[r].control) ==> h'.objs[r].status == Failed)
    && (forall i :: 0 <= i < |h.objs| && i != r ==> h'.objs[i] == h.objs[i])
  }

  lemma ConcludeOutcome(h: Handler, r: nat, now: int, result: Option<ControlResult>, plant: State)
    requires Wf(h) && r < |h.objs| && Acts(h.objs[r].control)
    ensures var h' := Conclude(Begin(h, r, now), r, result, plant);
      && h'.store == h.store && h'.fallback == h.fallback && h'.plant == plant
      && (forall i :: 0 <= i < |h.objs| ==> h'.objs[i].control == h.objs[i].control)
      && h'.objs[r].status == (if result.Some? && !result.value.Success() then Failed else Completed)
      && TookOver(h, r, h')
  {
  }

  lemma PlantStep(st: Settings, h: Handler, r: nat, now: int, env: Env)
    requires Wf(h) && r < |h.objs|
    ensures PlantMoves(st, h.plant, Execute(st, h, r, now, env).plant, Recovers(h.objs[r].control))
  {
    match ActionOf(h.objs[r].control) {
      case Connect => ReconnectIsSafe(st.power, env, h.plant.Lift());
      case Disconnect => DisconnectIsSafe(st.power, env, h.plant);
      case DeEnergize => SetPowerIsSafe(st.power, 0.0, env, h.plant);
      case Setpoint(watts) => SetPowerIsSafe(st.power, watts, env, h.plant);
      case _ =>
    }
  }

  lemma ExecuteOutcome(st: Settings, h: Handler, r: nat, now: int, env: Env)
    requires Wf(h) && r < |h.objs|
    ensures var h' := Execute(st, h, r, now, env);
      && h'.store == h.store && h'.fallback == h.fallback
      && (forall i :: 0 <= i < |h.objs| ==> h'.objs[i].control == h.objs[i].control)
      && h'.objs[r].status in {Completed, Failed}
      && PlantMoves(st, h.plant, h'.plant, Recovers(h.objs[r].control))
      && (TookOver(h, r, h') || LeftAlone(h, r, h'))
  {
    PlantStep(st, h, r, now, env);
    match ActionOf(h.objs[r].control) {
      case Connect =>
        var (res, p) := ReconnectPcs(st.power, env, h.plant.Lift());
        ConcludeOutcome(h, r, now, Some(res), p);
      case Energize =>
        ConcludeOutcome(h, r, now, None, h.plant.Lift());
      case Disconnect =>
        var (res, p) := DisconnectPcs(st.power, env, h.plant);
        ConcludeOutcome(h, r, now, Some(res), p);
      case DeEnergize =>
        var (res, p) := SetPower(st.power, 0.0, env, h.plant);
        ConcludeOutcome(h, r, now, Some(res), p);
      case Setpoint(watts) =>
        var (res, p) := SetPower(st.power, watts, env, h.plant);
        ConcludeOutcome(h, r, now, Some(res), p);
      case NoAction =>
    }
  }

  /** A finished command leaves its own word in the device register. */
  lemma ExecuteAgrees(st: Settings, h: Handler, r: nat, now: int, env: Env)
    requires Wf(h) && r < |h.objs|
    requires st.power.production && st.power.writer.Some? && env.Informative()
    requires DeviceAgrees(st, h)
    ensures DeviceAgrees(st, Execute(st, h, r, now, env))
  {
    hide SetPower, DisconnectPcs, ReconnectPcs, SafeStep, PlantMoves, LastAcked;
    var h' := Execute(st, h, r, now, env);
    ExecuteOutcome(st, h, r, now, env);
    if LeftAlone(h, r, h') {
      return;
    }
    match ActionOf(h.objs[r].control) {
      case Disconnect => DisconnectIsSafe(st.power, env, h.plant);
      case DeEnergize => SetPowerIsSafe(st.power, 0.0, env, h.plant);
      case Setpoint(watts) => SetPowerIsSafe(st.power, watts, env, h.plant);
      case _ =>
    }
  }

  // ----- single owner -----

  lemma FreshEventKeepsOwned(st: Settings, h: Handler, control: Control, t: Times, env: Env)
    requires Owned(h)
    ensures Owned(Store(Execute(st, Allocate(h, control, t.received), |h.objs|, t.executed, env), |h.objs|))
    ensures Execute(st, Allocate(h, control, t.received), |h.objs|, t.executed, env).store == h.store
  {
    var h0 := Allocate(h, control, t.received);
    ExecuteOutcome(st, h0, |h.objs|, t.executed, env);
    var h1 := Execute(st, h0, |h.objs|, t.executed, env);
    var h2 := Store(h1, |h.objs|);
    forall k | k in h2.store.vals
      ensures h2.objs[h2.store.vals[k]].control.mRID == k
      ensures var e := h2.objs[h2.store.vals[k]];
        e.status == Completed && Acts(e.control) ==> h2.active == Some(h2.store.vals[k])
    {
      if k != control.mRID {
        assert h0.objs[h.store.vals[k]] == h.objs[h.store.vals[k]];
      }
    }
  }

  lemma StoredEventKeepsOwned(st: Settings, h: Handler, r: nat, now: int, env: Env)
    requires Owned(h) && r < |h.objs|
    requires h.objs[r].control.mRID in h.store.vals && h.store.vals[h.objs[r].control.mRID] == r
    ensures Owned(Execute(st, h, r, now, env))
  {
    ExecuteOutcome(st, h, r, now, env);
    var h1 := Execute(st, h, r, now, env);
    forall k | k in h1.store.vals
      ensures var e := h1.objs[h1.store.vals[k]];
        e.status == Completed && Acts(e.control) ==> h1.active == Some(h1.store.vals[k])
    {
      assert h.objs[h.store.vals[k]].control.mRID == k;
    }
  }

  lemma SmallerStoreKeepsOwned(h: Handler, d: Dict<MRID, nat>)
    requires Owned(h) && d.Valid()
    requires forall k :: k in d.vals ==> k in h.store.vals && d.vals[k] == h.store.vals[k]
    ensures Owned(h.(store := d))
  {
  }

  lemma CleanupKeepsOwned(st: Settings, h: Handler, now: int)
    requires Owned(h)
    ensures Owned(Cleanup(st, h, now))
    ensures Cleanup(st, h, now) == h.(store := Cleanup(st, h, now).store)
  {
    SmallerStoreKeepsOwned(h, DropStale(st, h, now).store);
    SmallerStoreKeepsOwned(DropStale(st, h, now), Cleanup(st, h, now).store);
  }

  /** Comparing events field by field finds the active event itself and nothing else: only the event being
      cancelled can be CANCELLED. */
  lemma EqualityIsIdentity(h: Handler, e: nat)
    requires Shape(h) && e < |h.objs|
    ensures EqualsActive(SetStatus(h, e, Cancelled), e) <==> h.active == Some(e)
  {
  }

  lemma CancelKeepsOwned(st: Settings, h: Handler, id: MRID, t: Times, env: Env, env': Env)
    requires Owned(h)
    ensures Owned(CancelControl(st, h, id, t, env, env').0)
  {
    if h.store.Has(id) && Cancellable(h.objs[h.store.vals[id]].status) {
      var e := h.store.vals[id];
      EqualityIsIdentity(h, e);
      var h1 := SetStatus(h, e, Cancelled);
      if h.active == Some(e) {
        var p := Recovery(st, h, e, env);
        var h2 := h1.(active := None, plant := p);
        assert Owned(h2);
        if h.fallback.Some? {
          FreshEventKeepsOwned(st, h2, h.fallback.value, t, env');
        }
      } else {
        assert Owned(h1);
      }
    }
  }

  lemma {:induction false} RunDueKeepsOwned(st: Settings, h: Handler, refs: seq<nat>, i: nat, now: int,
        visits: seq<Visit>)
    requires Owned(h) && i <= |refs|
    requires forall j :: 0 <= j < |refs| ==>
      && refs[j] < |h.objs| && h.objs[refs[j]].control.mRID in h.store.vals
      && h.store.vals[h.objs[refs[j]].control.mRID] == refs[j]
    ensures Owned(RunDue(st, h, refs, i, now, visits))
    decreases |refs| - i
  {
    if i < |refs| {
      var v := At(visits, i, Visit(false, now, Env([], [])));
      var h0 := Interrupt(h, v.stopBefore);
      if Due(h.objs[refs[i]], now) {
        StoredEventKeepsOwned(st, h0, refs[i], v.time, v.env);
        ExecuteOutcome(st, h0, refs[i], v.time, v.env);
        RunDueKeepsOwned(st, Execute(st, h0, refs[i], v.time, v.env), refs, i + 1, now, visits);
      } else {
        RunDueKeepsOwned(st, h0, refs, i + 1, now, visits);
      }
    }
  }

  lemma StepKeepsOwned(st: Settings, h: Handler, op: Op)
    requires Owned(h)
    ensures Owned(Step(st, h, op))
  {
    match op {
      case Handle(c, t, env) =>
        if !StartsLater(c, t.checked) {
          FreshEventKeepsOwned(st, h, c, t, env);
          CleanupKeepsOwned(st, Store(Execute(st, Allocate(h, c, t.received), |h.objs|, t.executed, env), |h.objs|),
            t.cleaned);
        }
      case Cancel(id, t, env, env') => CancelKeepsOwned(st, h, id, t, env, env');
      case Tick(now, visits) =>
        var refs := Refs(h.store, h.store.keys);
        forall j | 0 <= j < |refs|
          ensures refs[j] < |h.objs| && h.objs[refs[j]].control.mRID in h.store.vals
          ensures h.store.vals[h.objs[refs[j]].control.mRID] == refs[j]
        {
          assert h.store.keys[j] in h.store.vals;
        }
        RunDueKeepsOwned(st, h, refs, 0, now, visits);
      case _ =>
    }
  }

  /** Single owner, over every run of the handler. */
  lemma {:induction false} OwnedAlways(st: Settings, h: Handler, ops: seq<Op>)
    requires Owned(h)
    ensures Owned(Run(st, h, ops))
    decreases |ops|
  {
    if ops != [] {
      StepKeepsOwned(st, h, ops[0]);
      OwnedAlways(st, Step(st, h, ops[0]), ops[1..]);
    }
  }

  // ----- handler and device agree -----

  ghost predicate VisitsInformative(visits: seq<Visit>) {
    forall i :: 0 <= i < |visits| ==> visits[i].env.Informative()
  }

  /** No write of this step raises an exception with an empty message. */
  ghost predicate Informative(op: Op) {
    match op
    case Handle(_, _, env) => env.Informative()
    case Cancel(_, _, env, env') => env.Informative() && env'.Informative()
    case Tick(_, visits) => VisitsInformative(visits)
    case _ => true
  }

  ghost predicate HasPcs(st: Settings) {
    st.power.production && st.power.writer.Some?
  }

  lemma FreshEventAgrees(st: Settings, h: Handler, control: Control, t: Times, env: Env)
    requires Wf(h) && HasPcs(st) && env.Informative() && DeviceAgrees(st, h)
    ensures DeviceAgrees(st, Store(Execute(st, Allocate(h, control, t.received), |h.objs|, t.executed, env), |h.objs|))
  {
    ExecuteAgrees(st, Allocate(h, control, t.received), |h.objs|, t.executed, env);
  }

  lemma CancelAgrees(st: Settings, h: Handler, id: MRID, t: Times, env: Env, env': Env)
    requires Shape(h) && HasPcs(st) && env'.Informative() && DeviceAgrees(st, h)
    ensures DeviceAgrees(st, CancelControl(st, h, id, t, env, env').0)
  {
    if h.store.Has(id) && Cancellable(h.objs[h.store.vals[id]].status) {
      var e := h.store.vals[id];
      EqualityIsIdentity(h, e);
      if h.active == Some(e) && h.fallback.Some? {
        var h1 := SetStatus(h, e, Cancelled);
        var p := Recovery(st, h, e, env);
        FreshEventAgrees(st, h1.(active := None, plant := p), h.fallback.value, t, env');
      }
    }
  }

  lemma InterruptAgrees(st: Settings, h: Handler, triggered: bool)
    requires Wf(h) && st.power.writer.Some? && DeviceAgrees(st, h)
    ensures DeviceAgrees(st, Interrupt(h, triggered))
  {
  }

  lemma {:induction false} RunDueAgrees(st: Settings, h: Handler, refs: seq<nat>, i: nat, now: int, visits: seq<Visit>)
    requires Wf(h) && i <= |refs| && forall j :: 0 <= j < |refs| ==> refs[j] < |h.objs|
    requires HasPcs(st) && VisitsInformative(visits) && DeviceAgrees(st, h)
    ensures DeviceAgrees(st, RunDue(st, h, refs, i, now, visits))
    decreases |refs| - i
  {
    hide Execute, DeviceAgrees, Interrupt;
    if i < |refs| {
      var v := At(visits, i, Visit(false, now, Env([], [])));
      var h0 := Interrupt(h, v.stopBefore);
      InterruptAgrees(st, h, v.stopBefore);
      assert v.env.Informative();
      if Due(h.objs[refs[i]], now) {
        ExecuteAgrees(st, h0, refs[i], v.time, v.env);
        RunDueAgrees(st, Execute(st, h0, refs[i], v.time, v.env), refs, i + 1, now, visits);
      } else {
        RunDueAgrees(st, h0, refs, i + 1, now, visits);
      }
    }
  }

  lemma StepAgrees(st: Settings, h: Handler, op: Op)
    requires Owned(h) && HasPcs(st) && Informative(op) && DeviceAgrees(st, h)
    ensures DeviceAgrees(st, Step(st, h, op))
  {
    match op {
      case Handle(c, t, env) =>
        if !StartsLater(c, t.checked) {
          FreshEventAgrees(st, h, c, t, env);
        }
      case Cancel(id, t, env, env') => CancelAgrees(st, h, id, t, env, env');
      case Tick(now, visits) => RunDueAgrees(st, h, Refs(h.store, h.store.keys), 0, now, visits);
      case _ =>
    }
  }

  /** Handler and device agree, over every production run with a writer. */
  lemma {:induction false} DeviceAgreesAlways(st: Settings, h: Handler, ops: seq<Op>)
    requires Owned(h) && HasPcs(st) && DeviceAgrees(st, h)
    requires forall i :: 0 <= i < |ops| ==> Informative(ops[i])
    ensures DeviceAgrees(st, Run(st, h, ops))
    decreases |ops|
  {
    if ops != [] {
      StepAgrees(st, h, ops[0]);
      StepKeepsOwned(st, h, ops[0]);
      DeviceAgreesAlways(st, Step(st, h, ops[0]), ops[1..]);
    }
  }

  // ----- the emergency stop and the envelope -----

  lemma PlantMovesCompose(st: Settings, s: State, t: State, u: State, m: bool, n: bool)
    requires PlantMoves(st, s, t, m) && PlantMoves(st, t, u, n)
    ensures PlantMoves(st, s, u, m || n)
  {
    forall i | |s.log| <= i < |u.log|
      ensures SafeRecord(st.power, u.log[i]) && (u.log[i].PSet? ==> u.log[i].soc == s.soc)
      ensures s.stopped && !m && !n ==> !u.log[i].PSet?
    {
      if i < |t.log| {
        assert u.log[i] == t.log[i];
      }
    }
  }

  /** The only steps that may lift an emergency stop: executing opModConnect=true or opModEnergize=true, at once,
      from the schedule, or as the default applied after a cancel; and cancelling the active event when that is a
      disconnect or de-energize. */
  ghost predicate MayLift(h: Handler, op: Op)
    requires Wf(h)
  {
    match op
    case Handle(c, t, _) => !StartsLater(c, t.checked) && Recovers(c)
    case Cancel(id, _, _, _) =>
      && id in h.store.vals
      && h.active == Some(h.store.vals[id])
      && Cancellable(h.objs[h.active.value].status)
      && (IsDeEnergize(h.objs[h.active.value].control) || (h.fallback.Some? && Recovers(h.fallback.value)))
    case Tick(now, _) =>
      exists k :: k in h.store.vals && Due(h.objs[h.store.vals[k]], now) && Recovers(h.objs[h.store.vals[k]].control)
    case _ => false
  }

  lemma CancelMoves(st: Settings, h: Handler, id: MRID, t: Times, env: Env, env': Env)
    requires Shape(h)
    ensures PlantMoves(st, h.plant, CancelControl(st, h, id, t, env, env').0.plant, MayLift(h, Cancel(id, t, env,
      env')))
  {
    if h.store.Has(id) && Cancellable(h.objs[h.store.vals[id]].status) {
      var e := h.store.vals[id];
      EqualityIsIdentity(h, e);
      if h.active == Some(e) {
        var h1 := SetStatus(h, e, Cancelled);
        var lift := IsDeEnergize(h.objs[e].control);
        var p := Recovery(st, h, e, env);
        ReconnectIsSafe(st.power, env, h.plant.Lift());
        SetPowerIsSafe(st.power, 0.0, env, h.plant);
        assert PlantMoves(st, h.plant, p, lift);
        if h.fallback.Some? {
          var h2 := Allocate(h1.(active := None, plant := p), h.fallback.value, t.received);
          PlantStep(st, h2, |h.objs|, t.executed, env');
          PlantMovesCompose(st, h.plant, p, Execute(st, h2, |h.objs|, t.executed, env').plant, lift,
            Recovers(h.fallback.value));
        }
      }
    }
  }

  lemma {:induction false} RunDueMoves(st: Settings, h: Handler, refs: seq<nat>, i: nat, now: int,
      visits: seq<Visit>, mayLift: bool)
    requires Wf(h) && i <= |refs| && forall j :: 0 <= j < |refs| ==> refs[j] < |h.objs|
    requires !mayLift ==> forall j :: 0 <= j < |refs| && Due(h.objs[refs[j]], now) ==>
      !Recovers(h.objs[refs[j]].control)
    ensures PlantMoves(st, h.plant, RunDue(st, h, refs, i, now, visits).plant, mayLift)
    decreases |refs| - i
  {
    if i < |refs| {
      var v := At(visits, i, Visit(false, now, Env([], [])));
      var h0 := Interrupt(h, v.stopBefore);
      if Due(h.objs[refs[i]], now) {
        var h1 := Execute(st, h0, refs[i], v.time, v.env);
        ExecuteOutcome(st, h0, refs[i], v.time, v.env);
        RunDueMoves(st, h1, refs, i + 1, now, visits, mayLift);
        PlantMovesCompose(st, h0.plant, h1.plant, RunDue(st, h1, refs, i + 1, now, visits).plant,
          Recovers(h.objs[refs[i]].control), mayLift);
      } else {
        RunDueMoves(st, h0, refs, i + 1, now, visits, mayLift);
      }
    }
  }

  /** Every handler step writes only safe records; a step taken under an emergency stop that may not lift it
      leaves it set and writes no P_SET. */
  lemma StepMoves(st: Settings, h: Handler, op: Op)
    requires Owned(h)
    ensures !op.UpdateSoc? ==> PlantMoves(st, h.plant, Step(st, h, op).plant, MayLift(h, op))
  {
    match op {
      case Handle(c, t, env) =>
        PlantStep(st, Allocate(h, c, t.received), |h.objs|, t.executed, env);
      case Cancel(id, t, env, env') => CancelMoves(st, h, id, t, env, env');
      case Tick(now, visits) =>
        var refs := Refs(h.store, h.store.keys);
        forall j | 0 <= j < |refs| && !MayLift(h, op) && Due(h.objs[refs[j]], now)
          ensures !Recovers(h.objs[refs[j]].control)
        {
          assert h.store.keys[j] in h.store.vals;
        }
        RunDueMoves(st, h, refs, 0, now, visits, MayLift(h, op));
      case _ =>
    }
  }

  lemma StepKeepsLogSafe(st: Settings, h: Handler, op: Op)
    requires Owned(h) && SafeLog(st.power, h.plant.log)
    ensures SafeLog(st.power, Step(st, h, op).plant.log)
  {
    var h1 := Step(st, h, op);
    StepMoves(st, h, op);
    forall i | 0 <= i < |h1.plant.log| ensures SafeRecord(st.power, h1.plant.log[i]) {
      if i < |h.plant.log| {
        assert h1.plant.log[i] == h.plant.log[i];
      }
    }
  }

  /** The power envelope, over every run: each P_SET ever written is inside the limits, respects the SOC it was
      validated against, is never written in dry run, and is issued under an emergency stop exactly if the stop was
      triggered between the check of its own attempt and the write. */
  lemma {:induction false} EnvelopeAlways(st: Settings, h: Handler, ops: seq<Op>)
    requires Owned(h) && SafeLog(st.power, h.plant.log)
    ensures SafeLog(st.power, Run(st, h, ops).plant.log)
    decreases |ops|
  {
    if ops != [] {
      StepKeepsLogSafe(st, h, ops[0]);
      StepKeepsOwned(st, h, ops[0]);
      EnvelopeAlways(st, Step(st, h, ops[0]), ops[1..]);
    }
  }

  /** An emergency stop that is set before a run survives it if no step may lift it, and the run writes no P_SET. */
  lemma {:induction false} StopHolds(st: Settings, h: Handler, ops: seq<Op>)
    requires Owned(h) && h.plant.stopped
    requires forall i :: 0 <= i < |ops| ==> !MayLift(Run(st, h, ops[..i]), ops[i])
    ensures var p := Run(st, h, ops).plant;
      && p.stopped && h.plant.log <= p.log
      && forall i :: |h.plant.log| <= i < |p.log| ==> !p.log[i].PSet?
    decreases |ops|
  {
    if ops != [] {
      var h1 := Step(st, h, ops[0]);
      assert ops[..0] == [];
      assert Run(st, h, ops[..0]) == h;
      StepMoves(st, h, ops[0]);
      StepKeepsOwned(st, h, ops[0]);
      var rest := ops[1..];
      forall i | 0 <= i < |rest| ensures !MayLift(Run(st, h1, rest[..i]), rest[i]) {
        assert ops[..i + 1] == [ops[0]] + rest[..i];
        assert ops[..i + 1][1..] == rest[..i];
      }
      StopHolds(st, h1, rest);
      var p := Run(st, h, ops).plant;
      forall i | |h.plant.log| <= i < |p.log| ensures !p.log[i].PSet? {
        if i < |h1.plant.log| {
          assert p.log[i] == h1.plant.log[i];
        }
      }
    }
  }
}
