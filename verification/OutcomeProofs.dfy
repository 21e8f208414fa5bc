/** What the device sees of one operation of the handler: an execution, a cancel, a round over the scheduled events.
    Controls are read by their fields, and results by the answers of the bus. */
module OutcomeProofs {
  import opened Common
  import opened DerModels
  import opened Plant
  import opened PlantProofs
  import opened HandlerSpec
  import opened HandlerProofs

  // ----- one execution -----

  /** The power a control asks for that does not recover. */
  function PowerAsked(b: ControlBase): Option<real> {
    if b.connect == Some(false) || b.energize == Some(false) then Some(0.0)
    else if b.fixedW.Some? then Some(b.fixedW.value.ToWatts())
    else None
  }

  /** The device register after a request for some watts from state s. */
  ghost predicate RegisterAfter(c: Config, watts: real, env: Env, s: State, t: State) {
    LastAcked(t.log) ==
      if Executes(c, watts, env, s) then Some(Encode(c.writer.value.scale, watts)) else LastAcked(s.log)
  }

  /** On the way from s to t the device acknowledged a pulse on PCS_ON. */
  ghost predicate GainsPulse(s: State, t: State) {
    exists i :: |s.log| <= i < |t.log| && t.log[i] == PcsOn(true)
  }

  /** The stop is lifted, and then PCS_ON is pulsed by one call; without a PCS nothing is. */
  ghost predicate Reconnected(c: Config, env: Env, s: State, t: State) {
    && SafeStep(c, s.Lift(), t)
    && if c.production && c.writer.Some? then Pulses(c.writer.value.busRetries, env.CallAt(0), s.Lift(), t)
       else t == s.Lift()
  }

  ghost predicate Completes(st: Settings, b: ControlBase, env: Env, s: State, t: State) {
    if b.connect == Some(true) then HasPcs(st) ==> GainsPulse(s, t)
    else if b.energize == Some(true) then true
    else !s.stopped && (PowerAsked(b).Some? ==> Reports(st.power, PowerAsked(b).value, env, s))
  }

  ghost predicate PlantAfter(st: Settings, b: ControlBase, env: Env, s: State, t: State) {
    if b.connect == Some(true) then Reconnected(st.power, env, s, t)
    else if b.energize == Some(true) then t == s.Lift()
    else if s.stopped || PowerAsked(b).None? then t == s
    else SafeStep(st.power, s, t) && RegisterAfter(st.power, PowerAsked(b).value, env, s, t)
  }

  /** The event becomes the active one: its control recovers, or asks for a power and the stop is clear. */
  predicate TakesOver(b: ControlBase, s: State) {
    b.connect == Some(true) || b.energize == Some(true) || (!s.stopped && PowerAsked(b).Some?)
  }

  lemma ReconnectOutcome(c: Config, env: Env, s: State)
    ensures var (r, t) := ReconnectPcs(c, env, s.Lift());
      && Reconnected(c, env, s, t)
      && (r.Success() <==> (c.production && c.writer.Some? ==> GainsPulse(s, t)))
  {
    ReconnectIsSafe(c, env, s.Lift());
    var (r, t) := ReconnectPcs(c, env, s.Lift());
    if c.production && c.writer.Some? && r.Success() {
      assert t.log[|t.log| - 1] == PcsOn(true);
    }
    hide ReconnectPcs;
  }

  lemma RequestOutcome(c: Config, watts: real, env: Env, s: State, zero: bool)
    requires zero ==> watts == 0.0
    ensures var (r, t) := if zero then DisconnectPcs(c, env, s) else SetPower(c, watts, env, s);
      SafeStep(c, s, t) && RegisterAfter(c, watts, env, s, t) && (r.Success() <==> Reports(c, watts, env, s))
  {
    hide DisconnectPcs, SetPower, SafeStep, LastAcked, Reports, Encode;
    RequestIsSafe(c, watts, env, s, zero);
  }

  /** The commands by the fields that give them. */
  lemma ActionByFields(c: Control)
    requires c.base.Some?
    ensures var b := c.base.value;
      match ActionOf(c)
      case Connect => b.connect == Some(true)
      case Energize => b.connect != Some(true) && b.energize == Some(true)
      case Disconnect => b.connect != Some(true) && b.energize != Some(true) && PowerAsked(b) == Some(0.0)
      case DeEnergize => b.connect != Some(true) && b.energize != Some(true) && PowerAsked(b) == Some(0.0)
      case Setpoint(watts) => b.connect != Some(true) && b.energize != Some(true) && PowerAsked(b) == Some(watts)
      case NoAction => b.connect != Some(true) && b.energize != Some(true) && PowerAsked(b) == None
  {
  }

  /** The power layer's part of an execution. */
  lemma PlantOutcome(st: Settings, h: Handler, r: nat, now: int, env: Env)
    requires Wf(h) && r < |h.objs| && h.objs[r].control.base.Some?
    ensures var b := h.objs[r].control.base.value; var h' := Execute(st, h, r, now, env);
      && PlantAfter(st, b, env, h.plant, h'.plant)
      && (h'.objs[r].status == Completed <==> Completes(st, b, env, h.plant, h'.plant))
      && h'.active == if TakesOver(b, h.plant) then Some(r) else h.active
  {
    var c := h.objs[r].control;
    ActionByFields(c);
    hide ReconnectPcs, DisconnectPcs, SetPower, SafeStep, RegisterAfter, Reports, Reconnected, GainsPulse, PowerAsked,
      ActionOf;
    match ActionOf(c) {
      case Connect => ReconnectOutcome(st.power, env, h.plant);
      case Energize =>
      case Disconnect => RequestOutcome(st.power, 0.0, env, h.plant, true);
      case DeEnergize => RequestOutcome(st.power, 0.0, env, h.plant, false);
      case Setpoint(watts) => RequestOutcome(st.power, watts, env, h.plant, false);
      case NoAction =>
    }
  }

  /** Exactly what an execution does to its event and to the device, by the fields of the control and the answers of the
      bus. A connect lifts the stop and pulses PCS_ON, and in production with a writer it is COMPLETED exactly if the
      device acknowledged the pulse; an energize lifts the stop; every other control fails under the stop; a disconnect
      or de-energize asks for zero power, a setpoint for its watts, and is COMPLETED exactly if the request reports
      success. A command that is not blocked becomes the active event. */
  lemma ExecuteExactly(st: Settings, h: Handler, r: nat, now: int, env: Env)
    requires Wf(h) && r < |h.objs|
    ensures var h' := Execute(st, h, r, now, env); var e := h'.objs[r]; var c := h.objs[r].control;
      && e.control == c && e.executed == Some(now) && e.status in {Completed, Failed}
      && match c.base
         case None => h'.plant == h.plant && h'.active == h.active && (e.status == Completed <==> !h.plant.stopped)
         case Some(b) =>
           && PlantAfter(st, b, env, h.plant, h'.plant)
           && (e.status == Completed <==> Completes(st, b, env, h.plant, h'.plant))
           && h'.active == if TakesOver(b, h.plant) then Some(r) else h.active
  {
    hide ReconnectPcs, DisconnectPcs, SetPower, PlantAfter, Completes;
    ExecuteRecords(st, h, r, now, env);
    if h.objs[r].control.base.Some? {
      PlantOutcome(st, h, r, now, env);
      hide Execute;
    }
  }

  lemma ExecuteRecords(st: Settings, h: Handler, r: nat, now: int, env: Env)
    requires Wf(h) && r < |h.objs|
    ensures var e := Execute(st, h, r, now, env).objs[r];
      e.control == h.objs[r].control && e.executed == Some(now) && e.status in {Completed, Failed}
  {
    hide ReconnectPcs, DisconnectPcs, SetPower;
  }

  // ----- a new control -----

  /** A control whose start is ahead of the clock is stored as SCHEDULED and touches nothing else; every other one is
      executed, and stored unless the clean-up evicts it at once. */
  lemma HandledExactly(st: Settings, h: Handler, control: Control, t: Times, env: Env)
    requires Wf(h)
    ensures var h' := HandleControl(st, h, control, t, env); var r := |h.objs|;
      if control.interval.Some? && t.checked < control.interval.value.start then
        h' == h.(
          objs := h.objs + [Event(control, Scheduled, t.received, None, None)],
          store := h.store.Put(control.mRID, r))
      else
        var h0 := h.(objs := h.objs + [Event(control, Pending, t.received, None, None)]);
        var h1 := Execute(st, h0, r, t.executed, env);
        && h' == h1.(store := h'.store)
        && h'.store == Cleanup(st, h1.(store := h.store.Put(control.mRID, r)), t.cleaned).store
  {
    hide Execute;
    ExecuteOutcome(st, Allocate(h, control, t.received), |h.objs|, t.executed, env);
  }

  // ----- cancelling -----

  /** What a control did is undone: after a disconnect or de-energize the stop is lifted and the PCS reconnected, after
      anything else zero power is requested. */
  ghost predicate Undone(st: Settings, c: Control, env: Env, s: State, u: State) {
    if c.base.Some? && (c.base.value.connect == Some(false) || c.base.value.energize == Some(false))
    then Reconnected(st.power, env, s, u)
    else SafeStep(st.power, s, u) && RegisterAfter(st.power, 0.0, env, s, u)
  }

  lemma RecoveryUndoes(st: Settings, h: Handler, e: nat, env: Env)
    requires Wf(h) && e < |h.objs|
    ensures Undone(st, h.objs[e].control, env, h.plant, Recovery(st, h, e, env))
  {
    hide ReconnectPcs, SetPower, Reconnected, RegisterAfter, SafeStep;
    ReconnectOutcome(st.power, env, h.plant);
    RequestOutcome(st.power, 0.0, env, h.plant, false);
  }

  /** The handler after the default control was executed as a new event and stored. */
  ghost predicate DefaultApplied(st: Settings, h: Handler, default: Control, t: Times, env: Env, h': Handler)
    requires Wf(h)
  {
    var h1 := Execute(st, h.(objs := h.objs + [Event(default, Pending, t.received, None, None)]), |h.objs|, t.executed,
      env);
    h' == h1.(store := h1.store.Put(default.mRID, |h.objs|))
  }

  lemma EndedOrCancellable(s: EventStatus)
    ensures Cancellable(s) <==> s !in {Cancelled, Superseded, Failed}
  {
    assert s.Pending? || s.Scheduled? || s.Active? || s.Completed? || s.Cancelled? || s.Superseded? || s.Failed?;
  }

  /** Exactly what a cancel does. An unknown or ended event is refused. Otherwise the event is CANCELLED; if it is not
      the active one that is all; if it is, no event is active any more, what it did is undone, and the default control,
      if there is one, is executed. */
  lemma CancelExactly(st: Settings, h: Handler, id: MRID, t: Times, env: Env, env': Env)
    requires Shape(h)
    ensures var (h', ok) := CancelControl(st, h, id, t, env, env');
      if id !in h.store.vals || h.objs[h.store.vals[id]].status in {Cancelled, Superseded, Failed} then h' == h && !ok
      else
        var e := h.store.vals[id];
        var objs := h.objs[e := h.objs[e].(status := Cancelled)];
        && ok
        && if h.active != Some(e) then h' == h.(objs := objs)
           else
             var u := Recovery(st, h, e, env);
             var h1 := h.(objs := objs, active := None, plant := u);
             && Undone(st, h.objs[e].control, env, h.plant, u)
             && match h.fallback
                case None => h' == h1
                case Some(default) => DefaultApplied(st, h1, default, t, env', h')
  {
    hide Recovery, Execute, Undone;
    if h.store.Has(id) {
      EndedOrCancellable(h.objs[h.store.vals[id]].status);
    }
    if h.store.Has(id) && Cancellable(h.objs[h.store.vals[id]].status) {
      EqualityIsIdentity(h, h.store.vals[id]);
      RecoveryUndoes(st, h, h.store.vals[id], env);
      if h.active == Some(h.store.vals[id]) && h.fallback.Some? {
        var e := h.store.vals[id];
        var h1 := SetStatus(h, e, Cancelled).(active := None, plant := Recovery(st, h, e, env));
        ExecuteOutcome(st, Allocate(h1, h.fallback.value, t.received), |h.objs|, t.executed, env');
      }
    }
  }

  // ----- the scheduled events -----

  /** The start of the event has come, and its end, if it has one, has not. */
  predicate InItsTime(c: Control, now: int) {
    && c.interval.Some?
    && c.interval.value.start <= now
    && (c.interval.value.duration == 0 || now < c.interval.value.start + c.interval.value.duration)
  }

  /** Executing event r leaves every other SCHEDULED event as it is, and one that has run as having run. */
  lemma OthersKeepTheirTurn(st: Settings, h: Handler, r: nat, now: int, env: Env, i: nat)
    requires Wf(h) && r < |h.objs| && i < |h.objs| && i != r
    ensures var e, e' := h.objs[i], Execute(st, h, r, now, env).objs[i];
      && (e.status == Scheduled ==> e' == e)
      && (e.status in {Completed, Failed, Superseded} ==> e' == e || e' == e.(status := Superseded))
  {
    hide Execute;
    ExecuteOutcome(st, h, r, now, env);
  }

  lemma {:induction false} RanStaysRan(st: Settings, h: Handler, refs: seq<nat>, i: nat, now: int, visits: seq<Visit>,
        r: nat)
    requires Wf(h) && i <= |refs| && forall j :: 0 <= j < |refs| ==> refs[j] < |h.objs|
    requires r < |h.objs| && h.objs[r].status in {Completed, Failed, Superseded}
    ensures var e, e' := h.objs[r], RunDue(st, h, refs, i, now, visits).objs[r];
      e' == e || e' == e.(status := Superseded)
    decreases |refs| - i
  {
    hide Execute;
    if i < |refs| {
      var v := At(visits, i, Visit(false, now, Env([], [])));
      var h0 := Interrupt(h, v.stopBefore);
      if Due(h.objs[refs[i]], now) {
        OthersKeepTheirTurn(st, h0, refs[i], v.time, v.env, r);
        RanStaysRan(st, Execute(st, h0, refs[i], v.time, v.env), refs, i + 1, now, visits, r);
      } else {
        RanStaysRan(st, h0, refs, i + 1, now, visits, r);
      }
    }
  }

  lemma {:induction false} RunDueRunsExactly(st: Settings, h: Handler, refs: seq<nat>, i: nat, now: int,
        visits: seq<Visit>, r: nat)
    requires Wf(h) && i <= |refs| && forall j :: 0 <= j < |refs| ==> refs[j] < |h.objs|
    requires r < |h.objs| && h.objs[r].status == Scheduled
    ensures var e := RunDue(st, h, refs, i, now, visits).objs[r];
      if r in refs[i..] && InItsTime(h.objs[r].control, now)
      then e.control == h.objs[r].control && e.executed.Some? && e.status in {Completed, Failed, Superseded}
      else e == h.objs[r]
    decreases |refs| - i
  {
    hide Execute;
    if i < |refs| {
      assert refs[i..] == [refs[i]] + refs[i + 1..];
      var v := At(visits, i, Visit(false, now, Env([], [])));
      var h0 := Interrupt(h, v.stopBefore);
      if Due(h.objs[refs[i]], now) {
        var h1 := Execute(st, h0, refs[i], v.time, v.env);
        if refs[i] == r {
          ExecuteRecords(st, h0, r, v.time, v.env);
          RanStaysRan(st, h1, refs, i + 1, now, visits, r);
        } else {
          OthersKeepTheirTurn(st, h0, refs[i], v.time, v.env, r);
          RunDueRunsExactly(st, h1, refs, i + 1, now, visits, r);
        }
      } else {
        RunDueRunsExactly(st, h0, refs, i + 1, now, visits, r);
      }
    }
  }

  /** A round executes a SCHEDULED event that is stored if and only if it is in its time; whatever else the round
      executes, every other SCHEDULED event stays as it is. */
  lemma RoundRunsExactly(st: Settings, h: Handler, now: int, visits: seq<Visit>, k: MRID)
    requires Wf(h) && k in h.store.keys && h.objs[h.store.vals[k]].status == Scheduled
    ensures var r := h.store.vals[k]; var e := ProcessScheduled(st, h, now, visits).objs[r];
      if InItsTime(h.objs[r].control, now)
      then e.control == h.objs[r].control && e.executed.Some? && e.status in {Completed, Failed, Superseded}
      else e == h.objs[r]
  {
    var refs := Refs(h.store, h.store.keys);
    var i :| 0 <= i < |h.store.keys| && h.store.keys[i] == k;
    assert refs[i] == h.store.vals[k] && refs[0..] == refs;
    RunDueRunsExactly(st, h, refs, 0, now, visits, h.store.vals[k]);
  }
}
