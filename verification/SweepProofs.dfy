/** What is left after a disconnect or de-energize control completes. */
module SweepProofs {
  import opened Common
  import opened DerModels
  import opened Plant
  import H = HandlerSpec
  import HP = HandlerProofs
  import opened ClientSpec
  import opened ClientProofs
  import opened ArbitrationProofs

  /** The slot of mode m holds no control other than exclude that is ACTIVE or COMPLETED. */
  ghost predicate SlotSwept(c: Client, exclude: MRID, m: Mode)
    requires Wf(c)
  {
    m in c.slots.vals ==>
      var a := c.objs[c.slots.vals[m]];
      a.control.mRID == exclude || a.status !in {Active, Completed}
  }

  lemma {:induction false} SweepSlotsSweeps(c: Client, exclude: MRID, modes: seq<Mode>, m: Mode)
    requires Wf(c) && NoDuplicates(modes) && m in modes && forall x :: x in modes ==> x in c.slots.vals
    ensures SlotSwept(SweepSlots(c, exclude, modes), exclude, m)
    decreases |modes|
  {
    var x := modes[0];
    var d := SweepSlot(c, exclude, x);
    if m == x {
      SweepSlotsKeepsOrEmpties(d, exclude, modes[1..], m);
      SweepSlotsEffects(d, exclude, modes[1..], |d.objs|);
    } else {
      SweepSlotsSweeps(d, exclude, modes[1..], m);
    }
  }

  /** The holder of m holds none of the slots that come before m. */
  ghost predicate ComesFirst(slots: map<Mode, nat>, modes: seq<Mode>, m: Mode)
    requires m in slots && forall x :: x in modes ==> x in slots
  {
    forall i, j :: 0 <= j < i < |modes| && modes[i] == m ==> slots[modes[j]] != slots[m]
  }

  /** The sweep of the modes empties the slot of m: its holder is another control, ACTIVE or COMPLETED, and holds no
      slot that the sweep comes to earlier; emptying that one has made it SUPERSEDED. */
  ghost predicate Emptied(c: Client, exclude: MRID, modes: seq<Mode>, m: Mode)
    requires Wf(c) && forall x :: x in modes ==> x in c.slots.vals
  {
    && m in modes
    && c.objs[c.slots.vals[m]].control.mRID != exclude
    && c.objs[c.slots.vals[m]].status in {Active, Completed}
    && ComesFirst(c.slots.vals, modes, m)
  }

  lemma FirstOfRest(slots: map<Mode, nat>, modes: seq<Mode>, m: Mode)
    requires modes != [] && m in modes && m != modes[0] && forall x :: x in modes ==> x in slots
    ensures ComesFirst(slots, modes, m) <==> slots[modes[0]] != slots[m] && ComesFirst(slots, modes[1..], m)
  {
    var rest := modes[1..];
    if ComesFirst(slots, modes, m) {
      var i :| 0 <= i < |modes| && modes[i] == m;
      assert slots[modes[0]] != slots[m];
      forall k, l | 0 <= l < k < |rest| && rest[k] == m ensures slots[rest[l]] != slots[m] {
        assert modes[k + 1] == m && modes[l + 1] == rest[l];
      }
    }
    if slots[modes[0]] != slots[m] && ComesFirst(slots, rest, m) {
      forall k, l | 0 <= l < k < |modes| && modes[k] == m ensures slots[modes[l]] != slots[m] {
        if l > 0 {
          assert rest[k - 1] == m && rest[l - 1] == modes[l];
        }
      }
    }
  }

  lemma SameSlotsComeFirst(slots: map<Mode, nat>, slots': map<Mode, nat>, modes: seq<Mode>, m: Mode)
    requires m in modes && forall x :: x in modes ==> x in slots && x in slots' && slots'[x] == slots[x]
    ensures ComesFirst(slots, modes, m) <==> ComesFirst(slots', modes, m)
  {
  }

  /** Exactly which slots the sweep of the modes leaves taken. */
  lemma {:induction false} SweepSlotsExactly(c: Client, exclude: MRID, modes: seq<Mode>, m: Mode)
    requires Wf(c) && NoDuplicates(modes) && forall x :: x in modes ==> x in c.slots.vals
    ensures m in SweepSlots(c, exclude, modes).slots.vals <==> m in c.slots.vals && !Emptied(c, exclude, modes, m)
    decreases |modes|
  {
    if modes != [] {
      hide SweepSlot, Emptied;
      var d := SweepSlot(c, exclude, modes[0]);
      SweepSlotsExactly(d, exclude, modes[1..], m);
      if m == modes[0] {
        FirstIsEmptied(c, exclude, modes);
      } else {
        LaterIsEmptied(c, exclude, modes, m);
      }
    } else {
      assert !Emptied(c, exclude, modes, m);
    }
  }

  lemma FirstIsEmptied(c: Client, exclude: MRID, modes: seq<Mode>)
    requires Wf(c) && modes != [] && NoDuplicates(modes) && forall x :: x in modes ==> x in c.slots.vals
    ensures var d := SweepSlot(c, exclude, modes[0]);
      && (modes[0] in d.slots.vals <==> !Emptied(c, exclude, modes, modes[0]))
      && !Emptied(d, exclude, modes[1..], modes[0])
  {
  }

  /** Sweeping the slot of x keeps every other slot, and changes no control but the holder of x. */
  lemma OthersStay(c: Client, exclude: MRID, x: Mode, y: Mode)
    requires Wf(c) && x in c.slots.vals && y != x
    ensures var d := SweepSlot(c, exclude, x);
      && (y in d.slots.vals <==> y in c.slots.vals)
      && (y in c.slots.vals ==>
            var a := c.slots.vals[y];
            && d.slots.vals[y] == a && d.objs[a].control == c.objs[a].control
            && (a != c.slots.vals[x] ==> d.objs[a] == c.objs[a])
            && (a == c.slots.vals[x] && c.objs[a].control.mRID != exclude ==> d.objs[a].status !in {Active, Completed}))
  {
  }

  lemma LaterIsEmptied(c: Client, exclude: MRID, modes: seq<Mode>, m: Mode)
    requires Wf(c) && modes != [] && NoDuplicates(modes) && forall x :: x in modes ==> x in c.slots.vals
    requires m != modes[0]
    ensures var d := SweepSlot(c, exclude, modes[0]);
      && (m in d.slots.vals <==> m in c.slots.vals)
      && (Emptied(c, exclude, modes, m) <==> Emptied(d, exclude, modes[1..], m))
  {
    hide ComesFirst, SweepSlot;
    var d, rest := SweepSlot(c, exclude, modes[0]), modes[1..];
    assert modes[0] !in rest;
    hide NoDuplicates;
    OthersStay(c, exclude, modes[0], m);
    if m in rest {
      FirstOfRest(c.slots.vals, modes, m);
      forall y | y in rest ensures y in d.slots.vals && d.slots.vals[y] == c.slots.vals[y] {
        OthersStay(c, exclude, modes[0], y);
      }
      SameSlotsComeFirst(c.slots.vals, d.slots.vals, rest, m);
    }
  }

  /** Exactly which slots the whole sweep leaves taken, and by whom. */
  lemma SurvivingSlots(st: Settings, c: Client, exclude: MRID, env: CancelEnv, m: Mode)
    requires Wf(c) && KeyedById(c)
    ensures var d := Sweep(st, c, exclude, env);
      && (m in d.slots.vals <==> m in c.slots.vals && !Emptied(c, exclude, c.slots.keys, m))
      && (m in d.slots.vals ==> d.slots.vals[m] == c.slots.vals[m])
  {
    SweepSlotsExactly(c, exclude, c.slots.keys, m);
    SweepSlotsKeepsOrEmpties(c, exclude, c.slots.keys, m);
    SweepSlotsEffects(c, exclude, c.slots.keys, |c.objs|);
    var c1 := SweepSlots(c, exclude, c.slots.keys);
    SweepScheduledEffects(c1, exclude, c1.tracked.keys, |c1.objs|);
    hide SweepSlots, SweepScheduled, H.CancelControl;
  }

  lemma {:induction false} SweepScheduledSweeps(c: Client, exclude: MRID, keys: seq<MRID>, k: MRID)
    requires Wf(c) && KeyedById(c) && forall x :: x in keys ==> x in c.tracked.vals
    requires k in keys && k != exclude
    ensures SweepScheduled(c, exclude, keys).objs[c.tracked.vals[k]].status != Scheduled
    decreases |keys|
  {
    var r := c.tracked.vals[keys[0]];
    var d := if keys[0] != exclude && c.objs[r].status == Scheduled then SetStatus(c, r, Superseded) else c;
    if k == keys[0] {
      SweepScheduledEffects(d, exclude, keys[1..], |d.objs|);
    } else {
      SweepScheduledSweeps(d, exclude, keys[1..], k);
    }
  }

  lemma SweepClearsSlot(st: Settings, c: Client, exclude: MRID, env: CancelEnv, m: Mode)
    requires Wf(c) && KeyedById(c)
    ensures SlotSwept(Sweep(st, c, exclude, env), exclude, m)
  {
    hide SweepSlots, H.CancelControl, SweepScheduled;
    var c1 := SweepSlots(c, exclude, c.slots.keys);
    SweepSlotsEffects(c, exclude, c.slots.keys, |c.objs|);
    SweepSlotsKeepsOrEmpties(c, exclude, c.slots.keys, m);
    if m in c.slots.vals {
      SweepSlotsSweeps(c, exclude, c.slots.keys, m);
    }
    SweepScheduledEffects(c1, exclude, c1.tracked.keys, |c1.objs|);
  }

  lemma SweepClearsSchedule(st: Settings, c: Client, exclude: MRID, env: CancelEnv, k: MRID)
    requires Wf(c) && KeyedById(c) && k in c.tracked.vals && k != exclude
    ensures var d := Sweep(st, c, exclude, env);
      d.tracked == c.tracked && d.objs[d.tracked.vals[k]].status != Scheduled
  {
    hide H.CancelControl, SweepSlots;
    var c1 := SweepSlots(c, exclude, c.slots.keys);
    SweepSlotsEffects(c, exclude, c.slots.keys, |c.objs|);
    SweepScheduledEffects(c1, exclude, c1.tracked.keys, |c1.objs|);
    SweepScheduledSweeps(c1, exclude, c1.tracked.keys, k);
  }

  /** A command that the handler completes at once is the handler's active event. */
  lemma CompletedCommandIsActive(st: H.Settings, h: H.Handler, control: Control, t: H.Times, env: Env)
    requires H.Wf(h) && Acts(control)
    requires H.HandleControl(st, h, control, t, env).objs[|h.objs|].status == Completed
    ensures var h' := H.HandleControl(st, h, control, t, env);
      h'.active == Some(|h.objs|) && h'.objs[|h.objs|].control == control
  {
    HP.ExecuteOutcome(st, H.Allocate(h, control, t.received), |h.objs|, t.executed, env);
  }

  /** The state the sweep starts from: arbitration won, the control handled, its slots taken. */
  function BeforeSweep(st: Settings, c: Client, r: nat, now: int, env: PassEnv): (c': Client)
    requires Wf(c) && r < |c.objs|
    ensures Wf(c') && |c'.objs| == |c.objs|
  {
    TakeSlots(HandOver(st, Resolve(Enlist(c, r, now), r, ModesOf(c.objs[r].control)).1, r, env), r)
  }

  /** The handler after it was given control r. */
  function Handled(st: Settings, c: Client, r: nat, env: PassEnv): (h': H.Handler)
    requires Wf(c) && r < |c.objs|
    ensures H.Wf(h') && |h'.objs| == |c.handler.objs| + 1
  {
    var h := c.handler.(plant := c.handler.plant.Disturb(env.stopMid));
    H.HandleControl(st.handler, h, c.objs[r].control, env.t, env.env)
  }

  lemma BeforeSweepEffects(st: Settings, c: Client, r: nat, now: int, env: PassEnv)
    requires Wf(c) && KeyedById(c) && r < |c.objs|
    ensures var c2 := BeforeSweep(st, c, r, now, env);
      && KeyedById(c2) && c2.tracked == c.tracked && c2.handler == Handled(st, c, r, env) && c2.activeDefault == None
      && c2.objs[r] == c.objs[r].(status := Handled(st, c, r, env).objs[|c.handler.objs|].status)
  {
    var control := c.objs[r].control;
    ResolveEffects(Enlist(c, r, now), r, ModesOf(control));
    hide Resolve, H.HandleControl, Enlist, TakeSlots, ModesOf;
    TakeSlotsEffects(HandOver(st, Resolve(Enlist(c, r, now), r, ModesOf(control)).1, r, env), r);
  }

  /** A control reports COMPLETED only if the handler completed it and no callback failed. */
  lemma CompletedPass(st: Settings, c: Client, r: nat, now: int, env: PassEnv)
    requires Wf(c) && KeyedById(c) && r < |c.objs|
    requires ExecutePass(st, c, r, now, env).objs[r].status == Completed
    ensures var c2 := BeforeSweep(st, c, r, now, env);
      && c2.objs[r].status == Completed
      && ExecutePass(st, c, r, now, env) ==
           if IsDeEnergize(c.objs[r].control) then Sweep(st, c2, c.objs[r].control.mRID, env.sweep) else c2
  {
    ResolveEffects(Enlist(c, r, now), r, ModesOf(c.objs[r].control));
    BeforeSweepEffects(st, c, r, now, env);
    SweepEffects(st, BeforeSweep(st, c, r, now, env), c.objs[r].control.mRID, env.sweep, r);
    hide H.HandleControl, Sweep, TakeSlots, Resolve;
  }

  lemma SweepLeavesHandler(st: Settings, c: Client, exclude: MRID, env: CancelEnv)
    requires Wf(c) && KeyedById(c)
    requires c.handler.active.Some? && c.handler.objs[c.handler.active.value].control.mRID == exclude
    ensures Sweep(st, c, exclude, env).handler == c.handler
  {
    hide H.CancelControl;
    SweepSlotsEffects(c, exclude, c.slots.keys, |c.objs|);
    var c1 := SweepSlots(c, exclude, c.slots.keys);
    SweepScheduledEffects(c1, exclude, c1.tracked.keys, |c1.objs|);
  }

  ghost predicate CompletedSweep(st: Settings, c: Client, r: nat, now: int, env: PassEnv) {
    && Wf(c) && KeyedById(c) && r < |c.objs| && IsDeEnergize(c.objs[r].control)
    && ExecutePass(st, c, r, now, env).objs[r].status == Completed
  }

  lemma SlotsAfterSweep(st: Settings, c: Client, r: nat, now: int, env: PassEnv, m: Mode)
    requires CompletedSweep(st, c, r, now, env)
    ensures SlotSwept(ExecutePass(st, c, r, now, env), c.objs[r].control.mRID, m)
  {
    CompletedPass(st, c, r, now, env);
    BeforeSweepEffects(st, c, r, now, env);
    hide BeforeSweep, ExecutePass, Sweep;
    SweepClearsSlot(st, BeforeSweep(st, c, r, now, env), c.objs[r].control.mRID, env.sweep, m);
  }

  lemma ScheduleAfterSweep(st: Settings, c: Client, r: nat, now: int, env: PassEnv, k: MRID)
    requires CompletedSweep(st, c, r, now, env)
    ensures var d := ExecutePass(st, c, r, now, env);
      && d.tracked == c.tracked && d.activeDefault == None
      && (k in d.tracked.vals && k != c.objs[r].control.mRID ==> d.objs[d.tracked.vals[k]].status != Scheduled)
  {
    CompletedPass(st, c, r, now, env);
    BeforeSweepEffects(st, c, r, now, env);
    hide BeforeSweep, ExecutePass, Sweep;
    var c2 := BeforeSweep(st, c, r, now, env);
    SweepEffects(st, c2, c.objs[r].control.mRID, env.sweep, r);
    SweepClearsDefault(st, c2, c.objs[r].control.mRID, env.sweep);
    if k in c2.tracked.vals && k != c.objs[r].control.mRID {
      SweepClearsSchedule(st, c2, c.objs[r].control.mRID, env.sweep, k);
    }
  }

  lemma HandledIsActive(st: Settings, c: Client, r: nat, env: PassEnv)
    requires Wf(c) && r < |c.objs| && IsDeEnergize(c.objs[r].control)
    requires Handled(st, c, r, env).objs[|c.handler.objs|].status == Completed
    ensures Handled(st, c, r, env).active == Some(|c.handler.objs|)
    ensures Handled(st, c, r, env).objs[|c.handler.objs|].control == c.objs[r].control
  {
    hide H.HandleControl;
    var h := c.handler.(plant := c.handler.plant.Disturb(env.stopMid));
    CompletedCommandIsActive(st.handler, h, c.objs[r].control, env.t, env.env);
  }

  lemma HandlerAfterSweep(st: Settings, c: Client, r: nat, now: int, env: PassEnv)
    requires CompletedSweep(st, c, r, now, env)
    ensures var d := ExecutePass(st, c, r, now, env);
      && d.handler == Handled(st, c, r, env)
      && d.handler.active == Some(|c.handler.objs|) && d.handler.objs[|c.handler.objs|].control == c.objs[r].control
  {
    CompletedPass(st, c, r, now, env);
    BeforeSweepEffects(st, c, r, now, env);
    hide BeforeSweep, ExecutePass, Sweep, Handled;
    HandledIsActive(st, c, r, env);
    SweepLeavesHandler(st, BeforeSweep(st, c, r, now, env), c.objs[r].control.mRID, env.sweep);
  }

  /** The de-energize sweep: once a disconnect or de-energize control has completed, no slot holds another ACTIVE or
      COMPLETED control, no other control is scheduled, no default is active, and the handler's active event is the
      control itself, so the handler cancel at the end of the sweep never fires. */
  lemma DeEnergizeSweep(st: Settings, c: Client, r: nat, now: int, env: PassEnv, m: Mode, k: MRID)
    requires CompletedSweep(st, c, r, now, env)
    ensures var d := ExecutePass(st, c, r, now, env); var id := c.objs[r].control.mRID;
      && SlotSwept(d, id, m)
      && (k in d.tracked.vals && k != id ==> d.objs[d.tracked.vals[k]].status != Scheduled)
      && d.activeDefault == None
      && d.handler == Handled(st, c, r, env)
      && d.handler.active == Some(|c.handler.objs|) && d.handler.objs[|c.handler.objs|].control == c.objs[r].control
  {
    hide ExecutePass, Handled, SlotSwept;
    SlotsAfterSweep(st, c, r, now, env, m);
    ScheduleAfterSweep(st, c, r, now, env, k);
    HandlerAfterSweep(st, c, r, now, env);
  }

  lemma SweepClearsDefault(st: Settings, c: Client, exclude: MRID, env: CancelEnv)
    requires Wf(c)
    ensures Sweep(st, c, exclude, env).activeDefault == None
  {
    hide H.CancelControl, SweepSlots, SweepScheduled;
  }
}
