/** What one execution pass changes, and the scheduling guarantees of every run of the client. */
module ClientProofs {
  import opened Common
  import opened DerModels
  import opened Plant
  import H = HandlerSpec
  import HP = HandlerProofs
  import opened ClientSpec

  // ----- what a pass leaves alone -----

  /** t is x, or x superseded. */
  predicate SameOrSuperseded(x: Tracked, t: Tracked) {
    t == x || t == x.(status := Superseded)
  }

  /** Apart from object r, a step only supersedes; tracking, memory of mRIDs and records stay. */
  ghost predicate OnlySupersedes(c: Client, d: Client, r: nat) {
    && |d.objs| == |c.objs|
    && (forall i :: 0 <= i < |c.objs| && i != r ==> SameOrSuperseded(c.objs[i], d.objs[i]))
    && (r < |c.objs| ==> d.objs[r] == c.objs[r].(status := d.objs[r].status))
    && d.tracked == c.tracked && d.processed == c.processed && d.cancelled == c.cancelled
    && d.history.passes == c.history.passes
    && d.history.processed == c.history.processed && d.history.cancels == c.history.cancels
  }

  lemma {:induction false} ResolveEffects(c: Client, r: nat, modes: seq<Mode>)
    requires Wf(c) && r < |c.objs|
    ensures var d := Resolve(c, r, modes).1;
      && OnlySupersedes(c, d, r) && d.handler == c.handler && d.slots == c.slots && d.history == c.history
      && SameOrSuperseded(c.objs[r], d.objs[r])
    decreases |modes|
  {
    if modes != [] {
      if modes[0] !in c.slots.vals {
        ResolveEffects(c, r, modes[1..]);
      } else if Beats(c.objs[r], c.objs[c.slots.vals[modes[0]]]) {
        ResolveEffects(SetStatus(c, c.slots.vals[modes[0]], Superseded), r, modes[1..]);
      }
    }
  }

  lemma {:induction false} OccupyEffects(c: Client, r: nat, modes: seq<Mode>)
    requires Wf(c) && r < |c.objs|
    ensures var d := Occupy(c, r, modes); d == c.(slots := d.slots)
    decreases |modes|
  {
    if modes != [] {
      OccupyEffects(c.(slots := c.slots.Put(modes[0], r)), r, modes[1..]);
    }
  }

  lemma {:induction false} EnterEffects(h: History, r: nat, modes: seq<Mode>)
    ensures var d := Enter(h, r, modes); d == h.(contenders := d.contenders)
    decreases |modes|
  {
    if modes != [] {
      EnterEffects(h.(contenders := h.contenders[modes[0] := Contenders(h, modes[0]) + [r]]), r, modes[1..]);
    }
  }

  lemma {:induction false} HoldEffects(h: History, r: nat, modes: seq<Mode>)
    ensures var d := Hold(h, r, modes); d == h.(holders := d.holders)
    decreases |modes|
  {
    if modes != [] {
      HoldEffects(h.(holders := h.holders[modes[0] := Holders(h, modes[0]) + [r]]), r, modes[1..]);
    }
  }

  lemma TakeSlotsEffects(c: Client, r: nat)
    requires Wf(c) && r < |c.objs|
    ensures var d := TakeSlots(c, r);
      d == c.(slots := d.slots, history := c.history.(holders := d.history.holders, sweeps := d.history.sweeps))
  {
    hide ModesOf, IsDeEnergize;
    HoldEffects(c.history, r, ModesOf(c.objs[r].control));
    OccupyEffects(Note(c, r), r, ModesOf(c.objs[r].control));
  }

  lemma {:induction false} SweepSlotsEffects(c: Client, exclude: MRID, modes: seq<Mode>, r: nat)
    requires Wf(c) && NoDuplicates(modes) && forall m :: m in modes ==> m in c.slots.vals
    requires r < |c.objs| ==> c.objs[r].control.mRID == exclude
    ensures var d := SweepSlots(c, exclude, modes);
      OnlySupersedes(c, d, r) && (r < |c.objs| ==> d.objs[r] == c.objs[r])
    decreases |modes|
  {
    if modes != [] {
      SweepSlotsEffects(SweepSlot(c, exclude, modes[0]), exclude, modes[1..], r);
    }
  }

  /** Every tracked control is listed, under its own mRID. */
  ghost predicate KeyedById(c: Client)
    requires Wf(c)
  {
    forall k :: k in c.tracked.vals ==> k in c.tracked.keys && c.objs[c.tracked.vals[k]].control.mRID == k
  }

  lemma {:induction false} SweepScheduledEffects(c: Client, exclude: MRID, keys: seq<MRID>, r: nat)
    requires Wf(c) && KeyedById(c) && forall k :: k in keys ==> k in c.tracked.vals
    requires r < |c.objs| ==> c.objs[r].control.mRID == exclude
    ensures var d := SweepScheduled(c, exclude, keys);
      && OnlySupersedes(c, d, r) && (r < |c.objs| ==> d.objs[r] == c.objs[r])
      && d.slots == c.slots && d.handler == c.handler && d.history == c.history
      && (forall i :: 0 <= i < |c.objs| && d.objs[i] != c.objs[i] ==> c.objs[i].status == Scheduled)
    decreases |keys|
  {
    if keys != [] {
      var e := c.tracked.vals[keys[0]];
      var c1 := if keys[0] != exclude && c.objs[e].status == Scheduled then SetStatus(c, e, Superseded) else c;
      SweepScheduledEffects(c1, exclude, keys[1..], r);
    }
  }

  lemma SweepEffects(st: Settings, c: Client, exclude: MRID, env: CancelEnv, r: nat)
    requires Wf(c) && KeyedById(c)
    requires r < |c.objs| ==> c.objs[r].control.mRID == exclude
    ensures var d := Sweep(st, c, exclude, env);
      OnlySupersedes(c, d, r) && (r < |c.objs| ==> d.objs[r] == c.objs[r])
  {
    SweepSlotsEffects(c, exclude, c.slots.keys, r);
    var c1 := SweepSlots(c, exclude, c.slots.keys);
    SweepScheduledEffects(c1, exclude, c1.tracked.keys, r);
  }

  // ----- the outcome of a pass -----

  /** The event the handler returns has run, unless the handler found its start still ahead. */
  lemma HandledOutcome(st: H.Settings, h: H.Handler, control: Control, t: H.Times, env: Env)
    requires H.Wf(h)
    ensures var e := H.HandleControl(st, h, control, t, env).objs[|h.objs|];
      && e.control == control
      && (if H.StartsLater(control, t.checked) then e.status == Scheduled else e.status in {Completed, Failed})
  {
    HP.ExecuteOutcome(st, H.Allocate(h, control, t.received), |h.objs|, t.executed, env);
  }

  /** The handler's clock is not behind the start of the control. */
  predicate HandlerOnTime(c: Control, env: PassEnv) {
    c.interval.Some? ==> c.interval.value.start <= env.t.checked
  }

  lemma CarryOutEffects(st: Settings, c: Client, r: nat, env: PassEnv)
    requires Wf(c) && KeyedById(c) && r < |c.objs|
    ensures var d := CarryOut(st, c, r, env);
      && OnlySupersedes(c, d, r)
      && d.objs[r].status in {Completed, Failed, Scheduled}
      && (HandlerOnTime(c.objs[r].control, env) ==> d.objs[r].status in {Completed, Failed})
  {
    hide H.HandleControl, TakeSlots, ModesOf, Sweep, IsDeEnergize;
    var h := c.handler.(plant := c.handler.plant.Disturb(env.stopMid));
    HandledOutcome(st.handler, h, c.objs[r].control, env.t, env.env);
    var c1 := HandOver(st, c, r, env);
    TakeSlotsEffects(c1, r);
    SweepEffects(st, TakeSlots(c1, r), c.objs[r].control.mRID, env.sweep, r);
  }

  /** An execution pass supersedes at most, records itself, and ends its own control as COMPLETED, FAILED or
      SUPERSEDED: the handler never puts it back on the schedule. It never ends ACTIVE, so the branch of the
      scheduler that waits for the end of an ACTIVE control and recovers superseded ones is never taken. */
  lemma PassOutcome(st: Settings, c: Client, r: nat, now: int, env: PassEnv)
    requires Wf(c) && KeyedById(c) && r < |c.objs|
    ensures var d := ExecutePass(st, c, r, now, env);
      && OnlySupersedes(c.(history := d.history), d, r)
      && d.history.passes == c.history.passes + [Pass(r, now)]
      && d.history.processed == c.history.processed && d.history.cancels == c.history.cancels
      && d.objs[r].status !in {Active, Pending}
      && (HandlerOnTime(c.objs[r].control, env) ==> d.objs[r].status in {Completed, Failed, Superseded})
  {
    hide CarryOut, ModesOf, Resolve, Enter;
    var h := c.history.(passes := c.history.passes + [Pass(r, now)]);
    EnterEffects(h, r, ModesOf(c.objs[r].control));
    var c0 := Enlist(c, r, now);
    ResolveEffects(c0, r, ModesOf(c.objs[r].control));
    var (lost, c1) := Resolve(c0, r, ModesOf(c.objs[r].control));
    if !c.handler.plant.stopped && !lost {
      CarryOutEffects(st, c1, r, env);
    }
  }
}
