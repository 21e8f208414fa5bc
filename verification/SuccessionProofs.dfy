/** Who held the slot of a mode, whatever modes the controls have: each holder beats all before it, until a completed
    disconnect or de-energize control sweeps the slot. */
module SuccessionProofs {
  import opened Common
  import opened DerModels
  import opened Plant
  import H = HandlerSpec
  import opened ClientSpec
  import opened ClientProofs
  import opened ArbitrationProofs

  // ----- the invariant -----

  /** Each control beats every earlier one. */
  ghost predicate Ascends(objs: seq<Tracked>, q: seq<nat>) {
    && (forall j :: 0 <= j < |q| ==> q[j] < |objs|)
    && (forall i, j :: 0 <= i < j < |q| ==> Beats(objs[q[j]], objs[q[i]]))
  }

  /** The slot is taken exactly if somebody held it since it was last emptied; the last of them holds it still. */
  ghost predicate Succession(c: Client, m: Mode) {
    var q := Holders(c.history, m);
    && Ascends(c.objs, q)
    && (m in c.slots.vals <==> q != [])
    && (m in c.slots.vals ==> c.slots.vals[m] == q[|q| - 1])
  }

  ghost predicate Successive(c: Client) {
    Wf(c) && KeyedById(c) && forall m :: Succession(c, m)
  }

  // ----- one pass -----

  lemma {:induction false} HoldAdds(h: History, r: nat, modes: seq<Mode>, m: Mode)
    requires NoDuplicates(modes)
    ensures Holders(Hold(h, r, modes), m) == Holders(h, m) + if m in modes then [r] else []
    decreases |modes|
  {
    if modes != [] {
      assert modes[0] !in modes[1..];
      HoldAdds(h.(holders := h.holders[modes[0] := Holders(h, modes[0]) + [r]]), r, modes[1..], m);
    }
  }

  /** Control r won its arbitration and the handler completed it: a disconnect or de-energize control then sweeps. */
  ghost predicate Sweeps(st: Settings, c: Client, r: nat, now: int, env: PassEnv)
    requires Wf(c) && r < |c.objs|
  {
    var (lost, c1) := Resolve(Enlist(c, r, now), r, ModesOf(c.objs[r].control));
    && !c.handler.plant.stopped && !lost
    && IsDeEnergize(c.objs[r].control)
    && HandOver(st, c1, r, env).objs[r].status == Completed
  }

  /** What the slot of m and its holders go through in a pass of r; swept tells whether r swept. */
  ghost predicate SlotMoves(c: Client, d: Client, r: nat, m: Mode, swept: bool) {
    || (SameSlot(c, d, m) && Holders(d.history, m) == Holders(c.history, m))
    || (m in d.slots.vals && d.slots.vals[m] == r
        && Holders(d.history, m) == Holders(c.history, m) + [r]
        && (m in c.slots.vals ==>
              r < |c.objs| && c.slots.vals[m] < |c.objs| && Beats(c.objs[r], c.objs[c.slots.vals[m]])))
    || (m !in d.slots.vals && Holders(d.history, m) == [] && swept)
  }

  lemma TakeSlotsHolds(c: Client, r: nat, m: Mode)
    requires Wf(c) && r < |c.objs|
    ensures var d := TakeSlots(c, r); var control := c.objs[r].control;
      && Holders(d.history, m) == Holders(c.history, m) + (if m in ModesOf(control) then [r] else [])
      && d.history.sweeps ==
           c.history.sweeps + (if c.objs[r].status == Completed && IsDeEnergize(control) then [r] else [])
  {
    ModesAreDistinct(c.objs[r].control);
    hide ModesOf, IsDeEnergize, Hold;
    var modes := ModesOf(c.objs[r].control);
    HoldAdds(c.history, r, modes, m);
    HoldEffects(c.history, r, modes);
    OccupyEffects(Note(c, r), r, modes);
  }

  lemma CarryOutHolds(st: Settings, c: Client, r: nat, env: PassEnv, m: Mode)
    requires Wf(c) && KeyedById(c) && r < |c.objs|
    requires m in c.slots.vals && m in ModesOf(c.objs[r].control) ==> Beats(c.objs[r], c.objs[c.slots.vals[m]])
    ensures var d := CarryOut(st, c, r, env); var control := c.objs[r].control;
      var swept := IsDeEnergize(control) && HandOver(st, c, r, env).objs[r].status == Completed;
      && SlotMoves(c, d, r, m, swept)
      && d.history.sweeps == c.history.sweeps + if swept then [r] else []
  {
    hide H.HandleControl, TakeSlots, ModesOf, Beats, IsDeEnergize;
    var c1 := HandOver(st, c, r, env);
    TakeSlotsEffects(c1, r);
    TakeSlotsTakes(c1, r, m);
    TakeSlotsHolds(c1, r, m);
    SweepKeepsOrEmpties(st, TakeSlots(c1, r), c.objs[r].control.mRID, env.sweep, m);
  }

  /** What is known right after a won arbitration. */
  lemma WonHolders(c: Client, r: nat, now: int, m: Mode)
    requires Wf(c) && KeyedById(c) && r < |c.objs|
    requires !Resolve(Enlist(c, r, now), r, ModesOf(c.objs[r].control)).0
    ensures var c1 := Resolve(Enlist(c, r, now), r, ModesOf(c.objs[r].control)).1;
      && |c1.objs| == |c.objs| && KeyedById(c1) && c1.slots == c.slots && c1.objs[r].control == c.objs[r].control
      && c1.history.holders == c.history.holders && c1.history.sweeps == c.history.sweeps
      && (m in c.slots.vals && m in ModesOf(c.objs[r].control) ==>
            Beats(c.objs[r], c.objs[c.slots.vals[m]]))
      && (m in c.slots.vals ==>
            (Beats(c.objs[r], c.objs[c.slots.vals[m]]) <==> Beats(c1.objs[r], c1.objs[c.slots.vals[m]])))
  {
    hide ModesOf, Enter, Resolve;
    var modes := ModesOf(c.objs[r].control);
    var c0 := Enlist(c, r, now);
    EnterEffects(c.history.(passes := c.history.passes + [Pass(r, now)]), r, modes);
    ResolveEffects(c0, r, modes);
    if m in modes && m in c.slots.vals {
      WinnerBeatsHolders(c0, r, modes, m);
    }
  }

  lemma LostHolders(c: Client, r: nat, now: int, m: Mode)
    requires Wf(c) && r < |c.objs|
    ensures var d := Enlist(c, r, now); var e := Resolve(d, r, ModesOf(c.objs[r].control)).1;
      && d.slots == e.slots == c.slots
      && Holders(d.history, m) == Holders(e.history, m) == Holders(c.history, m)
      && d.history.sweeps == e.history.sweeps == c.history.sweeps
  {
    hide ModesOf, Enter, Resolve;
    EnterEffects(c.history.(passes := c.history.passes + [Pass(r, now)]), r, ModesOf(c.objs[r].control));
    ResolveEffects(Enlist(c, r, now), r, ModesOf(c.objs[r].control));
  }

  /** Seen from before the arbitration, which leaves slots and holders alone. */
  lemma MovesFromBefore(c: Client, c1: Client, d: Client, r: nat, m: Mode, swept: bool)
    requires Wf(c) && r < |c.objs| == |c1.objs| && c1.slots == c.slots && c1.history.holders == c.history.holders
    requires m in c.slots.vals ==>
      (Beats(c.objs[r], c.objs[c.slots.vals[m]]) <==> Beats(c1.objs[r], c1.objs[c.slots.vals[m]]))
    requires SlotMoves(c1, d, r, m, swept)
    ensures SlotMoves(c, d, r, m, swept)
  {
    hide Beats;
  }

  /** A pass leaves a slot and its holders as they are, adds a holder that beats the one before, or empties the slot;
      only a sweep empties a slot, and exactly the completed disconnect and de-energize controls sweep. */
  lemma PassOnHolders(st: Settings, c: Client, r: nat, now: int, env: PassEnv, m: Mode)
    requires Wf(c) && KeyedById(c) && r < |c.objs|
    ensures var d := ExecutePass(st, c, r, now, env); var swept := Sweeps(st, c, r, now, env);
      && SlotMoves(c, d, r, m, swept)
      && d.history.sweeps == c.history.sweeps + if swept then [r] else []
  {
    hide CarryOut, HandOver, ModesOf, Beats, Enlist, Resolve, IsDeEnergize, KeyedById, Holders;
    LostHolders(c, r, now, m);
    var (lost, c1) := Resolve(Enlist(c, r, now), r, ModesOf(c.objs[r].control));
    if !c.handler.plant.stopped && !lost {
      WonHolders(c, r, now, m);
      CarryOutHolds(st, c1, r, env, m);
      MovesFromBefore(c, c1, CarryOut(st, c1, r, env), r, m, Sweeps(st, c, r, now, env));
    }
  }

  // ----- steps -----

  /** Every slot that was taken is still taken, by the same control or by one that beats it. */
  ghost predicate SlotsImprove(c: Client, d: Client)
    requires Wf(c) && Wf(d)
  {
    forall m :: m in c.slots.vals ==>
      && m in d.slots.vals
      && (d.slots.vals[m] == c.slots.vals[m] || Beats(d.objs[d.slots.vals[m]], c.objs[c.slots.vals[m]]))
  }

  /** A known control keeps its program and its control, and sweeps are only added. */
  ghost predicate SameControls(c: Client, d: Client) {
    && |c.objs| <= |d.objs| && c.history.sweeps <= d.history.sweeps
    && (forall i :: 0 <= i < |c.objs| ==> d.objs[i] == c.objs[i].(status := d.objs[i].status))
  }

  /** What every step, and every part of one, does. */
  ghost predicate Advances(c: Client, d: Client) {
    && Successive(c) && Successive(d) && SameControls(c, d)
    && (d.history.sweeps == c.history.sweeps ==> SlotsImprove(c, d))
  }

  lemma AdvancesComposes(c: Client, d: Client, e: Client)
    requires Advances(c, d) && Advances(d, e)
    ensures Advances(c, e)
  {
    hide Succession, SlotsImprove;
    SameControlsComposes(c, d, e);
    if e.history.sweeps == c.history.sweeps {
      assert d.history.sweeps == c.history.sweeps;
      SlotsImproveComposes(c, d, e);
    }
  }

  lemma SameControlsComposes(c: Client, d: Client, e: Client)
    requires SameControls(c, d) && SameControls(d, e)
    ensures SameControls(c, e)
  {
  }

  lemma SlotsImproveComposes(c: Client, d: Client, e: Client)
    requires Wf(c) && Wf(d) && Wf(e) && SameControls(c, d) && SameControls(d, e)
    requires SlotsImprove(c, d) && SlotsImprove(d, e)
    ensures SlotsImprove(c, e)
  {
    forall m | m in c.slots.vals
      ensures m in e.slots.vals
      ensures e.slots.vals[m] == c.slots.vals[m] || Beats(e.objs[e.slots.vals[m]], c.objs[c.slots.vals[m]])
    {
      var a, b := c.slots.vals[m], d.slots.vals[m];
      assert d.objs[a] == c.objs[a].(status := d.objs[a].status);
      assert e.objs[b] == d.objs[b].(status := e.objs[b].status);
    }
  }

  lemma SuccessionMoves(c: Client, d: Client, r: nat, m: Mode, swept: bool)
    requires Succession(c, m) && SlotMoves(c, d, r, m, swept) && r < |c.objs| && |c.objs| <= |d.objs|
    requires forall i :: 0 <= i < |c.objs| ==> d.objs[i] == c.objs[i].(status := d.objs[i].status)
    ensures Succession(d, m)
  {
    var q := Holders(c.history, m);
    var q' := Holders(d.history, m);
    assert Ascends(d.objs, q);
    if q' == q + [r] {
      forall i | 0 <= i < |q| ensures Beats(d.objs[r], d.objs[q[i]]) {
        assert i < |q| - 1 ==> Beats(c.objs[q[|q| - 1]], c.objs[q[i]]);
      }
    }
  }

  lemma PassAdvances(st: Settings, c: Client, r: nat, now: int, env: PassEnv)
    requires Successive(c) && r < |c.objs|
    ensures Advances(c, ExecutePass(st, c, r, now, env))
  {
    hide ExecutePass, Succession, Sweeps;
    PassOutcome(st, c, r, now, env);
    var d := ExecutePass(st, c, r, now, env);
    forall m
      ensures Succession(d, m)
      ensures d.history.sweeps == c.history.sweeps && m in c.slots.vals ==>
        m in d.slots.vals && (d.slots.vals[m] ==
          c.slots.vals[m] || Beats(d.objs[d.slots.vals[m]], c.objs[c.slots.vals[m]]))
    {
      PassOnHolders(st, c, r, now, env, m);
      assert Succession(c, m);
      SuccessionMoves(c, d, r, m, Sweeps(st, c, r, now, env));
    }
    PassOnHolders(st, c, r, now, env, FixedWMode);
  }

  lemma QuietAdvances(c: Client, d: Client)
    requires Successive(c) && Wf(d) && KeyedById(d) && d.slots == c.slots
    requires d.history.holders == c.history.holders && d.history.sweeps == c.history.sweeps && SameControls(c, d)
    ensures Advances(c, d)
  {
    forall m ensures Succession(d, m) {
      assert Succession(c, m);
    }
  }

  lemma {:induction false} RunDueAdvances(st: Settings, c: Client, refs: seq<nat>, i: nat, now: int, envs: seq<PassEnv>)
    requires Successive(c) && i <= |refs| && forall j :: 0 <= j < |refs| ==> refs[j] < |c.objs|
    ensures Advances(c, RunDue(st, c, refs, i, now, envs))
    decreases |refs| - i
  {
    hide ExecutePass, SlotsImprove, Succession, KeyedById;
    if i == |refs| {
      NothingAdvances(c);
    } else {
      var env := At(envs, i, Quiet(now));
      var c0 := Interrupt(c, env.stopBefore);
      InterruptAdvances(c, env.stopBefore);
      if Due(c.objs[refs[i]], now) {
        var d := ExecutePass(st, c0, refs[i], now, env);
        PassAdvances(st, c0, refs[i], now, env);
        RunDueAdvances(st, d, refs, i + 1, now, envs);
        AdvancesComposes(c0, d, RunDue(st, d, refs, i + 1, now, envs));
      } else {
        RunDueAdvances(st, c0, refs, i + 1, now, envs);
      }
      AdvancesComposes(c, c0, RunDue(st, c, refs, i, now, envs));
    }
  }

  lemma InterruptAdvances(c: Client, triggered: bool)
    requires Successive(c)
    ensures Advances(c, Interrupt(c, triggered))
  {
    QuietAdvances(c, Interrupt(c, triggered));
  }

  lemma NothingAdvances(c: Client)
    requires Successive(c)
    ensures Advances(c, c)
  {
  }

  lemma TrackAdvances(c: Client, t: Tracked, status: EventStatus)
    requires Successive(c)
    ensures Advances(c, SetStatus(Track(c, t), |c.objs|, status))
  {
    QuietAdvances(c, SetStatus(Track(c, t), |c.objs|, status));
  }

  lemma AdmitAdvances(st: Settings, c: Client, control: Control, program: Program, env: MessageEnv)
    requires Successive(c)
    ensures Advances(c, Admit(st, c, control, program, env))
  {
    var t := Tracked(control, program, RandomStart(st, control, env.pickStart),
                     RandomDuration(st, control, env.pickDuration), Pending);
    TrackAdvances(c, t, Pending);
    TrackAdvances(c, t, Scheduled);
    TrackAdvances(c, t, Cancelled);
    hide ExecutePass, Succession, SlotsImprove, RandomStart, RandomDuration;
    var d := SetStatus(Track(c, t), |c.objs|, Pending);
    assert d == Track(c, t);
    PassAdvances(st, d, |c.objs|, env.now, env.pass);
    AdvancesComposes(c, d, ExecutePass(st, d, |c.objs|, env.now, env.pass));
  }

  lemma StepAdvances(st: Settings, c: Client, op: Op)
    requires Successive(c)
    ensures Advances(c, Step(st, c, op))
  {
    hide Admit, Succession, SlotsImprove;
    if op.Tick? {
      RunDueAdvances(st, c, H.Refs(c.tracked, c.tracked.keys), 0, op.now, op.envs);
    } else if op.Process? && op.control.mRID !in c.processed {
      AdmitAdvances(st, c, op.control, op.program, op.msg);
      var d := Admit(st, c, op.control, op.program, op.msg);
      QuietAdvances(d, MarkProcessed(st, d, op.control.mRID));
      AdvancesComposes(c, d, MarkProcessed(st, d, op.control.mRID));
    } else {
      hide Step;
      OtherStepOnlyEnds(st, c, op);
      QuietAdvances(c, Step(st, c, op));
    }
  }

  // ----- main results -----

  /** Over every run, whatever modes the controls have, each slot's holders since it was last emptied beat all holders
      before them, and until a completed disconnect or de-energize control sweeps no slot is given up. */
  lemma {:induction false} SuccessionAlways(st: Settings, c: Client, ops: seq<Op>)
    requires Successive(c)
    ensures Advances(c, Run(st, c, ops))
    decreases |ops|
  {
    hide Step, Succession, SlotsImprove, KeyedById;
    if ops == [] {
      NothingAdvances(c);
    } else {
      var d := Step(st, c, ops[0]);
      StepAdvances(st, c, ops[0]);
      SuccessionAlways(st, d, ops[1..]);
      AdvancesComposes(c, d, Run(st, d, ops[1..]));
    }
  }
}
