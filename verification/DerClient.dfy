/** DERClient as the source has it: one object that updates its tracking table, its mode slots and its memory of
    mRIDs step by step and drives the handler. A reference to a tracked control is its number in objs. Every method
    is proved to do what module ClientSpec says. */
module DerClient {
  import opened Common
  import opened DerModels
  import opened Plant
  import opened Handler
  import H = HandlerSpec
  import Spec = ClientSpec

  lemma OccupyStep(c: Spec.Client, r: nat, modes: seq<Spec.Mode>, i: nat)
    requires Spec.Wf(c) && r < |c.objs| && i < |modes|
    ensures var d := c.(slots := c.slots.Put(modes[i], r));
      Spec.Wf(d) && Spec.Occupy(c, r, modes[i..]) == Spec.Occupy(d, r, modes[i + 1..])
  {
    assert modes[i..][1..] == modes[i + 1..];
  }

  lemma OccupyEnd(c: Spec.Client, r: nat, modes: seq<Spec.Mode>)
    requires Spec.Wf(c) && r < |c.objs|
    ensures Spec.Occupy(c, r, modes[|modes|..]) == c
  {
  }

  /** The modes from i on are distinct and their slots are taken. */
  ghost predicate Unvisited(c: Spec.Client, modes: seq<Spec.Mode>, i: nat) {
    && i <= |modes| && NoDuplicates(modes[i..])
    && forall m :: m in modes[i..] ==> m in c.slots.vals
  }

  lemma SweepSlotsStep(c: Spec.Client, exclude: MRID, modes: seq<Spec.Mode>, i: nat)
    requires Spec.Wf(c) && i < |modes| && Unvisited(c, modes, i)
    ensures modes[i] in c.slots.vals && Unvisited(Spec.SweepSlot(c, exclude, modes[i]), modes, i + 1)
    ensures Spec.SweepSlots(c, exclude, modes[i..]) ==
      Spec.SweepSlots(Spec.SweepSlot(c, exclude, modes[i]), exclude, modes[i + 1..])
  {
    assert modes[i..][0] == modes[i] && modes[i..][1..] == modes[i + 1..];
  }

  lemma SweepSlotsEnd(c: Spec.Client, exclude: MRID, modes: seq<Spec.Mode>)
    requires Spec.Wf(c)
    ensures Spec.SweepSlots(c, exclude, modes[|modes|..]) == c
  {
  }

  class DERClient {
    const handler: DERControlHandler
    const retention: nat
    const randomize: bool
    var objs: seq<Spec.Tracked>
    var tracked: Dict<MRID, nat>
    var slots: Dict<Spec.Mode, nat>
    var processed: seq<MRID>
    var cancelled: set<MRID>
    var activeDefault: Option<Spec.Default>
    /** A record for the specification; the code keeps none. */
    ghost var history: Spec.History

    constructor (handler: DERControlHandler, retention: nat, randomize: bool)
      requires handler.Valid()
      ensures Valid() && this.handler == handler
      ensures View() == Spec.START.(handler := handler.View())
      ensures Settings() == Spec.Settings(handler.Settings(), retention, randomize)
    {
      this.handler, this.retention, this.randomize := handler, retention, randomize;
      objs, tracked, slots := [], Dict([], map[]), Dict([], map[]);
      processed, cancelled, activeDefault := [], {}, None;
      history := Spec.START.history;
    }

    ghost predicate Valid()
      reads this, handler, handler.controller, handler.controller.estop, handler.controller.port
    {
      handler.Valid() && Spec.Wf(View())
    }

    ghost function Settings(): Spec.Settings
      reads this, handler, handler.controller
    {
      Spec.Settings(handler.Settings(), retention, randomize)
    }

    ghost function View(): Spec.Client
      reads this, handler, handler.controller, handler.controller.estop, handler.controller.port
    {
      Spec.Client(objs, tracked, slots, processed, cancelled, activeDefault, handler.View(), history)
    }

    ghost function Footprint(): set<object>
      reads this, handler, handler.controller
    {
      {this} + handler.Footprint()
    }

    method SetStatus(r: nat, status: EventStatus)
      requires Valid() && r < |objs|
      modifies this`objs
      ensures Valid() && View() == Spec.SetStatus(old(View()), r, status)
    {
      objs := objs[r := objs[r].(status := status)];
    }

    // ----- conflict resolution -----

    /** _resolve_conflict */
    method ResolveConflict(r: nat) returns (lost: bool)
      requires Valid() && r < |objs|
      modifies this`objs
      ensures Valid() && (lost, View()) == Spec.Resolve(old(View()), r, Spec.ModesOf(old(objs)[r].control))
    {
      var modes := Spec.ModesOf(objs[r].control);
      for i := 0 to |modes|
        invariant Valid() && |objs| == |old(objs)|
        invariant Spec.Resolve(View(), r, modes[i..]) == Spec.Resolve(old(View()), r, modes)
      {
        var mode := modes[i];
        assert modes[i..][1..] == modes[i + 1..];
        if mode in slots.vals {
          var existing := slots.vals[mode];
          if objs[r].program.primacy > objs[existing].program.primacy {
            return true;
          } else if objs[r].program.primacy == objs[existing].program.primacy {
            if objs[r].control.creationTime <= objs[existing].control.creationTime {
              return true;
            }
          }
          SetStatus(existing, Superseded);
        }
      }
      return false;
    }

    /** _track_active_control */
    method TrackActiveControl(r: nat)
      requires Valid() && r < |objs|
      modifies this`slots
      ensures Valid() && View() == Spec.Occupy(old(View()), r, Spec.ModesOf(objs[r].control))
    {
      hide Spec.ModesOf, Spec.Occupy, Spec.Wf;
      var modes := Spec.ModesOf(objs[r].control);
      for i := 0 to |modes|
        invariant Valid()
        invariant Spec.Occupy(View(), r, modes[i..]) == Spec.Occupy(old(View()), r, modes)
      {
        OccupyStep(View(), r, modes, i);
        slots := slots.Put(modes[i], r);
      }
      OccupyEnd(View(), r, modes);
    }

    // ----- the de-energize sweep -----

    method SweepSlots(exclude: MRID)
      requires Valid()
      modifies this`objs, this`slots, this`history
      ensures Valid() && View() == Spec.SweepSlots(old(View()), exclude, old(slots).keys)
    {
      hide Spec.SweepSlots, NoDuplicates;
      var modes := slots.keys;
      assert modes[0..] == modes;
      for i := 0 to |modes|
        invariant Valid() && |objs| == |old(objs)|
        invariant Unvisited(View(), modes, i)
        invariant Spec.SweepSlots(View(), exclude, modes[i..]) == Spec.SweepSlots(old(View()), exclude, modes)
      {
        SweepSlotsStep(View(), exclude, modes, i);
        var mode := modes[i];
        var active := slots.vals[mode];
        if objs[active].control.mRID != exclude {
          if objs[active].status in {Active, Completed} {
            SetStatus(active, Superseded);
            RemoveKeepsExact(slots, mode);
            slots := slots.Remove(mode);
            history := history.Forget(mode);
          }
        }
      }
      SweepSlotsEnd(View(), exclude, modes);
    }

    method SweepScheduled(exclude: MRID)
      requires Valid()
      modifies this`objs
      ensures Valid() && View() == Spec.SweepScheduled(old(View()), exclude, tracked.keys)
    {
      for i := 0 to |tracked.keys|
        invariant Valid() && |objs| == |old(objs)|
        invariant Spec.SweepScheduled(View(), exclude, tracked.keys[i..]) ==
          Spec.SweepScheduled(old(View()), exclude, tracked.keys)
      {
        var id := tracked.keys[i];
        assert tracked.keys[i..][1..] == tracked.keys[i + 1..];
        if id != exclude && objs[tracked.vals[id]].status == Scheduled {
          SetStatus(tracked.vals[id], Superseded);
        }
      }
    }

    /** _cancel_all_active_controls */
    method CancelAllActiveControls(exclude: MRID, env: Spec.CancelEnv)
      requires Valid()
      modifies Footprint()
      ensures Valid() && Settings() == old(Settings()) && Footprint() == old(Footprint())
      ensures View() == Spec.Sweep(Settings(), old(View()), exclude, env)
    {
      SweepSlots(exclude);
      SweepScheduled(exclude);
      activeDefault := None;
      if handler.activeEvent.Some? {
        var id := handler.objs[handler.activeEvent.value].control.mRID;
        if id != exclude {
          var _ := handler.CancelControl(id, env.t, env.env, env.env');
        }
      }
    }

    // ----- execution -----

    /** _execute_control */
    method ExecuteControl(r: nat, now: int, env: Spec.PassEnv)
      requires Valid() && r < |objs|
      modifies Footprint()
      ensures Valid() && Settings() == old(Settings()) && Footprint() == old(Footprint())
      ensures View() == Spec.ExecutePass(Settings(), old(View()), r, now, env)
    {
      history := Spec.Enlist(View(), r, now).history;
      if handler.controller.estop.stopped {
        SetStatus(r, Failed);
        return;
      }
      var lost := ResolveConflict(r);
      if lost {
        SetStatus(r, Superseded);
        return;
      }
      CarryOut(r, env);
    }

    /** The part of _execute_control after a won arbitration. */
    method CarryOut(r: nat, env: Spec.PassEnv)
      requires Valid() && r < |objs|
      modifies Footprint()
      ensures Valid() && Settings() == old(Settings()) && Footprint() == old(Footprint())
      ensures View() == Spec.CarryOut(Settings(), old(View()), r, env)
    {
      hide Spec.HandOver, Spec.TakeSlots, Spec.Sweep, IsDeEnergize;
      HandOver(r, env);
      TakeSlots(r);
      if objs[r].status == Completed && IsDeEnergize(objs[r].control) {
        CancelAllActiveControls(objs[r].control.mRID, env.sweep);
      }
      if env.callbackRaises {
        SetStatus(r, Failed);
      }
    }

    method HandOver(r: nat, env: Spec.PassEnv)
      requires Valid() && r < |objs|
      modifies Footprint()
      ensures Valid() && Settings() == old(Settings()) && Footprint() == old(Footprint())
      ensures View() == Spec.HandOver(Settings(), old(View()), r, env)
      ensures |objs| == |old(objs)| && objs[r].control == old(objs)[r].control
    {
      hide H.HandleControl;
      activeDefault := None;
      // Someone may trigger the stop while the responses are sent.
      handler.controller.estop.Disturb(env.stopMid);
      var event := handler.HandleControl(objs[r].control, env.t, env.env);
      SetStatus(r, handler.objs[event].status);
    }

    method TakeSlots(r: nat)
      requires Valid() && r < |objs|
      modifies this`slots, this`history
      ensures Valid() && View() == Spec.TakeSlots(old(View()), r)
    {
      history := Spec.Note(View(), r).history;
      TrackActiveControl(r);
    }

    // ----- server messages -----

    method CancelTracked(id: MRID)
      requires Valid()
      modifies this`objs
      ensures Valid() && View() == Spec.CancelTracked(old(View()), id)
    {
      if !tracked.Has(id) {
        return;
      }
      SetStatus(tracked.vals[id], Cancelled);
    }

    /** _handle_server_cancel */
    method HandleServerCancel(id: MRID, env: Spec.CancelEnv)
      requires Valid()
      modifies Footprint()
      ensures Valid() && Settings() == old(Settings()) && Footprint() == old(Footprint())
      ensures View() == Spec.ServerCancel(Settings(), old(View()), id, env)
    {
      var _ := handler.CancelControl(id, env.t, env.env, env.env');
      CancelTracked(id);
    }

    method CalculateRandomizedStart(control: Control, pick: int) returns (offset: int)
      requires Valid()
      ensures offset == Spec.RandomStart(Settings(), control, pick)
      ensures offset >= 0 && (offset > 0 ==>
        randomize && control.randomizeStart.Some? && offset <= control.randomizeStart.value)
    {
      if !randomize {
        return 0;
      }
      if control.randomizeStart.None? || control.randomizeStart.value <= 0 {
        return 0;
      }
      return Spec.Draw(0, control.randomizeStart.value, pick);
    }

    method CalculateRandomizedDuration(control: Control, pick: int) returns (adjustment: int)
      requires Valid()
      ensures adjustment == Spec.RandomDuration(Settings(), control, pick)
      ensures control.randomizeDuration.Some? ==> Spec.Within(adjustment, control.randomizeDuration.value)
      ensures !randomize || control.randomizeDuration.None? ==> adjustment == 0
    {
      if !randomize {
        return 0;
      }
      if control.randomizeDuration.None? || control.randomizeDuration.value == 0 {
        return 0;
      }
      var d := control.randomizeDuration.value;
      var bound := if d < 0 then -d else d;
      return Spec.Draw(-bound, bound, pick);
    }

    /** _process_control */
    method ProcessControl(control: Control, program: Spec.Program, env: Spec.MessageEnv)
      requires Valid()
      modifies Footprint()
      ensures Valid() && Settings() == old(Settings()) && Footprint() == old(Footprint())
      ensures View() == Spec.ProcessControl(Settings(), old(View()), control, program, env)
    {
      var id := control.mRID;
      if id in processed {
        if control.currentStatus == Some(Spec.CANCELLED_BY_SERVER) && id !in cancelled {
          cancelled := cancelled + {id};
          history := history.(cancels := history.cancels + [id]);
          HandleServerCancel(id, env.cancel);
        }
        return;
      }
      Admit(control, program, env);
      processed := Spec.Push(processed, id, retention);
      history := history.(processed := history.processed + [id]);
    }

    /** The first time a control is seen. */
    method Admit(control: Control, program: Spec.Program, env: Spec.MessageEnv)
      requires Valid()
      modifies Footprint()
      ensures Valid() && Settings() == old(Settings()) && Footprint() == old(Footprint())
      ensures View() == Spec.Admit(Settings(), old(View()), control, program, env)
    {
      hide Spec.ExecutePass;
      var offset := CalculateRandomizedStart(control, env.pickStart);
      var adjustment := CalculateRandomizedDuration(control, env.pickDuration);
      var r := |objs|;
      objs := objs + [Spec.Tracked(control, program, offset, adjustment, Pending)];
      tracked := tracked.Put(control.mRID, r);
      if control.interval.None? {
        ExecuteControl(r, env.now, env.pass);
        return;
      }
      var start := control.interval.value.start + offset;
      var end := control.interval.value.start + control.interval.value.duration + adjustment;
      if env.now >= start && env.now < end {
        ExecuteControl(r, env.now, env.pass);
      } else if env.now < start {
        SetStatus(r, Scheduled);
      } else {
        SetStatus(r, Cancelled);
      }
    }

    // ----- scheduler, defaults, programs -----

    /** Somebody triggers the emergency stop, or not. */
    method Interrupt(triggered: bool)
      requires Valid()
      modifies Footprint()
      ensures Valid() && Settings() == old(Settings()) && Footprint() == old(Footprint())
      ensures View() == Spec.Interrupt(old(View()), triggered)
    {
      handler.controller.estop.Disturb(triggered);
    }

    /** One round of _scheduler_loop */
    method SchedulerTick(now: int, envs: seq<Spec.PassEnv>)
      requires Valid()
      modifies Footprint()
      ensures Valid() && Settings() == old(Settings()) && Footprint() == old(Footprint())
      ensures View() == Spec.SchedulerTick(Settings(), old(View()), now, envs)
    {
      hide Spec.ExecutePass, Spec.Interrupt;
      var snapshot := H.Refs(tracked, tracked.keys);
      for i := 0 to |snapshot|
        invariant Valid() && Settings() == old(Settings()) && Footprint() == old(Footprint())
        invariant forall j :: 0 <= j < |snapshot| ==> snapshot[j] < |objs|
        invariant Spec.RunDue(Settings(), View(), snapshot, i, now, envs) ==
          Spec.SchedulerTick(Settings(), old(View()), now, envs)
      {
        var t := objs[snapshot[i]];
        var env := At(envs, i, Spec.Quiet(now));
        Interrupt(env.stopBefore);
        if t.status == Scheduled && t.control.interval.Some? {
          if now >= t.control.interval.value.start + t.offset {
            ExecuteControl(snapshot[i], now, env);
          }
        }
      }
    }

    method AnyActive() returns (any: bool)
      requires Valid()
      ensures any == Spec.AnyActive(View(), tracked.keys)
    {
      for i := 0 to |tracked.keys|
        invariant Spec.AnyActive(View(), tracked.keys) == Spec.AnyActive(View(), tracked.keys[i..])
      {
        assert tracked.keys[i..][1..] == tracked.keys[i + 1..];
        if objs[tracked.vals[tracked.keys[i]]].status == Active {
          return true;
        }
      }
      return false;
    }

    /** _check_default_control */
    method CheckDefaultControl(best: Option<Spec.Default>, env: Env)
      requires Valid()
      modifies Footprint()
      ensures Valid() && Settings() == old(Settings()) && Footprint() == old(Footprint())
      ensures View() == Spec.CheckDefault(Settings(), old(View()), best, env)
    {
      var any := AnyActive();
      if any || best.None? {
        return;
      }
      if activeDefault == best {
        return;
      }
      if best.value.base.Some? {
        var fixedW := best.value.base.value.fixedW;
        if fixedW.Some? {
          var result := handler.controller.SetPowerSetpoint(fixedW.value.ToWatts(), env);
          if result.Success() {
            activeDefault := best;
          }
        }
      }
    }

    /** _untrack_program */
    method UntrackProgram(program: MRID)
      requires Valid()
      modifies this`objs
      ensures Valid() && View() == Spec.CancelProgram(old(View()), program, tracked.keys)
    {
      for i := 0 to |tracked.keys|
        invariant Valid()
        invariant Spec.CancelProgram(View(), program, tracked.keys[i..]) ==
          Spec.CancelProgram(old(View()), program, tracked.keys)
      {
        var id := tracked.keys[i];
        assert tracked.keys[i..][1..] == tracked.keys[i + 1..];
        if objs[tracked.vals[id]].program.mRID == program {
          CancelTracked(id);
        }
      }
    }
  }
}
