/** DERControlHandler as the source has it: one object that updates its event records, its event store and its
    active event step by step. A reference to an event record is its number in objs, so the store and the active
    slot may name the same record. Every method is proved to do what module HandlerSpec says. */
module Handler {
  import opened Common
  import opened DerModels
  import opened Plant
  import opened PowerControl
  import Spec = HandlerSpec

  class DERControlHandler {
    const controller: SafePowerController
    const maxTracked: nat
    const retention: int
    var objs: seq<Spec.Event>
    var events: Dict<MRID, nat>
    var activeEvent: Option<nat>
    var fallback: Option<Control>

    constructor (controller: SafePowerController, maxTracked: nat, retention: int)
      requires controller.Valid()
      ensures Valid() && this.controller == controller
      ensures View() == Spec.START.(plant := controller.Now())
      ensures Settings() == Spec.Settings(controller.Cfg(), maxTracked, retention)
    {
      this.controller, this.maxTracked, this.retention := controller, maxTracked, retention;
      objs, events, activeEvent, fallback := [], Dict([], map[]), None, None;
    }

    ghost predicate Valid()
      reads this, controller, controller.estop, controller.port
    {
      controller.Valid() && Spec.Wf(View())
    }

    ghost function Settings(): Spec.Settings
      reads this, controller
    {
      Spec.Settings(controller.Cfg(), maxTracked, retention)
    }

    ghost function View(): Spec.Handler
      reads this, controller, controller.estop, controller.port
    {
      Spec.Handler(objs, events, activeEvent, fallback, controller.Now())
    }

    /** The handler, and the devices its controller writes to. */
    ghost function Footprint(): set<object>
      reads this, controller
    {
      {this} + controller.Devices()
    }

    method SetStatus(event: nat, status: EventStatus)
      requires Valid() && event < |objs|
      modifies this`objs
      ensures Valid() && View() == Spec.SetStatus(old(View()), event, status)
    {
      objs := objs[event := objs[event].(status := status)];
    }

    /** _supersede_and_set_active */
    method SupersedeAndSetActive(event: nat)
      requires Valid() && event < |objs|
      modifies this`objs, this`activeEvent
      ensures Valid() && View() == Spec.SupersedeAndSetActive(old(View()), event)
    {
      if activeEvent.Some? && objs[activeEvent.value].control.mRID != objs[event].control.mRID {
        if objs[activeEvent.value].status in {Active, Completed} {
          SetStatus(activeEvent.value, Superseded);
        }
      }
      activeEvent := Some(event);
    }

    method Record(event: nat, result: ControlResult)
      requires Valid() && event < |objs|
      modifies this`objs
      ensures Valid() && |objs| == |old(objs)|
      ensures View() == old(View()).(objs := old(objs)[event := old(objs)[event].(
        status := if result.Success() then Completed else Failed, result := Some(result))])
    {
      objs := objs[event := objs[event].(result := Some(result))];
      if result.Success() {
        objs := objs[event := objs[event].(status := Completed)];
      } else {
        objs := objs[event := objs[event].(status := Failed)];
      }
    }

    /** The branch of opModConnect=true */
    method ExecuteConnect(event: nat, env: Env)
      requires Valid() && event < |objs|
      modifies Footprint()
      ensures Valid() && Settings() == old(Settings()) && Footprint() == old(Footprint())
      ensures var (result, p) := Plant.ReconnectPcs(Settings().power, env, old(View()).plant.Lift());
        View() == Spec.Conclude(old(View()), event, Some(result), p)
    {
      var _ := controller.estop.ResetByServer();
      var result := controller.ReconnectPcs(env);
      Record(event, result);
      SupersedeAndSetActive(event);
    }

    /** The branch of opModEnergize=true */
    method ExecuteEnergize(event: nat)
      requires Valid() && event < |objs|
      modifies Footprint()
      ensures Valid() && Settings() == old(Settings()) && Footprint() == old(Footprint())
      ensures View() == Spec.Conclude(old(View()), event, None, old(View()).plant.Lift())
    {
      var _ := controller.estop.ResetByServer();
      SetStatus(event, Completed);
      SupersedeAndSetActive(event);
    }

    /** _execute_control */
    method ExecuteControl(event: nat, now: int, env: Env)
      requires Valid() && event < |objs|
      modifies Footprint()
      ensures Valid() && Settings() == old(Settings()) && Footprint() == old(Footprint())
      ensures View() == Spec.Execute(Settings(), old(View()), event, now, env)
    {
      hide Spec.Conclude, Spec.Command, Plant.ReconnectPcs;
      objs := objs[event := objs[event].(status := Active, executed := Some(now))];
      assert View() == Spec.Begin(old(View()), event, now);

      // Recovery commands come before the emergency-stop gate.
      var base := objs[event].control.base;
      if base.Some? {
        if base.value.connect == Some(true) {
          ExecuteConnect(event, env);
          return;
        }
        if base.value.energize == Some(true) {
          ExecuteEnergize(event);
          return;
        }
      }

      if controller.estop.stopped {
        SetStatus(event, Failed);
        return;
      }
      ExecuteUnlessStopped(event, env);
    }

    /** The commands an emergency stop would have blocked. */
    method ExecuteUnlessStopped(event: nat, env: Env)
      requires Valid() && event < |objs| && !View().plant.stopped
      requires ActionOf(objs[event].control) !in {Connect, Energize}
      modifies Footprint()
      ensures Valid() && Settings() == old(Settings()) && Footprint() == old(Footprint())
      ensures View() == Spec.Command(Settings(), old(View()), event, env)
    {
      var base := objs[event].control.base;
      if base.Some? {
        if base.value.connect == Some(false) {
          var result := controller.DisconnectPcs(env);
          Record(event, result);
          SupersedeAndSetActive(event);
          return;
        }
        if base.value.energize == Some(false) {
          var result := controller.SetPowerSetpoint(0.0, env);
          Record(event, result);
          SupersedeAndSetActive(event);
          return;
        }
      }
      if base.None? || base.value.fixedW.None? {
        SetStatus(event, Completed);
        return;
      }
      SetPowerFor(event, base.value.fixedW.value.ToWatts(), env);
    }

    /** A power event takes over before it is written. */
    method SetPowerFor(event: nat, watts: real, env: Env)
      requires Valid() && event < |objs|
      modifies Footprint()
      ensures Valid() && Settings() == old(Settings()) && Footprint() == old(Footprint())
      ensures var (result, p) := SetPower(Settings().power, watts, env, old(View()).plant);
        View() == Spec.Conclude(old(View()), event, Some(result), p)
    {
      SupersedeAndSetActive(event);
      var result := controller.SetPowerSetpoint(watts, env);
      Record(event, result);
    }

    method NewEvent(control: Control, received: int) returns (event: nat)
      requires Valid()
      modifies this`objs
      ensures Valid() && event == |old(objs)| && View() == Spec.Allocate(old(View()), control, received)
    {
      event := |objs|;
      objs := objs + [Spec.Event(control, Pending, received, None, None)];
    }

    method StoreEvent(event: nat)
      requires Valid() && event < |objs|
      modifies this`events
      ensures Valid() && View() == Spec.Store(old(View()), event)
    {
      events := events.Put(objs[event].control.mRID, event);
    }

    /** _apply_default_control */
    method ApplyDefaultControl(t: Spec.Times, env: Env)
      requires Valid()
      modifies Footprint()
      ensures Valid() && Settings() == old(Settings()) && Footprint() == old(Footprint())
      ensures View() == Spec.ApplyFallback(Settings(), old(View()), t, env)
    {
      if fallback == None {
        return;
      }
      var event := NewEvent(fallback.value, t.received);
      ExecuteControl(event, t.executed, env);
      StoreEvent(event);
    }

    /** handle_control */
    method HandleControl(control: Control, t: Spec.Times, env: Env) returns (event: nat)
      requires Valid()
      modifies Footprint()
      ensures Valid() && Settings() == old(Settings()) && Footprint() == old(Footprint())
      ensures event == |old(objs)|
      ensures View() == Spec.HandleControl(Settings(), old(View()), control, t, env)
    {
      event := NewEvent(control, t.received);
      if control.interval.Some? && control.interval.value.SecondsUntilStart(t.checked) > 0 {
        SetStatus(event, Scheduled);
        StoreEvent(event);
        return;
      }
      ExecuteControl(event, t.executed, env);
      StoreEvent(event);
      CleanupOldEvents(t.cleaned);
    }

    method Delete(keys: seq<MRID>)
      requires Valid()
      modifies this`events
      ensures Valid() && events == Spec.RemoveAll(old(events), keys)
    {
      for i := 0 to |keys|
        invariant Valid()
        invariant Spec.RemoveAll(events, keys[i..]) == Spec.RemoveAll(old(events), keys)
      {
        events := events.Remove(keys[i]);
        assert keys[i..][1..] == keys[i + 1..];
      }
    }

    method FindStale(cutoff: int) returns (keys: seq<MRID>)
      requires Valid()
      ensures keys == Spec.StaleKeys(View(), cutoff, events.keys)
    {
      keys := [];
      for i := 0 to |events.keys|
        invariant keys + Spec.StaleKeys(View(), cutoff, events.keys[i..]) == Spec.StaleKeys(View(), cutoff, events.keys)
      {
        var k := events.keys[i];
        assert events.keys[i..][1..] == events.keys[i + 1..];
        if Spec.Stale(objs[events.vals[k]], cutoff) {
          keys := keys + [k];
        }
      }
    }

    method DropStale(now: int)
      requires Valid()
      modifies this`events
      ensures Valid() && View() == Spec.DropStale(Settings(), old(View()), now)
    {
      var stale := FindStale(now - retention);
      Delete(stale);
    }

    method DropExcess()
      requires Valid()
      modifies this`events
      ensures Valid() && View() == Spec.DropExcess(Settings(), old(View()))
    {
      if |events.keys| > maxTracked {
        var received := map k | k in events.vals :: objs[events.vals[k]].received;
        assert received == Spec.ReceivedTimes(View());
        var sorted := Spec.SortByReceived(received, events.keys);
        Delete(sorted[..|events.keys| - maxTracked]);
      }
    }

    /** _cleanup_old_events */
    method CleanupOldEvents(now: int)
      requires Valid()
      modifies this`events
      ensures Valid() && View() == Spec.Cleanup(Settings(), old(View()), now)
    {
      DropStale(now);
      DropExcess();
    }

    /** cancel_control */
    method CancelControl(id: MRID, t: Spec.Times, env: Env, env': Env) returns (cancelled: bool)
      requires Valid()
      modifies Footprint()
      ensures Valid() && Settings() == old(Settings()) && Footprint() == old(Footprint())
      ensures (View(), cancelled) == Spec.CancelControl(Settings(), old(View()), id, t, env, env')
    {
      if !events.Has(id) {
        return false;
      }
      var event := events.vals[id];
      if objs[event].status !in {Pending, Scheduled, Active, Completed} {
        return false;
      }
      SetStatus(event, Cancelled);
      if activeEvent.Some? && objs[event] == objs[activeEvent.value] {
        Recover(event, env);
        activeEvent := None;
        if fallback.Some? {
          ApplyDefaultControl(t, env');
        }
      }
      return true;
    }

    /** Undo what the cancelled active event did to the PCS. */
    method Recover(event: nat, env: Env)
      requires Valid() && event < |objs|
      modifies controller.Devices()
      ensures Valid() && Settings() == old(Settings()) && Footprint() == old(Footprint())
      ensures View() == old(View()).(plant := Spec.Recovery(Settings(), old(View()), event, env))
    {
      var base := objs[event].control.base;
      if base.Some? && (base.value.connect == Some(false) || base.value.energize == Some(false)) {
        var _ := controller.estop.ResetByServer();
        var _ := controller.ReconnectPcs(env);
      } else {
        var _ := controller.SetPowerSetpoint(0.0, env);
      }
    }

    /** Somebody triggers the emergency stop, or not. */
    method Interrupt(triggered: bool)
      requires Valid()
      modifies Footprint()
      ensures Valid() && Settings() == old(Settings()) && Footprint() == old(Footprint())
      ensures View() == Spec.Interrupt(old(View()), triggered)
    {
      controller.estop.Disturb(triggered);
    }

    /** _process_scheduled_events */
    method ProcessScheduledEvents(now: int, visits: seq<Spec.Visit>)
      requires Valid()
      modifies Footprint()
      ensures Valid() && Settings() == old(Settings()) && Footprint() == old(Footprint())
      ensures View() == Spec.ProcessScheduled(Settings(), old(View()), now, visits)
    {
      hide Spec.Execute, Spec.Interrupt;
      var snapshot := Spec.Refs(events, events.keys);
      for i := 0 to |snapshot|
        invariant Valid() && Settings() == old(Settings()) && Footprint() == old(Footprint())
        invariant forall j :: 0 <= j < |snapshot| ==> snapshot[j] < |objs|
        invariant Spec.RunDue(Settings(), View(), snapshot, i, now, visits) ==
          Spec.ProcessScheduled(Settings(), old(View()), now, visits)
      {
        var event := snapshot[i];
        var v := At(visits, i, Spec.Visit(false, now, Env([], [])));
        Interrupt(v.stopBefore);
        var control := objs[event].control;
        if objs[event].status == Scheduled && control.interval.Some? && control.interval.value.IsActive(now) {
          ExecuteControl(event, v.time, v.env);
        }
      }
    }

    method SetDefaultControl(control: Option<Control>)
      requires Valid()
      modifies this`fallback
      ensures Valid() && View() == old(View()).(fallback := control)
    {
      fallback := control;
    }
  }
}
