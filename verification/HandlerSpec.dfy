/** DERControlHandler as a state machine on values (dera/handler.py). Event objects live in the sequence objs and
    are named by their position, so that the event store, the active event and a replaced event can share or
    not share an object, as they do in the source. */
module HandlerSpec {
  import opened Common
  import opened DerModels
  import opened Plant

  datatype Settings = Settings(power: Config, maxTracked: nat, retention: int)

  datatype Event = Event(
    control: Control,
    status: EventStatus,
    received: int,
    executed: Option<int>,
    result: Option<ControlResult>)

  datatype Handler = Handler(
    objs: seq<Event>,
    store: Dict<MRID, nat>,
    active: Option<nat>,
    fallback: Option<Control>,
    plant: State)

  /** The store is a dict of positions below n. */
  ghost predicate StoreBelow(store: Dict<MRID, nat>, n: nat) {
    store.Valid() && forall k :: k in store.vals ==> store.vals[k] < n
  }

  ghost predicate Wf(h: Handler) {
    && StoreBelow(h.store, |h.objs|)
    && (h.active.Some? ==> h.active.value < |h.objs|)
  }

  /** Clock readings of one call. */
  datatype Times = Times(received: int, checked: int, executed: int, cleaned: int)

  // ----- executing one event -----

  /** _supersede_and_set_active */
  function SupersedeAndSetActive(h: Handler, r: nat): (h': Handler)
    requires Wf(h) && r < |h.objs|
    ensures Wf(h') && |h'.objs| == |h.objs|
  {
    var objs :=
      if h.active.Some? then
        var a := h.active.value;
        if h.objs[a].control.mRID != h.objs[r].control.mRID && h.objs[a].status in {Active, Completed}
        then h.objs[a := h.objs[a].(status := Superseded)]
        else h.objs
      else h.objs;
    h.(objs := objs, active := Some(r))
  }

  /** Record the outcome of event r and make it the active one. */
  function Conclude(h: Handler, r: nat, result: Option<ControlResult>, plant: State): (h': Handler)
    requires Wf(h) && r < |h.objs|
    ensures Wf(h') && |h'.objs| == |h.objs|
  {
    var e := h.objs[r].(
      status := if result.Some? && !result.value.Success() then Failed else Completed,
      result := if result.Some? then result else h.objs[r].result);
    SupersedeAndSetActive(h.(objs := h.objs[r := e], plant := plant), r)
  }

  function SetStatus(h: Handler, r: nat, status: EventStatus): (h': Handler)
    requires Wf(h) && r < |h.objs|
    ensures Wf(h') && |h'.objs| == |h.objs|
  {
    h.(objs := h.objs[r := h.objs[r].(status := status)])
  }

  /** The event is being executed. */
  function Begin(h: Handler, r: nat, now: int): (h': Handler)
    requires Wf(h) && r < |h.objs|
    ensures Wf(h') && |h'.objs| == |h.objs|
  {
    h.(objs := h.objs[r := h.objs[r].(status := Active, executed := Some(now))])
  }

  /** The commands an emergency stop would have blocked. */
  function Command(st: Settings, h: Handler, r: nat, env: Env): (h': Handler)
    requires Wf(h) && r < |h.objs|
    ensures Wf(h') && |h'.objs| == |h.objs|
  {
    match ActionOf(h.objs[r].control)
    case Disconnect =>
      var (res, p) := DisconnectPcs(st.power, env, h.plant);
      Conclude(h, r, Some(res), p)
    case DeEnergize =>
      var (res, p) := SetPower(st.power, 0.0, env, h.plant);
      Conclude(h, r, Some(res), p)
    case Setpoint(watts) =>
      var (res, p) := SetPower(st.power, watts, env, h.plant);
      Conclude(h, r, Some(res), p)
    case _ => SetStatus(h, r, Completed)
  }

  /** _execute_control */
  function Execute(st: Settings, h: Handler, r: nat, now: int, env: Env): (h': Handler)
    requires Wf(h) && r < |h.objs|
    ensures Wf(h') && |h'.objs| == |h.objs|
  {
    var h0 := Begin(h, r, now);
    match ActionOf(h.objs[r].control)
    case Connect =>
      var (res, p) := ReconnectPcs(st.power, env, h.plant.Lift());
      Conclude(h0, r, Some(res), p)
    case Energize =>
      Conclude(h0, r, None, h.plant.Lift())
    case _ =>
      if h.plant.stopped then SetStatus(h0, r, Failed) else Command(st, h0, r, env)
  }

  // ----- the event store -----

  function Allocate(h: Handler, control: Control, received: int): (h': Handler)
    requires Wf(h)
    ensures Wf(h') && |h'.objs| == |h.objs| + 1
  {
    h.(objs := h.objs + [Event(control, Pending, received, None, None)])
  }

  function Store(h: Handler, r: nat): (h': Handler)
    requires Wf(h) && r < |h.objs|
    ensures Wf(h')
  {
    h.(store := h.store.Put(h.objs[r].control.mRID, r))
  }

  predicate Stale(e: Event, cutoff: int) {
    && e.status in {Completed, Cancelled, Failed, Superseded}
    && e.executed.Some? && e.executed.value != 0 && e.executed.value < cutoff
  }

  function StaleKeys(h: Handler, cutoff: int, keys: seq<MRID>): (r: seq<MRID>)
    requires Wf(h) && forall k :: k in keys ==> k in h.store.vals
  {
    if keys == [] then []
    else
      var rest := StaleKeys(h, cutoff, keys[1..]);
      if Stale(h.objs[h.store.vals[keys[0]]], cutoff) then [keys[0]] + rest else rest
  }

  function RemoveAll(d: Dict<MRID, nat>, keys: seq<MRID>): (d': Dict<MRID, nat>)
    ensures d.Valid() ==> d'.Valid()
    ensures forall k :: k in d'.vals ==> k in d.vals && d'.vals[k] == d.vals[k]
    decreases |keys|
  {
    if keys == [] then d else RemoveAll(d.Remove(keys[0]), keys[1..])
  }

  function ReceivedTimes(h: Handler): (m: map<MRID, int>)
    requires Wf(h)
  {
    map k | k in h.store.vals :: h.objs[h.store.vals[k]].received
  }

  /** sorted(..., key=received_time) is stable: a key goes behind the keys received no later. */
  function InsertByReceived(received: map<MRID, int>, sorted: seq<MRID>, k: MRID): (r: seq<MRID>)
    requires k in received && forall x :: x in sorted ==> x in received
    ensures |r| == |sorted| + 1 && forall x :: x in r ==> x in sorted || x == k
  {
    var last := |sorted| - 1;
    if sorted != [] && received[k] < received[sorted[last]]
    then InsertByReceived(received, sorted[..last], k) + [sorted[last]]
    else sorted + [k]
  }

  function SortByReceived(received: map<MRID, int>, keys: seq<MRID>): (r: seq<MRID>)
    requires forall k :: k in keys ==> k in received
    ensures |r| == |keys| && forall k :: k in r ==> k in keys
  {
    if keys == [] then []
    else InsertByReceived(received, SortByReceived(received, keys[..|keys| - 1]), keys[|keys| - 1])
  }

  function DropStale(st: Settings, h: Handler, now: int): (h': Handler)
    requires Wf(h)
    ensures Wf(h')
  {
    h.(store := RemoveAll(h.store, StaleKeys(h, now - st.retention, h.store.keys)))
  }

  function DropExcess(st: Settings, h: Handler): (h': Handler)
    requires Wf(h)
    ensures Wf(h')
  {
    var n := |h.store.keys|;
    if n > st.maxTracked
    then h.(store := RemoveAll(h.store, SortByReceived(ReceivedTimes(h), h.store.keys)[..n - st.maxTracked]))
    else h
  }

  /** _cleanup_old_events */
  function Cleanup(st: Settings, h: Handler, now: int): (h': Handler)
    requires Wf(h)
    ensures Wf(h')
  {
    DropExcess(st, DropStale(st, h, now))
  }

  // ----- public operations -----

  predicate StartsLater(c: Control, now: int) {
    c.interval.Some? && c.interval.value.SecondsUntilStart(now) > 0
  }

  /** handle_control; the event it returns is the newly allocated object |h.objs|. */
  function HandleControl(st: Settings, h: Handler, control: Control, t: Times, env: Env): (h': Handler)
    requires Wf(h)
    ensures Wf(h') && |h'.objs| == |h.objs| + 1
  {
    var r := |h.objs|;
    var h0 := Allocate(h, control, t.received);
    if StartsLater(control, t.checked) then Store(SetStatus(h0, r, Scheduled), r)
    else Cleanup(st, Store(Execute(st, h0, r, t.executed, env), r), t.cleaned)
  }

  /** _apply_default_control */
  function ApplyFallback(st: Settings, h: Handler, t: Times, env: Env): (h': Handler)
    requires Wf(h)
    ensures Wf(h')
  {
    if h.fallback.None? then h
    else
      var r := |h.objs|;
      Store(Execute(st, Allocate(h, h.fallback.value, t.received), r, t.executed, env), r)
  }

  predicate Cancellable(s: EventStatus) {
    s in {Pending, Scheduled, Active, Completed}
  }

  /** Python compares the two events field by field, not by identity. */
  predicate EqualsActive(h: Handler, r: nat)
    requires Wf(h) && r < |h.objs|
  {
    h.active.Some? && h.objs[r] == h.objs[h.active.value]
  }

  /** Undoing what the cancelled active event did: lift the stop and reconnect, or set the power to zero. */
  function Recovery(st: Settings, h: Handler, e: nat, env: Env): State
    requires Wf(h) && e < |h.objs|
  {
    if IsDeEnergize(h.objs[e].control) then ReconnectPcs(st.power, env, h.plant.Lift()).1
    else SetPower(st.power, 0.0, env, h.plant).1
  }

  /** cancel_control: the recovery write uses env, a default control applied afterwards uses env'. */
  function CancelControl(st: Settings, h: Handler, id: MRID, t: Times, env: Env, env': Env): (r: (Handler, bool))
    requires Wf(h)
    ensures Wf(r.0)
  {
    if !h.store.Has(id) then (h, false)
    else
      var e := h.store.vals[id];
      if !Cancellable(h.objs[e].status) then (h, false)
      else
        var h1 := SetStatus(h, e, Cancelled);
        if !EqualsActive(h1, e) then (h1, true)
        else
          (ApplyFallback(st, h1.(active := None, plant := Recovery(st, h, e, env)), t, env'), true)
  }

  /** The clock and the environment of one execution inside a loop; stopBefore is an emergency stop triggered before
      it, since the execution before it. */
  datatype Visit = Visit(stopBefore: bool, time: int, env: Env)

  function Refs(d: Dict<MRID, nat>, keys: seq<MRID>): (r: seq<nat>)
    requires forall k :: k in keys ==> k in d.vals
    ensures |r| == |keys|
    ensures forall i :: 0 <= i < |r| ==> r[i] == d.vals[keys[i]]
  {
    seq(|keys|, i requires 0 <= i < |keys| => d.vals[keys[i]])
  }

  predicate Due(e: Event, now: int) {
    e.status == Scheduled && e.control.interval.Some? && e.control.interval.value.IsActive(now)
  }

  /** Somebody triggers the emergency stop, or not. */
  function Interrupt(h: Handler, triggered: bool): (h': Handler)
    requires Wf(h)
    ensures Wf(h') && h' == h.(plant := h'.plant)
  {
    h.(plant := h.plant.Disturb(triggered))
  }

  /** The events refs[i..] of the snapshot, in order. */
  function RunDue(st: Settings, h: Handler, refs: seq<nat>, i: nat, now: int, visits: seq<Visit>): (h': Handler)
    requires Wf(h) && i <= |refs| && forall j :: 0 <= j < |refs| ==> refs[j] < |h.objs|
    ensures Wf(h') && |h'.objs| == |h.objs|
    decreases |refs| - i
  {
    if i == |refs| then h
    else
      var v := At(visits, i, Visit(false, now, Env([], [])));
      var h0 := Interrupt(h, v.stopBefore);
      var h1 := if Due(h.objs[refs[i]], now) then Execute(st, h0, refs[i], v.time, v.env) else h0;
      RunDue(st, h1, refs, i + 1, now, visits)
  }

  /** _process_scheduled_events */
  function ProcessScheduled(st: Settings, h: Handler, now: int, visits: seq<Visit>): (h': Handler)
    requires Wf(h)
    ensures Wf(h')
  {
    RunDue(st, h, Refs(h.store, h.store.keys), 0, now, visits)
  }

  // ----- runs -----

  datatype Op =
    | Handle(control: Control, t: Times, env: Env)
    | Cancel(id: MRID, t: Times, env: Env, env': Env)
    | Tick(now: int, visits: seq<Visit>)
    | SetFallback(default: Option<Control>)
    | TriggerStop
    | UpdateSoc(soc: Option<real>)

  function Step(st: Settings, h: Handler, op: Op): (h': Handler)
    requires Wf(h)
    ensures Wf(h')
  {
    match op
    case Handle(c, t, env) => HandleControl(st, h, c, t, env)
    case Cancel(id, t, env, env') => CancelControl(st, h, id, t, env, env').0
    case Tick(now, visits) => ProcessScheduled(st, h, now, visits)
    case SetFallback(c) => h.(fallback := c)
    case TriggerStop => h.(plant := h.plant.Disturb(true))
    case UpdateSoc(soc) => h.(plant := h.plant.(soc := soc))
  }

  function Run(st: Settings, h: Handler, ops: seq<Op>): (h': Handler)
    requires Wf(h)
    ensures Wf(h')
    decreases |ops|
  {
    if ops == [] then h else Run(st, Step(st, h, ops[0]), ops[1..])
  }

  const START := Handler([], Dict([], map[]), None, None, State(false, None, [], 0, 0))
}
