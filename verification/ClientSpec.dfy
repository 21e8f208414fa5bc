/** DERClient as a state machine on values (dera/der_client.py): which server control is tracked, scheduled,
    executed, superseded or cancelled. Tracked controls live in the sequence objs and are named by their position,
    so that the tracking table and the mode slots can share an object. */
module ClientSpec {
  import opened Common
  import opened DerModels
  import opened Plant
  import H = HandlerSpec

  /** retention bounds the memory of processed mRIDs. */
  datatype Settings = Settings(handler: H.Settings, retention: nat, randomize: bool)

  datatype Mode = FixedWMode | FixedVarMode | MaxLimWMode | ConnectMode | EnergizeMode

  function ModesOf(c: Control): seq<Mode> {
    match c.base
    case None => []
    case Some(b) =>
      (if b.fixedW.Some? then [FixedWMode] else [])
      + (if b.fixedVar.Some? then [FixedVarMode] else [])
      + (if b.maxLimW.Some? then [MaxLimWMode] else [])
      + (if b.connect.Some? then [ConnectMode] else [])
      + (if b.energize.Some? then [EnergizeMode] else [])
  }

  datatype Program = Program(mRID: MRID, primacy: int)

  datatype Tracked = Tracked(
    control: Control,
    program: Program,
    offset: int,
    adjustment: int,
    status: EventStatus)

  /** A program and its default control's base. */
  datatype Default = Default(program: Program, base: Option<ControlBase>)

  /** One call of _execute_control. */
  datatype Pass = Pass(ref: nat, time: int)

  /** What happened so far. The code keeps none of this: passes lists every execution, contenders the controls that
      entered arbitration on a mode since its slot was last emptied, holders those that have held it since then, the
      latest last, sweeps the controls that swept, processed every mRID ever processed, and cancels every mRID whose
      server cancel was acted on. */
  datatype History = History(
    passes: seq<Pass>,
    contenders: map<Mode, seq<nat>>,
    holders: map<Mode, seq<nat>>,
    sweeps: seq<nat>,
    processed: seq<MRID>,
    cancels: seq<MRID>) {

    /** The slot of mode m is emptied. */
    function Forget(m: Mode): History {
      this.(contenders := contenders - {m}, holders := holders - {m})
    }
  }

  datatype Client = Client(
    objs: seq<Tracked>,
    tracked: Dict<MRID, nat>,
    slots: Dict<Mode, nat>,
    processed: seq<MRID>,
    cancelled: set<MRID>,
    activeDefault: Option<Default>,
    handler: H.Handler,
    history: History)

  ghost predicate SlotsBelow(slots: Dict<Mode, nat>, n: nat) {
    && slots.Exact()
    && (forall m :: m in slots.vals ==> slots.vals[m] < n)
  }

  ghost predicate Wf(c: Client) {
    && H.StoreBelow(c.tracked, |c.objs|)
    && SlotsBelow(c.slots, |c.objs|)
    && H.Wf(c.handler)
  }

  function SetStatus(c: Client, r: nat, status: EventStatus): (c': Client)
    requires Wf(c) && r < |c.objs|
    ensures Wf(c') && |c'.objs| == |c.objs|
  {
    c.(objs := c.objs[r := c.objs[r].(status := status)])
  }

  // ----- arbitration -----

  /** The control at a beats the one at b: lower primacy, or equal primacy and created later. */
  predicate Beats(a: Tracked, b: Tracked) {
    || a.program.primacy < b.program.primacy
    || (a.program.primacy == b.program.primacy && a.control.creationTime > b.control.creationTime)
  }

  /** _resolve_conflict: true if r loses. Holders it beats on the way are superseded. */
  function Resolve(c: Client, r: nat, modes: seq<Mode>): (res: (bool, Client))
    requires Wf(c) && r < |c.objs|
    ensures Wf(res.1) && |res.1.objs| == |c.objs|
    decreases |modes|
  {
    if modes == [] then (false, c)
    else if modes[0] !in c.slots.vals then Resolve(c, r, modes[1..])
    else
      var e := c.slots.vals[modes[0]];
      if !Beats(c.objs[r], c.objs[e]) then (true, c)
      else Resolve(SetStatus(c, e, Superseded), r, modes[1..])
  }

  /** _track_active_control */
  function Occupy(c: Client, r: nat, modes: seq<Mode>): (c': Client)
    requires Wf(c) && r < |c.objs|
    ensures Wf(c') && c'.objs == c.objs
    decreases |modes|
  {
    if modes == [] then c
    else Occupy(c.(slots := c.slots.Put(modes[0], r)), r, modes[1..])
  }

  function Contenders(h: History, m: Mode): seq<nat> {
    if m in h.contenders then h.contenders[m] else []
  }

  function Enter(h: History, r: nat, modes: seq<Mode>): History
    decreases |modes|
  {
    if modes == [] then h
    else Enter(h.(contenders := h.contenders[modes[0] := Contenders(h, modes[0]) + [r]]), r, modes[1..])
  }

  function Holders(h: History, m: Mode): seq<nat> {
    if m in h.holders then h.holders[m] else []
  }

  function Hold(h: History, r: nat, modes: seq<Mode>): History
    decreases |modes|
  {
    if modes == [] then h
    else Hold(h.(holders := h.holders[modes[0] := Holders(h, modes[0]) + [r]]), r, modes[1..])
  }

  // ----- the de-energize sweep -----

  /** One slot of the sweep. */
  function SweepSlot(c: Client, exclude: MRID, m: Mode): (c': Client)
    requires Wf(c) && m in c.slots.vals
    ensures Wf(c') && |c'.objs| == |c.objs| && c'.tracked == c.tracked && c'.handler == c.handler
    ensures forall x :: x in c.slots.vals && x != m ==> x in c'.slots.vals
  {
    var a := c.slots.vals[m];
    if c.objs[a].control.mRID != exclude && c.objs[a].status in {Active, Completed} then
      RemoveKeepsExact(c.slots, m);
      SetStatus(c, a, Superseded).(slots := c.slots.Remove(m), history := c.history.Forget(m))
    else c
  }

  function SweepSlots(c: Client, exclude: MRID, modes: seq<Mode>): (c': Client)
    requires Wf(c) && NoDuplicates(modes) && forall m :: m in modes ==> m in c.slots.vals
    ensures Wf(c') && |c'.objs| == |c.objs| && c'.tracked == c.tracked && c'.handler == c.handler
    decreases |modes|
  {
    if modes == [] then c else SweepSlots(SweepSlot(c, exclude, modes[0]), exclude, modes[1..])
  }

  function SweepScheduled(c: Client, exclude: MRID, keys: seq<MRID>): (c': Client)
    requires Wf(c) && forall k :: k in keys ==> k in c.tracked.vals
    ensures Wf(c') && |c'.objs| == |c.objs|
    decreases |keys|
  {
    if keys == [] then c
    else
      var r := c.tracked.vals[keys[0]];
      var c1 := if keys[0] != exclude && c.objs[r].status == Scheduled then SetStatus(c, r, Superseded) else c;
      SweepScheduled(c1, exclude, keys[1..])
  }

  /** The clock and the environment of one execution: stopBefore is an emergency stop triggered before it, since the
      execution before it in the same round, and stopMid one triggered while the responses are being sent, between the
      client's own gate and the handler. */
  datatype PassEnv = PassEnv(
    stopBefore: bool,
    stopMid: bool,
    t: H.Times,
    env: Env,
    sweep: CancelEnv,
    callbackRaises: bool)

  datatype CancelEnv = CancelEnv(t: H.Times, env: Env, env': Env)

  /** An execution in which the clock stands still, nobody intervenes and the bus stays silent. */
  function Quiet(now: int): PassEnv {
    var t := H.Times(now, now, now, now);
    PassEnv(false, false, t, Env([], []), CancelEnv(t, Env([], []), Env([], [])), false)
  }

  /** Step 4 of the sweep: cancel whatever else the handler still holds. */
  function SweepHandler(st: Settings, c: Client, exclude: MRID, env: CancelEnv): (c': Client)
    requires Wf(c)
    ensures Wf(c')
  {
    var h := c.handler;
    if h.active.Some? && h.objs[h.active.value].control.mRID != exclude
    then c.(handler := H.CancelControl(st.handler, h, h.objs[h.active.value].control.mRID, env.t, env.env, env.env').0)
    else c
  }

  /** _cancel_all_active_controls */
  function Sweep(st: Settings, c: Client, exclude: MRID, env: CancelEnv): (c': Client)
    requires Wf(c)
    ensures Wf(c') && |c'.objs| == |c.objs|
  {
    var c1 := SweepSlots(c, exclude, c.slots.keys);
    var c2 := SweepScheduled(c1, exclude, c1.tracked.keys);
    SweepHandler(st, c2.(activeDefault := None), exclude, env)
  }

  // ----- executing one control -----

  /** Control r, handled, is the holder of each of its modes; a completed disconnect or de-energize control sweeps. */
  function Note(c: Client, r: nat): (c': Client)
    requires Wf(c) && r < |c.objs|
    ensures Wf(c') && c'.objs == c.objs
  {
    var control := c.objs[r].control;
    var h := Hold(c.history, r, ModesOf(control));
    c.(history :=
      if c.objs[r].status == Completed && IsDeEnergize(control) then h.(sweeps := h.sweeps + [r]) else h)
  }

  /** The control is given to the handler and takes over the status of the handler's event. */
  function HandOver(st: Settings, c: Client, r: nat, env: PassEnv): (c': Client)
    requires Wf(c) && r < |c.objs|
    ensures Wf(c') && |c'.objs| == |c.objs|
  {
    var h := c.handler.(plant := c.handler.plant.Disturb(env.stopMid));
    var h' := H.HandleControl(st.handler, h, c.objs[r].control, env.t, env.env);
    SetStatus(c.(activeDefault := None, handler := h'), r, h'.objs[|h.objs|].status)
  }

  /** The control, whatever its status, takes the slot of each of its modes. */
  function TakeSlots(c: Client, r: nat): (c': Client)
    requires Wf(c) && r < |c.objs|
    ensures Wf(c') && c'.objs == c.objs
  {
    Occupy(Note(c, r), r, ModesOf(c.objs[r].control))
  }

  /** The part of _execute_control after a won arbitration. */
  function CarryOut(st: Settings, c: Client, r: nat, env: PassEnv): (c': Client)
    requires Wf(c) && r < |c.objs|
    ensures Wf(c') && |c'.objs| == |c.objs|
  {
    var control := c.objs[r].control;
    var c2 := TakeSlots(HandOver(st, c, r, env), r);
    var c3 := if c2.objs[r].status ==
      Completed && IsDeEnergize(control) then Sweep(st, c2, control.mRID, env.sweep) else c2;
    if env.callbackRaises then SetStatus(c3, r, Failed) else c3
  }

  /** The pass is on record, and r is a contender on each of its modes. */
  function Enlist(c: Client, r: nat, now: int): (c': Client)
    requires Wf(c) && r < |c.objs|
    ensures Wf(c') && c'.objs == c.objs
  {
    var h := c.history.(passes := c.history.passes + [Pass(r, now)]);
    c.(history := if c.handler.plant.stopped then h else Enter(h, r, ModesOf(c.objs[r].control)))
  }

  /** _execute_control */
  function ExecutePass(st: Settings, c: Client, r: nat, now: int, env: PassEnv): (c': Client)
    requires Wf(c) && r < |c.objs|
    ensures Wf(c') && |c'.objs| == |c.objs|
  {
    var c0 := Enlist(c, r, now);
    if c.handler.plant.stopped then SetStatus(c0, r, Failed)
    else
      var (lost, c1) := Resolve(c0, r, ModesOf(c.objs[r].control));
      if lost then SetStatus(c1, r, Superseded) else CarryOut(st, c1, r, env)
  }

  // ----- server messages -----

  /** random.randint(lo, hi), the outcome picked by the environment. */
  function Draw(lo: int, hi: int, pick: int): (x: int)
    requires lo <= hi
    ensures lo <= x <= hi
  {
    if pick < lo then lo else if pick > hi then hi else pick
  }

  function RandomStart(st: Settings, c: Control, pick: int): (x: int)
    ensures x >= 0 && (x > 0 ==> st.randomize && c.randomizeStart.Some? && x <= c.randomizeStart.value)
    ensures st.randomize && c.randomizeStart.Some? && 0 <= pick <= c.randomizeStart.value ==> x == pick
  {
    if st.randomize && c.randomizeStart.Some? && c.randomizeStart.value > 0
    then Draw(0, c.randomizeStart.value, pick) else 0
  }

  /** x is at most d away from zero, in either direction. */
  predicate Within(x: int, d: int) {
    if d < 0 then d <= x <= -d else -d <= x <= d
  }

  function RandomDuration(st: Settings, c: Control, pick: int): (x: int)
    ensures c.randomizeDuration.Some? ==> Within(x, c.randomizeDuration.value)
    ensures !st.randomize || c.randomizeDuration.None? ==> x == 0
    ensures st.randomize && c.randomizeDuration.Some? && Within(pick, c.randomizeDuration.value) ==> x == pick
  {
    if st.randomize && c.randomizeDuration.Some? && c.randomizeDuration.value != 0 then
      var d := if c.randomizeDuration.value < 0 then -c.randomizeDuration.value else c.randomizeDuration.value;
      Draw(-d, d, pick)
    else 0
  }

  /** deque(maxlen=n).append */
  function Push(q: seq<MRID>, x: MRID, n: nat): seq<MRID> {
    if n == 0 then [] else if |q| < n then q + [x] else q[1..] + [x]
  }

  function MarkProcessed(st: Settings, c: Client, id: MRID): (c': Client)
    requires Wf(c)
    ensures Wf(c')
  {
    c.(processed := Push(c.processed, id, st.retention),
       history := c.history.(processed := c.history.processed + [id]))
  }

  /** _cancel_control of the client */
  function CancelTracked(c: Client, id: MRID): (c': Client)
    requires Wf(c)
    ensures Wf(c') && |c'.objs| == |c.objs|
  {
    if c.tracked.Has(id) then SetStatus(c, c.tracked.vals[id], Cancelled) else c
  }

  /** _handle_server_cancel */
  function ServerCancel(st: Settings, c: Client, id: MRID, env: CancelEnv): (c': Client)
    requires Wf(c)
    ensures Wf(c')
  {
    var h := H.CancelControl(st.handler, c.handler, id, env.t, env.env, env.env').0;
    CancelTracked(c.(handler := h), id)
  }

  function Track(c: Client, t: Tracked): (c': Client)
    requires Wf(c)
    ensures Wf(c') && |c'.objs| == |c.objs| + 1
  {
    c.(objs := c.objs + [t], tracked := c.tracked.Put(t.control.mRID, |c.objs|))
  }

  /** The clock and the environment of one server message. */
  datatype MessageEnv = MessageEnv(now: int, pickStart: int, pickDuration: int, pass: PassEnv, cancel: CancelEnv)

  /** A control seen for the first time: run it, schedule it, or note that it is over. */
  function Admit(st: Settings, c: Client, control: Control, program: Program, env: MessageEnv): (c': Client)
    requires Wf(c)
    ensures Wf(c')
  {
    var offset := RandomStart(st, control, env.pickStart);
    var adjustment := RandomDuration(st, control, env.pickDuration);
    var r := |c.objs|;
    var c0 := Track(c, Tracked(control, program, offset, adjustment, Pending));
    match control.interval
    case None => ExecutePass(st, c0, r, env.now, env.pass)
    case Some(iv) =>
      if iv.start + offset <= env.now < iv.start + iv.duration + adjustment
        then ExecutePass(st, c0, r, env.now, env.pass)
      else if env.now < iv.start + offset then SetStatus(c0, r, Scheduled)
      else SetStatus(c0, r, Cancelled)
  }

  const CANCELLED_BY_SERVER := 2

  /** _process_control */
  function ProcessControl(st: Settings, c: Client, control: Control, program: Program, env: MessageEnv): (c': Client)
    requires Wf(c)
    ensures Wf(c')
  {
    var id := control.mRID;
    if id in c.processed then
      if control.currentStatus == Some(CANCELLED_BY_SERVER) && id !in c.cancelled then
        var h := c.history.(cancels := c.history.cancels + [id]);
        ServerCancel(st, c.(cancelled := c.cancelled + {id}, history := h), id, env.cancel)
      else c
    else MarkProcessed(st, Admit(st, c, control, program, env), id)
  }

  // ----- scheduler, defaults, programs -----

  predicate Due(t: Tracked, now: int) {
    t.status == Scheduled && t.control.interval.Some? && now >= t.control.interval.value.start + t.offset
  }

  /** Somebody triggers the emergency stop, or not. */
  function Interrupt(c: Client, triggered: bool): (c': Client)
    requires Wf(c)
    ensures Wf(c') && c' == c.(handler := c'.handler)
  {
    c.(handler := H.Interrupt(c.handler, triggered))
  }

  /** The controls refs[i..] of the snapshot, in order. */
  function RunDue(st: Settings, c: Client, refs: seq<nat>, i: nat, now: int, envs: seq<PassEnv>): (c': Client)
    requires Wf(c) && i <= |refs| && forall j :: 0 <= j < |refs| ==> refs[j] < |c.objs|
    ensures Wf(c') && |c'.objs| == |c.objs|
    decreases |refs| - i
  {
    if i == |refs| then c
    else
      var env := At(envs, i, Quiet(now));
      var c0 := Interrupt(c, env.stopBefore);
      var c1 := if Due(c.objs[refs[i]], now) then ExecutePass(st, c0, refs[i], now, env) else c0;
      RunDue(st, c1, refs, i + 1, now, envs)
  }

  /** One round of _scheduler_loop */
  function SchedulerTick(st: Settings, c: Client, now: int, envs: seq<PassEnv>): (c': Client)
    requires Wf(c)
    ensures Wf(c')
  {
    RunDue(st, c, H.Refs(c.tracked, c.tracked.keys), 0, now, envs)
  }

  predicate AnyActive(c: Client, keys: seq<MRID>)
    requires Wf(c) && forall k :: k in keys ==> k in c.tracked.vals
  {
    keys != [] && (c.objs[c.tracked.vals[keys[0]]].status == Active || AnyActive(c, keys[1..]))
  }

  /** _check_default_control; best is the default of the program with the lowest primacy, if it has one. */
  function CheckDefault(st: Settings, c: Client, best: Option<Default>, env: Env): (c': Client)
    requires Wf(c)
    ensures Wf(c')
  {
    if AnyActive(c, c.tracked.keys) || best.None? || c.activeDefault == best then c
    else if best.value.base.None? || best.value.base.value.fixedW.None? then c
    else
      var (result, p) := SetPower(st.handler.power, best.value.base.value.fixedW.value.ToWatts(), env, c.handler.plant);
      c.(handler := c.handler.(plant := p), activeDefault := if result.Success() then best else c.activeDefault)
  }

  /** _untrack_program, for the controls keys of the program. */
  function CancelProgram(c: Client, program: MRID, keys: seq<MRID>): (c': Client)
    requires Wf(c) && forall k :: k in keys ==> k in c.tracked.vals
    ensures Wf(c') && |c'.objs| == |c.objs|
    decreases |keys|
  {
    if keys == [] then c
    else
      var c1 := if c.objs[c.tracked.vals[keys[0]]].program.mRID == program then CancelTracked(c, keys[0]) else c;
      CancelProgram(c1, program, keys[1..])
  }

  // ----- runs -----

  datatype Op =
    | Process(control: Control, program: Program, msg: MessageEnv)
    | Tick(now: int, envs: seq<PassEnv>)
    | ApplyDefault(best: Option<Default>, env: Env)
    | Untrack(programId: MRID)
    | TriggerStop
    | UpdateSoc(soc: Option<real>)

  function Step(st: Settings, c: Client, op: Op): (c': Client)
    requires Wf(c)
    ensures Wf(c')
  {
    match op
    case Process(control, program, msg) => ProcessControl(st, c, control, program, msg)
    case Tick(now, envs) => SchedulerTick(st, c, now, envs)
    case ApplyDefault(best, env) => CheckDefault(st, c, best, env)
    case Untrack(id) => CancelProgram(c, id, c.tracked.keys)
    case TriggerStop => c.(handler := c.handler.(plant := c.handler.plant.Disturb(true)))
    case UpdateSoc(soc) => c.(handler := c.handler.(plant := c.handler.plant.(soc := soc)))
  }

  function Run(st: Settings, c: Client, ops: seq<Op>): (c': Client)
    requires Wf(c)
    ensures Wf(c')
    decreases |ops|
  {
    if ops == [] then c else Run(st, Step(st, c, ops[0]), ops[1..])
  }

  const START := Client([], Dict([], map[]), Dict([], map[]), [], {}, None, H.START, History([], map[], map[], [],
    [], []))
}
