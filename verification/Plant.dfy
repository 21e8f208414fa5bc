/** What the power layer does, as functions: the emergency stop, the writer's retry loop and the safety
    checks of the controller over a log of register writes (power_control.py, modbus/power_writer.py), down to the
    tries that one call of the Modbus client makes on the bus (modbus/modbus_client.py). */
module Plant {
  import opened Common

  // ----- the environment of one operation -----

  /** The texts of results. Only one thing about them matters to the code: whether a text is empty. */
  datatype Text =
    | Empty
    | StopActive
    | ChargeOverLimit
    | ChargeAtMaxSoc
    | DischargeOverLimit
    | DischargeAtMinSoc
    | NotConnected
    | WriteFailed
    | AbortedByStop
    | RetriesExceeded
    | PulseFailed
    | PulseError(cause: Text)
    | ExceptionText(code: int)

  /** The answer to one try on the bus: written, an error answer or a Modbus exception, which the client retries, or
      another exception, which it lets through. */
  datatype Answer = Fine | Refused | Broken(text: Text)

  /** One try on the bus, and whether someone triggers the emergency stop while the client waits to make it: for the
      lock, or between two tries. */
  datatype Try = Try(triggered: bool, answer: Answer)

  /** What one call of the client's write_register meets. Unlisted tries are refused. */
  datatype Call = Call(connected: bool, tries: seq<Try>) {
    function TryAt(j: nat): Try {
      At(tries, j, Try(false, Refused))
    }

    /** No exception has an empty text. */
    ghost predicate Informative() {
      forall j :: 0 <= j < |tries| ==> tries[j].answer != Broken(Empty)
    }
  }

  /** What a call of write_register returns or raises. */
  datatype Reply = Ack | Nack | Raise(text: Text) {
    function Message(): Text
      requires !Ack?
    {
      match this
      case Nack => WriteFailed
      case Raise(m) => m
    }
  }

  /** Outside choices during one controller operation: whether someone triggers the emergency stop just before
      each check of it, and what each call of the Modbus client meets. Unlisted points: no trigger. */
  datatype Env = Env(triggers: seq<bool>, calls: seq<Call>) {
    predicate Trigger(point: nat) {
      At(triggers, point, false)
    }

    /** The check point just before an attempt of the writer. */
    predicate Stops(attempt: nat) {
      Trigger(2 + attempt)
    }

    function CallAt(attempt: nat): Call {
      At(calls, attempt, Call(true, []))
    }

    /** No write raises an exception with an empty message. */
    ghost predicate Informative() {
      forall i :: 0 <= i < |calls| ==> calls[i].Informative()
    }
  }

  // ----- state -----

  /** One write on the bus. Beside the register word are recorded the power, the SOC it was validated against, the
      state of the emergency stop when the write was issued, and whether someone triggered the stop after the check
      of this attempt and before the write. */
  datatype WriteRecord =
    | PSet(watts: real, word: int, soc: Option<real>, stopped: bool, late: bool, acked: bool)
    | PcsOn(acked: bool)

  /** raised and resets are history: how often the emergency stop was set when it was clear, and how often it was
      cleared when it was set. */
  datatype State = State(stopped: bool, soc: Option<real>, log: seq<WriteRecord>, raised: nat, resets: nat) {
    function Disturb(triggered: bool): State {
      this.(stopped := stopped || triggered, raised := raised + if triggered && !stopped then 1 else 0)
    }

    /** reset_by_server */
    function Lift(): State {
      this.(stopped := false, resets := resets + if stopped then 1 else 0)
    }
  }

  // ----- configuration -----

  datatype RawLimits = Limits(maxChargeW: int, maxDischargeW: int, minSoc: real, maxSoc: real)

  /** The constructor of the source refuses every other combination. */
  ghost predicate LimitsOk(l: RawLimits) {
    && 0 <= l.maxChargeW
    && 0 <= l.maxDischargeW
    && 0.0 <= l.minSoc < l.maxSoc <= 100.0
  }

  type PowerLimits = l: RawLimits | LimitsOk(l) witness Limits(0, 0, 0.0, 100.0)

  /** maxRetries bounds the attempts of the writer, busRetries the tries of the Modbus client in each attempt. */
  datatype WriterConfig = WriterConfig(scale: real, maxRetries: int, busRetries: int)

  datatype Config = Config(production: bool, limits: PowerLimits, writer: Option<WriterConfig>)

  // ----- validation -----

  /** A power the plant may be asked for at a given state of charge (negative = charge). */
  ghost predicate Admissible(l: PowerLimits, soc: Option<real>, watts: real) {
    && -(l.maxChargeW as real) <= watts <= l.maxDischargeW as real
    && (watts < 0.0 && soc.Some? ==> soc.value < l.maxSoc)
    && (watts > 0.0 && soc.Some? ==> soc.value > l.minSoc)
  }

  function Validate(l: PowerLimits, soc: Option<real>, watts: real): (errors: seq<Text>)
    ensures errors == [] <==> Admissible(l, soc, watts)
  {
    (if watts < 0.0 && -watts > l.maxChargeW as real then [ChargeOverLimit] else [])
    + (if watts < 0.0 && soc.Some? && soc.value >= l.maxSoc then [ChargeAtMaxSoc] else [])
    + (if watts > 0.0 && watts > l.maxDischargeW as real then [DischargeOverLimit] else [])
    + (if watts > 0.0 && soc.Some? && soc.value <= l.minSoc then [DischargeAtMinSoc] else [])
  }

  // ----- scaling -----

  /** The word written to P_SET: the scaled power, truncated, masked to 16 bits. */
  function Encode(scale: real, watts: real): (word: int)
    ensures 0 <= word < 0x1_0000
  {
    Trunc(watts * scale) % 0x1_0000
  }

  // ----- the Modbus client -----

  /** A power setpoint or the start pulse of the PCS, on its way to the bus. */
  datatype Frame = Power(watts: real, word: int, soc: Option<real>) | Pulse {
    function Record(stopped: bool, late: bool, acked: bool): WriteRecord {
      match this
      case Power(watts, word, soc) => PSet(watts, word, soc, stopped, late, acked)
      case Pulse => PcsOn(acked)
    }
  }

  /** Tries j, j+1, ... of write_register. Nothing looks at the emergency stop any more. */
  function Tries(n: int, f: Frame, call: Call, j: nat, late: bool, s: State): (Reply, State)
    decreases n - j
  {
    if j >= n then (Nack, s)
    else
      var t := call.TryAt(j);
      var s1 := s.Disturb(t.triggered);
      var late1 := late || t.triggered;
      var s2 := s1.(log := s1.log + [f.Record(s1.stopped, late1, t.answer.Fine?)]);
      match t.answer
      case Fine => (Ack, s2)
      case Broken(text) => (Raise(text), s2)
      case Refused => Tries(n, f, call, j + 1, late1, s2)
  }

  /** write_register */
  function WriteRegister(n: int, f: Frame, call: Call, s: State): (Reply, State) {
    if !call.connected then (Raise(NotConnected), s) else Tries(n, f, call, 0, false, s)
  }

  // ----- writer -----

  datatype WriteResult = WriteResult(success: bool, message: Text)

  /** Attempts k, k+1, ... of the retry loop. Check point 2+k lies just before attempt k. */
  function Attempts(w: WriterConfig, watts: real, soc: Option<real>, k: nat, env: Env, s: State): (WriteResult, State)
    decreases w.maxRetries - k
  {
    if k >= w.maxRetries then (WriteResult(false, RetriesExceeded), s)
    else
      var s1 := s.Disturb(env.Stops(k));
      if s1.stopped then (WriteResult(false, AbortedByStop), s1)
      else
        var (reply, s2) := WriteRegister(w.busRetries, Power(watts, Encode(w.scale, watts), soc), env.CallAt(k), s1);
        if reply.Ack? then (WriteResult(true, Empty), s2)
        else if k < w.maxRetries - 1 then Attempts(w, watts, soc, k + 1, env, s2)
        else (WriteResult(false, reply.Message()), s2)
  }

  // ----- controller -----

  datatype ControlResult = ControlResult(executed: bool, simulated: bool, errors: seq<Text>) {
    predicate Success() {
      errors == []
    }
  }

  const STOPPED := ControlResult(false, false, [StopActive])

  /** The errors of a result list a failed write's message only if that message is not empty. */
  function ResultOf(r: WriteResult): ControlResult {
    ControlResult(r.success, false, if r.message != Empty && !r.success then [r.message] else [])
  }

  /** set_power_setpoint */
  function SetPower(c: Config, watts: real, env: Env, s: State): (ControlResult, State) {
    var s0 := s.Disturb(env.Trigger(0));
    var errors := Validate(c.limits, s0.soc, watts);
    if s0.stopped then (STOPPED, s0)
    else if errors != [] then (ControlResult(false, false, errors), s0)
    else if !c.production then (ControlResult(false, true, []), s0)
    else if c.writer.None? then (ControlResult(false, false, []), s0)
    else
      var s1 := s0.Disturb(env.Trigger(1));
      if s1.stopped then (STOPPED, s1)
      else
        var (r, s2) := Attempts(c.writer.value, watts, s0.soc, 0, env, s1);
        (ResultOf(r), s2)
  }

  /** disconnect_pcs: no validation, power zero. */
  function DisconnectPcs(c: Config, env: Env, s: State): (ControlResult, State) {
    var s0 := s.Disturb(env.Trigger(0));
    if s0.stopped then (STOPPED, s0)
    else if !c.production then (ControlResult(false, true, []), s0)
    else if c.writer.None? then (ControlResult(false, false, []), s0)
    else
      var s1 := s0.Disturb(env.Trigger(1));
      if s1.stopped then (STOPPED, s1)
      else
        var (r, s2) := Attempts(c.writer.value, 0.0, s0.soc, 0, env, s1);
        (ResultOf(r), s2)
  }

  /** reconnect_pcs: one pulse on PCS_ON, not gated by the emergency stop. */
  function ReconnectPcs(c: Config, env: Env, s: State): (ControlResult, State) {
    if !c.production then (ControlResult(false, true, []), s)
    else if c.writer.None? then (ControlResult(false, false, []), s)
    else
      var (reply, s1) := WriteRegister(c.writer.value.busRetries, Pulse, env.CallAt(0), s);
      var r := match reply
        case Ack => WriteResult(true, Empty)
        case Nack => WriteResult(false, PulseFailed)
        case Raise(m) => WriteResult(false, PulseError(m));
      (ResultOf(r), s1)
  }
}
