/** The power layer as the source has it: objects that share one emergency stop and one Modbus bus. Every method
    is proved to do what the functions of module Plant say. */
module PowerControl {
  import opened Common
  import opened Plant

  class EmergencyStop {
    var stopped: bool
    /** How often the stop was set and cleared, for the specification. */
    ghost var raised: nat
    ghost var resets: nat

    constructor ()
      ensures !stopped && raised == 0 && resets == 0
    {
      stopped, raised, resets := false, 0, 0;
    }

    method Trigger()
      modifies this
      ensures stopped && resets == old(resets) && raised == old(raised) + if old(stopped) then 0 else 1
    {
      raised := if stopped then raised else raised + 1;
      stopped := true;
    }

    /** The outside world may trigger the stop at a check point. */
    method Disturb(triggered: bool)
      modifies this
      ensures stopped == (old(stopped) || triggered) && resets == old(resets)
      ensures raised == old(raised) + if triggered && !old(stopped) then 1 else 0
    {
      if triggered {
        Trigger();
      }
    }

    method ResetByServer() returns (reset: bool)
      modifies this
      ensures !stopped && reset == old(stopped)
      ensures resets == old(resets) + (if reset then 1 else 0) && raised == old(raised)
    {
      if !stopped {
        return false;
      }
      stopped, resets := false, resets + 1;
      return true;
    }
  }

  /** The client at the bus. Its log exists only for the specification. */
  class ModbusBMSClient {
    const readMaxRetries: int
    ghost var log: seq<WriteRecord>

    constructor (readMaxRetries: int)
      ensures log == [] && this.readMaxRetries == readMaxRetries
    {
      this.readMaxRetries, log := readMaxRetries, [];
    }

    /** write_register: retry while the answer is an error. Somebody may trigger the stop while the call waits for the
        lock and between the tries; the call does not look at it. */
    method WriteRegister(address: int, value: int, call: Call, estop: EmergencyStop, ghost f: Frame,
          ghost soc: Option<real>)
      returns (reply: Reply)
      requires if f.Power? then address == POWER_SETPOINT && value == f.word else address == PCS_ON && value == 1
      modifies this, estop
      ensures (reply, State(estop.stopped, soc, log, estop.raised, estop.resets)) ==
        Plant.WriteRegister(readMaxRetries, f, call, old(State(estop.stopped, soc, log, estop.raised, estop.resets)))
    {
      if !call.connected {
        return Raise(NotConnected);
      }
      var attempt := 0;
      ghost var late := false;
      while attempt < readMaxRetries
        invariant 0 <= attempt
        invariant Tries(readMaxRetries, f, call, 0, false, old(State(estop.stopped, soc, log, estop.raised,
          estop.resets))) ==
          Tries(readMaxRetries, f, call, attempt, late, State(estop.stopped, soc, log, estop.raised, estop.resets))
      {
        var try := call.TryAt(attempt);
        estop.Disturb(try.triggered);
        late := late || try.triggered;
        log := log + [f.Record(estop.stopped, late, try.answer.Fine?)];
        match try.answer {
          case Fine => return Ack;
          case Broken(text) => return Raise(text);
          case Refused =>
        }
        attempt := attempt + 1;
      }
      return Nack;
    }
  }

  const PCS_ON := 7850
  const POWER_SETPOINT := 7852

  class ModbusPowerWriter {
    const port: ModbusBMSClient
    const estop: EmergencyStop
    const scale: real
    const maxRetries: int
    var currentPowerW: real

    constructor (port: ModbusBMSClient, estop: EmergencyStop, scale: real, maxRetries: int)
      ensures this.port == port && this.estop == estop
      ensures this.scale == scale && this.maxRetries == maxRetries && currentPowerW == 0.0
    {
      this.port, this.estop, this.scale, this.maxRetries, currentPowerW := port, estop, scale, maxRetries, 0.0;
    }

    function Cfg(): WriterConfig {
      WriterConfig(scale, maxRetries, port.readMaxRetries)
    }

    ghost function Now(soc: Option<real>): State
      reads estop, port
    {
      State(estop.stopped, soc, port.log, estop.raised, estop.resets)
    }

    /** write_power_to_modbus: retry until the device acknowledges, checking the emergency stop before each try. */
    method WritePower(watts: real, ghost soc: Option<real>, env: Env) returns (r: WriteResult)
      modifies this, estop, port
      ensures (r, Now(soc)) == Attempts(Cfg(), watts, soc, 0, env, old(Now(soc)))
      ensures currentPowerW == if r.success then watts else old(currentPowerW)
    {
      var word := Encode(scale, watts);
      var attempt := 0;
      while attempt < maxRetries
        invariant 0 <= attempt
        invariant currentPowerW == old(currentPowerW)
        invariant Attempts(Cfg(), watts, soc, 0, env, old(Now(soc))) ==
          Attempts(Cfg(), watts, soc, attempt, env, Now(soc))
      {
        estop.Disturb(env.Stops(attempt));
        if estop.stopped {
          return WriteResult(false, AbortedByStop);
        }
        var answer := port.WriteRegister(POWER_SETPOINT, word, env.CallAt(attempt), estop, Power(watts, word, soc),
          soc);
        if answer.Ack? {
          currentPowerW := watts;
          return WriteResult(true, Empty);
        }
        if attempt >= maxRetries - 1 {
          return WriteResult(false, answer.Message());
        }
        attempt := attempt + 1;
      }
      return WriteResult(false, RetriesExceeded);
    }

    /** disconnect: zero power, the PCS_OFF pulse is skipped. */
    method Disconnect(ghost soc: Option<real>, env: Env) returns (r: WriteResult)
      modifies this, estop, port
      ensures (r, Now(soc)) == Attempts(Cfg(), 0.0, soc, 0, env, old(Now(soc)))
      ensures currentPowerW == if r.success then 0.0 else old(currentPowerW)
    {
      r := WritePower(0.0, soc, env);
    }

    /** reconnect: one pulse on PCS_ON, by one call of the client. */
    method Reconnect(ghost soc: Option<real>, env: Env) returns (r: WriteResult)
      modifies estop, port
      ensures var (reply, s) := Plant.WriteRegister(port.readMaxRetries, Pulse, env.CallAt(0), old(Now(soc)));
        && Now(soc) == s
        && r == match reply
                case Ack => WriteResult(true, Empty)
                case Nack => WriteResult(false, PulseFailed)
                case Raise(m) => WriteResult(false, PulseError(m))
    {
      var answer := port.WriteRegister(PCS_ON, 1, env.CallAt(0), estop, Pulse, soc);
      match answer {
        case Ack => r := WriteResult(true, Empty);
        case Nack => r := WriteResult(false, PulseFailed);
        case Raise(m) => r := WriteResult(false, PulseError(m));
      }
    }
  }

  class SafePowerController {
    const production: bool
    const limits: PowerLimits
    const estop: EmergencyStop
    const port: ModbusBMSClient
    var currentSoc: Option<real>
    var pcsWriter: ModbusPowerWriter?

    constructor (production: bool, limits: PowerLimits, estop: EmergencyStop, port: ModbusBMSClient)
      ensures Valid()
      ensures this.production == production && this.limits == limits && this.estop == estop && this.port == port
      ensures currentSoc == None && pcsWriter == null
    {
      this.production, this.limits, this.estop, this.port := production, limits, estop, port;
      currentSoc, pcsWriter := None, null;
    }

    ghost predicate Valid()
      reads this
    {
      pcsWriter != null ==> pcsWriter.port == port && pcsWriter.estop == estop
    }

    /** Everything a power operation may change. */
    ghost function Devices(): set<object>
      reads this
    {
      {estop, port} + (if pcsWriter == null then {} else {pcsWriter})
    }

    ghost function Cfg(): Config
      reads this
    {
      Config(production, limits, if pcsWriter == null then None else Some(pcsWriter.Cfg()))
    }

    ghost function Now(): State
      reads this, estop, port
    {
      State(estop.stopped, currentSoc, port.log, estop.raised, estop.resets)
    }

    method SetPcsWriter(writer: ModbusPowerWriter)
      requires Valid() && writer.port == port && writer.estop == estop
      modifies this
      ensures Valid() && Now() == old(Now())
      ensures Cfg() == old(Cfg()).(writer := Some(writer.Cfg()))
    {
      pcsWriter := writer;
    }

    method UpdateSoc(soc: Option<real>)
      requires Valid()
      modifies this
      ensures Valid() && Cfg() == old(Cfg()) && Devices() == old(Devices())
      ensures Now() == old(Now()).(soc := soc)
    {
      currentSoc := soc;
    }

    method SetPowerSetpoint(watts: real, env: Env) returns (r: ControlResult)
      requires Valid()
      modifies Devices()
      ensures Valid() && Cfg() == old(Cfg()) && Devices() == old(Devices())
      ensures (r, Now()) == SetPower(Cfg(), watts, env, old(Now()))
    {
      estop.Disturb(env.Trigger(0));
      if estop.stopped {
        return STOPPED;
      }
      var errors := Validate(limits, currentSoc, watts);
      if errors != [] {
        return ControlResult(false, false, errors);
      }
      if !production {
        return ControlResult(false, true, []);
      }
      if pcsWriter == null {
        return ControlResult(false, false, []);
      }
      // Second look at the stop, just before the write.
      estop.Disturb(env.Trigger(1));
      if estop.stopped {
        return STOPPED;
      }
      var w := pcsWriter.WritePower(watts, currentSoc, env);
      r := ResultOf(w);
    }

    method DisconnectPcs(env: Env) returns (r: ControlResult)
      requires Valid()
      modifies Devices()
      ensures Valid() && Cfg() == old(Cfg()) && Devices() == old(Devices())
      ensures (r, Now()) == Plant.DisconnectPcs(Cfg(), env, old(Now()))
    {
      estop.Disturb(env.Trigger(0));
      if estop.stopped {
        return STOPPED;
      }
      if !production {
        return ControlResult(false, true, []);
      }
      if pcsWriter == null {
        return ControlResult(false, false, []);
      }
      estop.Disturb(env.Trigger(1));
      if estop.stopped {
        return STOPPED;
      }
      var w := pcsWriter.Disconnect(currentSoc, env);
      r := ResultOf(w);
    }

    method ReconnectPcs(env: Env) returns (r: ControlResult)
      requires Valid()
      modifies Devices()
      ensures Valid() && Cfg() == old(Cfg()) && Devices() == old(Devices())
      ensures (r, Now()) == Plant.ReconnectPcs(Cfg(), env, old(Now()))
    {
      if !production {
        return ControlResult(false, true, []);
      }
      if pcsWriter == null {
        return ControlResult(false, false, []);
      }
      var w := pcsWriter.Reconnect(currentSoc, env);
      r := ResultOf(w);
    }
  }
}
