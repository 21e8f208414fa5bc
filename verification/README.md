# Verification model of the BMS IEEE 2030.5 client

The client connects a battery management system to a utility server that speaks IEEE 2030.5. The server sends DER
controls; the client schedules them, arbitrates between them, and drives the power conversion system (PCS) over
Modbus. This project models that control stack and seven smaller parts of the program, and proves what they guarantee
over every run. `dafny verify dfyconfig.toml` checks all of it.

## How the model is built

The control stack has four layers, and each of them appears twice: as functions on values, in which the properties
are stated and proved, and as classes whose methods update fields step by step and are proved to do what the functions
say.

| layer | functions | proofs | class |
|---|---|---|---|
| emergency stop, Modbus client, writer, power controller | `Plant` | `PlantProofs` | `PowerControl` |
| DER control handler | `HandlerSpec` | `HandlerProofs`, `OutcomeProofs`, `CleanupProofs`, `HandlerTheorems` | `Handler` |
| DER client | `ClientSpec` | `ClientProofs`, `SchedulingProofs`, `ArbitrationProofs`, `SuccessionProofs`, `SweepProofs`, `MemoryProofs`, `ClientSafety`, `StopProofs`, `AdmissionProofs`, `ClientTheorems`, `ClientWitnesses` | `DerClient` |

The other parts are `XmlText`, `XmlSpec`, `XmlProofs`, `Xml` (schema-driven printer and parser), `CycleStorage`
(crash-safe file), `CycleCounter`, `Curves`, `Alarms` and `AlarmEvents`, `Registers`, `ModbusHealth` and `Supervisor`.

Conventions:

- Events and tracked controls are Python objects that several dictionaries and fields share. They are records in a
  sequence `objs`, named by their position, so that two holders of one position see the same updates. A Python `dict` is
  a `Dict`: a map plus the order of its keys.
- Watts, SOC and register values before conversion are exact reals. Integers are unbounded; the 16-bit mask on the
  power setpoint, the word limits of the register codecs and the field widths of the cycle record are written out.
- What the outside world decides is a parameter: the clock (`Times`, `Visit`, `now`), random draws (`pickStart`,
  `pickDuration`), what each call of the Modbus client meets on the bus (`Call`) and the moments at which somebody
  triggers the emergency stop. It can be triggered between two steps, before each execution of a scheduler round
  (`stopBefore`), between the client's own check and the handler (`stopMid`), before every check in the controller and
  the writer, and while the Modbus client waits for its lock or between two tries, where nobody checks it (`Env`). For a
  control that is executed as soon as it arrives, a trigger before its execution is one before the step.
- Every write to the PCS is recorded in a log, with the power asked for, the word, the SOC it was validated against,
  whether the stop was set when it was issued, whether it was triggered since the check of that attempt, and whether the
  device acknowledged it. The device register is the last acknowledged word. The counters `raised` and `resets` say how
  often the stop was set and cleared, and `History` records what the client did. The program keeps none of these.
- One call of `_process_control`, one scheduler round and one call on the handler is one step; a run is any sequence of
  steps.
- An mRID is a number and every resource has one. Message texts matter only by whether they are empty. Alarm registers
  are sets of bit numbers. A float in XML is its 64-bit pattern, with its texts given by two arbitrary functions.

## Where the code differs from what its comments or names suggest

The model follows the code; each point is a lemma, and most have a second one with a concrete run.

- A control that another one superseded never resumes. The recovery code runs only after an ACTIVE control ends, and no
  execution pass ends ACTIVE (`ClientProofs.PassOutcome`).
- A mode slot is not given back when its holder fails or is cancelled; a control that does not beat that holder is
  superseded all the same, and no other is (`ArbitrationProofs.EndedHolderStillBlocks`,
  `ClientWitnesses.FailedHolderBlocks`).
- The sweep of a disconnect or de-energize control takes only the first slot from a control that holds several: emptying
  it makes the control SUPERSEDED, so the next ones are passed over and go on blocking their modes
  (`SweepProofs.SurvivingSlots`, `ClientWitnesses.SecondSlotSurvives`).
- The clean-up of the handler says it keeps waiting events, but evicts by the order of receipt alone
  (`CleanupProofs.EvictedExactly`); an evicted control is never executed (`HandlerTheorems.WaitingEventIsEvicted`).
- Removing a program cancels its controls in the client's table alone: the handler goes on executing them and they keep
  their slots (`AdmissionProofs.UntrackExactly`).
- A setpoint can reach the device after the emergency stop, because the Modbus client retries without looking at it
  (`PlantProofs.LateWrite`, `PlantProofs.WriteAfterStop`).
- A stop that is set while the responses to a control are sent is lifted by that control if it connects or energizes;
  no server cancel is needed (`StopProofs.StopsAreLiftedExactly`, `StopProofs.EnergizeLiftsStop`).
- The default control of a program is written past the handler. `ClientSafety.DefaultMayOverwrite` says exactly when
  handler and device still agree afterwards; `ClientWitnesses.DefaultOverwritesSetpoint` is a run in which they do not.
- A write whose last attempt raises an exception without a text counts as a success (`PlantProofs.FalseSuccess`,
  `PlantProofs.TimeoutReadsAsSuccess`). So does every admissible request of a production controller that has no writer,
  because it could not be set up (src/bms_2030_5_client/client.py:949-957): power events become COMPLETED and nothing is ever written
  (`PlantProofs.NoWriterReadsAsSuccess`, `HandlerTheorems.UnwrittenPowerEvents`,
  `HandlerTheorems.SetpointCompletesUnwritten`).
- A setpoint whose scaled value does not fit 16 signed bits is written as a different power
  (`PlantProofs.SetpointRoundTrip`, `PlantProofs.LargeSetpointWraps`).
- The alarm check posts the position of a set bit as the event code, while the table of `LogEventCode` counts in pairs,
  even codes for a fault and odd ones for its end; and it asks the table for a member it does not define, so it raises
  at the first cleared bit. By the table exactly the runs that clear nothing and set no bit but bit 0 are reported
  faithfully (`AlarmEvents.FaithfulByTable`, `AlarmEvents.OverVoltageReadsAsCleared`); read as positions, exactly the
  runs that clear nothing (`AlarmEvents.FaithfulIffNeverClears`).
- A missing primary cycle file, and nothing else, hides an intact backup (`CycleStorage.MissingPrimaryHidesBackup`,
  `CycleStorage.IntactBackupIsHiddenExactly`).
- A background job that crashes within one clock tick of its launch is taken for finished (`Supervisor.MonitorVerdict`,
  `Supervisor.EarlyCrashIsMissed`).
- The two register writers differ on fractions: one rounds, one truncates (`Registers.WritersAgree`,
  `Registers.WritersDisagree`).

## Model

| member | source | states |
|---|---|---|
| `Plant.Validate` | src/bms_2030_5_client/power_control.py:131-175 | The error list is empty exactly for powers inside the charge and discharge limits that do not charge at or above the maximum SOC nor discharge at or below the minimum SOC; an unknown SOC restricts nothing. |
| `Plant.Encode` | src/bms_2030_5_client/modbus/power_writer.py:278-284 | The register word always fits 16 bits. |
| `PlantProofs.AttemptsWrite` | src/bms_2030_5_client/modbus/power_writer.py:200-268 | The retry loop issues one and the same encoded power, at most the client's tries for each remaining attempt, and nothing if the stop is set at the beginning; a write is issued under the stop exactly if the stop was triggered between the check of its attempt and the write; only the last write can be acknowledged. Success, a write under the stop and a failure without a text each hold exactly under a condition on the outside choices; the device holds the word after a success and is unchanged otherwise. |
| `PlantProofs.CallWrites` | src/bms_2030_5_client/modbus/modbus_client.py:278-324 | One call of the Modbus client: the tries, their answers and triggers decide the reply, the state of the stop and the register; begun without the stop, a try is issued under it if and only if somebody triggers it before that try. |
| `PlantProofs.SetPowerIsSafe` | src/bms_2030_5_client/power_control.py:562-686 | For every environment a power request only appends safe writes (production only, inside the limits for the SOC it was validated against, under the stop only as in `LateWrite`), never lifts the stop, writes nothing if it is set, and the device register ends as the encoded request if it was executed and is unchanged otherwise. |
| `PlantProofs.DisconnectIsSafe` | src/bms_2030_5_client/power_control.py:342-452 | The same for a disconnect, which writes zero power. |
| `PlantProofs.ReconnectIsSafe` | src/bms_2030_5_client/power_control.py:454-541 | In production with a writer a reconnect puts PCS_ON pulses of one client call on the bus and nothing else: at most the client's tries, at least one if it is connected and may try, only the last of them acknowledged; it is executed, and a success, exactly if the reply is an acknowledgement. It leaves P_SET and a set stop alone. Without a writer and in dry run nothing happens. |
| `PlantProofs.SafeStepKeepsLogSafe` | src/bms_2030_5_client/power_control.py:562-686 | A log of safe writes stays one across any such operation. |
| `PlantProofs.DryRunIsSilent` | src/bms_2030_5_client/power_control.py:562-686 | In dry run none of the three operations writes anything; a power request is simulated exactly if the stop and the validation let it through, a disconnect exactly if the stop does, a reconnect always. |
| `PlantProofs.RefusalNamesReasons` | src/bms_2030_5_client/power_control.py:131-175 | A refused power request lists the stop alone, or each of the four limits that it breaks and no other. |
| `PlantProofs.FalseSuccess` | src/bms_2030_5_client/power_control.py:640-701 | Exactly when a production request reports success though the device acknowledged nothing, in terms of the state and the outside choices before the call. Without a writer: the stop is not set at the first check and the power is admissible. With one: the request passes the gates, no attempt before the last is acknowledged or disturbed, and the last raises an exception with an empty text. |
| `PlantProofs.FalseDisconnect` | src/bms_2030_5_client/power_control.py:342-541 | The same for a disconnect; a reconnect reports success without having reached the device exactly if there is no writer. |
| `PlantProofs.NoWriterReadsAsSuccess` | src/bms_2030_5_client/power_control.py:687-701 | Such an input without a writer: a request for 4000 W and a disconnect both succeed and nothing changes. |
| `PlantProofs.TimeoutReadsAsSuccess` | src/bms_2030_5_client/power_control.py:640-673 | Such an input: one attempt, one exception without a text. |
| `PlantProofs.LateWrite` | src/bms_2030_5_client/modbus/modbus_client.py:295-324 | Exactly when a request puts a setpoint on the bus although the stop is set: it passes the gates and somebody triggers the stop while an attempt that is made waits for one of its tries. |
| `PlantProofs.WriteAfterStop` | src/bms_2030_5_client/modbus/modbus_client.py:295-324 | Such an input: the first try is refused, the stop is triggered, the second try is acknowledged by the device. |
| `PlantProofs.RequestIsSafe` | src/bms_2030_5_client/power_control.py:562-686 | For power requests and disconnects alike: executed exactly if the gates are passed and an attempt that is made is acknowledged; a success exactly if executed, or reported as in `FalseSuccess`, or let through in dry run; besides all of the above. |
| `DerModels.WattsByPowersOfTen` | src/bms_2030_5_client/models/ieee2030_5_models.py:866-877 | The watts of a setpoint: the value itself without a multiplier, ten times as much for one more of it, in either direction, and additive in the value. |
| `PlantProofs.SetpointRoundTrip` | src/bms_2030_5_client/modbus/power_writer.py:215-219 | The written word read as a signed 16-bit number is the truncated scaled power if and only if that number fits 16 signed bits. |
| `PlantProofs.DefaultScaleIsFaithful` | src/bms_2030_5_client/modbus/power_writer.py:278-284 | At the default scale, up to 3276.7 kW in either direction, the device is asked for the truncated tenth-kilowatt count, less than 100 W nearer to zero than the request and never beyond it. |
| `PlantProofs.LargeSetpointWraps` | src/bms_2030_5_client/modbus/power_writer.py:215-219 | 3276.8 kW of discharge is written as the largest charge. |
| `PowerControl.EmergencyStop.ResetByServer` | src/bms_2030_5_client/power_control.py:234-263 | Clears the stop and tells whether it was set. |
| `PowerControl.ModbusBMSClient.WriteRegister` | src/bms_2030_5_client/modbus/modbus_client.py:278-324 | The loop over the tries has the reply and the effect on log and stop of `Plant.WriteRegister`, about which `CallWrites` is proved. |
| `PowerControl.ModbusPowerWriter.WritePower` | src/bms_2030_5_client/modbus/power_writer.py:179-276 | The loop gives the result, log and stop of `Plant.Attempts`, and remembers the power as current only on success. |
| `PowerControl.ModbusPowerWriter.Disconnect` | src/bms_2030_5_client/modbus/power_writer.py:339-365 | Writes zero power like any other setpoint; no PCS_OFF pulse. |
| `PowerControl.ModbusPowerWriter.Reconnect` | src/bms_2030_5_client/modbus/power_writer.py:367-425 | One pulse on PCS_ON by one call of the Modbus client; the result and its text follow the reply. |
| `PowerControl.SafePowerController.SetPowerSetpoint` | src/bms_2030_5_client/power_control.py:562-701 | Checks the stop, validates, checks the mode and the writer, checks the stop again and writes: result and new state are those of `Plant.SetPower`, about which `SetPowerIsSafe` is proved. |
| `PowerControl.SafePowerController.DisconnectPcs` | src/bms_2030_5_client/power_control.py:342-452 | Result and new state are those of `Plant.DisconnectPcs`: gated by the stop, not validated. |
| `PowerControl.SafePowerController.ReconnectPcs` | src/bms_2030_5_client/power_control.py:454-541 | Result and new state are those of `Plant.ReconnectPcs`: not gated by the stop. |
| `PowerControl.SafePowerController.UpdateSoc` | src/bms_2030_5_client/power_control.py:553-560 | Changes the SOC that later requests are validated against and nothing else. |
| `HandlerProofs.ExecuteOutcome` | src/bms_2030_5_client/dera/handler.py:317-522 | Executing an event ends it COMPLETED or FAILED; it either becomes the active event and supersedes the previous one unless that carries its mRID, or it changes no other event, no power state and not the active event; only connect and energize may lift the stop. |
| `HandlerProofs.ExecuteAgrees` | src/bms_2030_5_client/dera/handler.py:317-522 | A completed command leaves its own word in the device register. |
| `OutcomeProofs.ExecuteExactly` | src/bms_2030_5_client/dera/handler.py:317-522 | By the fields of the control and the answers of the bus: a connect lifts the stop and pulses PCS_ON, and in production with a writer is COMPLETED if and only if the log gained an acknowledged pulse; an energize lifts the stop and is COMPLETED; every other control fails under the stop; a disconnect or de-energize requests zero power, a setpoint its watts, leaving that word in the register exactly if the request is executed, and is COMPLETED exactly if it reports success. Exactly the commands that are not blocked become the active event. |
| `OutcomeProofs.HandledExactly` | src/bms_2030_5_client/dera/handler.py:240-282 | A control whose start is ahead of the clock is stored as SCHEDULED and nothing else changes; any other is executed as a new event and stored before the clean-up. |
| `OutcomeProofs.RecoveryUndoes` | src/bms_2030_5_client/dera/handler.py:541-572 | After a disconnect or de-energize event the stop is lifted and then PCS_ON pulsed by one call, with no other record; after any other event the register holds 0 exactly if the request for zero power passes its gates and is acknowledged, and is unchanged otherwise. |
| `OutcomeProofs.CancelExactly` | src/bms_2030_5_client/dera/handler.py:524-580 | An unknown, CANCELLED, SUPERSEDED or FAILED event is refused and nothing changes. Any other is CANCELLED; if it is not the active one nothing else changes; if it is, no event is active, what it did is undone as in `RecoveryUndoes`, and the default control, if there is one, is executed as a new event. |
| `OutcomeProofs.RoundRunsExactly` | src/bms_2030_5_client/dera/handler.py:660-671 | A round executes a stored SCHEDULED event if and only if its start has come and its end, unless the duration is 0, has not; every other SCHEDULED event stays as it is. |
| `HandlerProofs.EqualityIsIdentity` | src/bms_2030_5_client/dera/handler.py:534-577 | Though events are compared field by field, the comparison in cancel holds only for the active event itself. |
| `HandlerProofs.StepKeepsOwned` | src/bms_2030_5_client/dera/handler.py:193-282 | Every operation of the handler keeps: events stored under their own mRID, the active event has acted, and at most one stored event that acts on the PCS is COMPLETED, the active one. |
| `HandlerProofs.OwnedAlways` | src/bms_2030_5_client/dera/handler.py:193-626 | Single owner over every run: re-sent mRIDs, scheduled execution, cancels with fallback and clean-up included. |
| `HandlerProofs.StepAgrees` | src/bms_2030_5_client/dera/handler.py:240-580 | Every operation keeps the agreement of handler and device. |
| `HandlerProofs.DeviceAgreesAlways` | src/bms_2030_5_client/dera/handler.py:317-580 | Over every production run with a writer, as long as no exception has an empty text: whenever the active event is COMPLETED, the last acknowledged P_SET word is its encoded setpoint, or 0 if it disconnected or de-energized. |
| `HandlerProofs.StepMoves` | src/bms_2030_5_client/dera/handler.py:331-577 | Every operation writes only safe records for the current SOC; taken under the stop, it writes no P_SET and leaves the stop set unless it executes a connect or energize control, or cancels the active disconnect or de-energize event. |
| `HandlerProofs.StepKeepsLogSafe` | src/bms_2030_5_client/dera/handler.py:317-580 | Every operation keeps the log safe. |
| `HandlerProofs.EnvelopeAlways` | src/bms_2030_5_client/dera/handler.py:317-580 | Power envelope over every run: each P_SET ever written lies in the limits, respects the SOC at validation, is never written in dry run, and is issued under the stop if and only if the stop was triggered between the check of its own attempt and the write. |
| `HandlerProofs.StopHolds` | src/bms_2030_5_client/dera/handler.py:331-399 | A stop that is set before a run survives it if no step may lift it, and such a run writes no P_SET. |
| `HandlerTheorems.EveryRun` | src/bms_2030_5_client/dera/handler.py:123-282 | Ownership, envelope, a store without duplicates, and agreement with the device, for every run from the empty handler. |
| `HandlerTheorems.StoreIsBounded` | src/bms_2030_5_client/dera/handler.py:600-626 | After any run, handling a control at once leaves at most the configured number of events, none of them stale. |
| `HandlerTheorems.ForgottenForever` | src/bms_2030_5_client/dera/handler.py:660-671 | An event that is neither stored nor active is never touched again, in any run. |
| `HandlerTheorems.WaitingEventIsEvicted` | src/bms_2030_5_client/dera/handler.py:618-626 | A run from the empty handler in which a SCHEDULED event is evicted and, whatever follows, never executed. |
| `HandlerTheorems.UnwrittenPowerEvents` | src/bms_2030_5_client/dera/handler.py:475-522 | In production without a writer, a setpoint event that the stop does not block beforehand writes nothing and ends COMPLETED if and only if the stop is not triggered before its check and its power is admissible. |
| `HandlerTheorems.SetpointCompletesUnwritten` | src/bms_2030_5_client/dera/handler.py:475-522 | A step from the empty handler after which a setpoint of 4000 W is COMPLETED and active, with nothing written. |
| `CleanupProofs.StaleIsDropped` | src/bms_2030_5_client/dera/handler.py:600-616 | Exactly the events leave that have ended and whose execution, on record and not at time 0, lies further back than the retention time. |
| `CleanupProofs.ExcessGoesOldestFirst` | src/bms_2030_5_client/dera/handler.py:618-626 | The limit leaves exactly the allowed number of events; every removed event was received no later than every kept one. |
| `CleanupProofs.EvictedExactly` | src/bms_2030_5_client/dera/handler.py:618-626 | An event is evicted if and only if its place in the order of receipt, ties in the order of storing, is below the number of events in excess; its status does not matter. |
| `CleanupProofs.CleanupResult` | src/bms_2030_5_client/dera/handler.py:600-626 | Both halves together: bounded, nothing stale kept, and what was removed was stale or oldest. |
| `CleanupProofs.SortKeepsOrder` | src/bms_2030_5_client/dera/handler.py:621-624 | The sort by received time is in order and stable. |
| `CleanupProofs.PlaceIsIndex` | src/bms_2030_5_client/dera/handler.py:621-624 | The key at index i of the sorted keys has exactly i keys that go before it. |
| `CleanupProofs.SortPermutes` | src/bms_2030_5_client/dera/handler.py:621-624 | The sort by received time loses and invents no key. |
| `Handler.DERControlHandler.SupersedeAndSetActive` | src/bms_2030_5_client/dera/handler.py:193-205 | Marks the active event SUPERSEDED if it is ACTIVE or COMPLETED and carries another mRID, then makes the new event active. |
| `Handler.DERControlHandler.ApplyDefaultControl` | src/bms_2030_5_client/dera/handler.py:224-238 | Executes and stores the default control, if one is set. |
| `Handler.DERControlHandler.HandleControl` | src/bms_2030_5_client/dera/handler.py:240-282 | Schedules a control that starts later, otherwise executes it, stores it and cleans up; the new state is that of `HandlerSpec.HandleControl`. |
| `Handler.DERControlHandler.ExecuteControl` | src/bms_2030_5_client/dera/handler.py:317-522 | The branches in the order of the code: connect, energize, blocked by the stop, disconnect, de-energize, setpoint, nothing; the new state is that of `HandlerSpec.Execute`, about which `ExecuteOutcome` is proved. |
| `Handler.DERControlHandler.CancelControl` | src/bms_2030_5_client/dera/handler.py:524-580 | Unknown and ended events are refused; cancelling the active event recovers the PCS and applies the default control. |
| `Handler.DERControlHandler.Recover` | src/bms_2030_5_client/dera/handler.py:541-572 | Lifts the stop and reconnects after a disconnect or de-energize, else writes zero power. |
| `Handler.DERControlHandler.CleanupOldEvents` | src/bms_2030_5_client/dera/handler.py:600-626 | The loops delete what `HandlerSpec.Cleanup` deletes. |
| `Handler.DERControlHandler.ProcessScheduledEvents` | src/bms_2030_5_client/dera/handler.py:660-671 | The loop over a snapshot of the store executes every scheduled event whose interval is active. |
| `ClientProofs.PassOutcome` | src/bms_2030_5_client/dera/der_client.py:764-885 | An execution pass changes other controls only to SUPERSEDED and never ends ACTIVE or PENDING; if the handler's clock is not behind the start of the control it ends COMPLETED, FAILED or SUPERSEDED. |
| `ClientProofs.HandledOutcome` | src/bms_2030_5_client/dera/handler.py:264-282 | The event the handler returns has run, COMPLETED or FAILED, unless its start is still ahead. |
| `SchedulingProofs.PassKeepsTimely` | src/bms_2030_5_client/dera/der_client.py:764-885 | One pass of a control that has not run yet and whose start has come keeps the scheduling invariant. |
| `SchedulingProofs.StepKeepsTimely` | src/bms_2030_5_client/dera/der_client.py:608-732 | No step executes a known control that was not SCHEDULED before it, and none puts a control back on the schedule. |
| `SchedulingProofs.TickRunsEveryDueControl` | src/bms_2030_5_client/dera/der_client.py:1293-1315 | A scheduler round leaves no due control on the schedule. |
| `SchedulingProofs.TimelyAlways` | src/bms_2030_5_client/dera/der_client.py:690-728 | Over every run whose clock does not run backwards: no execution before interval start plus random offset, none twice, none after the control ran, was swept or was cancelled, and no control is ACTIVE between steps. |
| `AdmissionProofs.NewControlOutcome` | src/bms_2030_5_client/dera/der_client.py:636-728 | A control whose mRID is not remembered is tracked with its random draws. Before start plus offset it is SCHEDULED and at or after start plus duration plus adjustment CANCELLED, both without a pass and with slots, handler and every other control unchanged; in every other case exactly one pass, at that time, is on record. |
| `AdmissionProofs.ScheduledControlRuns` | src/bms_2030_5_client/dera/der_client.py:1293-1315 | Over every run whose clock does not run backwards: a SCHEDULED control is not executed before its start plus offset, and is executed by the first scheduler round at or after it, unless its mRID was processed anew meanwhile, it was cancelled, or a sweep superseded it. |
| `AdmissionProofs.HoldersRanAlways` | src/bms_2030_5_client/dera/der_client.py:887-903 | Over the same runs every holder of a slot has been executed. |
| `AdmissionProofs.ServerCancelExactly` | src/bms_2030_5_client/dera/der_client.py:618-634 | A message with a remembered mRID: with currentStatus 2, the first time, the handler cancels the event and the tracked control is CANCELLED, no other; otherwise nothing changes. |
| `AdmissionProofs.UntrackExactly` | src/bms_2030_5_client/dera/der_client.py:491-498 | Removing a program makes exactly the tracked controls of that program CANCELLED and changes nothing else, neither slots nor handler. |
| `AdmissionProofs.OffScheduleNeverRuns` | src/bms_2030_5_client/dera/der_client.py:1293-1315 | A control that is not on the schedule, cancelled or not, is in no later pass of any run. |
| `AdmissionProofs.CancelledBeforeStartNeverRuns` | src/bms_2030_5_client/dera/der_client.py:1050-1063 | A control that is SCHEDULED when the server cancels it is CANCELLED, and in no pass of any run. |
| `AdmissionProofs.ExecutedExactly` | src/bms_2030_5_client/dera/der_client.py:764-885 | A pass under the stop makes its control FAILED, one against a stronger holder SUPERSEDED, and neither reaches slots or handler. Every other pass hands the control to the handler, gives it the status of the handler's event, or FAILED if the callback raises, gives it the slot of each of its modes and makes the holders it displaced SUPERSEDED. |
| `AdmissionProofs.DefaultExactly` | src/bms_2030_5_client/dera/der_client.py:985-1033 | A default control does nothing while a tracked control is ACTIVE, if it has no setpoint or if it is the one in force; otherwise its watts are requested, and it comes into force exactly if the request reports success. |
| `ArbitrationProofs.SlotOnlyImproves` | src/bms_2030_5_client/dera/der_client.py:887-903 | Whatever modes a control has, a pass leaves a slot's holder in place or replaces it with a control that beats it; only a disconnect or de-energize control empties a slot. |
| `ArbitrationProofs.ModesAreNamed` | src/bms_2030_5_client/dera/der_client.py:1069-1085 | A control goes for a mode exactly if it gives the field of that mode, whatever its value. |
| `ArbitrationProofs.EndedHolderStillBlocks` | src/bms_2030_5_client/dera/der_client.py:1069-1127 | A control that the stop does not block is superseded by its own pass if and only if one of its modes is held by a control of lower primacy, or of the same primacy and a creation time that is not earlier, whatever became of that holder; the pass then reaches neither slots nor handler. |
| `ClientWitnesses.FailedHolderBlocks` | src/bms_2030_5_client/dera/der_client.py:1069-1127 | A run in which the first control FAILS and the second is SUPERSEDED by it. |
| `ArbitrationProofs.OrderDoesNotMatter` | src/bms_2030_5_client/dera/der_client.py:1069-1127 | Of two lists of contenders, each over its own table of controls, with the same primacies and creation times in whatever order, the best ones have the same primacy and creation time. |
| `ArbitrationProofs.SameContendersSameHolder` | src/bms_2030_5_client/dera/der_client.py:1069-1127 | Two clients whose slots hold their best contenders and on whose mode the same primacies and creation times contend, in whatever order the controls arrived: the slot is taken in both or in neither, by holders of the same primacy and creation time. |
| `ArbitrationProofs.PassOnSlot` | src/bms_2030_5_client/dera/der_client.py:764-903 | A pass of a single-mode control does one of four things to a slot: nothing, lose, win, or sweep it. |
| `ArbitrationProofs.PassKeepsCrowned` | src/bms_2030_5_client/dera/der_client.py:764-903 | Such a pass keeps: the slot holds the best contender since it was last emptied, the others are SUPERSEDED or later CANCELLED. |
| `ArbitrationProofs.StepKeepsOrderly` | src/bms_2030_5_client/dera/der_client.py:764-903 | Every client step with single-mode controls keeps that for every mode. |
| `ArbitrationProofs.OrderlyAlways` | src/bms_2030_5_client/dera/der_client.py:1069-1127 | Over every run of single-mode controls, emergency stops and sweeps included: of all contenders since a slot was last emptied, its holder has the lowest primacy, among those the latest creation time, and among those the first arrival; every other contender is SUPERSEDED unless cancelled afterwards. |
| `SuccessionProofs.PassOnHolders` | src/bms_2030_5_client/dera/der_client.py:764-903 | Whatever modes a control has, its pass leaves a slot and its list of holders as they are, adds a holder that beats the one before, or empties the slot; only a sweep empties a slot, and exactly the disconnect and de-energize controls that the handler completed sweep. |
| `SuccessionProofs.SuccessionAlways` | src/bms_2030_5_client/dera/der_client.py:1069-1127 | Over every run, multi-mode controls included: each slot's holders since it was last emptied each beat all before them, the last one holds it, and as long as no control sweeps no slot is given up and a holder is replaced only by one that beats it. |
| `SweepProofs.CompletedCommandIsActive` | src/bms_2030_5_client/dera/handler.py:337-472 | A command the handler completes at once is its active event. |
| `SweepProofs.CompletedPass` | src/bms_2030_5_client/dera/der_client.py:840-885 | A pass that ends COMPLETED is the handled state, followed by a sweep exactly for disconnect and de-energize controls. |
| `SweepProofs.DeEnergizeSweep` | src/bms_2030_5_client/dera/der_client.py:915-983 | After a completed disconnect or de-energize control no slot holds another ACTIVE or COMPLETED control, no other control is SCHEDULED, no default is active, and the handler's active event is the control itself, so the handler cancel of the sweep never fires. |
| `SweepProofs.SweepSlotsExactly` | src/bms_2030_5_client/dera/der_client.py:924-949 | The loop over the slots empties exactly those whose holder is another control, ACTIVE or COMPLETED, and holds none of the slots visited earlier. |
| `SweepProofs.SurvivingSlots` | src/bms_2030_5_client/dera/der_client.py:915-983 | Exactly the same slots are empty after the whole sweep, and every other one keeps its holder. |
| `ClientWitnesses.SecondSlotSurvives` | src/bms_2030_5_client/dera/der_client.py:935-949 | A run in which a disconnect sweeps a COMPLETED control of two modes: it is SUPERSEDED and loses its first slot, and still holds the second. |
| `MemoryProofs.PushKeepsTail` | src/bms_2030_5_client/dera/der_client.py:208-214 | Appending to the full deque keeps the last N of everything appended, without duplicates. |
| `MemoryProofs.StepRemembers` | src/bms_2030_5_client/dera/der_client.py:618-634 | Every step keeps the deque equal to the last N processed mRIDs and the cancelled set equal to the cancels acted on. |
| `MemoryProofs.RemembersAlways` | src/bms_2030_5_client/dera/der_client.py:618-732 | Over every run an mRID is processed again only after at least N others, and each mRID's server cancel is acted on at most once. |
| `ClientSafety.PassMovesHandler` | src/bms_2030_5_client/dera/der_client.py:764-885 | A pass reaches the handler through its operations only: nothing, one control, or one control and one cancel; nothing if the stop is set. |
| `ClientSafety.StepProtects` | src/bms_2030_5_client/dera/der_client.py:608-1063 | Every client step keeps single owner and safe log, and, without default controls, the agreement with the device. |
| `ClientSafety.ProtectedAlways` | src/bms_2030_5_client/dera/der_client.py:608-1063 | The same over every run driven by the client. |
| `ClientSafety.DefaultMayOverwrite` | src/bms_2030_5_client/dera/der_client.py:1010-1033 | After a default control that is due, handler and device agree if and only if the request fails a gate or no attempt that is made is acknowledged, the active event makes no claim on the register, or it asked for the very same word. |
| `ClientWitnesses.DefaultOverwritesSetpoint` | src/bms_2030_5_client/dera/der_client.py:1010-1033 | A run from the empty client in which a default control replaces the word of a COMPLETED setpoint. |
| `ClientSafety.StopHoldsInClient` | src/bms_2030_5_client/dera/der_client.py:773-780 | A step that begins under the stop leaves it set and writes no P_SET, unless it acts on a server cancel that the handler answers by lifting the stop. |
| `ClientTheorems.StopHoldsAlways` | src/bms_2030_5_client/dera/der_client.py:773-780 | The same over runs, for a stop that is set before the run. |
| `StopProofs.CarryOutHandler` | src/bms_2030_5_client/dera/der_client.py:764-885 | A pass does to the handler exactly what handling its control does; the handler cancel of a sweep never fires. |
| `StopProofs.PassLiftsExactly` | src/bms_2030_5_client/dera/der_client.py:773-885 | A pass lifts the stop, once, if and only if it is let through and wins its arbitration, the stop is triggered after the client's check, and the control is not put off and connects or energizes. |
| `StopProofs.CancelControlLifts` | src/bms_2030_5_client/dera/handler.py:541-577 | How often a cancel lifts the stop: once to undo the active disconnect or de-energize event, and once more if the default applied afterwards recovers and meets a stop. |
| `StopProofs.StepLiftsExactly` | src/bms_2030_5_client/dera/der_client.py:608-732 | Every client step lifts the stop exactly as often as its passes or its server cancel do, and every other stop set in the meantime is still set. |
| `StopProofs.StopsAreLiftedExactly` | src/bms_2030_5_client/dera/handler.py:331-399 | Over every run from the empty client every stop, set at any of the moments listed above, is still set or was lifted; some stop was lifted if and only if some step acted on a lifting server cancel or ran such a pass. |
| `StopProofs.EnergizeLiftsStop` | src/bms_2030_5_client/dera/handler.py:376-399 | A run of one step in which a stop is set and lifted without any server cancel. |
| `ClientTheorems.EveryRun` | src/bms_2030_5_client/dera/der_client.py:179-250 | From the empty client, every run has all of the above: owner, envelope, memory, and, under their conditions, scheduling, arbitration and agreement. |
| `DerClient.DERClient.ProcessControl` | src/bms_2030_5_client/dera/der_client.py:608-732 | A known mRID is looked at for a server cancel only; a new one is admitted and remembered, as `ClientSpec.ProcessControl` says. |
| `DerClient.DERClient.Admit` | src/bms_2030_5_client/dera/der_client.py:636-728 | Draws the random offsets, tracks the control and executes it, schedules it or marks it cancelled by the clock. |
| `DerClient.DERClient.CalculateRandomizedStart` | src/bms_2030_5_client/dera/der_client.py:734-745 | The offset is between 0 and randomizeStart, and 0 if randomization is off or the field is missing. |
| `DerClient.DERClient.CalculateRandomizedDuration` | src/bms_2030_5_client/dera/der_client.py:747-762 | The adjustment is at most the amount of randomizeDuration away from 0 in either direction, and 0 if randomization is off or the field is missing. |
| `ClientSpec.RandomDuration` | src/bms_2030_5_client/dera/der_client.py:747-762 | The same bounds, and every whole number within them can be drawn. |
| `DerClient.DERClient.ExecuteControl` | src/bms_2030_5_client/dera/der_client.py:764-885 | Stop gate, arbitration, handling, slots and sweep, as `ClientSpec.ExecutePass` says. |
| `DerClient.DERClient.ResolveConflict` | src/bms_2030_5_client/dera/der_client.py:1069-1127 | The loop over the modes supersedes the holders it beats until it loses; verdict and state are those of `ClientSpec.Resolve`. |
| `DerClient.DERClient.TrackActiveControl` | src/bms_2030_5_client/dera/der_client.py:887-903 | The control takes the slot of each of its modes. |
| `DerClient.DERClient.CancelAllActiveControls` | src/bms_2030_5_client/dera/der_client.py:915-983 | The loops over slots and tracked controls, the default and the handler cancel, as `ClientSpec.Sweep` says. |
| `DerClient.DERClient.HandleServerCancel` | src/bms_2030_5_client/dera/der_client.py:1050-1063 | Cancels the event in the handler and marks the tracked control. |
| `DerClient.DERClient.CancelTracked` | src/bms_2030_5_client/dera/der_client.py:1035-1048 | Marks a tracked control CANCELLED. |
| `DerClient.DERClient.SchedulerTick` | src/bms_2030_5_client/dera/der_client.py:1293-1315 | The loop over a snapshot executes every due control. |
| `DerClient.DERClient.CheckDefaultControl` | src/bms_2030_5_client/dera/der_client.py:985-1033 | Writes the best program's default setpoint if no control is ACTIVE and it is not already applied. |
| `DerClient.DERClient.UntrackProgram` | src/bms_2030_5_client/dera/der_client.py:476-500 | Cancels every tracked control of the program. |
| `XmlText.IntRoundTrip` | src/bms_2030_5_client/ieee2030_5/xml_utils.py:93-94 | Parsing the text of a whole number gives the number. |
| `XmlText.BoolRoundTrip` | src/bms_2030_5_client/ieee2030_5/xml_utils.py:97-98 | Parsing the text of a boolean gives the boolean. |
| `XmlText.BoolsAccepted` | src/bms_2030_5_client/ieee2030_5/xml_utils.py:98 | Other texts that are read as true, and some that are not. |
| `XmlText.TextsOfPython` | src/bms_2030_5_client/ieee2030_5/xml_utils.py:223-245 | Numbers are printed in decimal with a minus sign, booleans as True and False. |
| `XmlProofs.PrintedForm` | src/bms_2030_5_client/ieee2030_5/xml_utils.py:214-245 | The attributes of a printed record are exactly its simple values in fields named href, pollRate and all; every other simple value is the text of a child under its field's name. |
| `XmlProofs.AttrPhase` | src/bms_2030_5_client/ieee2030_5/xml_utils.py:77-100 | Parsing the printed attributes never raises and stores exactly the attribute fields. |
| `XmlProofs.ItemsPhase` | src/bms_2030_5_client/ieee2030_5/xml_utils.py:127-141 | The items of a list field are appended in order. |
| `XmlProofs.FieldStep` | src/bms_2030_5_client/ieee2030_5/xml_utils.py:101-159 | Parsing the children printed for one field stores what comes back of its value and touches no other field. |
| `XmlProofs.ParsePrint` | src/bms_2030_5_client/ieee2030_5/xml_utils.py:53-162 | For every record that fits its schema, floats and lists of links included, parsing the printed tree never raises and gives the record up to what the printer drops. |
| `XmlProofs.Unchanged` | src/bms_2030_5_client/ieee2030_5/xml_utils.py:217-266 | Nothing is dropped exactly from records whose None fields default to None, whose texts outside attributes are non-empty or the default, whose links have no empty href and whose non-empty lists are named after their items' dataclass. |
| `XmlProofs.RoundTrip` | src/bms_2030_5_client/ieee2030_5/xml_utils.py:53-266 | Printing and parsing gives back the record if and only if it is one of those, nested records and list order included. |
| `Xml.DataclassToElement` | src/bms_2030_5_client/ieee2030_5/xml_utils.py:217-266 | The loop over the fields builds the element `XmlSpec.Print` describes. |
| `Xml.FieldToElement` | src/bms_2030_5_client/ieee2030_5/xml_utils.py:223-266 | One field becomes an attribute, a text child, a link child, a nested element or a run of items. |
| `Xml.ParseElementToDataclass` | src/bms_2030_5_client/ieee2030_5/xml_utils.py:53-162 | The two loops fill the keyword arguments as `XmlSpec.Parse` folds them. |
| `Xml.ParseChildInto` | src/bms_2030_5_client/ieee2030_5/xml_utils.py:101-159 | One child updates the keyword arguments by the hint of its tag. |
| `CycleStorage.UnpackPack` | src/bms_2030_5_client/cycle_storage.py:112-136 | A number that fits its little-endian field is read back. |
| `CycleStorage.FileLayout` | src/bms_2030_5_client/cycle_storage.py:112-136 | The file byte by byte: CYCL, version 1, cycle count, charge, discharge, last SOC, seconds, and the checksum of all that, each number little-endian. |
| `CycleStorage.DecodeEncode` | src/bms_2030_5_client/cycle_storage.py:99-253 | Decoding the 46-byte record gives the saved data up to whole-second timestamps and NaN for None, for every checksum function. |
| `CycleStorage.StoredExactly` | src/bms_2030_5_client/cycle_storage.py:112-119 | What is stored: the time truncated to whole seconds, and no SOC exactly if there was none or its float64 is a NaN. |
| `CycleStorage.DamageIsNoticed` | src/bms_2030_5_client/cycle_storage.py:185-246 | A damaged file that is read all the same has size, magic number and version of the saved one; damage to the checksum alone is always noticed, and damage to the data unless it has the same checksum. |
| `CycleStorage.CrashLeavesOldOrNew` | src/bms_2030_5_client/cycle_storage.py:99-167 | Wherever a save stops, load gives the old record before the rename and the new one after it. |
| `CycleStorage.FirstSaveIsAllOrNothing` | src/bms_2030_5_client/cycle_storage.py:99-253 | Without a primary file, a save stopped anywhere is loaded in full if it came to its rename, and otherwise nothing is loaded. |
| `CycleStorage.LoadGivesLastCommitted` | src/bms_2030_5_client/cycle_storage.py:99-253 | Over any history of saves, each cut short anywhere, load gives the last committed record. |
| `CycleStorage.BackupSurvivesCorruption` | src/bms_2030_5_client/cycle_storage.py:169-310 | After a completed save, and any number of later saves that fail before their rename, a detectably corrupt primary still yields that record. |
| `CycleStorage.MissingPrimaryHidesBackup` | src/bms_2030_5_client/cycle_storage.py:169-185 | Without a primary file nothing is loaded although the backup holds the record. |
| `CycleStorage.IntactBackupIsHiddenExactly` | src/bms_2030_5_client/cycle_storage.py:169-185 | With an intact backup, nothing is loaded if and only if there is no primary file. |
| `CycleStorage.Storage.SaveRecord` | src/bms_2030_5_client/cycle_storage.py:99-167 | Temp file, rename, backup, in this order, stopped anywhere; true exactly when the rename happened. |
| `CycleStorage.Storage.LoadRecord` | src/bms_2030_5_client/cycle_storage.py:169-253 | Checks size, magic, version, checksum and timestamp and falls back to the backup. |
| `CycleStorage.Storage.LoadBackupRecord` | src/bms_2030_5_client/cycle_storage.py:255-310 | The backup's record if it passes the same checks. |
| `CycleCounter.RiseAndFallAreConserved` | src/bms_2030_5_client/client.py:1702-1724 | From any state, total rise and total fall equal ten percent for each new cycle plus the change of the accumulators. |
| `CycleCounter.AccumulatorsTrackSoc` | src/bms_2030_5_client/client.py:1702-1724 | The accumulators stay non-negative and their difference changes by the net SOC change. |
| `CycleCounter.CountIsConserved` | src/bms_2030_5_client/client.py:1702-1724 | From the start: rise = 10 cycles + charge, fall = 10 cycles + discharge, their difference is last minus first SOC, and cycles never exceed floor(min(rise, fall) / 10). |
| `CycleCounter.FlatSamplesCatchUp` | src/bms_2030_5_client/client.py:1712-1722 | n flat samples count min(n, waiting) cycles. |
| `CycleCounter.CountCatchesUp` | src/bms_2030_5_client/client.py:1702-1724 | After enough flat samples the count is exactly that floor. |
| `CycleCounter.Counter.Update` | src/bms_2030_5_client/client.py:1702-1724 | The fields change as one sample of the model says. |
| `Curves.SortedIsUnique` | src/bms_2030_5_client/models/der_curves.py:227-240 | A strictly sorted list of points is determined by its points. |
| `Curves.SortIsStable` | src/bms_2030_5_client/models/der_curves.py:240 | Points with the same x keep their order. |
| `Curves.OrderOfAddingDoesNotMatter` | src/bms_2030_5_client/models/der_curves.py:227-240 | With distinct x values the curve is strictly sorted and the same for every insertion order. |
| `Curves.InterpolateUsesAnyBracket` | src/bms_2030_5_client/models/der_curves.py:274-294 | Inside the curve the answer is that of every segment that contains x. |
| `Curves.InterpolateIsLinear` | src/bms_2030_5_client/models/der_curves.py:274-294 | Between two points the result is the height of the straight line through them, truncated toward zero. |
| `Curves.InterpolateIsFlatOutside` | src/bms_2030_5_client/models/der_curves.py:266-272 | Before the first and after the last point the curve keeps their y. |
| `Curves.InterpolateAnswers` | src/bms_2030_5_client/models/der_curves.py:254-294 | A curve with complete points always answers. |
| `Curves.InterpolateIsExactAtKnots` | src/bms_2030_5_client/models/der_curves.py:254-294 | The curve passes through each of its points. |
| `Curves.InterpolateStaysBetween` | src/bms_2030_5_client/models/der_curves.py:284-292 | Between two points the result stays between their y values, truncation included. |
| `Curves.InterpolateIsMonotone` | src/bms_2030_5_client/models/der_curves.py:254-294 | If the points rise the curve never falls, and if they fall it never rises. |
| `Curves.DERCurve.AddPoint` | src/bms_2030_5_client/models/der_curves.py:227-240 | The points stay sorted and gain exactly the new one. |
| `Curves.DERCurve.SortInPlace` | src/bms_2030_5_client/models/der_curves.py:240 | The list becomes its stable sort. |
| `Curves.DERCurve.InterpolateY` | src/bms_2030_5_client/models/der_curves.py:254-294 | The search loop gives the piecewise-linear value of the sorted points. |
| `Alarms.ToAlarmDistributes` | src/bms_2030_5_client/ders/adapter.py:30-124 | Mapping error bits to alarm bits distributes over OR in all three registers. |
| `Alarms.AlarmsByCause` | src/bms_2030_5_client/ders/adapter.py:30-124 | Which bits of the three registers raise which alarm: an alarm is raised if and only if one of its causes is set. |
| `Alarms.ReservedBitsStayClear` | src/bms_2030_5_client/ders/adapter.py:30-124 | No alarm bit from 11 up is ever set. |
| `Alarms.AggregateMapsOr` | src/bms_2030_5_client/ders/adapter.py:153-175 | Aggregating the racks equals mapping the OR of their raw bits. |
| `Alarms.RackOrderDoesNotMatter` | src/bms_2030_5_client/ders/adapter.py:153-175 | The order and repetition of racks do not change the alarm. |
| `Alarms.ModbusErrorToAlarmStatus` | src/bms_2030_5_client/ders/adapter.py:30-124 | The OR sequence computes the table. |
| `Alarms.AggregateAlarmStatus` | src/bms_2030_5_client/ders/adapter.py:153-175 | The loop over the racks gives the alarm of the OR of their raw bits. |
| `AlarmEvents.ScanOutcome` | src/bms_2030_5_client/client.py:1240-1290 | The bit loop reports the newly set bits before the first cleared one under consecutive ids and completes exactly when no bit is cleared. |
| `AlarmEvents.ReportedBits` | src/bms_2030_5_client/client.py:1240-1290 | Only newly set bits are reported, each once and in order, and all of them if none is cleared. |
| `AlarmEvents.CheckReportsNewBits` | src/bms_2030_5_client/client.py:1217-1290 | Reading codes as bit positions: if no bit is cleared, replaying all events gives the current low 11 bits and the ids have no gap. |
| `AlarmEvents.CheckLosesClearedBits` | src/bms_2030_5_client/client.py:1255-1265 | By the same reading, if a bit is cleared, replaying does not give the current bits, an id is lost and the previous status stays. |
| `AlarmEvents.StuckStatusRepeatsEvents` | src/bms_2030_5_client/client.py:1217-1290 | After that the same status is reported again at every call. |
| `AlarmEvents.FaithfulIffNeverClears` | src/bms_2030_5_client/client.py:1217-1290 | Reading codes as bit positions, a run is reported faithfully if and only if it never clears one of the 11 bits. |
| `AlarmEvents.OtherBitsAreLost` | src/bms_2030_5_client/protocols/ieee2030_5_protocol.py:577-612 | Reading codes by the table of LogEventCode, a status with a standard bit other than 0 is misreported. |
| `AlarmEvents.FaithfulByTable` | src/bms_2030_5_client/protocols/ieee2030_5_protocol.py:577-612 | By the table, a run is reported faithfully if and only if it never clears a standard bit and never sets one other than bit 0. |
| `AlarmEvents.OverVoltageReadsAsCleared` | src/bms_2030_5_client/client.py:1254-1259 | Such an input: the first status sets bit 1, and the event reads as the end of an over-current fault. |
| `AlarmEvents.EndOfFaultIsLost` | src/bms_2030_5_client/client.py:1260-1265 | A fault that ends is misreported by either reading. |
| `AlarmEvents.AlarmMonitor.CheckAndPost` | src/bms_2030_5_client/client.py:1217-1290 | The loop changes the fields as the model says and completes exactly when no bit is cleared. |
| `Registers.SplitRoundTrip` | src/bms_2030_5_client/models/bms_models.py:127-134 | Every number in range splits into words of 16 bits and is read back. |
| `Registers.RangeFillsWords` | src/bms_2030_5_client/modbus/modbus_writer.py:436-483 | Each type takes exactly the numbers that its words can hold. |
| `Registers.WriterRoundTrip` | src/bms_2030_5_client/modbus/modbus_writer.py:436-483 | Decoding the written words gives the clamped rounded value; every word fits its register. |
| `Registers.WriterIsNearest` | src/bms_2030_5_client/modbus/modbus_writer.py:436-483 | What is read back is the whole number nearest to the value, of two the even one, or the end of the range; the words are the number in two's complement, high word first. |
| `Registers.WriterKeepsOrder` | src/bms_2030_5_client/modbus/modbus_writer.py:436-483 | A larger value is never read back as a smaller one. |
| `Registers.ConvertedRoundTrip` | src/bms_2030_5_client/modbus/register_writer.py:155-207 | The truncating writer: decoding gives the clamped, truncated, scaled value; every word fits its register. |
| `Registers.ConvertedIsTruncated` | src/bms_2030_5_client/modbus/register_writer.py:155-207 | What is read back is the value times the scale plus the offset times the scale, its fraction dropped, or the end of the range. |
| `Registers.ConvertKeepsOrder` | src/bms_2030_5_client/modbus/register_writer.py:155-207 | With a scale of at least 0 order is kept, with a scale of at most 0 it is turned round. |
| `Registers.WritersAgree` | src/bms_2030_5_client/modbus/register_writer.py:155-207 | At scale 1 and offset 0 the two writers agree exactly when rounding and truncating give the same clamped number, so on all whole numbers. |
| `Registers.WritersDisagree` | src/bms_2030_5_client/modbus/register_writer.py:155-207 | On 1.6 the two writers differ. |
| `ModbusHealth.HealthFollowsHistory` | src/bms_2030_5_client/modbus/modbus_client.py:513-611 | The failure count is min(10, number of client errors after the last successful read); UNSTABLE holds exactly for 2 to 9, DEGRADED exactly at 10, DISCONNECTED only before any read; the reconnect delay is min(2^min(f, 9), 60). |
| `ModbusHealth.DelayDoubles` | src/bms_2030_5_client/modbus/modbus_client.py:596-604 | The reconnect delay is one second before any failure and doubles with each, up to 60 seconds. |
| `ModbusHealth.WaitsFollowHistory` | src/bms_2030_5_client/modbus/modbus_client.py:583-611 | Outside DEGRADED only a client error waits before the reconnect, for the delay of the failures since the last successful read, and the tenth in a row does not. |
| `ModbusHealth.IntervalByFours` | src/bms_2030_5_client/modbus/modbus_client.py:517-527 | The first three retries wait the base interval; four retries later the wait is half as long again, up to 1800 seconds, and within four it stays the same. |
| `ModbusHealth.RetriesAreCounted` | src/bms_2030_5_client/modbus/modbus_client.py:517-518 | In every degraded period of every run the retry counter is the number of retries of that period. |
| `ModbusHealth.RetriesSlowDown` | src/bms_2030_5_client/modbus/modbus_client.py:513-545 | In every degraded period of every run the k-th retry waits min(base * 1.5^(k/4), 1800), so the waits never shrink until the period ends and never exceed 1800 seconds. |
| `ModbusHealth.BMSDataCollector.CollectOnce` | src/bms_2030_5_client/modbus/modbus_client.py:513-611 | One loop iteration changes the health as `ModbusHealth.Iterate` says and sleeps as `ModbusHealth.WaitIn` says. |
| `Supervisor.RestartsAreBounded` | src/bms_2030_5_client/task_supervisor.py:198-253 | Over every run no job uses more restarts than allowed; the restarts used are exactly the relaunches plus the restarts that stop_all interrupted, so relaunches are at most the sum of the limits. |
| `Supervisor.EndedTasksStayDown` | src/bms_2030_5_client/task_supervisor.py:206-231 | A STOPPED or FAILED job is never started again until start_all is called. |
| `Supervisor.StopIsFinal` | src/bms_2030_5_client/task_supervisor.py:132-156 | After stop_all nothing is alive, and until start_all nothing but the clock changes. |
| `Supervisor.MonitorVerdict` | src/bms_2030_5_client/task_supervisor.py:213-253 | An ended job is restarted exactly if it crashed later than its launch in clock time and has restarts left, FAILED exactly if it has none, and STOPPED exactly if it ended normally or crashed in the clock tick of its launch. |
| `Supervisor.RoundJudgesEveryTask` | src/bms_2030_5_client/task_supervisor.py:206-253 | A round that nobody stops gives every ended job its verdict, wherever it stands and whatever happens during the backoffs of the others: STOPPED if its last failure is not after its last start, FAILED without restarts left, and otherwise exactly one more restart. |
| `Supervisor.ClockIsRecorded` | src/bms_2030_5_client/task_supervisor.py:176-196 | A launch and a crash put the clock on record, a normal end does not. |
| `Supervisor.EarlyCrashIsMissed` | src/bms_2030_5_client/task_supervisor.py:218-223 | A run in which a job crashes in the tick of its launch and is never restarted. |
| `Supervisor.StepKeepsSound` | src/bms_2030_5_client/task_supervisor.py:176-253 | Every step keeps the restart bounds, the clock order of start and failure, and the restart account. |
| `Supervisor.TaskSupervisor.MonitorRound` | src/bms_2030_5_client/task_supervisor.py:206-253 | The loop over the jobs, ended early when everything is stopped, is one round of the model. |
| `Supervisor.TaskSupervisor.VisitTask` | src/bms_2030_5_client/task_supervisor.py:209-253 | One job is skipped, stopped, failed or, after its backoff, launched again. |
| `Supervisor.TaskSupervisor.StartAll` | src/bms_2030_5_client/task_supervisor.py:117-130 | Launches every job, once. |
| `Supervisor.TaskSupervisor.StopAllTasks` | src/bms_2030_5_client/task_supervisor.py:132-156 | Halts every job. |
| `Supervisor.TaskSupervisor.Meanwhile` | src/bms_2030_5_client/task_supervisor.py:184-196 | A crash records its time and ends the job; a normal end does not. |

## Left out

- Interleavings inside one client step: `_resolve_conflict` and `_track_active_control` are separated by awaits and nothing locks them; each step is atomic in the model, apart from the emergency stop. No stop is triggered between the recovery write of a cancel and the default control that is applied after it.
- Responses to the server: their content, retries and `pending_response`; a later status may overwrite a response that was never delivered, so delivery is not claimed.
- Exceptions that the handler or the response path may raise inside `_execute_control`; only a failing callback is modelled.
- Polling of function set assignments, programs and control lists, and the choice of the program with the lowest primacy, which is a parameter of the default-control step.
- The recovery of superseded controls: its code cannot be reached from an execution pass, as `ClientProofs.PassOutcome` shows.
- Random fallback event ids for resources without an mRID.
- `handle_control_list` of the handler, which calls `handle_control` in a loop, and its XML reader for controls.
- Authorization of production mode, the ramp-rate validator, the writer's own `emergency_stop`, `set_power` and `de_energize` entry points, and the read-back of the written register, which does not influence the result.
- HandlerProofs.DeviceAgreesAlways: assumes that exceptions of the bus carry a text, because otherwise a failed write counts as a success; `PlantProofs.FalseSuccess` gives the exact condition.
- ArbitrationProofs.OrderlyAlways: single-mode controls only, because a multi-mode control supersedes a holder on one mode and may then lose on another; `SuccessionProofs.SuccessionAlways` covers multi-mode controls.
- PlantProofs.CallWrites: a connection torn down while a call waits for the lock counts as not connected, and a write that the device applied although its answer was lost counts as not acknowledged.
- CleanupProofs.CleanupResult: takes a store without duplicate keys; `HandlerTheorems.EveryRun` shows that every run has one.
- XmlProofs.RoundTrip: no bytes, enumeration values, renamed or metadata fields; a list of links stands in a record that has no field named Link; that the text of a float is read back as the float is a condition on the record, not proved of Python; XML escaping and namespaces are outside, and int() accepts only an optional minus sign and digits.
- CycleStorage.DecodeEncode: the checksum is an arbitrary function and the IEEE 754 words are opaque, so which corruptions CRC-32 detects is not claimed.
- Curves.DERCurve.InterpolateY: exact rationals instead of floating point; the axis helpers and curve factories are one-line arithmetic.
- Registers.WriterRoundTrip: FLOAT32 registers are not modelled.
- ModbusHealth.HealthFollowsHistory: covers one start to the next stop; callbacks and the snapshot itself are outside.
- Supervisor.RestartsAreBounded: the set of jobs is fixed before the first start; the length of a backoff and re-registration while running are not modelled.
- Flow reservations, DRLC, files, metering payloads, the web interface, history recorders, logging, configuration, the lock file and all transport (HTTP, TLS, pymodbus, SQLite).
