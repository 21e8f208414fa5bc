/** What holds over every run of the client from its empty start. */
module ClientTheorems {
  import opened Common
  import opened DerModels
  import opened Plant
  import H = HandlerSpec
  import HP = HandlerProofs
  import opened ClientSpec
  import opened ClientProofs
  import opened SchedulingProofs
  import opened ArbitrationProofs
  import opened MemoryProofs
  import opened ClientSafety
  import opened SuccessionProofs
  import opened AdmissionProofs

  // ----- the emergency stop -----

  /** A stop that is set before a run survives it, unless some step acts on a server cancel that the handler answers by
      lifting it, and until then no P_SET is written. */
  lemma {:induction false} StopHoldsAlways(st: Settings, c: Client, ops: seq<Op>)
    requires Protected(st, c, false) && c.handler.plant.stopped
    requires forall i :: 0 <= i < |ops| ==> !MayLift(Run(st, c, ops[..i]), ops[i])
    ensures Held(c.handler.plant, Run(st, c, ops).handler.plant)
    decreases |ops|
  {
    hide Step, MayLift, Protected;
    if ops != [] {
      var d := Step(st, c, ops[0]);
      assert ops[..0] == [] && Run(st, c, ops[..0]) == c;
      StopHoldsInClient(st, c, ops[0]);
      StepProtects(st, c, ops[0], false);
      var rest := ops[1..];
      forall i | 0 <= i < |rest| ensures !MayLift(Run(st, d, rest[..i]), rest[i]) {
        assert ops[..i + 1] == [ops[0]] + rest[..i];
        assert ops[..i + 1][1..] == rest[..i];
      }
      StopHoldsAlways(st, d, rest);
      HeldComposes(c.handler.plant, d.handler.plant, Run(st, d, rest).handler.plant);
    }
  }

  lemma HeldComposes(s: State, t: State, u: State)
    requires Held(s, t) && Held(t, u)
    ensures Held(s, u)
  {
    forall i | |s.log| <= i < |u.log| ensures !u.log[i].PSet? {
      if i < |t.log| {
        assert u.log[i] == t.log[i];
      }
    }
  }

  // ----- from the start -----

  /** After every run: the handler has one owner and every P_SET write was safe, the bounded memory of mRIDs agrees with
      the unbounded one, and each slot's holders beat those before them. If the clock does not run backwards, every
      execution was on time, none was repeated and every holder of a slot was executed; if moreover every control goes
      for one mode, every slot holds its best contender. In production with a writer whose exceptions carry texts, and
      without default controls, handler and device agree. */
  lemma EveryRun(st: Settings, ops: seq<Op>)
    ensures var c := Run(st, START, ops);
      && Protected(st, c, false)
      && Remembers(st, c)
      && Successive(c)
      && ((forall i :: 0 <= i < |ops| ==> ClockOk(ops[i])) ==> Timely(c) && HoldersRan(c))
      && ((forall i :: 0 <= i < |ops| ==> ClockOk(ops[i]) && SingleModeOp(ops[i])) ==> Orderly(c))
      && (HP.HasPcs(st.handler) && (forall i :: 0 <= i < |ops| ==> InformativeOp(ops[i]) && !ops[i].ApplyDefault?) ==>
            Protected(st, c, true))
  {
    hide Run;
    ProtectedAlways(st, START, ops, false);
    RemembersAlways(st, START, ops);
    SuccessionAlways(st, START, ops);
    if forall i :: 0 <= i < |ops| ==> ClockOk(ops[i]) {
      HoldersRanAlways(st, START, ops);
    }
    if forall i :: 0 <= i < |ops| ==> ClockOk(ops[i]) && SingleModeOp(ops[i]) {
      OrderlyAlways(st, START, ops);
    }
    if HP.HasPcs(st.handler) && forall i :: 0 <= i < |ops| ==> InformativeOp(ops[i]) && !ops[i].ApplyDefault? {
      ProtectedAlways(st, START, ops, true);
    }
  }
}
