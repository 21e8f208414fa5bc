/** What the power layer guarantees about every register write. */
module PlantProofs {
  import opened Common
  import opened Plant
  import opened Registers

  // ----- the safe envelope -----

  /** A P_SET write that may appear on the bus: production only, inside the limits for the SOC it was validated
      against, carrying the encoded power, and issued under an emergency stop exactly if somebody triggered the stop
      between the check of this very attempt and the write. */
  ghost predicate SafeRecord(c: Config, r: WriteRecord) {
    r.PSet? ==>
      && c.production
      && c.writer.Some?
      && (r.stopped <==> r.late)
      && Admissible(c.limits, r.soc, r.watts)
      && r.word == Encode(c.writer.value.scale, r.watts)
  }

  ghost predicate SafeLog(c: Config, log: seq<WriteRecord>) {
    forall i :: 0 <= i < |log| ==> SafeRecord(c, log[i])
  }

  /** The stop may be set between s and t, and is not cleared. */
  ghost predicate StopRises(s: State, t: State) {
    && (s.stopped ==> t.stopped)
    && t.raised == s.raised + (if t.stopped && !s.stopped then 1 else 0)
    && t.resets == s.resets
  }

  /** The power layer may extend the log by safe records and may be stopped, and changes nothing else; a stop
      is never lifted, and if it holds at the beginning no P_SET is written. */
  ghost predicate SafeStep(c: Config, s: State, t: State) {
    && s.soc == t.soc
    && StopRises(s, t)
    && s.log <= t.log
    && (forall i :: |s.log| <= i < |t.log| ==>
          SafeRecord(c, t.log[i]) && (t.log[i].PSet? ==> !s.stopped && t.log[i].soc == s.soc))
  }

  lemma SafeStepKeepsLogSafe(c: Config, s: State, t: State)
    requires SafeStep(c, s, t) && SafeLog(c, s.log)
    ensures SafeLog(c, t.log)
  {
    forall i | 0 <= i < |t.log| ensures SafeRecord(c, t.log[i]) {
      if i < |s.log| {
        assert t.log[i] == s.log[i];
      }
    }
  }

  // ----- the device register -----

  /** The P_SET word the device last acknowledged. */
  function LastAcked(log: seq<WriteRecord>): Option<int> {
    if log == [] then None
    else
      var r := log[|log| - 1];
      if r.PSet? && r.acked then Some(r.word) else LastAcked(log[..|log| - 1])
  }

  lemma LastAckedAppend(log: seq<WriteRecord>, r: WriteRecord)
    ensures LastAcked(log + [r]) == if r.PSet? && r.acked then Some(r.word) else LastAcked(log)
  {
    assert (log + [r])[..|log|] == log;
  }

  // ----- one call of the Modbus client -----

  /** Somebody triggers the stop while the call waits for one of the tries lo..hi. */
  ghost predicate TriggeredIn(call: Call, lo: nat, hi: nat) {
    exists i :: lo <= i <= hi && call.TryAt(i).triggered
  }

  /** The answer of tries j, j+1, ...: that of the first one that is not refused. */
  function ReplyFrom(n: int, call: Call, j: nat): Reply
    decreases n - j
  {
    if j >= n then Nack
    else
      match call.TryAt(j).answer
      case Fine => Ack
      case Broken(text) => Raise(text)
      case Refused => ReplyFrom(n, call, j + 1)
  }

  /** One of the tries j, j+1, ... that are made is preceded by a trigger. */
  predicate DisturbedFrom(n: int, call: Call, j: nat)
    decreases n - j
  {
    j < n && (call.TryAt(j).triggered || (call.TryAt(j).answer == Refused && DisturbedFrom(n, call, j + 1)))
  }

  function ReplyTo(n: int, call: Call): Reply {
    if call.connected then ReplyFrom(n, call, 0) else Raise(NotConnected)
  }

  predicate Disturbs(n: int, call: Call) {
    call.connected && DisturbedFrom(n, call, 0)
  }

  /** The word the device holds after a call. */
  function Received(f: Frame, reply: Reply, before: Option<int>): Option<int> {
    if f.Power? && reply.Ack? then Some(f.word) else before
  }

  /** Everything the tries do. Each issues the same frame; one is issued under the stop exactly if the stop
      was set at the beginning or somebody triggered it before that try; at most the last is acknowledged. */
  ghost predicate Wrote(n: int, f: Frame, call: Call, j: nat, late: bool, s: State, r: Reply, t: State) {
    && s.log <= t.log && t.soc == s.soc && StopRises(s, t)
    && |t.log| - |s.log| <= (if j < n then n - j else 0)
    && (t.stopped <==> s.stopped || DisturbedFrom(n, call, j))
    && r == ReplyFrom(n, call, j)
    && (r.Ack? ==> |s.log| < |t.log|)
    && (j < n ==> |s.log| < |t.log| && (t.stopped <==> s.stopped || TriggeredIn(call, j, j + |t.log| - 1 - |s.log|)))
    && LastAcked(t.log) == Received(f, r, LastAcked(s.log))
    && Recorded(f, call, j, late, s, r, t)
  }

  ghost predicate Recorded(f: Frame, call: Call, j: nat, late: bool, s: State, r: Reply, t: State) {
    forall i :: |s.log| <= i < |t.log| ==>
      t.log[i] ==
      f.Record(
        s.stopped || TriggeredIn(call, j, j + i - |s.log|),
        late || TriggeredIn(call, j, j + i - |s.log|),
        r.Ack? && i == |t.log| - 1)
  }

  lemma RefusedThenRecorded(f: Frame, call: Call, j: nat, late: bool, s: State, s2: State, r: Reply, t: State)
    requires var y := call.TryAt(j);
      && s2.stopped == (s.stopped || y.triggered)
      && s2.log == s.log + [f.Record(s2.stopped, late || y.triggered, false)]
      && s2.log <= t.log && (r.Ack? ==> |s2.log| < |t.log|)
      && Recorded(f, call, j + 1, late || y.triggered, s2, r, t)
    ensures Recorded(f, call, j, late, s, r, t)
  {
    var y := call.TryAt(j);
    assert TriggeredIn(call, j, j) <==> y.triggered;
    forall hi: nat | hi > j ensures TriggeredIn(call, j, hi) <==> y.triggered || TriggeredIn(call, j + 1, hi) {
      SplitTriggered(call, j, hi);
    }
    hide TriggeredIn;
    assert t.log[|s.log|] == s2.log[|s.log|];
  }

  /** What the tries after a refused one do, seen from before it. */
  lemma RefusedThenWrote(n: int, f: Frame, call: Call, j: nat, late: bool, s: State, r: Reply, t: State)
    requires j < n && call.TryAt(j).answer == Refused
    requires var y := call.TryAt(j); var s1 := s.Disturb(y.triggered); var late1 := late || y.triggered;
      Wrote(n, f, call, j + 1, late1, s1.(log := s1.log + [f.Record(s1.stopped, late1, false)]), r, t)
    ensures Wrote(n, f, call, j, late, s, r, t)
  {
    hide TriggeredIn, LastAcked, Recorded;
    var y := call.TryAt(j);
    var rec := f.Record(s.stopped || y.triggered, late || y.triggered, false);
    LastAckedAppend(s.log, rec);
    var s2 := s.Disturb(y.triggered).(log := s.log + [rec]);
    RefusedThenRecorded(f, call, j, late, s, s2, r, t);
    OneTrigger(call, j);
    if j + 1 < n {
      SplitTriggered(call, j, j + |t.log| - 1 - |s.log|);
    } else {
      assert t.log == s2.log;
    }
  }

  lemma OneTrigger(call: Call, j: nat)
    ensures TriggeredIn(call, j, j) <==> call.TryAt(j).triggered
  {
  }

  lemma {:induction false} TriesWrite(n: int, f: Frame, call: Call, j: nat, late: bool, s: State)
    ensures var (r, t) := Tries(n, f, call, j, late, s); Wrote(n, f, call, j, late, s, r, t)
    decreases n - j
  {
    if j < n {
      var y := call.TryAt(j);
      var s1 := s.Disturb(y.triggered);
      var late1 := late || y.triggered;
      var s2 := s1.(log := s1.log + [f.Record(s1.stopped, late1, y.answer.Fine?)]);
      hide Wrote;
      if y.answer == Refused {
        TriesWrite(n, f, call, j + 1, late1, s2);
        var (r, t) := Tries(n, f, call, j + 1, late1, s2);
        RefusedThenWrote(n, f, call, j, late, s, r, t);
      } else {
        LastTryWrote(n, f, call, j, late, s);
      }
    }
  }

  /** A try that is not refused is the last one. */
  lemma LastTryWrote(n: int, f: Frame, call: Call, j: nat, late: bool, s: State)
    requires j < n && call.TryAt(j).answer != Refused
    ensures var y := call.TryAt(j); var s1 := s.Disturb(y.triggered);
      var t := s1.(log := s1.log + [f.Record(s1.stopped, late || y.triggered, y.answer.Fine?)]);
      Wrote(n, f, call, j, late, s,
        match y.answer case Fine => Ack case Broken(text) => Raise(text) case Refused => Nack, t)
  {
    var y := call.TryAt(j);
    LastAckedAppend(s.log, f.Record(s.stopped || y.triggered, late || y.triggered, y.answer.Fine?));
    assert TriggeredIn(call, j, j) <==> y.triggered;
    hide TriggeredIn, LastAcked;
  }

  lemma SplitTriggered(call: Call, lo: nat, hi: nat)
    requires lo < hi
    ensures TriggeredIn(call, lo, hi) <==> call.TryAt(lo).triggered || TriggeredIn(call, lo + 1, hi)
  {
  }

  /** A call from a state without the stop: a write is issued under the stop if and only if somebody triggers the
      stop after the check, before that write. */
  lemma CallWrites(n: int, f: Frame, call: Call, s: State)
    ensures var (r, t) := WriteRegister(n, f, call, s);
      && s.log <= t.log && t.soc == s.soc && StopRises(s, t)
      && |t.log| - |s.log| <= (if n > 0 then n else 0)
      && (t.stopped <==> s.stopped || Disturbs(n, call))
      && r == ReplyTo(n, call)
      && (r.Ack? ==> |s.log| < |t.log|)
      && (|s.log| < |t.log| <==> call.connected && n > 0)
      && (f.Power? && !s.stopped ==>
            (Disturbs(n, call) <==> exists i :: |s.log| <= i < |t.log| && t.log[i].PSet? && t.log[i].stopped))
      && LastAcked(t.log) == Received(f, r, LastAcked(s.log))
      && (forall i :: |s.log| <= i < |t.log| ==>
            t.log[i] ==
            f.Record(
              s.stopped || TriggeredIn(call, 0, i - |s.log|),
              TriggeredIn(call, 0, i - |s.log|),
              r.Ack? && i == |t.log| - 1))
  {
    TriesWrite(n, f, call, 0, false, s);
    var t := WriteRegister(n, f, call, s).1;
    if f.Power? && !s.stopped && call.connected {
      if Disturbs(n, call) {
        assert t.log[|t.log| - 1].PSet? && t.log[|t.log| - 1].stopped;
      }
    }
  }

  lemma {:induction false} InformativeReply(n: int, call: Call, j: nat)
    requires call.Informative()
    ensures ReplyFrom(n, call, j) != Raise(Empty)
    decreases n - j
  {
    if j < n {
      InformativeReply(n, call, j + 1);
    }
  }

  // ----- the retry loop -----

  /** Attempt m is made: nobody triggers the stop before it in time, and no attempt before it is acknowledged. */
  ghost predicate Reaches(w: WriterConfig, env: Env, k: nat, m: nat) {
    && (forall i :: k <= i <= m ==> !env.Stops(i))
    && (forall i :: k <= i < m ==>
          ReplyTo(w.busRetries, env.CallAt(i)) != Ack && !Disturbs(w.busRetries, env.CallAt(i)))
  }

  ghost predicate Succeeds(w: WriterConfig, env: Env, k: nat) {
    exists m :: k <= m < w.maxRetries && Reaches(w, env, k, m) && ReplyTo(w.busRetries, env.CallAt(m)) == Ack
  }

  /** The last attempt is made and raises an exception with an empty text. */
  ghost predicate FailsSilently(w: WriterConfig, env: Env, k: nat) {
    && k < w.maxRetries
    && Reaches(w, env, k, w.maxRetries - 1)
    && ReplyTo(w.busRetries, env.CallAt(w.maxRetries - 1)) == Raise(Empty)
  }

  /** Somebody triggers the stop while an attempt that is made waits for one of its tries. */
  ghost predicate WritesLate(w: WriterConfig, env: Env, k: nat) {
    exists m :: k <= m < w.maxRetries && Reaches(w, env, k, m) && Disturbs(w.busRetries, env.CallAt(m))
  }

  lemma ReachesNext(w: WriterConfig, env: Env, k: nat)
    requires k < w.maxRetries && !env.Stops(k)
    ensures var reply := ReplyTo(w.busRetries, env.CallAt(k)); var on := !Disturbs(w.busRetries, env.CallAt(k));
      && (Succeeds(w, env, k) <==> reply == Ack || (on && Succeeds(w, env, k + 1)))
      && (WritesLate(w, env, k) <==> !on || (reply != Ack && WritesLate(w, env, k + 1)))
      && (FailsSilently(w, env, k) <==>
            if k == w.maxRetries - 1 then reply == Raise(Empty) else reply != Ack && on && FailsSilently(w, env, k + 1))
  {
    var b := w.busRetries;
    forall m | k < m
      ensures Reaches(w, env, k, m) <==>
        ReplyTo(b, env.CallAt(k)) != Ack && !Disturbs(b, env.CallAt(k)) && Reaches(w, env, k + 1, m)
    {
    }
    assert Reaches(w, env, k, k);
  }

  /** The retry loop writes one and the same encoded power, at most busRetries times in each of the remaining attempts,
      and nothing if the stop is set; a write is issued under the stop exactly if the stop was triggered between the
      check of its attempt and the write; only the last write can be acknowledged. Success means acknowledged, and then
      the device holds the word. Both success and a failure without a text are characterised by the outside choices. */
  lemma {:induction false} AttemptsWrite(w: WriterConfig, watts: real, soc: Option<real>, k: nat, env: Env, s: State)
    ensures var (r, t) := Attempts(w, watts, soc, k, env, s);
      && s.log <= t.log && t.soc == s.soc && StopRises(s, t)
      && (s.stopped ==> t == s && !r.success)
      && |t.log| - |s.log| <= Budget(w, k)
      && (forall i :: |s.log| <= i < |t.log| ==>
            && t.log[i].PSet? && (t.log[i].stopped <==> t.log[i].late)
            && t.log[i] == PSet(watts, Encode(w.scale, watts), soc, t.log[i].stopped, t.log[i].late, t.log[i].acked)
            && (t.log[i].acked <==> r.success && i == |t.log| - 1))
      && (r.success ==> |s.log| < |t.log|)
      && LastAcked(t.log) == (if r.success then Some(Encode(w.scale, watts)) else LastAcked(s.log))
      && (r.success <==> !s.stopped && Succeeds(w, env, k))
      && (AnyLate(s, t) <==> !s.stopped && WritesLate(w, env, k))
      && (!r.success && r.message == Empty <==> !s.stopped && FailsSilently(w, env, k))
    decreases w.maxRetries - k
  {
    if k < w.maxRetries {
      var s1 := s.Disturb(env.Stops(k));
      if !s1.stopped {
        var f := Power(watts, Encode(w.scale, watts), soc);
        CallWrites(w.busRetries, f, env.CallAt(k), s1);
        ReachesNext(w, env, k);
        var (reply, s2) := WriteRegister(w.busRetries, f, env.CallAt(k), s1);
        if !reply.Ack? && k < w.maxRetries - 1 {
          AttemptsWrite(w, watts, soc, k + 1, env, s2);
          var t := Attempts(w, watts, soc, k + 1, env, s2).1;
          forall i | |s.log| <= i < |s2.log| ensures t.log[i] == s2.log[i] {
          }
          AnyLateComposes(s, s2, Attempts(w, watts, soc, k + 1, env, s2).1);
        }
      }
    }
  }

  /** A P_SET was issued under the stop on the way from s to t. */
  ghost predicate AnyLate(s: State, t: State) {
    exists i :: |s.log| <= i < |t.log| && t.log[i].PSet? && t.log[i].stopped
  }

  lemma AnyLateComposes(s: State, u: State, t: State)
    requires s.log <= u.log <= t.log
    ensures AnyLate(s, t) <==> AnyLate(s, u) || AnyLate(u, t)
  {
    if i :| |s.log| <= i < |u.log| && u.log[i].PSet? && u.log[i].stopped {
      assert t.log[i] == u.log[i];
    }
    if i :| |s.log| <= i < |t.log| && t.log[i].PSet? && t.log[i].stopped {
      assert i < |u.log| ==> t.log[i] == u.log[i];
    }
  }

  /** How many writes attempts k, k+1, ... may issue. */
  function Budget(w: WriterConfig, k: nat): nat
    decreases w.maxRetries - k
  {
    if k >= w.maxRetries then 0 else (if w.busRetries > 0 then w.busRetries else 0) + Budget(w, k + 1)
  }

  // ----- the controller -----

  /** What a power request does to the device register: success in production with a writer means the device
      acknowledged this very word; in every other case the register keeps its last value. */
  ghost predicate RegisterFollows(c: Config, watts: real, env: Env, r: ControlResult, s: State, t: State) {
    && (r.executed ==>
          c.production && c.writer.Some? && r.Success() && LastAcked(t.log) ==
            Some(Encode(c.writer.value.scale, watts)))
    && (!r.executed ==> LastAcked(t.log) == LastAcked(s.log))
    && (c.production && c.writer.Some? && env.Informative() ==> (r.Success() <==> r.executed))
  }

  lemma InformativeAttempts(w: WriterConfig, env: Env, k: nat)
    requires env.Informative()
    ensures !FailsSilently(w, env, k)
  {
    if w.maxRetries > 0 {
      InformativeReply(w.busRetries, env.CallAt(w.maxRetries - 1), 0);
    }
  }

  /** The gates of a request, before the writer's own. */
  ghost predicate PassesGates(c: Config, watts: real, env: Env, s: State) {
    && c.production && c.writer.Some?
    && !s.stopped && !env.Trigger(0) && !env.Trigger(1)
    && Admissible(c.limits, s.soc, watts)
  }

  /** The request is executed: it passes the gates and one of the attempts that are made is acknowledged. */
  ghost predicate Executes(c: Config, watts: real, env: Env, s: State) {
    PassesGates(c, watts, env, s) && Succeeds(c.writer.value, env, 0)
  }

  /** The request is not executed and no error is reported: without a writer as soon as it passes the stop and the
      validation, with one if the last attempt fails without a text. */
  ghost predicate ReadsAsSuccess(c: Config, watts: real, env: Env, s: State) {
    if c.writer.None? then !s.stopped && !env.Trigger(0) && Admissible(c.limits, s.soc, watts)
    else PassesGates(c, watts, env, s) && FailsSilently(c.writer.value, env, 0)
  }

  /** No error is reported: in dry run as soon as the request passes the stop and the validation. */
  ghost predicate Reports(c: Config, watts: real, env: Env, s: State) {
    if !c.production then !s.stopped && !env.Trigger(0) && Admissible(c.limits, s.soc, watts)
    else Executes(c, watts, env, s) || ReadsAsSuccess(c, watts, env, s)
  }

  lemma RequestIsSafe(c: Config, watts: real, env: Env, s: State, zero: bool)
    requires zero ==> watts == 0.0
    ensures var (r, t) := if zero then DisconnectPcs(c, env, s) else SetPower(c, watts, env, s);
      && SafeStep(c, s, t) && RegisterFollows(c, watts, env, r, s, t)
      && (r.executed <==> Executes(c, watts, env, s))
      && (AnyLate(s, t) <==> PassesGates(c, watts, env, s) && WritesLate(c.writer.value, env, 0))
      && (c.production ==> (r.Success() && !r.executed <==> ReadsAsSuccess(c, watts, env, s)))
      && (r.Success() <==> Reports(c, watts, env, s))
      && (r.simulated <==> !c.production && r.Success())
  {
    hide Attempts, Succeeds, WritesLate, FailsSilently;
    if c.writer.Some? {
      var s1 := s.Disturb(env.Trigger(0)).Disturb(env.Trigger(1));
      AttemptsWrite(c.writer.value, watts, s.soc, 0, env, s1);
      if env.Informative() {
        InformativeAttempts(c.writer.value, env, 0);
      }
    }
  }

  lemma SetPowerIsSafe(c: Config, watts: real, env: Env, s: State)
    ensures var (r, t) := SetPower(c, watts, env, s);
      SafeStep(c, s, t) && RegisterFollows(c, watts, env, r, s, t)
  {
    RequestIsSafe(c, watts, env, s, false);
  }

  lemma DisconnectIsSafe(c: Config, env: Env, s: State)
    ensures var (r, t) := DisconnectPcs(c, env, s);
      SafeStep(c, s, t) && RegisterFollows(c, 0.0, env, r, s, t)
  {
    RequestIsSafe(c, 0.0, env, s, true);
  }

  /** The records of one call that pulses PCS_ON: no more than n, at least one if the client is connected and may try,
      and acknowledged the last of them exactly if that is the reply. */
  ghost predicate Pulses(n: int, call: Call, s: State, t: State) {
    && s.log <= t.log
    && |t.log| - |s.log| <= (if n > 0 then n else 0)
    && (|s.log| < |t.log| <==> call.connected && n > 0)
    && (forall i :: |s.log| <= i < |t.log| ==> t.log[i] == PcsOn(ReplyTo(n, call) == Ack && i == |t.log| - 1))
    && (ReplyTo(n, call) == Ack ==> |s.log| < |t.log|)
    && (t.stopped <==> s.stopped || Disturbs(n, call))
  }

  /** A reconnect pulses PCS_ON by one call, and its success is the acknowledgement; it touches neither P_SET nor a stop
      that is set. Without a writer and in dry run nothing happens and the result is a success. */
  lemma ReconnectIsSafe(c: Config, env: Env, s: State)
    ensures var (r, t) := ReconnectPcs(c, env, s);
      && SafeStep(c, s, t) && LastAcked(t.log) == LastAcked(s.log)
      && (r.simulated <==> !c.production)
      && (if c.production && c.writer.Some? then
            var n, call := c.writer.value.busRetries, env.CallAt(0);
            Pulses(n, call, s, t) && (r.executed <==> ReplyTo(n, call) == Ack) && (r.Success() <==> r.executed)
          else t == s && r.Success() && !r.executed)
  {
    if c.production && c.writer.Some? {
      var n := c.writer.value.busRetries;
      CallWrites(n, Pulse, env.CallAt(0), s);
    }
  }

  /** Dry run writes nothing at all, and simulates exactly the requests that the stop and the validation let through. */
  lemma DryRunIsSilent(c: Config, watts: real, env: Env, s: State)
    requires !c.production
    ensures var (r, t) := SetPower(c, watts, env, s);
      && t == s.Disturb(env.Trigger(0))
      && !r.executed && (r.simulated <==> r.Success())
      && (r.Success() <==> !s.stopped && !env.Trigger(0) && Admissible(c.limits, s.soc, watts))
    ensures var (r, t) := DisconnectPcs(c, env, s);
      && t == s.Disturb(env.Trigger(0))
      && !r.executed && (r.simulated <==> r.Success()) && (r.Success() <==> !s.stopped && !env.Trigger(0))
    ensures ReconnectPcs(c, env, s) == (ControlResult(false, true, []), s)
  {
  }

  /** A refused request names its reasons: the stop alone, or every limit it breaks. */
  lemma RefusalNamesReasons(c: Config, watts: real, env: Env, s: State)
    ensures var errors := SetPower(c, watts, env, s).0.errors;
      && (s.stopped || env.Trigger(0) ==> errors == [StopActive])
      && (!s.stopped && !env.Trigger(0) && !Admissible(c.limits, s.soc, watts) ==>
            && (ChargeOverLimit in errors <==> -watts > c.limits.maxChargeW as real)
            && (DischargeOverLimit in errors <==> watts > c.limits.maxDischargeW as real)
            && (ChargeAtMaxSoc in errors <==> watts < 0.0 && s.soc.Some? && s.soc.value >= c.limits.maxSoc)
            && (DischargeAtMinSoc in errors <==> watts > 0.0 && s.soc.Some? && s.soc.value <= c.limits.minSoc))
  {
    hide Attempts, Encode;
  }

  // ----- a write under the emergency stop -----

  /** Exactly when a request puts a power setpoint on the bus although the stop is set: it passes the gates, and
      somebody triggers the stop after the check of an attempt that is made, while the Modbus client waits for the lock
      or between two tries. */
  lemma LateWrite(c: Config, watts: real, env: Env, s: State)
    ensures AnyLate(s, SetPower(c, watts, env, s).1) <==>
      PassesGates(c, watts, env, s) && WritesLate(c.writer.value, env, 0)
  {
    RequestIsSafe(c, watts, env, s, false);
  }

  const PLANT := Config(true, Limits(5000, 5000, 10.0, 90.0), Some(WriterConfig(0.01, 1, 2)))

  const FRESH := State(false, None, [], 0, 0)

  /** The first try is refused, the stop is triggered, the second try reaches the device all the same. */
  lemma WriteAfterStop()
    ensures var env := Env([], [Call(true, [Try(false, Refused), Try(true, Fine)])]);
      var (r, t) := SetPower(PLANT, 4000.0, env, FRESH);
      && r.Success() && r.executed && t.stopped
      && t.log == [PSet(4000.0, 40, None, false, false, false), PSet(4000.0, 40, None, true, true, true)]
  {
    var call := Call(true, [Try(false, Refused), Try(true, Fine)]);
    var env := Env([], [call]);
    var w := PLANT.writer.value;
    var f := Power(4000.0, 40, None);
    assert Encode(w.scale, 4000.0) == 40;
    var s1 := FRESH.(log := [PSet(4000.0, 40, None, false, false, false)]);
    var t := State(true, None, s1.log + [PSet(4000.0, 40, None, true, true, true)], 1, 0);
    assert call.TryAt(0) == Try(false, Refused) && call.TryAt(1) == Try(true, Fine);
    assert Tries(2, f, call, 1, false, s1) == (Ack, t);
    assert env.CallAt(0) == call;
    assert FRESH.log + [f.Record(false, false, false)] == s1.log;
    assert Tries(2, f, call, 0, false, FRESH) == Tries(2, f, call, 1, false, s1);
    assert Attempts(w, 4000.0, None, 0, env, FRESH) == (WriteResult(true, Empty), t);
  }

  // ----- a failure that reads as a success -----

  /** Exactly when the controller reports success in production although the device acknowledged nothing. Either it has
      no writer and the request passes the stop and the validation; or the request passes the gates, all attempts are
      made, and the last one raises an exception with an empty text. */
  lemma FalseSuccess(c: Config, watts: real, env: Env, s: State)
    requires c.production
    ensures var r := SetPower(c, watts, env, s).0; r.Success() && !r.executed <==> ReadsAsSuccess(c, watts, env, s)
  {
    RequestIsSafe(c, watts, env, s, false);
  }

  /** The same for a disconnect, and for a reconnect, which has a text for every exception. */
  lemma FalseDisconnect(c: Config, env: Env, s: State)
    requires c.production
    ensures var r := DisconnectPcs(c, env, s).0; r.Success() && !r.executed <==> ReadsAsSuccess(c, 0.0, env, s)
    ensures var r := ReconnectPcs(c, env, s).0; r.Success() && !r.executed <==> c.writer.None?
  {
    RequestIsSafe(c, 0.0, env, s, true);
  }

  /** A production controller whose writer could not be set up. */
  const NO_WRITER := PLANT.(writer := None)

  /** A request for 4000 W succeeds, and nothing is written. */
  lemma NoWriterReadsAsSuccess(env: Env)
    requires !env.Trigger(0)
    ensures var (r, t) := SetPower(NO_WRITER, 4000.0, env, FRESH); r.Success() && !r.executed && t == FRESH
    ensures var (r, t) := DisconnectPcs(NO_WRITER, env, FRESH); r.Success() && !r.executed && t == FRESH
  {
    FalseSuccess(NO_WRITER, 4000.0, env, FRESH);
    FalseDisconnect(NO_WRITER, env, FRESH);
  }

  lemma TimeoutReadsAsSuccess()
    ensures var env := Env([], [Call(true, [Try(false, Broken(Empty))])]);
      var (r, t) := SetPower(PLANT, 4000.0, env, FRESH);
      r.Success() && !r.executed && LastAcked(t.log) == None
  {
    var env := Env([], [Call(true, [Try(false, Broken(Empty))])]);
    var w := PLANT.writer.value;
    assert env.CallAt(0).TryAt(0) == Try(false, Broken(Empty));
    assert ReplyTo(w.busRetries, env.CallAt(0)) == Raise(Empty);
    assert FailsSilently(w, env, 0);
    FalseSuccess(PLANT, 4000.0, env, FRESH);
    SetPowerIsSafe(PLANT, 4000.0, env, FRESH);
  }

  // ----- scaling -----

  /** The device sees the truncated scaled power exactly when that number fits 16 signed bits; beyond it the
      mask wraps the setpoint to a different power. */
  lemma SetpointRoundTrip(scale: real, watts: real)
    ensures ToSigned16(Encode(scale, watts)) == Trunc(watts * scale) <==> -32768 <= Trunc(watts * scale) <= 32767
  {
  }

  /** At the default scale (0.1 kW per count) no power up to 3276.7 kW is wrapped, and the device is less than
      100 W short of it, never beyond it. */
  lemma DefaultScaleIsFaithful(watts: real)
    requires -3276700.0 <= watts <= 3276700.0
    ensures var n := ToSigned16(Encode(0.01, watts));
      && n == Trunc(watts * 0.01)
      && (watts >= 0.0 ==> 0.0 <= watts - 100.0 * n as real < 100.0)
      && (watts <= 0.0 ==> -100.0 < watts - 100.0 * n as real <= 0.0)
  {
    SetpointRoundTrip(0.01, watts);
  }

  /** 3276.8 kW of discharge is written as the largest possible charge. */
  lemma LargeSetpointWraps()
    ensures ToSigned16(Encode(0.01, 3276800.0)) == -32768
  {
  }
}
