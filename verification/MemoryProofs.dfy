/** The bounded memory of processed mRIDs, compared with remembering everything. */
module MemoryProofs {
  import opened Common
  import opened DerModels
  import opened Plant
  import H = HandlerSpec
  import opened ClientSpec
  import opened ClientProofs

  /** The last n elements of s, or all of them. */
  function Tail(s: seq<MRID>, n: nat): seq<MRID> {
    if |s| <= n then s else s[|s| - n..]
  }

  /** Between two occurrences of an mRID lie at least n others. */
  ghost predicate Apart(s: seq<MRID>, n: nat) {
    forall i, j :: 0 <= i < j < |s| && s[i] == s[j] ==> j - i > n
  }

  /** The deque holds exactly the last n of all mRIDs ever processed, none of them twice, and the set of cancelled
      mRIDs is the record of the cancels acted on, none of them twice. */
  ghost predicate Remembers(st: Settings, c: Client) {
    && Wf(c) && KeyedById(c)
    && c.processed == Tail(c.history.processed, st.retention)
    && Apart(c.history.processed, st.retention)
    && NoDuplicates(c.processed)
    && NoDuplicates(c.history.cancels)
    && (forall id :: id in c.cancelled <==> id in c.history.cancels)
  }

  lemma NotInTailIsFar(s: seq<MRID>, x: MRID, n: nat, i: nat)
    requires x !in Tail(s, n) && i < |s| && s[i] == x
    ensures |s| - i > n
  {
    var cut := |s| - |Tail(s, n)|;
    forall k | cut <= k < |s| ensures s[k] in Tail(s, n) {
      assert Tail(s, n)[k - cut] == s[k];
    }
  }

  lemma PushKeepsApart(s: seq<MRID>, x: MRID, n: nat)
    requires x !in Tail(s, n) && Apart(s, n)
    ensures Apart(s + [x], n)
  {
    var t := s + [x];
    forall i, j | 0 <= i < j < |t| && t[i] == t[j] ensures j - i > n {
      if j == |s| {
        NotInTailIsFar(s, x, n, i);
      }
    }
  }

  lemma PushKeepsTail(s: seq<MRID>, x: MRID, n: nat)
    requires x !in Tail(s, n) && Apart(s, n)
    ensures Push(Tail(s, n), x, n) == Tail(s + [x], n)
    ensures Apart(s + [x], n)
    ensures NoDuplicates(Tail(s + [x], n))
  {
    PushKeepsApart(s, x, n);
    var t := s + [x];
    var u := Tail(t, n);
    forall i, j | 0 <= i < j < |u| ensures u[i] != u[j] {
      var base := |t| - |u|;
      assert u[i] == t[base + i] && u[j] == t[base + j];
    }
  }

  /** What a step other than a server message, and the parts of one, leave alone. */
  ghost predicate SameMemory(c: Client, d: Client) {
    && d.processed == c.processed && d.cancelled == c.cancelled
    && d.history.processed == c.history.processed && d.history.cancels == c.history.cancels
    && Wf(d) && KeyedById(d)
  }

  lemma PassSameMemory(st: Settings, c: Client, r: nat, now: int, env: PassEnv)
    requires Wf(c) && KeyedById(c) && r < |c.objs|
    ensures SameMemory(c, ExecutePass(st, c, r, now, env))
  {
    hide ExecutePass;
    PassOutcome(st, c, r, now, env);
  }

  lemma AdmitSameMemory(st: Settings, c: Client, control: Control, program: Program, env: MessageEnv)
    requires Wf(c) && KeyedById(c)
    ensures SameMemory(c, Admit(st, c, control, program, env))
  {
    hide ExecutePass;
    var t := Tracked(control, program, RandomStart(st, control, env.pickStart),
                     RandomDuration(st, control, env.pickDuration), Pending);
    PassSameMemory(st, Track(c, t), |c.objs|, env.now, env.pass);
  }

  lemma {:induction false} RunDueSameMemory(st: Settings, c: Client, refs: seq<nat>, i: nat, now: int,
        envs: seq<PassEnv>)
    requires Wf(c) && KeyedById(c) && i <= |refs| && forall j :: 0 <= j < |refs| ==> refs[j] < |c.objs|
    ensures SameMemory(c, RunDue(st, c, refs, i, now, envs))
    decreases |refs| - i
  {
    hide ExecutePass;
    if i < |refs| {
      var env := At(envs, i, Quiet(now));
      var c0 := Interrupt(c, env.stopBefore);
      if Due(c.objs[refs[i]], now) {
        PassSameMemory(st, c0, refs[i], now, env);
        RunDueSameMemory(st, ExecutePass(st, c0, refs[i], now, env), refs, i + 1, now, envs);
      } else {
        RunDueSameMemory(st, c0, refs, i + 1, now, envs);
      }
    }
  }

  lemma {:induction false} CancelProgramSameMemory(c: Client, program: MRID, keys: seq<MRID>)
    requires Wf(c) && KeyedById(c) && forall k :: k in keys ==> k in c.tracked.vals
    ensures SameMemory(c, CancelProgram(c, program, keys))
    decreases |keys|
  {
    if keys != [] {
      var c1 := if c.objs[c.tracked.vals[keys[0]]].program.mRID == program then CancelTracked(c, keys[0]) else c;
      CancelProgramSameMemory(c1, program, keys[1..]);
    }
  }

  lemma StepRemembers(st: Settings, c: Client, op: Op)
    requires Remembers(st, c)
    ensures Remembers(st, Step(st, c, op))
  {
    match op {
      case Process(control, program, msg) =>
        if control.mRID !in c.processed {
          AdmitSameMemory(st, c, control, program, msg);
          PushKeepsTail(c.history.processed, control.mRID, st.retention);
        }
      case Tick(now, envs) => RunDueSameMemory(st, c, H.Refs(c.tracked, c.tracked.keys), 0, now, envs);
      case Untrack(id) => CancelProgramSameMemory(c, id, c.tracked.keys);
      case _ =>
    }
  }

  /** Over every run the deque refines an unbounded memory: an mRID is processed again only after at least
      retention other mRIDs, and each mRID's server cancel is acted on at most once. */
  lemma {:induction false} RemembersAlways(st: Settings, c: Client, ops: seq<Op>)
    requires Remembers(st, c)
    ensures Remembers(st, Run(st, c, ops))
    decreases |ops|
  {
    if ops != [] {
      StepRemembers(st, c, ops[0]);
      RemembersAlways(st, Step(st, c, ops[0]), ops[1..]);
    }
  }
}
