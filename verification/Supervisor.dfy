/** The supervisor of background tasks (task_supervisor.py). */
module Supervisor {
  import opened Common

  datatype TaskState = Pending | Running | Restarting | Stopped | Failed

  /** The asyncio task of a managed task. How it ended is not visible to the monitor, which compares clocks instead. */
  datatype Coroutine = NoCoroutine | Alive | Done(crashed: bool)

  datatype ManagedTask = ManagedTask(
    coroutine: Coroutine,
    state: TaskState,
    restartCount: nat,
    maxRestarts: nat,
    lastStart: nat,
    lastFailure: nat)

  /** What happens beside the monitor; Wait lets the clock advance, which may be by nothing between two readings. */
  datatype Happening = Wait(ticks: nat) | Crash(task: nat) | Finish(task: nat) | StopAll

  /** relaunched and interrupted record history: which tasks the monitor started again, and the restarts that stop_all
      cut off during their backoff. */
  datatype Supervisor = Supervisor(
    tasks: seq<ManagedTask>,
    running: bool,
    now: nat,
    relaunched: seq<nat>,
    interrupted: nat)

  function Launched(t: ManagedTask, now: nat): ManagedTask {
    t.(coroutine := Alive, state := Running, lastStart := now)
  }

  function Halted(t: ManagedTask): ManagedTask {
    t.(coroutine := NoCoroutine, state := Stopped)
  }

  function MapTasks(tasks: seq<ManagedTask>, f: ManagedTask -> ManagedTask): (r: seq<ManagedTask>)
    ensures |r| == |tasks| && forall i :: 0 <= i < |r| ==> r[i] == f(tasks[i])
  {
    seq(|tasks|, i requires 0 <= i < |tasks| => f(tasks[i]))
  }

  function StopEverything(s: Supervisor): Supervisor {
    s.(running := false, tasks := MapTasks(s.tasks, t => Halted(t)))
  }

  function StartEverything(s: Supervisor): Supervisor {
    if s.running then s else s.(running := true, tasks := MapTasks(s.tasks, t => Launched(t, s.now)))
  }

  function Happen(s: Supervisor, h: Happening): Supervisor {
    match h
    case Wait(ticks) => s.(now := s.now + ticks)
    case Crash(i) =>
      if i < |s.tasks| && s.tasks[i].coroutine == Alive then
        s.(tasks := s.tasks[i := s.tasks[i].(coroutine := Done(true), lastFailure := s.now)])
      else s
    case Finish(i) =>
      if i < |s.tasks| && s.tasks[i].coroutine == Alive then
        s.(tasks := s.tasks[i := s.tasks[i].(coroutine := Done(false))])
      else s
    case StopAll => StopEverything(s)
  }

  function HappenAll(s: Supervisor, hs: seq<Happening>): (r: Supervisor)
    ensures |r.tasks| == |s.tasks|
    decreases |hs|
  {
    if hs == [] then s else HappenAll(Happen(s, hs[0]), hs[1..])
  }

  /** Task i, about to be restarted. */
  function Counted(s: Supervisor, i: nat): (r: Supervisor)
    requires i < |s.tasks|
    ensures |r.tasks| == |s.tasks|
  {
    var t := s.tasks[i];
    s.(tasks := s.tasks[i := t.(state := Restarting, restartCount := t.restartCount + 1)])
  }

  /** The monitor has slept before restarting task i and starts it, unless everything was stopped meanwhile. */
  function Woken(s: Supervisor, i: nat): (r: Supervisor)
    requires i < |s.tasks|
    ensures |r.tasks| == |s.tasks|
  {
    if s.running then
      s.(tasks := s.tasks[i := Launched(s.tasks[i], s.now)], relaunched := s.relaunched + [i])
    else s.(interrupted := s.interrupted + 1)
  }

  /** The monitor looks at task i; backoff lists what happens while it sleeps before a restart. */
  function Visit(s: Supervisor, i: nat, backoff: seq<Happening>): (r: Supervisor)
    requires i < |s.tasks|
    ensures |r.tasks| == |s.tasks|
  {
    var t := s.tasks[i];
    if t.state == Stopped || !t.coroutine.Done? then s
    else if t.lastFailure <= t.lastStart then s.(tasks := s.tasks[i := t.(state := Stopped)])
    else if t.restartCount >= t.maxRestarts then s.(tasks := s.tasks[i := t.(state := Failed)])
    else Woken(HappenAll(Counted(s, i), backoff), i)
  }

  /** One round of _monitor_loop from task i on. */
  function Round(s: Supervisor, i: nat, backoffs: seq<seq<Happening>>): (r: Supervisor)
    ensures |r.tasks| == |s.tasks|
    decreases |s.tasks| - i
  {
    if i >= |s.tasks| || !s.running then s else Round(Visit(s, i, At(backoffs, i, [])), i + 1, backoffs)
  }

  datatype Op = Start | Beside(happening: Happening) | Monitor(backoffs: seq<seq<Happening>>)

  function Step(s: Supervisor, op: Op): (r: Supervisor)
    ensures |r.tasks| == |s.tasks|
  {
    match op
    case Start => StartEverything(s)
    case Beside(h) => Happen(s, h)
    case Monitor(backoffs) => Round(s, 0, backoffs)
  }

  function Run(s: Supervisor, ops: seq<Op>): (r: Supervisor)
    ensures |r.tasks| == |s.tasks|
    decreases |ops|
  {
    if ops == [] then s else Run(Step(s, ops[0]), ops[1..])
  }

  /** A supervisor whose tasks have been registered and not started. */
  predicate Registered(s: Supervisor) {
    && !s.running && s.relaunched == [] && s.interrupted == 0
    && forall t :: t in s.tasks ==>
         t == ManagedTask(NoCoroutine, Pending, 0, t.maxRestarts, 0, 0)
  }

  function RestartsUsed(tasks: seq<ManagedTask>): nat {
    if tasks == [] then 0 else RestartsUsed(tasks[..|tasks| - 1]) + tasks[|tasks| - 1].restartCount
  }

  function RestartsAllowed(tasks: seq<ManagedTask>): nat {
    if tasks == [] then 0 else RestartsAllowed(tasks[..|tasks| - 1]) + tasks[|tasks| - 1].maxRestarts
  }

  // ----- invariants -----

  /** What holds of every task at every moment. A task that has ended crashed if its failure is recorded after its
      start; the converse needs the clock to have moved. */
  predicate TaskInvariant(t: ManagedTask, running: bool, now: nat) {
    && t.restartCount <= t.maxRestarts
    && t.lastStart <= now && t.lastFailure <= now
    && (t.coroutine == Alive ==> t.state == Running && running && t.lastFailure <= t.lastStart)
    && (t.coroutine == Done(false) ==> t.lastFailure <= t.lastStart)
    && (t.coroutine == Done(true) ==> t.lastStart <= t.lastFailure)
    && (running || (t.coroutine == NoCoroutine && (t.state == Pending || t.state == Stopped)))
    && (t.state == Failed ==>
         t.restartCount == t.maxRestarts && t.coroutine == Done(true) && t.lastStart < t.lastFailure)
  }

  ghost predicate TasksSound(s: Supervisor) {
    forall i :: 0 <= i < |s.tasks| ==> TaskInvariant(s.tasks[i], s.running, s.now)
  }

  /** Every restart counted was either a relaunch or one that stop_all interrupted. */
  ghost predicate Sound(s: Supervisor) {
    TasksSound(s) && |s.relaunched| + s.interrupted == RestartsUsed(s.tasks)
  }

  ghost predicate SameLimits(a: seq<ManagedTask>, b: seq<ManagedTask>) {
    |a| == |b| && forall i :: 0 <= i < |a| ==> a[i].maxRestarts == b[i].maxRestarts
  }

  lemma {:induction false} UsedAfterUpdate(tasks: seq<ManagedTask>, i: nat, t: ManagedTask)
    requires i < |tasks|
    ensures RestartsUsed(tasks[i := t]) == RestartsUsed(tasks) - tasks[i].restartCount + t.restartCount
  {
    var last := |tasks| - 1;
    if i < last {
      UsedAfterUpdate(tasks[..last], i, t);
      assert tasks[i := t][..last] == tasks[..last][i := t];
    } else {
      assert tasks[i := t][..last] == tasks[..last];
    }
  }

  lemma {:induction false} SameCountsSameUse(a: seq<ManagedTask>, b: seq<ManagedTask>)
    requires |a| == |b|
    requires forall i :: 0 <= i < |a| ==> a[i].restartCount == b[i].restartCount
    ensures RestartsUsed(a) == RestartsUsed(b)
  {
    if a != [] {
      SameCountsSameUse(a[..|a| - 1], b[..|b| - 1]);
    }
  }

  lemma {:induction false} UsedAtMostAllowed(tasks: seq<ManagedTask>)
    requires forall i :: 0 <= i < |tasks| ==> tasks[i].restartCount <= tasks[i].maxRestarts
    ensures RestartsUsed(tasks) <= RestartsAllowed(tasks)
  {
    if tasks != [] {
      UsedAtMostAllowed(tasks[..|tasks| - 1]);
    }
  }

  lemma {:induction false} SameLimitsSameAllowance(a: seq<ManagedTask>, b: seq<ManagedTask>)
    requires SameLimits(a, b)
    ensures RestartsAllowed(a) == RestartsAllowed(b)
  {
    if a != [] {
      SameLimitsSameAllowance(a[..|a| - 1], b[..|b| - 1]);
    }
  }

  lemma HappenKeepsSound(s: Supervisor, h: Happening)
    requires TasksSound(s)
    ensures var r := Happen(s, h);
      && TasksSound(r) && SameLimits(s.tasks, r.tasks)
      && (r.relaunched, r.interrupted, RestartsUsed(r.tasks)) == (s.relaunched, s.interrupted, RestartsUsed(s.tasks))
  {
    SameCountsSameUse(s.tasks, Happen(s, h).tasks);
  }

  lemma HappenLeavesDead(s: Supervisor, h: Happening, i: nat)
    requires i < |s.tasks| && s.tasks[i].coroutine != Alive
    ensures var r := Happen(s, h);
      && |r.tasks| == |s.tasks|
      && (r.tasks[i] == s.tasks[i] || r.tasks[i] == Halted(s.tasks[i]))
      && (r.running ==> s.running && r.tasks[i] == s.tasks[i])
  {
  }

  /** While the monitor sleeps, a task that is not alive stays as it is unless everything is stopped. */
  lemma {:induction false} BackoffKeepsSound(s: Supervisor, hs: seq<Happening>, i: nat)
    requires TasksSound(s) && i < |s.tasks| && s.tasks[i].coroutine != Alive
    ensures var r := HappenAll(s, hs);
      && TasksSound(r) && SameLimits(s.tasks, r.tasks)
      && (r.relaunched, r.interrupted, RestartsUsed(r.tasks)) == (s.relaunched, s.interrupted, RestartsUsed(s.tasks))
      && (r.tasks[i] == s.tasks[i] || r.tasks[i] == Halted(s.tasks[i]))
      && (r.running ==> r.tasks[i] == s.tasks[i])
    decreases |hs|
  {
    hide TaskInvariant, RestartsUsed, Happen;
    if hs != [] {
      HappenKeepsSound(s, hs[0]);
      HappenLeavesDead(s, hs[0], i);
      BackoffKeepsSound(Happen(s, hs[0]), hs[1..], i);
      RunningWasRunning(Happen(s, hs[0]), hs[1..]);
    }
  }

  lemma {:induction false} RunningWasRunning(s: Supervisor, hs: seq<Happening>)
    ensures HappenAll(s, hs).running ==> s.running
    decreases |hs|
  {
    if hs != [] {
      RunningWasRunning(Happen(s, hs[0]), hs[1..]);
    }
  }

  lemma RestartKeepsSound(s: Supervisor, i: nat, backoff: seq<Happening>)
    requires Sound(s) && s.running && i < |s.tasks|
    requires var t := s.tasks[i]; t.coroutine.Done? && t.restartCount < t.maxRestarts
    ensures var r := Woken(HappenAll(Counted(s, i), backoff), i);
      && Sound(r) && SameLimits(s.tasks, r.tasks)
      && (if r.running then r.tasks[i].coroutine == Alive && r.relaunched == s.relaunched + [i]
          else r.tasks[i].state == Stopped && r.relaunched == s.relaunched)
      && r.tasks[i].restartCount == s.tasks[i].restartCount + 1
  {
    hide HappenAll, RestartsUsed;
    var counted := Counted(s, i);
    UsedAfterUpdate(s.tasks, i, counted.tasks[i]);
    BackoffKeepsSound(counted, backoff, i);
    var woken := HappenAll(counted, backoff);
    UsedAfterUpdate(woken.tasks, i, Launched(woken.tasks[i], woken.now));
  }

  lemma VisitKeepsSound(s: Supervisor, i: nat, backoff: seq<Happening>)
    requires Sound(s) && i < |s.tasks|
    ensures Sound(Visit(s, i, backoff)) && SameLimits(s.tasks, Visit(s, i, backoff).tasks)
  {
    hide HappenAll, Woken, Counted, RestartsUsed;
    var t := s.tasks[i];
    if t.state != Stopped && t.coroutine.Done? {
      if t.lastFailure <= t.lastStart {
        UsedAfterUpdate(s.tasks, i, t.(state := Stopped));
      } else if t.restartCount >= t.maxRestarts {
        UsedAfterUpdate(s.tasks, i, t.(state := Failed));
      } else {
        RestartKeepsSound(s, i, backoff);
      }
    }
  }

  lemma {:induction false} RoundKeepsSound(s: Supervisor, i: nat, backoffs: seq<seq<Happening>>)
    requires Sound(s)
    ensures Sound(Round(s, i, backoffs)) && SameLimits(s.tasks, Round(s, i, backoffs).tasks)
    decreases |s.tasks| - i
  {
    if i < |s.tasks| && s.running {
      VisitKeepsSound(s, i, At(backoffs, i, []));
      RoundKeepsSound(Visit(s, i, At(backoffs, i, [])), i + 1, backoffs);
    }
  }

  lemma StepKeepsSound(s: Supervisor, op: Op)
    requires Sound(s)
    ensures Sound(Step(s, op)) && SameLimits(s.tasks, Step(s, op).tasks)
  {
    match op
    case Start => SameCountsSameUse(s.tasks, StartEverything(s).tasks);
    case Beside(h) => HappenKeepsSound(s, h);
    case Monitor(backoffs) => RoundKeepsSound(s, 0, backoffs);
  }

  lemma {:induction false} RunKeepsSound(s: Supervisor, ops: seq<Op>)
    requires Sound(s)
    ensures Sound(Run(s, ops)) && SameLimits(s.tasks, Run(s, ops).tasks)
    decreases |ops|
  {
    if ops != [] {
      StepKeepsSound(s, ops[0]);
      RunKeepsSound(Step(s, ops[0]), ops[1..]);
    }
  }

  // ----- main results -----

  /** Over every run no task uses more restarts than it is allowed, the restarts used are exactly the relaunches and
      the interrupted restarts, and so the monitor relaunches at most the sum of the limits. */
  lemma RestartsAreBounded(s: Supervisor, ops: seq<Op>)
    requires Registered(s)
    ensures var r := Run(s, ops);
      && (forall i :: 0 <= i < |r.tasks| ==>
           r.tasks[i].restartCount <= r.tasks[i].maxRestarts == s.tasks[i].maxRestarts)
      && |r.relaunched| + r.interrupted == RestartsUsed(r.tasks)
      && |r.relaunched| <= RestartsAllowed(s.tasks)
  {
    NothingUsed(s.tasks);
    assert forall i :: 0 <= i < |s.tasks| ==> s.tasks[i] in s.tasks;
    RunKeepsSound(s, ops);
    UsedAtMostAllowed(Run(s, ops).tasks);
    SameLimitsSameAllowance(s.tasks, Run(s, ops).tasks);
  }

  lemma {:induction false} NothingUsed(tasks: seq<ManagedTask>)
    requires forall t :: t in tasks ==> t.restartCount == 0
    ensures RestartsUsed(tasks) == 0
  {
    if tasks != [] {
      NothingUsed(tasks[..|tasks| - 1]);
    }
  }

  predicate Ended(t: ManagedTask) {
    t.state == Stopped || t.state == Failed
  }

  lemma VisitLeavesEnded(s: Supervisor, k: nat, backoff: seq<Happening>, i: nat)
    requires Sound(s) && k < |s.tasks| && i < |s.tasks| && Ended(s.tasks[i])
    ensures var r := Visit(s, k, backoff);
      && (r.tasks[i] == s.tasks[i] || r.tasks[i] == Halted(s.tasks[i]))
      && multiset(r.relaunched)[i] == multiset(s.relaunched)[i]
  {
    hide HappenAll, RestartsUsed;
    var t := s.tasks[k];
    if k != i && t.state != Stopped && t.coroutine.Done? && t.lastStart < t.lastFailure &&
      t.restartCount < t.maxRestarts {
      BackoffKeepsSound(Counted(s, k), backoff, i);
    }
  }

  lemma {:induction false} RoundLeavesEnded(s: Supervisor, k: nat, backoffs: seq<seq<Happening>>, i: nat)
    requires Sound(s) && i < |s.tasks| && Ended(s.tasks[i])
    ensures var r := Round(s, k, backoffs);
      && (r.tasks[i] == s.tasks[i] || r.tasks[i] == Halted(s.tasks[i]))
      && multiset(r.relaunched)[i] == multiset(s.relaunched)[i]
    decreases |s.tasks| - k
  {
    if k < |s.tasks| && s.running {
      VisitLeavesEnded(s, k, At(backoffs, k, []), i);
      VisitKeepsSound(s, k, At(backoffs, k, []));
      RoundLeavesEnded(Visit(s, k, At(backoffs, k, [])), k + 1, backoffs, i);
    }
  }

  lemma StepLeavesEnded(s: Supervisor, op: Op, i: nat)
    requires Sound(s) && i < |s.tasks| && Ended(s.tasks[i]) && op != Start
    ensures var r := Step(s, op);
      && (r.tasks[i] == s.tasks[i] || r.tasks[i] == Halted(s.tasks[i]))
      && multiset(r.relaunched)[i] == multiset(s.relaunched)[i]
  {
    if op.Monitor? {
      RoundLeavesEnded(s, 0, op.backoffs, i);
    }
  }

  /** A STOPPED or FAILED task is never started again unless start_all is called: it stays as it is, or is halted. */
  lemma {:induction false} EndedTasksStayDown(s: Supervisor, ops: seq<Op>, i: nat)
    requires Sound(s) && i < |s.tasks| && Ended(s.tasks[i]) && Start !in ops
    ensures var r := Run(s, ops);
      && (r.tasks[i] == s.tasks[i] || r.tasks[i] == Halted(s.tasks[i]))
      && multiset(r.relaunched)[i] == multiset(s.relaunched)[i]
    decreases |ops|
  {
    if ops != [] {
      hide Step, Sound;
      StepLeavesEnded(s, ops[0], i);
      StepKeepsSound(s, ops[0]);
      EndedTasksStayDown(Step(s, ops[0]), ops[1..], i);
    }
  }

  /** After stop_all nothing is alive, and until start_all is called nothing but the clock changes. */
  lemma {:induction false} StopIsFinal(s: Supervisor, ops: seq<Op>)
    requires Start !in ops
    ensures var stopped := StopEverything(s);
      && (forall t :: t in stopped.tasks ==> t.coroutine == NoCoroutine && t.state == Stopped)
      && Run(stopped, ops) == stopped.(now := Run(stopped, ops).now)
    decreases |ops|
  {
    var stopped := StopEverything(s);
    if ops != [] {
      var next := Step(stopped, ops[0]);
      assert StopEverything(next).tasks == next.tasks == stopped.tasks;
      StopIsFinal(next, ops[1..]);
    }
  }

  /** The monitor restarts a task exactly when it crashed after its launch in clock time and has restarts left;
      a crash in the clock tick of the launch is taken for a normal end, and a normal end never for a crash. */
  lemma MonitorVerdict(s: Supervisor, i: nat, backoff: seq<Happening>)
    requires Sound(s) && i < |s.tasks| && s.tasks[i].coroutine.Done? && s.tasks[i].state != Stopped
    ensures var t := s.tasks[i]; var r := Visit(s, i, backoff);
      var late := t.coroutine.crashed && t.lastFailure != t.lastStart;
      && (r.tasks[i].restartCount == t.restartCount + 1 <==> late && t.restartCount < t.maxRestarts)
      && (!late <==> r == s.(tasks := s.tasks[i := t.(state := Stopped)]))
      && (late && t.restartCount == t.maxRestarts <==> r.tasks[i].state == Failed)
      && (late && t.restartCount < t.maxRestarts ==>
            if r.running then r.tasks[i].coroutine == Alive && r.relaunched == s.relaunched + [i]
            else r.tasks[i].state == Stopped && r.relaunched == s.relaunched)
  {
    hide HappenAll, RestartsUsed, Woken, Counted;
    var t := s.tasks[i];
    if t.lastStart < t.lastFailure && t.restartCount < t.maxRestarts {
      RestartKeepsSound(s, i, backoff);
    }
  }

  // ----- every ended task is looked at -----

  /** What a round does not do to task i: count a restart or start it again. */
  ghost predicate NotRestarted(s: Supervisor, r: Supervisor, i: nat)
    requires i < |s.tasks| == |r.tasks|
  {
    && r.tasks[i].restartCount == s.tasks[i].restartCount
    && multiset(r.relaunched)[i] == multiset(s.relaunched)[i]
  }

  lemma {:induction false} BackoffRestartsNothing(s: Supervisor, hs: seq<Happening>, i: nat)
    requires i < |s.tasks|
    ensures var r := HappenAll(s, hs);
      r.relaunched == s.relaunched && r.tasks[i].restartCount == s.tasks[i].restartCount
    decreases |hs|
  {
    if hs != [] {
      BackoffRestartsNothing(Happen(s, hs[0]), hs[1..], i);
    }
  }

  /** Visiting another task. */
  lemma VisitOfAnother(s: Supervisor, k: nat, backoff: seq<Happening>, i: nat)
    requires Sound(s) && k < |s.tasks| && i < |s.tasks| && i != k
    ensures var r := Visit(s, k, backoff);
      && NotRestarted(s, r, i)
      && (r.running ==> s.running)
      && (r.running && s.tasks[i].coroutine != Alive ==> r.tasks[i] == s.tasks[i])
  {
    hide HappenAll, RestartsUsed, TaskInvariant;
    BackoffRestartsNothing(Counted(s, k), backoff, i);
    RunningWasRunning(Counted(s, k), backoff);
    var t := s.tasks[k];
    if s.tasks[i].coroutine != Alive && t.state != Stopped && t.coroutine.Done? && t.lastStart < t.lastFailure &&
      t.restartCount < t.maxRestarts {
      CountedIsSound(s, k);
      BackoffKeepsSound(Counted(s, k), backoff, i);
    }
  }

  lemma CountedIsSound(s: Supervisor, k: nat)
    requires TasksSound(s) && k < |s.tasks|
    requires s.tasks[k].coroutine.Done? && s.tasks[k].restartCount < s.tasks[k].maxRestarts
    ensures TasksSound(Counted(s, k))
  {
  }

  lemma {:induction false} RoundOfOthers(s: Supervisor, k: nat, backoffs: seq<seq<Happening>>, i: nat)
    requires Sound(s) && i < k && i < |s.tasks|
    ensures var r := Round(s, k, backoffs); NotRestarted(s, r, i) && (r.running ==> s.running)
    decreases |s.tasks| - k
  {
    hide Visit, Sound;
    if k < |s.tasks| && s.running {
      VisitOfAnother(s, k, At(backoffs, k, []), i);
      VisitKeepsSound(s, k, At(backoffs, k, []));
      RoundOfOthers(Visit(s, k, At(backoffs, k, [])), k + 1, backoffs, i);
    }
  }

  lemma {:induction false} RoundFromK(s: Supervisor, k: nat, backoffs: seq<seq<Happening>>, i: nat)
    requires Sound(s) && k <= i < |s.tasks| && s.tasks[i].coroutine.Done? && !Ended(s.tasks[i])
    ensures Judged(s, Round(s, k, backoffs), i)
    decreases |s.tasks| - k
  {
    hide Visit, Sound;
    if s.running {
      var backoff := At(backoffs, k, []);
      var s1 := Visit(s, k, backoff);
      VisitKeepsSound(s, k, backoff);
      if k == i {
        VisitJudges(s, i, backoff);
        RoundOfOthers(s1, k + 1, backoffs, i);
        if Ended(s1.tasks[i]) {
          EndedIsNotAlive(s1, i);
          StoppedStaysDown(s1, k + 1, backoffs, i);
        }
      } else {
        VisitOfAnother(s, k, backoff, i);
        if s1.running {
          RoundFromK(s1, k + 1, backoffs, i);
        }
      }
    }
  }

  /** If nobody called stop_all, the verdict on the ended task i is spoken: STOPPED if its last failure is not after its
      last start, FAILED if it has no restart left, and otherwise one more restart. */
  ghost predicate Judged(s: Supervisor, r: Supervisor, i: nat)
    requires i < |s.tasks| == |r.tasks|
  {
    var t := s.tasks[i];
    r.running ==>
      if t.lastFailure <= t.lastStart then r.tasks[i].state == Stopped && NotRestarted(s, r, i)
      else if t.restartCount == t.maxRestarts then r.tasks[i].state == Failed && NotRestarted(s, r, i)
      else r.tasks[i].restartCount == t.restartCount + 1
           && multiset(r.relaunched)[i] == multiset(s.relaunched)[i] + 1
  }

  lemma EndedIsNotAlive(s: Supervisor, i: nat)
    requires Sound(s) && i < |s.tasks| && Ended(s.tasks[i])
    ensures s.tasks[i].coroutine != Alive
  {
  }

  lemma VisitJudges(s: Supervisor, i: nat, backoff: seq<Happening>)
    requires Sound(s) && s.running && i < |s.tasks| && s.tasks[i].coroutine.Done? && !Ended(s.tasks[i])
    ensures Judged(s, Visit(s, i, backoff), i)
  {
    hide HappenAll, RestartsUsed, Woken, Counted;
    var t := s.tasks[i];
    if t.lastStart < t.lastFailure && t.restartCount < t.maxRestarts {
      RestartKeepsSound(s, i, backoff);
    }
  }

  /** An ended task keeps its verdict to the end of the round, unless everything is stopped. */
  lemma {:induction false} StoppedStaysDown(s: Supervisor, k: nat, backoffs: seq<seq<Happening>>, i: nat)
    requires Sound(s) && i < k && i < |s.tasks| && s.tasks[i].coroutine != Alive
    ensures var r := Round(s, k, backoffs); r.running ==> r.tasks[i] == s.tasks[i]
    decreases |s.tasks| - k
  {
    hide Visit, Sound;
    if k < |s.tasks| && s.running {
      var s1 := Visit(s, k, At(backoffs, k, []));
      VisitOfAnother(s, k, At(backoffs, k, []), i);
      VisitKeepsSound(s, k, At(backoffs, k, []));
      if s1.running {
        StoppedStaysDown(s1, k + 1, backoffs, i);
      } else {
        RoundOfOthers(s1, k + 1, backoffs, i);
      }
    }
  }

  /** A round of the monitor looks at every task that has ended, in whatever place it stands and whatever happens while
      the monitor sleeps for the others. */
  lemma RoundJudgesEveryTask(s: Supervisor, backoffs: seq<seq<Happening>>, i: nat)
    requires Sound(s) && i < |s.tasks| && s.tasks[i].coroutine.Done? && !Ended(s.tasks[i])
    ensures Judged(s, Step(s, Monitor(backoffs)), i)
  {
    RoundFromK(s, 0, backoffs, i);
  }

  /** Starting records the clock, and so does a crash; a task that ends normally leaves no record. */
  lemma ClockIsRecorded(s: Supervisor, i: nat)
    requires i < |s.tasks|
    ensures !s.running ==>
      var t := Step(s, Start).tasks[i]; t.coroutine == Alive && t.state == Running && t.lastStart == s.now
    ensures s.tasks[i].coroutine == Alive ==>
      var t := Step(s, Beside(Crash(i))).tasks[i]; t.coroutine == Done(true) && t.lastFailure == s.now
    ensures s.tasks[i].coroutine == Alive ==>
      Step(s, Beside(Finish(i))).tasks[i] == s.tasks[i].(coroutine := Done(false))
  {
  }

  /** A job crashes in the clock tick of its launch: the monitor takes it for finished, though it has a restart left. */
  lemma EarlyCrashIsMissed()
    ensures var t := ManagedTask(NoCoroutine, Pending, 0, 1, 0, 0);
      var s := Run(Supervisor([t], false, 0, [], 0), [Start, Beside(Crash(0)), Monitor([])]);
      s.tasks == [ManagedTask(Done(true), Stopped, 0, 1, 0, 0)] && s.relaunched == []
  {
    var t := ManagedTask(NoCoroutine, Pending, 0, 1, 0, 0);
    var s0 := Supervisor([t], false, 0, [], 0);
    var s1 := Step(s0, Start);
    assert s1.tasks == [Launched(t, 0)];
    var s2 := Step(s1, Beside(Crash(0)));
    var s3 := Supervisor([ManagedTask(Done(true), Stopped, 0, 1, 0, 0)], true, 0, [], 0);
    assert Visit(s2, 0, []) == s3 && Round(s3, 1, []) == s3;
    assert Step(s2, Monitor([])) == s3;
    var ops := [Start, Beside(Crash(0)), Monitor([])];
    assert ops[1..] == [Beside(Crash(0)), Monitor([])] && ops[1..][1..] == [Monitor([])];
    assert Run(s2, [Monitor([])]) == Run(s3, []);
    assert Run(s1, ops[1..]) == Run(s2, [Monitor([])]);
  }

  /** The supervisor object. */
  class TaskSupervisor {
    var tasks: seq<ManagedTask>
    var running: bool
    var now: nat
    var relaunched: seq<nat>
    var interrupted: nat

    function View(): Supervisor
      reads this
    {
      Supervisor(tasks, running, now, relaunched, interrupted)
    }

    constructor (limits: seq<nat>)
      ensures Registered(View()) && |tasks| == |limits|
      ensures forall i :: 0 <= i < |limits| ==> tasks[i].maxRestarts == limits[i]
    {
      tasks := seq(|limits|, i requires 0 <= i < |limits| => ManagedTask(NoCoroutine, Pending, 0, limits[i], 0, 0));
      running, now, relaunched, interrupted := false, 0, [], 0;
    }

    method Launch(i: nat)
      requires i < |tasks|
      modifies this`tasks
      ensures tasks == old(tasks)[i := Launched(old(tasks[i]), now)]
    {
      tasks := tasks[i := tasks[i].(coroutine := Alive)];
      tasks := tasks[i := tasks[i].(state := Running)];
      tasks := tasks[i := tasks[i].(lastStart := now)];
    }

    method StartAll()
      modifies this
      ensures View() == StartEverything(old(View()))
    {
      if running {
        return;
      }
      running := true;
      for i := 0 to |tasks|
        invariant |tasks| == |old(tasks)|
        invariant forall k :: 0 <= k < |tasks| ==>
          tasks[k] == if k < i then Launched(old(tasks[k]), now) else old(tasks[k])
        invariant running && (now, relaunched, interrupted) == old((now, relaunched, interrupted))
      {
        Launch(i);
      }
      var at := now;
      assert tasks == MapTasks(old(tasks), t => Launched(t, at));
    }

    method StopAllTasks()
      modifies this
      ensures View() == StopEverything(old(View()))
    {
      running := false;
      for i := 0 to |tasks|
        invariant |tasks| == |old(tasks)|
        invariant forall k :: 0 <= k < |tasks| ==> tasks[k] == if k < i then Halted(old(tasks[k])) else old(tasks[k])
        invariant !running && (now, relaunched, interrupted) == old((now, relaunched, interrupted))
      {
        tasks := tasks[i := tasks[i].(coroutine := NoCoroutine)];
        tasks := tasks[i := tasks[i].(state := Stopped)];
      }
    }

    /** Anything that happens beside the monitor: _run_wrapper recording a crash, a task ending, stop_all. */
    method Meanwhile(h: Happening)
      modifies this
      ensures View() == Happen(old(View()), h)
    {
      match h {
        case Wait(ticks) => now := now + ticks;
        case Crash(i) =>
          if i < |tasks| && tasks[i].coroutine == Alive {
            tasks := tasks[i := tasks[i].(coroutine := Done(true), lastFailure := now)];
          }
        case Finish(i) =>
          if i < |tasks| && tasks[i].coroutine == Alive {
            tasks := tasks[i := tasks[i].(coroutine := Done(false))];
          }
        case StopAll => StopAllTasks();
      }
    }

    /** asyncio.sleep in the monitor */
    method Sleep(hs: seq<Happening>)
      modifies this
      ensures View() == HappenAll(old(View()), hs)
    {
      var rest := hs;
      while rest != []
        invariant HappenAll(View(), rest) == HappenAll(old(View()), hs)
      {
        Meanwhile(rest[0]);
        rest := rest[1..];
      }
    }

    /** The body of the inner loop of _monitor_loop */
    method VisitTask(i: nat, backoff: seq<Happening>)
      requires i < |tasks|
      modifies this
      ensures View() == Visit(old(View()), i, backoff)
    {
      if tasks[i].state == Stopped {
        return;
      }
      if !tasks[i].coroutine.Done? {
        return;
      }
      var crashed := tasks[i].lastFailure > tasks[i].lastStart;
      if !crashed {
        tasks := tasks[i := tasks[i].(state := Stopped)];
        return;
      }
      if tasks[i].restartCount >= tasks[i].maxRestarts {
        if tasks[i].state != Failed {
          tasks := tasks[i := tasks[i].(state := Failed)];
        }
        assert tasks == old(tasks)[i := old(tasks[i]).(state := Failed)];
        return;
      }
      tasks := tasks[i := tasks[i].(state := Restarting)];
      tasks := tasks[i := tasks[i].(restartCount := tasks[i].restartCount + 1)];
      assert View() == Counted(old(View()), i);
      Sleep(backoff);
      if !running {
        interrupted := interrupted + 1;
        return;
      }
      Launch(i);
      relaunched := relaunched + [i];
    }

    /** One round of _monitor_loop */
    method MonitorRound(backoffs: seq<seq<Happening>>)
      modifies this
      ensures View() == Round(old(View()), 0, backoffs)
    {
      var i := 0;
      while i < |tasks|
        invariant Round(View(), i, backoffs) == Round(old(View()), 0, backoffs)
        invariant i <= |tasks| == |old(tasks)|
      {
        if !running {
          break;
        }
        VisitTask(i, At(backoffs, i, []));
        i := i + 1;
      }
    }
  }
}
