/** Arbitration: who holds the slot of each control mode. */
module ArbitrationProofs {
  import opened Common
  import opened DerModels
  import opened Plant
  import H = HandlerSpec
  import opened ClientSpec
  import opened ClientProofs
  import opened SchedulingProofs

  // ----- the pieces of a pass, one mode at a time -----

  lemma ModesAreDistinct(c: Control)
    ensures NoDuplicates(ModesOf(c))
  {
  }

  /** The control asks for the mode, whatever value it gives. */
  predicate GoesFor(c: Control, m: Mode) {
    && c.base.Some?
    && match m
       case FixedWMode => c.base.value.fixedW.Some?
       case FixedVarMode => c.base.value.fixedVar.Some?
       case MaxLimWMode => c.base.value.maxLimW.Some?
       case ConnectMode => c.base.value.connect.Some?
       case EnergizeMode => c.base.value.energize.Some?
  }

  lemma ModesAreNamed(c: Control, m: Mode)
    ensures m in ModesOf(c) <==> GoesFor(c, m)
  {
  }

  /** A control that does not lose beats the holder of every slot it goes for. */
  lemma {:induction false} WinnerBeatsHolders(c: Client, r: nat, modes: seq<Mode>, m: Mode)
    requires Wf(c) && r < |c.objs| && m in modes && m in c.slots.vals
    requires !Resolve(c, r, modes).0
    ensures Beats(c.objs[r], c.objs[c.slots.vals[m]])
    ensures Resolve(c, r, modes).1.objs[c.slots.vals[m]].status == Superseded
    decreases |modes|
  {
    if modes[0] !in c.slots.vals {
      WinnerBeatsHolders(c, r, modes[1..], m);
    } else {
      var e := c.slots.vals[modes[0]];
      var d := SetStatus(c, e, Superseded);
      if m == modes[0] {
        ResolveEffects(d, r, modes[1..]);
      } else {
        WinnerBeatsHolders(d, r, modes[1..], m);
      }
    }
  }

  lemma {:induction false} OccupyTakes(c: Client, r: nat, modes: seq<Mode>, m: Mode)
    requires Wf(c) && r < |c.objs|
    ensures var d := Occupy(c, r, modes);
      && (m in d.slots.vals <==> m in c.slots.vals || m in modes)
      && (m in d.slots.vals ==> d.slots.vals[m] == if m in modes then r else c.slots.vals[m])
    decreases |modes|
  {
    if modes != [] {
      OccupyTakes(c.(slots := c.slots.Put(modes[0], r)), r, modes[1..], m);
    }
  }

  lemma {:induction false} EnterAdds(h: History, r: nat, modes: seq<Mode>, m: Mode)
    requires NoDuplicates(modes)
    ensures Contenders(Enter(h, r, modes), m) == Contenders(h, m) + if m in modes then [r] else []
    decreases |modes|
  {
    if modes != [] {
      assert modes[0] !in modes[1..];
      EnterAdds(h.(contenders := h.contenders[modes[0] := Contenders(h, modes[0]) + [r]]), r, modes[1..], m);
    }
  }

  /** The sweep keeps a slot with its holder, or empties it. */
  ghost predicate SlotKeptOrEmptied(c: Client, d: Client, m: Mode) {
    m in d.slots.vals ==> m in c.slots.vals && d.slots.vals[m] == c.slots.vals[m]
  }

  /** The contenders and the holders of a mode are forgotten with its slot, and only then. */
  ghost predicate RecordsFollow(c: Client, d: Client, m: Mode) {
    && d.history.sweeps == c.history.sweeps
    && (if m in c.slots.vals && m !in d.slots.vals
        then Contenders(d.history, m) == [] && Holders(d.history, m) == []
        else Contenders(d.history, m) == Contenders(c.history, m) && Holders(d.history, m) == Holders(c.history, m))
  }

  lemma SweepSlotKeepsOrEmpties(c: Client, exclude: MRID, x: Mode, m: Mode)
    requires Wf(c) && x in c.slots.vals
    ensures var d := SweepSlot(c, exclude, x); SlotKeptOrEmptied(c, d, m) && RecordsFollow(c, d, m)
  {
  }

  lemma {:induction false} SweepSlotsKeepsOrEmpties(c: Client, exclude: MRID, modes: seq<Mode>, m: Mode)
    requires Wf(c) && NoDuplicates(modes) && forall x :: x in modes ==> x in c.slots.vals
    ensures var d := SweepSlots(c, exclude, modes); SlotKeptOrEmptied(c, d, m) && RecordsFollow(c, d, m)
    decreases |modes|
  {
    hide SweepSlot, Contenders, Holders;
    if modes != [] {
      SweepSlotKeepsOrEmpties(c, exclude, modes[0], m);
      SweepSlotsKeepsOrEmpties(SweepSlot(c, exclude, modes[0]), exclude, modes[1..], m);
    }
  }

  lemma SweepKeepsOrEmpties(st: Settings, c: Client, exclude: MRID, env: CancelEnv, m: Mode)
    requires Wf(c) && KeyedById(c)
    ensures var d := Sweep(st, c, exclude, env); SlotKeptOrEmptied(c, d, m) && RecordsFollow(c, d, m)
  {
    SweepSlotsKeepsOrEmpties(c, exclude, c.slots.keys, m);
    var c1 := SweepSlots(c, exclude, c.slots.keys);
    SweepSlotsEffects(c, exclude, c.slots.keys, |c.objs|);
    SweepScheduledEffects(c1, exclude, c1.tracked.keys, |c.objs|);
  }

  // ----- a slot in one pass, whatever modes the control has -----

  lemma TakeSlotsTakes(c: Client, r: nat, m: Mode)
    requires Wf(c) && r < |c.objs|
    ensures var d := TakeSlots(c, r); var modes := ModesOf(c.objs[r].control);
      && (m in d.slots.vals <==> m in c.slots.vals || m in modes)
      && (m in d.slots.vals ==> d.slots.vals[m] == if m in modes then r else c.slots.vals[m])
  {
    hide ModesOf, IsDeEnergize;
    OccupyTakes(Note(c, r), r, ModesOf(c.objs[r].control), m);
  }

  lemma CarryOutSlot(st: Settings, c: Client, r: nat, env: PassEnv, m: Mode)
    requires Wf(c) && KeyedById(c) && r < |c.objs|
    ensures var d := CarryOut(st, c, r, env); var modes := ModesOf(c.objs[r].control);
      && (m in d.slots.vals ==>
           d.slots.vals[m] == if m in modes then r else if m in c.slots.vals then c.slots.vals[m] else r)
      && (m in d.slots.vals ==> m in modes || m in c.slots.vals)
      && (m in d.slots.vals ==> Contenders(d.history, m) == Contenders(c.history, m))
      && ((m in c.slots.vals || m in modes) && m !in d.slots.vals ==>
            IsDeEnergize(c.objs[r].control) && Contenders(d.history, m) == [])
      && (m !in c.slots.vals && m !in modes ==> Contenders(d.history, m) == Contenders(c.history, m))
  {
    hide H.HandleControl, TakeSlots, ModesOf;
    var c1 := HandOver(st, c, r, env);
    var c2 := TakeSlots(c1, r);
    TakeSlotsEffects(c1, r);
    TakeSlotsTakes(c1, r, m);
    SweepKeepsOrEmpties(st, c2, c.objs[r].control.mRID, env.sweep, m);
  }

  /** Whatever modes a control has, a pass leaves the holder of a slot in place or replaces it with the strictly
      better new control; only a de-energize or disconnect control ever empties a slot. */
  lemma SlotOnlyImproves(st: Settings, c: Client, r: nat, now: int, env: PassEnv, m: Mode)
    requires Wf(c) && KeyedById(c) && r < |c.objs|
    ensures var d := ExecutePass(st, c, r, now, env);
      && (m in c.slots.vals && m in d.slots.vals ==>
            d.slots.vals[m] == c.slots.vals[m] || (d.slots.vals[m] == r && Beats(c.objs[r], c.objs[c.slots.vals[m]])))
      && (m in c.slots.vals && m !in d.slots.vals ==> IsDeEnergize(c.objs[r].control))
      && (m !in c.slots.vals && m in d.slots.vals ==> d.slots.vals[m] == r && m in ModesOf(c.objs[r].control))
  {
    hide CarryOut;
    var modes := ModesOf(c.objs[r].control);
    var c0 := Enlist(c, r, now);
    ResolveEffects(c0, r, modes);
    var (lost, c1) := Resolve(c0, r, modes);
    if !c.handler.plant.stopped && !lost {
      CarryOutSlot(st, c1, r, env, m);
      if m in modes && m in c.slots.vals {
        WinnerBeatsHolders(c0, r, modes, m);
      }
    }
  }

  /** A control that loses does not beat the holder of one of its slots. */
  lemma {:induction false} LoserHasRival(c: Client, r: nat, modes: seq<Mode>)
    requires Wf(c) && r < |c.objs| && Resolve(c, r, modes).0
    ensures exists m :: m in modes && m in c.slots.vals && !Beats(c.objs[r], c.objs[c.slots.vals[m]])
    decreases |modes|
  {
    if modes[0] in c.slots.vals {
      var e := c.slots.vals[modes[0]];
      if Beats(c.objs[r], c.objs[e]) {
        LoserHasRival(SetStatus(c, e, Superseded), r, modes[1..]);
      }
    } else {
      LoserHasRival(c, r, modes[1..]);
    }
  }

  /** The holder e of a slot stands against t: its program has the lower primacy, or the same primacy and e was created
      at the same time or later. */
  ghost predicate StandsAgainst(e: Tracked, t: Tracked) {
    || e.program.primacy < t.program.primacy
    || (e.program.primacy == t.program.primacy && e.control.creationTime >= t.control.creationTime)
  }

  lemma StandsOrIsBeaten(e: Tracked, t: Tracked)
    ensures StandsAgainst(e, t) <==> !Beats(t, e)
  {
  }

  /** Control r goes for a slot whose holder, whatever became of it, stands against it. */
  ghost predicate HasRival(c: Client, r: nat)
    requires Wf(c) && r < |c.objs|
  {
    exists m :: GoesFor(c.objs[r].control, m) && m in c.slots.vals && StandsAgainst(c.objs[c.slots.vals[m]], c.objs[r])
  }

  lemma LosesToRival(c: Client, r: nat, now: int)
    requires Wf(c) && r < |c.objs|
    ensures Resolve(Enlist(c, r, now), r, ModesOf(c.objs[r].control)).0 <==> HasRival(c, r)
  {
    hide ModesOf, Beats, Enter, Resolve, GoesFor, StandsAgainst;
    var modes, c0 := ModesOf(c.objs[r].control), Enlist(c, r, now);
    EnterEffects(c.history.(passes := c.history.passes + [Pass(r, now)]), r, modes);
    if Resolve(c0, r, modes).0 {
      LoserHasRival(c0, r, modes);
      var m :| m in modes && m in c.slots.vals && !Beats(c.objs[r], c.objs[c.slots.vals[m]]);
      ModesAreNamed(c.objs[r].control, m);
      StandsOrIsBeaten(c.objs[c.slots.vals[m]], c.objs[r]);
    } else {
      forall m | GoesFor(c.objs[r].control, m) && m in c.slots.vals
        ensures !StandsAgainst(c.objs[c.slots.vals[m]], c.objs[r])
      {
        ModesAreNamed(c.objs[r].control, m);
        WinnerBeatsHolders(c0, r, modes, m);
        StandsOrIsBeaten(c.objs[c.slots.vals[m]], c.objs[r]);
      }
    }
  }

  /** A slot is not given back when its holder fails or is cancelled. Exactly the controls against which the holder of
      one of their slots stands, whatever its status, are superseded by their own pass; such a pass reaches neither
      slots nor handler. */
  lemma EndedHolderStillBlocks(st: Settings, c: Client, r: nat, now: int, env: PassEnv)
    requires Wf(c) && KeyedById(c) && r < |c.objs| && !c.handler.plant.stopped
    ensures var d := ExecutePass(st, c, r, now, env);
      && (d.objs[r].status == Superseded <==> HasRival(c, r))
      && (HasRival(c, r) ==> d.slots == c.slots && d.handler == c.handler)
  {
    hide ModesOf, Resolve, CarryOut, HasRival, Enter;
    LosesToRival(c, r, now);
    var c0 := Enlist(c, r, now);
    EnterEffects(c.history.(passes := c.history.passes + [Pass(r, now)]), r, ModesOf(c.objs[r].control));
    ResolveEffects(c0, r, ModesOf(c.objs[r].control));
    var (lost, c1) := Resolve(c0, r, ModesOf(c.objs[r].control));
    if !lost {
      CarryOutEffects(st, c1, r, env);
    }
  }

  // ----- the best contender -----

  /** Of all contenders w has the lowest primacy, among those the latest creation time, and among those it came
      first. */
  ghost predicate IsBest(objs: seq<Tracked>, q: seq<nat>, w: nat)
    requires forall j :: 0 <= j < |q| ==> q[j] < |objs|
  {
    && w < |q|
    && (forall j :: 0 <= j < |q| ==>
          var a, b := KeyOf(objs[q[w]]), KeyOf(objs[q[j]]);
          a.0 <= b.0 && (a.0 == b.0 ==> a.1 >= b.1) && (a == b ==> w <= j))
  }

  /** The contenders of mode m are controls on m that have run; the slot holds the best of them, and every other
      one is SUPERSEDED, unless its cancellation came after. */
  ghost predicate Crowned(c: Client, m: Mode) {
    var q := Contenders(c.history, m);
    && (m in c.slots.vals <==> q != [])
    && (forall j :: 0 <= j < |q| ==>
          q[j] < |c.objs| && m in ModesOf(c.objs[q[j]].control) && c.objs[q[j]].status !in {Scheduled, Pending})
    && (m in c.slots.vals ==>
          && (exists w :: 0 <= w < |q| && q[w] == c.slots.vals[m] && IsBest(c.objs, q, w))
          && (forall j :: 0 <= j < |q| && q[j] != c.slots.vals[m] ==> c.objs[q[j]].status in {Superseded, Cancelled}))
  }

  /** What arbitration looks at. */
  function KeyOf(t: Tracked): (int, int) {
    (t.program.primacy, t.control.creationTime)
  }

  function KeysOf(objs: seq<Tracked>, q: seq<nat>): (keys: seq<(int, int)>)
    requires forall j :: 0 <= j < |q| ==> q[j] < |objs|
    ensures |keys| == |q| && forall j :: 0 <= j < |q| ==> keys[j] == KeyOf(objs[q[j]])
  {
    seq(|q|, j requires 0 <= j < |q| => KeyOf(objs[q[j]]))
  }

  /** Two runs in which controls of the same primacies and creation times contend for a mode, in whatever order they
      arrive: the best contenders have the same primacy and creation time. */
  lemma OrderDoesNotMatter(objs: seq<Tracked>, q: seq<nat>, w: nat, objs': seq<Tracked>, q': seq<nat>, w': nat)
    requires forall j :: 0 <= j < |q| ==> q[j] < |objs|
    requires forall j :: 0 <= j < |q'| ==> q'[j] < |objs'|
    requires multiset(KeysOf(objs, q)) == multiset(KeysOf(objs', q'))
    requires IsBest(objs, q, w) && IsBest(objs', q', w')
    ensures KeyOf(objs[q[w]]) == KeyOf(objs'[q'[w']])
  {
    var keys, keys' := KeysOf(objs, q), KeysOf(objs', q');
    assert keys[w] in multiset(keys') && keys'[w'] in multiset(keys);
    var i :| 0 <= i < |q'| && keys'[i] == keys[w];
    var j :| 0 <= j < |q| && keys[j] == keys'[w'];
  }

  /** Two clients whose slots are in order, with the same keys contending for a mode: the slot is taken in both or in
      neither, and its holders have the same key. */
  lemma SameContendersSameHolder(c: Client, d: Client, m: Mode)
    requires Crowned(c, m) && Crowned(d, m)
    requires multiset(KeysOf(c.objs, Contenders(c.history, m))) == multiset(KeysOf(d.objs, Contenders(d.history, m)))
    ensures m in c.slots.vals <==> m in d.slots.vals
    ensures m in c.slots.vals ==> KeyOf(c.objs[c.slots.vals[m]]) == KeyOf(d.objs[d.slots.vals[m]])
  {
    var q, q' := Contenders(c.history, m), Contenders(d.history, m);
    assert |multiset(KeysOf(c.objs, q))| == |q| && |multiset(KeysOf(d.objs, q'))| == |q'|;
    if q != [] {
      var w :| 0 <= w < |q| && q[w] == c.slots.vals[m] && IsBest(c.objs, q, w);
      var w' :| 0 <= w' < |q'| && q'[w'] == d.slots.vals[m] && IsBest(d.objs, q', w');
      OrderDoesNotMatter(c.objs, q, w, d.objs, q', w');
    }
  }

  // ----- a pass of a single-mode control -----

  predicate SingleMode(c: Control) {
    |ModesOf(c)| <= 1
  }

  ghost predicate SameSlot(c: Client, d: Client, m: Mode) {
    && (m in c.slots.vals <==> m in d.slots.vals)
    && (m in c.slots.vals ==> d.slots.vals[m] == c.slots.vals[m])
  }

  /** Apart from control r only statuses changed, to SUPERSEDED or CANCELLED. */
  ghost predicate OnlyEnded(c: Client, d: Client, r: nat) {
    && |c.objs| <= |d.objs|
    && (forall i :: 0 <= i < |c.objs| ==>
          && d.objs[i] == c.objs[i].(status := d.objs[i].status)
          && (i == r || d.objs[i].status == c.objs[i].status || d.objs[i].status in {Superseded, Cancelled}))
  }

  ghost predicate IsContender(c: Client, r: nat, m: Mode) {
    exists j :: 0 <= j < |Contenders(c.history, m)| && Contenders(c.history, m)[j] == r
  }

  lemma SameBest(objs: seq<Tracked>, objs': seq<Tracked>, q: seq<nat>, w: nat)
    requires (forall j :: 0 <= j < |q| ==> q[j] < |objs|) && |objs| <= |objs'|
    requires forall i :: 0 <= i < |objs| ==>
      (objs'[i].program, objs'[i].control) == (objs[i].program, objs[i].control) || i !in q
    requires IsBest(objs, q, w)
    ensures IsBest(objs', q, w)
  {
    forall j | 0 <= j < |q| ensures q[j] in q {
    }
  }

  /** Nothing happened on the slot. */
  lemma CrownedStays(c: Client, d: Client, r: nat, m: Mode)
    requires Crowned(c, m) && SameSlot(c, d, m) && OnlyEnded(c, d, r) && !IsContender(c, r, m)
    requires Contenders(d.history, m) == Contenders(c.history, m)
    ensures Crowned(d, m)
  {
    hide ModesOf;
    var q := Contenders(c.history, m);
    if m in c.slots.vals {
      var w :| 0 <= w < |q| && q[w] == c.slots.vals[m] && IsBest(c.objs, q, w);
      SameBest(c.objs, d.objs, q, w);
    }
  }

  /** The new contender r did not beat the holder. */
  ghost predicate LostSlot(c: Client, d: Client, r: nat, m: Mode) {
    && r < |c.objs| == |d.objs| && m in ModesOf(c.objs[r].control)
    && SameSlot(c, d, m) && m in c.slots.vals && c.slots.vals[m] < |c.objs|
    && Contenders(d.history, m) == Contenders(c.history, m) + [r]
    && !Beats(c.objs[r], c.objs[c.slots.vals[m]]) && d.objs[r].status == Superseded
  }

  /** The new contender r found the slot empty or beat its holder. */
  ghost predicate WonSlot(c: Client, d: Client, r: nat, m: Mode) {
    && r < |c.objs| == |d.objs| && m in ModesOf(c.objs[r].control)
    && m in d.slots.vals && d.slots.vals[m] == r
    && Contenders(d.history, m) == Contenders(c.history, m) + [r]
    && (m in c.slots.vals ==>
          var e := c.slots.vals[m]; e < |c.objs| && Beats(c.objs[r], c.objs[e]) && (e != r ==>
            d.objs[e].status == Superseded))
  }

  lemma LoserKeepsBest(objs: seq<Tracked>, objs': seq<Tracked>, q: seq<nat>, w: nat, r: nat)
    requires (forall j :: 0 <= j < |q| ==> q[j] < |objs|) && r < |objs| == |objs'|
    requires forall i :: 0 <= i < |objs| ==> objs'[i] == objs[i].(status := objs'[i].status)
    requires IsBest(objs, q, w) && !Beats(objs[r], objs[q[w]])
    ensures IsBest(objs', q + [r], w)
  {
  }

  /** A new contender that does not beat the holder is superseded. */
  lemma CrownedAfterLoss(c: Client, d: Client, r: nat, m: Mode)
    requires Crowned(c, m) && OnlyEnded(c, d, r) && !IsContender(c, r, m) && LostSlot(c, d, r, m)
    ensures Crowned(d, m)
  {
    hide ModesOf;
    var q := Contenders(c.history, m);
    var w :| 0 <= w < |q| && q[w] == c.slots.vals[m] && IsBest(c.objs, q, w);
    LoserKeepsBest(c.objs, d.objs, q, w, r);
    assert (q + [r])[w] == d.slots.vals[m];
  }

  /** A new contender that beats the holder beats every contender. */
  lemma CrownedAfterWin(c: Client, d: Client, r: nat, m: Mode)
    requires Crowned(c, m) && OnlyEnded(c, d, r) && !IsContender(c, r, m) && WonSlot(c, d, r, m)
    requires d.objs[r].status !in {Scheduled, Pending}
    ensures Crowned(d, m)
  {
    hide ModesOf, Beats, IsBest;
    var q := Contenders(c.history, m);
    if m in c.slots.vals {
      var w :| 0 <= w < |q| && q[w] == c.slots.vals[m] && IsBest(c.objs, q, w);
      WinnerIsBest(c.objs, d.objs, q, w, r);
    } else {
      OnlyContenderIsBest(d.objs, r);
    }
    assert (q + [r])[|q|] == r;
  }

  lemma WinnerIsBest(objs: seq<Tracked>, objs': seq<Tracked>, q: seq<nat>, w: nat, r: nat)
    requires (forall j :: 0 <= j < |q| ==> q[j] < |objs|) && r < |objs| == |objs'|
    requires forall i :: 0 <= i < |objs| ==> objs'[i] == objs[i].(status := objs'[i].status)
    requires IsBest(objs, q, w) && Beats(objs[r], objs[q[w]])
    ensures IsBest(objs', q + [r], |q|)
  {
    var all := q + [r];
    forall j | 0 <= j < |all|
      ensures var a, b := KeyOf(objs'[r]), KeyOf(objs'[all[j]]);
        a.0 <= b.0 && (a.0 == b.0 ==> a.1 >= b.1) && (a == b ==> |q| <= j)
    {
      if j < |q| {
        assert all[j] == q[j];
      }
    }
  }

  lemma OnlyContenderIsBest(objs: seq<Tracked>, r: nat)
    requires r < |objs|
    ensures [] + [r] == [r] && IsBest(objs, [r], 0)
  {
  }

  lemma LoserIsBeaten(c: Client, r: nat, m: Mode)
    requires Wf(c) && r < |c.objs| && Resolve(c, r, [m]).0
    ensures m in c.slots.vals && !Beats(c.objs[r], c.objs[c.slots.vals[m]])
  {
  }

  /** What is known right after an arbitration r lost. */
  lemma LostArbitration(c: Client, r: nat, now: int, m: Mode)
    requires Wf(c) && r < |c.objs| && SingleMode(c.objs[r].control) && !c.handler.plant.stopped
    requires Resolve(Enlist(c, r, now), r, ModesOf(c.objs[r].control)).0
    ensures var modes := ModesOf(c.objs[r].control); var c1 := Resolve(Enlist(c, r, now), r, modes).1;
      && |c1.objs| == |c.objs| && c1.slots == c.slots
      && Contenders(c1.history, m) == Contenders(c.history, m) + (if m in modes then [r] else [])
      && (m in modes ==> m in c.slots.vals && !Beats(c.objs[r], c.objs[c.slots.vals[m]]))
  {
    ModesAreDistinct(c.objs[r].control);
    hide ModesOf, Beats, Enter, Resolve;
    var modes := ModesOf(c.objs[r].control);
    EnterAdds(c.history.(passes := c.history.passes + [Pass(r, now)]), r, modes, m);
    ResolveEffects(Enlist(c, r, now), r, modes);
    if m in modes {
      assert modes == [m];
      LoserIsBeaten(Enlist(c, r, now), r, m);
    }
  }

  lemma LosingPass(c: Client, r: nat, now: int, m: Mode)
    requires Wf(c) && r < |c.objs| && SingleMode(c.objs[r].control) && !c.handler.plant.stopped
    requires Resolve(Enlist(c, r, now), r, ModesOf(c.objs[r].control)).0
    ensures var d := SetStatus(Resolve(Enlist(c, r, now), r, ModesOf(c.objs[r].control)).1, r, Superseded);
      if m in ModesOf(c.objs[r].control) then LostSlot(c, d, r, m)
      else SameSlot(c, d, m) && Contenders(d.history, m) == Contenders(c.history, m)
  {
    hide ModesOf, Beats, Resolve, Enlist, Contenders;
    LostArbitration(c, r, now, m);
  }

  /** Arbitration changes statuses and records the contender, nothing else. */
  lemma ArbitrationEffects(c: Client, r: nat, now: int, m: Mode)
    requires Wf(c) && KeyedById(c) && r < |c.objs| && !c.handler.plant.stopped
    ensures var modes := ModesOf(c.objs[r].control); var c1 := Resolve(Enlist(c, r, now), r, modes).1;
      && KeyedById(c1) && |c1.objs| == |c.objs| && c1.slots == c.slots && c1.objs[r].control == c.objs[r].control
      && Contenders(c1.history, m) == Contenders(c.history, m) + (if m in modes then [r] else [])
  {
    ModesAreDistinct(c.objs[r].control);
    hide ModesOf, Beats, Resolve, Enter, Contenders;
    var modes := ModesOf(c.objs[r].control);
    EnterAdds(c.history.(passes := c.history.passes + [Pass(r, now)]), r, modes, m);
    ContendersOfPasses(c.history, r, now, m);
    ResolveEffects(Enlist(c, r, now), r, modes);
  }

  lemma ContendersOfPasses(h: History, r: nat, now: int, m: Mode)
    ensures Contenders(h.(passes := h.passes + [Pass(r, now)]), m) == Contenders(h, m)
  {
  }

  lemma WonArbitration(c: Client, r: nat, now: int, m: Mode)
    requires Wf(c) && KeyedById(c) && r < |c.objs| && !c.handler.plant.stopped
    requires !Resolve(Enlist(c, r, now), r, ModesOf(c.objs[r].control)).0
    ensures var modes := ModesOf(c.objs[r].control); var c1 := Resolve(Enlist(c, r, now), r, modes).1;
      && KeyedById(c1) && |c1.objs| == |c.objs| && c1.slots == c.slots && c1.objs[r].control == c.objs[r].control
      && Contenders(c1.history, m) == Contenders(c.history, m) + (if m in modes then [r] else [])
      && (m in modes && m in c.slots.vals ==>
            Beats(c.objs[r], c.objs[c.slots.vals[m]]) && c1.objs[c.slots.vals[m]].status == Superseded)
  {
    hide ModesOf, Beats, Resolve, Enter, Contenders, KeyedById;
    ArbitrationEffects(c, r, now, m);
    if m in ModesOf(c.objs[r].control) && m in c.slots.vals {
      WinnerBeatsHolders(Enlist(c, r, now), r, ModesOf(c.objs[r].control), m);
    }
  }

  lemma WinningPass(st: Settings, c: Client, r: nat, now: int, env: PassEnv, m: Mode)
    requires Wf(c) && KeyedById(c) && r < |c.objs| && !c.handler.plant.stopped
    requires !Resolve(Enlist(c, r, now), r, ModesOf(c.objs[r].control)).0
    ensures var d := CarryOut(st, Resolve(Enlist(c, r, now), r, ModesOf(c.objs[r].control)).1, r, env);
      || (m !in d.slots.vals && Contenders(d.history, m) == [])
      || (if m in ModesOf(c.objs[r].control) then WonSlot(c, d, r, m)
          else SameSlot(c, d, m) && Contenders(d.history, m) == Contenders(c.history, m))
  {
    hide CarryOut, Resolve, ModesOf, Beats, Enlist, Contenders, IsDeEnergize;
    WonArbitration(c, r, now, m);
    var c1 := Resolve(Enlist(c, r, now), r, ModesOf(c.objs[r].control)).1;
    CarryOutSlot(st, c1, r, env, m);
    CarryOutEffects(st, c1, r, env);
  }

  /** The four things a pass of a single-mode control can do to a slot. */
  lemma PassOnSlot(st: Settings, c: Client, r: nat, now: int, env: PassEnv, m: Mode)
    requires Wf(c) && KeyedById(c) && r < |c.objs| && SingleMode(c.objs[r].control)
    ensures var d := ExecutePass(st, c, r, now, env);
      || (SameSlot(c, d, m) && Contenders(d.history, m) == Contenders(c.history, m))
      || LostSlot(c, d, r, m)
      || WonSlot(c, d, r, m)
      || (m !in d.slots.vals && Contenders(d.history, m) == [])
  {
    hide CarryOut, Resolve;
    if !c.handler.plant.stopped {
      if Resolve(Enlist(c, r, now), r, ModesOf(c.objs[r].control)).0 {
        LosingPass(c, r, now, m);
      } else {
        WinningPass(st, c, r, now, env, m);
      }
    }
  }

  lemma PassKeepsCrowned(st: Settings, c: Client, r: nat, now: int, env: PassEnv, m: Mode)
    requires Ready(c, r, now, env) && SingleMode(c.objs[r].control) && Crowned(c, m) && !IsContender(c, r, m)
    ensures Crowned(ExecutePass(st, c, r, now, env), m)
  {
    hide ExecutePass;
    var d := ExecutePass(st, c, r, now, env);
    PassOutcome(st, c, r, now, env);
    PassOnSlot(st, c, r, now, env, m);
    if SameSlot(c, d, m) && Contenders(d.history, m) == Contenders(c.history, m) {
      CrownedStays(c, d, r, m);
    } else if LostSlot(c, d, r, m) {
      CrownedAfterLoss(c, d, r, m);
    } else if WonSlot(c, d, r, m) {
      CrownedAfterWin(c, d, r, m);
    }
  }

  // ----- runs -----

  /** Every control seen so far goes for one mode at most, and every slot holds its best contender. */
  ghost predicate Orderly(c: Client) {
    && Timely(c)
    && (forall i :: 0 <= i < |c.objs| ==> SingleMode(c.objs[i].control))
    && (forall m :: Crowned(c, m))
  }

  ghost predicate SingleModeOp(op: Op) {
    op.Process? ==> SingleMode(op.control)
  }

  lemma ScheduledIsNoContender(c: Client, r: nat, m: Mode)
    requires Crowned(c, m) && (r < |c.objs| ==> c.objs[r].status in {Scheduled, Pending})
    ensures !IsContender(c, r, m)
  {
  }

  lemma PassKeepsOrderly(st: Settings, c: Client, r: nat, now: int, env: PassEnv)
    requires Ready(c, r, now, env) && c.objs[r].status in {Scheduled, Pending}
    requires forall i :: 0 <= i < |c.objs| ==> SingleMode(c.objs[i].control)
    requires forall m :: Crowned(c, m)
    ensures Orderly(ExecutePass(st, c, r, now, env))
  {
    hide ExecutePass, Crowned;
    PassKeepsTimely(st, c, r, now, env);
    forall m ensures Crowned(ExecutePass(st, c, r, now, env), m) {
      ScheduledIsNoContender(c, r, m);
      PassKeepsCrowned(st, c, r, now, env, m);
    }
  }

  /** A step that touches no slot and only ends controls keeps every crown. */
  lemma QuietStepKeepsOrderly(c: Client, d: Client)
    requires Orderly(c) && Timely(d) && d.slots == c.slots && d.history.contenders == c.history.contenders
    requires OnlyEnded(c, d, |c.objs|) && forall i :: |c.objs| <= i < |d.objs| ==> SingleMode(d.objs[i].control)
    ensures Orderly(d)
  {
    hide Crowned, Timely;
    forall m ensures Crowned(d, m) {
      assert Crowned(c, m);
      ScheduledIsNoContender(c, |c.objs|, m);
      CrownedStays(c, d, |c.objs|, m);
    }
    forall i | 0 <= i < |d.objs| ensures SingleMode(d.objs[i].control) {
      if i < |c.objs| {
        assert d.objs[i] == c.objs[i].(status := d.objs[i].status);
      }
    }
  }

  lemma InterruptKeepsOrderly(c: Client, triggered: bool)
    requires Orderly(c)
    ensures Orderly(Interrupt(c, triggered))
  {
    hide Crowned;
    QuietStepKeepsOrderly(c, Interrupt(c, triggered));
  }

  lemma {:induction false} RunDueKeepsOrderly(st: Settings, c: Client, refs: seq<nat>, i: nat, now: int,
        envs: seq<PassEnv>)
    requires Orderly(c) && i <= |refs| && forall j :: 0 <= j < |refs| ==> refs[j] < |c.objs|
    requires ClockOk(Tick(now, envs))
    ensures Orderly(RunDue(st, c, refs, i, now, envs))
    decreases |refs| - i
  {
    hide ExecutePass, Crowned, Interrupt, SingleMode;
    if i < |refs| {
      var env := At(envs, i, Quiet(now));
      var c0 := Interrupt(c, env.stopBefore);
      InterruptKeepsOrderly(c, env.stopBefore);
      if Due(c.objs[refs[i]], now) {
        DueIsReady(c0, refs[i], now, env);
        PassKeepsOrderly(st, c0, refs[i], now, env);
        RunDueKeepsOrderly(st, ExecutePass(st, c0, refs[i], now, env), refs, i + 1, now, envs);
      } else {
        RunDueKeepsOrderly(st, c0, refs, i + 1, now, envs);
      }
    }
  }

  lemma AdmitKeepsOrderly(st: Settings, c: Client, control: Control, program: Program, env: MessageEnv)
    requires Orderly(c) && SingleMode(control) && env.now <= env.pass.t.checked
    ensures Orderly(Admit(st, c, control, program, env))
  {
    hide ExecutePass, Crowned;
    var t := Tracked(control, program, RandomStart(st, control, env.pickStart),
                     RandomDuration(st, control, env.pickDuration), Pending);
    var d := Track(c, t);
    if control.interval.None? || (control.interval.value.start + t.offset <= env.now
                                  < control.interval.value.start + control.interval.value.duration + t.adjustment) {
      TrackIsReady(c, t, env.now, env.pass);
      forall m ensures Crowned(d, m) {
        assert Crowned(c, m);
        ScheduledIsNoContender(c, |c.objs|, m);
        CrownedStays(c, d, |c.objs|, m);
      }
      PassKeepsOrderly(st, d, |c.objs|, env.now, env.pass);
    } else {
      AdmitKeepsTimely(st, c, control, program, env);
      QuietStepKeepsOrderly(c, Admit(st, c, control, program, env));
    }
  }

  lemma {:induction false} CancelProgramOnlyEnds(c: Client, program: MRID, keys: seq<MRID>)
    requires Wf(c) && forall k :: k in keys ==> k in c.tracked.vals
    ensures var d := CancelProgram(c, program, keys);
      OnlyEnded(c, d, |c.objs|) && d.slots == c.slots && d.history == c.history && d.tracked == c.tracked
    decreases |keys|
  {
    if keys != [] {
      var c1 := if c.objs[c.tracked.vals[keys[0]]].program.mRID == program then CancelTracked(c, keys[0]) else c;
      CancelProgramOnlyEnds(c1, program, keys[1..]);
    }
  }

  lemma MarkKeepsOrderly(st: Settings, c: Client, id: MRID)
    requires Orderly(c)
    ensures Orderly(MarkProcessed(st, c, id))
  {
    hide Crowned;
    QuietStepKeepsOrderly(c, MarkProcessed(st, c, id));
  }

  ghost predicate IsOtherStep(c: Client, op: Op) {
    !op.Tick? && (op.Process? ==> op.control.mRID in c.processed)
  }

  /** A step other than a tick or a new control touches no slot and only ends controls. */
  lemma OtherStepOnlyEnds(st: Settings, c: Client, op: Op)
    requires Wf(c) && IsOtherStep(c, op)
    ensures var d := Step(st, c, op);
      && OnlyEnded(c, d, |c.objs|) && |d.objs| == |c.objs| && d.tracked == c.tracked
      && d.slots == c.slots && d.history.contenders == c.history.contenders
      && d.history.holders == c.history.holders && d.history.sweeps == c.history.sweeps
  {
    hide H.CancelControl, Admit, SetPower, CancelProgram;
    if op.Untrack? {
      CancelProgramOnlyEnds(c, op.programId, c.tracked.keys);
    }
  }

  lemma OtherStepKeepsOrderly(st: Settings, c: Client, op: Op)
    requires Orderly(c) && ClockOk(op) && IsOtherStep(c, op)
    ensures Orderly(Step(st, c, op))
  {
    hide Crowned, Step;
    StepKeepsTimely(st, c, op);
    OtherStepOnlyEnds(st, c, op);
    QuietStepKeepsOrderly(c, Step(st, c, op));
  }

  lemma StepKeepsOrderly(st: Settings, c: Client, op: Op)
    requires Orderly(c) && ClockOk(op) && SingleModeOp(op)
    ensures Orderly(Step(st, c, op))
  {
    hide Crowned, SingleMode, Admit;
    if op.Tick? {
      RunDueKeepsOrderly(st, c, H.Refs(c.tracked, c.tracked.keys), 0, op.now, op.envs);
    } else if op.Process? && op.control.mRID !in c.processed {
      AdmitKeepsOrderly(st, c, op.control, op.program, op.msg);
      MarkKeepsOrderly(st, Admit(st, c, op.control, op.program, op.msg), op.control.mRID);
    } else {
      OtherStepKeepsOrderly(st, c, op);
    }
  }

  /** Arbitration, over every run of single-mode controls, emergency stops and sweeps included: each mode slot holds
      the best of the controls that contended for it since it was last swept, and the others are superseded. */
  lemma {:induction false} OrderlyAlways(st: Settings, c: Client, ops: seq<Op>)
    requires Orderly(c) && forall i :: 0 <= i < |ops| ==> ClockOk(ops[i]) && SingleModeOp(ops[i])
    ensures Orderly(Run(st, c, ops))
    decreases |ops|
  {
    if ops != [] {
      StepKeepsOrderly(st, c, ops[0]);
      OrderlyAlways(st, Step(st, c, ops[0]), ops[1..]);
    }
  }
}
