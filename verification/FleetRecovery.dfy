/** Wake-ups across crashes: which tasks ResumeActiveTasks finds again, and which stay behind. */
module FleetRecovery {
  import opened FleetMachine
  import opened FleetSafety
  import opened FleetWakeup

  /** The depends_on column of t names a parent of c. */
  ghost predicate NamesParentOf(g: Graph, t: int, c: int) {
    t in g.dep && g.dep[t] > 0 && g.dep[t] in Parents(g, c)
  }

  ghost predicate InResume(s: Sys) {
    s.main.Resume? || s.main.ResumeCall?
  }

  /** ResumeActiveTasks has still to look up a task that names a parent of c. */
  ghost predicate Listed(g: Graph, s: Sys, c: int) {
    InResume(s) && exists t :: t in s.main.todo && NamesParentOf(g, t, c)
  }

  ghost predicate OwedAtAll(g: Graph, s: Sys, c: int) {
    exists who :: OwedBy(g, s.sweeps, who, c)
  }

  /** c is unblocked, or somebody owes it a check, or the resume under way will come to it. */
  ghost predicate WithinReach(g: Graph, s: Sys, c: int) {
    !Is(s.status, c, Blocked) || OwedAtAll(g, s, c) || Listed(g, s, c)
  }

  /** An UnblockDependents from outside that lists c. */
  ghost predicate CalledFor(g: Graph, a: Action, c: int) {
    a.Other? && a.o.ExternalCall? && c in Kids(g, a.o.id)
  }

  // ----- what is within reach stays so

  lemma ListedKept(g: Graph, s: Sys, a: Action, c: int)
    requires (Resuming in s.sweeps <==> s.main.ResumeCall?) && Enabled(g, s, a) && a != Other(Crash)
    requires ParentsDone(g, s.status, c) && c in g.parents && Listed(g, s, c)
    ensures Listed(g, Apply(g, s, a), c) || OwedBy(g, Apply(g, s, a).sweeps, Resuming, c)
  {
    var t :| t in s.main.todo && NamesParentOf(g, t, c);
    match a
    case Poll(p) =>
    case Worker(u, w) => assert ApplyWorker(g, s, u, w).main == s.main;
    case Sweeping(who, sw) =>
    case Other(o) => ListedKeptByOther(g, s, o, c, t);
  }

  lemma ListedKeptByOther(g: Graph, s: Sys, o: OtherAct, c: int, t: int)
    requires OtherEnabled(s, o) && !o.Crash? && ParentsDone(g, s.status, c) && c in g.parents
    requires InResume(s) && t in s.main.todo && NamesParentOf(g, t, c)
    ensures Listed(g, ApplyOther(g, s, o), c) || OwedBy(g, ApplyOther(g, s, o).sweeps, Resuming, c)
  {
    var s' := ApplyOther(g, s, o);
    assert s'.main == OtherMain(g, s, o) && s'.sweeps == SweepsAfter(g, s, o);
    if o == ResumePick(t) {
      assert ResumeFinds(g, s.status, t);
      assert OwedBy(g, s'.sweeps, Resuming, c);
    } else {
      assert t in s'.main.todo;
    }
  }

  lemma ReachKept(g: Graph, s: Sys, a: Action, c: int)
    requires Safe(g, s) && Enabled(g, s, a) && a != Other(Crash) && ParentsDone(g, s.status, c) && WithinReach(g, s, c)
    ensures WithinReach(g, Apply(g, s, a), c)
  {
    var s' := Apply(g, s, a);
    if Is(s'.status, c, Blocked) {
      BlockedBefore(g, s, a, c);
      if who :| OwedBy(g, s.sweeps, who, c) {
        OwedByKept(g, s, a, who, c);
      } else {
        ListedKept(g, s, a, c);
      }
    }
  }

  // ----- what is out of reach stays so

  lemma NoNewDuty(g: Graph, status: map<int, Status>, w: Sweep, a: SweepAct, c: int)
    requires SweepEnabled(map[Resuming := w], Resuming, a) && !Duty(g, w, c)
    ensures !Duty(g, NextSweep(g, status, w, a), c)
  {
  }

  lemma NobodyOwes(g: Graph, s: Sys, a: Action, c: int, who: Caller)
    requires PcsOk(s.status, s.workers) && Enabled(g, s, a) && ParentsDone(g, s.status, c)
    requires !OwedAtAll(g, s, c) && !Listed(g, s, c) && !CalledFor(g, a, c)
    ensures !OwedBy(g, Apply(g, s, a).sweeps, who, c)
  {
    assert !OwedBy(g, s.sweeps, who, c);
    match a
    case Poll(p) =>
    case Worker(t, w) => WorkerOwesNothing(g, s, t, w, c, who);
    case Sweeping(x, sw) => if x == who { NoNewDuty(g, s.status, s.sweeps[who], sw, c); }
    case Other(o) => OtherOwesNothing(g, s, o, c, who);
  }

  lemma OtherOwesNothing(g: Graph, s: Sys, o: OtherAct, c: int, who: Caller)
    requires OtherEnabled(s, o) && !OwedBy(g, s.sweeps, who, c) && !Listed(g, s, c) && !CalledFor(g, Other(o), c)
    ensures !OwedBy(g, ApplyOther(g, s, o).sweeps, who, c)
  {
    assert ApplyOther(g, s, o).sweeps == SweepsAfter(g, s, o);
    assert o.ResumePick? ==> !NamesParentOf(g, o.t, c);
  }

  lemma WorkerOwesNothing(g: Graph, s: Sys, t: int, w: WorkerAct, c: int, who: Caller)
    requires PcsOk(s.status, s.workers) && WorkerEnabled(s, t, w) && ParentsDone(g, s.status, c) &&
      !OwedBy(g, s.sweeps, who, c)
    ensures !OwedBy(g, ApplyWorker(g, s, t, w).sweeps, who, c)
  {
    assert PcMatches(s.workers[t], s.status[t]);
  }

  lemma StillBlocked(g: Graph, s: Sys, a: Action, c: int)
    requires PcsOk(s.status, s.workers) && Enabled(g, s, a) && Waiting(g, s, c) && !OwedAtAll(g, s, c)
    ensures Is(Apply(g, s, a).status, c, Blocked)
  {
    match a
    case Poll(p) =>
    case Worker(t, w) =>
      assert PcMatches(s.workers[t], s.status[t]);
      assert w.FailDependents? ==> c !in Kids(g, t);
    case Sweeping(who, sw) => assert !OwedBy(g, s.sweeps, who, c);
    case Other(o) =>
  }

  /** Only ResumeStart puts tasks on the list. */
  ghost predicate ListFrom(main: Main, main': Main) {
    main'.Resume? || main'.ResumeCall? ==> (main.Resume? || main.ResumeCall?) && main'.todo <= main.todo
  }

  lemma ListShrinks(g: Graph, s: Sys, a: Action)
    requires Enabled(g, s, a) && a != Other(ResumeStart)
    ensures ListFrom(s.main, Apply(g, s, a).main)
  {
    match a
    case Poll(p) => assert ListFrom(s.main, PollMain(g, s, p));
    case Worker(t, w) => assert ApplyWorker(g, s, t, w).main == s.main;
    case Sweeping(who, sw) => assert ApplySweep(g, s, who, sw).main == s.main;
    case Other(o) => assert ListFrom(s.main, OtherMain(g, s, o));
  }

  lemma NotListed(g: Graph, s: Sys, a: Action, c: int)
    requires Enabled(g, s, a) && a != Other(ResumeStart) && !Listed(g, s, c)
    ensures !Listed(g, Apply(g, s, a), c)
  {
    ListShrinks(g, s, a);
  }

  lemma StaysOutOfReach(g: Graph, s: Sys, a: Action, c: int)
    requires Safe(g, s) && Enabled(g, s, a) && ParentsDone(g, s.status, c) && !WithinReach(g, s, c)
    requires a != Other(ResumeStart) && !CalledFor(g, a, c)
    ensures !WithinReach(g, Apply(g, s, a), c)
  {
    StillBlocked(g, s, a, c);
    NotListed(g, s, a, c);
    forall who ensures !OwedBy(g, Apply(g, s, a).sweeps, who, c) { NobodyOwes(g, s, a, c, who); }
  }

  // ----- a finished ResumeActiveTasks

  /** A ResumeActiveTasks that starts with step i and ends with step j. */
  ghost predicate Resumes(r: Run, i: nat, j: nat) {
    && i < j < |r.acts| && r.acts[i] == Other(ResumeStart) && r.acts[j] == Other(ResumeEnd)
    && forall m | i < m < j :: r.acts[m] != Other(ResumeEnd) && r.acts[m] != Other(Crash)
  }

  /** Some blocked task's depends_on column names a parent of c. */
  ghost predicate Named(g: Graph, s: Sys, c: int) {
    exists t :: Is(s.status, t, Blocked) && NamesParentOf(g, t, c)
  }

  ghost predicate CalledBetween(g: Graph, r: Run, i: nat, j: nat, c: int)
    requires j <= |r.acts|
  {
    exists m :: i < m < j && CalledFor(g, r.acts[m], c)
  }

  lemma DoneOn(g: Graph, r: Run, i: nat, k: nat, c: int)
    requires Execution(g, r) && i <= k < |r.states| && ParentsDone(g, r.states[i].status, c)
    ensures ParentsDone(g, r.states[k].status, c)
  {
    forall q | q in Parents(g, c) ensures Is(r.states[k].status, q, Completed) { TerminalStays(g, r, i, k, q); }
  }

  lemma {:induction false} MidResume(g: Graph, r: Run, i: nat, j: nat, k: nat)
    requires Execution(g, r) && Resumes(r, i, j) && i < k <= j
    ensures InResume(r.states[k])
  {
    if k == i + 1 {
      assert StepOk(g, r, i);
      assert r.states[k].main == OtherMain(g, r.states[i], ResumeStart);
    } else {
      MidResume(g, r, i, j, k - 1);
      assert StepOk(g, r, k - 1);
      ResumeGoesOn(g, r.states[k - 1], r.acts[k - 1]);
    }
  }

  lemma ResumeGoesOn(g: Graph, s: Sys, a: Action)
    requires Enabled(g, s, a) && InResume(s) && a != Other(ResumeEnd) && a != Other(Crash)
    ensures InResume(Apply(g, s, a)) && a != Other(ResumeStart)
  {
    match a
    case Poll(p) =>
    case Worker(t, w) => assert ApplyWorker(g, s, t, w).main == s.main;
    case Sweeping(who, sw) =>
    case Other(o) => assert ApplyOther(g, s, o).main == OtherMain(g, s, o);
  }

  lemma StartReaches(g: Graph, s: Sys, c: int)
    requires Enabled(g, s, Other(ResumeStart)) && Is(s.status, c, Blocked)
    ensures WithinReach(g, Apply(g, s, Other(ResumeStart)), c) <==> Named(g, s, c) || OwedAtAll(g, s, c)
  {
    var s' := ApplyOther(g, s, ResumeStart);
    assert s'.main == Resume(WithStatusSet(s.status, Blocked)) && s'.sweeps == s.sweeps && s'.status == s.status;
    forall who ensures OwedBy(g, s'.sweeps, who, c) <==> OwedBy(g, s.sweeps, who, c) {}
    forall t ensures t in s'.main.todo <==> Is(s.status, t, Blocked) {}
  }

  lemma {:induction false} ReachThroughout(g: Graph, r: Run, i: nat, j: nat, k: nat, c: int)
    requires Execution(g, r) && Resumes(r, i, j) && i < k <= j && Waiting(g, r.states[i], c)
    ensures WithinReach(g, r.states[k], c) <==>
      Named(g, r.states[i], c) || OwedAtAll(g, r.states[i], c) || CalledBetween(g, r, i, k, c)
  {
    if k == i + 1 {
      assert StepOk(g, r, i);
      StartReaches(g, r.states[i], c);
    } else {
      ReachThroughout(g, r, i, j, k - 1, c);
      ReachAt(g, r, i, j, k - 1, c);
      assert CalledBetween(g, r, i, k, c) <==> CalledBetween(g, r, i, k - 1, c) || CalledFor(g, r.acts[k - 1], c);
    }
  }

  lemma ReachAt(g: Graph, r: Run, i: nat, j: nat, k: nat, c: int)
    requires Execution(g, r) && Resumes(r, i, j) && i < k < j && Waiting(g, r.states[i], c)
    ensures WithinReach(g, r.states[k + 1], c) <==> WithinReach(g, r.states[k], c) || CalledFor(g, r.acts[k], c)
  {
    SafeAt(g, r, k);
    DoneOn(g, r, i, k, c);
    MidResume(g, r, i, j, k);
    assert StepOk(g, r, k);
    ResumeGoesOn(g, r.states[k], r.acts[k]);
    ReachStep(g, r.states[k], r.acts[k], c);
  }

  lemma ReachStep(g: Graph, s: Sys, a: Action, c: int)
    requires Safe(g, s) && Enabled(g, s, a) && ParentsDone(g, s.status, c)
    requires a != Other(ResumeStart) && a != Other(Crash)
    ensures WithinReach(g, Apply(g, s, a), c) <==> WithinReach(g, s, c) || CalledFor(g, a, c)
  {
    if WithinReach(g, s, c) {
      ReachKept(g, s, a, c);
    } else if CalledFor(g, a, c) {
      assert ApplyOther(g, s, a.o).sweeps == SweepsAfter(g, s, a.o);
      assert OwedBy(g, Apply(g, s, a).sweeps, External(a.o.k), c);
    } else {
      StaysOutOfReach(g, s, a, c);
    }
  }

  /** A finished ResumeActiveTasks has checked a task that waited behind completed parents, or left
      a goroutine or an outside call that owes it the check, exactly when some blocked task named
      one of its parents at the start, somebody owed it then, or an outside call came for it. */
  lemma ResumeChecksExactly(g: Graph, r: Run, i: nat, j: nat, c: int)
    requires Execution(g, r) && Resumes(r, i, j) && Waiting(g, r.states[i], c)
    ensures
      !Is(r.states[j].status, c, Blocked) ||
        (exists who :: who != Resuming && OwedBy(g, r.states[j].sweeps, who, c)) <==>
      Named(g, r.states[i], c) || OwedAtAll(g, r.states[i], c) || CalledBetween(g, r, i, j, c)
  {
    ReachThroughout(g, r, i, j, j, c);
    SafeAt(g, r, j);
    assert StepOk(g, r, j);
    assert r.states[j].main == Resume({});
    assert !OwedBy(g, r.states[j].sweeps, Resuming, c);
  }

  // ----- over any number of crashes

  /** A ResumeActiveTasks is due, or has c on its list, or is checking it. */
  ghost predicate Recovering(g: Graph, s: Sys, c: int) {
    s.needResume || (InResume(s) && c in s.main.todo) || OwedBy(g, s.sweeps, Resuming, c)
  }

  ghost predicate Recoverable(g: Graph, s: Sys) {
    forall c | NamesParentOf(g, c, c) && Waiting(g, s, c) :: Owed(g, s, c) || Recovering(g, s, c)
  }

  lemma TodoKept(g: Graph, s: Sys, a: Action, c: int)
    requires Enabled(g, s, a) && a != Other(Crash) && InResume(s) && c in s.main.todo
    requires NamesParentOf(g, c, c) && ParentsDone(g, s.status, c) && c in g.parents
    ensures var s' := Apply(g, s, a); (InResume(s') && c in s'.main.todo) || OwedBy(g, s'.sweeps, Resuming, c)
  {
    match a
    case Poll(p) =>
    case Worker(u, w) => assert ApplyWorker(g, s, u, w).main == s.main;
    case Sweeping(who, sw) =>
    case Other(o) =>
      var s' := ApplyOther(g, s, o);
      assert s'.main == OtherMain(g, s, o) && s'.sweeps == SweepsAfter(g, s, o);
  }

  lemma NeedKept(g: Graph, s: Sys, a: Action, c: int)
    requires Enabled(g, s, a) && s.needResume && Is(s.status, c, Blocked)
    ensures var s' := Apply(g, s, a); s'.needResume || (InResume(s') && c in s'.main.todo)
  {
    match a
    case Poll(p) => assert ApplyPoll(g, s, p).needResume;
    case Worker(u, w) => assert ApplyWorker(g, s, u, w).needResume;
    case Sweeping(who, sw) =>
    case Other(o) =>
      var s' := ApplyOther(g, s, o);
      assert s'.main == OtherMain(g, s, o) && (s'.needResume || o == ResumeStart);
  }

  lemma RecoveringKept(g: Graph, s: Sys, a: Action, c: int)
    requires Control(g, s) && Enabled(g, s, a) && a != Other(Crash)
    requires NamesParentOf(g, c, c) && Waiting(g, s, c) && Recovering(g, s, c)
    requires Is(Apply(g, s, a).status, c, Blocked)
    ensures Recovering(g, Apply(g, s, a), c)
  {
    if s.needResume {
      NeedKept(g, s, a, c);
    } else if InResume(s) && c in s.main.todo {
      TodoKept(g, s, a, c);
    } else {
      OwedByKept(g, s, a, Resuming, c);
    }
  }

  lemma RecoverableKept(g: Graph, s: Sys, a: Action)
    requires WellFormed(g) && Safe(g, s) && Recoverable(g, s) && Enabled(g, s, a)
    ensures Recoverable(g, Apply(g, s, a))
  {
    var s' := Apply(g, s, a);
    forall c | NamesParentOf(g, c, c) && Waiting(g, s', c) ensures Owed(g, s', c) || Recovering(g, s', c) {
      if a == Other(Crash) {
        assert ApplyOther(g, s, Crash).needResume;
      } else if !ParentsDone(g, s.status, c) {
        LastParent(g, s, a, c);
      } else {
        BlockedBefore(g, s, a, c);
        assert Waiting(g, s, c);
        if Recovering(g, s, c) {
          RecoveringKept(g, s, a, c);
        } else {
          var q :| q in Parents(g, c) && OwedBy(g, s.sweeps, Goroutine(q), c);
          OwedByKept(g, s, a, Goroutine(q), c);
        }
      }
    }
  }

  lemma {:induction false} RecoverableAt(g: Graph, r: Run, k: nat)
    requires Execution(g, r) && k < |r.states|
    ensures Recoverable(g, r.states[k])
  {
    if k == 0 {
      InitAwake(g, r.states[0]);
    } else {
      RecoverableAt(g, r, k - 1);
      SafeAt(g, r, k - 1);
      assert StepOk(g, r, k - 1);
      RecoverableKept(g, r.states[k - 1], r.acts[k - 1]);
    }
  }

  /** Over any number of crashes: once a ResumeActiveTasks has run to its end since the last crash,
      no task whose own column names one of its parents, alone or among others, is left blocked
      behind completed parents without a check owed. */
  lemma ResumeRestoresWakeups(g: Graph, r: Run, k: nat, c: int)
    requires Execution(g, r) && k < |r.states|
    requires !r.states[k].needResume && !InResume(r.states[k])
    requires NamesParentOf(g, c, c) && Waiting(g, r.states[k], c)
    ensures Owed(g, r.states[k], c)
  {
    RecoverableAt(g, r, k);
    SafeAt(g, r, k);
  }

  // ----- a task that is left behind

  /** c waits, nobody owes it a check, and no task that is blocked, or still listed by a resume,
      names one of its parents. */
  ghost predicate Forgotten(g: Graph, s: Sys, c: int) {
    Waiting(g, s, c) && !WithinReach(g, s, c) && !Named(g, s, c)
  }

  lemma NotNamedAgain(g: Graph, s: Sys, a: Action, c: int)
    requires Control(g, s) && Order(g, s) && Enabled(g, s, a) && !Named(g, s, c)
    ensures !Named(g, Apply(g, s, a), c)
  {
    forall t | Is(Apply(g, s, a).status, t, Blocked) ensures !NamesParentOf(g, t, c) { BlockedBefore(g, s, a, t); }
  }

  lemma ForgottenKept(g: Graph, s: Sys, a: Action, c: int)
    requires Safe(g, s) && Enabled(g, s, a) && Forgotten(g, s, c) && !CalledFor(g, a, c)
    ensures Forgotten(g, Apply(g, s, a), c)
  {
    StatusChanges(g, s, a);
    DoneStays(g, s.status, Apply(g, s, a).status, c);
    StillBlocked(g, s, a, c);
    NotNamedAgain(g, s, a, c);
    if a == Other(ResumeStart) { StartReaches(g, s, c); } else { StaysOutOfReach(g, s, a, c); }
  }

  /** Such a task stays blocked through every restart, poll and ResumeActiveTasks, unless an
      UnblockDependents from outside names one of its parents. */
  lemma {:induction false} ForgottenForever(g: Graph, r: Run, k: nat, j: nat, c: int)
    requires Execution(g, r) && k <= j < |r.states| && Forgotten(g, r.states[k], c)
    requires forall i | k <= i < j :: !CalledFor(g, r.acts[i], c)
    ensures Forgotten(g, r.states[j], c)
  {
    if k < j {
      ForgottenForever(g, r, k, j - 1, c);
      SafeAt(g, r, j - 1);
      assert StepOk(g, r, j - 1);
      ForgottenKept(g, r.states[j - 1], r.acts[j - 1], c);
    }
  }

  /** A crash leaves a task behind exactly when it waits and no blocked task names a parent of it. */
  lemma CrashForgetsExactly(g: Graph, s: Sys, c: int)
    ensures Enabled(g, s, Other(Crash))
    ensures Forgotten(g, Apply(g, s, Other(Crash)), c) <==> Waiting(g, s, c) && !Named(g, s, c)
  {
    var s' := ApplyOther(g, s, Crash);
    assert s'.status == s.status && s'.sweeps == map[] && s'.main == Idle;
    assert Named(g, s', c) <==> Named(g, s, c);
  }

  /** Tasks built by fleetCmd have 0 in the column, so all that wait at a crash are left behind. */
  lemma FleetChildForgotten(g: Graph, s: Sys, c: int)
    requires Waiting(g, s, c) && forall t | t in g.dep :: g.dep[t] == 0
    ensures Forgotten(g, Apply(g, s, Other(Crash)), c)
  {
    CrashForgetsExactly(g, s, c);
  }
}
