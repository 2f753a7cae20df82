/** What a failure does to the children of the failed task: FAIL reaches them, an error or a start
    that failed does not. */
module FleetFailures {
  import opened FleetMachine
  import opened FleetSafety
  import opened FleetWakeup
  import opened FleetProgress
  import opened FleetCompletion

  /** The tasks whose worker reported FAIL. */
  ghost function Reporters(r: Run, k: nat): set<int>
    requires k <= |r.acts|
  {
    if k == 0 then {} else Reporters(r, k - 1) + ReportsIn(r.acts[k - 1])
  }

  ghost function ReportsIn(a: Action): set<int> {
    if a.Worker? && a.w == Finish(SawFail) then {a.t} else {}
  }

  lemma {:induction false} ReportersLose(r: Run, k: nat)
    requires k <= |r.acts|
    ensures Reporters(r, k) <= Losers(r, k)
  {
    if k > 0 { ReportersLose(r, k - 1); }
  }

  /** The goroutine of q is about to fail its children, or none of them is blocked any more. */
  ghost predicate PassedOn(g: Graph, s: Sys, q: int) {
    At(s, q, FailingDependents) || forall c | c in Kids(g, q) :: !Is(s.status, c, Blocked)
  }

  lemma PassedOnKept(g: Graph, s: Sys, a: Action, q: int)
    requires Control(g, s) && Order(g, s) && Enabled(g, s, a) && Steady(a) && PassedOn(g, s, q)
    ensures PassedOn(g, Apply(g, s, a), q)
  {
    var s' := Apply(g, s, a);
    forall c | c in Kids(g, q) && Is(s'.status, c, Blocked) ensures Is(s.status, c, Blocked) {
      BlockedBefore(g, s, a, c);
    }
    if At(s, q, FailingDependents) { FailingStep(g, s, a, q); }
  }

  lemma FailingStep(g: Graph, s: Sys, a: Action, q: int)
    requires Control(g, s) && Enabled(g, s, a) && Steady(a) && At(s, q, FailingDependents)
    ensures PassedOn(g, Apply(g, s, a), q)
  {
    match a
    case Poll(p) => if p.Launch? { CandidateNotRunning(g, s); }
    case Worker(t, w) =>
    case Sweeping(who, sw) =>
    case Other(o) => SameTasks(g, s, o);
  }

  lemma {:induction false} ReportsArePassedOn(g: Graph, n: nat, r: Run, k: nat, q: int)
    requires SteadyRun(g, n, r) && k <= |r.acts| && q in Reporters(r, k)
    ensures PassedOn(g, r.states[k], q)
  {
    if k > 0 {
      if q in Reporters(r, k - 1) {
        ReportsArePassedOn(g, n, r, k - 1, q);
        SafeAt(g, r, k - 1);
        assert StepOk(g, r, k - 1);
        PassedOnKept(g, r.states[k - 1], r.acts[k - 1], q);
      } else {
        JustReported(g, r, k - 1, q);
      }
    }
  }

  lemma JustReported(g: Graph, r: Run, k: nat, q: int)
    requires Execution(g, r) && k < |r.acts| && q in ReportsIn(r.acts[k])
    ensures PassedOn(g, r.states[k + 1], q)
  {
    assert StepOk(g, r, k);
    assert At(r.states[k + 1], q, FailingDependents);
  }

  /** Nobody outside asks for the dependents of a parent of t. */
  ghost predicate Unasked(g: Graph, r: Run, t: int) {
    forall k | 0 <= k < |r.acts| :: !(r.acts[k].Other? && r.acts[k].o.ExternalCall? && r.acts[k].o.id in Parents(g, t))
  }

  /** No call of UnblockDependents has t before it. */
  ghost predicate Unvisited(g: Graph, sweeps: map<Caller, Sweep>, t: int) {
    forall who | who in sweeps :: !Duty(g, sweeps[who], t)
  }

  lemma UnvisitedKept(g: Graph, s: Sys, a: Action, t: int)
    requires PcsOk(s.status, s.workers) && Enabled(g, s, a) && Steady(a) && Unvisited(g, s.sweeps, t)
    requires !(a.Other? && a.o.ExternalCall? && a.o.id in Parents(g, t))
    requires NotCompleted(Apply(g, s, a).status, Parents(g, t))
    ensures Unvisited(g, Apply(g, s, a).sweeps, t)
  {
    match a
    case Poll(p) =>
    case Worker(u, w) => UnvisitedKeptByWorker(g, s, u, w, t);
    case Sweeping(x, sw) =>
      var s' := ApplySweep(g, s, x, sw);
      forall who | who in s'.sweeps ensures !Duty(g, s'.sweeps[who], t) { assert !Duty(g, s.sweeps[who], t); }
    case Other(o) => UnvisitedKeptByOther(g, s, o, t);
  }

  lemma UnvisitedKeptByWorker(g: Graph, s: Sys, u: int, w: WorkerAct, t: int)
    requires PcsOk(s.status, s.workers) && WorkerEnabled(s, u, w) && Unvisited(g, s.sweeps, t)
    requires NotCompleted(ApplyWorker(g, s, u, w).status, Parents(g, t))
    ensures Unvisited(g, ApplyWorker(g, s, u, w).sweeps, t)
  {
    assert t in Kids(g, u) ==> u in Parents(g, t);
    var s' := ApplyWorker(g, s, u, w);
    assert w == Finish(SawComplete) ==> Is(s'.status, u, Completed);
    forall who | who in s'.sweeps ensures !Duty(g, s'.sweeps[who], t) {
      assert who in s.sweeps ==> !Duty(g, s.sweeps[who], t);
    }
  }

  lemma UnvisitedKeptByOther(g: Graph, s: Sys, o: OtherAct, t: int)
    requires OtherEnabled(s, o) && !o.Crash? && Unvisited(g, s.sweeps, t)
    requires !(o.ExternalCall? && o.id in Parents(g, t))
    requires NotCompleted(s.status, Parents(g, t))
    ensures Unvisited(g, ApplyOther(g, s, o).sweeps, t)
  {
    var sweeps' := SweepsAfter(g, s, o);
    assert ApplyOther(g, s, o).sweeps == sweeps';
    assert forall q | t in Kids(g, q) :: q in Parents(g, t);
    forall who | who in sweeps' ensures !Duty(g, sweeps'[who], t) {
      assert who in s.sweeps ==> !Duty(g, s.sweeps[who], t);
    }
  }

  lemma BlockedKept(g: Graph, s: Sys, a: Action, t: int)
    requires PcsOk(s.status, s.workers) && PollOk(g, s) && Enabled(g, s, a)
    requires Is(s.status, t, Blocked) && Unvisited(g, s.sweeps, t)
    ensures Is(Apply(g, s, a).status, t, Blocked) || exists q :: q in Parents(g, t) && At(s, q, FailingDependents)
  {
    match a
    case Poll(p) => PollKeepsStatus(g, s, p);
    case Worker(u, w) => assert t in Kids(g, u) ==> u in Parents(g, t);
    case Sweeping(who, sw) => assert !Duty(g, s.sweeps[who], t);
    case Other(o) => OtherKeepsStatus(g, s, o);
  }

  lemma {:induction false} FailingReported(g: Graph, n: nat, r: Run, k: nat, q: int)
    requires SteadyRun(g, n, r) && k <= |r.acts| && At(r.states[k], q, FailingDependents)
    ensures q in Reporters(r, k)
  {
    if k > 0 {
      assert StepOk(g, r, k - 1);
      OnlyReportersFail(g, r.states[k - 1], r.acts[k - 1], q);
      if At(r.states[k - 1], q, FailingDependents) { FailingReported(g, n, r, k - 1, q); }
    }
  }

  lemma OnlyReportersFail(g: Graph, s: Sys, a: Action, q: int)
    requires Enabled(g, s, a) && Steady(a)
    ensures At(Apply(g, s, a), q, FailingDependents) ==> At(s, q, FailingDependents) || q in ReportsIn(a)
  {
    if a.Other? { SameTasks(g, s, a.o); }
  }

  ghost predicate Unreported(g: Graph, r: Run, k: nat, t: int)
    requires k <= |r.acts|
  {
    forall q | q in Parents(g, t) :: q !in Reporters(r, k)
  }

  /** As long as no parent of t is completed or has reported FAIL, t stays blocked. */
  lemma {:induction false} StaysBlocked(g: Graph, n: nat, r: Run, k: nat, t: int)
    requires SteadyRun(g, n, r) && k <= |r.acts| && t in g.parents && Parents(g, t) != {} && Unasked(g, r, t)
    requires NotCompleted(r.states[k].status, Parents(g, t)) && Unreported(g, r, k, t)
    ensures Is(r.states[k].status, t, Blocked) && Unvisited(g, r.states[k].sweeps, t)
  {
    if k > 0 {
      SafeAt(g, r, k - 1);
      assert StepOk(g, r, k - 1);
      StillUncompleted(g, r.states[k - 1], r.acts[k - 1], Parents(g, t));
      StaysBlocked(g, n, r, k - 1, t);
      BlockedStep(g, n, r, k - 1, t);
    }
  }

  lemma BlockedStep(g: Graph, n: nat, r: Run, k: nat, t: int)
    requires SteadyRun(g, n, r) && k < |r.acts| && Unasked(g, r, t)
    requires NotCompleted(r.states[k + 1].status, Parents(g, t)) && Unreported(g, r, k, t)
    requires Is(r.states[k].status, t, Blocked) && Unvisited(g, r.states[k].sweeps, t)
    ensures Is(r.states[k + 1].status, t, Blocked) && Unvisited(g, r.states[k + 1].sweeps, t)
  {
    SafeAt(g, r, k);
    assert StepOk(g, r, k);
    UnvisitedKept(g, r.states[k], r.acts[k], t);
    BlockedKept(g, r.states[k], r.acts[k], t);
    NoParentFails(g, n, r, k, t);
  }

  lemma NoParentFails(g: Graph, n: nat, r: Run, k: nat, t: int)
    requires SteadyRun(g, n, r) && k <= |r.acts| && Unreported(g, r, k, t)
    ensures forall q | q in Parents(g, t) :: !At(r.states[k], q, FailingDependents)
  {
    forall q | q in Parents(g, t) ensures !At(r.states[k], q, FailingDependents) {
      if At(r.states[k], q, FailingDependents) { FailingReported(g, n, r, k, q); }
    }
  }

  /** Where a task ends none of whose parents completes, if nobody outside asks for it: failed when one
      of them reported FAIL, and blocked for good when they only erred, were never started, or are
      blocked themselves.  With a completed parent see FailedExactly. */
  lemma FailedOrBlocked(g: Graph, n: nat, r: Run, cuts: seq<nat>, t: int)
    requires LongFair(g, n, r, cuts) && t in g.parents && Parents(g, t) != {} && Unasked(g, r, t)
    requires NotCompleted(r.Last().status, Parents(g, t))
    ensures Is(r.Last().status, t, if Unreported(g, r, |r.acts|, t) then Blocked else Failed)
  {
    var last := |r.acts|;
    if Unreported(g, r, last, t) {
      StaysBlocked(g, n, r, last, t);
    } else {
      var q :| q in Parents(g, t) && q in Reporters(r, last);
      ReportFails(g, n, r, cuts, q, t);
    }
  }

  /** Every child of a task that reported FAIL ends failed. */
  lemma ReportFails(g: Graph, n: nat, r: Run, cuts: seq<nat>, q: int, t: int)
    requires LongFair(g, n, r, cuts) && q in Reporters(r, |r.acts|) && q in Parents(g, t)
    ensures Is(r.Last().status, t, Failed)
  {
    var last, s := |r.acts|, r.Last();
    ReportsArePassedOn(g, n, r, last, q);
    ReportersLose(r, last);
    LongFairSettles(g, n, r, cuts);
    SteadilyAt(g, n, r, last);
    LosersStayOpen(g, s, Losers(r, last));
    assert t in Kids(g, q);
    assert !ParentsDone(g, s.status, t);
  }

  // ----- below a completed and a failed parent

  /** A check of t by UnblockIfReady that finds all parents terminal, when one of them is failed. */
  ghost predicate ChecksLate(g: Graph, s: Sys, a: Action, t: int) {
    && a.Sweeping? && a.sw == CheckParents(t)
    && AllParentsTerminal(g, s.status, t) && SomeParentFailed(g, s.status, t)
  }

  /** A parent reported FAIL, or a check of t came after all its parents were terminal. */
  ghost predicate HasCause(g: Graph, r: Run, k: nat, t: int)
    requires k <= |r.acts| && |r.states| == |r.acts| + 1
  {
    || (exists q :: q in Parents(g, t) && q in Reporters(r, k))
    || (exists m: nat :: m < k && ChecksLate(g, r.states[m], r.acts[m], t))
  }

  /** Between the three statements of UnblockIfReady on t. */
  ghost predicate OnIt(w: Sweep, t: int) {
    match w
    case AllTerminal(_, c) => c == t
    case NoneFailed(_, c) => c == t
    case SomeFailed(_, c) => c == t
    case _ => false
  }

  lemma OnItStep(g: Graph, s: Sys, a: Action, who: Caller, t: int)
    requires Enabled(g, s, a) && who in Apply(g, s, a).sweeps && OnIt(Apply(g, s, a).sweeps[who], t)
    ensures || (who in s.sweeps && OnIt(s.sweeps[who], t))
            || (a == Sweeping(who, CheckParents(t)) && AllParentsTerminal(g, s.status, t))
  {
    if !a.Sweeping? { OtherSweeps(g, s, a, who); }
  }

  lemma {:induction false} FromCheck(g: Graph, r: Run, k: nat, who: Caller, t: int) returns (m: nat)
    requires Execution(g, r) && k < |r.states| && who in r.states[k].sweeps && OnIt(r.states[k].sweeps[who], t)
    ensures m < k && r.acts[m] == Sweeping(who, CheckParents(t)) && AllParentsTerminal(g, r.states[m].status, t)
  {
    assert StepOk(g, r, k - 1);
    OnItStep(g, r.states[k - 1], r.acts[k - 1], who, t);
    m := k - 1;
    if who in r.states[k - 1].sweeps && OnIt(r.states[k - 1].sweeps[who], t) { m := FromCheck(g, r, k - 1, who, t); }
  }

  /** What fails a task that does not lose: a parent's report, or the last statement of a check. */
  lemma FailedStep(g: Graph, s: Sys, a: Action, t: int)
    requires PcsOk(s.status, s.workers) && Enabled(g, s, a)
    ensures Is(Apply(g, s, a).status, t, Failed) ==>
      || Is(s.status, t, Failed) || Loses(a, t)
      || (exists q :: q in Parents(g, t) && At(s, q, FailingDependents))
      || (a.Sweeping? && s.sweeps[a.who].SomeFailed? && s.sweeps[a.who].c == t)
  {
    match a
    case Poll(p) => PollKeepsStatus(g, s, p);
    case Worker(u, w) => assert t in Kids(g, u) ==> u in Parents(g, t);
    case Sweeping(who, sw) =>
    case Other(o) => OtherKeepsStatus(g, s, o);
  }

  lemma WasFailedAt(g: Graph, r: Run, m: nat, k: nat, t: int)
    requires Execution(g, r) && m <= k < |r.states| && t in g.parents
    requires AllParentsTerminal(g, r.states[m].status, t) && SomeParentFailed(g, r.states[k].status, t)
    ensures SomeParentFailed(g, r.states[m].status, t)
  {
    var q :| q in Parents(g, t) && Is(r.states[k].status, q, Failed);
    SafeAt(g, r, m);
    TerminalStays(g, r, m, k, q);
    assert Is(r.states[m].status, q, Failed);
  }

  lemma CauseGrows(g: Graph, r: Run, k: nat, t: int)
    requires 0 < k <= |r.acts| && |r.states| == |r.acts| + 1 && HasCause(g, r, k - 1, t)
    ensures HasCause(g, r, k, t)
  {
    if q :| q in Parents(g, t) && q in Reporters(r, k - 1) { assert q in Reporters(r, k); }
  }

  lemma {:induction false} FailedHasCause(g: Graph, n: nat, r: Run, k: nat, t: int)
    requires SteadyRun(g, n, r) && k < |r.states| && t !in Losers(r, k) && Is(r.states[k].status, t, Failed)
    requires t in g.parents
    ensures HasCause(g, r, k, t)
  {
    assert StepOk(g, r, k - 1);
    if Is(r.states[k - 1].status, t, Failed) {
      FailedHasCause(g, n, r, k - 1, t);
      CauseGrows(g, r, k, t);
    } else {
      NewlyFailed(g, n, r, k - 1, t);
    }
  }

  lemma NewlyFailed(g: Graph, n: nat, r: Run, k: nat, t: int)
    requires SteadyRun(g, n, r) && k < |r.acts| && t in g.parents && !Loses(r.acts[k], t)
    requires !Is(r.states[k].status, t, Failed) && Is(r.states[k + 1].status, t, Failed)
    ensures HasCause(g, r, k + 1, t)
  {
    assert StepOk(g, r, k);
    SafeAt(g, r, k);
    FailedStep(g, r.states[k], r.acts[k], t);
    if q :| q in Parents(g, t) && At(r.states[k], q, FailingDependents) {
      FailingReported(g, n, r, k, q);
      assert q in Reporters(r, k + 1);
    } else {
      CheckedBefore(g, r, k, r.acts[k].who, t);
    }
  }

  lemma CheckedBefore(g: Graph, r: Run, k: nat, who: Caller, t: int)
    requires Execution(g, r) && k < |r.acts| && who in r.states[k].sweeps && t in g.parents
    requires r.states[k].sweeps[who].SomeFailed? && r.states[k].sweeps[who].c == t
    ensures HasCause(g, r, k + 1, t)
  {
    SafeAt(g, r, k);
    assert SweepOk(g, r.states[k].status, r.states[k].sweeps[who]);
    var m := FromCheck(g, r, k, who, t);
    WasFailedAt(g, r, m, k, t);
    assert ChecksLate(g, r.states[m], r.acts[m], t);
  }

  /** The check of t is on its way to failing it. */
  ghost predicate WillFail(sweeps: map<Caller, Sweep>, who: Caller, t: int) {
    who in sweeps && OnIt(sweeps[who], t) && !sweeps[who].NoneFailed?
  }

  lemma WillFailStep(g: Graph, s: Sys, a: Action, who: Caller, t: int)
    requires Control(g, s) && StatusOrder(g, s.status) && Enabled(g, s, a) && Steady(a) && t in g.parents
    requires SomeParentFailed(g, s.status, t) && WillFail(s.sweeps, who, t)
    ensures WillFail(Apply(g, s, a).sweeps, who, t) || Is(Apply(g, s, a).status, t, Failed)
  {
    match a
    case Poll(p) => assert ApplyPoll(g, s, p).sweeps == s.sweeps;
    case Worker(u, w) => WillFailByWorker(g, s, u, w, who, t);
    case Sweeping(x, sw) => if x == who { WillFailBySweep(g, s, who, sw, t); }
    case Other(o) => WillFailByOther(g, s, o, who, t);
  }

  lemma WillFailByWorker(g: Graph, s: Sys, u: int, w: WorkerAct, who: Caller, t: int)
    requires CallersOk(s.workers, s.sweeps) && WorkerEnabled(s, u, w) && WillFail(s.sweeps, who, t)
    ensures WillFail(ApplyWorker(g, s, u, w).sweeps, who, t)
  {
  }

  lemma WillFailByOther(g: Graph, s: Sys, o: OtherAct, who: Caller, t: int)
    requires (Resuming in s.sweeps <==> s.main.ResumeCall?) && OtherEnabled(s, o) && !o.Crash?
    requires WillFail(s.sweeps, who, t)
    ensures WillFail(ApplyOther(g, s, o).sweeps, who, t)
  {
    assert ApplyOther(g, s, o).sweeps == SweepsAfter(g, s, o);
  }

  lemma WillFailBySweep(g: Graph, s: Sys, who: Caller, sw: SweepAct, t: int)
    requires s.status.Keys == g.parents.Keys && StatusOrder(g, s.status) && t in g.parents
    requires SweepEnabled(s.sweeps, who, sw) && SomeParentFailed(g, s.status, t) && WillFail(s.sweeps, who, t)
    ensures WillFail(ApplySweep(g, s, who, sw).sweeps, who, t) || Is(ApplySweep(g, s, who, sw).status, t, Failed)
  {
    NotCleared(g, s.status, t);
  }

  lemma NotCleared(g: Graph, status: map<int, Status>, t: int)
    requires StatusOrder(g, status) && SomeParentFailed(g, status, t) && t in status
    ensures status[t] == Blocked || status[t] == Failed
  {
    assert !ParentsDone(g, status, t);
  }

  lemma {:induction false} CheckFails(g: Graph, n: nat, r: Run, m: nat, k: nat, t: int)
    requires SteadyRun(g, n, r) && m < k <= |r.acts| && t in g.parents && ChecksLate(g, r.states[m], r.acts[m], t)
    ensures Is(r.states[k].status, t, Failed) || WillFail(r.states[k].sweeps, r.acts[m].who, t)
    decreases k
  {
    var s, a := r.states[k - 1], r.acts[k - 1];
    assert StepOk(g, r, k - 1);
    SafeAt(g, r, k - 1);
    if m < k - 1 {
      CheckFails(g, n, r, m, k - 1, t);
      FailedParentStays(g, r, m, k - 1, t);
      if Is(s.status, t, Failed) {
        TerminalStays(g, r, k - 1, k, t);
      } else {
        WillFailStep(g, s, a, r.acts[m].who, t);
      }
    }
  }

  lemma FailedParentStays(g: Graph, r: Run, m: nat, k: nat, t: int)
    requires Execution(g, r) && m <= k < |r.states| && SomeParentFailed(g, r.states[m].status, t)
    ensures SomeParentFailed(g, r.states[k].status, t)
  {
    var q :| q in Parents(g, t) && Is(r.states[m].status, q, Failed);
    TerminalStays(g, r, m, k, q);
  }

  /** A call is in the middle of UnblockIfReady on t. */
  ghost predicate Visited(sweeps: map<Caller, Sweep>, t: int) {
    exists who :: who in sweeps && OnIt(sweeps[who], t)
  }

  /** Where a task ends whose own worker does not lose: failed exactly when a parent reported FAIL or
      some check of it came after all its parents were terminal, one of them failed, unless an outside
      or resumed call is still in the middle of that check. */
  lemma FailedExactly(g: Graph, n: nat, r: Run, cuts: seq<nat>, t: int)
    requires LongFair(g, n, r, cuts) && t in g.parents && t !in Losers(r, |r.acts|)
    ensures Is(r.Last().status, t, Failed) ==> HasCause(g, r, |r.acts|, t)
    ensures HasCause(g, r, |r.acts|, t) ==> Is(r.Last().status, t, Failed) || Visited(r.Last().sweeps, t)
    ensures forall who | who in r.Last().sweeps :: !who.Goroutine?
  {
    var last := |r.acts|;
    LongFairSettles(g, n, r, cuts);
    SafeAt(g, r, last);
    if Is(r.Last().status, t, Failed) { FailedHasCause(g, n, r, last, t); }
    if q :| q in Parents(g, t) && q in Reporters(r, last) { ReportFails(g, n, r, cuts, q, t); }
    if m: nat :| m < last && ChecksLate(g, r.states[m], r.acts[m], t) { CheckFails(g, n, r, m, last, t); }
  }
}
