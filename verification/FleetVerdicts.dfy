/** What a task's status says about its past: which step of its goroutine wrote it. */
module FleetVerdicts {
  import opened FleetMachine
  import opened FleetSafety
  import opened FleetWakeup

  /** A goroutine that gets no attempt, whose run errs or reports FAIL, leaves its task failed, then
      and in every later state, restarts included. */
  lemma LosesForGood(g: Graph, r: Run, i: nat, k: nat, t: int)
    requires Execution(g, r) && i < k < |r.states|
    requires r.acts[i] == Worker(t, NoAttempt) || r.acts[i] == Worker(t, Finish(RunError))
          || r.acts[i] == Worker(t, Finish(SawFail))
    ensures Is(r.states[k].status, t, Failed)
  {
    SafeAt(g, r, i);
    assert StepOk(g, r, i);
    assert Is(r.states[i + 1].status, t, Failed);
    TerminalStays(g, r, i + 1, k, t);
  }

  /** A task is completed exactly when its goroutine once saw COMPLETE. */
  lemma {:induction false} CompletedExactly(g: Graph, r: Run, k: nat, t: int)
    requires Execution(g, r) && k < |r.states|
    ensures Is(r.states[k].status, t, Completed) <==>
      exists i: nat :: i < k && r.acts[i] == Worker(t, Finish(SawComplete))
  {
    if k > 0 {
      CompletedExactly(g, r, k - 1, t);
      CompletedStep(g, r, k - 1, t);
    }
  }

  lemma CompletedStep(g: Graph, r: Run, k: nat, t: int)
    requires Execution(g, r) && k < |r.acts|
    ensures Is(r.states[k + 1].status, t, Completed) <==>
      Is(r.states[k].status, t, Completed) || r.acts[k] == Worker(t, Finish(SawComplete))
  {
    SafeAt(g, r, k);
    assert StepOk(g, r, k);
    if Is(r.states[k].status, t, Completed) {
      TerminalStays(g, r, k, k + 1, t);
    } else if Is(r.states[k + 1].status, t, Completed) {
      CompletedBy(g, r.states[k], r.acts[k], t);
    }
  }

  /** Active, and no goroutine is left that will settle it. */
  ghost predicate Orphaned(s: Sys, t: int) {
    Is(s.status, t, Active) && !At(s, t, Running)
  }

  /** The step after which nobody settles t any more though it is active: its run made no decision, or
      the process died under it. */
  ghost predicate Orphans(s: Sys, a: Action, t: int) {
    a == Worker(t, Finish(Undecided)) || (a == Other(Crash) && Is(s.status, t, Active))
  }

  lemma OrphanedStep(g: Graph, s: Sys, a: Action, t: int)
    requires Control(g, s) && Enabled(g, s, a)
    ensures Orphaned(Apply(g, s, a), t) <==> Orphaned(s, t) || Orphans(s, a, t)
  {
    match a
    case Poll(p) => OrphanedByPoll(g, s, p, t);
    case Worker(u, w) => OrphanedByWorker(g, s, u, w, t);
    case Sweeping(who, sw) => assert ApplySweep(g, s, who, sw).workers == s.workers;
    case Other(o) => OrphanedByOther(g, s, o, t);
  }

  lemma OrphanedByPoll(g: Graph, s: Sys, p: PollAct, t: int)
    requires Control(g, s) && PollEnabled(g, s, p)
    ensures Orphaned(ApplyPoll(g, s, p), t) <==> Orphaned(s, t)
  {
    assert ApplyPoll(g, s, p).status == s.status;
  }

  lemma OrphanedByWorker(g: Graph, s: Sys, u: int, w: WorkerAct, t: int)
    requires PcsOk(s.status, s.workers) && WorkerEnabled(s, u, w)
    ensures Orphaned(ApplyWorker(g, s, u, w), t) <==> Orphaned(s, t) || Orphans(s, Worker(u, w), t)
  {
    assert PcMatches(s.workers[u], s.status[u]);
  }

  lemma OrphanedByOther(g: Graph, s: Sys, o: OtherAct, t: int)
    requires OtherEnabled(s, o)
    ensures Orphaned(ApplyOther(g, s, o), t) <==> Orphaned(s, t) || Orphans(s, Other(o), t)
  {
    var s' := ApplyOther(g, s, o);
    assert s'.status == s.status && s'.workers == if o.Crash? then map[] else s.workers;
  }

  /** In every state of every execution, a task is active without a goroutine that will settle it
      exactly when its run once ended undecided or the process once died while it was active. */
  lemma {:induction false} OrphanedExactly(g: Graph, r: Run, k: nat, t: int)
    requires Execution(g, r) && k < |r.states|
    ensures Orphaned(r.states[k], t) <==> exists i: nat :: i < k && Orphans(r.states[i], r.acts[i], t)
  {
    if k > 0 {
      OrphanedExactly(g, r, k - 1, t);
      SafeAt(g, r, k - 1);
      assert StepOk(g, r, k - 1);
      OrphanedStep(g, r.states[k - 1], r.acts[k - 1], t);
    }
  }
}
