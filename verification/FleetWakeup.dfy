/** No lost wake-up at a fan-in: the last parent to complete leaves somebody who still owes the
    child a check, whatever the interleaving of the split reads of UnblockIfReady. */
module FleetWakeup {
  import opened FleetMachine
  import opened FleetSafety

  /** The sweep has not finished with child c. */
  ghost predicate Duty(g: Graph, w: Sweep, c: int) {
    match w
    case Listing(id) => c in Kids(g, id)
    case Children(todo) => c in todo
    case AllTerminal(todo, x) => c in todo || c == x
    case NoneFailed(todo, x) => c in todo || c == x
    case SomeFailed(todo, x) => c in todo || c == x
  }

  ghost predicate OwedBy(g: Graph, sweeps: map<Caller, Sweep>, who: Caller, c: int) {
    who in sweeps && Duty(g, sweeps[who], c)
  }

  /** Some parent's goroutine has written completed and has not finished checking c. */
  ghost predicate Owed(g: Graph, s: Sys, c: int) {
    exists q :: q in Parents(g, c) && OwedBy(g, s.sweeps, Goroutine(q), c)
  }

  ghost predicate Waiting(g: Graph, s: Sys, c: int) {
    Is(s.status, c, Blocked) && ParentsDone(g, s.status, c)
  }

  ghost predicate Awake(g: Graph, s: Sys) {
    forall c | Waiting(g, s, c) :: Owed(g, s, c)
  }

  /** A sweep keeps its duty to a waiting child until it has unblocked it. */
  lemma DutyKept(g: Graph, status: map<int, Status>, w: Sweep, a: SweepAct, c: int)
    requires SweepEnabled(map[Resuming := w], Resuming, a)
    requires Duty(g, w, c) && ParentsDone(g, status, c) && Is(status, c, Blocked)
    ensures Duty(g, NextSweep(g, status, w, a), c) || (a.Write? && w.c == c)
  {
  }

  lemma OwedByKept(g: Graph, s: Sys, a: Action, who: Caller, c: int)
    requires CallersOk(s.workers, s.sweeps) && (Resuming in s.sweeps <==> s.main.ResumeCall?) && Enabled(g, s, a)
    requires OwedBy(g, s.sweeps, who, c)
    requires Waiting(g, s, c) && Is(Apply(g, s, a).status, c, Blocked) && a != Other(Crash)
    ensures OwedBy(g, Apply(g, s, a).sweeps, who, c)
  {
    match a
    case Poll(p) => assert ApplyPoll(g, s, p).sweeps == s.sweeps;
    case Worker(t, w) => OwedByKeptByWorker(g, s, t, w, who, c);
    case Sweeping(x, sw) => if x == who { DutyKept(g, s.status, s.sweeps[who], sw, c); }
    case Other(o) => OwedByKeptByOther(g, s, o, who, c);
  }

  lemma OwedByKeptByWorker(g: Graph, s: Sys, t: int, w: WorkerAct, who: Caller, c: int)
    requires CallersOk(s.workers, s.sweeps) && WorkerEnabled(s, t, w) && OwedBy(g, s.sweeps, who, c)
    ensures OwedBy(g, ApplyWorker(g, s, t, w).sweeps, who, c)
  {
  }

  lemma OwedByKeptByOther(g: Graph, s: Sys, o: OtherAct, who: Caller, c: int)
    requires (Resuming in s.sweeps <==> s.main.ResumeCall?) && OtherEnabled(s, o) && !o.Crash?
    requires OwedBy(g, s.sweeps, who, c)
    ensures OwedBy(g, ApplyOther(g, s, o).sweeps, who, c)
  {
    assert ApplyOther(g, s, o).sweeps == SweepsAfter(g, s, o);
  }

  /** The step that completes the last parent takes the duty on. */
  lemma LastParent(g: Graph, s: Sys, a: Action, c: int)
    requires WellFormed(g) && Control(g, s) && Enabled(g, s, a)
    requires !ParentsDone(g, s.status, c) && Waiting(g, Apply(g, s, a), c)
    ensures Owed(g, Apply(g, s, a), c)
  {
    var s' := Apply(g, s, a);
    var q :| q in Parents(g, c) && !Is(s.status, q, Completed);
    assert Is(s'.status, q, Completed);
    CompletedBy(g, s, a, q);
    assert OwedBy(g, s'.sweeps, Goroutine(q), c);
  }

  lemma CompletedBy(g: Graph, s: Sys, a: Action, q: int)
    requires Enabled(g, s, a)
    requires !Is(s.status, q, Completed) && Is(Apply(g, s, a).status, q, Completed)
    ensures a == Worker(q, Finish(SawComplete))
  {
  }

  lemma BlockedBefore(g: Graph, s: Sys, a: Action, c: int)
    requires Control(g, s) && Order(g, s) && Enabled(g, s, a) && Is(Apply(g, s, a).status, c, Blocked)
    ensures Is(s.status, c, Blocked)
  {
    StatusChanges(g, s, a);
    assert StatusMove(g, s.status, c, Apply(g, s, a).status[c]);
  }

  lemma AwakeKept(g: Graph, s: Sys, a: Action)
    requires WellFormed(g) && Safe(g, s) && Awake(g, s) && Enabled(g, s, a) && a != Other(Crash)
    ensures Awake(g, Apply(g, s, a))
  {
    var s' := Apply(g, s, a);
    forall c | Waiting(g, s', c) ensures Owed(g, s', c) {
      if ParentsDone(g, s.status, c) {
        BlockedBefore(g, s, a, c);
        assert Waiting(g, s, c);
        var q :| q in Parents(g, c) && OwedBy(g, s.sweeps, Goroutine(q), c);
        OwedByKept(g, s, a, Goroutine(q), c);
      } else {
        LastParent(g, s, a, c);
      }
    }
  }

  lemma InitAwake(g: Graph, s: Sys)
    requires WellFormed(g) && Init(g, s)
    ensures Awake(g, s)
  {
    forall c ensures !Waiting(g, s, c) {
      if Waiting(g, s, c) {
        forall q ensures q !in Parents(g, c) {
          assert q in Parents(g, c) ==> Is(s.status, q, Completed);
        }
      }
    }
  }

  lemma CrashFlagStays(g: Graph, s: Sys, a: Action)
    requires Enabled(g, s, a)
    ensures s.crashed || a == Other(Crash) ==> Apply(g, s, a).crashed
  {
    if a.Poll? {
      assert ApplyPoll(g, s, a.p).crashed == s.crashed;
    } else if a.Other? {
      assert ApplyOther(g, s, a.o).crashed == (s.crashed || a.o.Crash?);
    }
  }

  /** In every interleaving without a crash, a task that is still blocked although all its
      parents are completed is owed a check by one of their goroutines. */
  lemma {:induction false} NoLostWakeup(g: Graph, r: Run, k: nat)
    requires Execution(g, r) && k < |r.states| && !r.states[k].crashed
    ensures Awake(g, r.states[k])
  {
    if k == 0 {
      InitAwake(g, r.states[0]);
    } else {
      assert StepOk(g, r, k - 1);
      CrashFlagStays(g, r.states[k - 1], r.acts[k - 1]);
      NoLostWakeup(g, r, k - 1);
      SafeAt(g, r, k - 1);
      AwakeKept(g, r.states[k - 1], r.acts[k - 1]);
    }
  }
}
