/** Where the fleet's progress ends: leases that outlive their task, and plans whose paths do not
    survive the comma-joined column. */
module FleetLimits {
  import opened FleetMachine
  import opened Sets
  import opened FleetSafety
  import opened FleetPlan
  import opened PathText
  import opened Pieces

  // ----- leases that outlive their task

  /** h has started and is not running, yet holds path p. */
  ghost predicate Stranded(s: Sys, h: int, p: string) {
    Started(s.status, h) && h !in s.workers && p in s.leases && s.leases[p] == h
  }

  /** A step that strands h: its parent's goroutine fails it, a sweep that found a failed parent
      fails it, both while it is blocked and holds the path since the plan was built; or the process
      dies under its goroutine. */
  ghost predicate Strands(g: Graph, s: Sys, a: Action, h: int, p: string) {
    && p in s.leases && s.leases[p] == h
    && match a
       case Worker(q, w) => w.FailDependents? && h in Kids(g, q) && Is(s.status, h, Blocked)
       case Sweeping(who, sw) =>
         sw.Write? && who in s.sweeps && s.sweeps[who].SomeFailed? && s.sweeps[who].c == h && Is(s.status, h, Blocked)
       case Other(o) => o.Crash? && h in s.workers && Started(s.status, h)
       case Poll(_) => false
  }

  lemma StrandedByPoll(g: Graph, s: Sys, x: PollAct, h: int, p: string)
    requires PollOk(g, s) && PollEnabled(g, s, x)
    ensures Stranded(ApplyPoll(g, s, x), h, p) <==> Stranded(s, h, p)
  {
  }

  lemma StrandedByWorker(g: Graph, s: Sys, t: int, w: WorkerAct, h: int, p: string)
    requires PcsOk(s.status, s.workers) && WorkerEnabled(s, t, w)
    ensures Stranded(ApplyWorker(g, s, t, w), h, p) <==> Stranded(s, h, p) || Strands(g, s, Worker(t, w), h, p)
  {
    if w.FailDependents? { StrandedByFailure(g, s, t, h, p); } else { NotStrandedByWorker(g, s, t, w, h, p); }
  }

  lemma StrandedByFailure(g: Graph, s: Sys, t: int, h: int, p: string)
    requires PcsOk(s.status, s.workers) && WorkerEnabled(s, t, FailDependents)
    ensures Stranded(ApplyWorker(g, s, t, FailDependents), h, p) <==>
      Stranded(s, h, p) || Strands(g, s, Worker(t, FailDependents), h, p)
  {
    assert h in s.workers ==> PcMatches(s.workers[h], s.status[h]);
  }

  lemma NotStrandedByWorker(g: Graph, s: Sys, t: int, w: WorkerAct, h: int, p: string)
    requires PcsOk(s.status, s.workers) && WorkerEnabled(s, t, w) && !w.FailDependents?
    ensures Stranded(ApplyWorker(g, s, t, w), h, p) <==> Stranded(s, h, p)
  {
    assert PcMatches(s.workers[t], s.status[t]);
    assert h != t ==> (Started(WorkerStatus(g, s.status, t, w), h) <==> Started(s.status, h));
  }

  lemma StrandedBySweep(g: Graph, s: Sys, who: Caller, sw: SweepAct, h: int, p: string)
    requires PcsOk(s.status, s.workers) && SweepEnabled(s.sweeps, who, sw)
    ensures Stranded(ApplySweep(g, s, who, sw), h, p) <==> Stranded(s, h, p) || Strands(g, s, Sweeping(who, sw), h, p)
  {
    assert h in s.workers ==> PcMatches(s.workers[h], s.status[h]);
  }

  lemma StrandedByOther(g: Graph, s: Sys, o: OtherAct, h: int, p: string)
    requires OtherEnabled(s, o)
    ensures Stranded(ApplyOther(g, s, o), h, p) <==> Stranded(s, h, p) || Strands(g, s, Other(o), h, p)
  {
    var s' := ApplyOther(g, s, o);
    assert s'.status == s.status && s'.leases == s.leases && s'.workers == if o.Crash? then map[] else s.workers;
  }

  /** A lease is stranded after a step exactly when it was before or the step strands it. */
  lemma StrandedStep(g: Graph, s: Sys, a: Action, h: int, p: string)
    requires PcsOk(s.status, s.workers) && PollOk(g, s) && Enabled(g, s, a)
    ensures Stranded(Apply(g, s, a), h, p) <==> Stranded(s, h, p) || Strands(g, s, a, h, p)
  {
    match a
    case Poll(x) => StrandedByPoll(g, s, x, h, p);
    case Worker(t, w) => StrandedByWorker(g, s, t, w, h, p);
    case Sweeping(who, sw) => StrandedBySweep(g, s, who, sw, h, p);
    case Other(o) => StrandedByOther(g, s, o, h, p);
  }

  /** Over every execution: leases end with their task exactly as long as no step strands one. */
  lemma {:induction false} StrandedExactly(g: Graph, r: Run, k: nat, h: int, p: string)
    requires Execution(g, r) && k < |r.states|
    ensures Stranded(r.states[k], h, p) <==> exists i :: 0 <= i < k && Strands(g, r.states[i], r.acts[i], h, p)
  {
    if k > 0 {
      StrandedExactly(g, r, k - 1, h, p);
      SafeAt(g, r, k - 1);
      assert StepOk(g, r, k - 1);
      StrandedStep(g, r.states[k - 1], r.acts[k - 1], h, p);
    }
  }

  /** Once stranded, a lease stays for good: neither its task nor any other that owns the path is
      ever dispatched again. */
  lemma StrandedForever(g: Graph, r: Run, k: nat, j: nat, h: int, p: string, t: int)
    requires Execution(g, r) && k <= j < |r.states| && Stranded(r.states[k], h, p) && p in Paths(g, t)
    ensures Stranded(r.states[j], h, p) && t !in r.states[j].workers && h !in r.states[j].workers
  {
    StrandedExactly(g, r, k, h, p);
    StrandedExactly(g, r, j, h, p);
    SafeAt(g, r, j);
  }

  /** A crash strands every path of every goroutine that has passed its active write. */
  lemma CrashStrands(g: Graph, s: Sys, t: int, p: string)
    requires Safe(g, s) && t in s.workers && s.workers[t] != Spawned && p in Paths(g, t)
    ensures Strands(g, s, Other(Crash), t, p) && Stranded(Apply(g, s, Other(Crash)), t, p)
  {
    assert PcMatches(s.workers[t], s.status[t]) && OwnsUpTo(g, s.leases, t, |Paths(g, t)|);
    StrandedByOther(g, s, Crash, t, p);
  }

  // ----- paths that do not survive the comma-joined column

  const UNTRIMMED := [PlanTask([], [" x"]), PlanTask([1], ["x"])]
  const INDEPENDENT := [PlanTask([], [" x"]), PlanTask([], ["x"])]

  lemma UntrimmedReads()
    ensures ReadPaths(UNTRIMMED, 1) == ["x"] && ReadPaths(UNTRIMMED, 2) == ["x"]
    ensures ReadPaths(INDEPENDENT, 1) == ["x"] && ReadPaths(INDEPENDENT, 2) == ["x"]
  {
    assert TrimSpace(" x") == "x" by { assert " x"[1..] == "x"; }
    OnePath(" x");
    OnePath("x");
  }

  lemma OnePath(p: string)
    requires ',' !in p && TrimSpace(p) != ""
    ensures PathsOf(Join([p], ',')) == [TrimSpace(p)]
  {
    SplitWithoutSep(p, ',');
    KeptOne(p);
  }

  lemma KeptOne(p: string)
    requires TrimSpace(p) != ""
    ensures Kept([p]) == [TrimSpace(p)]
  {
    assert [p][..0] == [];
  }

  lemma FirstX(plan: seq<PlanTask>)
    requires plan == UNTRIMMED || plan == INDEPENDENT
    ensures FirstDeclarer(plan, 2, "x") && forall h :: FirstDeclarer(plan, h, "x") ==> h == 2
  {
    assert plan[0].owned == [" x"] && plan[1].owned == ["x"];
    assert "x" in plan[1].owned;
    assert Declares(plan, 2, "x") && !Declares(plan, 1, "x");
  }

  lemma UntrimmedEdge()
    ensures |UNTRIMMED| == 2 && 1 in PlanParents(UNTRIMMED, 2)
  {
    assert UNTRIMMED[1].dependsOn == [1];
  }

  lemma TwoStuck(plan: seq<PlanTask>)
    requires |plan| == 2 && ReadPaths(plan, 1) == ["x"] && FirstDeclarer(plan, 2, "x") && 1 in PlanParents(plan, 2)
    ensures StuckPlan(plan, {2}, {1, 2})
  {
    var holders := {2};
    assert 2 in holders && PlanWithheld(plan, holders, 1, ReadPaths(plan, 1)[0]);
  }

  /** A task whose one path only it declares contends with nobody. */
  lemma OwnPathIsFree(plan: seq<PlanTask>, holders: set<int>, m: int, p: string)
    requires ReadPaths(plan, m) == [p] && forall h :: FirstDeclarer(plan, h, p) ==> h == m || h !in holders
    ensures !PlanContends(plan, holders, m) && !PlanContendsFirst(plan, holders, m)
  {
    assert !PlanWithheld(plan, holders, m, p);
  }

  lemma TwoFree(plan: seq<PlanTask>, holders: set<int>, tasks: set<int>, p: string)
    requires |plan| == 2 && ReadPaths(plan, 1) == [p] && ReadPaths(plan, 2) == [p]
    requires forall h :: FirstDeclarer(plan, h, p) ==> h == 2
    requires PlanParents(plan, 1) == {} && PlanParents(plan, 2) == {}
    ensures !StuckPlan(plan, holders, tasks)
  {
    OwnPathIsFree(plan, holders, 2, p);
    if 2 !in holders { OwnPathIsFree(plan, holders, 1, p); }
    FreeIsNotStuck(plan, holders, tasks);
  }

  lemma FreeIsNotStuck(plan: seq<PlanTask>, holders: set<int>, tasks: set<int>)
    requires |plan| == 2 && PlanParents(plan, 1) == {} && PlanParents(plan, 2) == {}
    requires !PlanContends(plan, holders, 2) && !PlanContendsFirst(plan, holders, 2)
    requires 2 in holders || !PlanContends(plan, holders, 1)
    ensures !StuckPlan(plan, holders, tasks)
  {
    assert !PlanWaits(plan, tasks, 1) && !PlanWaits(plan, tasks, 2);
    assert !PlanWaits(plan, {}, 1) && !PlanWaits(plan, {}, 2);
    if tasks != {} {
      var x := Element(tasks);
      assert x == 1 || x == 2 || !(1 <= x <= |plan|);
    }
  }

  /** Task 1 declares " x", poll reads "x", and "x" went to task 2, which waits for task 1. */
  lemma UntrimmedIsStuck()
    ensures StuckPlan(UNTRIMMED, {2}, {1, 2})
  {
    UntrimmedReads();
    FirstX(UNTRIMMED);
    UntrimmedEdge();
    TwoStuck(UNTRIMMED);
  }

  /** That plan never dispatches anything: trimming is not done where the first leases are taken. */
  lemma UntrimmedPathStarvesFleet(maxWorkers: int, r: Run, k: nat, t: int)
    requires Execution(GraphOf(UNTRIMMED, maxWorkers), r) && PlanStart(UNTRIMMED, maxWorkers, r.states[0])
    requires k < |r.states| && 1 <= t <= 2
    ensures t !in r.states[k].launched && t !in r.states[k].workers && !Is(r.states[k].status, t, Completed)
  {
    UntrimmedIsStuck();
    StuckEntryNeverRuns(UNTRIMMED, maxWorkers, r, k, {}, {2}, {1, 2}, t);
  }

  /** Without the edge the paths are read out of order too, yet nothing is stuck: task 2 runs first. */
  lemma OutOfOrderMayComplete(holders: set<int>, tasks: set<int>)
    ensures !ReadInOrder(INDEPENDENT) && !StuckPlan(INDEPENDENT, holders, tasks)
  {
    UntrimmedReads();
    FirstX(INDEPENDENT);
    assert Reads(INDEPENDENT, 1, "x");
    NoParents();
    TwoFree(INDEPENDENT, holders, tasks, "x");
  }

  lemma NoParents()
    ensures PlanParents(INDEPENDENT, 1) == {} && PlanParents(INDEPENDENT, 2) == {}
  {
    assert INDEPENDENT[0].dependsOn == [] && INDEPENDENT[1].dependsOn == [];
  }
}
