/** Steady runs of a fleet built from a plan: nobody closes or kills the tracker, and workers may end
    in any way.  The steps left only ever become fewer.  A run is happy when every worker that
    finishes reports COMPLETE. */
module FleetProgress {
  import opened FleetMachine
  import opened FleetSafety
  import opened FleetWakeup

  /** Tasks are numbered 1..n in plan order and edges point to earlier tasks only. */
  ghost predicate PlanGraph(g: Graph, n: nat) {
    && WellFormed(g)
    && (forall t :: t in g.parents <==> 1 <= t <= n)
    && (forall t, q | t in g.parents && q in g.parents[t] :: q < t)
  }

  /** Nobody closes or kills the tracker. */
  ghost predicate Steady(a: Action) {
    a != Other(Close) && a != Other(Crash)
  }

  /** The worker of t gets no attempt, fails, errs or ends undecided. */
  ghost predicate Loses(a: Action, t: int) {
    a.Worker? && a.t == t && (a.w.NoAttempt? || (a.w.Finish? && a.w.o != SawComplete))
  }

  ghost predicate Happy(a: Action) {
    Steady(a) && forall t :: !Loses(a, t)
  }

  ghost predicate SteadyRun(g: Graph, n: nat, r: Run) {
    && PlanGraph(g, n) && Execution(g, r)
    && (forall p | p in r.states[0].leases :: r.states[0].leases[p] in g.parents)
    && forall k | 0 <= k < |r.acts| :: Steady(r.acts[k])
  }

  ghost predicate HappySince(r: Run, i: nat) {
    forall k | i <= k < |r.acts| :: Happy(r.acts[k])
  }

  ghost predicate HappyRun(g: Graph, n: nat, r: Run) {
    SteadyRun(g, n, r) && HappySince(r, 0)
  }

  ghost function LosesIn(a: Action): set<int> {
    if a.Worker? && Loses(a, a.t) then {a.t} else {}
  }

  /** The tasks whose worker has not reported COMPLETE and never will. */
  ghost function Losers(r: Run, k: nat): set<int>
    requires k <= |r.acts|
  {
    if k == 0 then {} else Losers(r, k - 1) + LosesIn(r.acts[k - 1])
  }

  lemma {:induction false} NoLosers(r: Run, i: nat, k: nat)
    requires i <= k <= |r.acts| && HappySince(r, i)
    ensures Losers(r, k) == Losers(r, i)
    decreases k
  {
    if i < k { NoLosers(r, i, k - 1); }
  }

  // ----- what a steady run keeps

  ghost predicate Unstarted(status: map<int, Status>, t: int) {
    Is(status, t, Blocked) || Is(status, t, Pending)
  }

  ghost predicate Parting(pc: WorkerPc) {
    pc == Exiting || pc == Releasing
  }

  /** What has become of task t: it lost, it runs, it was dispatched and is completed, or it was
      never dispatched. */
  ghost predicate FateOk(status: map<int, Status>, workers: map<int, WorkerPc>, launched: multiset<int>,
                         lost: set<int>, t: int)
    requires t in status
  {
    var x := status[t];
    if t in lost then
      t in launched && (x == Active || x == Failed) &&
        (t in workers ==> Parting(workers[t]) || workers[t] == FailingDependents)
    else if t in workers then
      t in launched && (Parting(workers[t]) ==> x == Completed) && workers[t] != FailingDependents
    else if t in launched then
      x == Completed
    else
      x == Blocked || x == Pending || x == Failed
  }

  ghost predicate Fates(status: map<int, Status>, workers: map<int, WorkerPc>, launched: multiset<int>,
                        lost: set<int>) {
    && (forall t | t in status :: FateOk(status, workers, launched, lost, t))
    && lost <= status.Keys
  }

  /** A failure comes from the task's own worker or from a failed parent. */
  ghost predicate FailuresDescend(g: Graph, status: map<int, Status>, lost: set<int>) {
    forall t | Is(status, t, Failed) && t !in lost :: SomeParentFailed(g, status, t)
  }

  ghost predicate Steadily(g: Graph, s: Sys, lost: set<int>) {
    && Safe(g, s) && Awake(g, s) && !s.closed && !s.crashed
    && Fates(s.status, s.workers, s.launched, lost)
    && FailuresDescend(g, s.status, lost)
  }

  lemma FatesKeptByPoll(g: Graph, s: Sys, p: PollAct, lost: set<int>)
    requires Control(g, s) && Fates(s.status, s.workers, s.launched, lost) && PollEnabled(g, s, p)
    ensures var s' := ApplyPoll(g, s, p); Fates(s'.status, s'.workers, s'.launched, lost)
  {
    var s' := ApplyPoll(g, s, p);
    if p.Launch? { CandidateNotRunning(g, s); }
    forall t | t in s'.status ensures FateOk(s'.status, s'.workers, s'.launched, lost, t) {
      assert FateOk(s.status, s.workers, s.launched, lost, t);
    }
  }

  lemma FatesKeptByWorker(g: Graph, s: Sys, t: int, w: WorkerAct, lost: set<int>)
    requires PcsOk(s.status, s.workers) && Fates(s.status, s.workers, s.launched, lost) && WorkerEnabled(s, t, w)
    ensures var s' := ApplyWorker(g, s, t, w); Fates(s'.status, s'.workers, s'.launched, lost + LosesIn(Worker(t, w)))
  {
    var s' := ApplyWorker(g, s, t, w);
    assert PcMatches(s.workers[t], s.status[t]);
    forall u | u in s'.status ensures FateOk(s'.status, s'.workers, s'.launched, lost + LosesIn(Worker(t, w)), u) {
      assert FateOk(s.status, s.workers, s.launched, lost, u);
    }
  }

  lemma FatesKeptBySweep(g: Graph, s: Sys, who: Caller, sw: SweepAct, lost: set<int>)
    requires PcsOk(s.status, s.workers) && Fates(s.status, s.workers, s.launched, lost) &&
      SweepEnabled(s.sweeps, who, sw)
    ensures var s' := ApplySweep(g, s, who, sw); Fates(s'.status, s'.workers, s'.launched, lost)
  {
    var s' := ApplySweep(g, s, who, sw);
    forall t | t in s'.status ensures FateOk(s'.status, s'.workers, s'.launched, lost, t) {
      assert FateOk(s.status, s.workers, s.launched, lost, t);
    }
  }

  lemma FatesKept(g: Graph, s: Sys, a: Action, lost: set<int>)
    requires Control(g, s) && Fates(s.status, s.workers, s.launched, lost) && Enabled(g, s, a) && Steady(a)
    ensures var s' := Apply(g, s, a); Fates(s'.status, s'.workers, s'.launched, lost + LosesIn(a))
  {
    assert !a.Worker? ==> lost + LosesIn(a) == lost;
    match a
    case Poll(p) => FatesKeptByPoll(g, s, p, lost);
    case Worker(t, w) => FatesKeptByWorker(g, s, t, w, lost);
    case Sweeping(who, sw) => FatesKeptBySweep(g, s, who, sw, lost);
    case Other(o) => SameTasks(g, s, o);
  }

  lemma SameTasks(g: Graph, s: Sys, o: OtherAct)
    requires OtherEnabled(s, o) && !o.Crash?
    ensures var s' := ApplyOther(g, s, o); s'.status == s.status && s'.workers == s.workers && s'.launched == s.launched
  {
  }

  lemma FailedByWorker(g: Graph, s: Sys, u: int, w: WorkerAct, t: int)
    requires PcsOk(s.status, s.workers) && WorkerEnabled(s, u, w)
    ensures Is(ApplyWorker(g, s, u, w).status, t, Failed) ==>
      Is(s.status, t, Failed) || Loses(Worker(u, w), t) || SomeParentFailed(g, s.status, t)
  {
    assert PcMatches(s.workers[u], s.status[u]);
    if w.FailDependents? {
      assert t in Kids(g, u) ==> u in Parents(g, t);
      assert Is(s.status, u, Failed);
    }
  }

  lemma FailedBySweep(g: Graph, s: Sys, who: Caller, sw: SweepAct, t: int)
    requires SweepsOk(g, s.status, s.sweeps) && SweepEnabled(s.sweeps, who, sw)
    ensures Is(ApplySweep(g, s, who, sw).status, t, Failed) ==>
      Is(s.status, t, Failed) || SomeParentFailed(g, s.status, t)
  {
    assert SweepOk(g, s.status, s.sweeps[who]);
  }

  /** The step that fails a task is its own worker's, or it has a failed parent. */
  lemma FailedBy(g: Graph, s: Sys, a: Action, t: int)
    requires PcsOk(s.status, s.workers) && SweepsOk(g, s.status, s.sweeps) && Enabled(g, s, a)
    ensures Is(Apply(g, s, a).status, t, Failed) ==>
      Is(s.status, t, Failed) || Loses(a, t) || SomeParentFailed(g, s.status, t)
  {
    match a
    case Poll(p) => PollKeepsStatus(g, s, p);
    case Worker(u, w) => FailedByWorker(g, s, u, w, t);
    case Sweeping(who, sw) => FailedBySweep(g, s, who, sw, t);
    case Other(o) => OtherKeepsStatus(g, s, o);
  }

  lemma PollKeepsStatus(g: Graph, s: Sys, p: PollAct)
    requires PollEnabled(g, s, p)
    ensures ApplyPoll(g, s, p).status == s.status
  {
  }

  lemma OtherKeepsStatus(g: Graph, s: Sys, o: OtherAct)
    requires OtherEnabled(s, o)
    ensures ApplyOther(g, s, o).status == s.status
  {
  }

  lemma FailuresDescendKept(g: Graph, s: Sys, a: Action, lost: set<int>)
    requires PcsOk(s.status, s.workers) && SweepsOk(g, s.status, s.sweeps) && Enabled(g, s, a)
    requires FailuresDescend(g, s.status, lost)
    ensures FailuresDescend(g, Apply(g, s, a).status, lost + LosesIn(a))
  {
    var status' := Apply(g, s, a).status;
    StatusChanges(g, s, a);
    forall t | Is(status', t, Failed) && t !in lost + LosesIn(a) ensures SomeParentFailed(g, status', t) {
      FailedBy(g, s, a, t);
      var q :| q in Parents(g, t) && Is(s.status, q, Failed);
      assert StatusMove(g, s.status, q, status'[q]);
    }
  }

  lemma OpenKept(g: Graph, s: Sys, a: Action)
    requires Enabled(g, s, a) && Steady(a) && !s.closed && !s.crashed
    ensures !Apply(g, s, a).closed && !Apply(g, s, a).crashed
  {
    if a.Other? {
      assert !ApplyOther(g, s, a.o).closed && !ApplyOther(g, s, a.o).crashed;
    } else if a.Poll? {
      assert !ApplyPoll(g, s, a.p).closed && !ApplyPoll(g, s, a.p).crashed;
    }
  }

  lemma SteadilyKept(g: Graph, s: Sys, a: Action, lost: set<int>)
    requires WellFormed(g) && Steadily(g, s, lost) && Enabled(g, s, a) && Steady(a)
    ensures Steadily(g, Apply(g, s, a), lost + LosesIn(a))
  {
    SafeKept(g, s, a);
    AwakeKept(g, s, a);
    OpenKept(g, s, a);
    FatesKept(g, s, a, lost);
    FailuresDescendKept(g, s, a, lost);
  }

  lemma {:induction false} SteadilyAt(g: Graph, n: nat, r: Run, k: nat)
    requires SteadyRun(g, n, r) && k < |r.states|
    ensures Steadily(g, r.states[k], Losers(r, k))
  {
    if k == 0 {
      InitSafe(g, r.states[0]);
      InitAwake(g, r.states[0]);
    } else {
      SteadilyAt(g, n, r, k - 1);
      assert StepOk(g, r, k - 1);
      SteadilyKept(g, r.states[k - 1], r.acts[k - 1], Losers(r, k - 1));
    }
  }

  /** Without a loser nothing fails. */
  lemma {:induction false} NobodyFails(g: Graph, n: nat, status: map<int, Status>, t: int)
    requires PlanGraph(g, n) && FailuresDescend(g, status, {}) && t in g.parents
    ensures !Is(status, t, Failed)
    decreases t
  {
    if Is(status, t, Failed) {
      var q :| q in Parents(g, t) && Is(status, q, Failed);
      NobodyFails(g, n, status, q);
    }
  }

  ghost predicate Finished(g: Graph, s: Sys) {
    forall t | t in g.parents :: Is(s.status, t, Completed)
  }

  // ----- the rank of the whole fleet

  ghost function SweepWeight(g: Graph, w: Sweep): nat {
    match w
    case Listing(id) => 3 * |Kids(g, id)| + 1
    case Children(todo) => 3 * |todo|
    case AllTerminal(todo, _) => 3 * |todo| + 2
    case NoneFailed(todo, _) => 3 * |todo| + 1
    case SomeFailed(todo, _) => 3 * |todo| + 1
  }

  /** Steps left for task t, counting its dispatch and the sweep over its children. */
  ghost function Weight(g: Graph, s: Sys, t: int): nat {
    if t in s.workers then
      match s.workers[t]
      case Spawned => 3 * |Kids(g, t)| + 6
      case Running => 3 * |Kids(g, t)| + 5
      case Notifying => if Goroutine(t) in s.sweeps then 3 + SweepWeight(g, s.sweeps[Goroutine(t)]) else 3
      case FailingDependents => 3
      case Exiting => 2
      case Releasing => 1
    else if Unstarted(s.status, t) then 3 * |Kids(g, t)| + 7
    else 0
  }

  ghost function Rank(g: Graph, s: Sys, n: nat): nat {
    if n == 0 then 0 else Weight(g, s, n) + Rank(g, s, n - 1)
  }

  /** The task whose goroutine or dispatch a step advances. */
  ghost predicate Advances(s: Sys, a: Action, t: int) {
    match a
    case Poll(p) => p.Launch? && s.main.Leasing? && s.main.t == t
    case Worker(u, _) => u == t
    case Sweeping(who, _) => who == Goroutine(t)
    case Other(_) => false
  }

  lemma SweepLighter(g: Graph, status: map<int, Status>, w: Sweep, a: SweepAct)
    requires SweepEnabled(map[Resuming := w], Resuming, a)
    ensures SweepWeight(g, NextSweep(g, status, w, a)) < SweepWeight(g, w)
  {
  }

  lemma AdvancingWorkerIsLighter(g: Graph, s: Sys, t: int, w: WorkerAct)
    requires PcsOk(s.status, s.workers) && CallersOk(s.workers, s.sweeps) && WorkerEnabled(s, t, w)
    ensures Weight(g, ApplyWorker(g, s, t, w), t) < Weight(g, s, t)
  {
    assert PcMatches(s.workers[t], s.status[t]);
  }

  lemma AdvancingIsLighter(g: Graph, s: Sys, a: Action, t: int)
    requires Control(g, s) && Enabled(g, s, a) && Advances(s, a, t)
    ensures Weight(g, Apply(g, s, a), t) < Weight(g, s, t)
  {
    match a
    case Poll(p) => CandidateNotRunning(g, s);
    case Worker(u, w) => AdvancingWorkerIsLighter(g, s, t, w);
    case Sweeping(who, sw) => SweepLighter(g, s.status, s.sweeps[who], sw);
  }

  lemma OthersWeighWorker(g: Graph, s: Sys, t: int, w: WorkerAct, u: int)
    requires WorkerEnabled(s, t, w) && u != t
    ensures Weight(g, ApplyWorker(g, s, t, w), u) <= Weight(g, s, u)
  {
  }

  lemma OthersWeighSweep(g: Graph, s: Sys, who: Caller, sw: SweepAct, u: int)
    requires SweepEnabled(s.sweeps, who, sw) && who != Goroutine(u)
    ensures Weight(g, ApplySweep(g, s, who, sw), u) <= Weight(g, s, u)
  {
  }

  lemma OthersWeighOther(g: Graph, s: Sys, o: OtherAct, u: int)
    requires OtherEnabled(s, o) && !o.Crash?
    ensures Weight(g, ApplyOther(g, s, o), u) == Weight(g, s, u)
  {
    var s' := ApplyOther(g, s, o);
    assert s'.workers == s.workers && s'.status == s.status;
    assert s'.sweeps == SweepsAfter(g, s, o);
  }

  lemma OthersWeighPoll(g: Graph, s: Sys, p: PollAct, u: int)
    requires PollEnabled(g, s, p) && !(p.Launch? && s.main.t == u)
    ensures Weight(g, ApplyPoll(g, s, p), u) == Weight(g, s, u)
  {
  }

  lemma OthersWeigh(g: Graph, s: Sys, a: Action, t: int)
    requires Enabled(g, s, a) && Steady(a) && !Advances(s, a, t)
    ensures Weight(g, Apply(g, s, a), t) <= Weight(g, s, t)
  {
    match a
    case Poll(p) => OthersWeighPoll(g, s, p, t);
    case Worker(u, w) => OthersWeighWorker(g, s, u, w, t);
    case Sweeping(who, sw) => OthersWeighSweep(g, s, who, sw, t);
    case Other(o) => OthersWeighOther(g, s, o, t);
  }

  lemma {:induction false} RankStep(g: Graph, s: Sys, a: Action, n: nat)
    requires Control(g, s) && Enabled(g, s, a) && Steady(a)
    ensures Rank(g, Apply(g, s, a), n) <= Rank(g, s, n)
    ensures (exists t :: 1 <= t <= n && Advances(s, a, t)) ==> Rank(g, Apply(g, s, a), n) < Rank(g, s, n)
  {
    if n > 0 {
      RankStep(g, s, a, n - 1);
      if Advances(s, a, n) { AdvancingIsLighter(g, s, a, n); } else { OthersWeigh(g, s, a, n); }
    }
  }

  lemma RankAt(g: Graph, n: nat, r: Run, k: nat)
    requires SteadyRun(g, n, r) && k < |r.acts|
    ensures Rank(g, r.states[k + 1], n) <= Rank(g, r.states[k], n)
    ensures (exists t :: Advances(r.states[k], r.acts[k], t)) ==> Rank(g, r.states[k + 1], n) < Rank(g, r.states[k], n)
  {
    SteadilyAt(g, n, r, k);
    assert StepOk(g, r, k);
    RankStep(g, r.states[k], r.acts[k], n);
    if t :| Advances(r.states[k], r.acts[k], t) { AdvancerIsTask(g, r.states[k], r.acts[k], t); }
  }

  lemma AdvancerIsTask(g: Graph, s: Sys, a: Action, t: int)
    requires Control(g, s) && Enabled(g, s, a) && Advances(s, a, t)
    ensures t in g.parents
  {
  }

  lemma {:induction false} RankMonotone(g: Graph, n: nat, r: Run, i: nat, j: nat)
    requires SteadyRun(g, n, r) && i <= j < |r.states|
    ensures Rank(g, r.states[j], n) <= Rank(g, r.states[i], n)
    decreases j
  {
    if i < j {
      RankMonotone(g, n, r, i, j - 1);
      RankAt(g, n, r, j - 1);
    }
  }

  /** One advancing step anywhere between i and j makes the rank smaller. */
  lemma RankDrops(g: Graph, n: nat, r: Run, i: nat, k: nat, j: nat, t: int)
    requires SteadyRun(g, n, r) && i <= k < j < |r.states| && Advances(r.states[k], r.acts[k], t)
    ensures Rank(g, r.states[j], n) < Rank(g, r.states[i], n)
  {
    RankMonotone(g, n, r, i, k);
    RankMonotone(g, n, r, k + 1, j);
    RankAt(g, n, r, k);
  }

  lemma {:induction false} ZeroRank(g: Graph, s: Sys, n: nat)
    ensures Rank(g, s, n) == 0 <==> forall t | 1 <= t <= n :: Weight(g, s, t) == 0
  {
    if n > 0 { ZeroRank(g, s, n - 1); }
  }

  lemma ZeroWeight(g: Graph, n: nat, s: Sys, t: int)
    requires PlanGraph(g, n) && Steadily(g, s, {}) && t in g.parents && Weight(g, s, t) == 0
    ensures t !in s.workers && Is(s.status, t, Completed) && s.launched[t] == 1
  {
    Weightless(g, s, t);
    assert FateOk(s.status, s.workers, s.launched, {}, t);
    NobodyFails(g, n, s.status, t);
  }

  lemma Weightless(g: Graph, s: Sys, t: int)
    requires Weight(g, s, t) == 0
    ensures t !in s.workers && !Unstarted(s.status, t)
  {
  }

  /** Rank zero means: everything completed, nobody running, every task dispatched exactly once. */
  lemma RankZeroIsDone(g: Graph, n: nat, s: Sys)
    requires PlanGraph(g, n) && Steadily(g, s, {})
    ensures Rank(g, s, n) == 0 <==> Finished(g, s) && s.workers == map[]
    ensures Rank(g, s, n) == 0 ==> forall t | 1 <= t <= n :: s.launched[t] == 1
  {
    ZeroRank(g, s, n);
    if Finished(g, s) && s.workers == map[] {
      forall t | 1 <= t <= n ensures Weight(g, s, t) == 0 { assert t in g.parents; }
    }
    if Rank(g, s, n) == 0 {
      forall t | t in g.parents ensures t !in s.workers && Is(s.status, t, Completed) && s.launched[t] == 1 {
        ZeroWeight(g, n, s, t);
      }
      assert s.workers == map[] by {
        forall t ensures t !in s.workers { assert t in s.workers ==> t in g.parents; }
      }
    }
  }
}
