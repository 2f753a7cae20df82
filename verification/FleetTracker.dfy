/** The tracker's code, statement by statement: poll, the worker goroutine with its deferred
    clean-up, UnblockDependents and ResumeActiveTasks.  Between any two statements other threads
    take arbitrary steps.  Every method is proved to extend an execution of the state machine,
    so everything proved about executions holds at each of its statements. */
module FleetTracker {
  import opened FleetMachine
  import opened FleetSafety
  import opened FleetProgress
  import opened FleetCompletion
  import opened PathText
  import opened Pieces
  import opened Decisions
  import DagStore

  /** The graph is what the store's tables say; it does not change while the tracker runs. */
  ghost predicate GraphMatches(g: Graph, dep: map<int, int>, owned: map<int, string>, edges: set<(int, int)>) {
    && dep == g.dep
    && g.parents.Keys == owned.Keys
    && (forall e | e in edges :: e.0 in g.parents)
    && (forall t, q | t in g.parents :: q in g.parents[t] <==> (t, q) in edges)
    && (forall t | t in g.parents && t in g.paths :: g.paths[t] == PathsOf(owned[t]))
  }

  lemma ParentRows(g: Graph, dep: map<int, int>, owned: map<int, string>, edges: set<(int, int)>,
                   status: map<int, Status>, c: int)
    requires GraphMatches(g, dep, owned, edges) && c in g.parents
    ensures AllParentsTerminal(g, status, c) <==> DagStore.ParentRowsTerminal(edges, status, c)
    ensures SomeParentFailed(g, status, c) <==> DagStore.SomeParentRowFailed(edges, status, c)
  {
    forall q ensures q in Parents(g, c) <==> (c, q) in edges {}
    if DagStore.ParentRowsTerminal(edges, status, c) {
      forall q | q in Parents(g, c) && q in status ensures Terminal(status[q]) {
        var e := (c, q);
        assert e in edges;
      }
    }
    if AllParentsTerminal(g, status, c) {
      forall e | e in edges && e.0 == c && e.1 in status ensures Terminal(status[e.1]) {
        var q := e.1;
        assert e == (c, q);
        assert q in Parents(g, c);
        assert Terminal(status[q]);
      }
    }
    if SomeParentFailed(g, status, c) {
      var q :| q in Parents(g, c) && Is(status, q, Failed);
      var e := (c, q);
      assert e in edges;
    }
  }

  /** Whose statements a method executes: the holder of the tracker's mutex, or a goroutine. */
  datatype Thread = Holder | TaskOf(t: int)

  /** Actions of the other threads. */
  predicate Foreign(who: Thread, a: Action) {
    && a != Other(Crash)
    && match who
       case Holder =>
         && !a.Poll?
         && (a.Other? ==> a.o.ExternalCall? || a.o.ExternalReturn?)
         && (a.Sweeping? ==> a.who != Resuming)
       case TaskOf(t) =>
         && !(a.Worker? && a.t == t)
         && (a.Sweeping? ==> a.who != Goroutine(t))
  }

  class Tracker {
    const dag: DagStore.Store
    const g: Graph
    var active: set<int>
    var closed: bool

    // control state of the threads
    var workers: map<int, WorkerPc>
    var sweeps: map<Caller, Sweep>
    var main: Main

    // history
    var launched: multiset<int>
    var ran: set<int>
    var crashed: bool
    var needResume: bool
    ghost var run: Run

    function View(): Sys
      reads this, dag
    {
      Sys(dag.status, dag.leases, active, closed, workers, sweeps, main, launched, ran, crashed, needResume)
    }

    ghost predicate GraphIs()
      reads dag
    {
      GraphMatches(g, dag.dep, dag.owned, dag.edges)
    }

    ghost predicate Valid()
      reads this, dag
    {
      GraphIs() && Execution(g, run) && run.Last() == View()
    }

    constructor (dag: DagStore.Store, g: Graph)
      requires WellFormed(g) && GraphMatches(g, dag.dep, dag.owned, dag.edges) && g.parents.Keys == dag.status.Keys
      requires forall t | t in dag.status :: dag.status[t] == if g.parents[t] == {} then Pending else Blocked
      ensures this.dag == dag && this.g == g
      ensures Valid() && main == Idle && run.acts == []
    {
      this.dag, this.g := dag, g;
      active, closed, workers, sweeps, main := {}, false, map[], map[], Idle;
      launched, ran, crashed, needResume := multiset{}, {}, false, false;
      new;
      run := Run([View()], []);
    }

    /** Records the statement just executed as one action of the machine. */
    ghost method Log(a: Action)
      requires GraphIs() && Execution(g, run) && Enabled(g, run.Last(), a) && View() == Apply(g, run.Last(), a)
      modifies this`run
      ensures Valid() && run == Run(old(run.states) + [View()], old(run.acts) + [a])
    {
      Extended(g, run, a, View());
      run := Run(run.states + [View()], run.acts + [a]);
    }

    method Install(s: Sys)
      modifies this`active, this`closed, this`workers, this`sweeps, this`main
      modifies this`launched, this`ran, this`crashed, this`needResume
      modifies dag`status, dag`leases
      ensures View() == s
    {
      dag.status, dag.leases := s.status, s.leases;
      active, closed, workers, sweeps, main := s.active, s.closed, s.workers, s.sweeps, s.main;
      launched, ran, crashed, needResume := s.launched, s.ran, s.crashed, s.needResume;
    }

    method Take(a: Action)
      requires Valid() && Enabled(g, View(), a)
      modifies this, dag`status, dag`leases
      ensures Valid() && Grew(old(run), run) && View() == Apply(g, old(View()), a)
    {
      Install(Apply(g, View(), a));
      Log(a);
    }

    /** Any number of steps of the other threads. */
    method Preempt(who: Thread)
      requires Valid() && (who == Holder ==> main != Idle)
      requires who.TaskOf? ==> who.t in workers
      modifies this, dag`status, dag`leases
      ensures Valid() && Grew(old(run), run)
      ensures Undisturbed(old(View()), View(), who)
    {
      var n: int := *;
      for i := 0 to if n < 0 then 0 else n
        invariant Valid() && Grew(old(run), run)
        invariant Undisturbed(old(View()), View(), who)
      {
        var a: Action := *;
        if Foreign(who, a) && Enabled(g, View(), a) {
          SafeAt(g, run, |run.states| - 1);
          if who == Holder { HolderUndisturbed(g, View(), a); } else { TaskUndisturbed(g, View(), a, who.t); }
          Take(a);
        }
      }
    }

    // ----- poll

    /** One tick: dispatches ready tasks while workers and leases allow.  The caller has the mutex. */
    method Poll(ghost n: nat)
      requires Valid() && main == Idle
      modifies this, dag`status, dag`leases
      ensures Valid() && main == Idle && Grew(old(run), run)
      ensures |run.acts| > |old(run.acts)| && run.acts[|old(run.acts)|] == FleetMachine.Poll(Start)
      // with nobody running and work left, this tick dispatches
      ensures
        HappyRun(g, n, run) && PlanLeases(g, run.states[0].leases) && old(workers) == map[] && !Finished(g, old(View()))
        ==> exists k :: |old(run.acts)| < k < |run.acts| && run.acts[k] == FleetMachine.Poll(Launch)
    {
      PollOnce();
      if HappyRun(g, n, run) && PlanLeases(g, run.states[0].leases) && old(workers) == map[] &&
        !Finished(g, old(View())) {
        var i := |old(run.acts)|;
        assert run.states[i] == old(View());
        var k := QuietPollLaunches(g, n, run, i, |run.states| - 1);
      }
    }

    method PollOnce()
      requires Valid() && main == Idle
      modifies this, dag`status, dag`leases
      ensures Valid() && main == Idle && Grew(old(run), run)
      ensures |run.acts| > |old(run.acts)| && run.acts[|old(run.acts)|] == FleetMachine.Poll(Start)
    {
      var go := StartPoll();
      if !go { return; }
      ghost var started := run;
      var ready := ListReady();
      for i := 0 to |ready|
        invariant Valid() && main == Scanning(Rest(ready, i)) && Grew(started, run)
      {
        RestStep(ready, i);
        var full := ScanNext(ready[i], Rest(ready, i), Rest(ready, i + 1));
        if full { break; }
      }
      EndPoll();
    }

    method ScanNext(t: int, todo: set<int>, rest: set<int>) returns (full: bool)
      requires Valid() && main == Scanning(todo) && t in todo && rest == todo - {t}
      modifies this, dag`status, dag`leases
      ensures Valid() && Grew(old(run), run)
      ensures if full then main == Scanning(todo) && |active| >= g.maxWorkers else main == Scanning(rest)
    {
      Preempt(Holder);
      full := |active| >= g.maxWorkers;
      if !full { TryTask(t, rest); }
    }

    method TryTask(t: int, rest: set<int>)
      requires Valid() && main.Scanning? && t in main.todo && rest == main.todo - {t} && |active| < g.maxWorkers
      modifies this, dag`status, dag`leases
      ensures Valid() && main == Scanning(rest) && Grew(old(run), run)
    {
      var free := PickTask(t, rest);
      if !free { return; }
      var acquiredAll := AcquireAll(rest, t);
      if acquiredAll { ExecuteTask(rest, t); }
    }

    method StartPoll() returns (go: bool)
      requires Valid() && main == Idle
      modifies this
      ensures Valid() && run == Run(old(run.states) + [View()], old(run.acts) + [FleetMachine.Poll(Start)])
      ensures go <==> !closed && |active| < g.maxWorkers
      ensures main == if go then Counted else Idle
    {
      go := !closed && |active| < g.maxWorkers;
      if go { main := Counted; }
      Log(FleetMachine.Poll(Start));
    }

    method ListReady() returns (ready: seq<int>)
      requires Valid() && main == Counted
      modifies this, dag`status, dag`leases
      ensures Valid() && main == Scanning(Rest(ready, 0)) && Grew(old(run), run)
      ensures forall i, j | 0 <= i < j < |ready| :: ready[i] != ready[j]
    {
      Preempt(Holder);
      ready := dag.TasksWithStatus(Pending);
      RestAll(ready, WithStatusSet(dag.status, Pending));
      main := Scanning(Rest(ready, 0));
      Log(FleetMachine.Poll(List));
    }

    method PickTask(t: int, rest: set<int>) returns (free: bool)
      requires Valid() && main.Scanning? && t in main.todo && rest == main.todo - {t} && |active| < g.maxWorkers
      modifies this
      ensures Valid() && Grew(old(run), run)
      ensures free <==> t !in active
      ensures main == if free then Leasing(rest, t, 0) else Scanning(rest)
    {
      free := t !in active;
      main := if free then Leasing(rest, t, 0) else Scanning(rest);
      Log(FleetMachine.Poll(Pick(t)));
    }

    method EndPoll()
      requires Valid() && main.Scanning? && (main.todo == {} || |active| >= g.maxWorkers)
      modifies this
      ensures Valid() && main == Idle && Grew(old(run), run)
    {
      main := Idle;
      Log(FleetMachine.Poll(End));
    }

    /** Leases every owned path of t, or gives back whatever it got. */
    method AcquireAll(rest: set<int>, t: int) returns (acquiredAll: bool)
      requires Valid() && main == Leasing(rest, t, 0)
      modifies this, dag`status, dag`leases
      ensures Valid() && Grew(old(run), run)
      ensures main == if acquiredAll then Leasing(rest, t, |Paths(g, t)|) else Scanning(rest)
      ensures acquiredAll ==> forall p | p in Paths(g, t) :: p in dag.leases && dag.leases[p] == t
    {
      CandidateHasRow(t);
      var pieces := Split(dag.owned[t], ',');
      var acquired := 0;
      acquiredAll := true;
      for j := 0 to |pieces|
        invariant Valid() && Grew(old(run), run)
        invariant acquired == |Kept(pieces[..j])| && main == Leasing(rest, t, acquired)
      {
        acquiredAll, acquired := TryPiece(rest, t, acquired, pieces, j);
        if !acquiredAll { break; }
      }
      assert pieces[..|pieces|] == pieces;
      if acquiredAll { CandidateHolds(t); }
      if !acquiredAll && acquired > 0 { GiveBack(rest, t, acquired); }
    }

    lemma CandidateHolds(t: int)
      requires Valid() && main.Leasing? && main.t == t && main.i == |Paths(g, t)|
      ensures forall p | p in Paths(g, t) :: p in dag.leases && dag.leases[p] == t
    {
      SafeAt(g, run, |run.states| - 1);
    }

    /** One turn of the loop: an empty piece is skipped, a path is leased or refused. */
    method TryPiece(rest: set<int>, t: int, i: nat, pieces: seq<string>, j: nat) returns (ok: bool, acquired: nat)
      requires Valid() && main == Leasing(rest, t, i) && Paths(g, t) == Kept(pieces)
      requires j < |pieces| && i == |Kept(pieces[..j])|
      modifies this, dag`status, dag`leases
      ensures Valid() && Grew(old(run), run)
      ensures if ok then acquired == |Kept(pieces[..j + 1])| && main == Leasing(rest, t, acquired)
              else acquired == i && main == if i == 0 then Scanning(rest) else RollingBack(rest, t, i)
    {
      KeptNext(pieces, j);
      var p := TrimSpace(pieces[j]);
      ok, acquired := true, i;
      if p != "" {
        ok := TryLease(rest, t, i, p);
        if ok { acquired := i + 1; }
      }
    }

    lemma CandidateHasRow(t: int)
      requires Valid() && main.Leasing? && main.t == t
      ensures t in g.parents && t in g.paths && t in dag.owned && Paths(g, t) == Kept(Split(dag.owned[t], ','))
    {
      SafeAt(g, run, |run.states| - 1);
    }

    method TryLease(rest: set<int>, t: int, i: nat, p: string) returns (ok: bool)
      requires Valid() && main == Leasing(rest, t, i) && i < |Paths(g, t)| && Paths(g, t)[i] == p
      modifies this, dag`status, dag`leases
      ensures Valid() && Grew(old(run), run)
      ensures main == if ok then Leasing(rest, t, i + 1) else if i == 0 then Scanning(rest) else RollingBack(rest, t, i)
    {
      Preempt(Holder);
      ok := Acquire(rest, t, i, p);
    }

    method Acquire(rest: set<int>, t: int, i: nat, p: string) returns (ok: bool)
      requires Valid() && main == Leasing(rest, t, i) && i < |Paths(g, t)| && Paths(g, t)[i] == p
      modifies this`main, this`run, dag`leases
      ensures Valid() && Grew(old(run), run)
      ensures main == if ok then Leasing(rest, t, i + 1) else if i == 0 then Scanning(rest) else RollingBack(rest, t, i)
    {
      ok := dag.AcquirePathLease(t, p);
      if ok {
        main := Leasing(rest, t, i + 1);
        Log(FleetMachine.Poll(Lease));
      } else {
        main := if i == 0 then Scanning(rest) else RollingBack(rest, t, i);
        Log(FleetMachine.Poll(Lease));
      }
    }

    /** ReleasePathLeases is called once for every path that had been acquired. */
    method GiveBack(rest: set<int>, t: int, acquired: nat)
      requires Valid() && main == RollingBack(rest, t, acquired) && acquired > 0
      modifies this, dag`status, dag`leases
      ensures Valid() && main == Scanning(rest) && Grew(old(run), run) && t !in dag.leases.Values
    {
      for k := 0 to acquired
        invariant Valid() && Grew(old(run), run) && (k > 0 ==> t !in dag.leases.Values)
        invariant main == if k == acquired then Scanning(rest) else RollingBack(rest, t, acquired - k)
      {
        Preempt(Holder);
        GiveBackOnce(rest, t, acquired - k);
      }
    }

    method GiveBackOnce(rest: set<int>, t: int, k: nat)
      requires Valid() && main == RollingBack(rest, t, k) && k > 0
      modifies this`main, this`run, dag`leases
      ensures Valid() && main == (if k == 1 then Scanning(rest) else RollingBack(rest, t, k - 1)) && Grew(old(run), run)
      ensures t !in dag.leases.Values
    {
      dag.ReleasePathLeases(t);
      main := if k == 1 then Scanning(rest) else RollingBack(rest, t, k - 1);
      Log(FleetMachine.Poll(Unlease));
    }

    method ExecuteTask(rest: set<int>, t: int)
      requires Valid() && main == Leasing(rest, t, |Paths(g, t)|)
      modifies this
      ensures Valid() && main == Scanning(rest) && Grew(old(run), run)
      ensures active == old(active) + {t} && At(View(), t, Spawned)
    {
      ghost var s := View();
      assert Enabled(g, s, FleetMachine.Poll(Launch));
      active, workers := active + {t}, workers[t := Spawned];
      launched, main := launched + multiset{t}, Scanning(rest);
      assert View() == ApplyPoll(g, s, Launch);
      Log(FleetMachine.Poll(Launch));
    }

    // ----- the worker goroutine

    /** The goroutine's body: `result` is what orchestrator.Run gave back.  The first COMPLETE or FAIL
        among its decisions settles the task; without one it stays active. */
    method RunTask(t: int, attemptCreated: bool, result: RunResult)
      requires Valid() && At(View(), t, Spawned)
      modifies this, dag`status, dag`leases
      ensures Valid() && At(View(), t, Exiting) && Grew(old(run), run)
      ensures !attemptCreated || result.Error? ==> Is(dag.status, t, Failed)
      ensures attemptCreated && result.Returned? ==> Settled(result.decisions, t)
    {
      if !attemptCreated {
        WriteStatus(t, NoAttempt);
        return;
      }
      WriteStatus(t, Activate);
      if result.Error? {
        WriteStatus(t, Finish(RunError));
        return;
      }
      Decide(t, result.decisions);
    }

    /** The decisions before i neither complete nor fail the task. */
    ghost predicate NoVerdict(decisions: seq<Decision>, i: nat) {
      i <= |decisions| && forall j | 0 <= j < i :: decisions[j] != COMPLETE && decisions[j] != FAIL
    }

    ghost predicate Settled(decisions: seq<Decision>, t: int)
      reads dag
    {
      && (forall i: nat | i < |decisions| && NoVerdict(decisions, i) ::
            && (decisions[i] == COMPLETE ==> Is(dag.status, t, Completed))
            && (decisions[i] == FAIL ==> Is(dag.status, t, Failed)))
      && (NoVerdict(decisions, |decisions|) ==> Is(dag.status, t, Active))
    }

    /** The loop over the decisions of the run. */
    method Decide(t: int, decisions: seq<Decision>)
      requires Valid() && At(View(), t, Running) && Is(dag.status, t, Active)
      modifies this, dag`status, dag`leases
      ensures Valid() && At(View(), t, Exiting) && Grew(old(run), run)
      ensures Settled(decisions, t)
    {
      for i := 0 to |decisions|
        invariant unchanged(this) && unchanged(dag)
        invariant NoVerdict(decisions, i)
      {
        if decisions[i] == COMPLETE { Complete(t); return; }
        if decisions[i] == FAIL { Fail(t); return; }
      }
      workers := workers[t := Exiting];
      Log(Worker(t, Finish(Undecided)));
    }

    /** The UpdateTaskStatus that ends step w of the goroutine. */
    method WriteStatus(t: int, w: WorkerAct)
      requires Valid() && WorkerEnabled(View(), t, w)
      requires w.Activate? || w.NoAttempt? || (w.Finish? && w.o != Undecided)
      modifies this, dag`status, dag`leases
      ensures Valid() && At(View(), t, NextPc(w)) && Grew(old(run), run)
      ensures w == Finish(SawComplete) ==> Calling(TaskOf(t), Listing(t))
      ensures Is(dag.status, t, Written(w)) && LastAct(old(run), run, Worker(t, w))
    {
      Preempt(TaskOf(t));
      Update(t, w);
    }

    method Update(t: int, w: WorkerAct)
      requires Valid() && WorkerEnabled(View(), t, w)
      requires w.Activate? || w.NoAttempt? || (w.Finish? && w.o != Undecided)
      modifies this`workers, this`ran, this`sweeps, this`run, dag`status
      ensures Valid() && At(View(), t, NextPc(w)) && Grew(old(run), run)
      ensures w == Finish(SawComplete) ==> Calling(TaskOf(t), Listing(t))
      ensures Is(dag.status, t, Written(w)) && LastAct(old(run), run, Worker(t, w))
    {
      HasRow(t);
      dag.UpdateTaskStatus(t, Written(w));
      workers := workers[t := NextPc(w)];
      if w.Activate? { ran := ran + {t}; }
      if w == Finish(SawComplete) { sweeps := sweeps[Goroutine(t) := Listing(t)]; }
      Log(Worker(t, w));
    }

    lemma HasRow(t: int)
      requires Valid() && t in workers
      ensures t in dag.status
    {
      SafeAt(g, run, |run.states| - 1);
    }

    /** A terminal status written in an earlier state of the run is still there. */
    ghost method StatusLasts(earlier: Run, t: int)
      requires Valid() && Grew(earlier, run) && |earlier.states| > 0
      ensures t in earlier.Last().status && Terminal(earlier.Last().status[t]) ==>
        Is(dag.status, t, earlier.Last().status[t])
    {
      if t in earlier.Last().status && Terminal(earlier.Last().status[t]) {
        TerminalStays(g, run, |earlier.states| - 1, |run.states| - 1, t);
      }
    }

    /** Completed is written before the dependents are unblocked, and stays. */
    method Complete(t: int)
      requires Valid() && At(View(), t, Running)
      modifies this, dag`status, dag`leases
      ensures Valid() && At(View(), t, Exiting) && Grew(old(run), run) && Is(dag.status, t, Completed)
      ensures InOrder(old(run), run, Worker(t, Finish(SawComplete)), Worker(t, Return))
    {
      WriteStatus(t, Finish(SawComplete));
      ghost var written := run;
      UnblockDependents(TaskOf(t), t);
      StatusLasts(written, t);
      ReturnToBody(t);
      assert run.acts[|written.acts| - 1] == Worker(t, Finish(SawComplete));
    }

    method ReturnToBody(t: int)
      requires Valid() && Calling(TaskOf(t), Children({}))
      modifies this
      ensures Valid() && At(View(), t, Exiting) && Grew(old(run), run)
      ensures dag.status == old(dag.status) && LastAct(old(run), run, Worker(t, Return))
    {
      sweeps, workers := sweeps - {Goroutine(t)}, workers[t := Exiting];
      Log(Worker(t, Return));
    }

    /** Failed is written before the dependents are failed, and stays. */
    method Fail(t: int)
      requires Valid() && At(View(), t, Running)
      modifies this, dag`status, dag`leases
      ensures Valid() && At(View(), t, Exiting) && Grew(old(run), run) && Is(dag.status, t, Failed)
      ensures InOrder(old(run), run, Worker(t, Finish(SawFail)), Worker(t, FailDependents))
    {
      WriteStatus(t, Finish(SawFail));
      ghost var written := run;
      FailKidsOf(t);
      StatusLasts(written, t);
      assert run.acts[|written.acts| - 1] == Worker(t, Finish(SawFail));
    }

    method FailKidsOf(t: int)
      requires Valid() && At(View(), t, FailingDependents)
      modifies this, dag`status, dag`leases
      ensures Valid() && At(View(), t, Exiting) && LastAct(old(run), run, Worker(t, FailDependents))
    {
      Preempt(TaskOf(t));
      FailDependentsOf(t);
    }

    method FailDependentsOf(t: int)
      requires Valid() && At(View(), t, FailingDependents)
      modifies this`workers, this`run, dag`status
      ensures Valid() && At(View(), t, Exiting) && LastAct(old(run), run, Worker(t, FailDependents))
      ensures dag.status == FailKids(g, old(dag.status), t)
    {
      FailsKids(t);
      dag.FailDependents(t);
      workers := workers[t := Exiting];
      Log(Worker(t, FailDependents));
    }

    lemma KidsByEdges(q: int)
      requires GraphIs()
      ensures forall c :: c in Kids(g, q) <==> (c, q) in dag.edges
    {
    }

    lemma FailsKids(q: int)
      requires GraphIs()
      ensures DagStore.FailRows(dag.edges, dag.status, q) == FailKids(g, dag.status, q)
    {
      KidsByEdges(q);
      var a, b := DagStore.FailRows(dag.edges, dag.status, q), FailKids(g, dag.status, q);
      assert a.Keys == b.Keys;
      forall c | c in a ensures a[c] == b[c] { assert c in Kids(g, q) <==> (c, q) in dag.edges; }
    }

    /** The deferred clean-up, once the goroutine has the mutex: out of the active map first, the
        leases released after. */
    method Leave(t: int)
      requires Valid() && At(View(), t, Exiting) && main == Idle
      modifies this, dag`status, dag`leases
      ensures Valid() && Grew(old(run), run)
      ensures t !in workers && t !in dag.leases.Values
      ensures InOrder(old(run), run, Worker(t, WorkerAct.Leave), Worker(t, Release))
    {
      LeaveActive(t);
      ghost var left := run;
      Preempt(TaskOf(t));
      ReleaseLeases(t);
      assert run.acts[|left.acts| - 1] == Worker(t, WorkerAct.Leave);
    }

    method LeaveActive(t: int)
      requires Valid() && At(View(), t, Exiting) && main == Idle
      modifies this`active, this`workers, this`run
      ensures Valid() && At(View(), t, Releasing) && active == old(active) - {t}
      ensures LastAct(old(run), run, Worker(t, WorkerAct.Leave))
    {
      active, workers := active - {t}, workers[t := Releasing];
      Log(Worker(t, WorkerAct.Leave));
    }

    method ReleaseLeases(t: int)
      requires Valid() && At(View(), t, Releasing)
      modifies this`workers, this`run, dag`leases
      ensures Valid() && Grew(old(run), run)
      ensures t !in workers && t !in dag.leases.Values && LastAct(old(run), run, Worker(t, Release))
    {
      dag.ReleasePathLeases(t);
      workers := workers - {t};
      Log(Worker(t, Release));
    }

    // ----- UnblockDependents

    function CallerOf(who: Thread): Caller {
      match who
      case Holder => Resuming
      case TaskOf(t) => Goroutine(t)
    }

    ghost predicate Calling(who: Thread, w: Sweep)
      reads this
    {
      && CallerOf(who) in sweeps && sweeps[CallerOf(who)] == w
      && (who == Holder ==> main.ResumeCall?)
      && (who.TaskOf? ==> who.t in workers && workers[who.t] == Notifying)
    }

    method UnblockDependents(who: Thread, id: int)
      requires Valid() && Calling(who, Listing(id))
      modifies this, dag`status, dag`leases
      ensures Valid() && Calling(who, Children({})) && Grew(old(run), run)
      ensures who == Holder ==> main == old(main) && needResume == old(needResume)
    {
      var kids := ListDependents(who, id);
      for i := 0 to |kids|
        invariant Valid() && Calling(who, Children(Rest(kids, i))) && Grew(old(run), run)
        invariant who == Holder ==> main == old(main) && needResume == old(needResume)
      {
        RestStep(kids, i);
        var unblocked := UnblockIfReady(who, kids[i], Rest(kids, i), Rest(kids, i + 1));
      }
    }

    method ListDependents(who: Thread, id: int) returns (kids: seq<int>)
      requires Valid() && Calling(who, Listing(id))
      modifies this, dag`status, dag`leases
      ensures Valid() && Calling(who, Children(Rest(kids, 0))) && Grew(old(run), run)
      ensures who == Holder ==> main == old(main) && needResume == old(needResume)
      ensures forall i, j | 0 <= i < j < |kids| :: kids[i] != kids[j]
      ensures forall c | c in kids :: c in g.parents
    {
      Preempt(who);
      kids := dag.Dependents(id);
      KidsByEdges(id);
      RestAll(kids, Kids(g, id));
      sweeps := sweeps[CallerOf(who) := Children(Rest(kids, 0))];
      Log(Sweeping(CallerOf(who), ListKids));
    }

    /** Three separate statements: two counts over the parents, then a conditional update. */
    method UnblockIfReady(who: Thread, c: int, todo: set<int>, rest: set<int>) returns (unblocked: bool)
      requires Valid() && Calling(who, Children(todo)) && c in todo && rest == todo - {c} && c in g.parents
      modifies this, dag`status, dag`leases
      ensures Valid() && Calling(who, Children(rest)) && Grew(old(run), run)
      ensures who == Holder ==> main == old(main) && needResume == old(needResume)
    {
      var allDone := CheckTerminal(who, c, todo, rest);
      if !allDone { return false; }
      unblocked := MoveOnceDone(who, c, rest);
    }

    method MoveOnceDone(who: Thread, c: int, rest: set<int>) returns (unblocked: bool)
      requires Valid() && Calling(who, AllTerminal(rest, c)) && c in g.parents
      modifies this, dag`status, dag`leases
      ensures Valid() && Calling(who, Children(rest)) && Grew(old(run), run)
      ensures who == Holder ==> main == old(main) && needResume == old(needResume)
    {
      var failed := CheckFailed(who, c, rest);
      unblocked := MoveChild(who, c, rest, failed);
    }

    method CheckTerminal(who: Thread, c: int, todo: set<int>, rest: set<int>) returns (allDone: bool)
      requires Valid() && Calling(who, Children(todo)) && c in todo && rest == todo - {c} && c in g.parents
      modifies this, dag`status, dag`leases
      ensures Valid() && Calling(who, if allDone then AllTerminal(rest, c) else Children(rest)) && Grew(old(run), run)
      ensures who == Holder ==> main == old(main) && needResume == old(needResume)
    {
      Preempt(who);
      allDone := ReadTerminal(who, c, todo, rest);
    }

    method CheckFailed(who: Thread, c: int, rest: set<int>) returns (failed: bool)
      requires Valid() && Calling(who, AllTerminal(rest, c)) && c in g.parents
      modifies this, dag`status, dag`leases
      ensures Valid() && Calling(who, if failed then SomeFailed(rest, c) else NoneFailed(rest, c)) &&
        Grew(old(run), run)
      ensures who == Holder ==> main == old(main) && needResume == old(needResume)
    {
      Preempt(who);
      failed := ReadFailed(who, c, rest);
    }

    method MoveChild(who: Thread, c: int, rest: set<int>, failed: bool) returns (unblocked: bool)
      requires Valid() && Calling(who, if failed then SomeFailed(rest, c) else NoneFailed(rest, c))
      modifies this, dag`status, dag`leases
      ensures Valid() && Calling(who, Children(rest)) && Grew(old(run), run)
      ensures who == Holder ==> main == old(main) && needResume == old(needResume)
      ensures unblocked ==> !failed
    {
      Preempt(who);
      unblocked := WriteChild(who, c, rest, failed);
    }

    method ReadTerminal(who: Thread, c: int, todo: set<int>, rest: set<int>) returns (allDone: bool)
      requires Valid() && Calling(who, Children(todo)) && c in todo && rest == todo - {c} && c in g.parents
      modifies this, dag`status, dag`leases
      ensures Valid() && Calling(who, if allDone then AllTerminal(rest, c) else Children(rest)) && Grew(old(run), run)
      ensures who == Holder ==> main == old(main) && needResume == old(needResume)
    {
      allDone := dag.AllParentsComplete(c);
      ParentsRead(c);
      sweeps := sweeps[CallerOf(who) := if allDone then AllTerminal(rest, c) else Children(rest)];
      Log(Sweeping(CallerOf(who), CheckParents(c)));
    }

    method ReadFailed(who: Thread, c: int, rest: set<int>) returns (failed: bool)
      requires Valid() && Calling(who, AllTerminal(rest, c)) && c in g.parents
      modifies this, dag`status, dag`leases
      ensures Valid() && Calling(who, if failed then SomeFailed(rest, c) else NoneFailed(rest, c)) &&
        Grew(old(run), run)
      ensures who == Holder ==> main == old(main) && needResume == old(needResume)
    {
      failed := dag.AnyParentFailed(c);
      ParentsRead(c);
      sweeps := sweeps[CallerOf(who) := if failed then SomeFailed(rest, c) else NoneFailed(rest, c)];
      Log(Sweeping(CallerOf(who), CountFailures));
    }

    method WriteChild(who: Thread, c: int, rest: set<int>, failed: bool) returns (unblocked: bool)
      requires Valid() && Calling(who, if failed then SomeFailed(rest, c) else NoneFailed(rest, c))
      modifies this, dag`status, dag`leases
      ensures Valid() && Calling(who, Children(rest)) && Grew(old(run), run)
      ensures who == Holder ==> main == old(main) && needResume == old(needResume)
      ensures unblocked <==> !failed && Is(old(dag.status), c, Blocked)
    {
      var rows := dag.MoveBlocked(c, if failed then Failed else Pending);
      sweeps := sweeps[CallerOf(who) := Children(rest)];
      Log(Sweeping(CallerOf(who), Write));
      unblocked := !failed && rows > 0;
    }

    /** The joins over task_dependencies are the machine's reads of the parents. */
    lemma ParentsRead(c: int)
      requires GraphIs() && c in g.parents
      ensures AllParentsTerminal(g, dag.status, c) <==> DagStore.ParentRowsTerminal(dag.edges, dag.status, c)
      ensures SomeParentFailed(g, dag.status, c) <==> DagStore.SomeParentRowFailed(dag.edges, dag.status, c)
    {
      ParentRows(g, dag.dep, dag.owned, dag.edges, dag.status, c);
    }

    // ----- restart and shutdown

    method ResumeActiveTasks()
      requires Valid() && main == Idle
      modifies this, dag`status, dag`leases
      ensures Valid() && main == Idle && Grew(old(run), run)
      ensures !needResume
    {
      var blocked := ListBlocked();
      for i := 0 to |blocked|
        invariant Valid() && main == Resume(Rest(blocked, i)) && Grew(old(run), run) && !needResume
      {
        RestStep(blocked, i);
        ResumeOne(blocked[i], Rest(blocked, i + 1));
      }
      main := Idle;
      Log(Other(ResumeEnd));
    }

    method ListBlocked() returns (blocked: seq<int>)
      requires Valid() && main == Idle
      modifies this
      ensures Valid() && main == Resume(Rest(blocked, 0)) && Grew(old(run), run) && !needResume
      ensures forall i, j | 0 <= i < j < |blocked| :: blocked[i] != blocked[j]
    {
      blocked := dag.TasksWithStatus(Blocked);
      RestAll(blocked, WithStatusSet(dag.status, Blocked));
      main, needResume := Resume(Rest(blocked, 0)), false;
      Log(Other(ResumeStart));
    }

    method ResumeOne(t: int, rest: set<int>)
      requires Valid() && main.Resume? && t in main.todo && rest == main.todo - {t} && !needResume
      modifies this, dag`status, dag`leases
      ensures Valid() && main == Resume(rest) && Grew(old(run), run) && !needResume
    {
      var found, parent := NextParent(t, rest);
      if found {
        UnblockDependents(Holder, parent);
        NextBlocked(rest);
      }
    }

    method NextParent(t: int, rest: set<int>) returns (found: bool, parent: int)
      requires Valid() && main.Resume? && t in main.todo && rest == main.todo - {t} && !needResume
      modifies this, dag`status, dag`leases
      ensures Valid() && Grew(old(run), run) && !needResume
      ensures if found then main == ResumeCall(rest) && Calling(Holder, Listing(parent)) else main == Resume(rest)
    {
      Preempt(Holder);
      found, parent := LookUpParent(t, rest);
    }

    method NextBlocked(rest: set<int>)
      requires Valid() && main == ResumeCall(rest) && Calling(Holder, Children({}))
      modifies this`main, this`sweeps, this`run
      ensures Valid() && main == Resume(rest) && Grew(old(run), run)
    {
      main, sweeps := Resume(rest), sweeps - {Resuming};
      Log(Other(ResumeReturn));
    }

    /** GetTask on the depends_on column, when there is one. */
    method LookUpParent(t: int, rest: set<int>) returns (found: bool, parent: int)
      requires Valid() && main.Resume? && t in main.todo && rest == main.todo - {t} && !needResume
      modifies this, dag`status, dag`leases
      ensures Valid() && Grew(old(run), run) && !needResume
      ensures if found then main == ResumeCall(rest) && Calling(Holder, Listing(parent)) else main == Resume(rest)
      ensures found <==> parent > 0 && parent in old(dag.status) && old(dag.status)[parent] == Completed
      ensures parent == if t in dag.dep then dag.dep[t] else 0
    {
      parent := if t in dag.dep then dag.dep[t] else 0;
      found := parent > 0 && parent in dag.status && dag.status[parent] == Completed;
      if found {
        main, sweeps := ResumeCall(rest), sweeps[Resuming := Listing(parent)];
      } else {
        main := Resume(rest);
      }
      Log(Other(ResumePick(t)));
    }

    method Close()
      requires Valid() && main == Idle
      modifies this
      ensures Valid() && closed && active == {} && workers == old(workers) && Grew(old(run), run)
    {
      closed, active := true, {};
      Log(Other(OtherAct.Close));
    }
  }

  /** What orchestrator.Run returns to the goroutine. */
  datatype RunResult = Error | Returned(decisions: seq<Decision>)

  /** What the status write of a goroutine's step writes. */
  function Written(w: WorkerAct): Status {
    if w.Activate? then Active else if w == Finish(SawComplete) then Completed else Failed
  }

  ghost predicate LastAct(r: Run, r': Run, a: Action) {
    Grew(r, r') && |r.acts| < |r'.acts| && r'.acts[|r'.acts| - 1] == a
  }

  /** Among the steps added since r there is a, and later b. */
  ghost predicate InOrder(r: Run, r': Run, a: Action, b: Action) {
    exists k, m :: |r.acts| <= k < m < |r'.acts| && r'.acts[k] == a && r'.acts[m] == b
  }

  /** The rows not yet visited. */
  function Rest(rows: seq<int>, i: nat): set<int>
    requires i <= |rows|
  {
    set t | t in rows[i..]
  }

  lemma RestAll(rows: seq<int>, s: set<int>)
    requires forall t :: t in rows <==> t in s
    ensures Rest(rows, 0) == s
  {
    assert rows[0..] == rows;
    assert forall t :: t in Rest(rows, 0) <==> t in s;
  }

  lemma RestStep(rows: seq<int>, i: nat)
    requires i < |rows| && forall j, k | 0 <= j < k < |rows| :: rows[j] != rows[k]
    ensures rows[i] in Rest(rows, i) && Rest(rows, i + 1) == Rest(rows, i) - {rows[i]}
  {
    assert rows[i..] == [rows[i]] + rows[i + 1..];
  }

  /** What other threads leave alone. */
  ghost predicate Undisturbed(s: Sys, s': Sys, who: Thread) {
    match who
    case Holder =>
      && s'.main == s.main && s'.active == s.active && s'.closed == s.closed && s'.needResume == s.needResume
      && (Resuming in s.sweeps ==> Resuming in s'.sweeps && s'.sweeps[Resuming] == s.sweeps[Resuming])
    case TaskOf(t) =>
      && (t in s.workers ==> t in s'.workers && s'.workers[t] == s.workers[t])
      && (Goroutine(t) in s.sweeps ==> Goroutine(t) in s'.sweeps && s'.sweeps[Goroutine(t)] == s.sweeps[Goroutine(t)])
  }

  lemma HolderUndisturbed(g: Graph, s: Sys, a: Action)
    requires Enabled(g, s, a) && Foreign(Holder, a) && s.main != Idle
    ensures Undisturbed(s, Apply(g, s, a), Holder)
  {
    match a
    case Worker(t, w) =>
    case Sweeping(x, sw) =>
    case Other(o) => assert ApplyOther(g, s, o).sweeps == SweepsAfter(g, s, o);
  }

  lemma TaskUndisturbed(g: Graph, s: Sys, a: Action, t: int)
    requires Control(g, s) && Enabled(g, s, a) && Foreign(TaskOf(t), a) && t in s.workers
    ensures Undisturbed(s, Apply(g, s, a), TaskOf(t))
  {
    match a
    case Poll(p) => if s.main.Leasing? { CandidateNotRunning(g, s); }
    case Worker(u, w) =>
    case Sweeping(x, sw) =>
    case Other(o) => assert ApplyOther(g, s, o).sweeps == SweepsAfter(g, s, o);
  }
}
