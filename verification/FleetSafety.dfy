/** What every interleaving of the fleet keeps, crashes and restarts included: dependency order,
    at-most-once dispatch, the worker bound and path exclusivity. */
module FleetSafety {
  import opened FleetMachine
  import opened Sets

  // ----- control: program counters, statuses and the active set agree

  ghost predicate PcMatches(pc: WorkerPc, x: Status) {
    match pc
    case Spawned => x == Pending
    case Running => x == Active
    case Notifying => x == Completed
    case FailingDependents => x == Failed
    case Exiting | Releasing => x != Pending && x != Blocked
  }

  ghost predicate PcsOk(status: map<int, Status>, workers: map<int, WorkerPc>) {
    forall t | t in workers :: t in status && PcMatches(workers[t], status[t])
  }

  /** Exactly the notifying goroutines and a resuming tracker are inside UnblockDependents. */
  ghost predicate CallersOk(workers: map<int, WorkerPc>, sweeps: map<Caller, Sweep>) {
    && (forall t :: Goroutine(t) in sweeps <==> t in workers && workers[t] == Notifying)
    && (forall t | Goroutine(t) in sweeps :: sweeps[Goroutine(t)].Listing? ==> sweeps[Goroutine(t)].id == t)
  }

  /** Goroutines that have not yet removed themselves from the active set. */
  ghost function InFlight(workers: map<int, WorkerPc>): set<int> {
    set t | t in workers && workers[t] != Releasing
  }

  ghost predicate PoolOk(max: int, closed: bool, active: set<int>, workers: map<int, WorkerPc>) {
    && (if closed then active == {} else active == InFlight(workers))
    && |InFlight(workers)| <= max
  }

  /** The stale ready-list: a listed task is still pending unless this tracker is running it. */
  ghost predicate ReadyOk(status: map<int, Status>, active: set<int>, todo: set<int>) {
    forall t | t in todo :: t in active || (t in status && status[t] == Pending)
  }

  ghost predicate PollOk(g: Graph, s: Sys) {
    match s.main
    case Counted => !s.closed && |s.active| < g.maxWorkers
    case Scanning(todo) => !s.closed && ReadyOk(s.status, s.active, todo)
    case Leasing(todo, t, i) =>
      !s.closed && ReadyOk(s.status, s.active, todo) && t !in s.active && Is(s.status, t, Pending)
      && |s.active| < g.maxWorkers && i <= |Paths(g, t)|
    case RollingBack(todo, t, k) =>
      !s.closed && ReadyOk(s.status, s.active, todo) && t !in s.active && Is(s.status, t, Pending) && k > 0
    case _ => true
  }

  ghost predicate Started(status: map<int, Status>, t: int) {
    t in status && status[t] != Pending && status[t] != Blocked
  }

  ghost predicate HistoryOk(status: map<int, Status>, workers: map<int, WorkerPc>, launched: multiset<int>,
                            ran: set<int>) {
    && (forall t :: launched[t] <= 1)
    && (forall t | t in launched :: t in workers || Started(status, t))
    && (forall t | t in ran :: Started(status, t))
  }

  /** Everything the threads know, but the pool bound. */
  ghost predicate Threads(g: Graph, s: Sys) {
    && s.status.Keys == g.parents.Keys
    && PcsOk(s.status, s.workers)
    && CallersOk(s.workers, s.sweeps)
    && (Resuming in s.sweeps <==> s.main.ResumeCall?)
    && PollOk(g, s)
    && HistoryOk(s.status, s.workers, s.launched, s.ran)
  }

  ghost predicate Control(g: Graph, s: Sys) {
    Threads(g, s) && PoolOk(g.maxWorkers, s.closed, s.active, s.workers)
  }

  lemma PollScanKept(g: Graph, s: Sys, p: PollAct)
    requires Control(g, s) && PollEnabled(g, s, p) && (p.Start? || p.List? || p.Pick? || p.End?)
    ensures Threads(g, ApplyPoll(g, s, p))
  {
  }

  lemma PollLeaseKept(g: Graph, s: Sys, p: PollAct)
    requires Control(g, s) && PollEnabled(g, s, p) && (p.Lease? || p.Unlease?)
    ensures Threads(g, ApplyPoll(g, s, p))
  {
  }

  lemma PollLaunchKept(g: Graph, s: Sys, p: PollAct)
    requires Control(g, s) && PollEnabled(g, s, p) && p.Launch?
    ensures Threads(g, ApplyPoll(g, s, p))
  {
  }

  lemma WorkerBeginKept(g: Graph, s: Sys, t: int, w: WorkerAct)
    requires Control(g, s) && WorkerEnabled(s, t, w) && (w.Activate? || w.NoAttempt?)
    ensures Threads(g, ApplyWorker(g, s, t, w))
  {
  }

  lemma WorkerCompleteKept(g: Graph, s: Sys, t: int, w: WorkerAct)
    requires Control(g, s) && WorkerEnabled(s, t, w) && w == Finish(SawComplete)
    ensures Threads(g, ApplyWorker(g, s, t, w))
  {
  }

  lemma WorkerFinishKept(g: Graph, s: Sys, t: int, w: WorkerAct)
    requires Control(g, s) && WorkerEnabled(s, t, w) && w.Finish? && w.o != SawComplete
    ensures Threads(g, ApplyWorker(g, s, t, w))
  {
  }

  lemma WorkerFailDependentsKept(g: Graph, s: Sys, t: int, w: WorkerAct)
    requires Control(g, s) && WorkerEnabled(s, t, w) && w.FailDependents?
    ensures Threads(g, ApplyWorker(g, s, t, w))
  {
  }

  lemma WorkerDepartKept(g: Graph, s: Sys, t: int, w: WorkerAct)
    requires Control(g, s) && WorkerEnabled(s, t, w) && (w.Return? || w.Leave? || w.Release?)
    ensures Threads(g, ApplyWorker(g, s, t, w))
  {
  }

  lemma SweepReadKept(g: Graph, s: Sys, who: Caller, a: SweepAct)
    requires Control(g, s) && SweepEnabled(s.sweeps, who, a) && !a.Write?
    ensures Threads(g, ApplySweep(g, s, who, a))
  {
  }

  lemma SweepWriteKept(g: Graph, s: Sys, who: Caller, a: SweepAct)
    requires Control(g, s) && SweepEnabled(s.sweeps, who, a) && a.Write?
    ensures Threads(g, ApplySweep(g, s, who, a))
  {
  }

  lemma OtherKept(g: Graph, s: Sys, o: OtherAct)
    requires Control(g, s) && OtherEnabled(s, o)
    ensures Threads(g, ApplyOther(g, s, o))
  {
  }

  lemma ThreadsKept(g: Graph, s: Sys, a: Action)
    requires Control(g, s) && Enabled(g, s, a)
    ensures Threads(g, Apply(g, s, a))
  {
    match a
    case Poll(p) =>
      if p.Launch? { PollLaunchKept(g, s, p); }
      else if p.Lease? || p.Unlease? { PollLeaseKept(g, s, p); }
      else { PollScanKept(g, s, p); }
    case Worker(t, w) =>
      if w.Activate? || w.NoAttempt? { WorkerBeginKept(g, s, t, w); }
      else if w == Finish(SawComplete) { WorkerCompleteKept(g, s, t, w); }
      else if w.Finish? { WorkerFinishKept(g, s, t, w); }
      else if w.FailDependents? { WorkerFailDependentsKept(g, s, t, w); }
      else { WorkerDepartKept(g, s, t, w); }
    case Sweeping(who, sw) =>
      if sw.Write? { SweepWriteKept(g, s, who, sw); } else { SweepReadKept(g, s, who, sw); }
    case Other(o) => OtherKept(g, s, o);
  }

  lemma CandidateNotRunning(g: Graph, s: Sys)
    requires Control(g, s) && (s.main.Leasing? || s.main.RollingBack?)
    ensures s.main.t !in s.workers && s.main.t !in s.launched && s.main.t !in s.ran
  {
    var t := s.main.t;
    if t in InFlight(s.workers) { assert false; }
  }

  lemma PoolKept(g: Graph, s: Sys, a: Action)
    requires WellFormed(g) && Control(g, s) && Enabled(g, s, a)
    ensures var s' := Apply(g, s, a); PoolOk(g.maxWorkers, s'.closed, s'.active, s'.workers)
  {
    match a
    case Poll(p) => PoolKeptByPoll(g, s, p);
    case Worker(t, w) => PoolKeptByWorker(g, s, t, w);
    case Sweeping(who, sw) =>
    case Other(o) => PoolKeptByOther(g, s, o);
  }

  lemma PoolKeptByPoll(g: Graph, s: Sys, p: PollAct)
    requires Control(g, s) && PollEnabled(g, s, p)
    ensures var s' := ApplyPoll(g, s, p); PoolOk(g.maxWorkers, s'.closed, s'.active, s'.workers)
  {
    if p.Launch? {
      assert InFlight(ApplyPoll(g, s, p).workers) == InFlight(s.workers) + {s.main.t};
    }
  }

  lemma PoolKeptByWorker(g: Graph, s: Sys, t: int, w: WorkerAct)
    requires Control(g, s) && WorkerEnabled(s, t, w)
    ensures var s' := ApplyWorker(g, s, t, w); PoolOk(g.maxWorkers, s'.closed, s'.active, s'.workers)
  {
    var s' := ApplyWorker(g, s, t, w);
    assert InFlight(s'.workers) == if w.Leave? then InFlight(s.workers) - {t} else InFlight(s.workers);
    SubsetSize(InFlight(s'.workers), InFlight(s.workers));
  }

  lemma PoolKeptByOther(g: Graph, s: Sys, o: OtherAct)
    requires WellFormed(g) && Control(g, s) && OtherEnabled(s, o)
    ensures var s' := ApplyOther(g, s, o); PoolOk(g.maxWorkers, s'.closed, s'.active, s'.workers)
  {
    if o.Crash? {
      assert InFlight(ApplyOther(g, s, o).workers) == {};
    }
  }

  // ----- dependency order

  ghost predicate ParentsDone(g: Graph, status: map<int, Status>, t: int) {
    forall q | q in Parents(g, t) :: q in status && status[q] == Completed
  }

  ghost predicate Cleared(x: Status) {
    x == Pending || x == Active || x == Completed
  }

  /** What a sweep has read stays true: terminal statuses never change. */
  ghost predicate SweepOk(g: Graph, status: map<int, Status>, w: Sweep) {
    match w
    case AllTerminal(_, c) => forall q | q in Parents(g, c) :: q in status && Terminal(status[q])
    case NoneFailed(_, c) => ParentsDone(g, status, c)
    case SomeFailed(_, c) => exists q :: q in Parents(g, c) && Is(status, q, Failed)
    case _ => true
  }

  ghost predicate StatusOrder(g: Graph, status: map<int, Status>) {
    forall t | t in status && Cleared(status[t]) :: ParentsDone(g, status, t)
  }

  ghost predicate SweepsOk(g: Graph, status: map<int, Status>, sweeps: map<Caller, Sweep>) {
    forall w | w in sweeps :: SweepOk(g, status, sweeps[w])
  }

  ghost predicate HistoryOrder(g: Graph, status: map<int, Status>, launched: multiset<int>, ran: set<int>) {
    forall t | t in launched || t in ran :: ParentsDone(g, status, t)
  }

  ghost predicate Order(g: Graph, s: Sys) {
    && StatusOrder(g, s.status)
    && SweepsOk(g, s.status, s.sweeps)
    && HistoryOrder(g, s.status, s.launched, s.ran)
  }

  /** How one task's status can change in one step. */
  ghost predicate StatusMove(g: Graph, status: map<int, Status>, t: int, x': Status)
    requires t in status
  {
    var x := status[t];
    || x' == x
    || (x' == Failed && !Terminal(x))
    || (x == Blocked && x' == Pending && ParentsDone(g, status, t))
    || (x == Pending && x' == Active)
    || (x == Active && x' == Completed)
  }

  ghost predicate StatusMoves(g: Graph, status: map<int, Status>, status': map<int, Status>) {
    status'.Keys == status.Keys && forall t | t in status :: StatusMove(g, status, t, status'[t])
  }

  lemma StatusChanges(g: Graph, s: Sys, a: Action)
    requires PcsOk(s.status, s.workers) && SweepsOk(g, s.status, s.sweeps) && Enabled(g, s, a)
    ensures StatusMoves(g, s.status, Apply(g, s, a).status)
  {
    match a
    case Poll(p) =>
    case Worker(t, w) => WorkerStatusChanges(g, s, t, w);
    case Sweeping(who, sw) => SweepStatusChanges(g, s, who, sw);
    case Other(o) =>
  }

  lemma SweepStatusChanges(g: Graph, s: Sys, who: Caller, sw: SweepAct)
    requires SweepsOk(g, s.status, s.sweeps) && SweepEnabled(s.sweeps, who, sw)
    ensures StatusMoves(g, s.status, ApplySweep(g, s, who, sw).status)
    ensures forall t | t in s.status && !Is(ApplySweep(g, s, who, sw).status, t, s.status[t]) ::
      && s.status[t] == Blocked
      && if ParentsDone(g, s.status, t) then Is(ApplySweep(g, s, who, sw).status, t, Pending)
         else SomeParentFailed(g, s.status, t) && Is(ApplySweep(g, s, who, sw).status, t, Failed)
  {
    assert SweepOk(g, s.status, s.sweeps[who]);
  }

  lemma WorkerStatusChanges(g: Graph, s: Sys, t: int, w: WorkerAct)
    requires PcsOk(s.status, s.workers) && WorkerEnabled(s, t, w)
    ensures StatusMoves(g, s.status, ApplyWorker(g, s, t, w).status)
  {
    assert PcMatches(s.workers[t], s.status[t]);
    var status' := WorkerStatus(g, s.status, t, w);
    assert StatusMove(g, s.status, t, status'[t]);
  }

  /** Completed and failed are absorbing, so whatever was concluded from them still holds. */
  lemma DoneStays(g: Graph, status: map<int, Status>, status': map<int, Status>, t: int)
    requires StatusMoves(g, status, status') && ParentsDone(g, status, t)
    ensures ParentsDone(g, status', t)
  {
    forall q | q in Parents(g, t) ensures q in status' && status'[q] == Completed {
      assert StatusMove(g, status, q, status'[q]);
    }
  }

  lemma SweepStays(g: Graph, status: map<int, Status>, status': map<int, Status>, w: Sweep)
    requires StatusMoves(g, status, status') && SweepOk(g, status, w)
    ensures SweepOk(g, status', w)
  {
    forall q | q in status ensures Terminal(status[q]) ==> status'[q] == status[q] {
      assert StatusMove(g, status, q, status'[q]);
    }
    if w.SomeFailed? {
      var q :| q in Parents(g, w.c) && Is(status, q, Failed);
      assert Is(status', q, Failed);
    }
  }

  lemma StatusOrderKept(g: Graph, status: map<int, Status>, status': map<int, Status>)
    requires StatusOrder(g, status) && StatusMoves(g, status, status')
    ensures StatusOrder(g, status')
  {
    forall t | t in status' && Cleared(status'[t]) ensures ParentsDone(g, status', t) {
      assert StatusMove(g, status, t, status'[t]);
      DoneStays(g, status, status', t);
    }
  }

  /** The two reads of UnblockIfReady are separate statements, yet the second completes the first. */
  lemma NextSweepOk(g: Graph, status: map<int, Status>, w: Sweep, a: SweepAct)
    requires WellFormed(g) && status.Keys == g.parents.Keys
    requires SweepOk(g, status, w) && SweepEnabled(map[Resuming := w], Resuming, a)
    ensures SweepOk(g, status, NextSweep(g, status, w, a))
  {
    if a.CountFailures? && !SomeParentFailed(g, status, w.c) {
      forall q | q in Parents(g, w.c) ensures q in status && status[q] == Completed {
        assert !Is(status, q, Failed);
      }
    }
  }

  /** Apart from the sweep that moves, an action only starts sweeps (at Listing) or ends them. */
  lemma OtherSweeps(g: Graph, s: Sys, a: Action, w: Caller)
    requires Enabled(g, s, a) && !a.Sweeping? && w in Apply(g, s, a).sweeps
    ensures Apply(g, s, a).sweeps[w].Listing? || (w in s.sweeps && Apply(g, s, a).sweeps[w] == s.sweeps[w])
  {
    match a
    case Poll(p) => assert ApplyPoll(g, s, p).sweeps == s.sweeps;
    case Worker(t, x) => WorkerSweeps(g, s, t, x, w);
    case Other(o) => SweepsByOther(g, s, o, w);
  }

  lemma SweepsByOther(g: Graph, s: Sys, o: OtherAct, w: Caller)
    requires OtherEnabled(s, o) && w in ApplyOther(g, s, o).sweeps
    ensures var sweeps := ApplyOther(g, s, o).sweeps;
      sweeps[w].Listing? || (w in s.sweeps && sweeps[w] == s.sweeps[w])
  {
    assert ApplyOther(g, s, o).sweeps == SweepsAfter(g, s, o);
  }

  lemma WorkerSweeps(g: Graph, s: Sys, t: int, x: WorkerAct, w: Caller)
    requires WorkerEnabled(s, t, x) && w in ApplyWorker(g, s, t, x).sweeps
    ensures var sweeps := ApplyWorker(g, s, t, x).sweeps;
      sweeps[w].Listing? || (w in s.sweeps && sweeps[w] == s.sweeps[w])
  {
  }

  lemma SweepsKept(g: Graph, s: Sys, a: Action, status': map<int, Status>)
    requires WellFormed(g) && s.status.Keys == g.parents.Keys && SweepsOk(g, s.status, s.sweeps) && Enabled(g, s, a)
    requires StatusMoves(g, s.status, status')
    ensures SweepsOk(g, status', Apply(g, s, a).sweeps)
  {
    forall w | w in Apply(g, s, a).sweeps ensures SweepOk(g, status', Apply(g, s, a).sweeps[w]) {
      if a.Sweeping? && a.who == w {
        NextSweepOk(g, s.status, s.sweeps[w], a.sw);
        SweepStays(g, s.status, status', NextSweep(g, s.status, s.sweeps[w], a.sw));
      } else {
        if !a.Sweeping? { OtherSweeps(g, s, a, w); }
        if w in s.sweeps { SweepStays(g, s.status, status', s.sweeps[w]); }
      }
    }
  }

  lemma NewHistory(g: Graph, s: Sys, a: Action, t: int)
    requires PcsOk(s.status, s.workers) && PollOk(g, s) && Enabled(g, s, a)
    requires t in Apply(g, s, a).launched || t in Apply(g, s, a).ran
    ensures t in s.launched || t in s.ran || Is(s.status, t, Pending)
  {
    match a
    case Poll(p) => NewHistoryByPoll(g, s, p, t);
    case Worker(u, w) =>
      assert ApplyWorker(g, s, u, w).launched == s.launched;
      if w.Activate? { assert PcMatches(s.workers[u], s.status[u]); }
    case Sweeping(who, sw) =>
    case Other(o) => NoHistoryByOther(g, s, o);
  }

  lemma NewHistoryByPoll(g: Graph, s: Sys, p: PollAct, t: int)
    requires PollOk(g, s) && PollEnabled(g, s, p)
    ensures ApplyPoll(g, s, p).ran == s.ran
    ensures t in ApplyPoll(g, s, p).launched ==> t in s.launched || Is(s.status, t, Pending)
  {
  }

  lemma NoHistoryByOther(g: Graph, s: Sys, o: OtherAct)
    requires OtherEnabled(s, o)
    ensures ApplyOther(g, s, o).ran == s.ran && ApplyOther(g, s, o).launched <= s.launched
  {
  }

  lemma OrderKept(g: Graph, s: Sys, a: Action)
    requires WellFormed(g) && Control(g, s) && Order(g, s) && Enabled(g, s, a)
    ensures Order(g, Apply(g, s, a))
  {
    var s' := Apply(g, s, a);
    StatusChanges(g, s, a);
    StatusOrderKept(g, s.status, s'.status);
    SweepsKept(g, s, a, s'.status);
    forall t | t in s'.launched || t in s'.ran ensures ParentsDone(g, s'.status, t) {
      NewHistory(g, s, a, t);
      DoneStays(g, s.status, s'.status, t);
    }
  }

  // ----- path leases

  ghost predicate OwnsUpTo(g: Graph, leases: map<string, int>, t: int, n: nat) {
    forall j | 0 <= j < n && j < |Paths(g, t)| :: Paths(g, t)[j] in leases && leases[Paths(g, t)[j]] == t
  }

  /** Every goroutine owns all its paths until its own release, and a poll that is acquiring
      owns the ones it has been through. */
  ghost predicate LeasesOk(g: Graph, leases: map<string, int>, workers: map<int, WorkerPc>, main: Main) {
    && (forall t | t in workers :: OwnsUpTo(g, leases, t, |Paths(g, t)|))
    && (main.Leasing? ==> OwnsUpTo(g, leases, main.t, main.i))
  }

  lemma LeasesKept(g: Graph, s: Sys, a: Action)
    requires Control(g, s) && LeasesOk(g, s.leases, s.workers, s.main) && Enabled(g, s, a)
    ensures var s' := Apply(g, s, a); LeasesOk(g, s'.leases, s'.workers, s'.main)
  {
    match a
    case Poll(p) =>
      if s.main.Leasing? || s.main.RollingBack? { CandidateNotRunning(g, s); }
      LeasesKeptByPoll(g, s, p);
    case Worker(t, w) =>
      if s.main.Leasing? { CandidateNotRunning(g, s); }
      LeasesKeptByWorker(g, s, t, w);
    case Sweeping(who, sw) =>
    case Other(o) => LeasesKeptByOther(g, s, o);
  }

  lemma LeasesKeptByOther(g: Graph, s: Sys, o: OtherAct)
    requires LeasesOk(g, s.leases, s.workers, s.main) && OtherEnabled(s, o)
    ensures var s' := ApplyOther(g, s, o); LeasesOk(g, s'.leases, s'.workers, s'.main)
  {
  }

  lemma LeasesKeptByPoll(g: Graph, s: Sys, p: PollAct)
    requires LeasesOk(g, s.leases, s.workers, s.main) && PollEnabled(g, s, p) && PollOk(g, s)
    requires s.main.Leasing? || s.main.RollingBack? ==> s.main.t !in s.workers
    ensures var s' := ApplyPoll(g, s, p); LeasesOk(g, s'.leases, s'.workers, s'.main)
  {
    var s' := ApplyPoll(g, s, p);
    forall t | t in s'.workers ensures OwnsUpTo(g, s'.leases, t, |Paths(g, t)|) {
      assert t in s.workers ==> OwnsUpTo(g, s.leases, t, |Paths(g, t)|);
    }
  }

  lemma LeasesKeptByWorker(g: Graph, s: Sys, t: int, w: WorkerAct)
    requires LeasesOk(g, s.leases, s.workers, s.main) && WorkerEnabled(s, t, w)
    requires s.main.Leasing? ==> s.main.t !in s.workers
    ensures var s' := ApplyWorker(g, s, t, w); LeasesOk(g, s'.leases, s'.workers, s'.main)
  {
    var s' := ApplyWorker(g, s, t, w);
    forall u | u in s'.workers ensures OwnsUpTo(g, s'.leases, u, |Paths(g, u)|) {
      assert OwnsUpTo(g, s.leases, u, |Paths(g, u)|);
    }
  }

  // ----- every reachable state

  ghost predicate Safe(g: Graph, s: Sys) {
    Control(g, s) && Order(g, s) && LeasesOk(g, s.leases, s.workers, s.main)
  }

  lemma SafeKept(g: Graph, s: Sys, a: Action)
    requires WellFormed(g) && Safe(g, s) && Enabled(g, s, a)
    ensures Safe(g, Apply(g, s, a))
  {
    ThreadsKept(g, s, a);
    PoolKept(g, s, a);
    OrderKept(g, s, a);
    LeasesKept(g, s, a);
  }

  lemma InitSafe(g: Graph, s: Sys)
    requires WellFormed(g) && Init(g, s)
    ensures Safe(g, s)
  {
    assert InFlight(s.workers) == {};
  }

  lemma {:induction false} SafeAt(g: Graph, r: Run, k: nat)
    requires Execution(g, r) && k < |r.states|
    ensures Safe(g, r.states[k])
  {
    if k == 0 {
      InitSafe(g, r.states[0]);
    } else {
      SafeAt(g, r, k - 1);
      assert StepOk(g, r, k - 1);
      SafeKept(g, r.states[k - 1], r.acts[k - 1]);
    }
  }

  // ----- the results, over whole runs

  /** path[i+1] is a parent of path[i]: everything after path[0] is an ancestor of it. */
  ghost predicate ParentPath(g: Graph, path: seq<int>) {
    |path| >= 1 && forall i | 0 <= i < |path| - 1 :: path[i + 1] in Parents(g, path[i])
  }

  ghost predicate Reached(s: Sys, t: int) {
    (t in s.status && Cleared(s.status[t])) || t in s.launched || t in s.ran
  }

  /** A task that is pending, active or completed, or was ever dispatched or active, has every
      ancestor completed. */
  lemma {:induction false} DependencyOrder(g: Graph, r: Run, k: nat, path: seq<int>)
    requires Execution(g, r) && k < |r.states| && ParentPath(g, path) && Reached(r.states[k], path[0])
    ensures forall i | 0 < i < |path| :: Is(r.states[k].status, path[i], Completed)
  {
    SafeAt(g, r, k);
    if |path| > 1 {
      assert path[1] in Parents(g, path[0]);
      assert ParentPath(g, path[1..]) by {
        forall i | 0 <= i < |path| - 2 ensures path[1..][i + 1] in Parents(g, path[1..][i]) {
          assert path[i + 2] in Parents(g, path[i + 1]);
        }
      }
      DependencyOrder(g, r, k, path[1..]);
      forall i | 0 < i < |path| ensures Is(r.states[k].status, path[i], Completed) {
        if i > 1 { assert path[i] == path[1..][i - 1]; }
      }
    }
  }

  lemma {:induction false} TerminalStays(g: Graph, r: Run, i: nat, k: nat, t: int)
    requires Execution(g, r) && i <= k < |r.states|
    requires t in r.states[i].status && Terminal(r.states[i].status[t])
    ensures Is(r.states[k].status, t, r.states[i].status[t])
  {
    if i < k {
      TerminalStays(g, r, i, k - 1, t);
      SafeAt(g, r, k - 1);
      assert StepOk(g, r, k - 1);
      StatusChanges(g, r.states[k - 1], r.acts[k - 1]);
      assert StatusMove(g, r.states[k - 1].status, t, r.states[k].status[t]);
    }
  }

  /** Nothing below a task that ever fails is dispatched, pending, active or completed, at any
      point of the run, before or after the failure. */
  lemma NothingBelowFailure(g: Graph, r: Run, i: nat, k: nat, path: seq<int>)
    requires Execution(g, r) && i < |r.states| && k < |r.states| && ParentPath(g, path) && |path| > 1
    requires Is(r.states[i].status, path[|path| - 1], Failed)
    ensures !Reached(r.states[k], path[0])
  {
    if Reached(r.states[k], path[0]) {
      DependencyOrder(g, r, k, path);
      var top := path[|path| - 1];
      if i <= k { TerminalStays(g, r, i, k, top); } else { TerminalStays(g, r, k, i, top); }
      assert false;
    }
  }

  lemma LaunchedStays(g: Graph, s: Sys, a: Action, t: int)
    requires Enabled(g, s, a) && t in s.launched && a != Other(Crash)
    ensures t in Apply(g, s, a).launched
  {
    match a
    case Poll(p) => assert ApplyPoll(g, s, p).launched >= s.launched;
    case Worker(q, w) => assert ApplyWorker(g, s, q, w).launched == s.launched;
    case Sweeping(who, sw) => assert ApplySweep(g, s, who, sw).launched == s.launched;
    case Other(o) => assert ApplyOther(g, s, o).launched == s.launched;
  }

  /** A second dispatch of a task is separated from the first by a crash that found the task
      still pending: within one tracker lifetime a task runs at most once, and a task that ever
      became active never runs again. */
  lemma {:induction false} RedispatchNeedsCrash(g: Graph, r: Run, i: nat, j: nat) returns (k: nat)
    requires Execution(g, r) && i < j < |r.acts|
    requires r.acts[i] == Poll(Launch) && r.acts[j] == Poll(Launch)
    requires StepOk(g, r, i) && StepOk(g, r, j)
    requires r.states[i].main.t == r.states[j].main.t
    ensures i < k < j && r.acts[k] == Other(Crash) && Is(r.states[k].status, r.states[j].main.t, Pending)
  {
    var t := r.states[j].main.t;
    SafeAt(g, r, i);
    SafeAt(g, r, j);
    CandidateNotRunning(g, r.states[j]);
    assert r.states[i + 1] == ApplyPoll(g, r.states[i], Launch);
    k := CrashBetween(g, r, i, j, t);
  }

  lemma {:induction false} CrashBetween(g: Graph, r: Run, i: nat, j: nat, t: int) returns (k: nat)
    requires Execution(g, r) && i < j < |r.states| && Is(r.states[i].status, t, Pending)
    requires t in r.states[i + 1].launched && t !in r.states[j].launched && Is(r.states[j].status, t, Pending)
    ensures i < k < j && r.acts[k] == Other(Crash) && Is(r.states[k].status, t, Pending)
  {
    k := j - 1;
    assert StepOk(g, r, k);
    PendingBefore(g, r, i, k, t);
    if r.acts[k] != Other(Crash) {
      if t in r.states[k].launched { LaunchedStays(g, r.states[k], r.acts[k], t); }
      k := CrashBetween(g, r, i, k, t);
    }
  }

  /** A dispatched task that is pending has been pending since its dispatch. */
  lemma PendingBefore(g: Graph, r: Run, i: nat, k: nat, t: int)
    requires Execution(g, r) && i <= k < |r.acts|
    requires Is(r.states[i].status, t, Pending) && Is(r.states[k + 1].status, t, Pending)
    ensures Is(r.states[k].status, t, Pending)
    decreases k
  {
    SafeAt(g, r, k);
    assert StepOk(g, r, k);
    StatusChanges(g, r.states[k], r.acts[k]);
    assert r.states[k + 1].status.Keys == r.states[k].status.Keys;
    assert StatusMove(g, r.states[k].status, t, r.states[k + 1].status[t]);
    if i < k { NeverBlockedAgain(g, r, i, k, t); }
  }

  lemma {:induction false} NeverBlockedAgain(g: Graph, r: Run, i: nat, k: nat, t: int)
    requires Execution(g, r) && i <= k < |r.states|
    requires t in r.states[i].status && r.states[i].status[t] != Blocked
    ensures t in r.states[k].status && r.states[k].status[t] != Blocked
  {
    if i < k {
      NeverBlockedAgain(g, r, i, k - 1, t);
      SafeAt(g, r, k - 1);
      assert StepOk(g, r, k - 1);
      StatusChanges(g, r.states[k - 1], r.acts[k - 1]);
      assert StatusMove(g, r.states[k - 1].status, t, r.states[k].status[t]);
    }
  }

  /** At most maxWorkers goroutines are between dispatch and leaving the active set, also after
      Close has emptied that set under them. */
  lemma WorkerBound(g: Graph, r: Run, k: nat)
    requires Execution(g, r) && k < |r.states|
    ensures |InFlight(r.states[k].workers)| <= g.maxWorkers
    ensures forall t | t in r.states[k].active :: t in InFlight(r.states[k].workers)
  {
    SafeAt(g, r, k);
  }

  /** No two live goroutines, not even one that is only about to release, share an owned path. */
  lemma PathExclusivity(g: Graph, r: Run, k: nat, t: int, u: int, path: string)
    requires Execution(g, r) && k < |r.states|
    requires t in r.states[k].workers && u in r.states[k].workers
    requires path in Paths(g, t) && path in Paths(g, u)
    ensures t == u
    ensures path in r.states[k].leases && r.states[k].leases[path] == t
  {
    SafeAt(g, r, k);
    var leases := r.states[k].leases;
    assert OwnsUpTo(g, leases, t, |Paths(g, t)|);
    assert OwnsUpTo(g, leases, u, |Paths(g, u)|);
    var i :| 0 <= i < |Paths(g, t)| && Paths(g, t)[i] == path;
    var j :| 0 <= j < |Paths(g, u)| && Paths(g, u)[j] == path;
  }
}
