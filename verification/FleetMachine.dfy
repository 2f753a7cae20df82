/** The fleet scheduler as a state machine: one task store, one tracker, and any number of
    goroutines.  Each action is one SQL statement, one critical section of the store's lock,
    or one critical section of the tracker's lock; actions of different threads interleave
    freely.  The graph (edges, owned paths, pool size) is fixed once the tracker starts. */
module FleetMachine {

  datatype Status = Blocked | Pending | Active | Completed | Failed

  /** `parents` is the task_dependencies table, `paths` the owned paths as poll reads them,
      `dep` the legacy single-parent column (0 when absent). */
  datatype Graph = Graph(
    parents: map<int, set<int>>,
    paths: map<int, seq<string>>,
    dep: map<int, int>,
    maxWorkers: int)

  predicate WellFormed(g: Graph) {
    && g.maxWorkers >= 1
    && g.paths.Keys == g.parents.Keys
    && g.dep.Keys == g.parents.Keys
    && forall t | t in g.parents :: g.parents[t] <= g.parents.Keys
  }

  function Parents(g: Graph, t: int): set<int> {
    if t in g.parents then g.parents[t] else {}
  }

  function Paths(g: Graph, t: int): seq<string> {
    if t in g.paths then g.paths[t] else []
  }

  function Kids(g: Graph, t: int): set<int> {
    set c | c in g.parents && t in g.parents[c]
  }

  /** Program counter of a worker goroutine. */
  datatype WorkerPc = Spawned | Running | Notifying | FailingDependents | Exiting | Releasing

  /** Who is executing UnblockDependents. */
  datatype Caller = Goroutine(task: int) | Resuming | External(k: nat)

  /** Progress of one UnblockDependents call: the children not yet visited, and the child whose
      UnblockIfReady is between its three statements. */
  datatype Sweep =
    | Listing(id: int)
    | Children(todo: set<int>)
    | AllTerminal(todo: set<int>, c: int)
    | NoneFailed(todo: set<int>, c: int)
    | SomeFailed(todo: set<int>, c: int)

  /** The holder of the tracker's mutex: nobody, a poll, or ResumeActiveTasks. */
  datatype Main =
    | Idle
    | Counted
    | Scanning(todo: set<int>)
    | Leasing(todo: set<int>, t: int, i: nat)
    | RollingBack(todo: set<int>, t: int, k: nat)
    | Resume(todo: set<int>)
    | ResumeCall(todo: set<int>)

  /** `status` and `leases` are durable; the rest dies with the process.  `launched` (dispatches
      of this tracker), `ran` (tasks that ever became active), `crashed` and `needResume` are
      history, read by no action. */
  datatype Sys = Sys(
    status: map<int, Status>,
    leases: map<string, int>,
    active: set<int>,
    closed: bool,
    workers: map<int, WorkerPc>,
    sweeps: map<Caller, Sweep>,
    main: Main,
    launched: multiset<int>,
    ran: set<int>,
    crashed: bool,
    needResume: bool)

  /** What the goroutine learns from orchestrator.Run: the first COMPLETE or FAIL among the
      decisions, neither of them, or an error. */
  datatype Outcome = SawComplete | SawFail | Undecided | RunError

  datatype PollAct = Start | List | Pick(t: int) | Lease | Unlease | Launch | End
  datatype WorkerAct = Activate | NoAttempt | Finish(o: Outcome) | FailDependents | Return | Leave | Release
  datatype SweepAct = ListKids | CheckParents(c: int) | CountFailures | Write
  datatype OtherAct =
    | Close | ResumeStart | ResumePick(t: int) | ResumeReturn | ResumeEnd
    | ExternalCall(k: nat, id: int) | ExternalReturn(k: nat)
    | Crash

  datatype Action =
    | Poll(p: PollAct)
    | Worker(t: int, w: WorkerAct)
    | Sweeping(who: Caller, sw: SweepAct)
    | Other(o: OtherAct)

  predicate Is(status: map<int, Status>, t: int, x: Status) {
    t in status && status[t] == x
  }

  predicate At(s: Sys, t: int, pc: WorkerPc) {
    t in s.workers && s.workers[t] == pc
  }

  predicate Terminal(x: Status) {
    x == Completed || x == Failed
  }

  /** AllParentsComplete: no joined parent row is outside completed and failed. */
  predicate AllParentsTerminal(g: Graph, status: map<int, Status>, c: int) {
    forall q | q in Parents(g, c) :: q in status ==> Terminal(status[q])
  }

  predicate SomeParentFailed(g: Graph, status: map<int, Status>, c: int) {
    exists q :: q in Parents(g, c) && Is(status, q, Failed)
  }

  function WithStatus(status: map<int, Status>, t: int, x: Status): map<int, Status> {
    if t in status then status[t := x] else status
  }

  /** UPDATE ... WHERE id=? AND status='blocked'. */
  function IfBlocked(status: map<int, Status>, t: int, x: Status): map<int, Status> {
    if t in status && status[t] == Blocked then status[t := x] else status
  }

  function WithoutLeases(leases: map<string, int>, t: int): map<string, int> {
    map p | p in leases && leases[p] != t :: leases[p]
  }

  function FailKids(g: Graph, status: map<int, Status>, t: int): map<int, Status> {
    map c | c in status :: if c in Kids(g, t) && status[c] == Blocked then Failed else status[c]
  }

  function WithStatusSet(status: map<int, Status>, x: Status): set<int> {
    set t | t in status && status[t] == x
  }

  predicate PollEnabled(g: Graph, s: Sys, p: PollAct) {
    match p
    case Start => s.main == Idle
    case List => s.main == Counted
    case Pick(t) => s.main.Scanning? && t in s.main.todo && |s.active| < g.maxWorkers
    case Lease => s.main.Leasing? && s.main.i < |Paths(g, s.main.t)|
    case Unlease => s.main.RollingBack? && s.main.k > 0
    case Launch => s.main.Leasing? && s.main.i >= |Paths(g, s.main.t)|
    case End => s.main.Scanning? && (s.main.todo == {} || |s.active| >= g.maxWorkers)
  }

  /** AcquirePathLease would refuse the next path of the candidate. */
  predicate Conflict(g: Graph, s: Sys)
    requires s.main.Leasing? && s.main.i < |Paths(g, s.main.t)|
  {
    var path := Paths(g, s.main.t)[s.main.i];
    path in s.leases && s.leases[path] != s.main.t
  }

  function PollMain(g: Graph, s: Sys, p: PollAct): Main
    requires PollEnabled(g, s, p)
  {
    match p
    case Start => if s.closed || |s.active| >= g.maxWorkers then Idle else Counted
    case List => Scanning(WithStatusSet(s.status, Pending))
    case Pick(t) =>
      if t in s.active then Scanning(s.main.todo - {t}) else Leasing(s.main.todo - {t}, t, 0)
    case Lease =>
      if !Conflict(g, s) then s.main.(i := s.main.i + 1)
      else if s.main.i == 0 then Scanning(s.main.todo)
      else RollingBack(s.main.todo, s.main.t, s.main.i)
    case Unlease =>
      if s.main.k == 1 then Scanning(s.main.todo) else s.main.(k := s.main.k - 1)
    case Launch => Scanning(s.main.todo)
    case End => Idle
  }

  function PollLeases(g: Graph, s: Sys, p: PollAct): map<string, int>
    requires PollEnabled(g, s, p)
  {
    if p.Lease? && !Conflict(g, s) then s.leases[Paths(g, s.main.t)[s.main.i] := s.main.t]
    else if p.Unlease? then WithoutLeases(s.leases, s.main.t)
    else s.leases
  }

  function ApplyPoll(g: Graph, s: Sys, p: PollAct): Sys
    requires PollEnabled(g, s, p)
  {
    var s1 := s.(main := PollMain(g, s, p), leases := PollLeases(g, s, p));
    if p.Launch? then
      s1.(active := s.active + {s.main.t}, workers := s.workers[s.main.t := Spawned],
          launched := s.launched + multiset{s.main.t})
    else s1
  }

  predicate WorkerEnabled(s: Sys, t: int, w: WorkerAct) {
    match w
    case Activate => At(s, t, Spawned)
    case NoAttempt => At(s, t, Spawned)
    case Finish(_) => At(s, t, Running)
    case FailDependents => At(s, t, FailingDependents)
    case Return =>
      At(s, t, Notifying) && Goroutine(t) in s.sweeps && s.sweeps[Goroutine(t)] == Children({})
    case Leave => At(s, t, Exiting) && s.main == Idle
    case Release => At(s, t, Releasing)
  }

  function NextPc(w: WorkerAct): WorkerPc
    requires !w.Release?
  {
    match w
    case Activate => Running
    case Finish(SawComplete) => Notifying
    case Finish(SawFail) => FailingDependents
    case NoAttempt | Finish(_) | FailDependents | Return => Exiting
    case Leave => Releasing
  }

  /** The status column after a worker's action. */
  function WorkerStatus(g: Graph, status: map<int, Status>, t: int, w: WorkerAct): map<int, Status> {
    match w
    case Activate => WithStatus(status, t, Active)
    case Finish(SawComplete) => WithStatus(status, t, Completed)
    case NoAttempt | Finish(SawFail) | Finish(RunError) => WithStatus(status, t, Failed)
    case FailDependents => FailKids(g, status, t)
    case Finish(Undecided) | Return | Leave | Release => status
  }

  function ApplyWorker(g: Graph, s: Sys, t: int, w: WorkerAct): Sys
    requires WorkerEnabled(s, t, w)
  {
    s.(status := WorkerStatus(g, s.status, t, w),
       workers := if w.Release? then s.workers - {t} else s.workers[t := NextPc(w)],
       sweeps := if w == Finish(SawComplete) then s.sweeps[Goroutine(t) := Listing(t)]
                 else if w.Return? then s.sweeps - {Goroutine(t)} else s.sweeps,
       leases := if w.Release? then WithoutLeases(s.leases, t) else s.leases,
       active := if w.Leave? then s.active - {t} else s.active,
       ran := if w.Activate? then s.ran + {t} else s.ran)
  }

  predicate SweepEnabled(sweeps: map<Caller, Sweep>, who: Caller, a: SweepAct) {
    who in sweeps &&
    match a
    case ListKids => sweeps[who].Listing?
    case CheckParents(c) => sweeps[who].Children? && c in sweeps[who].todo
    case CountFailures => sweeps[who].AllTerminal?
    case Write => sweeps[who].NoneFailed? || sweeps[who].SomeFailed?
  }

  function NextSweep(g: Graph, status: map<int, Status>, w: Sweep, a: SweepAct): Sweep
    requires SweepEnabled(map[Resuming := w], Resuming, a)
  {
    match a
    case ListKids => Children(Kids(g, w.id))
    case CheckParents(c) =>
      if AllParentsTerminal(g, status, c) then AllTerminal(w.todo - {c}, c) else Children(w.todo - {c})
    case CountFailures =>
      if SomeParentFailed(g, status, w.c) then SomeFailed(w.todo, w.c) else NoneFailed(w.todo, w.c)
    case Write => Children(w.todo)
  }

  function ApplySweep(g: Graph, s: Sys, who: Caller, a: SweepAct): Sys
    requires SweepEnabled(s.sweeps, who, a)
  {
    var w := s.sweeps[who];
    s.(sweeps := s.sweeps[who := NextSweep(g, s.status, w, a)],
       status := if a.Write? then IfBlocked(s.status, w.c, if w.NoneFailed? then Pending else Failed) else s.status)
  }

  predicate OtherEnabled(s: Sys, o: OtherAct) {
    match o
    case Close => s.main == Idle
    case ResumeStart => s.main == Idle
    case ResumePick(t) => s.main.Resume? && t in s.main.todo
    case ResumeReturn => s.main.ResumeCall? && Resuming in s.sweeps && s.sweeps[Resuming] == Children({})
    case ResumeEnd => s.main == Resume({})
    case ExternalCall(k, _) => External(k) !in s.sweeps
    case ExternalReturn(k) => External(k) in s.sweeps && s.sweeps[External(k)] == Children({})
    case Crash => true
  }

  /** The task whose completion ResumeActiveTasks looks up for t: its depends_on column. */
  predicate ResumeFinds(g: Graph, status: map<int, Status>, t: int) {
    t in g.dep && g.dep[t] > 0 && Is(status, g.dep[t], Completed)
  }

  function OtherMain(g: Graph, s: Sys, o: OtherAct): Main
    requires OtherEnabled(s, o)
  {
    match o
    case ResumeStart => Resume(WithStatusSet(s.status, Blocked))
    case ResumePick(t) =>
      if ResumeFinds(g, s.status, t) then ResumeCall(s.main.todo - {t}) else Resume(s.main.todo - {t})
    case ResumeReturn => Resume(s.main.todo)
    case ResumeEnd | Crash => Idle
    case Close | ExternalCall(_, _) | ExternalReturn(_) => s.main
  }

  function SweepsAfter(g: Graph, s: Sys, o: OtherAct): map<Caller, Sweep>
    requires OtherEnabled(s, o)
  {
    match o
    case ResumePick(t) =>
      if ResumeFinds(g, s.status, t) then s.sweeps[Resuming := Listing(g.dep[t])] else s.sweeps
    case ResumeReturn => s.sweeps - {Resuming}
    case ExternalCall(k, id) => s.sweeps[External(k) := Listing(id)]
    case ExternalReturn(k) => s.sweeps - {External(k)}
    case Crash => map[]
    case Close | ResumeStart | ResumeEnd => s.sweeps
  }

  function ApplyOther(g: Graph, s: Sys, o: OtherAct): Sys
    requires OtherEnabled(s, o)
  {
    var s1 := s.(main := OtherMain(g, s, o), sweeps := SweepsAfter(g, s, o));
    if o.Close? then s1.(closed := true, active := {})
    else if o.ResumeStart? then s1.(needResume := false)
    else if o.Crash? then
      s1.(active := {}, closed := false, workers := map[], launched := multiset{}, crashed := true, needResume := true)
    else s1
  }

  predicate Enabled(g: Graph, s: Sys, a: Action) {
    match a
    case Poll(p) => PollEnabled(g, s, p)
    case Worker(t, w) => WorkerEnabled(s, t, w)
    case Sweeping(who, sw) => SweepEnabled(s.sweeps, who, sw)
    case Other(o) => OtherEnabled(s, o)
  }

  function Apply(g: Graph, s: Sys, a: Action): Sys
    requires Enabled(g, s, a)
  {
    match a
    case Poll(p) => ApplyPoll(g, s, p)
    case Worker(t, w) => ApplyWorker(g, s, t, w)
    case Sweeping(who, sw) => ApplySweep(g, s, who, sw)
    case Other(o) => ApplyOther(g, s, o)
  }

  /** The store as it is when the tracker starts: a task with parents is blocked, the others are
      pending, leases are whatever was taken while the graph was built, and nothing runs. */
  predicate Init(g: Graph, s: Sys) {
    && s.status.Keys == g.parents.Keys
    && (forall t | t in s.status :: s.status[t] == if g.parents[t] == {} then Pending else Blocked)
    && s == Sys(s.status, s.leases, {}, false, map[], map[], Idle, multiset{}, {}, false, false)
  }

  /** A finite execution: states[k+1] is states[k] after acts[k]. */
  datatype Run = Run(states: seq<Sys>, acts: seq<Action>) {
    function Last(): Sys requires |states| > 0 { states[|states| - 1] }
  }

  ghost predicate IsRun(g: Graph, r: Run) {
    && |r.states| == |r.acts| + 1
    && forall k | 0 <= k < |r.acts| :: StepOk(g, r, k)
  }

  ghost predicate StepOk(g: Graph, r: Run, k: nat)
    requires k < |r.acts| < |r.states|
  {
    Enabled(g, r.states[k], r.acts[k]) && r.states[k + 1] == Apply(g, r.states[k], r.acts[k])
  }

  ghost predicate Execution(g: Graph, r: Run) {
    WellFormed(g) && IsRun(g, r) && Init(g, r.states[0])
  }

  lemma Extended(g: Graph, r: Run, a: Action, s: Sys)
    requires Execution(g, r) && Enabled(g, r.Last(), a) && s == Apply(g, r.Last(), a)
    ensures Execution(g, Run(r.states + [s], r.acts + [a]))
  {
    var r' := Run(r.states + [s], r.acts + [a]);
    forall k | 0 <= k < |r'.acts| ensures StepOk(g, r', k) {
      if k < |r.acts| { assert StepOk(g, r, k); }
    }
  }

  /** r' goes on from r. */
  ghost predicate Grew(r: Run, r': Run) {
    r.acts <= r'.acts && r.states <= r'.states
  }
}
