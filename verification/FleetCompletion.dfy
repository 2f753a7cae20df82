/** Where a fleet ends: a task completes exactly when its own worker did not lose and it is in no set
    of tasks stuck behind the losers and behind the leases its members were given before the tracker
    started. */
module FleetCompletion {
  import opened FleetMachine
  import opened Sets
  import opened FleetSafety
  import opened FleetWakeup
  import opened FleetProgress
  import opened FleetFair

  // ----- stuck sets

  ghost predicate WaitsWithin(g: Graph, tasks: set<int>, m: int) {
    exists q :: q in Parents(g, m) && q in tasks
  }

  /** Path p was leased, before the start, to one of the holders other than m. */
  ghost predicate Withheld(leases: map<string, int>, holders: set<int>, m: int, p: string) {
    p in leases && leases[p] in holders && leases[p] != m
  }

  ghost predicate Contends(g: Graph, leases: map<string, int>, holders: set<int>, m: int) {
    exists j :: 0 <= j < |Paths(g, m)| && Withheld(leases, holders, m, Paths(g, m)[j])
  }

  /** A conflict on the first path never gives anything back. */
  ghost predicate ContendsFirst(g: Graph, leases: map<string, int>, holders: set<int>, m: int) {
    |Paths(g, m)| > 0 && Withheld(leases, holders, m, Paths(g, m)[0])
  }

  ghost predicate Waits(g: Graph, lost: set<int>, tasks: set<int>, m: int) {
    WaitsWithin(g, tasks, m) || WaitsWithin(g, lost, m)
  }

  /** Every task of the set waits for a parent in it or lost, or for a path a holder keeps, and every
      holder waits for such a parent or for its own first path. */
  ghost predicate StuckBehind(g: Graph, leases: map<string, int>, lost: set<int>, holders: set<int>, tasks: set<int>) {
    && tasks != {} && holders <= tasks <= g.parents.Keys
    && (forall m | m in tasks :: Waits(g, lost, tasks, m) || Contends(g, leases, holders, m))
    && (forall h | h in holders :: Waits(g, lost, tasks, h) || ContendsFirst(g, leases, holders, h))
  }

  /** Stuck although nobody lost. */
  ghost predicate StuckSet(g: Graph, leases: map<string, int>, holders: set<int>, tasks: set<int>) {
    StuckBehind(g, leases, {}, holders, tasks)
  }

  ghost predicate Stuckless(g: Graph, leases: map<string, int>) {
    forall holders, tasks :: !StuckSet(g, leases, holders, tasks)
  }

  // ----- a stuck set stays stuck, crashes and failures included

  ghost predicate Undispatched(s: Sys, m: int) {
    m in s.status && s.status[m] != Active && s.status[m] != Completed && m !in s.workers && m !in s.launched
  }

  ghost predicate Keeps(leases0: map<string, int>, leases: map<string, int>, holders: set<int>) {
    forall p | p in leases0 && leases0[p] in holders :: p in leases && leases[p] == leases0[p]
  }

  ghost predicate PollHarmless(main: Main, holders: set<int>) {
    (main.RollingBack? ==> main.t !in holders) && (main.Leasing? && main.t in holders ==> main.i == 0)
  }

  ghost predicate Stuck(leases0: map<string, int>, holders: set<int>, tasks: set<int>, s: Sys) {
    (forall m | m in tasks :: Undispatched(s, m)) && Keeps(leases0, s.leases, holders) && PollHarmless(s.main, holders)
  }

  ghost predicate NotCompleted(status: map<int, Status>, tasks: set<int>) {
    forall m | m in tasks :: !Is(status, m, Completed)
  }

  /** A candidate of the poll waits for no parent of the set. */
  lemma CandidateContends(g: Graph, s: Sys, lost: set<int>, tasks: set<int>, t: int)
    requires StatusOrder(g, s.status) && Is(s.status, t, Pending) && NotCompleted(s.status, lost)
    requires forall m | m in tasks :: Undispatched(s, m)
    ensures !Waits(g, lost, tasks, t)
  {
    assert ParentsDone(g, s.status, t);
  }

  lemma StuckKeptByPoll(g: Graph, s: Sys, p: PollAct, leases0: map<string, int>, lost: set<int>, holders: set<int>,
                        tasks: set<int>)
    requires PollOk(g, s) && StatusOrder(g, s.status) && LeasesOk(g, s.leases, s.workers, s.main) &&
      PollEnabled(g, s, p)
    requires StuckBehind(g, leases0, lost, holders, tasks) && Stuck(leases0, holders, tasks, s) &&
      NotCompleted(s.status, lost)
    ensures Stuck(leases0, holders, tasks, ApplyPoll(g, s, p))
  {
    if s.main.Leasing? { CandidateContends(g, s, lost, tasks, s.main.t); }
  }

  lemma StuckKept(g: Graph, s: Sys, a: Action, leases0: map<string, int>, lost: set<int>, holders: set<int>,
                  tasks: set<int>)
    requires Safe(g, s) && Enabled(g, s, a) && NotCompleted(s.status, lost)
    requires StuckBehind(g, leases0, lost, holders, tasks) && Stuck(leases0, holders, tasks, s)
    ensures Stuck(leases0, holders, tasks, Apply(g, s, a))
  {
    match a
    case Poll(p) => StuckKeptByPoll(g, s, p, leases0, lost, holders, tasks);
    case Worker(t, w) => StuckKeptByWorker(g, s, t, w, leases0, holders, tasks);
    case Sweeping(who, sw) =>
    case Other(o) => StuckKeptByOther(g, s, o, leases0, holders, tasks);
  }

  lemma StuckKeptByWorker(g: Graph, s: Sys, t: int, w: WorkerAct, leases0: map<string, int>, holders: set<int>,
                          tasks: set<int>)
    requires WorkerEnabled(s, t, w) && holders <= tasks && Stuck(leases0, holders, tasks, s)
    ensures Stuck(leases0, holders, tasks, ApplyWorker(g, s, t, w))
  {
    var s' := ApplyWorker(g, s, t, w);
    assert t !in tasks by { assert t in tasks ==> Undispatched(s, t); }
    forall m | m in tasks ensures Undispatched(s', m) { assert Undispatched(s, m); }
  }

  lemma StuckKeptByOther(g: Graph, s: Sys, o: OtherAct, leases0: map<string, int>, holders: set<int>, tasks: set<int>)
    requires OtherEnabled(s, o) && Stuck(leases0, holders, tasks, s)
    ensures Stuck(leases0, holders, tasks, ApplyOther(g, s, o))
  {
    var s' := ApplyOther(g, s, o);
    assert s'.main == OtherMain(g, s, o) && s'.leases == s.leases;
    forall m | m in tasks ensures Undispatched(s', m) { assert Undispatched(s, m); }
  }

  lemma StillUncompleted(g: Graph, s: Sys, a: Action, lost: set<int>)
    requires PcsOk(s.status, s.workers) && SweepsOk(g, s.status, s.sweeps) && Enabled(g, s, a)
    requires NotCompleted(Apply(g, s, a).status, lost)
    ensures NotCompleted(s.status, lost)
  {
    StatusChanges(g, s, a);
    forall m | m in lost ensures !Is(s.status, m, Completed) {
      assert m in s.status ==> StatusMove(g, s.status, m, Apply(g, s, a).status[m]);
    }
  }

  /** While the lost tasks are not completed, no task stuck behind them is dispatched, in any
      execution, over any number of restarts. */
  lemma {:induction false} StuckNeverRuns(g: Graph, r: Run, k: nat, lost: set<int>, holders: set<int>, tasks: set<int>)
    requires Execution(g, r) && k < |r.states| && StuckBehind(g, r.states[0].leases, lost, holders, tasks)
    requires NotCompleted(r.states[k].status, lost)
    ensures Stuck(r.states[0].leases, holders, tasks, r.states[k])
  {
    if k == 0 {
      forall m | m in tasks ensures Undispatched(r.states[0], m) { assert m in g.parents; }
    } else {
      var s, a := r.states[k - 1], r.acts[k - 1];
      SafeAt(g, r, k - 1);
      assert StepOk(g, r, k - 1);
      StillUncompleted(g, s, a, lost);
      StuckNeverRuns(g, r, k - 1, lost, holders, tasks);
      StuckKept(g, s, a, r.states[0].leases, lost, holders, tasks);
    }
  }

  // ----- who holds leases in a steady run

  /** The tasks that have given back all their leases in a rollback. */
  ghost function Dropped(r: Run, k: nat): set<int>
    requires |r.states| == |r.acts| + 1 && k < |r.states|
  {
    if k == 0 then {} else Dropped(r, k - 1) + DropsIn(r.states[k - 1], r.acts[k - 1])
  }

  ghost function DropsIn(s: Sys, a: Action): set<int> {
    if a == Poll(Unlease) && s.main.RollingBack? then {s.main.t} else {}
  }

  /** Who may hold a lease: a goroutine; a task that was given it before the start and has dropped
      nothing since; or the candidate of the poll for a path it has just been through. */
  ghost predicate Holder(g: Graph, leases0: map<string, int>, dropped: set<int>, s: Sys, p: string, h: int) {
    || h in s.workers
    || (h !in s.launched &&
        (|| (p in leases0 && leases0[p] == h && h !in dropped)
         || (s.main.Leasing? && s.main.t == h &&
             exists j :: 0 <= j < s.main.i && j < |Paths(g, h)| && Paths(g, h)[j] == p)
         || (s.main.RollingBack? && s.main.t == h)))
  }

  ghost predicate Holders(g: Graph, leases0: map<string, int>, dropped: set<int>, s: Sys) {
    forall p | p in s.leases :: Holder(g, leases0, dropped, s, p, s.leases[p])
  }

  lemma HoldersKeptByPoll(g: Graph, leases0: map<string, int>, dropped: set<int>, s: Sys, p: PollAct)
    requires Control(g, s) && Holders(g, leases0, dropped, s) && PollEnabled(g, s, p)
    ensures Holders(g, leases0, dropped + DropsIn(s, Poll(p)), ApplyPoll(g, s, p))
  {
    var s' := ApplyPoll(g, s, p);
    if s.main.Leasing? || s.main.RollingBack? { CandidateNotRunning(g, s); }
    forall x | x in s'.leases ensures Holder(g, leases0, dropped + DropsIn(s, Poll(p)), s', x, s'.leases[x]) {
      if x in s.leases { assert Holder(g, leases0, dropped, s, x, s.leases[x]); }
    }
  }

  lemma HoldersKeptByWorker(g: Graph, leases0: map<string, int>, dropped: set<int>, s: Sys, t: int, w: WorkerAct)
    requires Holders(g, leases0, dropped, s) && WorkerEnabled(s, t, w)
    ensures Holders(g, leases0, dropped, ApplyWorker(g, s, t, w))
  {
    var s' := ApplyWorker(g, s, t, w);
    forall x | x in s'.leases ensures Holder(g, leases0, dropped, s', x, s'.leases[x]) {
      assert Holder(g, leases0, dropped, s, x, s.leases[x]);
    }
  }

  lemma HoldersKeptByOther(g: Graph, leases0: map<string, int>, dropped: set<int>, s: Sys, o: OtherAct)
    requires Holders(g, leases0, dropped, s) && OtherEnabled(s, o) && !o.Crash?
    ensures Holders(g, leases0, dropped, ApplyOther(g, s, o))
  {
    var s' := ApplyOther(g, s, o);
    SameTasks(g, s, o);
    assert s'.leases == s.leases && s'.main == OtherMain(g, s, o);
    forall x | x in s'.leases ensures Holder(g, leases0, dropped, s', x, s'.leases[x]) {
      assert Holder(g, leases0, dropped, s, x, s.leases[x]);
    }
  }

  lemma HoldersKept(g: Graph, leases0: map<string, int>, dropped: set<int>, s: Sys, a: Action)
    requires Control(g, s) && Holders(g, leases0, dropped, s) && Enabled(g, s, a) && Steady(a)
    ensures Holders(g, leases0, dropped + DropsIn(s, a), Apply(g, s, a))
  {
    assert !a.Poll? ==> dropped + DropsIn(s, a) == dropped;
    match a
    case Poll(p) => HoldersKeptByPoll(g, leases0, dropped, s, p);
    case Worker(t, w) => HoldersKeptByWorker(g, leases0, dropped, s, t, w);
    case Sweeping(who, sw) =>
      forall x | x in s.leases ensures Holder(g, leases0, dropped, ApplySweep(g, s, who, sw), x, s.leases[x]) {
        assert Holder(g, leases0, dropped, s, x, s.leases[x]);
      }
    case Other(o) => HoldersKeptByOther(g, leases0, dropped, s, o);
  }

  lemma {:induction false} HoldersAt(g: Graph, n: nat, r: Run, k: nat)
    requires SteadyRun(g, n, r) && k < |r.states|
    ensures Holders(g, r.states[0].leases, Dropped(r, k), r.states[k])
  {
    if k == 0 {
      forall p | p in r.states[0].leases
        ensures Holder(g, r.states[0].leases, {}, r.states[0], p, r.states[0].leases[p]) {}
    } else {
      HoldersAt(g, n, r, k - 1);
      SafeAt(g, r, k - 1);
      assert StepOk(g, r, k - 1);
      HoldersKept(g, r.states[0].leases, Dropped(r, k - 1), r.states[k - 1], r.acts[k - 1]);
    }
  }

  // ----- a poll of a quiet fleet

  lemma QuietActive(g: Graph, s: Sys)
    requires PoolOk(g.maxWorkers, s.closed, s.active, s.workers) && s.workers == map[]
    ensures s.active == {}
  {
    assert InFlight(s.workers) == {};
  }

  /** With nobody running, nothing is completed or made ready before the next dispatch. */
  lemma QuietStatus(g: Graph, s: Sys, a: Action, t: int)
    requires Safe(g, s) && Awake(g, s) && Enabled(g, s, a) && Steady(a) && s.workers == map[]
    ensures Is(Apply(g, s, a).status, t, Completed) <==> Is(s.status, t, Completed)
    ensures Is(Apply(g, s, a).status, t, Pending) <==> Is(s.status, t, Pending)
  {
    match a
    case Poll(p) => assert ApplyPoll(g, s, p).status == s.status;
    case Worker(_, w) =>
    case Sweeping(who, sw) => QuietSweep(g, s, who, sw, t);
    case Other(o) => SameTasks(g, s, o);
  }

  lemma QuietSweep(g: Graph, s: Sys, who: Caller, sw: SweepAct, t: int)
    requires SweepsOk(g, s.status, s.sweeps) && Awake(g, s) && CallersOk(s.workers, s.sweeps) && s.workers == map[]
    requires SweepEnabled(s.sweeps, who, sw)
    ensures Is(ApplySweep(g, s, who, sw).status, t, Completed) <==> Is(s.status, t, Completed)
    ensures Is(ApplySweep(g, s, who, sw).status, t, Pending) <==> Is(s.status, t, Pending)
  {
    if sw.Write? {
      assert SweepOk(g, s.status, s.sweeps[who]);
      assert s.sweeps[who].NoneFailed? ==> !Waiting(g, s, s.sweeps[who].c);
    }
  }

  /** The tasks that are not completed though their worker, if there was one, did not lose. */
  ghost function Remaining(g: Graph, s: Sys, lost: set<int>): set<int> {
    set t | t in g.parents && !Is(s.status, t, Completed) && t !in lost
  }

  /** With nobody running, such a task is pending, or has a parent that is not completed either. */
  lemma QuietTask(g: Graph, s: Sys, lost: set<int>, m: int)
    requires WellFormed(g) && Steadily(g, s, lost) && s.workers == map[] && m in Remaining(g, s, lost)
    ensures m !in s.launched && (Is(s.status, m, Pending) || Waits(g, lost, Remaining(g, s, lost), m))
  {
    assert FateOk(s.status, s.workers, s.launched, lost, m);
    if !Is(s.status, m, Pending) {
      var q: int;
      if Is(s.status, m, Blocked) {
        assert !Waiting(g, s, m);
        q :| q in Parents(g, m) && !Is(s.status, q, Completed);
      } else {
        assert SomeParentFailed(g, s.status, m);
        q :| q in Parents(g, m) && Is(s.status, q, Failed);
      }
      assert q in Remaining(g, s, lost) || q in lost;
    }
  }

  /** The poll has tried m in vain, and m keeps its leases if it has kept them so far. */
  ghost predicate Tried(g: Graph, leases0: map<string, int>, holders: set<int>, m: int) {
    Contends(g, leases0, holders, m) && (m in holders ==> ContendsFirst(g, leases0, holders, m))
  }

  ghost predicate AllTried(g: Graph, leases0: map<string, int>, holders: set<int>, s: Sys, rest: set<int>) {
    forall m | Is(s.status, m, Pending) && m !in rest :: Tried(g, leases0, holders, m)
  }

  /** A poll that has dispatched nothing, and rolled back nobody who still kept its leases. */
  ghost predicate Fruitless(g: Graph, leases0: map<string, int>, holders: set<int>, s: Sys) {
    && s.workers == map[]
    && match s.main
       case Counted => true
       case Scanning(todo) => AllTried(g, leases0, holders, s, todo)
       case Leasing(todo, t, _) => AllTried(g, leases0, holders, s, todo + {t})
       case RollingBack(todo, t, _) => AllTried(g, leases0, holders, s, todo + {t}) && Contends(g, leases0, holders, t)
       case _ => false
  }

  /** The lease the candidate runs into was there before the start, and its holder kept it. */
  lemma ConflictIsOld(g: Graph, leases0: map<string, int>, lost: set<int>, dropped: set<int>, s: Sys)
    requires Steadily(g, s, lost) && Holders(g, leases0, dropped, s) && s.workers == map[]
    requires forall p | p in leases0 :: leases0[p] in g.parents
    requires s.main.Leasing? && s.main.i < |Paths(g, s.main.t)| && Conflict(g, s)
    ensures Withheld(leases0, Remaining(g, s, lost) - dropped, s.main.t, Paths(g, s.main.t)[s.main.i])
  {
    OwnerIsOld(g, leases0, lost, dropped, s, Paths(g, s.main.t)[s.main.i]);
  }

  /** With nobody running, a lease belongs to the candidate or to a task that was given it before the
      start and has not been dispatched. */
  lemma OwnerIsOld(g: Graph, leases0: map<string, int>, lost: set<int>, dropped: set<int>, s: Sys, p: string)
    requires Steadily(g, s, lost) && Holders(g, leases0, dropped, s) && s.workers == map[]
    requires forall q | q in leases0 :: leases0[q] in g.parents
    requires s.main.Leasing? && p in s.leases && s.leases[p] != s.main.t
    ensures var h := s.leases[p];
      h in Remaining(g, s, lost) && h !in dropped && p in leases0 && leases0[p] == h
  {
    assert Holder(g, leases0, dropped, s, p, s.leases[p]);
    assert s.leases[p] in g.parents;
    assert FateOk(s.status, s.workers, s.launched, lost, s.leases[p]);
  }

  lemma FruitlessPollStep(g: Graph, leases0: map<string, int>, lost: set<int>, dropped: set<int>, s: Sys, p: PollAct)
    requires WellFormed(g) && Steadily(g, s, lost) && Holders(g, leases0, dropped, s) && PollEnabled(g, s, p)
    requires forall p | p in leases0 :: leases0[p] in g.parents
    requires p != Launch && DropsIn(s, Poll(p)) <= dropped
    requires Fruitless(g, leases0, Remaining(g, s, lost) - dropped, s)
    ensures p != End ==> Fruitless(g, leases0, Remaining(g, s, lost) - dropped, ApplyPoll(g, s, p))
    ensures p == End ==> AllTried(g, leases0, Remaining(g, s, lost) - dropped, s, {})
  {
    QuietActive(g, s);
    var holders := Remaining(g, s, lost) - dropped;
    match p
    case Lease =>
      if Conflict(g, s) {
        ConflictIsOld(g, leases0, lost, dropped, s);
        if s.main.i == 0 { assert Tried(g, leases0, holders, s.main.t); }
      }
    case Unlease =>
      if s.main.k == 1 { assert Tried(g, leases0, holders, s.main.t); }
    case Pick(t) =>
      assert s.main.todo == s.main.todo - {t} + {t};
    case _ =>
  }

  lemma FruitlessStep(g: Graph, leases0: map<string, int>, lost: set<int>, dropped: set<int>, s: Sys, a: Action)
    requires WellFormed(g) && Steadily(g, s, lost) && Holders(g, leases0, dropped, s) && Enabled(g, s, a) && Steady(a)
    requires forall p | p in leases0 :: leases0[p] in g.parents
    requires a != Poll(Launch) && DropsIn(s, a) <= dropped
    requires Fruitless(g, leases0, Remaining(g, s, lost) - dropped, s)
    ensures a != Poll(End) ==> Fruitless(g, leases0, Remaining(g, s, lost) - dropped, Apply(g, s, a))
    ensures a == Poll(End) ==> AllTried(g, leases0, Remaining(g, s, lost) - dropped, s, {})
  {
    match a
    case Poll(p) => FruitlessPollStep(g, leases0, lost, dropped, s, p);
    case Worker(t, w) =>
    case Sweeping(who, sw) =>
      forall t ensures Is(Apply(g, s, a).status, t, Pending) <==> Is(s.status, t, Pending) { QuietStatus(g, s, a, t); }
    case Other(o) => SameTasks(g, s, o); assert ApplyOther(g, s, o).main == OtherMain(g, s, o);
  }

  /** Nobody runs, and whatever is not completed is lost or stuck. */
  ghost predicate Settled(g: Graph, leases0: map<string, int>, lost: set<int>, s: Sys) {
    && s.workers == map[]
    && (Remaining(g, s, lost) == {} || exists holders :: StuckBehind(g, leases0, lost, holders, Remaining(g, s, lost)))
  }

  /** When a whole poll was fruitless, the fleet is settled. */
  lemma FruitlessIsSettled(g: Graph, leases0: map<string, int>, lost: set<int>, dropped: set<int>, s: Sys)
    requires WellFormed(g) && Steadily(g, s, lost) && s.workers == map[]
    requires AllTried(g, leases0, Remaining(g, s, lost) - dropped, s, {})
    ensures Settled(g, leases0, lost, s)
  {
    var tasks, holders := Remaining(g, s, lost), Remaining(g, s, lost) - dropped;
    forall m | m in tasks
      ensures Waits(g, lost, tasks, m) ||
        (Contends(g, leases0, holders, m) && (m in holders ==> ContendsFirst(g, leases0, holders, m)))
    {
      QuietTask(g, s, lost, m);
      if Is(s.status, m, Pending) { assert Tried(g, leases0, holders, m); }
    }
    if tasks != {} { assert StuckBehind(g, leases0, lost, holders, tasks); }
  }

  /** The step makes a task give back, for the first time, what it was given before the start. */
  ghost predicate DropsMore(r: Run, k: nat)
    requires |r.states| == |r.acts| + 1 && k < |r.acts|
  {
    !(DropsIn(r.states[k], r.acts[k]) <= Dropped(r, k))
  }

  ghost predicate SettledAt(g: Graph, r: Run, k: nat)
    requires |r.states| == |r.acts| + 1 && k < |r.states|
  {
    Settled(g, r.states[0].leases, Losers(r, k), r.states[k])
  }

  ghost predicate FruitlessAt(g: Graph, r: Run, k: nat)
    requires |r.states| == |r.acts| + 1 && k < |r.states|
  {
    Fruitless(g, r.states[0].leases, Remaining(g, r.states[k], Losers(r, k)) - Dropped(r, k), r.states[k])
  }

  lemma FruitlessNext(g: Graph, n: nat, r: Run, k: nat)
    requires SteadyRun(g, n, r) && k < |r.acts| && r.acts[k] != Poll(Launch) && !DropsMore(r, k) && FruitlessAt(g, r, k)
    ensures if r.acts[k] == Poll(End) then SettledAt(g, r, k) else FruitlessAt(g, r, k + 1)
  {
    var leases0, dropped, lost, s, a := r.states[0].leases, Dropped(r, k), Losers(r, k), r.states[k], r.acts[k];
    SteadilyAt(g, n, r, k);
    HoldersAt(g, n, r, k);
    assert StepOk(g, r, k);
    FruitlessStep(g, leases0, lost, dropped, s, a);
    if a == Poll(End) {
      FruitlessIsSettled(g, leases0, lost, dropped, s);
    } else {
      QuietRemaining(g, n, r, k);
      SameDropped(r, k);
    }
  }

  lemma SameDropped(r: Run, k: nat)
    requires |r.states| == |r.acts| + 1 && k < |r.acts| && !DropsMore(r, k)
    ensures Dropped(r, k + 1) == Dropped(r, k)
  {
  }

  /** With nobody running nobody loses and nothing is completed. */
  lemma QuietRemaining(g: Graph, n: nat, r: Run, k: nat)
    requires SteadyRun(g, n, r) && k < |r.acts| && r.states[k].workers == map[]
    ensures Losers(r, k + 1) == Losers(r, k)
    ensures Remaining(g, r.states[k + 1], Losers(r, k + 1)) == Remaining(g, r.states[k], Losers(r, k))
  {
    SteadilyAt(g, n, r, k);
    assert StepOk(g, r, k);
    forall t ensures Is(r.states[k + 1].status, t, Completed) <==> Is(r.states[k].status, t, Completed) {
      QuietStatus(g, r.states[k], r.acts[k], t);
    }
  }

  lemma QuietPollStarts(g: Graph, n: nat, r: Run, i: nat)
    requires SteadyRun(g, n, r) && i < |r.acts| && r.acts[i] == Poll(Start) && r.states[i].workers == map[]
    ensures FruitlessAt(g, r, i + 1)
  {
    SteadilyAt(g, n, r, i);
    QuietActive(g, r.states[i]);
    assert StepOk(g, r, i);
    assert r.states[i + 1] == ApplyPoll(g, r.states[i], Start);
  }

  lemma FruitlessIsPolling(g: Graph, r: Run, k: nat)
    requires |r.states| == |r.acts| + 1 && k < |r.states| && FruitlessAt(g, r, k)
    ensures r.states[k].main != Idle
  {
  }

  /** A poll of a quiet fleet dispatches a task, makes one give back its first leases, or finds the
      fleet settled. */
  lemma QuietPoll(g: Graph, n: nat, r: Run, i: nat, j: nat) returns (k: nat)
    requires SteadyRun(g, n, r) && i < j < |r.states| && r.acts[i] == Poll(Start)
    requires r.states[i].workers == map[] && r.states[j].main == Idle
    ensures i < k < j && (r.acts[k] == Poll(Launch) || DropsMore(r, k) || SettledAt(g, r, k))
  {
    QuietPollStarts(g, n, r, i);
    k := FruitlessUntil(g, n, r, i + 1, j);
  }

  lemma {:induction false} FruitlessUntil(g: Graph, n: nat, r: Run, i: nat, j: nat) returns (k: nat)
    requires SteadyRun(g, n, r) && i <= j < |r.states| && FruitlessAt(g, r, i) && r.states[j].main == Idle
    ensures i <= k < j && (r.acts[k] == Poll(Launch) || DropsMore(r, k) || SettledAt(g, r, k))
    decreases j - i
  {
    FruitlessIsPolling(g, r, i);
    k := i;
    if r.acts[i] != Poll(Launch) && !DropsMore(r, i) {
      FruitlessNext(g, n, r, i);
      if r.acts[i] != Poll(End) { k := FruitlessUntil(g, n, r, i + 1, j); }
    }
  }

  // ----- a settled fleet stays settled

  /** A settled fleet dispatches nobody: the candidate would be one of the stuck. */
  lemma NoLaunch(g: Graph, n: nat, r: Run, k: nat, holders: set<int>, rest: set<int>)
    requires SteadyRun(g, n, r) && k < |r.acts| && r.states[k].workers == map[]
    requires rest == Remaining(g, r.states[k], Losers(r, k))
    requires rest == {} || StuckBehind(g, r.states[0].leases, Losers(r, k), holders, rest)
    ensures r.acts[k] != Poll(Launch)
  {
    var s, s', lost := r.states[k], r.states[k + 1], Losers(r, k);
    SteadilyAt(g, n, r, k);
    assert StepOk(g, r, k);
    if r.acts[k] == Poll(Launch) {
      CandidateIsRemaining(g, s, lost);
      LosersStayOpen(g, s, lost);
      assert s' == ApplyPoll(g, s, Launch);
      StuckNeverRuns(g, r, k + 1, lost, holders, rest);
    }
  }

  lemma CandidateIsRemaining(g: Graph, s: Sys, lost: set<int>)
    requires Steadily(g, s, lost) && s.main.Leasing?
    ensures s.main.t in Remaining(g, s, lost)
  {
    CandidateNotRunning(g, s);
    assert FateOk(s.status, s.workers, s.launched, lost, s.main.t);
  }

  lemma LosersStayOpen(g: Graph, s: Sys, lost: set<int>)
    requires Fates(s.status, s.workers, s.launched, lost)
    ensures NotCompleted(s.status, lost)
  {
    forall m | m in lost ensures !Is(s.status, m, Completed) {
      assert FateOk(s.status, s.workers, s.launched, lost, m);
    }
  }

  lemma SettledNext(g: Graph, n: nat, r: Run, k: nat)
    requires SteadyRun(g, n, r) && k < |r.acts| && SettledAt(g, r, k)
    ensures SettledAt(g, r, k + 1) && Losers(r, k + 1) == Losers(r, k)
  {
    var lost := Losers(r, k);
    var rest := Remaining(g, r.states[k], lost);
    var holders: set<int> := {};
    if rest != {} { holders :| StuckBehind(g, r.states[0].leases, lost, holders, rest); }
    NoLaunch(g, n, r, k, holders, rest);
    assert StepOk(g, r, k);
    NoNewWorker(g, r.states[k], r.acts[k]);
    QuietRemaining(g, n, r, k);
  }

  lemma {:induction false} SettledStays(g: Graph, n: nat, r: Run, i: nat, k: nat)
    requires SteadyRun(g, n, r) && i <= k < |r.states| && SettledAt(g, r, i)
    ensures SettledAt(g, r, k) && Losers(r, k) == Losers(r, i)
    decreases k
  {
    if i < k {
      SettledStays(g, n, r, i, k - 1);
      SettledNext(g, n, r, k - 1);
    }
  }

  /** No worker appears without a dispatch. */
  lemma NoNewWorker(g: Graph, s: Sys, a: Action)
    requires Enabled(g, s, a) && a != Poll(Launch)
    ensures Apply(g, s, a).workers.Keys <= s.workers.Keys
  {
    if a.Poll? {
      assert ApplyPoll(g, s, a.p).workers == s.workers;
    } else if a.Other? {
      assert ApplyOther(g, s, a.o).workers.Keys <= s.workers.Keys;
    }
  }

  lemma {:induction false} QuietStays(g: Graph, n: nat, r: Run, i: nat, j: nat)
    requires SteadyRun(g, n, r) && i <= j < |r.states| && r.states[i].workers == map[]
    requires forall k | i <= k < j :: r.acts[k] != Poll(Launch)
    ensures r.states[j].workers == map[]
    decreases j
  {
    if i < j {
      QuietStays(g, n, r, i, j - 1);
      assert StepOk(g, r, j - 1);
      NoNewWorker(g, r.states[j - 1], r.acts[j - 1]);
    }
  }

  // ----- every round brings the fleet nearer to being settled

  lemma {:induction false} DroppedAreTasks(g: Graph, n: nat, r: Run, k: nat)
    requires SteadyRun(g, n, r) && k < |r.states|
    ensures Dropped(r, k) <= g.parents.Keys
  {
    if k > 0 {
      DroppedAreTasks(g, n, r, k - 1);
      SafeAt(g, r, k - 1);
    }
  }

  lemma {:induction false} DroppedGrows(r: Run, i: nat, j: nat)
    requires |r.states| == |r.acts| + 1 && i <= j < |r.states|
    ensures Dropped(r, i) <= Dropped(r, j)
    decreases j
  {
    if i < j { DroppedGrows(r, i, j - 1); }
  }

  /** The tasks that may still give back their first leases. */
  ghost function ToDrop(g: Graph, r: Run, k: nat): nat
    requires |r.states| == |r.acts| + 1 && k < |r.states|
  {
    |g.parents.Keys - Dropped(r, k)|
  }

  ghost function Left(g: Graph, n: nat, r: Run, k: nat): nat
    requires |r.states| == |r.acts| + 1 && k < |r.states|
  {
    Rank(g, r.states[k], n) + ToDrop(g, r, k)
  }

  lemma FewerToDrop(g: Graph, r: Run, i: nat, j: nat)
    requires |r.states| == |r.acts| + 1 && i <= j < |r.states|
    ensures ToDrop(g, r, j) <= ToDrop(g, r, i)
  {
    DroppedGrows(r, i, j);
    SubsetSize(g.parents.Keys - Dropped(r, j), g.parents.Keys - Dropped(r, i));
  }

  /** A dispatch or a goroutine's step between i and j makes less be left. */
  lemma MoveLeavesLess(g: Graph, n: nat, r: Run, i: nat, k: nat, j: nat, t: int)
    requires SteadyRun(g, n, r) && i <= k < j < |r.states| && Advances(r.states[k], r.acts[k], t)
    ensures Left(g, n, r, j) < Left(g, n, r, i)
  {
    RankDrops(g, n, r, i, k, j, t);
    FewerToDrop(g, r, i, j);
  }

  /** And so does a first rollback. */
  lemma DropLeavesLess(g: Graph, n: nat, r: Run, i: nat, k: nat, j: nat)
    requires SteadyRun(g, n, r) && i <= k < j < |r.states| && DropsMore(r, k)
    ensures Left(g, n, r, j) < Left(g, n, r, i)
  {
    RankMonotone(g, n, r, i, j);
    DropCounts(g, n, r, i, k, j);
  }

  lemma DropCounts(g: Graph, n: nat, r: Run, i: nat, k: nat, j: nat)
    requires SteadyRun(g, n, r) && i <= k < j < |r.states| && DropsMore(r, k)
    ensures ToDrop(g, r, j) < ToDrop(g, r, i)
  {
    FewerToDrop(g, r, i, k);
    OneFewerToDrop(g, n, r, k);
    FewerToDrop(g, r, k + 1, j);
  }

  lemma OneFewerToDrop(g: Graph, n: nat, r: Run, k: nat)
    requires SteadyRun(g, n, r) && k < |r.acts| && DropsMore(r, k)
    ensures ToDrop(g, r, k + 1) < ToDrop(g, r, k)
  {
    DroppedAreTasks(g, n, r, k + 1);
    assert Dropped(r, k + 1) == Dropped(r, k) + DropsIn(r.states[k], r.acts[k]);
    MoreIsLeft(g.parents.Keys, Dropped(r, k), r.states[k].main.t);
  }

  lemma MoreIsLeft(all: set<int>, gone: set<int>, t: int)
    requires t in all && t !in gone
    ensures |all - (gone + {t})| < |all - gone|
  {
    assert all - (gone + {t}) == (all - gone) - {t};
  }

  /** A fair round leaves less to do, or the fleet is settled by its end. */
  lemma RoundDecreases(g: Graph, n: nat, r: Run, i: nat, j: nat)
    requires SteadyRun(g, n, r) && FairRound(r, i, j)
    ensures Left(g, n, r, j) < Left(g, n, r, i) || SettledAt(g, r, j)
  {
    if r.states[i].workers != map[] {
      assert r.states[i].workers.Keys != {};
      var t := Element(r.states[i].workers.Keys);
      assert Moved(r, i, j, t);
      var k :| i <= k < j && Advances(r.states[k], r.acts[k], t);
      MoveLeavesLess(g, n, r, i, k, j, t);
    } else {
      var k := ProgressWithin(g, n, r, i, j);
      if DropsMore(r, k) {
        DropLeavesLess(g, n, r, i, k, j);
      } else if t :| Advances(r.states[k], r.acts[k], t) {
        MoveLeavesLess(g, n, r, i, k, j, t);
      } else {
        SettledStays(g, n, r, k, j);
      }
    }
  }

  lemma ProgressWithin(g: Graph, n: nat, r: Run, i: nat, j: nat) returns (k: nat)
    requires SteadyRun(g, n, r) && FairRound(r, i, j) && r.states[i].workers == map[]
    ensures i <= k < j && (DropsMore(r, k) || (exists t :: Advances(r.states[k], r.acts[k], t)) || SettledAt(g, r, k))
  {
    var a, b :| i <= a < b <= j && r.acts[a] == Poll(Start) && r.states[b].main == Idle;
    if x :| i <= x < a && r.acts[x] == Poll(Launch) {
      k := x;
    } else {
      QuietStays(g, n, r, i, a);
      k := QuietPoll(g, n, r, a, b);
    }
    if r.acts[k] == Poll(Launch) {
      assert StepOk(g, r, k);
      assert Advances(r.states[k], r.acts[k], r.states[k].main.t);
    }
  }

  lemma {:induction false} RoundsSpend(g: Graph, n: nat, r: Run, cuts: seq<nat>, i: nat)
    requires SteadyRun(g, n, r) && FairRounds(r, cuts) && i < |cuts| && cuts[i] < |r.states|
    ensures Left(g, n, r, cuts[i]) + i <= Left(g, n, r, 0) || SettledAt(g, r, cuts[i])
  {
    if i > 0 {
      assert FairRound(r, cuts[i - 1], cuts[i]);
      RoundsSpend(g, n, r, cuts, i - 1);
      if SettledAt(g, r, cuts[i - 1]) {
        SettledStays(g, n, r, cuts[i - 1], cuts[i]);
      } else {
        RoundDecreases(g, n, r, cuts[i - 1], cuts[i]);
      }
    }
  }

  // ----- where a fleet ends

  /** A steady run of enough fair rounds: one for each step left at the start, one for each task, and
      one more. */
  ghost predicate LongFair(g: Graph, n: nat, r: Run, cuts: seq<nat>) {
    && SteadyRun(g, n, r) && FairRounds(r, cuts) && cuts[|cuts| - 1] == |r.acts|
    && |cuts| - 1 > Rank(g, r.states[0], n) + |g.parents.Keys|
  }

  ghost predicate LongFairRun(g: Graph, n: nat, r: Run, cuts: seq<nat>) {
    LongFair(g, n, r, cuts) && HappyRun(g, n, r)
  }

  /** Task t is in some set that is stuck behind the lost tasks. */
  ghost predicate StuckTask(g: Graph, leases: map<string, int>, lost: set<int>, t: int) {
    exists holders, tasks :: t in tasks && StuckBehind(g, leases, lost, holders, tasks)
  }

  lemma LongFairSettles(g: Graph, n: nat, r: Run, cuts: seq<nat>)
    requires LongFair(g, n, r, cuts)
    ensures SettledAt(g, r, |r.acts|)
  {
    RoundsSpend(g, n, r, cuts, |cuts| - 1);
    assert g.parents.Keys - {} == g.parents.Keys;
  }

  /** However the workers end: after a long fair run no goroutine is left, and a task is completed
      exactly when its worker did not lose and it is not stuck behind those that did.  The tasks
      dispatched, each once, are the completed ones and the losers. */
  lemma FleetSettles(g: Graph, n: nat, r: Run, cuts: seq<nat>)
    requires LongFair(g, n, r, cuts)
    ensures var s, lost := r.Last(), Losers(r, |r.acts|);
      && s.workers == map[]
      && forall t | 1 <= t <= n ::
           && (Is(s.status, t, Completed) <==> t !in lost && !StuckTask(g, r.states[0].leases, lost, t))
           && s.launched[t] == if Is(s.status, t, Completed) || t in lost then 1 else 0
  {
    var last, s, lost := |r.acts|, r.Last(), Losers(r, |r.acts|);
    LongFairSettles(g, n, r, cuts);
    SteadilyAt(g, n, r, last);
    LosersStayOpen(g, s, lost);
    forall t | 1 <= t <= n
      ensures Is(s.status, t, Completed) <==> t !in lost && !StuckTask(g, r.states[0].leases, lost, t)
      ensures s.launched[t] == if Is(s.status, t, Completed) || t in lost then 1 else 0
    {
      assert t in g.parents && FateOk(s.status, s.workers, s.launched, lost, t);
      if holders, tasks :| t in tasks && StuckBehind(g, r.states[0].leases, lost, holders, tasks) {
        StuckNeverRuns(g, r, last, lost, holders, tasks);
        assert Undispatched(s, t);
      }
    }
  }

  /** Everything completed, no goroutine left, every task dispatched exactly once. */
  ghost predicate AllDone(n: nat, s: Sys) {
    s.workers == map[] && forall t | 1 <= t <= n :: Is(s.status, t, Completed) && s.launched[t] == 1
  }

  lemma FleetCompletes(g: Graph, n: nat, r: Run, cuts: seq<nat>)
    requires LongFairRun(g, n, r, cuts) && Stuckless(g, r.states[0].leases)
    ensures AllDone(n, r.Last())
  {
    NoLosers(r, 0, |r.acts|);
    FleetSettles(g, n, r, cuts);
    forall holders, tasks ensures !StuckBehind(g, r.states[0].leases, {}, holders, tasks) {
      assert !StuckSet(g, r.states[0].leases, holders, tasks);
    }
  }

  /** A fleet completes in every long fair happy run exactly when it starts without a stuck set. */
  lemma FleetCompletesExactly(g: Graph, n: nat, s: Sys)
    requires HappyRun(g, n, Run([s], []))
    ensures Stuckless(g, s.leases) <==>
      forall r, cuts | LongFairRun(g, n, r, cuts) && r.states[0] == s :: AllDone(n, r.Last())
  {
    if Stuckless(g, s.leases) {
      forall r, cuts | LongFairRun(g, n, r, cuts) && r.states[0] == s ensures AllDone(n, r.Last()) {
        FleetCompletes(g, n, r, cuts);
      }
    } else {
      var holders, tasks :| StuckSet(g, s.leases, holders, tasks);
      var r, cuts := FairRunExists(g, n, Run([s], []), Rank(g, s, n) + |g.parents.Keys| + 1);
      assert LongFairRun(g, n, r, cuts);
      StuckNeverRuns(g, r, |r.acts|, {}, holders, tasks);
      var m := Element(tasks);
      assert Undispatched(r.Last(), m) && m in g.parents;
      assert !AllDone(n, r.Last());
    }
  }

  // ----- leases that went to the first task that wants them

  /** No task before h owns path p. */
  ghost predicate First(g: Graph, h: int, p: string) {
    forall m | m in g.parents && p in Paths(g, m) :: h <= m
  }

  ghost predicate PlanLeases(g: Graph, leases: map<string, int>) {
    forall p | p in leases :: leases[p] in g.parents && First(g, leases[p], p)
  }

  lemma LowestIsFree(g: Graph, n: nat, leases: map<string, int>, holders: set<int>, tasks: set<int>)
    requires PlanGraph(g, n) && PlanLeases(g, leases) && tasks != {} && holders <= tasks <= g.parents.Keys
    ensures !WaitsWithin(g, tasks, Least(tasks)) && !Contends(g, leases, holders, Least(tasks))
  {
    var m := Least(tasks);
    assert forall j | 0 <= j < |Paths(g, m)| && Paths(g, m)[j] in leases ::
      First(g, leases[Paths(g, m)[j]], Paths(g, m)[j]);
  }

  /** Then nothing is stuck: the lowest task of a set waits for no parent in it, and for no lease. */
  lemma OrderedIsStuckless(g: Graph, n: nat, leases: map<string, int>)
    requires PlanGraph(g, n) && PlanLeases(g, leases)
    ensures Stuckless(g, leases)
  {
    forall holders, tasks ensures !StuckSet(g, leases, holders, tasks) {
      if tasks != {} && holders <= tasks <= g.parents.Keys { LowestIsFree(g, n, leases, holders, tasks); }
    }
  }

  ghost predicate Lowest(g: Graph, status: map<int, Status>, m: int) {
    && m in g.parents && !Is(status, m, Completed)
    && forall t | t in g.parents && t < m :: Is(status, t, Completed)
  }

  /** A poll that has dispatched nothing yet and still has the lowest uncompleted task before it. */
  ghost predicate QuietPolling(g: Graph, s: Sys, m: int) {
    && s.workers == map[]
    && Lowest(g, s.status, m)
    && match s.main
       case Counted => true
       case Scanning(todo) => m in todo
       case Leasing(todo, t, _) => t == m || m in todo
       case RollingBack(todo, t, _) => m in todo
       case _ => false
  }

  /** With nobody running, the lowest uncompleted task is pending: its parents are completed and
      no goroutine is left that could owe it a check. */
  lemma LowestIsPending(g: Graph, n: nat, s: Sys, m: int)
    requires PlanGraph(g, n) && Steadily(g, s, {}) && s.workers == map[] && Lowest(g, s.status, m)
    ensures Is(s.status, m, Pending)
  {
    assert ParentsDone(g, s.status, m);
    assert FateOk(s.status, s.workers, s.launched, {}, m);
    NobodyFails(g, n, s.status, m);
    assert !Waiting(g, s, m);
  }

  /** The lowest uncompleted task finds each of its paths free or its own. */
  lemma LowestHasNoConflict(g: Graph, leases0: map<string, int>, dropped: set<int>, s: Sys, m: int)
    requires Steadily(g, s, {}) && PlanLeases(g, leases0) && Holders(g, leases0, dropped, s)
    requires s.workers == map[] && Lowest(g, s.status, m)
    requires s.main.Leasing? && s.main.t == m && s.main.i < |Paths(g, m)|
    ensures !Conflict(g, s)
  {
    var p := Paths(g, m)[s.main.i];
    if p in s.leases && s.leases[p] != m {
      OwnerIsOld(g, leases0, {}, dropped, s, p);
    }
  }

  lemma QuietPollStep(g: Graph, n: nat, leases0: map<string, int>, dropped: set<int>, s: Sys, p: PollAct, m: int)
    requires PlanGraph(g, n) && Steadily(g, s, {}) && PlanLeases(g, leases0) && Holders(g, leases0, dropped, s)
    requires PollEnabled(g, s, p) && QuietPolling(g, s, m)
    ensures p == Launch || QuietPolling(g, ApplyPoll(g, s, p), m)
  {
    QuietActive(g, s);
    match p
    case List => LowestIsPending(g, n, s, m);
    case Lease => if s.main.t == m { LowestHasNoConflict(g, leases0, dropped, s, m); }
    case _ =>
  }

  lemma QuietStep(g: Graph, n: nat, leases0: map<string, int>, dropped: set<int>, s: Sys, a: Action, m: int)
    requires PlanGraph(g, n) && Steadily(g, s, {}) && PlanLeases(g, leases0) && Holders(g, leases0, dropped, s)
    requires Enabled(g, s, a) && Happy(a) && QuietPolling(g, s, m)
    ensures a == Poll(Launch) || QuietPolling(g, Apply(g, s, a), m)
  {
    match a
    case Poll(p) => QuietPollStep(g, n, leases0, dropped, s, p, m);
    case Worker(t, w) =>
    case Sweeping(who, sw) =>
      forall t ensures Is(Apply(g, s, a).status, t, Completed) <==> Is(s.status, t, Completed) {
        QuietStatus(g, s, a, t);
      }
    case Other(o) => assert ApplyOther(g, s, o).main == OtherMain(g, s, o) && ApplyOther(g, s, o).workers == s.workers;
  }

  lemma {:induction false} FindLowest(g: Graph, n: nat, s: Sys, k: nat) returns (m: int)
    requires PlanGraph(g, n) && k <= n && forall t | 1 <= t <= k :: Is(s.status, t, Completed)
    requires !Finished(g, s)
    ensures Lowest(g, s.status, m)
    decreases n - k
  {
    if k < n && Is(s.status, k + 1, Completed) {
      m := FindLowest(g, n, s, k + 1);
    } else {
      m := k + 1;
      assert k < n;
    }
  }

  /** From every reachable state with no live goroutine and some task uncompleted, a poll that
      runs from its start to its end dispatches at least one task, whatever else interleaves. */
  lemma QuietPollLaunches(g: Graph, n: nat, r: Run, i: nat, j: nat) returns (k: nat)
    requires HappyRun(g, n, r) && PlanLeases(g, r.states[0].leases) && i < j < |r.states| && r.acts[i] == Poll(Start)
    requires r.states[i].workers == map[] && !Finished(g, r.states[i])
    requires r.states[j].main == Idle
    ensures i < k < j && r.acts[k] == Poll(Launch)
  {
    var m := FindLowest(g, n, r.states[i], 0);
    QuietPollingStarts(g, n, r, i, m);
    k := QuietUntil(g, n, r, i + 1, j, m);
  }

  lemma QuietPollingStarts(g: Graph, n: nat, r: Run, i: nat, m: int)
    requires HappyRun(g, n, r) && i < |r.acts| && r.acts[i] == Poll(Start)
    requires r.states[i].workers == map[] && Lowest(g, r.states[i].status, m)
    ensures QuietPolling(g, r.states[i + 1], m)
  {
    SteadilyAt(g, n, r, i);
    QuietActive(g, r.states[i]);
    assert StepOk(g, r, i);
    assert r.states[i + 1] == ApplyPoll(g, r.states[i], Start);
  }

  lemma {:induction false} QuietUntil(g: Graph, n: nat, r: Run, i: nat, j: nat, m: int) returns (k: nat)
    requires HappyRun(g, n, r) && PlanLeases(g, r.states[0].leases)
    requires i <= j < |r.states| && QuietPolling(g, r.states[i], m) && r.states[j].main == Idle
    ensures i <= k < j && r.acts[k] == Poll(Launch)
    decreases j - i
  {
    k := i;
    if r.acts[i] != Poll(Launch) {
      QuietAt(g, n, r, i, m);
      k := QuietUntil(g, n, r, i + 1, j, m);
    }
  }

  lemma QuietAt(g: Graph, n: nat, r: Run, k: nat, m: int)
    requires HappyRun(g, n, r) && PlanLeases(g, r.states[0].leases) && k < |r.acts| && QuietPolling(g, r.states[k], m)
    ensures r.acts[k] == Poll(Launch) || QuietPolling(g, r.states[k + 1], m)
  {
    NoLosers(r, 0, k);
    SteadilyAt(g, n, r, k);
    HoldersAt(g, n, r, k);
    assert StepOk(g, r, k);
    QuietStep(g, n, r.states[0].leases, Dropped(r, k), r.states[k], r.acts[k], m);
  }
}
