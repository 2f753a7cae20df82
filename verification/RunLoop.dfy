/** The orchestrator's run loop against a coordinator that may answer anything, fail, or be
    replaced at any moment. */
module RunLoop {
  import opened Options
  import opened Decisions
  import opened EffectKeys
  import opened Sets
  import opened TaskStore
  import opened RunTables

  // ----- the environment

  /** What Decide comes back with: a decision, or a timeout, an error, malformed output. */
  datatype Reply = Decided(d: Decision) | Broken

  /** One wake: how often the coordinator is replaced before the call and during it, and its reply. */
  datatype WakeEnv = WakeEnv(replacedBefore: nat, replacedDuring: nat, reply: Reply)

  /** What became of starting an attempt; a failure may leave its row behind. */
  datatype Creation = FailedBeforeRow | FailedAfterRow | Started(pid: int)

  /** Index 0 is the first wake; index n belongs to attempt n. */
  datatype Env = Env(
    wake: nat -> WakeEnv,
    creation: nat -> Creation,
    observe: nat -> Observation,
    cancelled: nat -> bool,
    effectError: nat -> bool,
    candidateError: bool,
    worktreeGone: string -> bool,
    company: Company)

  datatype Config = Config(complete: bool, maxAttempts: int, hasProvider: bool, runID: int, taskID: int, attemptID: int)

  datatype RunError =
    | MissingArguments | ContextDone | AttemptNotCreated | EffectNotPersisted
    | CompleteRejected | CandidateNotRecorded | CandidateImpossible

  const DEFAULT_MAX_ATTEMPTS := 3
  const MAX_AUTO_VALIDATE := 3

  // ----- the coordinator runtime

  class Coordinator {
    var gen: int
    var ackSeq: int

    constructor ()
      ensures gen == 0 && ackSeq == 0
    {
      gen, ackSeq := 0, 0;
    }

    method Replace(times: nat)
      modifies this`gen
      ensures gen == old(gen) + times
    {
      gen := gen + times;
    }

    /** Answers exactly when the caller's generation is current before and after the call and the
        decision is one of those allowed; anything else is an error. */
    method Wake(generation: int, allowed: seq<Decision>, w: WakeEnv) returns (r: Option<Decision>)
      modifies this
      ensures r.Some? <==>
        && generation == old(gen) && w.replacedDuring == 0 && w.reply.Decided?
        && (allowed == [] || w.reply.d in allowed)
      ensures r.Some? ==> r.value == w.reply.d && gen == generation
      ensures ackSeq == if generation == old(gen) then old(ackSeq) + 1 else old(ackSeq)
    {
      if generation != gen { return None; }
      ackSeq := ackSeq + 1;
      Replace(w.replacedDuring);
      if w.reply.Broken? { return None; }
      if gen != generation { return None; }
      if |allowed| > 0 && w.reply.d !in allowed { return None; }
      return Some(w.reply.d);
    }
  }

  /** What a wake comes to: the reply when it counts, FAIL otherwise. */
  function Answer(allowed: seq<Decision>, w: WakeEnv): (d: Decision)
    ensures d == FAIL || allowed == [] || d in allowed
  {
    if w.replacedBefore == 0 && w.replacedDuring == 0 && w.reply.Decided? && (allowed == [] || w.reply.d in allowed)
    then w.reply.d
    else FAIL
  }

  const FIRST_ALLOWED := [START, VALIDATE, FAIL]

  function AllowedDecisions(o: Observation): seq<Decision> {
    if o.validatorPassed then [COMPLETE, RETRY_CLEAN, FAIL]
    else if o.exited then [RETRY_CLEAN, REPLACE, FAIL]
    else [CONTINUE, RETRY_CLEAN, FAIL]
  }

  /** What the coordinator may say: RETRY_CLEAN and FAIL always, COMPLETE exactly after a passed
      validator, and without one REPLACE when the worker exited and CONTINUE when it did not. */
  lemma AllowedExactly(o: Observation, d: Decision)
    ensures d in AllowedDecisions(o) <==>
      || d == RETRY_CLEAN || d == FAIL || (d == COMPLETE && o.validatorPassed)
      || (d == REPLACE && !o.validatorPassed && o.exited) || (d == CONTINUE && !o.validatorPassed && !o.exited)
  {
  }

  // ----- what a run must satisfy

  /** Decisions before the last one neither complete nor fail the run. */
  ghost predicate Undecided(decisions: seq<Decision>) {
    forall i | 0 <= i < |decisions| :: decisions[i] != COMPLETE && decisions[i] != FAIL
  }

  /** COMPLETE only ever comes last, and only on an attempt whose validator passed. */
  ghost predicate FailClosed(decisions: seq<Decision>, observed: seq<Observation>) {
    && |decisions| > 0
    && Undecided(decisions[..|decisions| - 1])
    && (decisions[|decisions| - 1] == COMPLETE ==>
          |observed| == |decisions| - 1 > 0 && observed[|observed| - 1].validatorPassed)
  }

  /** What the decisions are: the coordinator's counted answers to what was allowed at each point,
      FAIL where it gave none; without a coordinator VALIDATE, and COMPLETE once the validator passed. */
  ghost predicate Permitted(decisions: seq<Decision>, observed: seq<Observation>, coordinated: bool,
                            wake: nat -> WakeEnv) {
    && (|decisions| > 0 ==> decisions[0] == if coordinated then Answer(FIRST_ALLOWED, wake(0)) else VALIDATE)
    && forall i: nat | 0 < i < |decisions| && i <= |observed| ::
      if coordinated then decisions[i] == Answer(AllowedDecisions(observed[i - 1]), wake(i))
      else decisions[i] == if observed[i - 1].validatorPassed then COMPLETE else VALIDATE
  }

  /** The i-th decision in full.  With a coordinator: the reply, if the coordinator was not replaced
      meanwhile and the reply is one of those that count, and FAIL otherwise.  Without one: COMPLETE
      after a passed validator, VALIDATE otherwise. */
  lemma DecidedExactly(decisions: seq<Decision>, observed: seq<Observation>, coordinated: bool, wake: nat -> WakeEnv,
                       i: nat)
    requires Permitted(decisions, observed, coordinated, wake) && i < |decisions| && i <= |observed|
    ensures !coordinated ==> decisions[i] == if i > 0 && observed[i - 1].validatorPassed then COMPLETE else VALIDATE
    ensures coordinated ==>
      var w := wake(i);
      decisions[i] ==
        if w.replacedBefore > 0 || w.replacedDuring > 0 || w.reply.Broken? then FAIL
        else if i == 0 then if w.reply.d == START || w.reply.d == VALIDATE then w.reply.d else FAIL
        else
          var d, o := w.reply.d, observed[i - 1];
          if || d == RETRY_CLEAN || (d == COMPLETE && o.validatorPassed)
             || (d == REPLACE && !o.validatorPassed && o.exited) || (d == CONTINUE && !o.validatorPassed && !o.exited)
          then d else FAIL
  {
    var w := wake(i);
    if i > 0 && w.reply.Decided? { AllowedExactly(observed[i - 1], w.reply.d); }
  }

  lemma FailClosedNext(decisions: seq<Decision>, observed: seq<Observation>, d: Decision)
    requires |decisions| == |observed| > 0 && Undecided(decisions)
    requires d == COMPLETE ==> observed[|observed| - 1].validatorPassed
    ensures FailClosed(decisions + [d], observed)
  {
    assert (decisions + [d])[..|decisions|] == decisions;
  }

  lemma PermittedNext(decisions: seq<Decision>, observed: seq<Observation>, d: Decision, coordinated: bool,
                      wake: nat -> WakeEnv)
    requires |decisions| == |observed| > 0
    requires var n, o := |decisions|, observed[|observed| - 1];
      && Permitted(decisions, observed[..n - 1], coordinated, wake)
      && d == if coordinated then Answer(AllowedDecisions(o), wake(n))
              else if o.validatorPassed then COMPLETE else VALIDATE
    ensures Permitted(decisions + [d], observed, coordinated, wake)
  {
    assert forall i | 0 <= i < |observed| - 1 :: observed[..|observed| - 1][i] == observed[i];
  }

  ghost predicate Seen(observed: seq<Observation>, observe: nat -> Observation) {
    forall i: nat | 0 < i <= |observed| :: observed[i - 1] == observe(i)
  }

  /** No effect key of the run is stored. */
  ghost predicate NoKeys(effects: set<(int, string)>, run: int) {
    forall e | e in effects :: e.0 != run
  }

  function MaxAttempts(cfg: Config): int {
    if cfg.maxAttempts <= 0 then DEFAULT_MAX_ATTEMPTS else cfg.maxAttempts
  }

  function Min(a: int, b: int): int {
    if a < b then a else b
  }

  /** The part of the store that is written for one run only: its record and its effect keys. */
  datatype Own = Own(record: Option<Record>, keys: set<string>)

  function KeysOf(effects: set<(int, string)>, run: int): set<string> {
    set e | e in effects && e.0 == run :: e.1
  }

  /** The keys of the decisions on the attempts before n. */
  ghost function KeysFrom(run: nat, decisions: seq<Decision>, n: nat): set<string>
    requires n <= |decisions|
  {
    set m: nat | 1 <= m < n :: EffectKey(run, m, decisions[m])
  }

  lemma KeysNext(run: nat, was: seq<Decision>, decisions: seq<Decision>, n: nat)
    requires 1 <= n == |was| && |decisions| == n + 1 && decisions[..n] == was
    ensures KeysFrom(run, decisions, n) == KeysFrom(run, was, n)
    ensures KeysFrom(run, decisions, n + 1) == KeysFrom(run, was, n) + {EffectKey(run, n, decisions[n])}
    ensures EffectKey(run, n, decisions[n]) !in KeysFrom(run, was, n)
  {
    assert forall m | 1 <= m < n :: was[m] == decisions[m];
    if EffectKey(run, n, decisions[n]) in KeysFrom(run, was, n) {
      var m: nat :| 1 <= m < n && EffectKey(run, m, was[m]) == EffectKey(run, n, decisions[n]);
      KeyInjective(run, m, was[m], run, n, decisions[n]);
    }
  }

  class RunContext {
    const store: Store
    const cfg: Config
    const env: Env
    const coord: Coordinator?
    var runID: nat
    var taskID: nat
    var decisions: seq<Decision>
    var tracked: seq<Tracked>
    var observed: seq<Observation>
    var duplicate: bool

    ghost predicate Valid()
      reads this`runID, this`taskID, this`observed, this`tracked, store
    {
      && store.Valid()
      && runID in store.runs && taskID in store.tasks
      && |observed| <= |tracked|
    }

    /** Run and task rows: the given ones if they exist, new ones otherwise. */
    constructor (store: Store, cfg: Config, env: Env, coord: Coordinator?)
      requires store.Valid()
      modifies store
      ensures Valid() && this.store == store && this.cfg == cfg && this.env == env && this.coord == coord
      ensures decisions == [] && tracked == [] && observed == [] && !duplicate
      ensures store.effects == old(store.effects) && store.attempts == old(store.attempts) &&
        store.workers == old(store.workers)
      ensures if cfg.runID in old(store.runs)
              then runID == cfg.runID && store.runs == old(store.runs)
              else runID == old(store.nextRun) && store.runs == old(store.runs)[runID := Pending]
      ensures if cfg.runID != 0 && cfg.taskID in old(store.tasks)
              then taskID == cfg.taskID && store.tasks == old(store.tasks)
              else taskID == old(store.nextTask) && store.tasks == old(store.tasks)[taskID := TaskRow(runID, Pending)]
      ensures store.records ==
        if cfg.hasProvider && cfg.runID == 0 then old(store.records)[runID := Record(0, 0)] else old(store.records)
      ensures runID != cfg.runID ==> NoKeys(store.effects, runID) && runID !in old(store.records)
    {
      this.store, this.cfg, this.env, this.coord := store, cfg, env, coord;
      decisions, tracked, observed, duplicate := [], [], [], false;
      var r, t := cfg.runID, cfg.taskID;
      if cfg.runID == 0 || cfg.runID !in store.runs { r := store.CreateRun(); }
      if cfg.hasProvider && cfg.runID == 0 { store.RecordRun(r); }
      if cfg.runID == 0 || cfg.taskID !in store.tasks { t := store.CreateTask(r); }
      runID, taskID := r, t;
    }

    method WakeCoordinator(allowed: seq<Decision>, w: WakeEnv) returns (r: Option<Decision>)
      modifies coord
      ensures coord == null ==> r == Some(VALIDATE)
      ensures coord != null ==> (if r.Some? then r.value else FAIL) == Answer(allowed, w)
    {
      if coord == null { return Some(VALIDATE); }
      var generation := coord.gen;
      coord.Replace(w.replacedBefore);
      r := coord.Wake(generation, allowed, w);
    }

    // ----- the others

    /** Other processes leave alone what is this run's own: its record, its effect keys, and but for
        late writes its rows.  Anything may happen to the rows of other runs. */
    predicate OthersMay(s: Rows, s': Rows)
      reads this
    {
      && RowsValid(s') && s.attempts.Keys <= s'.attempts.Keys && (env.company.Alone? ==> s' == s)
      && (runID in s.runs ==> runID in s'.runs && StatusMay(env.company, s.runs[runID], s'.runs[runID]))
      && (taskID in s.tasks ==>
            taskID in s'.tasks && s'.tasks[taskID].run == s.tasks[taskID].run &&
            StatusMay(env.company, s.tasks[taskID].status, s'.tasks[taskID].status))
      && TrackedMay(env.company, tracked, s.attempts, s'.attempts, s.workers, s'.workers)
      && TaskMay(env.company, taskID, s.attempts, s'.attempts, s.workers, s'.workers)
      && (runID in s.records <==> runID in s'.records) && (runID in s.records ==> s'.records[runID] == s.records[runID])
      && (forall e | e in s.effects && e.0 == runID :: e in s'.effects)
      && (forall e | e in s'.effects && e.0 == runID :: e in s.effects)
    }

    /** Any number of statements of other processes. */
    method Others()
      requires Valid()
      modifies store
      ensures Valid() && OthersMay(old(store.View()), store.View()) && OwnRows() == old(OwnRows())
      ensures env.company.Alone? ==> store.View() == old(store.View())
    {
      var s: Rows := *;
      if OthersMay(store.View(), s) {
        SameKeys(store.effects, s.effects);
        store.Install(s);
      } else {
        store.Install(store.View());
      }
    }

    lemma SameKeys(a: set<(int, string)>, b: set<(int, string)>)
      requires forall e | e in a && e.0 == runID :: e in b
      requires forall e | e in b && e.0 == runID :: e in a
      ensures KeysOf(a, runID) == KeysOf(b, runID)
    {
    }

    /** What is carried over every statement: the tracked rows are shut and say what was observed. */
    ghost predicate Steady(closed: Option<Status>)
      reads this`runID, this`taskID, this`observed, this`tracked, store
    {
      && Valid()
      && ShutAttempts(env.company, store.attempts, tracked) && ShutWorkers(env.company, store.workers, tracked)
      && AsObserved(env.company, store.attempts, tracked, observed, closed)
    }

    lemma SteadyStays(s: Rows, s': Rows, closed: Option<Status>)
      requires OthersMay(s, s')
      requires ShutAttempts(env.company, s.attempts, tracked) && ShutWorkers(env.company, s.workers, tracked)
      requires AsObserved(env.company, s.attempts, tracked, observed, closed)
      ensures ShutAttempts(env.company, s'.attempts, tracked) && ShutWorkers(env.company, s'.workers, tracked)
      ensures AsObserved(env.company, s'.attempts, tracked, observed, closed)
    {
      ShutStays(env.company, tracked, s.attempts, s'.attempts, s.workers, s'.workers);
      ObservedStays(env.company, tracked, s.attempts, s'.attempts, s.workers, s'.workers, observed, closed);
    }

    /** Between two statements of this run the others get their turn. */
    method Yield(n: nat, ghost isFresh: bool)
      requires Ready(n, isFresh)
      modifies store
      ensures Ready(n, isFresh) && OwnRows() == old(OwnRows()) && old(store.attempts).Keys <= store.attempts.Keys
      ensures env.company.Alone? ==> store.View() == old(store.View())
    {
      Others();
      SteadyStays(old(store.View()), store.View(), None);
    }

    // ----- one attempt

    /** Looks for the attempt made beforehand, and adds a row when there is none. */
    method AddRow(n: nat, ghost isFresh: bool) returns (id: int)
      requires Ready(n, isFresh)
      modifies store
      ensures Ready(n, isFresh) && OwnRows() == old(OwnRows()) && id in store.attempts
      ensures cfg.attemptID !in store.attempts ==>
        LeftBehind(env.company, store.attempts, store.workers, tracked, taskID, n)
      ensures env.company.Alone? ==>
        store.workers == old(store.workers) && store.attempts ==
          if cfg.attemptID in old(store.attempts) then old(store.attempts)
          else old(store.attempts)[id := AttemptRow(taskID, n, "branch", "", Pending)]
      ensures cfg.attemptID in old(store.attempts) ==> id == cfg.attemptID
      ensures cfg.attemptID !in old(store.attempts) ==> id !in old(store.attempts)
    {
      id := cfg.attemptID;
      var known := cfg.attemptID != 0 && cfg.attemptID in store.attempts;
      Yield(n, isFresh);
      if !known {
        ghost var attempts, workers := store.attempts, store.workers;
        id := store.CreateAttempt(taskID, n, "branch");
        NewRowIsLeft(env.company, attempts, workers, tracked, taskID, n, id);
        OlderRowsStay(env.company, attempts, store.attempts, workers, store.workers, tracked);
        SteadyKept(attempts, workers);
      }
    }

    lemma SteadyKept(attempts: map<int, AttemptRow>, workers: map<int, WorkerRow>)
      requires TrackedMay(env.company, tracked, attempts, store.attempts, workers, store.workers)
      requires ShutAttempts(env.company, attempts, tracked) && ShutWorkers(env.company, workers, tracked)
      requires AsObserved(env.company, attempts, tracked, observed, None)
      ensures ShutAttempts(env.company, store.attempts, tracked) && ShutWorkers(env.company, store.workers, tracked)
      ensures AsObserved(env.company, store.attempts, tracked, observed, None)
    {
      ShutStays(env.company, tracked, attempts, store.attempts, workers, store.workers);
      ObservedStays(env.company, tracked, attempts, store.attempts, workers, store.workers, observed, None);
    }

    /** If the start failed late, what it left is there. */
    ghost predicate LeftRow(n: nat)
      reads this, store
    {
      env.creation(n).FailedAfterRow? && cfg.attemptID !in store.attempts ==>
        LeftBehind(env.company, store.attempts, store.workers, tracked, taskID, n)
    }

    method YieldWithRow(n: nat, ghost isFresh: bool)
      requires Ready(n, isFresh) && LeftRow(n)
      modifies store
      ensures Ready(n, isFresh) && LeftRow(n) && OwnRows() == old(OwnRows())
      ensures old(store.attempts).Keys <= store.attempts.Keys
      ensures env.company.Alone? ==> store.View() == old(store.View())
    {
      Others();
      SteadyStays(old(store.View()), store.View(), None);
      if LeftBehind(env.company, old(store.attempts), old(store.workers), tracked, taskID, n) {
        LeftStays(env.company, old(store.attempts), store.attempts, old(store.workers), store.workers, tracked,
                  taskID, n);
      }
    }

    /** Attempt n is started and not yet observed. */
    ghost predicate Underway(n: nat, isFresh: bool)
      reads this, store
    {
      && Valid() && |tracked| == n == |observed| + 1 && (isFresh ==> KeysBefore(n))
      && tracked[n - 1].attempt in store.attempts && tracked[n - 1].worker in store.workers
      && ShutAttempts(env.company, store.attempts, tracked[..n - 1])
      && ShutWorkers(env.company, store.workers, tracked[..n - 1])
      && AsObserved(env.company, store.attempts, tracked[..n - 1], observed, None)
    }

    /** What it leaves in the tables, also when it fails after the row was added. */
    method CreateAttempt(n: nat, ghost isFresh: bool) returns (created: bool)
      requires Ready(n, isFresh) && |tracked| == n - 1
      modifies this`tracked, store
      ensures created <==> env.creation(n).Started?
      ensures if created then Underway(n, isFresh) else Ready(n, isFresh) && LeftRow(n)
      ensures OwnRows() == old(OwnRows())
      ensures if created then |tracked| == n && tracked[..n - 1] == old(tracked) else tracked == old(tracked)
      ensures created ==>
        store.workers[tracked[n - 1].worker] == WorkerRow(tracked[n - 1].attempt, env.creation(n).pid, Running)
      ensures env.company.Alone? ==> LeavesRows(n, old(store.attempts), old(store.workers))
    {
      created := false;
      var c := env.creation(n);
      if c.FailedBeforeRow? { return; }
      var id := AddRow(n, isFresh);
      YieldWithRow(n, isFresh);
      if c.FailedAfterRow? { return; }
      created := true;
      RecordWorker(n, id, c.pid, isFresh);
    }

    /** With nobody else at work: a row of the task for a start that got that far, unless one was
        made beforehand, and a worker for one that succeeded; nothing else. */
    ghost predicate LeavesRows(n: nat, attempts: map<int, AttemptRow>, workers: map<int, WorkerRow>)
      reads this, store
    {
      && (store.attempts == attempts <==> env.creation(n).FailedBeforeRow? || cfg.attemptID in attempts)
      && (forall a | a in attempts :: a in store.attempts && store.attempts[a] == attempts[a])
      && (forall a | a in store.attempts && a !in attempts ::
           store.attempts[a] == AttemptRow(taskID, n, "branch", "", Pending))
      && (forall w | w in workers :: w in store.workers && store.workers[w] == workers[w])
      && (!env.creation(n).Started? ==> store.workers == workers)
    }

    method RecordWorker(n: nat, id: int, pid: int, ghost isFresh: bool)
      requires Ready(n, isFresh) && |tracked| == n - 1 && id in store.attempts
      modifies this`tracked, store`workers, store`nextWorker
      ensures Underway(n, isFresh) && |tracked| == n && tracked[..n - 1] == old(tracked) && tracked[n - 1].attempt == id
      ensures store.workers[tracked[n - 1].worker] == WorkerRow(id, pid, Running)
      ensures forall w | w in old(store.workers) :: w in store.workers && store.workers[w] == old(store.workers)[w]
    {
      var w := store.RecordWorkerPID(id, pid);
      OlderRowsStay(env.company, store.attempts, store.attempts, old(store.workers), store.workers, tracked);
      SteadyKept(store.attempts, old(store.workers));
      tracked := tracked + [Tracked(id, w)];
      assert tracked[..n - 1] == old(tracked);
    }

    lemma UnderwayStays(n: nat, s: Rows, s': Rows)
      requires OthersMay(s, s') && |tracked| == n == |observed| + 1
      requires ShutAttempts(env.company, s.attempts, tracked[..n - 1]) &&
        ShutWorkers(env.company, s.workers, tracked[..n - 1])
      requires AsObserved(env.company, s.attempts, tracked[..n - 1], observed, None)
      ensures ShutAttempts(env.company, s'.attempts, tracked[..n - 1]) &&
        ShutWorkers(env.company, s'.workers, tracked[..n - 1])
      ensures AsObserved(env.company, s'.attempts, tracked[..n - 1], observed, None)
    {
      MayPrefix(env.company, tracked, n - 1, s.attempts, s'.attempts, s.workers, s'.workers);
      ShutStays(env.company, tracked[..n - 1], s.attempts, s'.attempts, s.workers, s'.workers);
      ObservedStays(env.company, tracked[..n - 1], s.attempts, s'.attempts, s.workers, s'.workers, observed, None);
    }

    method YieldUnderway(n: nat, ghost isFresh: bool)
      requires Underway(n, isFresh)
      modifies store
      ensures Underway(n, isFresh) && OwnRows() == old(OwnRows())
      ensures var a := tracked[n - 1].attempt;
        store.attempts[a].checkpoint == old(store.attempts[a].checkpoint)
      ensures env.company.Alone? ==> store.View() == old(store.View())
    {
      Others();
      UnderwayStays(n, old(store.View()), store.View());
    }

    /** The statements of observeAndWait, on the attempt just tracked. */
    method ObserveAndWait(n: nat, ghost isFresh: bool)
      requires Underway(n, isFresh)
      modifies this`observed, store
      ensures Ready(n, isFresh) && observed == old(observed) + [env.observe(n)] && OwnRows() == old(OwnRows())
      ensures var row := store.attempts[tracked[n - 1].attempt];
        row.checkpoint == env.observe(n).checkpoint && Says(env.company, env.observe(n), None, row.status)
      ensures env.company.Alone? ==>
        var o, row := env.observe(n), store.attempts[tracked[n - 1].attempt];
        && row.status == (if o.validatorPassed && o.exitCode == 0 then Completed else Failed)
        && store.attempts == old(store.attempts)[tracked[n - 1].attempt := row]
        && store.workers == WithWorker(old(store.workers), tracked[n - 1].worker, StatusOf(env.observe(n)))
    {
      WriteCheckpoint(n, isFresh);
      YieldUnderway(n, isFresh);
      WriteStatus(n, isFresh);
      YieldHalfway(n, isFresh);
      WriteWorker(n, isFresh);
    }

    method WriteCheckpoint(n: nat, ghost isFresh: bool)
      requires Underway(n, isFresh)
      modifies store`attempts
      ensures Underway(n, isFresh)
      ensures store.attempts == var a := tracked[n - 1].attempt;
        old(store.attempts)[a := old(store.attempts)[a].(checkpoint := env.observe(n).checkpoint)]
    {
      var a, sha := tracked[n - 1].attempt, env.observe(n).checkpoint;
      store.UpdateAttemptCheckpoint(a, sha);
      CheckpointKeeps(env.company, old(store.attempts), store.attempts, a, sha, tracked[..n - 1], observed, None);
    }

    /** The attempt's status is written, its worker's is not. */
    ghost predicate Halfway(n: nat, isFresh: bool)
      reads this, store
    {
      && Valid() && |tracked| == n == |observed| > 0 && (isFresh ==> KeysBefore(n))
      && tracked[n - 1].worker in store.workers
      && ShutAttempts(env.company, store.attempts, tracked) && ShutWorkers(env.company, store.workers, tracked[..n - 1])
      && AsObserved(env.company, store.attempts, tracked, observed, None) && observed[n - 1] == env.observe(n)
      && store.attempts[tracked[n - 1].attempt].checkpoint == env.observe(n).checkpoint
    }

    method WriteStatus(n: nat, ghost isFresh: bool)
      requires Underway(n, isFresh)
      requires store.attempts[tracked[n - 1].attempt].checkpoint == env.observe(n).checkpoint
      modifies this`observed, store`attempts
      ensures Halfway(n, isFresh) && observed == old(observed) + [env.observe(n)]
      ensures store.attempts == WithAttempt(old(store.attempts), tracked[n - 1].attempt, StatusOf(env.observe(n)))
    {
      var t, o := tracked[n - 1], env.observe(n);
      store.UpdateAttemptStatus(t.attempt, StatusOf(o));
      ObservedNext(env.company, old(store.attempts), tracked[..n - 1], t, observed, o);
      assert tracked[..n - 1] + [t] == tracked;
      observed := observed + [o];
    }

    method YieldHalfway(n: nat, ghost isFresh: bool)
      requires Halfway(n, isFresh)
      modifies store
      ensures Halfway(n, isFresh) && OwnRows() == old(OwnRows())
      ensures env.company.Alone? ==> store.View() == old(store.View())
    {
      Others();
      ghost var s, s' := old(store.View()), store.View();
      MayPrefix(env.company, tracked, n - 1, s.attempts, s'.attempts, s.workers, s'.workers);
      ShutStays(env.company, tracked[..n - 1], s.attempts, s'.attempts, s.workers, s'.workers);
      ShutStays(env.company, tracked, s.attempts, s'.attempts, s.workers, s'.workers);
      ObservedStays(env.company, tracked, s.attempts, s'.attempts, s.workers, s'.workers, observed, None);
    }

    method WriteWorker(n: nat, ghost isFresh: bool)
      requires Halfway(n, isFresh)
      modifies store`workers
      ensures Ready(n, isFresh)
      ensures store.workers == WithWorker(old(store.workers), tracked[n - 1].worker, StatusOf(env.observe(n)))
      ensures Says(env.company, env.observe(n), None, store.attempts[tracked[n - 1].attempt].status)
    {
      store.UpdateWorkerStatus(tracked[n - 1].worker, StatusOf(env.observe(n)));
      assert LatestUse(tracked, n - 1);
      forall i | 0 <= i < n
        ensures tracked[i].worker in store.workers && Shut(env.company, store.workers[tracked[i].worker].status)
      {
        if i < n - 1 { assert tracked[..n - 1][i] == tracked[i]; }
      }
    }

    /** Effect keys of this run come from its attempts so far. */
    ghost predicate KeysBefore(n: nat)
      reads this, store
    {
      forall e | e in store.effects && e.0 == runID :: KeyOf(e.1, n)
    }

    ghost predicate KeyOf(key: string, n: nat)
      reads this
    {
      exists m: nat, d :: m < n && key == EffectKey(runID, m, d)
    }

    lemma FreshKey(n: nat, d: Decision)
      requires KeysBefore(n)
      ensures (runID, EffectKey(runID, n, d)) !in store.effects
    {
      var e := (runID as int, EffectKey(runID, n, d));
      if e in store.effects {
        var m: nat, d' :| m < n && e.1 == EffectKey(runID, m, d');
        KeyInjective(runID, n, d, runID, m, d');
      }
    }

    /** Attempts up to n were neither cancelled nor failed to start, and the decisions on those before m
        were made durable. */
    ghost predicate Went(n: nat, m: nat) {
      && (forall i: nat | 1 <= i <= n :: !env.cancelled(i) && env.creation(i).Started?)
      && (forall i: nat | 1 <= i < m :: !env.effectError(i))
    }

    /** The decisions and observations before attempt n. */
    ghost predicate Before(n: nat)
      reads this
    {
      && 1 <= n <= MaxAttempts(cfg) + 1
      && |decisions| == n && |observed| == |tracked| == n - 1
      && Undecided(decisions) && Permitted(decisions, observed, coord != null, env.wake) && Seen(observed, env.observe)
      && !duplicate && Went(n - 1, n)
      && (coord == null ==> decisions[0] == VALIDATE && n - 1 <= MAX_AUTO_VALIDATE)
    }

    /** After the decision on attempt n. */
    ghost predicate After(n: nat)
      reads this
    {
      && 1 <= n <= MaxAttempts(cfg)
      && |decisions| == n + 1 && |observed| == |tracked| == n
      && FailClosed(decisions, observed) && Permitted(decisions, observed, coord != null, env.wake)
      && Seen(observed, env.observe) && !duplicate && Went(n, n)
      && (coord == null ==> decisions[0] == VALIDATE && n <= MAX_AUTO_VALIDATE)
    }

    /** The store before attempt n; isFresh means no effect key of this run existed at its start. */
    ghost predicate Ready(n: nat, isFresh: bool)
      reads this, store
    {
      Steady(None) && (isFresh ==> KeysBefore(n))
    }

    ghost predicate Bounded()
      reads this`observed, this`tracked, this`decisions
    {
      && |observed| == |tracked| <= MaxAttempts(cfg)
      && (coord == null ==> |observed| <= Min(MaxAttempts(cfg), MAX_AUTO_VALIDATE))
      && |observed| <= |decisions| <= |observed| + 1
    }

    /** The run's status in the end. */
    ghost function FinalStatus(err: Option<RunError>): Status
      requires |decisions| > 0
      reads this
    {
      if err == Some(ContextDone) || duplicate then Cancelled
      else if err.None? && decisions[|decisions| - 1] == COMPLETE then Completed
      else Failed
    }

    /** Why the loop ended. */
    ghost predicate Cause(err: Option<RunError>)
      requires |decisions| > 0
      reads this
    {
      var n, last := |observed|, decisions[|decisions| - 1];
      match err
      case None => duplicate || last == COMPLETE || last == FAIL || n == MaxAttempts(cfg) ||
        (coord == null && n == MAX_AUTO_VALIDATE)
      case Some(ContextDone) => env.cancelled(n + 1)
      case Some(AttemptNotCreated) => !env.creation(n + 1).Started?
      case Some(EffectNotPersisted) => env.effectError(n)
      case Some(CandidateNotRecorded) => env.candidateError && last == COMPLETE
      case Some(CandidateImpossible) => cfg.hasProvider && last == COMPLETE
      case Some(MissingArguments) => false
      case Some(CompleteRejected) => false
    }

    /** The decisions and observations of a run that may end with err. */
    ghost predicate History(err: Option<RunError>, isFresh: bool)
      reads this
    {
      && FailClosed(decisions, observed) && Permitted(decisions, observed, coord != null, env.wake)
      && Seen(observed, env.observe) && Bounded() && Cause(err)
      && (isFresh || err.Some? ==> !duplicate) && Uninterrupted(err)
    }

    /** Nothing that would have ended the run earlier was passed over. */
    ghost predicate Uninterrupted(err: Option<RunError>)
      requires |decisions| > 0
      reads this
    {
      var n, last := |observed|, decisions[|decisions| - 1];
      && Went(n, if err == Some(EffectNotPersisted) then n else |decisions|)
      && (err == Some(AttemptNotCreated) || (err.None? && !duplicate && last != COMPLETE && last != FAIL) ==>
            !env.cancelled(n + 1))
    }

    /** The start of an attempt failed after its row was added. */
    ghost predicate LateStart(err: Option<RunError>)
      reads this, store
    {
      err == Some(AttemptNotCreated) && env.creation(|observed| + 1).FailedAfterRow? && cfg.attemptID !in store.attempts
    }

    /** Attempt and worker at hand are failed, as far as nobody interfered. */
    ghost predicate LastFailed()
      reads this, store
    {
      |tracked| > 0 &&
      var t := tracked[|tracked| - 1];
      && t.attempt in store.attempts && t.worker in store.workers
      && (store.attempts[t.attempt].status == Failed || Imposed(env.company, store.attempts[t.attempt].status))
      && store.workers[t.worker].status == Failed
    }

    /** What holds when Run returns.  Run and task have the final status, and the tracked rows are
        terminal, unless recovery interrupts them late. */
    ghost predicate Outcome(err: Option<RunError>, isFresh: bool)
      reads this, store
    {
      && Valid() && History(err, isFresh)
      && ShutAttempts(env.company, store.attempts, tracked) && ShutWorkers(env.company, store.workers, tracked)
      && (if err == Some(CandidateNotRecorded) || err == Some(CandidateImpossible) then LastFailed()
          else AsObserved(env.company, store.attempts, tracked, observed, Some(FinalStatus(err))))
      && (LateStart(err) ==> LeftBehind(env.company, store.attempts, store.workers, tracked, taskID, |observed| + 1))
      && StatusMay(env.company, FinalStatus(err), store.runs[runID])
      && StatusMay(env.company, FinalStatus(err), store.tasks[taskID].status)
    }

    /** Without recovery beside it, whatever other runs do: a run ends with everything terminal. */
    lemma EndsTerminal(err: Option<RunError>, isFresh: bool)
      requires Outcome(err, isFresh) && !env.company.OtherRunsAndRecovery?
      ensures store.runs[runID] == store.tasks[taskID].status
      ensures store.runs[runID] ==
        if err == Some(ContextDone) || duplicate then Cancelled
        else if err.None? && decisions[|decisions| - 1] == COMPLETE then Completed
        else Failed
      ensures forall i | 0 <= i < |tracked| ::
        && tracked[i].attempt in store.attempts && Terminal(store.attempts[tracked[i].attempt].status)
        && tracked[i].worker in store.workers && Terminal(store.workers[tracked[i].worker].status)
    {
      forall i | 0 <= i < |tracked|
        ensures tracked[i].attempt in store.attempts && Terminal(store.attempts[tracked[i].attempt].status)
        ensures tracked[i].worker in store.workers && Terminal(store.workers[tracked[i].worker].status)
      {
        assert Shut(env.company, store.attempts[tracked[i].attempt].status);
        assert Shut(env.company, store.workers[tracked[i].worker].status);
      }
    }

    /** A completed run passed its validator last, yet the attempt it completes on is itself failed
        exactly when its worker exited with another code than 0, unless another process wrote late:
        another run may have cancelled it, recovery may have interrupted it, and an interrupted
        attempt is closed as completed whatever its exit code. */
    lemma CompletedRow(err: Option<RunError>, isFresh: bool)
      requires Outcome(err, isFresh) && store.runs[runID] == Completed
      ensures |tracked| == |observed| > 0 && tracked[|tracked| - 1].attempt in store.attempts
      ensures var o, x := observed[|observed| - 1], store.attempts[tracked[|tracked| - 1].attempt].status;
        o.validatorPassed &&
        match env.company
        case Alone => x == if o.exitCode == 0 then Completed else Failed
        case OtherRuns => x == Cancelled || x == if o.exitCode == 0 then Completed else Failed
        case OtherRunsAndRecovery => x == Failed ==> o.exitCode != 0
    {
      assert LatestUse(tracked, |tracked| - 1);
    }

    /** Without recovery beside it: each attempt's row says what was observed of it last, or that another
        run cancelled it; but when the candidate could not be recorded, the last attempt and its worker
        are failed. */
    lemma RowsTell(err: Option<RunError>, isFresh: bool, i: nat)
      requires Outcome(err, isFresh) && !env.company.OtherRunsAndRecovery? && i < |tracked|
      requires forall j | i < j < |tracked| :: tracked[j].attempt != tracked[i].attempt
      ensures tracked[i].attempt in store.attempts && tracked[i].worker in store.workers
      ensures var o, x := observed[i], store.attempts[tracked[i].attempt].status;
        if err == Some(CandidateNotRecorded) || err == Some(CandidateImpossible)
        then i == |tracked| - 1 ==>
               store.workers[tracked[i].worker].status == Failed &&
               (x == Failed || (x == Cancelled && !env.company.Alone?))
        else x == (if o.validatorPassed && o.exitCode == 0 then Completed else Failed) ||
             (x == Cancelled && !env.company.Alone?)
    {
      assert LatestUse(tracked, i);
    }

    /** At most maxAttempts attempts, three when that is not positive, and at most three without a
        coordinator; and a run that just stops has used them up. */
    lemma AttemptsBounded(err: Option<RunError>, isFresh: bool)
      requires Outcome(err, isFresh)
      ensures var most := if cfg.maxAttempts <= 0 then 3 else cfg.maxAttempts;
        && |observed| <= most && (coord == null ==> |observed| <= 3)
        && (err.None? && !duplicate && decisions[|decisions| - 1] != COMPLETE && decisions[|decisions| - 1] != FAIL ==>
              |observed| == most || (coord == null && |observed| == 3))
      ensures forall i: nat | 1 <= i <= |observed| :: !env.cancelled(i) && env.creation(i).Started?
      ensures forall i: nat | 1 <= i < |decisions| && env.effectError(i) ::
        i == |decisions| - 1 && err == Some(EffectNotPersisted)
    {
    }

    // ----- finalizeTerminal

    /** What is carried over its statements. */
    ghost predicate Finishing(err: Option<RunError>, x: Status)
      reads this, store
    {
      && Steady(Some(x))
      && (LateStart(err) ==> LeftBehind(env.company, store.attempts, store.workers, tracked, taskID, |observed| + 1))
    }

    ghost predicate TrackedExist()
      reads this, store
    {
      Valid() && forall t | t in tracked :: t.attempt in store.attempts && t.worker in store.workers
    }

    method YieldFinishing(ghost err: Option<RunError>, ghost x: Status)
      requires TrackedExist()
      modifies store
      ensures TrackedExist() && OwnRows() == old(OwnRows())
      ensures old(Finishing(err, x)) ==> Finishing(err, x)
      ensures StatusMay(env.company, old(store.runs[runID]), store.runs[runID])
      ensures env.company.Alone? ==> store.View() == old(store.View())
    {
      Others();
      if old(Finishing(err, x)) {
        SteadyStays(old(store.View()), store.View(), Some(x));
        if LateStart(err) {
          LeftStays(env.company, old(store.attempts), store.attempts, old(store.workers), store.workers, tracked,
                    taskID, |observed| + 1);
        }
      }
    }

    /** Looks at the attempt's status and then writes it, unless it was terminal. */
    method CloseAttemptOf(t: Tracked, x: Status, ghost err: Option<RunError>)
      requires TrackedExist() && Terminal(x) && t in tracked
      modifies store
      ensures TrackedExist() && OwnRows() == old(OwnRows())
      ensures old(Finishing(err, x)) ==> Finishing(err, x)
      ensures env.company.Alone? ==>
        store.View() == old(store.View()).(attempts := CloseAttempt(old(store.attempts), t.attempt, x))
    {
      ghost var fin := Finishing(err, x);
      var isOpen := !Terminal(store.attempts[t.attempt].status);
      if isOpen && fin { OpenIsInterrupted(t); }
      YieldFinishing(err, x);
      if isOpen { WriteClosed(t, x, err, fin); }
    }

    lemma OpenIsInterrupted(t: Tracked)
      requires ShutAttempts(env.company, store.attempts, tracked) && t in tracked
      requires t.attempt in store.attempts && !Terminal(store.attempts[t.attempt].status)
      ensures env.company.OtherRunsAndRecovery?
    {
    }

    method WriteClosed(t: Tracked, x: Status, ghost err: Option<RunError>, ghost fin: bool)
      requires TrackedExist() && Terminal(x) && t in tracked
      requires fin ==> Finishing(err, x) && env.company.OtherRunsAndRecovery?
      modifies store`attempts
      ensures TrackedExist() && store.attempts == WithAttempt(old(store.attempts), t.attempt, x)
      ensures fin ==> Finishing(err, x)
    {
      store.UpdateAttemptStatus(t.attempt, x);
      if fin { ClosedIsFinishing(old(store.attempts), t, x, err); }
    }

    lemma ClosedIsFinishing(attempts: map<int, AttemptRow>, t: Tracked, x: Status, err: Option<RunError>)
      requires Valid() && store.attempts == WithAttempt(attempts, t.attempt, x) && Terminal(x) && t in tracked
      requires env.company.OtherRunsAndRecovery? && ShutAttempts(env.company, attempts, tracked)
      requires ShutWorkers(env.company, store.workers, tracked)
      requires AsObserved(env.company, attempts, tracked, observed, Some(x))
      requires LateStart(err) ==> LeftBehind(env.company, attempts, store.workers, tracked, taskID, |observed| + 1)
      ensures Finishing(err, x)
    {
      CloseKeeps(env.company, attempts, t.attempt, x, tracked, observed);
      if LateStart(err) {
        LeftStaysByClose(env.company, attempts, store.workers, tracked, taskID, |observed| + 1, t, x);
      }
    }

    method CloseWorkerOf(t: Tracked, x: Status, ghost err: Option<RunError>)
      requires TrackedExist() && Terminal(x) && t in tracked
      modifies store
      ensures TrackedExist() && OwnRows() == old(OwnRows())
      ensures old(Finishing(err, x)) ==> Finishing(err, x)
      ensures env.company.Alone? ==>
        store.View() == old(store.View()).(workers := CloseWorker(old(store.workers), t.worker, x))
    {
      ghost var fin := Finishing(err, x);
      var isOpen := !Terminal(store.workers[t.worker].status);
      YieldFinishing(err, x);
      if isOpen { WriteClosedWorker(t, x, err, fin); }
    }

    method WriteClosedWorker(t: Tracked, x: Status, ghost err: Option<RunError>, ghost fin: bool)
      requires TrackedExist() && Terminal(x) && t in tracked && (fin ==> Finishing(err, x))
      modifies store`workers
      ensures TrackedExist() && store.workers == WithWorker(old(store.workers), t.worker, x)
      ensures fin ==> Finishing(err, x)
    {
      store.UpdateWorkerStatus(t.worker, x);
      if fin {
        CloseKeepsWorkers(env.company, old(store.workers), t.worker, x, tracked);
        if LateStart(err) {
          LeftStaysByClose(env.company, store.attempts, old(store.workers), tracked, taskID, |observed| + 1, t, x);
        }
      }
    }

    method CloseOne(t: Tracked, x: Status, ghost err: Option<RunError>)
      requires TrackedExist() && Terminal(x) && t in tracked
      modifies store
      ensures TrackedExist() && OwnRows() == old(OwnRows())
      ensures old(Finishing(err, x)) ==> Finishing(err, x)
      ensures env.company.Alone? ==> store.View() == old(store.View()).(
        attempts := CloseAttempt(old(store.attempts), t.attempt, x),
        workers := CloseWorker(old(store.workers), t.worker, x))
    {
      CloseAttemptOf(t, x, err);
      YieldFinishing(err, x);
      CloseWorkerOf(t, x, err);
      YieldFinishing(err, x);
    }

    /** The tracked attempts, and the one at hand, if any, a second time. */
    function Rows(again: bool): seq<Tracked>
      requires again ==> |tracked| > 0
      reads this
    {
      if again then tracked + [tracked[|tracked| - 1]] else tracked
    }

    method CloseTracked(x: Status, again: bool, ghost err: Option<RunError>)
      requires TrackedExist() && Terminal(x) && (again ==> |tracked| > 0)
      modifies store
      ensures TrackedExist() && OwnRows() == old(OwnRows())
      ensures old(Finishing(err, x)) ==> Finishing(err, x)
      ensures env.company.Alone? ==> store.View() == old(store.View()).(
        attempts := CloseAttempts(old(store.attempts), Rows(again), |Rows(again)|, x),
        workers := CloseWorkers(old(store.workers), Rows(again), |Rows(again)|, x))
    {
      var rows := Rows(again);
      for i := 0 to |rows|
        invariant TrackedExist() && OwnRows() == old(OwnRows())
        invariant old(Finishing(err, x)) ==> Finishing(err, x)
        invariant env.company.Alone? ==> store.View() == old(store.View()).(
          attempts := CloseAttempts(old(store.attempts), rows, i, x),
          workers := CloseWorkers(old(store.workers), rows, i, x))
      {
        assert rows[i] in tracked;
        CloseOne(rows[i], x, err);
      }
    }

    /** Closes what is found open among the tracked rows, then run and task; a row found terminal
        keeps its status. */
    method FinalizeTerminal(x: Status, again: bool, ghost err: Option<RunError>)
      requires TrackedExist() && Terminal(x) && (again ==> |tracked| > 0)
      modifies store
      ensures TrackedExist() && OwnRows() == old(OwnRows())
      ensures old(Finishing(err, x)) ==> Finishing(err, x)
      ensures StatusMay(env.company, x, store.runs[runID]) && store.tasks[taskID].status == x
      ensures env.company.Alone? ==>
        && store.runs == old(store.runs)[runID := x]
        && store.tasks == old(store.tasks)[taskID := old(store.tasks)[taskID].(status := x)]
        && store.records == old(store.records) && store.effects == old(store.effects)
      ensures env.company.Alone? ==> store.attempts.Keys == old(store.attempts).Keys
      ensures env.company.Alone? ==> forall a | a in store.attempts ::
        var row := old(store.attempts)[a];
        store.attempts[a] ==
          if (exists i :: 0 <= i < |tracked| && tracked[i].attempt == a) &&
             row.status in {Pending, Running, Interrupted}
          then row.(status := x) else row
      ensures env.company.Alone? ==> store.workers.Keys == old(store.workers).Keys
      ensures env.company.Alone? ==> forall w | w in store.workers ::
        var row := old(store.workers)[w];
        store.workers[w] ==
          if (exists i :: 0 <= i < |tracked| && tracked[i].worker == w) &&
             row.status in {Pending, Running, Interrupted}
          then row.(status := x) else row
    {
      RowsClosed(store.attempts, store.workers, x, again);
      CloseAll(x, again, err);
    }

    method CloseAll(x: Status, again: bool, ghost err: Option<RunError>)
      requires TrackedExist() && Terminal(x) && (again ==> |tracked| > 0)
      modifies store
      ensures TrackedExist() && OwnRows() == old(OwnRows())
      ensures old(Finishing(err, x)) ==> Finishing(err, x)
      ensures StatusMay(env.company, x, store.runs[runID]) && store.tasks[taskID].status == x
      ensures env.company.Alone? ==> store.View() == old(store.View()).(
        attempts := CloseAttempts(old(store.attempts), Rows(again), |Rows(again)|, x),
        workers := CloseWorkers(old(store.workers), Rows(again), |Rows(again)|, x),
        runs := old(store.runs)[runID := x], tasks := WithTask(old(store.tasks), taskID, x))
    {
      CloseTracked(x, again, err);
      CloseRun(x, err);
      CloseTask(x, err);
    }

    lemma RowsClosed(attempts: map<int, AttemptRow>, workers: map<int, WorkerRow>, x: Status, again: bool)
      requires Terminal(x) && (again ==> |tracked| > 0)
      ensures var rows := CloseAttempts(attempts, Rows(again), |Rows(again)|, x);
        && rows.Keys == attempts.Keys
        && forall a | a in attempts ::
             rows[a] ==
               if (exists i :: 0 <= i < |tracked| && tracked[i].attempt == a) &&
                  attempts[a].status in {Pending, Running, Interrupted}
               then attempts[a].(status := x) else attempts[a]
      ensures var rows := CloseWorkers(workers, Rows(again), |Rows(again)|, x);
        && rows.Keys == workers.Keys
        && forall w | w in workers ::
             rows[w] ==
               if (exists i :: 0 <= i < |tracked| && tracked[i].worker == w) &&
                  workers[w].status in {Pending, Running, Interrupted}
               then workers[w].(status := x) else workers[w]
    {
      var rows := Rows(again);
      ClosesExactly(attempts, rows, |rows|, x);
      ClosesWorkersExactly(workers, rows, |rows|, x);
      assert again ==> rows[|tracked|] == tracked[|tracked| - 1];
      assert forall i | 0 <= i < |tracked| :: rows[i] == tracked[i];
      forall a | a in attempts
        ensures IsTracked(rows, |rows|, a) <==> exists i :: 0 <= i < |tracked| && tracked[i].attempt == a
      {
      }
    }

    method CloseRun(x: Status, ghost err: Option<RunError>)
      requires TrackedExist()
      modifies store
      ensures TrackedExist() && OwnRows() == old(OwnRows())
      ensures old(Finishing(err, x)) ==> Finishing(err, x)
      ensures StatusMay(env.company, x, store.runs[runID])
      ensures env.company.Alone? ==> store.View() == old(store.View()).(runs := old(store.runs)[runID := x])
    {
      store.UpdateRunStatus(runID, x);
      YieldFinishing(err, x);
    }

    method CloseTask(x: Status, ghost err: Option<RunError>)
      requires TrackedExist()
      modifies store`tasks
      ensures TrackedExist() && store.tasks == WithTask(old(store.tasks), taskID, x)
      ensures old(Finishing(err, x)) ==> Finishing(err, x)
    {
      store.UpdateTaskStatus(taskID, x);
    }

    /** The branch taken when the candidate cannot be recorded. */
    method FailCandidate()
      requires Steady(None) && |tracked| > 0
      modifies store
      ensures Valid() && OwnRows() == old(OwnRows())
      ensures ShutAttempts(env.company, store.attempts, tracked) && ShutWorkers(env.company, store.workers, tracked)
      ensures StatusMay(env.company, Failed, store.runs[runID]) &&
        StatusMay(env.company, Failed, store.tasks[taskID].status)
      ensures LastFailed()
    {
      var t := tracked[|tracked| - 1];
      store.UpdateRunStatus(runID, Failed);
      YieldFailing();
      store.UpdateTaskStatus(taskID, Failed);
      YieldFailing();
      FailRows(t);
    }

    method FailRows(t: Tracked)
      requires Valid() && |tracked| > 0 && t == tracked[|tracked| - 1]
      requires ShutAttempts(env.company, store.attempts, tracked) && ShutWorkers(env.company, store.workers, tracked)
      modifies store
      ensures Valid() && OwnRows() == old(OwnRows())
      ensures ShutAttempts(env.company, store.attempts, tracked) && ShutWorkers(env.company, store.workers, tracked)
      ensures StatusMay(env.company, old(store.runs[runID]), store.runs[runID])
      ensures StatusMay(env.company, old(store.tasks[taskID].status), store.tasks[taskID].status)
      ensures LastFailed()
    {
      store.UpdateAttemptStatus(t.attempt, Failed);
      CloseKeepsShut(env.company, old(store.attempts), t.attempt, Failed, tracked);
      YieldFailing();
      ghost var workers := store.workers;
      store.UpdateWorkerStatus(t.worker, Failed);
      CloseKeepsWorkers(env.company, workers, t.worker, Failed, tracked);
    }

    method YieldFailing()
      requires Valid()
      requires ShutAttempts(env.company, store.attempts, tracked) && ShutWorkers(env.company, store.workers, tracked)
      modifies store
      ensures Valid() && OwnRows() == old(OwnRows())
      ensures ShutAttempts(env.company, store.attempts, tracked) && ShutWorkers(env.company, store.workers, tracked)
      ensures StatusMay(env.company, old(store.runs[runID]), store.runs[runID])
      ensures StatusMay(env.company, old(store.tasks[taskID].status), store.tasks[taskID].status)
      ensures |tracked| > 0 ==> var a := tracked[|tracked| - 1].attempt;
        AttemptMay(env.company, old(store.attempts[a]), store.attempts[a])
    {
      Others();
      ShutStays(env.company, tracked, old(store.attempts), store.attempts, old(store.workers), store.workers);
    }

    /** Finalizes and ends the run. */
    method End(err: Option<RunError>, x: Status, again: bool, ghost isFresh: bool)
      requires Steady(None) && (again ==> |tracked| > 0)
      requires History(err, isFresh) && x == FinalStatus(err)
      requires err != Some(CandidateNotRecorded) && err != Some(CandidateImpossible)
      requires LateStart(err) ==>
        LeftBehind(env.company, store.attempts, store.workers, tracked, taskID, |observed| + 1)
      modifies store
      ensures Outcome(err, isFresh) && OwnRows() == old(OwnRows())
    {
      FinalizeTerminal(x, again, err);
    }

    function OwnRecord(): Option<Record>
      reads this`runID, store`records
    {
      if runID in store.records then Some(store.records[runID]) else None
    }

    ghost function OwnKeys(): set<string>
      reads this`runID, store`effects
    {
      KeysOf(store.effects, runID)
    }

    /** What only this run writes. */
    ghost function OwnRows(): Own
      reads this`runID, store`records, store`effects
    {
      Own(OwnRecord(), OwnKeys())
    }

    /** What becomes of the record after a decision was recorded: exactly a COMPLETE makes the attempt
        the candidate of a run with a record; without one, a run with a provider fails. */
    ghost predicate RecordAfter(record: Option<Record>, err: Option<RunError>)
      requires |decisions| > 0
      reads this, store`records
    {
      if decisions[|decisions| - 1] != COMPLETE || duplicate then OwnRecord() == record && err.None?
      else
        match record
        case Some(row) =>
          if env.candidateError then OwnRecord() == record && err == Some(CandidateNotRecorded)
          else OwnRecord() == Some(row.(candidate := |observed|)) && err.None?
        case None => OwnRecord() == None && err == if cfg.hasProvider then Some(CandidateImpossible) else None
    }

    /** How a run ends that decided on attempt n: the key is stored exactly when its write went through,
        and a key that was stored before makes the decision a replay. */
    ghost predicate Concluded(own: Own, n: nat, err: Option<RunError>)
      reads this, store`records, store`effects
    {
      && |decisions| == n + 1 > 1
      && (env.effectError(n) <==> err == Some(EffectNotPersisted))
      && if env.effectError(n) then OwnRows() == own && !duplicate
         else
           var key := EffectKey(runID, n, decisions[n]);
           OwnKeys() == own.keys + {key} && (duplicate <==> key in own.keys) && RecordAfter(own.record, err)
    }

    /** What the whole run did to its own rows: every decision has its key, but for one whose write
        failed; the candidate is recorded exactly as RecordAfter says. */
    ghost predicate Ends(own: Own, err: Option<RunError>)
      reads this, store`records, store`effects
    {
      && |decisions| > 0
      && OwnKeys() == own.keys +
           KeysFrom(runID, decisions, if err == Some(EffectNotPersisted) then |decisions| - 1 else |decisions|)
      && (duplicate ==> EffectKey(runID, |decisions| - 1, decisions[|decisions| - 1]) in own.keys)
      && if decisions[|decisions| - 1] == COMPLETE && err != Some(EffectNotPersisted) then RecordAfter(own.record, err)
         else OwnRecord() == own.record
    }

    /** The pairs behind the keys. */
    lemma KeysStored(keys: set<string>, err: Option<RunError>)
      requires |decisions| > 0 && keys == OwnKeys()
      requires
        KeysFrom(runID, decisions, if err == Some(EffectNotPersisted) then |decisions| - 1 else |decisions|) <= keys
      ensures forall m: nat | 1 <= m < |decisions| && !(err == Some(EffectNotPersisted) && m == |decisions| - 1) ::
        (runID as int, EffectKey(runID, m, decisions[m])) in store.effects
    {
      var k := if err == Some(EffectNotPersisted) then |decisions| - 1 else |decisions|;
      forall m: nat | 1 <= m < k ensures (runID as int, EffectKey(runID, m, decisions[m])) in store.effects {
        var key := EffectKey(runID, m, decisions[m]);
        assert key in KeysFrom(runID, decisions, k);
        var e :| e in store.effects && e.0 == runID && e.1 == key;
        assert e == (runID as int, key);
      }
    }

    /** Step n of the run leaves the keys of the first n decisions. */
    ghost predicate KeysAre(own: Own, n: nat)
      reads this, store`records, store`effects
    {
      n <= |decisions| && OwnRows() == own.(keys := own.keys + KeysFrom(runID, decisions, n))
    }

    /** The loop.  For every coordinator and every environment: the outcome fails closed, the
        number of attempts is bounded, and everything tracked ends terminal. */
    method Loop() returns (err: Option<RunError>)
      requires Valid() && decisions == [] && tracked == [] && observed == [] && !duplicate
      modifies this`decisions, this`tracked, this`observed, this`duplicate, coord, store
      ensures Outcome(err, NoKeys(old(store.effects), runID))
      ensures Ends(old(OwnRows()), err)
    {
      ghost var own, isFresh := OwnRows(), NoKeys(store.effects, runID);
      var failed := Begin();
      if failed { return None; }
      var n, auto := 1, 0;
      while true
        invariant Going(n, auto, isFresh) && KeysAre(own, n)
        decreases MaxAttempts(cfg) + 1 - n
      {
        var ended;
        err, ended, auto := Turn(n, auto, own, isFresh);
        if ended { return; }
        n := n + 1;
      }
    }

    method Turn(n: nat, auto: int, ghost own: Own, ghost isFresh: bool)
      returns (err: Option<RunError>, ended: bool, auto': int)
      requires Going(n, auto, isFresh) && KeysAre(own, n)
      modifies this`decisions, this`tracked, this`observed, this`duplicate, coord, store
      ensures ended ==> Outcome(err, isFresh) && Ends(own, err)
      ensures !ended ==> n <= MaxAttempts(cfg) && Going(n + 1, auto', isFresh) && KeysAre(own, n + 1)
    {
      ghost var before, was := OwnRows(), decisions;
      err, ended := Round(n, auto, isFresh);
      auto' := if decisions[0] == VALIDATE && coord == null then auto + 1 else 0;
      if ended { Ending(own, before, was, n, err); } else { MoreKeys(own, before, was, n); }
    }

    /** One more attempt, one more key. */
    lemma MoreKeys(own: Own, before: Own, was: seq<Decision>, n: nat)
      requires 1 <= n == |was| && before == own.(keys := own.keys + KeysFrom(runID, was, n))
      requires Continued(before, was, n)
      ensures KeysAre(own, n + 1)
    {
      KeysNext(runID, was, decisions, n);
    }

    lemma Ending(own: Own, before: Own, was: seq<Decision>, n: nat, err: Option<RunError>)
      requires 1 <= n == |was| && Undecided(was) && before == own.(keys := own.keys + KeysFrom(runID, was, n))
      requires Ended(before, was, n, err)
      ensures Ends(own, err)
    {
      if decisions != was { KeysNext(runID, was, decisions, n); }
    }

    /** Attempt n was decided on and the run goes on. */
    ghost predicate Continued(own: Own, was: seq<Decision>, n: nat)
      reads this, store`records, store`effects
    {
      && n == |was| && |decisions| == n + 1 && decisions[..n] == was
      && OwnRows() == own.(keys := own.keys + {EffectKey(runID, n, decisions[n])})
    }

    /** The run ended before it decided on attempt n, or upon that. */
    ghost predicate Ended(own: Own, was: seq<Decision>, n: nat, err: Option<RunError>)
      reads this, store`records, store`effects
    {
      || (decisions == was && OwnRows() == own && !duplicate && err != Some(EffectNotPersisted))
      || (|was| == n && |decisions| == n + 1 && decisions[..n] == was && Concluded(own, n, err))
    }

    method Begin() returns (failed: bool)
      requires Valid() && decisions == [] && tracked == [] && observed == [] && !duplicate
      modifies this`decisions, coord, store
      ensures if failed then Outcome(None, true) && Ends(old(OwnRows()), None)
              else Going(1, 0, NoKeys(old(store.effects), runID)) && KeysAre(old(OwnRows()), 1)
    {
      ghost var isFresh := NoKeys(store.effects, runID);
      Others();
      assert NoKeys(store.effects, runID) == isFresh;
      failed := FirstDecision();
    }

    ghost predicate Going(n: nat, auto: int, isFresh: bool)
      reads this, store
    {
      Before(n) && Ready(n, isFresh) && auto == if coord == null then n - 1 else 0
    }

    /** One turn of the loop. */
    method Round(n: nat, auto: int, ghost isFresh: bool) returns (err: Option<RunError>, ended: bool)
      requires Going(n, auto, isFresh)
      modifies this`decisions, this`tracked, this`observed, this`duplicate, coord, store
      ensures ended ==> Outcome(err, isFresh) && Ended(old(OwnRows()), old(decisions), n, err)
      ensures !ended ==> n <= MaxAttempts(cfg) && Continued(old(OwnRows()), old(decisions), n)
      ensures !ended ==> Before(n + 1) && Ready(n + 1, isFresh)
    {
      Yield(n, isFresh);
      err, ended := Stop(n, auto, isFresh);
      if !ended { err, ended := RunAttempt(n, isFresh); }
    }

    method FirstDecision() returns (failed: bool)
      requires Valid() && decisions == [] && tracked == [] && observed == [] && !duplicate
      modifies this`decisions, coord, store
      ensures if failed then Outcome(None, true) else Before(1) && Ready(1, NoKeys(old(store.effects), runID))
      ensures OwnRows() == old(OwnRows())
    {
      var start := WakeCoordinator(FIRST_ALLOWED, env.wake(0));
      decisions := [if start.None? then FAIL else start.value];
      failed := decisions[0] == FAIL;
      if failed { End(None, Failed, false, true); }
    }

    /** The checks at the head of the loop: cancellation, the auto-validate guard, the attempt limit. */
    method Stop(n: nat, auto: int, ghost isFresh: bool) returns (err: Option<RunError>, stopped: bool)
      requires Going(n, auto, isFresh)
      modifies store
      ensures OwnRows() == old(OwnRows())
      ensures stopped ==> Outcome(err, isFresh) && (err == None || err == Some(ContextDone))
      ensures !stopped ==> Ready(n, isFresh) && n <= MaxAttempts(cfg) && (coord == null ==> n <= MAX_AUTO_VALIDATE)
      ensures !stopped ==> !env.cancelled(n)
    {
      if env.cancelled(n) {
        End(Some(ContextDone), Cancelled, false, isFresh);
        return Some(ContextDone), true;
      }
      if decisions[0] == VALIDATE && coord == null && auto + 1 > MAX_AUTO_VALIDATE {
        End(None, Failed, false, isFresh);
        return None, true;
      }
      if n > MaxAttempts(cfg) {
        End(None, Failed, false, isFresh);
        return None, true;
      }
      return None, false;
    }

    method RunAttempt(n: nat, ghost isFresh: bool) returns (err: Option<RunError>, ended: bool)
      requires Before(n) && Ready(n, isFresh) && n <= MaxAttempts(cfg) && (coord == null ==> n <= MAX_AUTO_VALIDATE)
      requires !env.cancelled(n)
      modifies this`decisions, this`tracked, this`observed, this`duplicate, coord, store
      ensures ended ==> Outcome(err, isFresh) && Ended(old(OwnRows()), old(decisions), n, err)
      ensures !ended ==> Before(n + 1) && Ready(n + 1, isFresh) && Continued(old(OwnRows()), old(decisions), n)
    {
      err, ended := StartAndObserve(n, isFresh);
      if !ended { err, ended := Decide(n, isFresh); }
    }

    /** What comes after the observation of attempt n. */
    method Decide(n: nat, ghost isFresh: bool) returns (err: Option<RunError>, ended: bool)
      requires Ready(n, isFresh) && 1 <= n <= MaxAttempts(cfg) && |decisions| == n == |observed| == |tracked|
      requires Undecided(decisions) && Permitted(decisions, observed[..n - 1], coord != null, env.wake)
      requires Seen(observed, env.observe) && !duplicate && Went(n, n)
      requires coord == null ==> decisions[0] == VALIDATE && n <= MAX_AUTO_VALIDATE
      modifies this`decisions, this`duplicate, coord, store
      ensures |decisions| == n + 1 && decisions[..n] == old(decisions)
      ensures ended ==> Outcome(err, isFresh) && Concluded(old(OwnRows()), n, err)
      ensures !ended ==> Before(n + 1) && Ready(n + 1, isFresh) && OwnRows() == WithKey(old(OwnRows()), n)
    {
      Yield(n, isFresh);
      Respond(n);
      err, ended := Settle(n, isFresh);
    }

    method Settle(n: nat, ghost isFresh: bool) returns (err: Option<RunError>, ended: bool)
      requires After(n) && Ready(n, isFresh)
      modifies this`duplicate, store
      ensures ended ==> Outcome(err, isFresh) && Concluded(old(OwnRows()), n, err)
      ensures !ended ==> Before(n + 1) && Ready(n + 1, isFresh) && OwnRows() == WithKey(old(OwnRows()), n)
    {
      err, ended := Persist(n, isFresh);
      if !ended { err, ended := YieldAndConclude(n, isFresh); }
    }

    method YieldAndConclude(n: nat, ghost isFresh: bool) returns (err: Option<RunError>, ended: bool)
      requires After(n) && Ready(n + 1, isFresh) && !env.effectError(n)
      modifies store
      ensures ended ==> Outcome(err, isFresh) && OwnKeys() == old(OwnKeys()) && RecordAfter(old(OwnRecord()), err)
      ensures !ended ==> Before(n + 1) && Ready(n + 1, isFresh) && OwnRows() == old(OwnRows())
    {
      Yield(n + 1, isFresh);
      err, ended := Conclude(n, isFresh);
    }

    lemma NotCreatedHistory(n: nat, isFresh: bool)
      requires Before(n) && n <= MaxAttempts(cfg) && !env.creation(n).Started? && !env.cancelled(n)
      ensures History(Some(AttemptNotCreated), isFresh)
    {
    }

    method StartAndObserve(n: nat, ghost isFresh: bool) returns (err: Option<RunError>, ended: bool)
      requires Before(n) && Ready(n, isFresh) && n <= MaxAttempts(cfg) && !env.cancelled(n)
      modifies this`tracked, this`observed, store
      ensures ended ==> Outcome(err, isFresh) && err == Some(AttemptNotCreated)
      ensures !ended ==>
        Ready(n, isFresh) && |observed| == |tracked| == n && observed == old(observed) + [env.observe(n)]
      ensures !ended ==> env.creation(n).Started?
      ensures OwnRows() == old(OwnRows())
    {
      var created := CreateAttempt(n, isFresh);
      ended := !created;
      err := None;
      if ended {
        err := Some(AttemptNotCreated);
        NotStarted(n, isFresh);
      } else {
        YieldUnderway(n, isFresh);
        ObserveAndWait(n, isFresh);
      }
    }

    method NotStarted(n: nat, ghost isFresh: bool)
      requires Before(n) && Ready(n, isFresh) && n <= MaxAttempts(cfg) && !env.creation(n).Started? && LeftRow(n)
      requires !env.cancelled(n)
      modifies store
      ensures Outcome(Some(AttemptNotCreated), isFresh) && OwnRows() == old(OwnRows())
    {
      YieldWithRow(n, isFresh);
      NotCreatedHistory(n, isFresh);
      End(Some(AttemptNotCreated), Failed, false, isFresh);
    }

    ghost function WithKey(own: Own, n: nat): Own
      requires n < |decisions|
      reads this
    {
      own.(keys := own.keys + {EffectKey(runID, n, decisions[n])})
    }

    /** Makes the decision durable; a failed write or a replayed key ends the run. */
    method Persist(n: nat, ghost isFresh: bool) returns (err: Option<RunError>, ended: bool)
      requires After(n) && Ready(n, isFresh)
      modifies this`duplicate, store
      ensures ended <==> env.effectError(n) || EffectKey(runID, n, decisions[n]) in old(OwnKeys())
      ensures ended ==> Outcome(err, isFresh) && Concluded(old(OwnRows()), n, err)
      ensures !ended ==> After(n) && Ready(n + 1, isFresh) && OwnRows() == WithKey(old(OwnRows()), n)
    {
      if env.effectError(n) {
        NotPersisted(n, isFresh);
        return Some(EffectNotPersisted), true;
      }
      var isNew := StoreKey(n, isFresh);
      if !isNew {
        Replayed(n, isFresh, old(OwnRows()));
        return None, true;
      }
      return None, false;
    }

    method NotPersisted(n: nat, ghost isFresh: bool)
      requires After(n) && Ready(n, isFresh) && env.effectError(n)
      modifies store
      ensures Outcome(Some(EffectNotPersisted), isFresh) && Concluded(old(OwnRows()), n, Some(EffectNotPersisted))
    {
      End(Some(EffectNotPersisted), Failed, true, isFresh);
    }

    method StoreKey(n: nat, ghost isFresh: bool) returns (isNew: bool)
      requires After(n) && Ready(n, isFresh)
      modifies store`effects
      ensures isNew <==> EffectKey(runID, n, decisions[n]) !in old(OwnKeys())
      ensures OwnRows() == WithKey(old(OwnRows()), n) && (isFresh ==> isNew)
      ensures Steady(None) && (isNew ==> Ready(n + 1, isFresh))
    {
      var key := EffectKey(runID, n, decisions[n]);
      if isFresh { FreshKey(n, decisions[n]); }
      isNew := store.RecordEffect(runID, key);
      KeyRecorded(old(store.effects), key);
      if isFresh { OneMoreKey(n, decisions[n], old(store.effects)); }
    }

    method Replayed(n: nat, ghost isFresh: bool, ghost own: Own)
      requires After(n) && Steady(None) && !isFresh && !env.effectError(n)
      requires EffectKey(runID, n, decisions[n]) in own.keys && OwnRows() == WithKey(own, n)
      modifies this`duplicate, store
      ensures Outcome(None, isFresh) && Concluded(own, n, None)
    {
      MarkReplayed(n);
      End(None, Cancelled, true, isFresh);
    }

    method MarkReplayed(n: nat)
      requires After(n) && Steady(None) && !env.effectError(n)
      modifies this`duplicate
      ensures duplicate && Steady(None) && History(None, false) && FinalStatus(None) == Cancelled
    {
      assert Bounded() && Went(n, |decisions|);
      duplicate := true;
      assert Bounded() && Cause(None) && Uninterrupted(None);
    }

    lemma KeyRecorded(effects: set<(int, string)>, key: string)
      requires store.effects == effects + {(runID as int, key)}
      ensures OwnKeys() == KeysOf(effects, runID) + {key}
      ensures key in KeysOf(effects, runID) <==> (runID as int, key) in effects
    {
      var e := (runID as int, key);
      assert e in store.effects;
      if key in KeysOf(effects, runID) {
        var e' :| e' in effects && e'.0 == runID && e'.1 == key;
        assert e' == e;
      }
    }

    lemma OneMoreKey(n: nat, d: Decision, effects: set<(int, string)>)
      requires forall e | e in effects && e.0 == runID :: KeyOf(e.1, n)
      requires store.effects == effects + {(runID as int, EffectKey(runID, n, d))}
      ensures KeysBefore(n + 1)
    {
      forall e | e in store.effects && e.0 == runID ensures KeyOf(e.1, n + 1) {
        if e in effects {
          var m: nat, d' :| m < n && e.1 == EffectKey(runID, m, d');
          assert m < n + 1;
        } else {
          assert n < n + 1 && e.1 == EffectKey(runID, n, d);
        }
      }
    }

    method Conclude(n: nat, ghost isFresh: bool) returns (err: Option<RunError>, ended: bool)
      requires After(n) && Ready(n + 1, isFresh) && !env.effectError(n)
      modifies store
      ensures ended ==> Outcome(err, isFresh) && OwnKeys() == old(OwnKeys()) && RecordAfter(old(OwnRecord()), err)
      ensures !ended ==> Before(n + 1) && Ready(n + 1, isFresh) && OwnRows() == old(OwnRows())
    {
      if decisions[n] == COMPLETE {
        err := Complete(n, isFresh);
        return err, true;
      }
      if decisions[n] == FAIL {
        End(None, Failed, true, isFresh);
        return None, true;
      }
      StillUndecided(n);
      return None, false;
    }

    lemma StillUndecided(n: nat)
      requires After(n) && decisions[n] != COMPLETE && decisions[n] != FAIL && !env.effectError(n)
      ensures Before(n + 1)
    {
      forall i | 0 <= i < n ensures decisions[i] != COMPLETE && decisions[i] != FAIL {
        assert decisions[..n][i] == decisions[i];
      }
    }

    /** Wakes the coordinator with the result of attempt n; errors become FAIL, and without a
        coordinator a passed validator becomes COMPLETE. */
    method Respond(n: nat)
      requires 1 <= n <= MaxAttempts(cfg) && |decisions| == n == |observed| == |tracked|
      requires Undecided(decisions) && Permitted(decisions, observed[..n - 1], coord != null, env.wake) &&
        Seen(observed, env.observe) && !duplicate && Went(n, n)
      requires coord == null ==> decisions[0] == VALIDATE && n <= MAX_AUTO_VALIDATE
      modifies this`decisions, coord
      ensures After(n) && decisions[..n] == old(decisions)
    {
      var o := observed[n - 1];
      var resp := WakeCoordinator(AllowedDecisions(o), env.wake(n));
      var d := if resp.None? then FAIL else resp.value;
      if coord == null && o.validatorPassed { d := COMPLETE; }
      ghost var was := decisions;
      decisions := decisions + [d];
      Responded(was, n, d);
    }

    lemma Responded(was: seq<Decision>, n: nat, d: Decision)
      requires 1 <= n <= MaxAttempts(cfg) && |was| == n == |observed| == |tracked| && decisions == was + [d]
      requires Undecided(was) && Permitted(was, observed[..n - 1], coord != null, env.wake)
      requires Seen(observed, env.observe) && !duplicate && Went(n, n)
      requires coord == null ==> was[0] == VALIDATE && n <= MAX_AUTO_VALIDATE
      requires d == if coord != null then Answer(AllowedDecisions(observed[n - 1]), env.wake(n))
                    else if observed[n - 1].validatorPassed then COMPLETE else VALIDATE
      ensures After(n) && decisions[..n] == was
    {
      FailClosedNext(was, observed, d);
      PermittedNext(was, observed, d, coord != null, env.wake);
      assert decisions[..n] == was;
    }

    /** The gateway's rule for the state transition. */
    predicate Validate(d: Decision, validatorPassed: bool) {
      !(d == COMPLETE && !validatorPassed)
    }

    method Complete(n: nat, ghost isFresh: bool) returns (err: Option<RunError>)
      requires After(n) && Ready(n + 1, isFresh) && decisions[n] == COMPLETE && !env.effectError(n)
      modifies store
      ensures Outcome(err, isFresh) && OwnKeys() == old(OwnKeys()) && RecordAfter(old(OwnRecord()), err)
      // a run that has a record gets its candidate, unless that write fails; without one a provider's run fails
      ensures runID in store.records <==> runID in old(store.records)
      ensures runID in old(store.records) ==>
        store.records[runID] == old(store.records[runID]).(
          candidate := if env.candidateError then old(store.records[runID].candidate) else |observed|)
      ensures err == if runID in old(store.records) then if env.candidateError then Some(CandidateNotRecorded) else None
                     else if cfg.hasProvider then Some(CandidateImpossible) else None
    {
      NeverRejected(n);
      if !Validate(decisions[n], observed[n - 1].validatorPassed) {
        // the gateway's rejection is never reached: COMPLETE is only allowed after a pass
        assert false;
      }
      err := Accept(n, isFresh);
      if err.None? { YieldAndEnd(n, isFresh); }
    }

    method Accept(n: nat, ghost isFresh: bool) returns (err: Option<RunError>)
      requires After(n) && Ready(n + 1, isFresh) && decisions[n] == COMPLETE && !env.effectError(n)
      modifies store
      ensures OwnKeys() == old(OwnKeys()) && RecordAfter(old(OwnRecord()), err)
      ensures if err.Some? then Outcome(err, isFresh)
              else Ready(n + 1, isFresh) && History(None, isFresh) && FinalStatus(None) == Completed
    {
      err := AcceptCandidate(n, isFresh);
      CompleteHistory(n, isFresh, err);
      if err.Some? { CandidateLost(err, isFresh); }
    }

    lemma CandidateLost(err: Option<RunError>, isFresh: bool)
      requires err == Some(CandidateNotRecorded) || err == Some(CandidateImpossible)
      requires Valid() && History(err, isFresh) && LastFailed()
      requires ShutAttempts(env.company, store.attempts, tracked) && ShutWorkers(env.company, store.workers, tracked)
      requires StatusMay(env.company, Failed, store.runs[runID]) &&
        StatusMay(env.company, Failed, store.tasks[taskID].status)
      ensures Outcome(err, isFresh)
    {
    }

    method YieldAndEnd(n: nat, ghost isFresh: bool)
      requires Ready(n + 1, isFresh) && History(None, isFresh) && FinalStatus(None) == Completed && |tracked| > 0
      modifies store
      ensures Outcome(None, isFresh) && OwnRows() == old(OwnRows())
    {
      Yield(n + 1, isFresh);
      End(None, Completed, true, isFresh);
    }

    lemma NeverRejected(n: nat)
      requires After(n)
      ensures Validate(decisions[n], observed[n - 1].validatorPassed)
    {
    }

    lemma CompleteHistory(n: nat, isFresh: bool, err: Option<RunError>)
      requires After(n) && decisions[n] == COMPLETE && !env.effectError(n)
      requires err.Some? ==> Cause(err) && (err == Some(CandidateNotRecorded) || err == Some(CandidateImpossible))
      ensures History(err, isFresh)
      ensures err.None? ==> FinalStatus(err) == Completed
    {
    }

    /** Records the attempt as the run's candidate, or fails everything. */
    method AcceptCandidate(n: nat, ghost isFresh: bool) returns (err: Option<RunError>)
      requires Ready(n + 1, isFresh)
      requires |decisions| == n + 1 && decisions[n] == COMPLETE && |observed| == |tracked| == n > 0 && !duplicate
      modifies store
      ensures Valid() && OwnKeys() == old(OwnKeys()) && RecordAfter(old(OwnRecord()), err)
      ensures err.None? ==> Ready(n + 1, isFresh)
      ensures err.Some? ==> LastFailed()
      ensures err.Some? ==>
        && ShutAttempts(env.company, store.attempts, tracked) && ShutWorkers(env.company, store.workers, tracked)
        && StatusMay(env.company, Failed, store.runs[runID]) &&
             StatusMay(env.company, Failed, store.tasks[taskID].status)
        && Cause(err) && (err.value == CandidateNotRecorded || err.value == CandidateImpossible)
    {
      var hasRecord := runID in store.records;
      Yield(n + 1, isFresh);
      if hasRecord {
        if env.candidateError {
          FailCandidate();
          return Some(CandidateNotRecorded);
        }
        store.RecordCandidate(runID, n);
      } else if cfg.hasProvider {
        FailCandidate();
        return Some(CandidateImpossible);
      }
      return None;
    }
  }

  predicate Stale(row: AttemptRow, gone: string -> bool) {
    (row.status == Pending || row.status == Running) && row.branch != "" && gone(row.branch)
  }

  /** Before a run has its rows, other processes leave alone what it was given beforehand. */
  predicate BeforeMay(c: Company, cfg: Config, s: Rows, s': Rows) {
    && RowsValid(s') && s.attempts.Keys <= s'.attempts.Keys && s.nextRun <= s'.nextRun && (c.Alone? ==> s' == s)
    && (cfg.runID in s.runs ==>
          && cfg.runID in s'.runs && (cfg.runID in s.records <==> cfg.runID in s'.records)
          && (cfg.runID in s.records ==> s'.records[cfg.runID] == s.records[cfg.runID])
          && (forall e | e in s.effects && e.0 == cfg.runID :: e in s'.effects)
          && (forall e | e in s'.effects && e.0 == cfg.runID :: e in s.effects))
  }

  method OthersBefore(store: Store, cfg: Config, env: Env)
    requires store.Valid()
    modifies store
    ensures store.Valid() && BeforeMay(env.company, cfg, old(store.View()), store.View())
    ensures env.company.Alone? ==> store.View() == old(store.View())
  {
    var s: Rows := *;
    if BeforeMay(env.company, cfg, store.View(), s) {
      store.Install(s);
    } else {
      store.Install(store.View());
    }
  }

  /** The attempts after the writes to the first k of the listed rows, when nobody interferes. */
  function WithCancelled(listed: map<int, AttemptRow>, rows: seq<int>, k: nat, gone: string -> bool)
    : map<int, AttemptRow>
    requires k <= |rows|
  {
    if k == 0 then listed
    else if rows[k - 1] in listed && Stale(listed[rows[k - 1]], gone)
    then WithAttempt(WithCancelled(listed, rows, k - 1, gone), rows[k - 1], Cancelled)
    else WithCancelled(listed, rows, k - 1, gone)
  }

  /** The attempts that were listed in flight with a gone branch are cancelled, and no other. */
  function AllCancelled(listed: map<int, AttemptRow>, gone: string -> bool): map<int, AttemptRow> {
    map a | a in listed :: if Stale(listed[a], gone) then listed[a].(status := Cancelled) else listed[a]
  }

  lemma CancelsAll(listed: map<int, AttemptRow>, rows: seq<int>, gone: string -> bool)
    requires forall a | a in listed && Stale(listed[a], gone) :: a in rows
    ensures WithCancelled(listed, rows, |rows|, gone) == AllCancelled(listed, gone)
  {
    CancelsExactly(listed, rows, |rows|, gone);
    assert rows[..|rows|] == rows;
    var done := WithCancelled(listed, rows, |rows|, gone);
    assert done.Keys == AllCancelled(listed, gone).Keys;
    forall a | a in listed ensures done[a] == AllCancelled(listed, gone)[a] {}
  }

  lemma CancelsExactly(listed: map<int, AttemptRow>, rows: seq<int>, k: nat, gone: string -> bool)
    requires k <= |rows|
    ensures WithCancelled(listed, rows, k, gone).Keys == listed.Keys
    ensures forall a | a in listed ::
      WithCancelled(listed, rows, k, gone)[a] ==
        if a in rows[..k] && Stale(listed[a], gone) then listed[a].(status := Cancelled) else listed[a]
  {
    CancelsKeys(listed, rows, k, gone);
    forall a | a in listed
      ensures WithCancelled(listed, rows, k, gone)[a] ==
        if a in rows[..k] && Stale(listed[a], gone) then listed[a].(status := Cancelled) else listed[a]
    {
      CancelsRow(listed, rows, k, gone, a);
    }
  }

  lemma {:induction false} CancelsKeys(listed: map<int, AttemptRow>, rows: seq<int>, k: nat, gone: string -> bool)
    requires k <= |rows|
    ensures WithCancelled(listed, rows, k, gone).Keys == listed.Keys
  {
    if k > 0 { CancelsKeys(listed, rows, k - 1, gone); }
  }

  lemma {:induction false} CancelsRow(listed: map<int, AttemptRow>, rows: seq<int>, k: nat, gone: string -> bool,
                                      a: int)
    requires k <= |rows| && a in listed
    ensures a in WithCancelled(listed, rows, k, gone)
    ensures WithCancelled(listed, rows, k, gone)[a] ==
      if a in rows[..k] && Stale(listed[a], gone) then listed[a].(status := Cancelled) else listed[a]
  {
    if k > 0 {
      CancelsRow(listed, rows, k - 1, gone, a);
      assert rows[..k] == rows[..k - 1] + [rows[k - 1]];
      assert a in rows[..k] <==> a in rows[..k - 1] || a == rows[k - 1];
    }
  }

  /** Lists the active attempts, of whatever run, and cancels those whose worktree branch is gone.
      It decides on the list: with nobody else at work no active attempt with a gone branch is left
      and no other row changes; otherwise the write hits whatever the row has become. */
  method CancelGone(store: Store, cfg: Config, env: Env)
    requires store.Valid()
    modifies store
    ensures store.Valid() && old(store.attempts).Keys <= store.attempts.Keys
    ensures BeforeMay(env.company, cfg, old(store.View()).(attempts := store.attempts), store.View())
    ensures env.company.Alone? ==>
      && store.View() == old(store.View()).(attempts := store.attempts)
      && store.attempts.Keys == old(store.attempts).Keys
      && forall a | a in store.attempts :: var row := old(store.attempts)[a];
           store.attempts[a] ==
             if (row.status == Pending || row.status == Running) && row.branch != "" && env.worktreeGone(row.branch)
             then row.(status := Cancelled) else row
  {
    var listed := store.attempts;
    var rows := AnyOrder(set a | a in listed && (listed[a].status == Pending || listed[a].status == Running));
    CancelsAll(listed, rows, env.worktreeGone);
    CancelListed(store, cfg, env, listed, rows);
  }

  method CancelListed(store: Store, cfg: Config, env: Env, listed: map<int, AttemptRow>, rows: seq<int>)
    requires store.Valid() && forall a | a in rows :: a in listed
    modifies store
    ensures store.Valid() && old(store.attempts).Keys <= store.attempts.Keys
    ensures BeforeMay(env.company, cfg, old(store.View()).(attempts := store.attempts), store.View())
    ensures env.company.Alone? && listed == old(store.attempts) ==>
      store.View() == old(store.View()).(attempts := WithCancelled(listed, rows, |rows|, env.worktreeGone))
  {
    for i := 0 to |rows|
      invariant store.Valid() && old(store.attempts).Keys <= store.attempts.Keys
      invariant BeforeMay(env.company, cfg, old(store.View()).(attempts := store.attempts), store.View())
      invariant env.company.Alone? && listed == old(store.attempts) ==>
        store.View() == old(store.View()).(attempts := WithCancelled(listed, rows, i, env.worktreeGone))
    {
      assert rows[i] in rows;
      CancelNext(store, cfg, env, rows[i], listed[rows[i]]);
    }
  }

  method CancelNext(store: Store, cfg: Config, env: Env, a: int, listed: AttemptRow)
    requires store.Valid()
    modifies store
    ensures store.Valid() && old(store.attempts).Keys <= store.attempts.Keys
    ensures BeforeMay(env.company, cfg, old(store.View()).(attempts := store.attempts), store.View())
    ensures env.company.Alone? ==> store.View() == old(store.View()).(attempts :=
      if Stale(listed, env.worktreeGone) then WithAttempt(old(store.attempts), a, Cancelled) else old(store.attempts))
  {
    OthersBefore(store, cfg, env);
    CancelIfGone(store, a, listed, env.worktreeGone);
  }

  /** The decision is on the row as listed, the write has no guard. */
  method CancelIfGone(store: Store, a: int, listed: AttemptRow, gone: string -> bool)
    requires store.Valid()
    modifies store`attempts
    ensures store.Valid()
    ensures store.attempts ==
      if (listed.status == Pending || listed.status == Running) && listed.branch != "" && gone(listed.branch) &&
         a in old(store.attempts)
      then old(store.attempts)[a := old(store.attempts)[a].(status := Cancelled)]
      else old(store.attempts)
  {
    if Stale(listed, gone) { store.UpdateAttemptStatus(a, Cancelled); }
  }

  /** The record and the keys a run starts with: those of a run that was given, and for a new one a
      record exactly when it has a provider. */
  ghost function StartRows(cfg: Config, s: Rows): Own {
    if cfg.runID in s.runs
    then Own(if cfg.runID in s.records then Some(s.records[cfg.runID]) else None, KeysOf(s.effects, cfg.runID))
    else Own(if cfg.hasProvider && cfg.runID == 0 then Some(Record(0, 0)) else None, {})
  }

  /** Everything before the first decision. */
  method Prepare(store: Store, cfg: Config, env: Env, coord: Coordinator?) returns (c: RunContext)
    requires store.Valid()
    modifies store
    ensures fresh(c) && c.Valid() && c.store == store && c.cfg == cfg && c.env == env && c.coord == coord
    ensures c.decisions == [] && c.tracked == [] && c.observed == [] && !c.duplicate
    ensures cfg.runID in old(store.runs) ==> c.runID == cfg.runID
    ensures cfg.runID == 0 ==> c.runID !in old(store.runs)
    ensures cfg.runID in old(store.runs) || c.runID != cfg.runID ==> c.OwnRows() == StartRows(cfg, old(store.View()))
  {
    CancelGone(store, cfg, env);
    OthersBefore(store, cfg, env);
    ghost var s := store.View();
    c := new RunContext(store, cfg, env, coord);
    if cfg.runID in old(store.runs) {
      assert forall e :: e in s.effects && e.0 == cfg.runID <==> e in old(store.effects) && e.0 == cfg.runID;
      assert KeysOf(s.effects, cfg.runID) == KeysOf(old(store.effects), cfg.runID);
    }
  }

  /** A run from start to end.  Its effect keys cannot collide unless it already had some before,
      which a run it creates itself has not. */
  method Run(store: Store, cfg: Config, env: Env, coord: Coordinator?) returns (rc: RunContext?, err: Option<RunError>)
    requires store.Valid()
    modifies store, coord
    ensures rc == null <==> !cfg.complete
    ensures rc == null ==> err == Some(MissingArguments) && unchanged(store)
    ensures rc != null ==> rc.store == store && rc.cfg == cfg && rc.env == env && rc.coord == coord
    ensures rc != null && cfg.runID in old(store.runs) ==> rc.runID == cfg.runID
    ensures rc != null && cfg.runID == 0 ==> rc.runID !in old(store.runs)
    ensures rc != null ==> rc.Outcome(err, StartsFresh(cfg, rc.runID, old(store.View())))
    ensures rc != null && (cfg.runID in old(store.runs) || cfg.runID == 0) ==>
      rc.Ends(StartRows(cfg, old(store.View())), err)
    // every decision has its key, but for the last one if its write failed
    ensures rc != null && (cfg.runID in old(store.runs) || cfg.runID == 0) ==>
      forall m: nat | 1 <= m < |rc.decisions| && !(err == Some(EffectNotPersisted) && m == |rc.decisions| - 1) ::
        (rc.runID as int, EffectKey(rc.runID, m, rc.decisions[m])) in store.effects
    // a completed run that has a record has its last attempt as candidate, and nothing else writes it
    ensures rc != null && cfg.runID in old(store.runs) ==>
      && (rc.runID in store.records <==> rc.runID in old(store.records))
      && (rc.runID in store.records ==>
            store.records[rc.runID].candidate ==
              if err.None? && !rc.duplicate && rc.decisions[|rc.decisions| - 1] == COMPLETE then |rc.observed|
              else old(store.records)[rc.runID].candidate)
    ensures rc != null && cfg.runID == 0 ==>
      && (rc.runID in store.records <==> cfg.hasProvider)
      && (rc.runID in store.records ==>
            store.records[rc.runID].candidate ==
              if err.None? && !rc.duplicate && rc.decisions[|rc.decisions| - 1] == COMPLETE then |rc.observed| else 0)
  {
    if !cfg.complete { return null, Some(MissingArguments); }
    var c := Prepare(store, cfg, env, coord);
    err := c.Loop();
    rc := c;
    c.KeysStored(c.OwnKeys(), err);
  }

  /** The run had no effect keys before. */
  ghost predicate StartsFresh(cfg: Config, run: int, s: Rows) {
    if cfg.runID in s.runs then NoKeys(s.effects, run) else run != cfg.runID
  }
}
