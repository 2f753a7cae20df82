/** What a run knows of its own rows while other processes write to the same store. */
module RunTables {
  import opened Options
  import opened TaskStore

  datatype Observation = Observation(exited: bool, exitCode: int, validatorPassed: bool, checkpoint: string)

  function StatusOf(o: Observation): Status {
    if o.validatorPassed && o.exitCode == 0 then Completed else Failed
  }

  /** Who else is at work on the store: nobody, other calls of Run, or these and crash recovery. */
  datatype Company = Alone | OtherRuns | OtherRunsAndRecovery

  /** The statuses another process may write over that of an attempt of this run.  Other runs cancel,
      recovery interrupts; both decide on an earlier list, and the write has no guard. */
  predicate Imposed(c: Company, x: Status) {
    (c != Alone && x == Cancelled) || (c == OtherRunsAndRecovery && x == Interrupted)
  }

  /** The same for a run, a task or a worker, which only recovery touches. */
  predicate StatusMay(c: Company, x: Status, x': Status) {
    x' == x || (c == OtherRunsAndRecovery && x' == Interrupted)
  }

  predicate AttemptMay(c: Company, row: AttemptRow, row': AttemptRow) {
    row' == row.(status := row'.status) && (row'.status == row.status || Imposed(c, row'.status))
  }

  datatype Tracked = Tracked(attempt: int, worker: int)

  /** What other processes may do to the rows of the attempts that are tracked. */
  predicate TrackedMay(c: Company, tracked: seq<Tracked>,
                       attempts: map<int, AttemptRow>, attempts': map<int, AttemptRow>,
                       workers: map<int, WorkerRow>, workers': map<int, WorkerRow>) {
    forall i | 0 <= i < |tracked| ::
      && (tracked[i].attempt in attempts ==>
            tracked[i].attempt in attempts' &&
            AttemptMay(c, attempts[tracked[i].attempt], attempts'[tracked[i].attempt]))
      && (tracked[i].worker in workers ==>
            tracked[i].worker in workers' &&
            StatusMay(c, workers[tracked[i].worker].status, workers'[tracked[i].worker].status))
  }

  /** And to the attempts of the task that are not; they give them no worker. */
  predicate TaskMay(c: Company, task: int, attempts: map<int, AttemptRow>, attempts': map<int, AttemptRow>,
                    workers: map<int, WorkerRow>, workers': map<int, WorkerRow>) {
    && (forall a | a in attempts && attempts[a].task == task ::
         a in attempts' && AttemptMay(c, attempts[a], attempts'[a]))
    && (forall w | w in workers' :: var a := workers'[w].attempt;
          a in attempts && attempts[a].task == task ==> w in workers && workers[w].attempt == a)
  }

  // ----- the tracked rows

  predicate Shut(c: Company, x: Status) {
    Terminal(x) || Imposed(c, x)
  }

  ghost predicate ShutAttempts(c: Company, attempts: map<int, AttemptRow>, tracked: seq<Tracked>) {
    forall i | 0 <= i < |tracked| :: tracked[i].attempt in attempts && Shut(c, attempts[tracked[i].attempt].status)
  }

  ghost predicate ShutWorkers(c: Company, workers: map<int, WorkerRow>, tracked: seq<Tracked>) {
    forall i | 0 <= i < |tracked| :: tracked[i].worker in workers && Shut(c, workers[tracked[i].worker].status)
  }

  /** A tracker hands its one attempt row to every attempt of the run. */
  ghost predicate LatestUse(tracked: seq<Tracked>, i: nat)
    requires i < |tracked|
  {
    forall j | i < j < |tracked| :: tracked[j].attempt != tracked[i].attempt
  }

  /** x is what the observation said, or was imposed later; an attempt that recovery had interrupted
      may have been closed with the status of its run. */
  ghost predicate Says(c: Company, o: Observation, closed: Option<Status>, x: Status) {
    x == StatusOf(o) || Imposed(c, x) || (c == OtherRunsAndRecovery && closed == Some(x))
  }

  /** Every tracked attempt row says what its latest observation said, as far as nobody interfered. */
  ghost predicate AsObserved(c: Company, attempts: map<int, AttemptRow>, tracked: seq<Tracked>,
                             observed: seq<Observation>, closed: Option<Status>) {
    |tracked| == |observed| &&
    forall i | 0 <= i < |tracked| && LatestUse(tracked, i) ::
      tracked[i].attempt in attempts && Says(c, observed[i], closed, attempts[tracked[i].attempt].status)
  }

  lemma ShutStays(c: Company, tracked: seq<Tracked>, attempts: map<int, AttemptRow>, attempts': map<int, AttemptRow>,
                  workers: map<int, WorkerRow>, workers': map<int, WorkerRow>)
    requires TrackedMay(c, tracked, attempts, attempts', workers, workers')
    ensures ShutAttempts(c, attempts, tracked) ==> ShutAttempts(c, attempts', tracked)
    ensures ShutWorkers(c, workers, tracked) ==> ShutWorkers(c, workers', tracked)
  {
  }

  lemma ObservedStays(c: Company, tracked: seq<Tracked>,
                      attempts: map<int, AttemptRow>, attempts': map<int, AttemptRow>,
                      workers: map<int, WorkerRow>, workers': map<int, WorkerRow>,
                      observed: seq<Observation>, closed: Option<Status>)
    requires TrackedMay(c, tracked, attempts, attempts', workers, workers')
    requires AsObserved(c, attempts, tracked, observed, closed)
    ensures AsObserved(c, attempts', tracked, observed, closed)
  {
  }

  lemma MayPrefix(c: Company, tracked: seq<Tracked>, k: nat, attempts: map<int, AttemptRow>,
                  attempts': map<int, AttemptRow>, workers: map<int, WorkerRow>, workers': map<int, WorkerRow>)
    requires k <= |tracked| && TrackedMay(c, tracked, attempts, attempts', workers, workers')
    ensures TrackedMay(c, tracked[..k], attempts, attempts', workers, workers')
  {
  }

  /** Rows that are only added to leave the tracked ones as they are. */
  lemma OlderRowsStay(c: Company, attempts: map<int, AttemptRow>, attempts': map<int, AttemptRow>,
                      workers: map<int, WorkerRow>, workers': map<int, WorkerRow>, tracked: seq<Tracked>)
    requires forall a | a in attempts :: a in attempts' && attempts'[a] == attempts[a]
    requires forall w | w in workers :: w in workers' && workers'[w] == workers[w]
    ensures TrackedMay(c, tracked, attempts, attempts', workers, workers')
  {
  }

  /** The write of an observation. */
  lemma ObservedNext(c: Company, attempts: map<int, AttemptRow>, tracked: seq<Tracked>, t: Tracked,
                     observed: seq<Observation>, o: Observation)
    requires ShutAttempts(c, attempts, tracked) && AsObserved(c, attempts, tracked, observed, None) &&
      t.attempt in attempts
    ensures var attempts' := WithAttempt(attempts, t.attempt, StatusOf(o));
      ShutAttempts(c, attempts', tracked + [t]) && AsObserved(c, attempts', tracked + [t], observed + [o], None)
  {
    var tracked', attempts' := tracked + [t], WithAttempt(attempts, t.attempt, StatusOf(o));
    forall i | 0 <= i < |tracked'| && LatestUse(tracked', i)
      ensures tracked'[i].attempt in attempts' &&
        Says(c, (observed + [o])[i], None, attempts'[tracked'[i].attempt].status)
    {
      if i < |tracked| {
        assert tracked'[|tracked|].attempt != tracked'[i].attempt;
        assert forall j | i < j < |tracked| :: tracked'[j] == tracked[j];
        assert LatestUse(tracked, i);
      }
    }
  }

  lemma CheckpointKeeps(c: Company, attempts: map<int, AttemptRow>, attempts': map<int, AttemptRow>, a: int,
                        sha: string, tracked: seq<Tracked>, observed: seq<Observation>, closed: Option<Status>)
    requires a in attempts && attempts' == attempts[a := attempts[a].(checkpoint := sha)]
    requires ShutAttempts(c, attempts, tracked) && AsObserved(c, attempts, tracked, observed, closed)
    ensures ShutAttempts(c, attempts', tracked) && AsObserved(c, attempts', tracked, observed, closed)
  {
  }

  // ----- closing

  /** The write of finalizeTerminal to an attempt it found not terminal. */
  lemma CloseKeeps(c: Company, attempts: map<int, AttemptRow>, a: int, x: Status,
                   tracked: seq<Tracked>, observed: seq<Observation>)
    requires Terminal(x) && c == OtherRunsAndRecovery
    requires ShutAttempts(c, attempts, tracked)
    ensures ShutAttempts(c, WithAttempt(attempts, a, x), tracked)
    ensures AsObserved(c, attempts, tracked, observed, Some(x)) ==>
      AsObserved(c, WithAttempt(attempts, a, x), tracked, observed, Some(x))
  {
  }

  lemma CloseKeepsShut(c: Company, attempts: map<int, AttemptRow>, a: int, x: Status, tracked: seq<Tracked>)
    requires Terminal(x) && ShutAttempts(c, attempts, tracked)
    ensures ShutAttempts(c, WithAttempt(attempts, a, x), tracked)
  {
  }

  lemma CloseKeepsWorkers(c: Company, workers: map<int, WorkerRow>, w: int, x: Status, tracked: seq<Tracked>)
    requires Terminal(x) && ShutWorkers(c, workers, tracked)
    ensures ShutWorkers(c, WithWorker(workers, w, x), tracked)
  {
  }

  function CloseAttempt(attempts: map<int, AttemptRow>, a: int, x: Status): map<int, AttemptRow> {
    if a in attempts && Terminal(attempts[a].status) then attempts else WithAttempt(attempts, a, x)
  }

  function CloseWorker(workers: map<int, WorkerRow>, w: int, x: Status): map<int, WorkerRow> {
    if w in workers && Terminal(workers[w].status) then workers else WithWorker(workers, w, x)
  }

  /** What finalizeTerminal makes of the attempts when nobody interferes: the first k tracked ones
      that were open are x. */
  function CloseAttempts(attempts: map<int, AttemptRow>, tracked: seq<Tracked>, k: nat, x: Status): map<int, AttemptRow>
    requires k <= |tracked|
  {
    if k == 0 then attempts else CloseAttempt(CloseAttempts(attempts, tracked, k - 1, x), tracked[k - 1].attempt, x)
  }

  function CloseWorkers(workers: map<int, WorkerRow>, tracked: seq<Tracked>, k: nat, x: Status): map<int, WorkerRow>
    requires k <= |tracked|
  {
    if k == 0 then workers else CloseWorker(CloseWorkers(workers, tracked, k - 1, x), tracked[k - 1].worker, x)
  }

  ghost predicate IsTracked(tracked: seq<Tracked>, k: nat, a: int) {
    exists i :: 0 <= i < k && i < |tracked| && tracked[i].attempt == a
  }

  /** Exactly the tracked attempts that were open are closed with x, and no other row changes. */
  lemma {:induction false} ClosesExactly(attempts: map<int, AttemptRow>, tracked: seq<Tracked>, k: nat, x: Status)
    requires k <= |tracked| && Terminal(x)
    ensures CloseAttempts(attempts, tracked, k, x).Keys == attempts.Keys
    ensures forall a | a in attempts ::
      CloseAttempts(attempts, tracked, k, x)[a] ==
        if IsTracked(tracked, k, a) && attempts[a].status in {Pending, Running, Interrupted}
        then attempts[a].(status := x) else attempts[a]
  {
    if k > 0 {
      ClosesExactly(attempts, tracked, k - 1, x);
      forall a ensures IsTracked(tracked, k, a) <==> IsTracked(tracked, k - 1, a) || tracked[k - 1].attempt == a {
        if tracked[k - 1].attempt == a { assert 0 <= k - 1 < k; }
      }
    }
  }

  /** The same of their workers. */
  lemma {:induction false} ClosesWorkersExactly(workers: map<int, WorkerRow>, tracked: seq<Tracked>, k: nat, x: Status)
    requires k <= |tracked| && Terminal(x)
    ensures CloseWorkers(workers, tracked, k, x).Keys == workers.Keys
    ensures forall w | w in workers ::
      CloseWorkers(workers, tracked, k, x)[w] ==
        if (exists i :: 0 <= i < k && tracked[i].worker == w) && workers[w].status in {Pending, Running, Interrupted}
        then workers[w].(status := x) else workers[w]
  {
    if k > 0 {
      ClosesWorkersExactly(workers, tracked, k - 1, x);
    }
  }

  // ----- what a start that failed leaves

  /** An attempt of the task that was never given a worker: pending, unless another process wrote. */
  ghost predicate Workerless(c: Company, attempts: map<int, AttemptRow>, workers: map<int, WorkerRow>,
                             tracked: seq<Tracked>, task: int, n: nat, a: int) {
    && a in attempts && !IsTracked(tracked, |tracked|, a)
    && (attempts[a].status == Pending || Imposed(c, attempts[a].status))
    && attempts[a].(status := Pending) == AttemptRow(task, n, "branch", "", Pending)
    && forall w | w in workers :: workers[w].attempt != a
  }

  ghost predicate LeftBehind(c: Company, attempts: map<int, AttemptRow>, workers: map<int, WorkerRow>,
                             tracked: seq<Tracked>, task: int, n: nat) {
    exists a :: Workerless(c, attempts, workers, tracked, task, n, a)
  }

  lemma LeftStays(c: Company, attempts: map<int, AttemptRow>, attempts': map<int, AttemptRow>,
                  workers: map<int, WorkerRow>, workers': map<int, WorkerRow>, tracked: seq<Tracked>, task: int, n: nat)
    requires LeftBehind(c, attempts, workers, tracked, task, n) &&
      TaskMay(c, task, attempts, attempts', workers, workers')
    ensures LeftBehind(c, attempts', workers', tracked, task, n)
  {
    var a :| Workerless(c, attempts, workers, tracked, task, n, a);
    assert Workerless(c, attempts', workers', tracked, task, n, a);
  }

  /** Writes to the rows of tracked attempts and workers leave it where it is. */
  lemma LeftStaysByClose(c: Company, attempts: map<int, AttemptRow>, workers: map<int, WorkerRow>,
                         tracked: seq<Tracked>, task: int, n: nat, t: Tracked, x: Status)
    requires LeftBehind(c, attempts, workers, tracked, task, n) && t in tracked
    ensures LeftBehind(c, WithAttempt(attempts, t.attempt, x), workers, tracked, task, n)
    ensures LeftBehind(c, attempts, WithWorker(workers, t.worker, x), tracked, task, n)
  {
    var a :| Workerless(c, attempts, workers, tracked, task, n, a);
    assert IsTracked(tracked, |tracked|, t.attempt);
    assert Workerless(c, WithAttempt(attempts, t.attempt, x), workers, tracked, task, n, a);
    assert Workerless(c, attempts, WithWorker(workers, t.worker, x), tracked, task, n, a);
  }

  lemma NewRowIsLeft(c: Company, attempts: map<int, AttemptRow>, workers: map<int, WorkerRow>, tracked: seq<Tracked>,
                     task: int, n: nat, a: int)
    requires ShutAttempts(c, attempts, tracked) && a !in attempts && WorkersBelow(workers, a)
    ensures LeftBehind(c, attempts[a := AttemptRow(task, n, "branch", "", Pending)], workers, tracked, task, n)
  {
    assert Workerless(c, attempts[a := AttemptRow(task, n, "branch", "", Pending)], workers, tracked, task, n, a);
  }
}
