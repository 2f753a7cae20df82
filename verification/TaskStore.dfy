/** The durable run store: runs, tasks, attempts, workers, run records and effect keys. */
module TaskStore {

  datatype Status = Pending | Running | Completed | Failed | Cancelled | Interrupted

  /** Completed, failed or cancelled; an interrupted row is none of these. */
  predicate Terminal(x: Status) {
    x == Completed || x == Failed || x == Cancelled
  }

  datatype TaskRow = TaskRow(run: int, status: Status)
  datatype AttemptRow = AttemptRow(task: int, number: int, branch: string, checkpoint: string, status: Status)
  datatype WorkerRow = WorkerRow(attempt: int, pid: int, status: Status)
  /** candidate and adopted are attempt numbers, 0 when absent. */
  datatype Record = Record(candidate: int, adopted: int)

  // UPDATE ... WHERE id=?: no row, no change.

  function WithRun(runs: map<int, Status>, id: int, x: Status): (r: map<int, Status>)
    ensures r.Keys == runs.Keys
  {
    if id in runs then runs[id := x] else runs
  }

  function WithTask(tasks: map<int, TaskRow>, id: int, x: Status): (r: map<int, TaskRow>)
    ensures r.Keys == tasks.Keys
  {
    if id in tasks then tasks[id := tasks[id].(status := x)] else tasks
  }

  function WithAttempt(attempts: map<int, AttemptRow>, id: int, x: Status): (r: map<int, AttemptRow>)
    ensures r.Keys == attempts.Keys
  {
    if id in attempts then attempts[id := attempts[id].(status := x)] else attempts
  }

  function WithWorker(workers: map<int, WorkerRow>, id: int, x: Status): (r: map<int, WorkerRow>)
    ensures r.Keys == workers.Keys
  {
    if id in workers then workers[id := workers[id].(status := x)] else workers
  }

  /** AUTOINCREMENT: ids in use are positive and below the next one. */
  predicate Below(ids: set<int>, next: int) {
    forall i | i in ids :: 0 < i < next
  }

  /** Everything the store holds. */
  datatype Rows = Rows(
    runs: map<int, Status>,
    tasks: map<int, TaskRow>,
    attempts: map<int, AttemptRow>,
    workers: map<int, WorkerRow>,
    records: map<int, Record>,
    effects: set<(int, string)>,
    nextRun: int,
    nextTask: int,
    nextAttempt: int,
    nextWorker: int)

  /** A worker row refers to an attempt that exists; attempts are never deleted. */
  predicate WorkersBelow(workers: map<int, WorkerRow>, next: int) {
    forall w | w in workers :: workers[w].attempt < next
  }

  predicate RowsValid(s: Rows) {
    && s.nextRun > 0 && s.nextTask > 0 && s.nextAttempt > 0 && s.nextWorker > 0
    && Below(s.runs.Keys, s.nextRun) && Below(s.tasks.Keys, s.nextTask)
    && Below(s.attempts.Keys, s.nextAttempt) && Below(s.workers.Keys, s.nextWorker)
    && WorkersBelow(s.workers, s.nextAttempt)
    && (forall r | r in s.records :: r < s.nextRun)
    && (forall e | e in s.effects :: e.0 < s.nextRun)
  }

  class Store {
    var runs: map<int, Status>
    var tasks: map<int, TaskRow>
    var attempts: map<int, AttemptRow>
    var workers: map<int, WorkerRow>
    var records: map<int, Record>
    var effects: set<(int, string)>
    var nextRun: int
    var nextTask: int
    var nextAttempt: int
    var nextWorker: int

    ghost predicate Valid()
      reads this
    {
      && nextRun > 0 && nextTask > 0 && nextAttempt > 0 && nextWorker > 0
      && Below(runs.Keys, nextRun) && Below(tasks.Keys, nextTask)
      && Below(attempts.Keys, nextAttempt) && Below(workers.Keys, nextWorker)
      && WorkersBelow(workers, nextAttempt)
      && (forall r | r in records :: r < nextRun)
      && (forall e | e in effects :: e.0 < nextRun)
    }

    constructor ()
      ensures Valid() && runs == map[] && tasks == map[] && attempts == map[] && workers == map[]
      ensures records == map[] && effects == {}
    {
      runs, tasks, attempts, workers, records, effects := map[], map[], map[], map[], map[], {};
      nextRun, nextTask, nextAttempt, nextWorker := 1, 1, 1, 1;
    }

    function View(): Rows
      reads this
    {
      Rows(runs, tasks, attempts, workers, records, effects, nextRun, nextTask, nextAttempt, nextWorker)
    }

    /** The store as other processes leave it. */
    method Install(s: Rows)
      requires RowsValid(s)
      modifies this
      ensures Valid() && View() == s
    {
      runs, tasks, attempts, workers, records, effects := s.runs, s.tasks, s.attempts, s.workers, s.records, s.effects;
      nextRun, nextTask, nextAttempt, nextWorker := s.nextRun, s.nextTask, s.nextAttempt, s.nextWorker;
    }

    method CreateRun() returns (id: int)
      requires Valid()
      modifies this`runs, this`nextRun
      ensures Valid() && id == old(nextRun) && nextRun == id + 1 && runs == old(runs)[id := Pending]
      ensures id !in records && forall e | e in effects :: e.0 != id
    {
      id := nextRun;
      runs, nextRun := runs[id := Pending], nextRun + 1;
    }

    method CreateTask(run: int) returns (id: int)
      requires Valid()
      modifies this`tasks, this`nextTask
      ensures Valid() && id == old(nextTask) && tasks == old(tasks)[id := TaskRow(run, Pending)]
    {
      id := nextTask;
      tasks, nextTask := tasks[id := TaskRow(run, Pending)], nextTask + 1;
    }

    method CreateAttempt(task: int, number: int, branch: string) returns (id: int)
      requires Valid()
      modifies this`attempts, this`nextAttempt
      ensures Valid() && id == old(nextAttempt)
      ensures attempts == old(attempts)[id := AttemptRow(task, number, branch, "", Pending)]
    {
      id := nextAttempt;
      attempts, nextAttempt := attempts[id := AttemptRow(task, number, branch, "", Pending)], nextAttempt + 1;
    }

    method RecordWorkerPID(attempt: int, pid: int) returns (id: int)
      requires Valid() && attempt in attempts
      modifies this`workers, this`nextWorker
      ensures Valid() && id == old(nextWorker) && workers == old(workers)[id := WorkerRow(attempt, pid, Running)]
    {
      id := nextWorker;
      workers, nextWorker := workers[id := WorkerRow(attempt, pid, Running)], nextWorker + 1;
    }

    method UpdateRunStatus(id: int, x: Status)
      modifies this`runs
      ensures runs == if id in old(runs) then old(runs)[id := x] else old(runs)
    {
      runs := WithRun(runs, id, x);
    }

    method UpdateTaskStatus(id: int, x: Status)
      modifies this`tasks
      ensures tasks == WithTask(old(tasks), id, x)
      ensures tasks == if id in old(tasks) then old(tasks)[id := old(tasks)[id].(status := x)] else old(tasks)
    {
      tasks := WithTask(tasks, id, x);
    }

    method UpdateAttemptStatus(id: int, x: Status)
      modifies this`attempts
      ensures attempts == WithAttempt(old(attempts), id, x)
      ensures attempts ==
        if id in old(attempts) then old(attempts)[id := old(attempts)[id].(status := x)] else old(attempts)
    {
      attempts := WithAttempt(attempts, id, x);
    }

    method UpdateAttemptCheckpoint(id: int, sha: string)
      modifies this`attempts
      ensures attempts == if id in old(attempts) then old(attempts)[id := old(attempts)[id].(checkpoint := sha)]
                          else old(attempts)
    {
      if id in attempts { attempts := attempts[id := attempts[id].(checkpoint := sha)]; }
    }

    method UpdateWorkerStatus(id: int, x: Status)
      modifies this`workers
      ensures workers == WithWorker(old(workers), id, x)
      ensures workers == if id in old(workers) then old(workers)[id := old(workers)[id].(status := x)] else old(workers)
    {
      workers := WithWorker(workers, id, x);
    }

    /** INSERT OR IGNORE of a run record. */
    method RecordRun(run: int)
      requires Valid() && run < nextRun
      modifies this`records
      ensures Valid() && records == if run in old(records) then old(records) else old(records)[run := Record(0, 0)]
    {
      if run !in records { records := records[run := Record(0, 0)]; }
    }

    method RecordCandidate(run: int, number: int)
      requires Valid()
      modifies this`records
      ensures Valid()
      ensures records == if run in old(records) then old(records)[run := old(records)[run].(candidate := number)]
                         else old(records)
    {
      if run in records { records := records[run := records[run].(candidate := number)]; }
    }

    /** INSERT OR IGNORE of an effect key: true when it was not there. */
    method RecordEffect(run: int, key: string) returns (isNew: bool)
      requires Valid() && run < nextRun
      modifies this`effects
      ensures Valid() && isNew == ((run, key) !in old(effects)) && effects == old(effects) + {(run, key)}
    {
      isNew := (run, key) !in effects;
      effects := effects + {(run, key)};
    }
  }
}
