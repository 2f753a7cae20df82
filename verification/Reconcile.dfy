/** Crash reconciliation: what the daemon does at start to attempts left pending or running. */
module Reconcile {
  import opened Sets
  import opened TaskStore

  /** The four tables reconciliation reads and writes. */
  datatype Tables = Tables(
    runs: map<int, Status>,
    tasks: map<int, TaskRow>,
    attempts: map<int, AttemptRow>,
    workers: map<int, WorkerRow>)

  ghost function View(s: Store): Tables
    reads s
  {
    Tables(s.runs, s.tasks, s.attempts, s.workers)
  }

  predicate Active(row: AttemptRow) {
    row.status == Pending || row.status == Running
  }

  /** The highest worker id up to `id` that belongs to the attempt, 0 when there is none. */
  function LastWorker(workers: map<int, WorkerRow>, id: int, attempt: int): (w: int)
    ensures w > 0 ==> w <= id && w in workers && workers[w].attempt == attempt
    ensures w >= 0 && forall v | v in workers && w < v <= id && v > 0 :: workers[v].attempt != attempt
    decreases if id < 0 then 0 else id
  {
    if id <= 0 then 0
    else if id in workers && workers[id].attempt == attempt then id
    else LastWorker(workers, id - 1, attempt)
  }

  // ----- what one call does, as a function of the tables

  /** w is the worker GetWorkerByAttempt returns for the attempt. */
  ghost predicate IsLast(workers: map<int, WorkerRow>, attempt: int, w: int) {
    w in workers && workers[w].attempt == attempt && forall v | v in workers && v > w :: workers[v].attempt != attempt
  }

  ghost predicate Alive(workers: map<int, WorkerRow>, attempt: int, live: set<int>) {
    exists w :: IsLast(workers, attempt, w) && workers[w].pid > 0 && workers[w].pid in live
  }

  /** The run an attempt belongs to; 0, which is no run's id, when its task is missing. */
  function RunOf(tasks: map<int, TaskRow>, row: AttemptRow): int {
    if row.task in tasks then tasks[row.task].run else 0
  }

  /** In flight, with no checkpoint and no live process. */
  ghost predicate Doomed(t: Tables, a: int, live: set<int>) {
    a in t.attempts && Active(t.attempts[a]) && t.attempts[a].checkpoint == "" && !Alive(t.workers, a, live)
  }

  ghost function AllDoomed(t: Tables, live: set<int>): set<int> {
    set a | a in t.attempts && Doomed(t, a, live)
  }

  ghost predicate RunHit(t: Tables, gone: set<int>, r: int) {
    exists a :: a in gone && a in t.attempts && RunOf(t.tasks, t.attempts[a]) == r
  }

  ghost predicate TaskHit(t: Tables, gone: set<int>, k: int) {
    exists a :: a in gone && a in t.attempts && t.attempts[a].task == k
  }

  ghost predicate WorkerHit(t: Tables, gone: set<int>, w: int) {
    exists a :: a in gone && IsLast(t.workers, a, w)
  }

  /** The attempts in `gone`, their last workers, their tasks and their runs become interrupted;
      no other row changes. */
  ghost function Struck(t: Tables, gone: set<int>): Tables {
    Tables(
      map r | r in t.runs :: if RunHit(t, gone, r) then Interrupted else t.runs[r],
      map k | k in t.tasks :: if TaskHit(t, gone, k) then t.tasks[k].(status := Interrupted) else t.tasks[k],
      map a | a in t.attempts :: if a in gone then t.attempts[a].(status := Interrupted) else t.attempts[a],
      map w | w in t.workers :: if WorkerHit(t, gone, w) then t.workers[w].(status := Interrupted) else t.workers[w])
  }

  ghost function Reconciled(t: Tables, live: set<int>): Tables {
    Struck(t, AllDoomed(t, live))
  }

  // ----- the code

  method GetWorkerByAttempt(s: Store, attempt: int) returns (w: nat)
    requires s.Valid()
    ensures if w > 0 then IsLast(s.workers, attempt, w) else forall v :: !IsLast(s.workers, attempt, v)
  {
    w := LastWorker(s.workers, s.nextWorker, attempt);
    assert forall v | v in s.workers :: 0 < v < s.nextWorker;
  }

  /** syscall.Kill(pid, 0) succeeds for the live pids; it is asked only about attempts without a
      checkpoint. */
  method WorkerLives(s: Store, attempt: int, live: set<int>) returns (alive: bool)
    requires s.Valid()
    ensures alive <==> Alive(s.workers, attempt, live)
    ensures alive <==>
      exists w ::
        && w in s.workers && s.workers[w].attempt == attempt && s.workers[w].pid > 0 && s.workers[w].pid in live
        && forall v | v in s.workers && v > w :: s.workers[v].attempt != attempt
  {
    var w := GetWorkerByAttempt(s, attempt);
    alive := w > 0 && s.workers[w].pid > 0 && s.workers[w].pid in live;
    if w > 0 {
      assert forall v :: IsLast(s.workers, attempt, v) ==> v == w;
    }
    AliveMeans(s.workers, attempt, live);
  }

  lemma AliveMeans(workers: map<int, WorkerRow>, attempt: int, live: set<int>)
    ensures Alive(workers, attempt, live) <==>
      exists w :: w in workers && workers[w].attempt == attempt && workers[w].pid > 0 && workers[w].pid in live &&
        forall v | v in workers && v > w :: workers[v].attempt != attempt
  {
    if w :| w in workers && workers[w].attempt == attempt && workers[w].pid > 0 && workers[w].pid in live &&
            forall v | v in workers && v > w :: workers[v].attempt != attempt {
      assert IsLast(workers, attempt, w);
    }
  }

  /** The rows of one dead attempt: worker, attempt, run and task, in this order. */
  method Terminalize(s: Store, a: int, row: AttemptRow)
    requires s.Valid() && a in s.attempts && row.task == s.attempts[a].task
    modifies s`runs, s`tasks, s`attempts, s`workers
    ensures s.Valid() && View(s) == Struck(old(View(s)), {a})
  {
    ghost var t := View(s);
    var run := if row.task in s.tasks then s.tasks[row.task].run else 0;
    var w := GetWorkerByAttempt(s, a);
    InterruptRows(s, w, a, run, row.task);
    StruckOne(t, a, w);
  }

  method InterruptRows(s: Store, w: nat, a: int, run: int, task: int)
    requires s.Valid()
    modifies s`runs, s`tasks, s`attempts, s`workers
    ensures s.Valid() && View(s) == Tables(
      WithRun(old(s.runs), run, Interrupted), WithTask(old(s.tasks), task, Interrupted),
      WithAttempt(old(s.attempts), a, Interrupted), WithWorker(old(s.workers), w, Interrupted))
  {
    if w > 0 { s.UpdateWorkerStatus(w, Interrupted); }
    s.UpdateAttemptStatus(a, Interrupted);
    s.UpdateRunStatus(run, Interrupted);
    s.UpdateTaskStatus(task, Interrupted);
  }

  lemma StruckOne(t: Tables, a: int, w: int)
    requires a in t.attempts && 0 !in t.workers
    requires IsLast(t.workers, a, w) || (w == 0 && forall v :: !IsLast(t.workers, a, v))
    ensures Struck(t, {a}) == Tables(
      WithRun(t.runs, RunOf(t.tasks, t.attempts[a]), Interrupted), WithTask(t.tasks, t.attempts[a].task, Interrupted),
      WithAttempt(t.attempts, a, Interrupted), WithWorker(t.workers, w, Interrupted))
  {
    var gone := {a};
    assert a in gone;
    forall r | r in t.runs ensures RunHit(t, gone, r) <==> r == RunOf(t.tasks, t.attempts[a]) {}
    forall k | k in t.tasks ensures TaskHit(t, gone, k) <==> k == t.attempts[a].task {}
    forall v | v in t.workers ensures WorkerHit(t, gone, v) <==> v == w {}
  }

  /** One turn of the loop; `row` is the attempt as the query returned it. */
  method Visit(s: Store, ghost t: Tables, ghost gone: set<int>, a: int, row: AttemptRow, live: set<int>)
    returns (hit: bool)
    requires s.Valid() && View(s) == Struck(t, gone) && a in t.attempts && row == t.attempts[a] && Active(row)
    modifies s`runs, s`tasks, s`attempts, s`workers
    ensures s.Valid() && (hit <==> Doomed(t, a, live)) && View(s) == Struck(t, if hit then gone + {a} else gone)
  {
    LastStays(t, gone, a);
    hit := false;
    if row.checkpoint == "" {
      var alive := WorkerLives(s, a, live);
      hit := !alive;
    }
    if hit {
      Terminalize(s, a, row);
      StruckAgain(t, gone, {a});
    }
  }

  /** One pass over the active attempts.  The result does not depend on the order in which the
      query returns them. */
  method Reconcile(s: Store, live: set<int>) returns (orphanRuns: nat, interrupted: nat)
    requires s.Valid()
    modifies s`runs, s`tasks, s`attempts, s`workers
    ensures s.Valid() && View(s) == Reconciled(old(View(s)), live)
    ensures orphanRuns ==
      |set a | a in old(s.attempts) && (old(s.attempts)[a].status == Pending || old(s.attempts)[a].status == Running)|
    // an attempt is interrupted exactly when it was pending or running, without a checkpoint and a live worker
    ensures s.attempts.Keys == old(s.attempts).Keys
    ensures forall a | a in old(s.attempts) :: var row := old(s.attempts)[a];
      s.attempts[a] ==
        if (row.status == Pending || row.status == Running) && row.checkpoint == "" && !Alive(old(s.workers), a, live)
        then row.(status := Interrupted) else row
    ensures interrupted == |set a | a in old(s.attempts) && s.attempts[a] != old(s.attempts)[a]|
    // the runs, tasks and last workers of exactly these attempts are interrupted with them
    ensures s.runs.Keys == old(s.runs).Keys && s.tasks.Keys == old(s.tasks).Keys
    ensures s.workers.Keys == old(s.workers).Keys
    ensures forall k | k in old(s.tasks) ::
      s.tasks[k] ==
        if exists a :: a in old(s.attempts) && s.attempts[a] != old(s.attempts)[a] && old(s.attempts)[a].task == k
        then old(s.tasks)[k].(status := Interrupted) else old(s.tasks)[k]
    ensures forall r | r in old(s.runs) ::
      s.runs[r] ==
        if exists a :: a in old(s.attempts) && s.attempts[a] != old(s.attempts)[a] &&
             old(s.attempts)[a].task in old(s.tasks) && old(s.tasks)[old(s.attempts)[a].task].run == r
        then Interrupted else old(s.runs)[r]
    ensures forall w | w in old(s.workers) :: var row := old(s.workers)[w];
      s.workers[w] ==
        if row.attempt in old(s.attempts) && s.attempts[row.attempt] != old(s.attempts)[row.attempt] &&
           forall v | v in old(s.workers) && v > w :: old(s.workers)[v].attempt != row.attempt
        then row.(status := Interrupted) else row
  {
    ghost var t := View(s);
    var active := set a | a in s.attempts && Active(s.attempts[a]);
    orphanRuns := |active|;
    InFlight(s.attempts);
    var rows := AnyOrder(active);
    interrupted := VisitAll(s, rows, s.attempts, live);
    InterruptsExactly(t, live);
  }

  lemma InFlight(attempts: map<int, AttemptRow>)
    ensures (set a | a in attempts && Active(attempts[a])) ==
      set a | a in attempts && (attempts[a].status == Pending || attempts[a].status == Running)
  {
  }

  /** The loop over the attempts as fetched. */
  method VisitAll(s: Store, rows: seq<int>, fetched: map<int, AttemptRow>, live: set<int>) returns (interrupted: nat)
    requires s.Valid() && fetched == s.attempts
    requires forall a :: a in rows <==> a in fetched && Active(fetched[a])
    requires forall i, j | 0 <= i < j < |rows| :: rows[i] != rows[j]
    modifies s`runs, s`tasks, s`attempts, s`workers
    ensures s.Valid() && View(s) == Reconciled(old(View(s)), live)
    ensures interrupted == |AllDoomed(old(View(s)), live)|
  {
    ghost var t := View(s);
    interrupted := 0;
    ghost var gone: set<int> := {};
    StruckNone(t);
    for i := 0 to |rows|
      invariant s.Valid() && View(s) == Struck(t, gone)
      invariant forall a :: a in gone <==> a in rows[..i] && Doomed(t, a, live)
      invariant interrupted == |gone|
    {
      assert rows[i] in rows;
      var hit := Visit(s, t, gone, rows[i], fetched[rows[i]], live);
      if hit { gone, interrupted := gone + {rows[i]}, interrupted + 1; }
    }
    assert rows[..|rows|] == rows;
    assert gone == AllDoomed(t, live) by {
      forall a ensures a in gone <==> a in AllDoomed(t, live) { assert Doomed(t, a, live) ==> a in rows; }
    }
  }

  /** What the call changes, row by row: an attempt exactly when it is given up, and with it exactly
      its task, its run and its last worker. */
  lemma InterruptsExactly(t: Tables, live: set<int>)
    requires 0 !in t.runs
    ensures var t' := Reconciled(t, live);
      && t'.attempts.Keys == t.attempts.Keys && t'.tasks.Keys == t.tasks.Keys
      && t'.runs.Keys == t.runs.Keys && t'.workers.Keys == t.workers.Keys
    ensures var t' := Reconciled(t, live);
      forall a | a in t.attempts :: var row := t.attempts[a];
        t'.attempts[a] ==
          if (row.status == Pending || row.status == Running) && row.checkpoint == "" && !Alive(t.workers, a, live)
          then row.(status := Interrupted) else row
    ensures AllDoomed(t, live) == set a | a in t.attempts && Reconciled(t, live).attempts[a] != t.attempts[a]
    ensures var t' := Reconciled(t, live);
      forall k | k in t.tasks ::
        t'.tasks[k] ==
          if exists a :: a in t.attempts && t'.attempts[a] != t.attempts[a] && t.attempts[a].task == k
          then t.tasks[k].(status := Interrupted) else t.tasks[k]
    ensures var t' := Reconciled(t, live);
      forall r | r in t.runs ::
        t'.runs[r] ==
          if exists a :: a in t.attempts && t'.attempts[a] != t.attempts[a] &&
               t.attempts[a].task in t.tasks && t.tasks[t.attempts[a].task].run == r
          then Interrupted else t.runs[r]
    ensures var t' := Reconciled(t, live);
      forall w | w in t.workers :: var row := t.workers[w];
        t'.workers[w] ==
          if row.attempt in t.attempts && t'.attempts[row.attempt] != t.attempts[row.attempt] &&
             forall v | v in t.workers && v > w :: t.workers[v].attempt != row.attempt
          then row.(status := Interrupted) else row
  {
    var t', gone := Reconciled(t, live), AllDoomed(t, live);
    forall a ensures a in gone <==> a in t.attempts && t'.attempts[a] != t.attempts[a] {}
    TasksHitExactly(t, live);
    RunsHitExactly(t, live);
    WorkersHitExactly(t, live);
  }

  lemma TasksHitExactly(t: Tables, live: set<int>)
    ensures forall k | k in t.tasks ::
      TaskHit(t, AllDoomed(t, live), k) <==>
        exists a :: a in t.attempts && Reconciled(t, live).attempts[a] != t.attempts[a] && t.attempts[a].task == k
  {
    forall a ensures a in AllDoomed(t, live) <==> a in t.attempts && Reconciled(t, live).attempts[a] != t.attempts[a] {}
  }

  lemma RunsHitExactly(t: Tables, live: set<int>)
    requires 0 !in t.runs
    ensures forall r | r in t.runs ::
      RunHit(t, AllDoomed(t, live), r) <==>
        exists a :: a in t.attempts && Reconciled(t, live).attempts[a] != t.attempts[a] &&
          t.attempts[a].task in t.tasks && t.tasks[t.attempts[a].task].run == r
  {
    forall a ensures a in AllDoomed(t, live) <==> a in t.attempts && Reconciled(t, live).attempts[a] != t.attempts[a] {}
  }

  lemma WorkersHitExactly(t: Tables, live: set<int>)
    ensures forall w | w in t.workers :: var a := t.workers[w].attempt;
      WorkerHit(t, AllDoomed(t, live), w) <==>
        a in t.attempts && Reconciled(t, live).attempts[a] != t.attempts[a] &&
        forall v | v in t.workers && v > w :: t.workers[v].attempt != a
  {
    forall a ensures a in AllDoomed(t, live) <==> a in t.attempts && Reconciled(t, live).attempts[a] != t.attempts[a] {}
    forall w | w in t.workers
      ensures var a := t.workers[w].attempt;
        WorkerHit(t, AllDoomed(t, live), w) <==> a in AllDoomed(t, live) && IsLast(t.workers, a, w)
    {
    }
  }

  // ----- its laws

  lemma StruckNone(t: Tables)
    ensures Struck(t, {}) == t
  {
  }

  /** Only status columns change, so who is an attempt's last worker, and its pid, stay. */
  lemma LastStays(t: Tables, gone: set<int>, a: int)
    ensures forall w :: IsLast(Struck(t, gone).workers, a, w) <==> IsLast(t.workers, a, w)
    ensures forall live :: Alive(Struck(t, gone).workers, a, live) <==> Alive(t.workers, a, live)
  {
    var ws := Struck(t, gone).workers;
    assert forall w | w in t.workers :: ws[w].pid == t.workers[w].pid && ws[w].attempt == t.workers[w].attempt;
    forall w ensures IsLast(ws, a, w) <==> IsLast(t.workers, a, w) {}
  }

  lemma StruckAgain(t: Tables, gone: set<int>, more: set<int>)
    ensures Struck(Struck(t, gone), more) == Struck(t, gone + more)
  {
    var u := Struck(t, gone);
    forall r | r in t.runs ensures RunHit(u, more, r) || RunHit(t, gone, r) <==> RunHit(t, gone + more, r) {
      RunsHit(t, gone, more, r);
    }
    forall k | k in t.tasks ensures TaskHit(u, more, k) || TaskHit(t, gone, k) <==> TaskHit(t, gone + more, k) {
      TasksHit(t, gone, more, k);
    }
    forall w | w in t.workers ensures WorkerHit(u, more, w) || WorkerHit(t, gone, w) <==> WorkerHit(t, gone + more, w) {
      WorkersHit(t, gone, more, w);
    }
    assert Struck(u, more) == Struck(t, gone + more);
  }

  lemma RunsHit(t: Tables, gone: set<int>, more: set<int>, r: int)
    ensures RunHit(Struck(t, gone), more, r) || RunHit(t, gone, r) <==> RunHit(t, gone + more, r)
  {
    var u := Struck(t, gone);
    forall a | a in t.attempts ensures RunOf(u.tasks, u.attempts[a]) == RunOf(t.tasks, t.attempts[a]) {}
    if RunHit(u, more, r) {
      var a :| a in more && a in u.attempts && RunOf(u.tasks, u.attempts[a]) == r;
      assert a in gone + more;
    }
    if RunHit(t, gone, r) {
      var a :| a in gone && a in t.attempts && RunOf(t.tasks, t.attempts[a]) == r;
      assert a in gone + more;
    }
    if RunHit(t, gone + more, r) {
      var a :| a in gone + more && a in t.attempts && RunOf(t.tasks, t.attempts[a]) == r;
      assert a in gone || a in more;
    }
  }

  lemma TasksHit(t: Tables, gone: set<int>, more: set<int>, k: int)
    ensures TaskHit(Struck(t, gone), more, k) || TaskHit(t, gone, k) <==> TaskHit(t, gone + more, k)
  {
    var u := Struck(t, gone);
    assert forall a | a in t.attempts :: u.attempts[a].task == t.attempts[a].task;
    if TaskHit(t, gone + more, k) {
      var a :| a in gone + more && a in t.attempts && t.attempts[a].task == k;
      assert a in gone || a in more;
    }
  }

  lemma WorkersHit(t: Tables, gone: set<int>, more: set<int>, w: int)
    ensures WorkerHit(Struck(t, gone), more, w) || WorkerHit(t, gone, w) <==> WorkerHit(t, gone + more, w)
  {
    var u := Struck(t, gone);
    forall a ensures IsLast(u.workers, a, w) <==> IsLast(t.workers, a, w) { LastStays(t, gone, a); }
    if WorkerHit(t, gone + more, w) {
      var a :| a in gone + more && IsLast(t.workers, a, w);
      assert a in gone || a in more;
    }
  }

  /** Two calls, with processes dying or appearing in between, leave exactly what one call would
      that counts a process alive only if both calls found it alive. */
  lemma ReconcileCompose(t: Tables, live: set<int>, live': set<int>)
    ensures Reconciled(Reconciled(t, live), live') == Reconciled(t, live * live')
  {
    var gone := AllDoomed(t, live);
    var u := Struck(t, gone);
    var more := AllDoomed(u, live');
    forall a ensures a in gone + more <==> a in AllDoomed(t, live * live') {
      LastStays(t, gone, a);
      BothAlive(t.workers, a, live, live');
    }
    assert gone + more == AllDoomed(t, live * live');
    StruckAgain(t, gone, more);
  }

  lemma BothAlive(workers: map<int, WorkerRow>, a: int, live: set<int>, live': set<int>)
    ensures Alive(workers, a, live * live') <==> Alive(workers, a, live) && Alive(workers, a, live')
  {
    if Alive(workers, a, live) && Alive(workers, a, live') {
      var w :| IsLast(workers, a, w) && workers[w].pid > 0 && workers[w].pid in live;
      var w' :| IsLast(workers, a, w') && workers[w'].pid > 0 && workers[w'].pid in live';
      assert w == w';
    }
  }

  /** Idempotence: with the same processes alive, a second call finds nothing to interrupt and
      changes no row. */
  lemma ReconcileIdempotent(t: Tables, live: set<int>)
    ensures AllDoomed(Reconciled(t, live), live) == {}
    ensures Reconciled(Reconciled(t, live), live) == Reconciled(t, live)
  {
    var u := Reconciled(t, live);
    forall a ensures !Doomed(u, a, live) { LastStays(t, AllDoomed(t, live), a); }
    assert AllDoomed(u, live) == {};
    StruckNone(u);
  }

  /** After a call the attempts still in flight are exactly those that were, and have a checkpoint
      or a live worker; every other attempt in flight is interrupted, and no settled one moves. */
  lemma Survivors(t: Tables, live: set<int>, a: int)
    requires a in t.attempts
    ensures var before, after := t.attempts[a], Reconciled(t, live).attempts[a];
      && (after.status == Pending || after.status == Running <==>
            (before.status == Pending || before.status == Running) &&
            (before.checkpoint != "" || Alive(t.workers, a, live)))
      && (Active(after) ==>
           after == before && (Alive(t.workers, a, live) <==> Alive(Reconciled(t, live).workers, a, live)))
      && (Active(before) && !Active(after) ==> after == before.(status := Interrupted))
      && (!Active(before) ==> after == before)
  {
    LastStays(t, AllDoomed(t, live), a);
  }

  /** A run changes exactly when one of its attempts is interrupted, whatever its own status and
      whatever its other attempts: a settled run stays settled only without a doomed attempt. */
  lemma RunChanges(t: Tables, live: set<int>, r: int)
    requires r in t.runs && t.runs[r] != Interrupted
    ensures Reconciled(t, live).runs[r] != t.runs[r] <==>
      exists a :: Doomed(t, a, live) && RunOf(t.tasks, t.attempts[a]) == r
    ensures Reconciled(t, live).runs[r] != t.runs[r] ==> Reconciled(t, live).runs[r] == Interrupted
  {
    var gone := AllDoomed(t, live);
    if a :| Doomed(t, a, live) && RunOf(t.tasks, t.attempts[a]) == r {
      assert a in gone;
    }
  }

  /** The same for a task: it changes exactly when one of its attempts is interrupted. */
  lemma TaskChanges(t: Tables, live: set<int>, k: int)
    requires k in t.tasks && t.tasks[k].status != Interrupted
    ensures Reconciled(t, live).tasks[k] != t.tasks[k] <==> exists a :: Doomed(t, a, live) && t.attempts[a].task == k
    ensures Reconciled(t, live).tasks[k] != t.tasks[k] ==>
      Reconciled(t, live).tasks[k] == t.tasks[k].(status := Interrupted)
  {
    var gone := AllDoomed(t, live);
    if a :| Doomed(t, a, live) && t.attempts[a].task == k {
      assert a in gone;
    }
  }

  /** An attempt row for which no worker was ever recorded dooms its run and task, whatever their
      status and whichever processes live. */
  lemma WorkerlessIsInterrupted(t: Tables, live: set<int>, a: int)
    requires a in t.attempts && (t.attempts[a].status == Pending || t.attempts[a].status == Running)
    requires t.attempts[a].checkpoint == ""
    requires forall w | w in t.workers :: t.workers[w].attempt != a
    requires t.attempts[a].task in t.tasks && RunOf(t.tasks, t.attempts[a]) in t.runs
    ensures Reconciled(t, live).runs[RunOf(t.tasks, t.attempts[a])] == Interrupted
    ensures Reconciled(t, live).tasks[t.attempts[a].task].status == Interrupted
  {
    assert Doomed(t, a, live);
    assert a in AllDoomed(t, live);
  }
}
