/** A run that ends because an attempt's start failed late, and the daemon's next start. */
module LateStart {
  import opened Options
  import opened TaskStore
  import RunTables
  import RunLoop
  import Reconcile

  /** The run is failed.  It left an attempt row without a worker; unless another process wrote to
      that row, reconciliation takes it for a crash and interrupts the failed run and its failed task,
      whichever processes live. */
  lemma FailedRunIsInterrupted(c: RunLoop.RunContext, err: Option<RunLoop.RunError>, isFresh: bool, live: set<int>)
    returns (a: int)
    requires c.Outcome(err, isFresh) && c.LateStart(err)
    requires c.store.tasks[c.taskID].run == c.runID
    ensures RunTables.StatusMay(c.env.company, Failed, c.store.runs[c.runID])
    ensures RunTables.Workerless(
      c.env.company, c.store.attempts, c.store.workers, c.tracked, c.taskID, |c.observed| + 1, a)
    ensures c.store.attempts[a].status == Pending ==>
      var after := Reconcile.Reconciled(Reconcile.View(c.store), live);
      after.runs[c.runID] == after.tasks[c.taskID].status == Interrupted
    ensures c.store.attempts[a].status != Pending ==> !Reconcile.Doomed(Reconcile.View(c.store), a, live)
  {
    a :| RunTables.Workerless(
      c.env.company, c.store.attempts, c.store.workers, c.tracked, c.taskID, |c.observed| + 1, a);
    if c.store.attempts[a].status == Pending {
      Reconcile.WorkerlessIsInterrupted(Reconcile.View(c.store), live, a);
    }
  }
}
