/** What an adoption says about the past of its run: what its adopter had read, when two adoptions
    are written, when a reject or a late cancel is overwritten, and how an attempt that exited with
    another code than 0 can come to be adopted. */
module AdoptionHistory {
  import opened TaskStore
  import opened AdoptionMachine

  // ----- what an adopter knows, it has read

  /** Step j is the last before k with which p read the attempts. */
  ghost predicate LastRead(r: Run, p: nat, j: nat, k: nat)
    requires k <= |r.acts|
  {
    && j < k && r.acts[j].AdoptRead? && r.acts[j].p == p
    && forall m | j < m < k :: !(r.acts[m].AdoptRead? && r.acts[m].p == p)
  }

  /** Step j is the last before k with which p read the adopted column. */
  ghost predicate LastRecord(r: Run, p: nat, j: nat, k: nat)
    requires k <= |r.acts|
  {
    j < k && r.acts[j] == AdoptReadRecord(p) && forall m | j < m < k :: r.acts[m] != AdoptReadRecord(p)
  }

  /** Completed, checkpointed and not superseded. */
  ghost predicate GoodRow(rows: seq<Att>, i: nat) {
    i < |rows| && rows[i].status == Completed && rows[i].checkpoint != "" && !Superseded(rows, i)
  }

  ghost predicate FromRows(rows: seq<Att>, pc: AdoptPc) {
    match pc
    case Idle => false
    case HasAttempts(read, _) => read == rows
    case HasRecord(read, _, _) => read == rows
    case Checked(i) => GoodRow(rows, i)
    case Marking(i, _) => GoodRow(rows, i)
  }

  ghost predicate FromRecord(adopted: nat, pc: AdoptPc) {
    match pc
    case HasRecord(_, _, x) => x == adopted
    case Checked(_) | Marking(_, _) => adopted == 0
    case _ => false
  }

  lemma FromRowsKept(s: Life, a: Act, p: nat, rows: seq<Att>)
    requires Enabled(s, a) && FromRows(rows, Adopter(s, p)) && !Adopter(Apply(s, a), p).Idle?
    ensures FromRows(rows, Adopter(Apply(s, a), p)) && !(a.AdoptRead? && a.p == p)
  {
    AdopterMoves(s, a, p);
  }

  lemma FromRecordKept(s: Life, a: Act, p: nat, adopted: nat)
    requires Enabled(s, a) && FromRecord(adopted, Adopter(s, p)) && !Adopter(Apply(s, a), p).Idle?
    ensures FromRecord(adopted, Adopter(Apply(s, a), p)) && a != AdoptReadRecord(p)
  {
    AdopterMoves(s, a, p);
  }

  lemma {:induction false} RowsOrigin(r: Run, k: nat, p: nat) returns (j: nat)
    requires Execution(r) && k < |r.states| && !Adopter(r.states[k], p).Idle?
    ensures LastRead(r, p, j, k) && FromRows(r.states[j].attempts, Adopter(r.states[k], p))
  {
    var s, a := r.states[k - 1], r.acts[k - 1];
    assert StepOk(r, k - 1);
    if Adopter(s, p).Idle? {
      AdopterMoves(s, a, p);
      j := k - 1;
    } else {
      j := RowsOrigin(r, k - 1, p);
      FromRowsKept(s, a, p, r.states[j].attempts);
    }
  }

  ghost predicate PastRecord(pc: AdoptPc) {
    pc.HasRecord? || pc.Checked? || pc.Marking?
  }

  lemma {:induction false} RecordOrigin(r: Run, k: nat, p: nat) returns (j: nat)
    requires Execution(r) && k < |r.states| && PastRecord(Adopter(r.states[k], p))
    ensures LastRecord(r, p, j, k) && FromRecord(r.states[j].adopted, Adopter(r.states[k], p))
  {
    var s, a := r.states[k - 1], r.acts[k - 1];
    assert StepOk(r, k - 1);
    if PastRecord(Adopter(s, p)) {
      j := RecordOrigin(r, k - 1, p);
      FromRecordKept(s, a, p, r.states[j].adopted);
    } else {
      AdopterMoves(s, a, p);
      j := k - 1;
    }
  }

  /** Whenever an adoption is written, its adopter had read rows in which the attempt was completed,
      checkpointed and not superseded, and at the write no later attempt is completed either. */
  lemma WrittenFromGoodRows(r: Run, k: nat, p: nat) returns (j: nat)
    requires Execution(r) && k < |r.acts| && r.acts[k] == AdoptWrite(p)
    ensures LastRead(r, p, j, k) && Adopter(r.states[k], p).Checked?
    ensures var i, s := Adopter(r.states[k], p).i, r.states[k];
      GoodRow(r.states[j].attempts, i) && i < |s.attempts| && s.candidate == i + 1 && !Superseded(s.attempts, i)
  {
    assert StepOk(r, k);
    j := RowsOrigin(r, k, p);
    InvAt(r, k);
    var s := r.states[k];
    var i := Adopter(s, p).i;
    assert PcOk(s, s.adopters[p]);
    forall x | 0 <= x < |s.attempts| ensures s.attempts[x].number <= s.attempts[i].number {
      assert RowOk(s.attempts[x], x) && RowOk(s.attempts[i], i);
    }
  }

  // ----- when more than one adoption is written

  lemma WriteCounts(s: Life, a: Act)
    requires Enabled(s, a)
    ensures |Apply(s, a).writes| == if a.AdoptWrite? then |s.writes| + 1 else |s.writes|
  {
  }

  lemma {:induction false} WritesGrow(r: Run, j: nat, k: nat)
    requires Execution(r) && j <= k < |r.states|
    ensures |r.states[j].writes| <= |r.states[k].writes|
    decreases k
  {
    if j < k {
      WritesGrow(r, j, k - 1);
      assert StepOk(r, k - 1);
      WriteCounts(r.states[k - 1], r.acts[k - 1]);
    }
  }

  lemma {:induction false} LastWrite(r: Run, k: nat) returns (y: nat)
    requires Execution(r) && k < |r.states| && |r.states[k].writes| > 0
    ensures y < k && r.acts[y].AdoptWrite? && |r.states[y].writes| == |r.states[k].writes| - 1
  {
    assert StepOk(r, k - 1);
    WriteCounts(r.states[k - 1], r.acts[k - 1]);
    if r.acts[k - 1].AdoptWrite? { y := k - 1; } else { y := LastWrite(r, k - 1); }
  }

  /** Write x falls between an adopter's look at the adopted column, step i, and its own write, y. */
  ghost predicate Overlap(r: Run, i: nat, x: nat, y: nat) {
    && i < x < y < |r.acts| && r.acts[x].AdoptWrite? && r.acts[y].AdoptWrite?
    && LastRecord(r, r.acts[y].p, i, y)
  }

  /** At most one adoption is written exactly as long as no write falls between an adopter's look
      at the adopted column and its own write. */
  lemma AdoptedOnceExactly(r: Run, k: nat)
    requires Execution(r) && k < |r.states|
    ensures |r.states[k].writes| <= 1 <==> forall i: nat, x: nat, y: nat | y < k :: !Overlap(r, i, x, y)
  {
    if i: nat, x: nat, y: nat :| y < k && Overlap(r, i, x, y) {
      assert StepOk(r, x) && StepOk(r, y);
      WriteCounts(r.states[x], r.acts[x]);
      WriteCounts(r.states[y], r.acts[y]);
      WritesGrow(r, x + 1, y);
      WritesGrow(r, y + 1, k);
    }
    if |r.states[k].writes| > 1 {
      var y := LastWrite(r, k);
      var x := LastWrite(r, y);
      var i := LookBetween(r, x, y);
      assert Overlap(r, i, x, y);
    }
  }

  lemma LookBetween(r: Run, x: nat, y: nat) returns (i: nat)
    requires Execution(r) && x < y < |r.acts| && r.acts[x].AdoptWrite? && r.acts[y].AdoptWrite?
    ensures i < x && LastRecord(r, r.acts[y].p, i, y)
  {
    assert StepOk(r, x) && StepOk(r, y);
    i := RecordOrigin(r, y, r.acts[y].p);
    WriteCounts(r.states[x], r.acts[x]);
    InvAt(r, x + 1);
    if x < i { AdoptedForever(r, x + 1, i); }
  }

  /** Adopt commands one at a time never overlap. */
  lemma AdoptedOnce(r: Run, k: nat)
    requires Execution(r) && Sequential(r) && k < |r.states|
    ensures |r.states[k].writes| <= 1
  {
    OneAtATimeAt(r, k);
  }

  // ----- when a reject or a late cancel is overwritten

  /** A reject, a failed adopter, or another run or recovery that had listed the row as active. */
  ghost predicate RowFails(s: Life, a: Act, i: nat) {
    || (a.RejectWrite? && Rejecter(s, a.p) == Rejecting(i))
    || (a.AdoptMark? && Adopter(s, a.p) == Marking(i, Failed))
    || (a.RecoverWrite? && Recoverer(s, a.q) == Recovering(i))
  }

  /** The closing of a completed run writes completed over the row. */
  ghost predicate Raises(s: Life, a: Act, i: nat) {
    a == CloseWrite && s.closing.CloseDue? && s.closing.x == Completed && Turn(s.attempts, s.closing.next) == i
  }

  ghost predicate RowCompletes(s: Life, a: Act, i: nat) {
    (a.AdoptMark? && Adopter(s, a.p) == Marking(i, Completed)) || Raises(s, a, i)
  }

  /** A statement that ends a run, or closes the rows of one that ended, without a candidate. */
  ghost predicate EndsWithout(s: Life, a: Act) {
    a == RunCandidateError || (a == CloseWrite && s.closing.CloseDue? && s.closing.x != Completed)
  }

  ghost predicate Seen(rows: seq<Att>, i: nat) {
    i < |rows| && rows[i].seen
  }

  /** Once observed, an attempt is completed exactly when it was and the step does not fail it, or
      the step completes it. */
  lemma StatusWrites(s: Life, a: Act, i: nat)
    requires Inv(s) && Enabled(s, a) && !EndsWithout(s, a) && Seen(s.attempts, i)
    ensures Seen(Apply(s, a).attempts, i)
    ensures Apply(s, a).attempts[i].status == Completed <==>
      RowCompletes(s, a, i) || (s.attempts[i].status == Completed && !RowFails(s, a, i))
  {
    match a
    case CloseWrite => StatusClosed(s, i);
    case AdoptMark(p) => StatusMarked(s, p, i);
    case RejectWrite(_) => StatusTaken(s, a, i);
    case RecoverWrite(_, _) => StatusTaken(s, a, i);
    case _ => RowUntouched(s, a, i);
  }

  lemma StatusTaken(s: Life, a: Act, i: nat)
    requires Enabled(s, a) && (a.RejectWrite? || a.RecoverWrite?) && Seen(s.attempts, i)
    ensures Seen(Apply(s, a).attempts, i)
    ensures if RowFails(s, a, i) then Apply(s, a).attempts[i].status != Completed
            else Apply(s, a).attempts[i].status == s.attempts[i].status
  {
  }

  predicate SetsStatus(a: Act) {
    a.CloseWrite? || a.AdoptMark? || a.RejectWrite? || a.RecoverWrite? || a.RunCandidateError?
  }

  lemma RowUntouched(s: Life, a: Act, i: nat)
    requires Enabled(s, a) && !SetsStatus(a) && Seen(s.attempts, i)
    ensures Seen(Apply(s, a).attempts, i) && Apply(s, a).attempts[i] == s.attempts[i]
    ensures !RowFails(s, a, i) && !RowCompletes(s, a, i)
  {
  }

  lemma StatusClosed(s: Life, i: nat)
    requires Enabled(s, CloseWrite) && s.closing.x == Completed && Seen(s.attempts, i)
    ensures Seen(Apply(s, CloseWrite).attempts, i)
    ensures Apply(s, CloseWrite).attempts[i].status ==
      if Raises(s, CloseWrite, i) then Completed else s.attempts[i].status
  {
  }

  lemma StatusMarked(s: Life, p: nat, i: nat)
    requires Inv(s) && Enabled(s, AdoptMark(p)) && Seen(s.attempts, i)
    ensures Seen(Apply(s, AdoptMark(p)).attempts, i)
    ensures Apply(s, AdoptMark(p)).attempts[i].status ==
      if RowCompletes(s, AdoptMark(p), i) then Completed
      else if RowFails(s, AdoptMark(p), i) then Failed
      else s.attempts[i].status
  {
    assert PcOk(s, s.adopters[p]);
  }

  lemma EndsForGood(s: Life, a: Act)
    requires Inv(s) && Enabled(s, a)
    ensures EndsWithout(s, a) || (!s.open && s.candidate == 0) ==> !Apply(s, a).open && Apply(s, a).candidate == 0
  {
  }

  lemma {:induction false} NoCandidate(r: Run, m: nat, k: nat)
    requires Execution(r) && m < k < |r.states| && EndsWithout(r.states[m], r.acts[m])
    ensures r.states[k].candidate == 0 && !r.states[k].open
    decreases k
  {
    assert StepOk(r, k - 1);
    InvAt(r, k - 1);
    EndsForGood(r.states[k - 1], r.acts[k - 1]);
    if m < k - 1 { NoCandidate(r, m, k - 1); }
  }

  /** Step m is a status write that failed row i, and none before k completed it again. */
  ghost predicate FailedSince(r: Run, i: nat, m: nat, k: nat) {
    && m < k <= |r.acts| && k < |r.states| && RowFails(r.states[m], r.acts[m], i)
    && forall x | m < x < k :: !RowCompletes(r.states[x], r.acts[x], i)
  }

  /** The last status write to row i between j and k failed it. */
  ghost predicate Lost(r: Run, i: nat, j: nat, k: nat) {
    exists m: nat :: j < m && FailedSince(r, i, m, k)
  }

  lemma {:induction false} StatusSince(r: Run, i: nat, j: nat, k: nat)
    requires Execution(r) && j < k < |r.states| && Seen(r.states[j].attempts, i)
    requires r.states[j].attempts[i].status == Completed && r.acts[j].AdoptRead?
    requires forall m | j < m < k :: !EndsWithout(r.states[m], r.acts[m])
    ensures Seen(r.states[k].attempts, i)
    ensures r.states[k].attempts[i].status != Completed <==> Lost(r, i, j, k)
  {
    assert StepOk(r, k - 1);
    if j < k - 1 {
      StatusSince(r, i, j, k - 1);
      InvAt(r, k - 1);
      StatusWrites(r.states[k - 1], r.acts[k - 1], i);
      SinceStep(r, i, j, k - 1, k);
    }
  }

  lemma SinceStep(r: Run, i: nat, j: nat, k: nat, k': nat)
    requires Execution(r) && j < k < |r.acts| && k' == k + 1
    ensures Lost(r, i, j, k') <==>
      RowFails(r.states[k], r.acts[k], i) || (Lost(r, i, j, k) && !RowCompletes(r.states[k], r.acts[k], i))
  {
    forall m: nat | m < k
      ensures FailedSince(r, i, m, k') <==> FailedSince(r, i, m, k) && !RowCompletes(r.states[k], r.acts[k], i) {}
    assert FailedSince(r, i, k, k') <==> RowFails(r.states[k], r.acts[k], i);
    if Lost(r, i, j, k) {
      var m: nat :| j < m && FailedSince(r, i, m, k);
      assert m < k && (FailedSince(r, i, m, k') <==> !RowCompletes(r.states[k], r.acts[k], i));
    }
  }

  /** The adopted attempt is not completed when its adoption is written exactly when, since its
      adopter read the rows, the last write to its status was a reject's, a failed adopter's, or that
      of another run or recovery that had listed it as active: that write is lost, for the adopter
      goes on to mark the attempt completed. */
  lemma RejectLostExactly(r: Run, k: nat, p: nat) returns (j: nat)
    requires Execution(r) && k < |r.acts| && r.acts[k] == AdoptWrite(p)
    ensures LastRead(r, p, j, k) && Adopter(r.states[k], p).Checked? &&
      Adopter(r.states[k], p).i < |r.states[k].attempts|
    ensures var i := Adopter(r.states[k], p).i;
      r.states[k].attempts[i].status != Completed <==> Lost(r, i, j, k)
  {
    assert StepOk(r, k);
    j := WrittenFromGoodRows(r, k, p);
    var i := Adopter(r.states[k], p).i;
    InvAt(r, j);
    assert RowOk(r.states[j].attempts[i], i);
    forall m: nat | j < m < k ensures !EndsWithout(r.states[m], r.acts[m]) {
      if EndsWithout(r.states[m], r.acts[m]) { NoCandidate(r, m, k); }
    }
    StatusSince(r, i, j, k);
  }

  /** Another run lists the attempt while it is in flight and cancels it after the adopter's checks:
      the adoption of the cancelled attempt is written. */
  lemma CancelIsLost(s: Life) returns (completed: Life, checked: Life, cancelled: Life, written: Life)
    requires Init(s) && s.hasRecord
    ensures Leads(s, [RunAttempt, RecoverRead(7, 0), RunObserve(true, 0, "c"), RunComplete], completed)
    ensures Leads(completed, [AdoptRead(0, 0), AdoptReadRecord(0), AdoptCheck(0)], checked)
    ensures Leads(checked, [RecoverWrite(7, Cancelled)], cancelled)
    ensures cancelled.attempts == [FINISHED.(status := Cancelled)]
    ensures Leads(cancelled, [AdoptWrite(0)], written)
    ensures written.adopted == 1 && written.attempts == cancelled.attempts
  {
    completed := ListedRun(s, 7, 0);
    checked := AdopterChecks(completed, 0);
    cancelled := Apply(checked, RecoverWrite(7, Cancelled));
    LeadsOne(checked, RecoverWrite(7, Cancelled));
    written := AdopterWrites(cancelled, 0);
  }

  /** A run of one attempt that q has listed, up to its candidate. */
  lemma ListedRun(s: Life, q: nat, exitCode: int) returns (t: Life)
    requires Init(s) && s.hasRecord
    ensures Leads(s, [RunAttempt, RecoverRead(q, 0), RunObserve(true, exitCode, "c"), RunComplete], t)
    ensures t == Life([Att(1, if exitCode == 0 then Completed else Failed, "c", true, true, exitCode, false)], false,
                      true, 1, 0, Closing(Completed, 0), map[], map[], map[q := Recovering(0)], [])
  {
    var s1 := Apply(s, RunAttempt);
    var s2 := Apply(s1, RecoverRead(q, 0));
    var s3 := Apply(s2, RunObserve(true, exitCode, "c"));
    assert s3.attempts == [Att(1, if exitCode == 0 then Completed else Failed, "c", true, true, exitCode, false)];
    t := Apply(s3, RunComplete);
    LeadsThree(s1, RecoverRead(q, 0), RunObserve(true, exitCode, "c"), RunComplete);
    assert [RunAttempt, RecoverRead(q, 0), RunObserve(true, exitCode, "c"), RunComplete][1..] ==
           [RecoverRead(q, 0), RunObserve(true, exitCode, "c"), RunComplete];
  }

  // ----- how a failed attempt is raised

  lemma RaisedStep(s: Life, a: Act, i: nat)
    requires Enabled(s, a) && i < |s.attempts| && |Apply(s, a).attempts| >= |s.attempts|
    ensures Apply(s, a).attempts[i].raised <==> s.attempts[i].raised || Raises(s, a, i)
  {
  }

  /** An attempt is raised exactly when the closing of its completed run wrote over it. */
  lemma {:induction false} RaisedExactly(r: Run, k: nat, i: nat)
    requires Execution(r) && k < |r.states| && i < |r.states[k].attempts|
    ensures r.states[k].attempts[i].raised <==> exists m: nat :: m < k && Raises(r.states[m], r.acts[m], i)
  {
    if k > 0 {
      var s, a := r.states[k - 1], r.acts[k - 1];
      assert StepOk(r, k - 1);
      InvAt(r, k - 1);
      RowsStep(s, a);
      if i < |s.attempts| {
        RaisedExactly(r, k - 1, i);
        RaisedStep(s, a, i);
        assert Raises(s, a, i) <==> Raises(r.states[k - 1], r.acts[k - 1], i);
      } else {
        NotRaisedBefore(r, k, i);
      }
    }
  }

  lemma NotRaisedBefore(r: Run, k: nat, i: nat)
    requires Execution(r) && 0 < k < |r.states| && i >= |r.states[k - 1].attempts|
    ensures forall m: nat | m < k :: !Raises(r.states[m], r.acts[m], i)
    ensures i < |r.states[k].attempts| ==> !r.states[k].attempts[i].raised
  {
    assert StepOk(r, k - 1);
    forall m: nat | m < k ensures !Raises(r.states[m], r.acts[m], i) { RowsGrow(r, m, k - 1); }
  }

  lemma {:induction false} RowsGrow(r: Run, j: nat, k: nat)
    requires Execution(r) && j <= k < |r.states|
    ensures |r.states[j].attempts| <= |r.states[k].attempts|
    decreases k
  {
    if j < k {
      RowsGrow(r, j, k - 1);
      assert StepOk(r, k - 1);
      InvAt(r, k - 1);
      RowsStep(r.states[k - 1], r.acts[k - 1]);
    }
  }

  /** A recovery that had listed row i writes a status to it, after it was observed, that is not
      terminal. */
  ghost predicate Interrupts(s: Life, a: Act, i: nat) {
    a.RecoverWrite? && Recoverer(s, a.q) == Recovering(i) && !Terminal(a.x) && Seen(s.attempts, i)
  }

  lemma InterruptedStep(s: Life, a: Act, i: nat)
    requires Inv(s) && Enabled(s, a) && Seen(Apply(s, a).attempts, i) && !Terminal(Apply(s, a).attempts[i].status)
    ensures Interrupts(s, a, i) || (Seen(s.attempts, i) && !Terminal(s.attempts[i].status))
  {
    match a
    case CloseWrite => ClosedIsTerminal(s, i);
    case RunObserve(passed, exitCode, checkpoint) => ObservedIsTerminal(s, passed, exitCode, checkpoint, i);
    case AdoptMark(p) => assert PcOk(s, s.adopters[p]);
    case _ =>
  }

  lemma ClosedIsTerminal(s: Life, i: nat)
    requires Inv(s) && Enabled(s, CloseWrite) && Seen(Apply(s, CloseWrite).attempts, i)
    ensures Terminal(Apply(s, CloseWrite).attempts[i].status) ||
      (Seen(s.attempts, i) && Apply(s, CloseWrite).attempts[i].status == s.attempts[i].status)
  {
  }

  lemma ObservedIsTerminal(s: Life, passed: bool, exitCode: int, checkpoint: string, i: nat)
    requires Enabled(s, RunObserve(passed, exitCode, checkpoint))
    requires Seen(Apply(s, RunObserve(passed, exitCode, checkpoint)).attempts, i)
    ensures var row := Apply(s, RunObserve(passed, exitCode, checkpoint)).attempts[i];
      Terminal(row.status) || (Seen(s.attempts, i) && row.status == s.attempts[i].status)
  {
  }

  /** An observed attempt is not terminal only because a recovery interrupted it late. */
  lemma {:induction false} InterruptedLate(r: Run, k: nat, i: nat) returns (m: nat)
    requires Execution(r) && k < |r.states| && Seen(r.states[k].attempts, i)
    requires !Terminal(r.states[k].attempts[i].status)
    ensures m < k && Interrupts(r.states[m], r.acts[m], i)
  {
    assert StepOk(r, k - 1);
    InvAt(r, k - 1);
    InterruptedStep(r.states[k - 1], r.acts[k - 1], i);
    if Interrupts(r.states[k - 1], r.acts[k - 1], i) { m := k - 1; } else { m := InterruptedLate(r, k - 1, i); }
  }

  lemma DueStep(s: Life, a: Act)
    requires Enabled(s, a) && Apply(s, a).closing.CloseDue?
    ensures Apply(s, a).closing == s.closing || Finds(s, Apply(s, a).closing)
  {
  }

  /** The look at a row that finds it not terminal. */
  ghost predicate Finds(s: Life, due: ClosePc) {
    && due.CloseDue? && |s.attempts| > 0
    && !Terminal(s.attempts[Turn(s.attempts, due.next)].status)
    && s.closing == Closing(due.x, due.next)
  }

  /** Before it writes to a row, the closing has found it not terminal. */
  lemma {:induction false} LookedBefore(r: Run, k: nat) returns (l: nat)
    requires Execution(r) && k < |r.states| && r.states[k].closing.CloseDue?
    ensures l < k && Finds(r.states[l], r.states[k].closing) && |r.states[l].attempts| == |r.states[k].attempts|
  {
    assert StepOk(r, k - 1);
    InvAt(r, k - 1);
    SeenStep(r.states[k - 1], r.acts[k - 1]);
    DueStep(r.states[k - 1], r.acts[k - 1]);
    l := k - 1;
    if !Finds(r.states[k - 1], r.states[k].closing) { l := LookedBefore(r, k - 1); }
  }

  /** An adopted attempt that exited with another code than 0 was interrupted by a recovery after it
      was observed, and then raised by the closing of its run. */
  lemma RaisedAfterInterrupt(r: Run, k: nat) returns (l: nat, m: nat)
    requires Execution(r) && k < |r.states| && r.states[k].adopted != 0
    requires r.states[k].adopted <= |r.states[k].attempts| &&
      r.states[k].attempts[r.states[k].adopted - 1].exitCode != 0
    ensures l < m < k
    ensures Interrupts(r.states[l], r.acts[l], r.states[k].adopted - 1) &&
      Raises(r.states[m], r.acts[m], r.states[k].adopted - 1)
  {
    var i := r.states[k].adopted - 1;
    InvAt(r, k);
    RaisedExactly(r, k, i);
    m :| m < k && Raises(r.states[m], r.acts[m], i);
    assert StepOk(r, m);
    var look := LookedBefore(r, m);
    InvAt(r, look);
    l := InterruptedLate(r, look, i);
  }
}
