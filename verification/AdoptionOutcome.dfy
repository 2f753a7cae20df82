/** Which candidates can be adopted: what one adopt command comes to by itself, and the candidates no
    command ever adopts. */
module AdoptionOutcome {
  import opened TaskStore
  import opened AdoptionMachine
  import opened AdoptionHistory

  // ----- one command by itself

  function Command(p: nat, wanted: int): seq<Act> {
    [AdoptRead(p, wanted), AdoptReadRecord(p), AdoptCheck(p), AdoptWrite(p)]
  }

  ghost predicate Performs(s: Life, p: nat, wanted: int, t: Life) {
    Leads(s, Command(p, wanted), t)
  }

  /** What the command asks of the rows: the candidate is the one asked for, or none is asked for;
      it is completed with a checkpoint; and nothing is adopted yet. */
  ghost predicate Acceptable(s: Life, wanted: int) {
    && s.hasRecord && s.adopted == 0
    && 0 < s.candidate <= |s.attempts| && (wanted > 0 ==> wanted == s.candidate)
    && s.attempts[s.candidate - 1].status == Completed && s.attempts[s.candidate - 1].checkpoint != ""
  }

  lemma FindsNumber(rows: seq<Att>, wanted: int, k: nat)
    requires RowsOk(rows) && k <= |rows|
    ensures var r := FindNumber(rows, wanted, k);
      if k < wanted <= |rows| then r.Some? && r.value == wanted - 1 else r.None?
  {
    forall i | 0 <= i < |rows| ensures rows[i].number == i + 1 { assert RowOk(rows[i], i); }
    if k < wanted <= |rows| { assert rows[wanted - 1].number == wanted; }
  }

  /** The rows choose the candidate exactly when it is asked for, or none is: it is the last attempt. */
  lemma ChoosesCandidate(s: Life, wanted: int)
    requires RowsOk(s.attempts) && CandidateOk(s)
    ensures var r := Choose(s.attempts, wanted);
      s.candidate != 0 && r.Some? && s.attempts[r.value].number == s.candidate <==>
      s.candidate != 0 && (wanted > 0 ==> wanted == s.candidate)
  {
    forall i | 0 <= i < |s.attempts| ensures s.attempts[i].number == i + 1 { assert RowOk(s.attempts[i], i); }
    if wanted > 0 { FindsNumber(s.attempts, wanted, 0); }
  }

  ghost predicate Passes(s: Life, wanted: int) {
    var r := Choose(s.attempts, wanted);
    s.hasRecord && r.Some? && ChecksPass(s.attempts, r.value, s.adopted, s.candidate)
  }

  /** The checks hold of what the command reads exactly when the candidate is acceptable; a later
      completed attempt cannot exist. */
  lemma ChecksExactly(s: Life, wanted: int)
    requires Inv(s)
    ensures Acceptable(s, wanted) <==> Passes(s, wanted)
  {
    ChoosesCandidate(s, wanted);
    var r := Choose(s.attempts, wanted);
    if r.Some? && s.candidate != 0 && s.attempts[r.value].number == s.candidate {
      assert RowOk(s.attempts[r.value], r.value);
      forall j | 0 <= j < |s.attempts| ensures s.attempts[j].number <= s.candidate { assert RowOk(s.attempts[j], j); }
      assert !Superseded(s.attempts, r.value);
    }
  }

  /** The states a command goes through that nobody interrupts. */
  lemma CommandRuns(s: Life, p: nat, wanted: int) returns (t: Life)
    requires Inv(s) && Adopter(s, p).Idle?
    ensures Passes(s, wanted) ==>
      Performs(s, p, wanted, t) && t.adopted == s.attempts[Choose(s.attempts, wanted).value].number
    ensures !Passes(s, wanted) ==> forall u :: !Performs(s, p, wanted, u)
  {
    var s1 := Apply(s, AdoptRead(p, wanted));
    t := s;
    if Enabled(s1, AdoptReadRecord(p)) {
      var s2 := Apply(s1, AdoptReadRecord(p));
      if Enabled(s2, AdoptCheck(p)) { t := ChecksAndWrites(s2, p); }
      TwoMore(s1, s2, p);
    }
    OneMore(s, s1, p, wanted);
  }

  lemma ChecksAndWrites(s2: Life, p: nat) returns (t: Life)
    requires Enabled(s2, AdoptCheck(p)) && Adopter(s2, p).rows == s2.attempts
    ensures var pc := Adopter(s2, p);
      if ChecksPass(pc.rows, pc.i, pc.adopted, s2.candidate)
      then Leads(s2, [AdoptCheck(p), AdoptWrite(p)], t) && t.adopted == s2.attempts[pc.i].number
      else forall u :: !Leads(s2, [AdoptCheck(p), AdoptWrite(p)], u)
  {
    var s3 := Apply(s2, AdoptCheck(p));
    t := s2;
    if Enabled(s3, AdoptWrite(p)) {
      t := Apply(s3, AdoptWrite(p));
      assert Leads(t, [], t) && Leads(s3, [AdoptWrite(p)], t);
    }
    ThreeMore(s2, s3, p);
  }

  lemma ThreeMore(s2: Life, s3: Life, p: nat)
    requires Enabled(s2, AdoptCheck(p)) && s3 == Apply(s2, AdoptCheck(p))
    ensures forall u :: Leads(s2, [AdoptCheck(p), AdoptWrite(p)], u) <==> Leads(s3, [AdoptWrite(p)], u)
    ensures forall u :: Leads(s3, [AdoptWrite(p)], u) ==> Enabled(s3, AdoptWrite(p))
  {
    assert [AdoptCheck(p), AdoptWrite(p)][1..] == [AdoptWrite(p)];
  }

  lemma TwoMore(s1: Life, s2: Life, p: nat)
    requires Enabled(s1, AdoptReadRecord(p)) && s2 == Apply(s1, AdoptReadRecord(p))
    ensures forall u :: Leads(s1, [AdoptReadRecord(p), AdoptCheck(p), AdoptWrite(p)], u) <==>
      Leads(s2, [AdoptCheck(p), AdoptWrite(p)], u)
    ensures forall u :: Leads(s2, [AdoptCheck(p), AdoptWrite(p)], u) ==> Enabled(s2, AdoptCheck(p))
  {
    assert [AdoptReadRecord(p), AdoptCheck(p), AdoptWrite(p)][1..] == [AdoptCheck(p), AdoptWrite(p)];
  }

  lemma OneMore(s: Life, s1: Life, p: nat, wanted: int)
    requires Enabled(s, AdoptRead(p, wanted)) && s1 == Apply(s, AdoptRead(p, wanted))
    ensures forall u :: Performs(s, p, wanted, u) <==> Leads(s1, [AdoptReadRecord(p), AdoptCheck(p), AdoptWrite(p)], u)
    ensures forall u :: Leads(s1, [AdoptReadRecord(p), AdoptCheck(p), AdoptWrite(p)], u) ==>
      Enabled(s1, AdoptReadRecord(p))
  {
    assert Command(p, wanted)[1..] == [AdoptReadRecord(p), AdoptCheck(p), AdoptWrite(p)];
  }

  /** An adopt command that nobody interrupts writes exactly when the candidate is acceptable, and
      then the candidate is adopted. */
  lemma AdoptsExactly(s: Life, p: nat, wanted: int)
    requires Inv(s) && Adopter(s, p).Idle?
    ensures (exists t :: Performs(s, p, wanted, t)) <==> Acceptable(s, wanted)
    ensures Acceptable(s, wanted) ==> exists t :: Performs(s, p, wanted, t) && t.adopted == s.candidate
  {
    ChecksExactly(s, wanted);
    var t := CommandRuns(s, p, wanted);
    if Acceptable(s, wanted) {
      assert Passes(s, wanted);
      assert Performs(s, p, wanted, t) && t.adopted == s.candidate;
    }
  }

  // ----- candidates that are never adopted

  lemma {:induction false} LaterAt(r: Run, j: nat, k: nat)
    requires Execution(r) && j <= k < |r.states|
    ensures Later(r.states[j].attempts, r.states[k].attempts)
    decreases k
  {
    if j < k {
      LaterAt(r, j, k - 1);
      InvAt(r, k - 1);
      assert StepOk(r, k - 1);
      RowsStep(r.states[k - 1], r.acts[k - 1]);
      LaterTrans(r.states[j].attempts, r.states[k - 1].attempts, r.states[k].attempts);
    }
  }

  /** The candidate failed with its exit code and was not raised, or left no checkpoint. */
  ghost predicate Unadoptable(s: Life) {
    && 0 < s.candidate <= |s.attempts|
    && var row := s.attempts[s.candidate - 1];
       row.seen && ((row.exitCode != 0 && !row.raised) || row.checkpoint == "")
  }

  /** Between j and k the closing of the run does not raise the candidate. */
  ghost predicate NotRaised(r: Run, j: nat, k: nat)
    requires k <= |r.acts| && |r.states| == |r.acts| + 1
  {
    forall m: nat | j <= m < k :: !RaisesCandidate(r.states[m], r.acts[m])
  }

  ghost predicate RaisesCandidate(s: Life, a: Act) {
    s.candidate > 0 && Raises(s, a, s.candidate - 1)
  }

  lemma UnadoptableStays(r: Run, j: nat, k: nat)
    requires Execution(r) && j <= k < |r.states| && Unadoptable(r.states[j]) && NotRaised(r, j, k)
    ensures Unadoptable(r.states[k])
  {
    LaterAt(r, j, k);
    CandidateForever(r, j, k);
    var i := r.states[j].candidate - 1;
    assert SameFacts(r.states[j].attempts[i], r.states[k].attempts[i]);
    RaisedExactly(r, j, i);
    RaisedExactly(r, k, i);
    forall m: nat | m < k && Raises(r.states[m], r.acts[m], i) ensures m < j {
      if m >= j {
        CandidateForever(r, j, m);
        assert RaisesCandidate(r.states[m], r.acts[m]);
      }
    }
  }

  /** A run with such a candidate has no adopted attempt, before, or after unless it is raised. */
  lemma NeverAdopted(r: Run, j: nat, k: nat)
    requires Execution(r) && j < |r.states| && k < |r.states| && Unadoptable(r.states[j]) && NotRaised(r, j, k)
    ensures r.states[k].adopted == 0
  {
    if k < j && r.states[k].adopted != 0 { AdoptedForever(r, k, j); }
    var m := if k < j then j else k;
    UnadoptableStays(r, j, m);
    AdoptionSafety(r, m);
  }

  /** The run has looked at all its rows, at the last one twice. */
  ghost predicate Closed(s: Life) {
    s.closing.Closing? && s.closing.next > |s.attempts|
  }

  lemma ClosedStep(s: Life, a: Act)
    requires Inv(s) && Enabled(s, a) && Closed(s)
    ensures Closed(Apply(s, a)) && !a.CloseWrite?
  {
    CloseStep(s, a);
    SeenStep(s, a);
  }

  /** A closed run raises nothing any more. */
  lemma {:induction false} ClosedForGood(r: Run, j: nat, k: nat)
    requires Execution(r) && j <= k < |r.states| && Closed(r.states[j])
    ensures Closed(r.states[k]) && NotRaised(r, j, k)
    decreases k
  {
    if j < k {
      ClosedForGood(r, j, k - 1);
      InvAt(r, k - 1);
      assert StepOk(r, k - 1);
      ClosedStep(r.states[k - 1], r.acts[k - 1]);
    }
  }

  /** Every candidate was observed, so it is one of these or has a checkpoint and exit code zero, or
      was raised. */
  lemma CandidateIsEither(r: Run, k: nat)
    requires Execution(r) && k < |r.states| && r.states[k].candidate != 0
    ensures Adoptable(r.states[k], r.states[k].candidate) <==> !Unadoptable(r.states[k])
  {
    InvAt(r, k);
  }

  /** Such candidates exist: the validator passes, the process exits with 1, the coordinator answers
      COMPLETE, and the run closes. */
  lemma FailedCandidate(s: Life) returns (completed: Life, t: Life)
    requires Init(s) && s.hasRecord
    ensures Leads(s, [RunAttempt, RunObserve(true, 1, "c"), RunComplete], completed)
    ensures Leads(completed, [CloseLook, CloseLook], t)
    ensures Unadoptable(t) && Closed(t) && t.candidate == 1 && t.attempts == [Att(1, Failed, "c", true, true, 1, false)]
  {
    var s1 := Apply(s, RunAttempt);
    var s2 := Apply(s1, RunObserve(true, 1, "c"));
    assert s2.attempts == [Att(1, Failed, "c", true, true, 1, false)];
    completed := Apply(s2, RunComplete);
    LeadsThree(s, RunAttempt, RunObserve(true, 1, "c"), RunComplete);
    t := ClosesTerminal(completed);
  }

  lemma ClosesTerminal(s: Life) returns (t: Life)
    requires |s.attempts| == 1 && Terminal(s.attempts[0].status) && s.closing == Closing(Completed, 0)
    ensures Leads(s, [CloseLook, CloseLook], t) && t == s.(closing := Closing(Completed, 2))
  {
    t := Apply(Apply(s, CloseLook), CloseLook);
    LeadsTwo(s, CloseLook, CloseLook);
  }

  /** And one can be adopted: a recovery that had listed it interrupts it after it was observed, and
      the closing of its run takes it for open and writes completed. */
  lemma RaisedIsAdopted(s: Life) returns (completed: Life, raised: Life, checked: Life, t: Life)
    requires Init(s) && s.hasRecord
    ensures Leads(s, [RunAttempt, RecoverRead(7, 0), RunObserve(true, 1, "c"), RunComplete], completed)
    ensures Leads(completed, [RecoverWrite(7, Interrupted), CloseLook, CloseWrite], raised)
    ensures Leads(raised, [AdoptRead(0, 0), AdoptReadRecord(0), AdoptCheck(0)], checked)
    ensures Leads(checked, [AdoptWrite(0)], t)
    ensures t.adopted == 1 && t.attempts == [Att(1, Completed, "c", true, true, 1, true)]
  {
    completed := ListedRun(s, 7, 1);
    raised := RaisesListed(completed, 7);
    checked := AdopterChecks(raised, 0);
    t := AdopterWrites(checked, 0);
  }

  lemma RaisesListed(s: Life, q: nat) returns (t: Life)
    requires |s.attempts| == 1 && Recoverer(s, q) == Recovering(0) && s.closing == Closing(Completed, 0)
    ensures Leads(s, [RecoverWrite(q, Interrupted), CloseLook, CloseWrite], t)
    ensures t.attempts == [s.attempts[0].(status := Completed, raised := true)]
    ensures t.adopters == s.adopters && t.hasRecord == s.hasRecord && t.candidate == s.candidate &&
      t.adopted == s.adopted
  {
    var s1 := Apply(s, RecoverWrite(q, Interrupted));
    assert s1.attempts == [s.attempts[0].(status := Interrupted)];
    var s2 := Apply(s1, CloseLook);
    assert s2.closing == CloseDue(Completed, 0);
    t := Apply(s2, CloseWrite);
    LeadsThree(s, RecoverWrite(q, Interrupted), CloseLook, CloseWrite);
  }

  // ----- candidates that are withdrawn

  ghost predicate NotCompleted(rows: seq<Att>, number: nat) {
    0 < number <= |rows| && rows[number - 1].status != Completed
  }

  /** The candidate of a closed run is not completed, by a reject or a late cancel or interrupt, and
      no adopt command under way has seen it completed. */
  ghost predicate Withdrawn(s: Life) {
    && Closed(s) && s.adopted == 0 && NotCompleted(s.attempts, s.candidate)
    && forall p | p in s.adopters :: SawNotCompleted(s.adopters[p], s.candidate)
  }

  ghost predicate SawNotCompleted(pc: AdoptPc, candidate: nat) {
    match pc
    case Idle => true
    case HasAttempts(rows, _) => NotCompleted(rows, candidate)
    case HasRecord(rows, _, _) => NotCompleted(rows, candidate)
    case _ => false
  }

  lemma WithdrawnRows(s: Life, a: Act)
    requires Inv(s) && Enabled(s, a) && Withdrawn(s)
    ensures var s' := Apply(s, a);
      s'.adopted == 0 && s'.candidate == s.candidate && NotCompleted(s'.attempts, s'.candidate)
  {
    var i := s.candidate - 1;
    ClosedStep(s, a);
    CandidateStep(s, a);
    StatusWrites(s, a, i);
    NobodyWrites(s, a);
    AdoptedUntouched(s, a);
  }

  lemma NobodyWrites(s: Life, a: Act)
    requires Enabled(s, a) && forall p | p in s.adopters :: SawNotCompleted(s.adopters[p], s.candidate)
    ensures !a.AdoptWrite? && !a.AdoptMark?
  {
    forall p ensures !Adopter(s, p).Checked? && !Adopter(s, p).Marking? {
      assert p in s.adopters ==> SawNotCompleted(s.adopters[p], s.candidate);
    }
  }

  lemma WithdrawnAdopters(s: Life, a: Act, p: nat)
    requires Inv(s) && Enabled(s, a) && Withdrawn(s) && p in Apply(s, a).adopters
    ensures SawNotCompleted(Apply(s, a).adopters[p], s.candidate)
  {
    AdopterMoves(s, a, p);
    if p in s.adopters { assert SawNotCompleted(s.adopters[p], s.candidate) && PcOk(s, s.adopters[p]); }
    if a == AdoptCheck(p) {
      var pc := s.adopters[p];
      assert RowOk(pc.rows[pc.i], pc.i);
    }
  }

  /** A withdrawn candidate is never adopted, and never completed again. */
  lemma {:induction false} WithdrawnForever(r: Run, j: nat, k: nat)
    requires Execution(r) && j <= k < |r.states| && Withdrawn(r.states[j])
    ensures Withdrawn(r.states[k]) && r.states[k].candidate == r.states[j].candidate
    decreases k
  {
    if j < k {
      WithdrawnForever(r, j, k - 1);
      var s, a := r.states[k - 1], r.acts[k - 1];
      InvAt(r, k - 1);
      assert StepOk(r, k - 1);
      ClosedStep(s, a);
      WithdrawnRows(s, a);
      forall p | p in r.states[k].adopters ensures SawNotCompleted(r.states[k].adopters[p], s.candidate) {
        WithdrawnAdopters(s, a, p);
      }
    }
  }

  /** A good candidate is withdrawn by another run that had listed it while it was in flight and
      cancels it when the run is over. */
  lemma CancelWithdraws(s: Life) returns (completed: Life, closed: Life, t: Life)
    requires Init(s) && s.hasRecord
    ensures Leads(s, [RunAttempt, RecoverRead(7, 0), RunObserve(true, 0, "c"), RunComplete], completed)
    ensures Leads(completed, [CloseLook, CloseLook], closed)
    ensures Leads(closed, [RecoverWrite(7, Cancelled)], t)
    ensures Withdrawn(t) && t.candidate == 1 && t.attempts == [FINISHED.(status := Cancelled)]
  {
    completed := ListedRun(s, 7, 0);
    closed := ClosesTerminal(completed);
    t := Apply(closed, RecoverWrite(7, Cancelled));
    LeadsOne(closed, RecoverWrite(7, Cancelled));
  }
}
