/** `result adopt` and `result reject`, statement by statement over one run's rows, with other
    processes acting in between. */
module AdoptionCommands {
  import opened Options
  import opened TaskStore
  import opened AdoptionMachine

  lemma Extended(r: Run, a: Act, s: Life)
    requires Execution(r) && Enabled(r.Last(), a) && s == Apply(r.Last(), a)
    ensures Execution(Run(r.states + [s], r.acts + [a]))
  {
    var r' := Run(r.states + [s], r.acts + [a]);
    forall k | 0 <= k < |r'.acts| ensures StepOk(r', k) {
      if k < |r.acts| { assert StepOk(r, k); }
    }
  }

  ghost predicate Grew(r: Run, r': Run) {
    r.acts <= r'.acts && r.states <= r'.states
  }

  /** The steps added since r: none writes the adoption of process p. */
  ghost predicate NoWrite(r: Run, r': Run, p: nat) {
    forall k | |r.acts| <= k < |r'.acts| :: r'.acts[k] != AdoptWrite(p)
  }

  /** The steps added since r hold process p's write. */
  ghost predicate Wrote(r: Run, r': Run, p: nat) {
    exists k :: |r.acts| <= k < |r'.acts| && r'.acts[k] == AdoptWrite(p)
  }

  /** Steps of everybody but process p. */
  predicate Foreign(p: nat, a: Act) {
    match a
    case AdoptRead(q, _) => q != p
    case AdoptReadRecord(q) => q != p
    case AdoptCheck(q) => q != p
    case AdoptWrite(q) => q != p
    case AdoptError(q) => q != p
    case AdoptMark(q) => q != p
    case RejectRead(q) => q != p
    case RejectWrite(q) => q != p
    case _ => true
  }

  /** Nothing a foreign step does moves p, or removes an attempt. */
  lemma ForeignKeeps(s: Life, a: Act, p: nat)
    requires Inv(s) && Enabled(s, a) && Foreign(p, a)
    ensures var s' := Apply(s, a);
      Adopter(s', p) == Adopter(s, p) && Rejecter(s', p) == Rejecter(s, p) && |s'.attempts| >= |s.attempts| &&
        a != AdoptWrite(p)
  {
    RowsStep(s, a);
    AdopterMoves(s, a, p);
  }

  datatype AdoptFailure = NoAttempt | NoRunRecord | NotAdoptable | WriteFailed

  /** Step k of the run is why process p's adopt command ended as it did: it found no attempt, or no
      run record, or its checks failed; or they passed, and only the write itself was left. */
  ghost predicate Reason(r: Run, p: nat, wanted: int, err: Option<AdoptFailure>, k: nat) {
    && k < |r.acts| && k < |r.states|
    && var s, pc := r.states[k], Adopter(r.states[k], p);
       match err
       case Some(NoAttempt) =>
         r.acts[k] == AdoptRead(p, wanted) &&
         (s.attempts == [] || (wanted > 0 && forall i | 0 <= i < |s.attempts| :: s.attempts[i].number != wanted))
       case Some(NoRunRecord) => r.acts[k] == AdoptReadRecord(p) && !s.hasRecord
       case _ =>
         && r.acts[k] == AdoptCheck(p) && pc.HasRecord? && pc.i < |pc.rows|
         && (err != Some(NotAdoptable) <==> AllChecks(pc.rows, pc.i, pc.adopted, s.candidate))
  }

  /** The attempt read is completed and checkpointed, it is the candidate, none was adopted, and none
      after it was completed. */
  ghost predicate AllChecks(rows: seq<Att>, i: nat, adopted: nat, candidate: nat)
    requires i < |rows|
  {
    && rows[i].status == Completed && rows[i].checkpoint != ""
    && candidate != 0 && candidate == rows[i].number && adopted == 0
    && forall j | 0 <= j < |rows| && rows[j].number > rows[i].number :: rows[j].status != Completed
  }

  class RunRows {
    var attempts: seq<Att>
    var open: bool
    var hasRecord: bool
    var candidate: nat
    var adopted: nat

    // control state of all processes, and history
    var adopters: map<nat, AdoptPc>
    var rejecters: map<nat, RejectPc>
    var recoverers: map<nat, RecoverPc>
    var closing: ClosePc
    var writes: seq<Write>
    ghost var run: Run

    function View(): Life
      reads this
    {
      Life(attempts, open, hasRecord, candidate, adopted, closing, adopters, rejecters, recoverers, writes)
    }

    ghost predicate Valid()
      reads this
    {
      Execution(run) && run.Last() == View()
    }

    constructor (hasRecord: bool)
      ensures Valid() && attempts == [] && adopters == map[] && rejecters == map[] && this.hasRecord == hasRecord
    {
      this.hasRecord := hasRecord;
      attempts, open, candidate, adopted, closing := [], true, 0, 0, NotClosing;
      adopters, rejecters, recoverers, writes := map[], map[], map[], [];
      new;
      run := Run([View()], []);
    }

    ghost method Log(a: Act)
      requires Execution(run) && Enabled(run.Last(), a) && View() == Apply(run.Last(), a)
      modifies this`run
      ensures Valid() && run == Run(old(run.states) + [View()], old(run.acts) + [a])
    {
      Extended(run, a, View());
      run := Run(run.states + [View()], run.acts + [a]);
    }

    method Install(s: Life)
      modifies this`attempts, this`open, this`hasRecord, this`candidate, this`adopted
      modifies this`adopters, this`rejecters, this`recoverers, this`closing, this`writes
      ensures View() == s
    {
      attempts, open, hasRecord, candidate, adopted := s.attempts, s.open, s.hasRecord, s.candidate, s.adopted;
      adopters, rejecters, recoverers := s.adopters, s.rejecters, s.recoverers;
      closing, writes := s.closing, s.writes;
    }

    method Take(a: Act)
      requires Valid() && Enabled(View(), a)
      modifies this
      ensures Valid() && View() == Apply(old(View()), a)
      ensures run.acts == old(run.acts) + [a] && run.states == old(run.states) + [View()]
    {
      Install(Apply(View(), a));
      Log(a);
    }

    method Preempt(p: nat)
      requires Valid()
      modifies this
      ensures Valid() && Grew(old(run), run)
      ensures Adopter(View(), p) == old(Adopter(View(), p)) && Rejecter(View(), p) == old(Rejecter(View(), p))
      ensures |attempts| >= |old(attempts)| && NoWrite(old(run), run, p)
    {
      var n: int := *;
      for i := 0 to if n < 0 then 0 else n
        invariant Valid() && Grew(old(run), run) && |attempts| >= |old(attempts)| && NoWrite(old(run), run, p)
        invariant Adopter(View(), p) == old(Adopter(View(), p)) && Rejecter(View(), p) == old(Rejecter(View(), p))
      {
        var a: Act := *;
        if Foreign(p, a) && Enabled(View(), a) {
          Known();
          ForeignKeeps(View(), a, p);
          Take(a);
        }
      }
    }

    /** Everything that is known of every reachable state. */
    ghost method Known()
      requires Valid()
      ensures Inv(View())
    {
      InvAt(run, |run.states| - 1);
    }

    // ----- result adopt, one statement each

    method ReadAttempts(p: nat, wanted: int) returns (found: bool)
      requires Valid() && Adopter(View(), p) == Idle
      modifies this
      ensures Valid() && Grew(old(run), run) && NoWrite(old(run), run, p)
      ensures run.acts == old(run.acts) + [AdoptRead(p, wanted)]
      ensures found <==>
        && old(attempts) != []
        && (wanted > 0 ==> exists i :: 0 <= i < |old(attempts)| && old(attempts)[i].number == wanted)
      ensures if found
              then Adopter(View(), p).HasAttempts? && Adopter(View(), p).rows == old(attempts) &&
                   var i := Adopter(View(), p).i;
                   && i < |old(attempts)|
                   && if wanted > 0 then old(attempts)[i].number == wanted else i == |old(attempts)| - 1
              else Adopter(View(), p) == Idle
      ensures found ==> HasChosen(Adopter(View(), p), wanted)
    {
      var chosen := Choose(attempts, wanted);
      found := chosen.Some?;
      if found { adopters := adopters[p := HasAttempts(attempts, chosen.value)]; }
      Log(AdoptRead(p, wanted));
      Known();
    }

    method ReadRecord(p: nat, wanted: int) returns (found: bool)
      requires Valid() && HasChosen(Adopter(View(), p), wanted)
      modifies this
      ensures Valid() && Grew(old(run), run) && NoWrite(old(run), run, p)
      ensures run.acts == old(run.acts) + [AdoptReadRecord(p)]
      ensures found <==> old(hasRecord)
      ensures var pc := old(Adopter(View(), p));
        Adopter(View(), p) == if found then HasRecord(pc.rows, pc.i, old(adopted)) else Idle
    {
      var pc := adopters[p];
      found := hasRecord;
      adopters := adopters[p := if hasRecord then HasRecord(pc.rows, pc.i, adopted) else Idle];
      Log(AdoptReadRecord(p));
    }

    method Check(p: nat, wanted: int) returns (ok: bool)
      requires Valid() && Adopter(View(), p).HasRecord? && Fits(Adopter(View(), p).i, wanted)
      modifies this
      ensures Valid() && Grew(old(run), run) && NoWrite(old(run), run, p)
      ensures run.acts == old(run.acts) + [AdoptCheck(p)]
      ensures var pc := old(Adopter(View(), p));
        && pc.i < |pc.rows|
        && (ok <==>
              && pc.rows[pc.i].status == Completed && pc.rows[pc.i].checkpoint != ""
              && candidate != 0 && candidate == pc.rows[pc.i].number && pc.adopted == 0
              && forall j | 0 <= j < |pc.rows| && pc.rows[j].number > pc.rows[pc.i].number ::
                   pc.rows[j].status != Completed)
        && Adopter(View(), p) == if ok then Checked(pc.i) else Idle
      ensures candidate == old(candidate)
    {
      Known();
      var pc := adopters[p];
      assert PcOk(View(), pc);
      ok := ChecksPass(pc.rows, pc.i, pc.adopted, candidate);
      adopters := adopters[p := if ok then Checked(pc.i) else Idle];
      Log(AdoptCheck(p));
    }

    method WriteAdoption(p: nat, wanted: int)
      requires Valid() && Adopter(View(), p).Checked? && Fits(Adopter(View(), p).i, wanted)
      modifies this
      ensures Valid() && Grew(old(run), run) && Wrote(old(run), run, p)
      ensures adopted != 0 && (wanted > 0 ==> adopted == wanted)
      ensures Adopter(View(), p) == Marking(adopted - 1, Completed)
    {
      Known();
      var i := adopters[p].i;
      assert PcOk(View(), adopters[p]);
      assert RowOk(attempts[i], i);
      adopted, writes := attempts[i].number, writes + [Write(attempts[i].number, p)];
      adopters := adopters[p := Marking(i, Completed)];
      Log(AdoptWrite(p));
      assert run.acts[|old(run).acts|] == AdoptWrite(p);
    }

    method MeetError(p: nat)
      requires Valid() && Adopter(View(), p).Checked?
      modifies this
      ensures Valid() && Grew(old(run), run) && NoWrite(old(run), run, p) && candidate != 0
      ensures Adopter(View(), p) == Marking(candidate - 1, Failed)
    {
      Known();
      assert PcOk(View(), adopters[p]);
      adopters := adopters[p := Marking(adopters[p].i, Failed)];
      Log(AdoptError(p));
    }

    method Mark(p: nat)
      requires Valid() && Adopter(View(), p).Marking?
      modifies this
      ensures Valid() && Grew(old(run), run) && NoWrite(old(run), run, p)
      ensures Adopter(View(), p) == Idle && adopted == old(adopted) && candidate == old(candidate)
      ensures var pc := old(Adopter(View(), p));
        attempts == if pc.i < |old(attempts)| then old(attempts)[pc.i := old(attempts)[pc.i].(status := pc.x)]
                    else old(attempts)
    {
      attempts := SetStatus(attempts, adopters[p].i, adopters[p].x);
      adopters := adopters[p := Idle];
      Log(AdoptMark(p));
    }

    /** Reads the rows, then the record, then the candidate, and checks what it read. */
    method Vet(p: nat, wanted: int) returns (err: Option<AdoptFailure>)
      requires Valid() && Adopter(View(), p) == Idle
      modifies this
      ensures Valid() && Grew(old(run), run) && NoWrite(old(run), run, p)
      ensures err.None? ==> Adopter(View(), p).Checked? && Fits(Adopter(View(), p).i, wanted)
      ensures err.Some? ==> Adopter(View(), p) == Idle
      ensures err != Some(WriteFailed) && |run.acts| > |old(run.acts)| && Reason(run, p, wanted, err, |run.acts| - 1)
    {
      var ok := ReadAttempts(p, wanted);
      if !ok { return Some(NoAttempt); }
      err := VetRecord(p, wanted);
    }

    method VetRecord(p: nat, wanted: int) returns (err: Option<AdoptFailure>)
      requires Valid() && HasChosen(Adopter(View(), p), wanted)
      modifies this
      ensures Valid() && Grew(old(run), run) && NoWrite(old(run), run, p)
      ensures err.None? ==> Adopter(View(), p).Checked? && Fits(Adopter(View(), p).i, wanted)
      ensures err.Some? ==> Adopter(View(), p) == Idle
      ensures err == None || err == Some(NoRunRecord) || err == Some(NotAdoptable)
      ensures |run.acts| > |old(run.acts)| && Reason(run, p, wanted, err, |run.acts| - 1)
    {
      Preempt(p);
      var ok := ReadRecord(p, wanted);
      if !ok { return Some(NoRunRecord); }
      err := VetRows(p, wanted);
    }

    method VetRows(p: nat, wanted: int) returns (err: Option<AdoptFailure>)
      requires Valid() && Adopter(View(), p).HasRecord? && Fits(Adopter(View(), p).i, wanted)
      modifies this
      ensures Valid() && Grew(old(run), run) && NoWrite(old(run), run, p)
      ensures err.None? ==> Adopter(View(), p).Checked? && Fits(Adopter(View(), p).i, wanted)
      ensures err.Some? ==> Adopter(View(), p) == Idle
      ensures err == None || err == Some(NotAdoptable)
      ensures |run.acts| > |old(run.acts)| && Reason(run, p, wanted, err, |run.acts| - 1)
    {
      Preempt(p);
      var ok := Check(p, wanted);
      err := if ok then None else Some(NotAdoptable);
    }

    /** The write and the statements after it. */
    method Settle(p: nat, wanted: int, writeOk: bool) returns (err: Option<AdoptFailure>)
      requires Valid() && Adopter(View(), p).Checked? && Fits(Adopter(View(), p).i, wanted)
      modifies this
      ensures Valid() && Adopter(View(), p) == Idle && Grew(old(run), run)
      ensures if writeOk then err == None && Wrote(old(run), run, p)
              else err == Some(WriteFailed) && NoWrite(old(run), run, p)
      ensures writeOk ==> adopted != 0 && (wanted > 0 ==> adopted == wanted)
      ensures candidate != 0 && candidate <= |attempts| && (writeOk ==> adopted == candidate)
      ensures attempts[candidate - 1].status == if writeOk then Completed else Failed
    {
      if writeOk {
        WriteAdoption(p, wanted);
        ghost var written := run;
        Preempt(p);
        Lasts(written);
        err := None;
      } else {
        MeetError(p);
        Preempt(p);
        err := Some(WriteFailed);
      }
      Known();
      assert PcOk(View(), adopters[p]);
      Mark(p);
    }

    /** Adopts the attempt asked for, or the last one.  It writes exactly when it reports success,
        and then the run's adopted attempt is the one asked for and is the run's candidate. */
    method ResultAdopt(p: nat, wanted: int, writeOk: bool) returns (err: Option<AdoptFailure>)
      requires Valid() && Adopter(View(), p) == Idle
      modifies this
      ensures Valid() && Adopter(View(), p) == Idle && Grew(old(run), run)
      ensures err.None? <==> Wrote(old(run), run, p)
      ensures err.None? ==> adopted != 0 && Adoptable(View(), adopted) && (wanted > 0 ==> adopted == wanted)
      ensures old(adopted) != 0 ==> adopted == old(adopted)
      ensures (err.None? ==> writeOk) && (err == Some(WriteFailed) ==> !writeOk)
      // the attempt ends completed when it was adopted, and failed when the write failed
      ensures err.None? || err == Some(WriteFailed) ==>
        && 0 < candidate <= |attempts|
        && attempts[candidate - 1].status == if err.None? then Completed else Failed
      ensures exists k: nat :: |old(run.acts)| <= k && Reason(run, p, wanted, err, k)
    {
      Preempt(p);
      err := Vet(p, wanted);
      ghost var k: nat, vetted := |run.acts| - 1, run;
      if err.None? {
        Preempt(p);
        err := Settle(p, wanted, writeOk);
      }
      Lasts(old(run));
      Known();
      assert run.acts[k] == vetted.acts[k] && run.states[k] == vetted.states[k];
      assert Reason(run, p, wanted, err, k);
    }

    /** An adoption in an earlier state of the run is still there. */
    ghost method Lasts(earlier: Run)
      requires Valid() && Grew(earlier, run) && |earlier.states| > 0
      ensures earlier.Last().adopted != 0 ==> adopted == earlier.Last().adopted
    {
      if earlier.Last().adopted != 0 { AdoptedForever(run, |earlier.states| - 1, |run.states| - 1); }
    }

    // ----- result reject

    method ReadLast(p: nat) returns (found: bool)
      requires Valid() && Rejecter(View(), p) == NotRejecting
      modifies this
      ensures Valid() && Grew(old(run), run)
      ensures found <==> |old(attempts)| > 0
      ensures Rejecter(View(), p) == if found then Rejecting(|old(attempts)| - 1) else NotRejecting
      ensures attempts == old(attempts)
    {
      found := |attempts| > 0;
      if found { rejecters := rejecters[p := Rejecting(|attempts| - 1)]; }
      Log(RejectRead(p));
    }

    method WriteReject(p: nat)
      requires Valid() && Rejecter(View(), p).Rejecting?
      modifies this
      ensures Valid() && Grew(old(run), run)
      ensures Rejecter(View(), p) == NotRejecting
      ensures var i := old(Rejecter(View(), p).i);
        attempts == if i < |old(attempts)| then old(attempts)[i := old(attempts)[i].(status := Failed)]
                    else old(attempts)
    {
      attempts := SetStatus(attempts, rejecters[p].i, Failed);
      rejecters := rejecters[p := NotRejecting];
      Log(RejectWrite(p));
    }

    /** Marks the last attempt failed.  It checks nothing, and an adoption stays as it is. */
    method ResultReject(p: nat) returns (ok: bool)
      requires Valid() && Rejecter(View(), p) == NotRejecting
      modifies this
      ensures Valid() && Rejecter(View(), p) == NotRejecting && Grew(old(run), run)
      ensures old(attempts) != [] ==> ok
      ensures ok ==> exists i :: 0 <= i < |attempts| && i >= |old(attempts)| - 1 && attempts[i].status == Failed
      ensures old(adopted) != 0 ==> adopted == old(adopted)
    {
      Preempt(p);
      ok := ReadLast(p);
      if ok {
        var last := |attempts| - 1;
        Preempt(p);
        WriteReject(p);
        assert attempts[last].status == Failed;
      }
      Lasts(old(run));
    }
  }

  /** The attempt asked for sits where its number says. */
  predicate Fits(i: nat, wanted: int) {
    wanted > 0 ==> i + 1 == wanted
  }

  predicate HasChosen(pc: AdoptPc, wanted: int) {
    pc.HasAttempts? && Fits(pc.i, wanted)
  }
}
