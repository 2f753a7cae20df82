/** The life of one run's candidate: the run itself, any number of `result adopt` and `result
    reject` processes, and other runs and recoveries that list attempts as active and write later,
    interleaved statement by statement. */
module AdoptionMachine {
  import opened Options
  import opened TaskStore

  /** An attempt row; `seen` says whether it has been observed, `passed` and `exitCode` what was
      observed, `raised` whether the run's closing wrote completed over it (history: no column keeps
      them). */
  datatype Att = Att(
    number: nat,
    status: Status,
    checkpoint: string,
    seen: bool,
    passed: bool,
    exitCode: int,
    raised: bool)

  /** `result adopt` between its statements: the attempts read and the position chosen, then the
      adopted column read, then all checks passed, then the adoption written or refused. */
  datatype AdoptPc =
    | Idle
    | HasAttempts(rows: seq<Att>, i: nat)
    | HasRecord(rows: seq<Att>, i: nat, adopted: nat)
    | Checked(i: nat)
    | Marking(i: nat, x: Status)

  datatype RejectPc = NotRejecting | Rejecting(i: nat)

  /** Another run or a recovery that has listed row i as active and not yet written to it. */
  datatype RecoverPc = NotRecovering | Recovering(i: nat)

  /** finalizeTerminal over the rows, the last one a second time: the status of the next row is to be
      looked at, or was found not terminal and is to be written. */
  datatype ClosePc = NotClosing | Closing(x: Status, next: nat) | CloseDue(x: Status, next: nat)

  /** What the rows looked like to an adopter that wrote. */
  datatype Write = Write(number: nat, seenBy: nat)

  datatype Life = Life(
    attempts: seq<Att>,
    open: bool,
    hasRecord: bool,
    candidate: nat,
    adopted: nat,
    closing: ClosePc,
    adopters: map<nat, AdoptPc>,
    rejecters: map<nat, RejectPc>,
    recoverers: map<nat, RecoverPc>,
    writes: seq<Write>)

  datatype Act =
    | RunAttempt | RunObserve(passed: bool, exitCode: int, checkpoint: string)
    | RunComplete | RunCandidateError | RunEnd(x: Status)
    | CloseLook | CloseWrite
    | RecoverRead(q: nat, i: nat) | RecoverWrite(q: nat, x: Status)
    | AdoptRead(p: nat, wanted: int) | AdoptReadRecord(p: nat) | AdoptCheck(p: nat)
    | AdoptWrite(p: nat) | AdoptError(p: nat) | AdoptMark(p: nat)
    | RejectRead(p: nat) | RejectWrite(p: nat)

  function FindNumber(rows: seq<Att>, wanted: int, k: nat): (r: Option<nat>)
    requires k <= |rows|
    ensures r.Some? ==> k <= r.value < |rows| && rows[r.value].number == wanted
    ensures r.None? ==> forall i | k <= i < |rows| :: rows[i].number != wanted
    decreases |rows| - k
  {
    if k == |rows| then None
    else if rows[k].number == wanted then Some(k)
    else FindNumber(rows, wanted, k + 1)
  }

  /** The attempt asked for, or the last one when none is. */
  function Choose(rows: seq<Att>, wanted: int): (r: Option<nat>)
    ensures r.Some? ==> r.value < |rows|
  {
    if |rows| == 0 then None
    else if wanted > 0 then FindNumber(rows, wanted, 0)
    else Some(|rows| - 1)
  }

  /** A later attempt is completed too. */
  predicate Superseded(rows: seq<Att>, i: nat)
    requires i < |rows|
  {
    exists j :: 0 <= j < |rows| && rows[j].number > rows[i].number && rows[j].status == Completed
  }

  function SetStatus(rows: seq<Att>, i: nat, x: Status): seq<Att> {
    if i < |rows| then rows[i := rows[i].(status := x)] else rows
  }

  function Adopter(s: Life, p: nat): AdoptPc {
    if p in s.adopters then s.adopters[p] else Idle
  }

  function Rejecter(s: Life, p: nat): RejectPc {
    if p in s.rejecters then s.rejecters[p] else NotRejecting
  }

  function Recoverer(s: Life, q: nat): RecoverPc {
    if q in s.recoverers then s.recoverers[q] else NotRecovering
  }

  /** The row whose turn it is in finalizeTerminal. */
  function Turn(rows: seq<Att>, next: nat): int {
    if next < |rows| then next else |rows| - 1
  }

  function CloseRow(rows: seq<Att>, i: int, x: Status): seq<Att> {
    if 0 <= i < |rows| then rows[i := rows[i].(status := x, raised := rows[i].raised || x == Completed)] else rows
  }

  predicate Enabled(s: Life, a: Act) {
    match a
    case RunAttempt => s.open && (|s.attempts| == 0 || s.attempts[|s.attempts| - 1].seen)
    case RunObserve(_, _, _) => s.open && |s.attempts| > 0 && !s.attempts[|s.attempts| - 1].seen
    // the coordinator may only answer COMPLETE when the validator passed
    case RunComplete => s.open && |s.attempts| > 0 && s.attempts[|s.attempts| - 1].seen &&
      s.attempts[|s.attempts| - 1].passed
    case RunCandidateError => s.open && |s.attempts| > 0 && s.attempts[|s.attempts| - 1].seen &&
      s.attempts[|s.attempts| - 1].passed
    case RunEnd(x) => s.open && (x == Failed || x == Cancelled)
    case CloseLook => s.closing.Closing? && |s.attempts| > 0 && s.closing.next <= |s.attempts|
    case CloseWrite => s.closing.CloseDue?
    // listed as active; the write has no guard
    case RecoverRead(q, i) =>
      Recoverer(s, q).NotRecovering? && i < |s.attempts| &&
      (s.attempts[i].status == Pending || s.attempts[i].status == Running)
    case RecoverWrite(q, x) => Recoverer(s, q).Recovering? && x != Completed
    case AdoptRead(p, wanted) => Adopter(s, p).Idle?
    case AdoptReadRecord(p) => Adopter(s, p).HasAttempts?
    case AdoptCheck(p) => Adopter(s, p).HasRecord? && Adopter(s, p).i < |Adopter(s, p).rows|
    case AdoptWrite(p) => Adopter(s, p).Checked? && Adopter(s, p).i < |s.attempts|
    case AdoptError(p) => Adopter(s, p).Checked?
    case AdoptMark(p) => Adopter(s, p).Marking?
    case RejectRead(p) => Rejecter(s, p).NotRejecting?
    case RejectWrite(p) => Rejecter(s, p).Rejecting?
  }

  /** The checks on the rows as read: completed, checkpointed, the candidate, not adopted yet, not
      superseded. */
  predicate ChecksPass(rows: seq<Att>, i: nat, adopted: nat, candidate: nat)
    requires i < |rows|
  {
    && rows[i].status == Completed
    && rows[i].checkpoint != ""
    && candidate != 0 && candidate == rows[i].number
    && adopted == 0
    && !Superseded(rows, i)
  }

  function Apply(s: Life, a: Act): Life
    requires Enabled(s, a)
  {
    match a
    case RunAttempt => s.(attempts := s.attempts + [Att(|s.attempts| + 1, Pending, "", false, false, 0, false)])
    case RunObserve(passed, exitCode, checkpoint) =>
      var n := |s.attempts| - 1;
      var x := if passed && exitCode == 0 then Completed else Failed;
      s.(attempts := s.attempts[n := Att(n + 1, x, checkpoint, true, passed, exitCode, s.attempts[n].raised)])
    case RunComplete =>
      s.(open := false, candidate := if s.hasRecord then |s.attempts| else s.candidate,
         closing := Closing(Completed, 0))
    case RunCandidateError => s.(open := false, attempts := SetStatus(s.attempts, |s.attempts| - 1, Failed))
    case RunEnd(x) => s.(open := false, closing := Closing(x, 0))
    case CloseLook =>
      var x, next := s.closing.x, s.closing.next;
      if Terminal(s.attempts[Turn(s.attempts, next)].status) then s.(closing := Closing(x, next + 1))
      else s.(closing := CloseDue(x, next))
    case CloseWrite =>
      var x, next := s.closing.x, s.closing.next;
      s.(attempts := CloseRow(s.attempts, Turn(s.attempts, next), x), closing := Closing(x, next + 1))
    case RecoverRead(q, i) => s.(recoverers := s.recoverers[q := Recovering(i)])
    case RecoverWrite(q, x) =>
      s.(attempts := SetStatus(s.attempts, Recoverer(s, q).i, x), recoverers := s.recoverers[q := NotRecovering])
    case AdoptRead(p, wanted) =>
      var i := Choose(s.attempts, wanted);
      if i.Some? then s.(adopters := s.adopters[p := HasAttempts(s.attempts, i.value)]) else s
    case AdoptReadRecord(p) =>
      var pc := Adopter(s, p);
      s.(adopters := s.adopters[p := if s.hasRecord then HasRecord(pc.rows, pc.i, s.adopted) else Idle])
    case AdoptCheck(p) =>
      var pc := Adopter(s, p);
      var pc' := if ChecksPass(pc.rows, pc.i, pc.adopted, s.candidate) then Checked(pc.i) else Idle;
      s.(adopters := s.adopters[p := pc'])
    case AdoptWrite(p) =>
      var i := Adopter(s, p).i;
      s.(adopted := s.attempts[i].number, writes := s.writes + [Write(s.attempts[i].number, p)],
         adopters := s.adopters[p := Marking(i, Completed)])
    case AdoptError(p) => s.(adopters := s.adopters[p := Marking(Adopter(s, p).i, Failed)])
    case AdoptMark(p) =>
      s.(attempts := SetStatus(s.attempts, Adopter(s, p).i, Adopter(s, p).x), adopters := s.adopters[p := Idle])
    case RejectRead(p) =>
      if |s.attempts| == 0 then s else s.(rejecters := s.rejecters[p := Rejecting(|s.attempts| - 1)])
    case RejectWrite(p) =>
      s.(attempts := SetStatus(s.attempts, Rejecter(s, p).i, Failed), rejecters := s.rejecters[p := NotRejecting])
  }

  ghost predicate Init(s: Life) {
    s == Life([], true, s.hasRecord, 0, 0, NotClosing, map[], map[], map[], [])
  }

  datatype Run = Run(states: seq<Life>, acts: seq<Act>) {
    function Last(): Life requires |states| > 0 { states[|states| - 1] }
  }

  ghost predicate StepOk(r: Run, k: nat)
    requires k < |r.acts| < |r.states|
  {
    Enabled(r.states[k], r.acts[k]) && r.states[k + 1] == Apply(r.states[k], r.acts[k])
  }

  ghost predicate Execution(r: Run) {
    |r.states| == |r.acts| + 1 && Init(r.states[0]) && forall k | 0 <= k < |r.acts| :: StepOk(r, k)
  }

  // ----- invariants

  ghost predicate RowOk(row: Att, i: nat) {
    row.number == i + 1 && (row.status == Completed ==> row.seen && (row.raised || (row.passed && row.exitCode == 0)))
  }

  ghost predicate RowsOk(rows: seq<Att>) {
    forall i | 0 <= i < |rows| :: RowOk(rows[i], i)
  }

  /** Later rows: nothing observed changes, and rows are only added. */
  ghost predicate Later(rows: seq<Att>, rows': seq<Att>) {
    |rows| <= |rows'| && forall i | 0 <= i < |rows| && rows[i].seen :: SameFacts(rows[i], rows'[i])
  }

  ghost predicate SameFacts(a: Att, b: Att) {
    && b.seen && b.number == a.number && b.passed == a.passed && b.exitCode == a.exitCode
    && b.checkpoint == a.checkpoint && (a.raised ==> b.raised)
  }

  /** A run closes its rows with completed only when all of them are observed, and whenever it has
      recorded a candidate. */
  ghost predicate ClosingOk(s: Life) {
    s.closing.NotClosing? ||
    (&& !s.open && Terminal(s.closing.x) && (s.candidate != 0 ==> s.closing.x == Completed)
     && (s.closing.x == Completed ==> forall i | 0 <= i < |s.attempts| :: s.attempts[i].seen))
  }

  /** All attempts but the last are observed. */
  ghost predicate SeenOk(s: Life) {
    forall i | 0 <= i < |s.attempts| - 1 :: s.attempts[i].seen
  }

  ghost predicate CandidateOk(s: Life) {
    s.candidate != 0 ==>
      && !s.open && s.candidate == |s.attempts|
      && s.attempts[|s.attempts| - 1].seen && s.attempts[|s.attempts| - 1].passed
  }

  /** The attempt an adoption names: the candidate, observed with a passing validator and a
      checkpoint, and with exit code zero unless the run's closing raised it. */
  ghost predicate Adoptable(s: Life, number: nat) {
    && number != 0 && number == s.candidate <= |s.attempts|
    && var row := s.attempts[number - 1];
       row.seen && row.passed && row.checkpoint != "" && (row.exitCode == 0 || row.raised)
  }

  ghost predicate PcOk(s: Life, pc: AdoptPc) {
    match pc
    case Idle => true
    case HasAttempts(rows, i) => i < |rows| && RowsOk(rows) && Later(rows, s.attempts)
    case HasRecord(rows, i, _) => i < |rows| && RowsOk(rows) && Later(rows, s.attempts)
    case Checked(i) => Adoptable(s, i + 1)
    case Marking(i, x) => Adoptable(s, i + 1) && (x == Completed || x == Failed)
  }

  ghost predicate Inv(s: Life) {
    && RowsOk(s.attempts)
    && CandidateOk(s) && ClosingOk(s) && SeenOk(s)
    && (forall p | p in s.adopters :: PcOk(s, s.adopters[p]))
    && AdoptedOk(s)
  }

  lemma SetStatusKeeps(rows: seq<Att>, i: nat, x: Status)
    requires RowsOk(rows)
    requires x == Completed && i < |rows| ==>
      rows[i].seen && (rows[i].raised || (rows[i].passed && rows[i].exitCode == 0))
    ensures RowsOk(SetStatus(rows, i, x)) && Later(rows, SetStatus(rows, i, x))
  {
    forall j | 0 <= j < |rows| ensures RowOk(SetStatus(rows, i, x)[j], j) { assert RowOk(rows[j], j); }
  }

  lemma CloseRowKeeps(rows: seq<Att>, i: int, x: Status)
    requires RowsOk(rows) && (x == Completed && 0 <= i < |rows| ==> rows[i].seen)
    ensures RowsOk(CloseRow(rows, i, x)) && Later(rows, CloseRow(rows, i, x))
  {
    forall j | 0 <= j < |rows| ensures RowOk(CloseRow(rows, i, x)[j], j) { assert RowOk(rows[j], j); }
  }

  lemma RowsStep(s: Life, a: Act)
    requires Inv(s) && Enabled(s, a)
    ensures RowsOk(Apply(s, a).attempts) && Later(s.attempts, Apply(s, a).attempts)
  {
    match a
    case RunAttempt => RunRowsStep(s, a);
    case RunObserve(_, _, _) => RunRowsStep(s, a);
    case RunCandidateError => SetStatusKeeps(s.attempts, |s.attempts| - 1, Failed);
    case CloseWrite => CloseRowKeeps(s.attempts, Turn(s.attempts, s.closing.next), s.closing.x);
    case RecoverWrite(q, x) => SetStatusKeeps(s.attempts, Recoverer(s, q).i, x);
    case AdoptMark(p) =>
      assert PcOk(s, s.adopters[p]);
      SetStatusKeeps(s.attempts, Adopter(s, p).i, Adopter(s, p).x);
    case RejectWrite(p) => SetStatusKeeps(s.attempts, Rejecter(s, p).i, Failed);
    case _ =>
  }

  lemma RunRowsStep(s: Life, a: Act)
    requires RowsOk(s.attempts) && Enabled(s, a) && (a.RunAttempt? || a.RunObserve?)
    ensures RowsOk(Apply(s, a).attempts) && Later(s.attempts, Apply(s, a).attempts)
  {
    var rows' := Apply(s, a).attempts;
    forall i | 0 <= i < |rows'| ensures RowOk(rows'[i], i) {
      assert i < |s.attempts| ==> RowOk(s.attempts[i], i);
    }
  }

  lemma CandidateStep(s: Life, a: Act)
    requires Inv(s) && Enabled(s, a)
    ensures CandidateOk(Apply(s, a)) && (s.candidate != 0 ==> Apply(s, a).candidate == s.candidate)
  {
    RowsStep(s, a);
  }

  lemma ClosingStep(s: Life, a: Act)
    requires Inv(s) && Enabled(s, a)
    ensures ClosingOk(Apply(s, a)) && SeenOk(Apply(s, a))
  {
    RowsStep(s, a);
    SeenStep(s, a);
    CloseStep(s, a);
    var s' := Apply(s, a);
    assert forall i | 0 <= i < |s.attempts| && s.attempts[i].seen :: SameFacts(s.attempts[i], s'.attempts[i]);
  }

  lemma SeenStep(s: Life, a: Act)
    requires Enabled(s, a)
    ensures |Apply(s, a).attempts| == if a.RunAttempt? then |s.attempts| + 1 else |s.attempts|
    ensures a.RunAttempt? ==> |s.attempts| == 0 || s.attempts[|s.attempts| - 1].seen
  {
  }

  lemma CloseStep(s: Life, a: Act)
    requires Enabled(s, a)
    ensures var s' := Apply(s, a);
      if a.RunComplete? then s'.closing == Closing(Completed, 0) && !s'.open
      else if a.RunEnd? then s'.closing == Closing(a.x, 0) && !s'.open && s'.candidate == s.candidate && Terminal(a.x)
      else (s'.closing.NotClosing? <==> s.closing.NotClosing?) && s'.candidate == s.candidate && (s'.open ==> s.open)
           && (!s.closing.NotClosing? ==> s'.closing.x == s.closing.x)
  {
  }

  lemma AdoptableStays(s: Life, s': Life, number: nat)
    requires Adoptable(s, number) && Later(s.attempts, s'.attempts) && s'.candidate == s.candidate
    ensures Adoptable(s', number)
  {
    assert SameFacts(s.attempts[number - 1], s'.attempts[number - 1]);
  }

  lemma PcStays(s: Life, s': Life, pc: AdoptPc)
    requires PcOk(s, pc) && Later(s.attempts, s'.attempts) && (s.candidate != 0 ==> s'.candidate == s.candidate)
    ensures PcOk(s', pc)
  {
    match pc
    case Idle =>
    case HasAttempts(rows, i) => LaterTrans(rows, s.attempts, s'.attempts);
    case HasRecord(rows, i, _) => LaterTrans(rows, s.attempts, s'.attempts);
    case Checked(i) => AdoptableStays(s, s', i + 1);
    case Marking(i, _) => AdoptableStays(s, s', i + 1);
  }

  lemma LaterTrans(a: seq<Att>, b: seq<Att>, c: seq<Att>)
    requires Later(a, b) && Later(b, c)
    ensures Later(a, c)
  {
    forall i | 0 <= i < |a| && a[i].seen ensures SameFacts(a[i], c[i]) {
      assert SameFacts(a[i], b[i]);
    }
  }

  /** What an adopter moves to is justified by what it has read. */
  lemma PcMoves(s: Life, a: Act, p: nat)
    requires Inv(s) && Enabled(s, a) && p in Apply(s, a).adopters
    requires p !in s.adopters || Apply(s, a).adopters[p] != s.adopters[p]
    ensures PcOk(Apply(s, a), Apply(s, a).adopters[p])
  {
    if a.AdoptCheck? {
      PcChecked(s, p);
    } else {
      RowsStep(s, a);
      CandidateStep(s, a);
      if p in s.adopters { PcStays(s, Apply(s, a), s.adopters[p]); }
    }
  }

  lemma PcChecked(s: Life, p: nat)
    requires Inv(s) && Enabled(s, AdoptCheck(p))
    ensures PcOk(Apply(s, AdoptCheck(p)), Apply(s, AdoptCheck(p)).adopters[p])
  {
    var pc := s.adopters[p];
    assert PcOk(s, pc);
    if ChecksPass(pc.rows, pc.i, pc.adopted, s.candidate) {
      assert RowOk(pc.rows[pc.i], pc.i);
      assert SameFacts(pc.rows[pc.i], s.attempts[pc.i]);
    }
  }

  lemma InvKept(s: Life, a: Act)
    requires Inv(s) && Enabled(s, a)
    ensures Inv(Apply(s, a))
  {
    var s' := Apply(s, a);
    RowsStep(s, a);
    CandidateStep(s, a);
    ClosingStep(s, a);
    forall p | p in s'.adopters ensures PcOk(s', s'.adopters[p]) {
      if p in s.adopters && s'.adopters[p] == s.adopters[p] {
        PcStays(s, s', s.adopters[p]);
      } else {
        PcMoves(s, a, p);
      }
    }
    AdoptedKept(s, a);
  }

  /** What was adopted, and every adoption written, is adoptable. */
  ghost predicate AdoptedOk(s: Life) {
    && (s.adopted != 0 ==> Adoptable(s, s.adopted))
    && (s.writes != [] ==> s.adopted != 0)
    && forall n | 0 <= n < |s.writes| :: s.writes[n].number == s.adopted
  }

  lemma AdoptedKept(s: Life, a: Act)
    requires Inv(s) && Enabled(s, a)
    ensures AdoptedOk(Apply(s, a))
  {
    if a.AdoptWrite? {
      AdoptedByWrite(s, a.p);
    } else {
      RowsStep(s, a);
      CandidateStep(s, a);
      AdoptedUntouched(s, a);
      if s.adopted != 0 { AdoptableStays(s, Apply(s, a), s.adopted); }
    }
  }

  lemma AdoptedUntouched(s: Life, a: Act)
    requires Enabled(s, a) && !a.AdoptWrite?
    ensures Apply(s, a).adopted == s.adopted && Apply(s, a).writes == s.writes
  {
  }

  lemma AdoptedByWrite(s: Life, p: nat)
    requires Inv(s) && Enabled(s, AdoptWrite(p))
    ensures AdoptedOk(Apply(s, AdoptWrite(p)))
  {
    assert PcOk(s, s.adopters[p]);
    assert RowOk(s.attempts[s.adopters[p].i], s.adopters[p].i);
  }

  lemma {:induction false} InvAt(r: Run, k: nat)
    requires Execution(r) && k < |r.states|
    ensures Inv(r.states[k])
  {
    if k > 0 {
      InvAt(r, k - 1);
      assert StepOk(r, k - 1);
      InvKept(r.states[k - 1], r.acts[k - 1]);
    }
  }

  // ----- the results

  /** Whatever interleaves: a run's adopted attempt is 0 or its candidate, and every adoption that
      was ever written names an attempt with a passing validator and a checkpoint, and with exit code
      zero unless the run's closing raised it. */
  lemma AdoptionSafety(r: Run, k: nat)
    requires Execution(r) && k < |r.states|
    ensures var s := r.states[k];
      && (s.adopted == 0 || Adoptable(s, s.adopted))
      && forall n | 0 <= n < |s.writes| :: Adoptable(s, s.writes[n].number)
  {
    InvAt(r, k);
  }

  lemma {:induction false} CandidateForever(r: Run, j: nat, k: nat)
    requires Execution(r) && j <= k < |r.states| && r.states[j].candidate != 0
    ensures r.states[k].candidate == r.states[j].candidate
    decreases k
  {
    if j < k {
      CandidateForever(r, j, k - 1);
      InvAt(r, k - 1);
      assert StepOk(r, k - 1);
      CandidateStep(r.states[k - 1], r.acts[k - 1]);
    }
  }

  /** An adoption is for good: no reject, run or recovery ever takes it back or changes it. */
  lemma {:induction false} AdoptedForever(r: Run, j: nat, k: nat)
    requires Execution(r) && j <= k < |r.states| && r.states[j].adopted != 0
    ensures r.states[k].adopted == r.states[j].adopted
    decreases k
  {
    if j < k {
      AdoptedForever(r, j, k - 1);
      InvAt(r, k - 1);
      assert StepOk(r, k - 1);
      InvKept(r.states[k - 1], r.acts[k - 1]);
    }
  }

  // ----- adopt commands one at a time

  /** At most one adopter is active, and what it knows about the adopted column is still true. */
  ghost predicate OneAtATime(s: Life) {
    && (forall p, q | p != q :: Adopter(s, p).Idle? || Adopter(s, q).Idle?)
    && |s.writes| <= 1 && (|s.writes| == 0 <==> s.adopted == 0)
    && (forall p | p in s.adopters :: Current(s, s.adopters[p]))
  }

  ghost predicate Current(s: Life, pc: AdoptPc) {
    match pc
    case HasRecord(_, _, adopted) => adopted == s.adopted
    case Checked(_) => s.adopted == 0
    case _ => true
  }

  /** An adopt command starts only when no other one is under way. */
  ghost predicate Sequential(r: Run)
    requires |r.states| == |r.acts| + 1
  {
    forall k | 0 <= k < |r.acts| && r.acts[k].AdoptRead? :: forall q :: Adopter(r.states[k], q).Idle?
  }

  predicate ByAdopter(a: Act) {
    a.AdoptRead? || a.AdoptReadRecord? || a.AdoptCheck? || a.AdoptWrite? || a.AdoptError? || a.AdoptMark?
  }

  /** Only the adopter that acts moves, and it starts moving with AdoptRead. */
  lemma AdopterMoves(s: Life, a: Act, q: nat)
    requires Enabled(s, a)
    ensures ByAdopter(a) && q == a.p ==> a.AdoptRead? || !Adopter(s, q).Idle?
    ensures !(ByAdopter(a) && q == a.p) ==> Adopter(Apply(s, a), q) == Adopter(s, q)
  {
  }

  lemma OneAtATimeKept(s: Life, a: Act)
    requires Inv(s) && OneAtATime(s) && Enabled(s, a)
    requires a.AdoptRead? ==> forall q :: Adopter(s, q).Idle?
    ensures OneAtATime(Apply(s, a))
  {
    var s' := Apply(s, a);
    if a.AdoptWrite? {
      var i := Adopter(s, a.p).i;
      assert PcOk(s, s.adopters[a.p]);
      assert RowOk(s.attempts[i], i);
    } else {
      assert s'.adopted == s.adopted && s'.writes == s.writes;
    }
    forall p, q | p != q ensures Adopter(s', p).Idle? || Adopter(s', q).Idle? {
      AdopterMoves(s, a, p);
      AdopterMoves(s, a, q);
      assert Adopter(s, p).Idle? || Adopter(s, q).Idle?;
    }
    forall p | p in s'.adopters ensures Current(s', s'.adopters[p]) { CurrentKept(s, a, p); }
  }

  lemma CurrentKept(s: Life, a: Act, p: nat)
    requires OneAtATime(s) && Enabled(s, a) && p in Apply(s, a).adopters
    ensures Current(Apply(s, a), Apply(s, a).adopters[p])
  {
    AdopterMoves(s, a, p);
    if a.AdoptWrite? && p != a.p {
      var q := a.p;
      assert Adopter(s, q).Idle? || Adopter(s, p).Idle?;
    }
  }

  lemma {:induction false} OneAtATimeAt(r: Run, k: nat)
    requires Execution(r) && Sequential(r) && k < |r.states|
    ensures OneAtATime(r.states[k])
  {
    if k > 0 {
      OneAtATimeAt(r, k - 1);
      InvAt(r, k - 1);
      assert StepOk(r, k - 1);
      OneAtATimeKept(r.states[k - 1], r.acts[k - 1]);
    }
  }

  // ----- what interleaving costs

  /** Runs the acts one after the other. */
  ghost predicate Leads(s: Life, acts: seq<Act>, t: Life)
    decreases |acts|
  {
    if acts == [] then s == t
    else Enabled(s, acts[0]) && Leads(Apply(s, acts[0]), acts[1..], t)
  }

  lemma LeadsOne(s: Life, a: Act)
    requires Enabled(s, a)
    ensures Leads(s, [a], Apply(s, a))
  {
    assert Leads(Apply(s, a), [], Apply(s, a));
  }

  lemma LeadsTwo(s: Life, a: Act, b: Act)
    requires Enabled(s, a) && Enabled(Apply(s, a), b)
    ensures Leads(s, [a, b], Apply(Apply(s, a), b))
  {
    LeadsOne(Apply(s, a), b);
    assert [a, b][1..] == [b];
  }

  lemma LeadsThree(s: Life, a: Act, b: Act, c: Act)
    requires Enabled(s, a) && Enabled(Apply(s, a), b) && Enabled(Apply(Apply(s, a), b), c)
    ensures Leads(s, [a, b, c], Apply(Apply(Apply(s, a), b), c))
  {
    LeadsTwo(Apply(s, a), b, c);
    assert [a, b, c][1..] == [b, c];
  }

  lemma {:induction false} LeadsOn(s: Life, acts: seq<Act>, t: Life, more: seq<Act>, u: Life)
    requires Leads(s, acts, t) && Leads(t, more, u)
    ensures Leads(s, acts + more, u)
    decreases |acts|
  {
    if acts == [] {
      assert acts + more == more;
    } else {
      LeadsOn(Apply(s, acts[0]), acts[1..], t, more, u);
      assert (acts + more)[1..] == acts[1..] + more;
    }
  }

  const FINISHED: Att := Att(1, Completed, "c", true, true, 0, false)

  /** A run with one good attempt, its candidate, and nothing adopted. */
  const ACCEPTED: Life := Life([FINISHED], false, true, 1, 0, Closing(Completed, 0), map[], map[], map[], [])

  lemma AcceptedIsReachable(s: Life)
    requires Init(s) && s.hasRecord
    ensures Leads(s, [RunAttempt, RunObserve(true, 0, "c"), RunComplete], ACCEPTED)
  {
    var s1 := Apply(s, RunAttempt);
    var s2 := Apply(s1, RunObserve(true, 0, "c"));
    assert s2.attempts == [FINISHED];
    assert Apply(s2, RunComplete) == ACCEPTED;
    LeadsThree(s, RunAttempt, RunObserve(true, 0, "c"), RunComplete);
  }

  /** An adopter that has passed its checks on the accepted run. */
  const CHECKED: Life := ACCEPTED.(adopters := map[0 := Checked(0)])

  lemma CheckedIsReachable()
    ensures Leads(ACCEPTED, [AdoptRead(0, 0), AdoptReadRecord(0), AdoptCheck(0)], CHECKED)
  {
    var t := AdopterChecks(ACCEPTED, 0);
    assert t == CHECKED;
  }

  /** An adopter of a run whose one attempt is completed, checkpointed and the candidate passes its
      checks. */
  lemma AdopterChecks(s: Life, p: nat) returns (t: Life)
    requires s.hasRecord && s.candidate == 1 && s.adopted == 0 && Adopter(s, p).Idle?
    requires |s.attempts| == 1 && s.attempts[0].number == 1 && s.attempts[0].status == Completed
    requires s.attempts[0].checkpoint != ""
    ensures Leads(s, [AdoptRead(p, 0), AdoptReadRecord(p), AdoptCheck(p)], t)
    ensures t == s.(adopters := s.adopters[p := Checked(0)])
  {
    var a1 := s.(adopters := s.adopters[p := HasAttempts(s.attempts, 0)]);
    var a2 := s.(adopters := s.adopters[p := HasRecord(s.attempts, 0, 0)]);
    t := s.(adopters := s.adopters[p := Checked(0)]);
    assert Apply(s, AdoptRead(p, 0)) == a1;
    assert Apply(a1, AdoptReadRecord(p)).adopters == a2.adopters;
    assert Apply(a1, AdoptReadRecord(p)) == a2;
    assert Apply(a2, AdoptCheck(p)).adopters == t.adopters;
    assert Apply(a2, AdoptCheck(p)) == t;
    LeadsThree(s, AdoptRead(p, 0), AdoptReadRecord(p), AdoptCheck(p));
  }

  lemma AdopterWrites(s: Life, p: nat) returns (t: Life)
    requires Adopter(s, p) == Checked(0) && |s.attempts| == 1 && s.attempts[0].number == 1
    ensures Leads(s, [AdoptWrite(p)], t)
    ensures t == s.(adopted := 1, writes := s.writes + [Write(1, p)],
      adopters := s.adopters[p := Marking(0, Completed)])
  {
    t := Apply(s, AdoptWrite(p));
    LeadsOne(s, AdoptWrite(p));
  }

  lemma LastIsRejected(s: Life, q: nat) returns (t: Life)
    requires Rejecter(s, q).NotRejecting? && |s.attempts| == 1
    ensures Leads(s, [RejectRead(q), RejectWrite(q)], t)
    ensures t.attempts == [s.attempts[0].(status := Failed)] && t.adopters == s.adopters
  {
    var r1 := Apply(s, RejectRead(q));
    t := Apply(r1, RejectWrite(q));
    LeadsTwo(s, RejectRead(q), RejectWrite(q));
  }

  /** A reject that falls between an adopter's checks and its write is not seen: the adoption of
      the failed attempt is written, and the adopter's last statement makes it completed again. */
  lemma RejectIsLost() returns (rejected: Life, written: Life, marked: Life)
    ensures Leads(CHECKED, [RejectRead(1), RejectWrite(1)], rejected) && rejected.attempts[0].status == Failed
    ensures Leads(rejected, [AdoptWrite(0)], written) && written.adopted == 1 && written.attempts[0].status == Failed
    ensures Leads(written, [AdoptMark(0)], marked) && marked.attempts[0].status == Completed
  {
    rejected := LastIsRejected(CHECKED, 1);
    written := AdopterWrites(rejected, 0);
    marked := Apply(written, AdoptMark(0));
    LeadsOne(written, AdoptMark(0));
  }

  /** Two adopt commands that both check before either writes both write. */
  lemma TwoAdoptersBothWrite() returns (both: Life, end: Life)
    ensures Leads(CHECKED, [AdoptRead(1, 0), AdoptReadRecord(1), AdoptCheck(1)], both)
    ensures Leads(both, [AdoptWrite(0), AdoptWrite(1)], end) && |end.writes| == 2
  {
    both := AdopterChecks(CHECKED, 1);
    var one := AdopterWrites(both, 0);
    end := AdopterWrites(one, 1);
    LeadsOn(both, [AdoptWrite(0)], one, [AdoptWrite(1)], end);
    assert [AdoptWrite(0)] + [AdoptWrite(1)] == [AdoptWrite(0), AdoptWrite(1)];
  }
}
