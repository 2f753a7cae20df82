/** When a message is lost: claimed by a consumer that went away before acking it, and never handed
    out again. */
module MailboxLoss {
  import opened Options
  import opened MailboxMachine
  import opened MailboxSafety

  ghost predicate LeasedIn(rows: seq<Row>, mid: string) {
    exists i :: 0 <= i < |rows| && rows[i].mid == mid && rows[i].phase == Leased
  }

  ghost predicate Holds(s: Box, k: nat, mid: string) {
    k in s.pcs && Holding(s.pcs[k], mid)
  }

  ghost predicate Held(s: Box, mid: string) {
    exists k :: Holds(s, k, mid)
  }

  /** The message is claimed, and no consumer is at work on it. */
  ghost predicate Abandoned(s: Box, mid: string) {
    LeasedIn(s.rows, mid) && !Held(s, mid)
  }

  /** The consumer at work on a message dies, or its effect fails, or its ack does. */
  ghost predicate Abandons(s: Box, a: Act, mid: string) {
    && LeasedIn(s.rows, mid)
    && match a
       case Crash(k) => Holds(s, k, mid)
       case FinishError(k) => Holds(s, k, mid)
       case CallReturns(k, ok) => !ok && Holds(s, k, mid)
       case _ => false
  }

  // ----- one step

  ghost predicate Claims(s: Box, a: Act, mid: string) {
    a.Claim? && a.k in s.pcs && s.pcs[a.k] == Selected(mid) && Claimable(s.rows, mid)
  }

  ghost predicate Acks(s: Box, a: Act, mid: string) {
    a == AckOutside(mid) || (a.Finish? && Holds(s, a.k, mid))
  }

  ghost predicate LetsGo(s: Box, a: Act, mid: string) {
    match a
    case Crash(k) => Holds(s, k, mid)
    case Finish(k) => Holds(s, k, mid)
    case FinishError(k) => Holds(s, k, mid)
    case CallReturns(k, ok) => !ok && Holds(s, k, mid)
    case _ => false
  }

  lemma LeasedByClaim(rows: seq<Row>, mid: string, x: string, now: int, owner: string)
    requires UniqueMids(rows) && Claimable(rows, x)
    ensures LeasedIn(ClaimRows(rows, x, now, owner), mid) <==> LeasedIn(rows, mid) || mid == x
  {
    ClaimChanges(rows, x, now, owner);
    var rows', c := ClaimRows(rows, x, now, owner), IdOf(rows, x);
    assert rows'[c].mid == x && rows'[c].phase == Leased;
    if i :| 0 <= i < |rows| && rows[i].mid == mid && rows[i].phase == Leased { assert rows'[i] == rows[i]; }
  }

  lemma LeasedByAck(rows: seq<Row>, mid: string, x: string)
    requires UniqueMids(rows)
    ensures LeasedIn(AckRows(rows, x), mid) <==> LeasedIn(rows, mid) && mid != x
  {
    var rows' := AckRows(rows, x);
    if i :| 0 <= i < |rows| && rows[i].mid == mid && rows[i].phase == Leased && mid != x { assert rows'[i] == rows[i]; }
  }

  lemma LeasedByEnqueue(rows: seq<Row>, mid: string, row: Row)
    requires row.phase == Queued
    ensures LeasedIn(rows + [row], mid) <==> LeasedIn(rows, mid)
  {
    if i :| 0 <= i < |rows| && rows[i].mid == mid && rows[i].phase == Leased { assert (rows + [row])[i] == rows[i]; }
  }

  lemma LeasedStep(config: map<nat, Consumer>, s: Box, a: Act, mid: string)
    requires UniqueMids(s.rows) && Enabled(config, s, a)
    ensures LeasedIn(Apply(config, s, a).rows, mid) <==>
      (LeasedIn(s.rows, mid) && !Acks(s, a, mid)) || Claims(s, a, mid)
  {
    match a
    case Enqueue(x, to) => if !HasMid(s.rows, x) { LeasedByEnqueue(s.rows, mid, Row(x, to, Queued, None, 0, "")); }
    case Claim(k) =>
      var x := s.pcs[k].mid;
      if Claimable(s.rows, x) { LeasedByClaim(s.rows, mid, x, s.now, config[k].owner); }
    case Finish(k) => LeasedByAck(s.rows, mid, s.pcs[k].mid);
    case AckOutside(x) => LeasedByAck(s.rows, mid, x);
    case _ =>
  }

  /** Consumer k after its own step. */
  lemma HoldsStep(config: map<nat, Consumer>, s: Box, a: Act, k: nat, mid: string)
    requires Enabled(config, s, a)
    ensures Holds(Apply(config, s, a), k, mid) <==>
      (Holds(s, k, mid) && !(Moves(a, k) && LetsGo(s, a, mid))) || (Moves(a, k) && Claims(s, a, mid))
  {
    match a
    case Enqueue(x, to) =>
    case AckOutside(x) =>
    case Tick(d) =>
    case _ => if a.k != k { assert Holds(Apply(config, s, a), k, mid) <==> Holds(s, k, mid); }
  }

  predicate Moves(a: Act, k: nat) {
    !a.Enqueue? && !a.AckOutside? && !a.Tick? && a.k == k
  }

  lemma HeldStep(config: map<nat, Consumer>, s: Box, a: Act, mid: string)
    requires ConsumersOk(config, s.rows, s.pcs) && Enabled(config, s, a)
    ensures Held(Apply(config, s, a), mid) <==> (Held(s, mid) && !LetsGo(s, a, mid)) || Claims(s, a, mid)
  {
    var s' := Apply(config, s, a);
    forall k ensures Holds(s', k, mid) <==>
      (Holds(s, k, mid) && !(Moves(a, k) && LetsGo(s, a, mid))) || (Moves(a, k) && Claims(s, a, mid))
    {
      HoldsStep(config, s, a, k, mid);
    }
    if k :| Holds(s, k, mid) {
      assert LetsGo(s, a, mid) ==> a.k == k;
      assert Holds(s', k, mid) || LetsGo(s, a, mid);
    }
    if Claims(s, a, mid) { assert Holds(s', a.k, mid); }
    if k :| Holds(s', k, mid) {
      assert Holds(s, k, mid) || Claims(s, a, mid);
      assert Holds(s, k, mid) && LetsGo(s, a, mid) ==> Moves(a, k);
      assert Holds(s, k, mid) ==> Held(s, mid);
    }
  }

  /** A message is abandoned after a step exactly when it was before and is not acked from outside,
      or the step abandons it. */
  lemma AbandonedStep(config: map<nat, Consumer>, s: Box, a: Act, mid: string)
    requires UniqueMids(s.rows) && ConsumersOk(config, s.rows, s.pcs) && Enabled(config, s, a)
    ensures Abandoned(Apply(config, s, a), mid) <==>
      (Abandoned(s, mid) && a != AckOutside(mid)) || Abandons(s, a, mid)
  {
    LeasedStep(config, s, a, mid);
    HeldStep(config, s, a, mid);
    assert a.Finish? && Holds(s, a.k, mid) ==> Held(s, mid);
  }

  // ----- over runs

  /** Step i abandons the message, and nobody outside acks it before k. */
  ghost predicate AbandonedBy(r: Run, mid: string, i: nat, k: nat) {
    && i < k <= |r.acts| && k < |r.states| && Abandons(r.states[i], r.acts[i], mid)
    && forall j | i < j < k :: r.acts[j] != AckOutside(mid)
  }

  lemma {:induction false} AbandonedExactly(config: map<nat, Consumer>, r: Run, k: nat, mid: string)
    requires Execution(config, r) && k < |r.states|
    ensures Abandoned(r.states[k], mid) <==> exists i: nat :: AbandonedBy(r, mid, i, k)
  {
    if k > 0 {
      AbandonedExactly(config, r, k - 1, mid);
      InvAt(config, r, k - 1);
      assert StepOk(config, r, k - 1);
      AbandonedStep(config, r.states[k - 1], r.acts[k - 1], mid);
      ByOneMore(r, mid, k - 1, k);
    }
  }

  lemma ByOneMore(r: Run, mid: string, k: nat, k': nat)
    requires k' == k + 1 && k' <= |r.acts| && k' < |r.states|
    ensures (exists i: nat :: AbandonedBy(r, mid, i, k')) <==>
      || ((exists i: nat :: AbandonedBy(r, mid, i, k)) && r.acts[k] != AckOutside(mid))
      || Abandons(r.states[k], r.acts[k], mid)
  {
    forall i: nat | i < k
      ensures AbandonedBy(r, mid, i, k') <==> AbandonedBy(r, mid, i, k) && r.acts[k] != AckOutside(mid) {}
    assert AbandonedBy(r, mid, k, k') <==> Abandons(r.states[k], r.acts[k], mid);
    if i: nat :| AbandonedBy(r, mid, i, k) && r.acts[k] != AckOutside(mid) { assert AbandonedBy(r, mid, i, k'); }
  }

  lemma NobodyRecords(config: map<nat, Consumer>, s: Box, a: Act, mid: string)
    requires Enabled(config, s, a) && !Held(s, mid)
    ensures SameRecord(s, Apply(config, s, a), mid)
  {
    if Records(a) { assert !Holds(s, a.k, mid); }
    NothingAboutOthers(config, s, a, mid);
  }

  /** An abandoned message that nobody outside acks stays abandoned for good: its effect is not
      called (again), it is neither accepted nor rejected, and it is never acked. */
  lemma {:induction false} AbandonedForever(config: map<nat, Consumer>, r: Run, j: nat, k: nat, mid: string)
    requires Execution(config, r) && j <= k < |r.states| && Abandoned(r.states[j], mid)
    requires forall i | j <= i < k :: r.acts[i] != AckOutside(mid)
    ensures Abandoned(r.states[k], mid) && SameRecord(r.states[j], r.states[k], mid)
    decreases k
  {
    if j < k {
      AbandonedForever(config, r, j, k - 1, mid);
      InvAt(config, r, k - 1);
      assert StepOk(config, r, k - 1);
      AbandonedStep(config, r.states[k - 1], r.acts[k - 1], mid);
      NobodyRecords(config, r.states[k - 1], r.acts[k - 1], mid);
    }
  }

  /** A consumer that dies right after its claim loses the message before its effect was called. */
  lemma CrashLosesMessage() returns (config: map<nat, Consumer>, r: Run)
    ensures Execution(config, r) && r.acts == [Enqueue("m", "r"), Select(0), Claim(0), Crash(0)]
    ensures Abandoned(r.Last(), "m") && r.Last().calls["m"] == 0
  {
    config := map[0 := Consumer("r", "o", true, true)];
    var rows1 := [Row("m", "r", Queued, None, 0, "")];
    var rows3 := [Row("m", "r", Leased, Some(0), 1, "o")];
    var s0 := Box([], map[0 := Ready], 0, [], multiset{}, {}, {}, {}, {});
    var s1 := s0.(rows := rows1);
    var s2 := s1.(pcs := map[0 := Selected("m")]);
    var s3 := s2.(rows := rows3, pcs := map[0 := Claimed("m")], claims := [0]);
    var s4 := s3.(pcs := map[0 := Ready]);
    FirstSteps(config, s0, s1, s2);
    ClaimStep(config, s2, s3);
    CrashStep(config, s3, s4);
    r := FourSteps(config, s0, s1, s2, s3, s4);
  }

  lemma FourSteps(config: map<nat, Consumer>, s0: Box, s1: Box, s2: Box, s3: Box, s4: Box) returns (r: Run)
    requires Init(s0) && Apply(config, s0, Enqueue("m", "r")) == s1
    requires Enabled(config, s1, Select(0)) && Apply(config, s1, Select(0)) == s2
    requires Enabled(config, s2, Claim(0)) && Apply(config, s2, Claim(0)) == s3
    requires Enabled(config, s3, Crash(0)) && Apply(config, s3, Crash(0)) == s4
    ensures Execution(config, r) && r.acts == [Enqueue("m", "r"), Select(0), Claim(0), Crash(0)] && r.Last() == s4
  {
    r := Run([s0, s1, s2, s3, s4], [Enqueue("m", "r"), Select(0), Claim(0), Crash(0)]);
    assert StepOk(config, r, 0) && StepOk(config, r, 1) && StepOk(config, r, 2) && StepOk(config, r, 3);
  }

  lemma CrashStep(config: map<nat, Consumer>, s3: Box, s4: Box)
    requires 0 in config && s3.pcs == map[0 := Claimed("m")] && s4 == s3.(pcs := map[0 := Ready])
    requires s3.rows == [Row("m", "r", Leased, Some(0), 1, "o")]
    ensures Enabled(config, s3, Crash(0)) && Apply(config, s3, Crash(0)) == s4 && Abandoned(s4, "m")
  {
    assert s3.pcs[0 := Ready] == s4.pcs;
    assert s4.rows[0].mid == "m" && s4.rows[0].phase == Leased;
  }

  lemma FirstSteps(config: map<nat, Consumer>, s0: Box, s1: Box, s2: Box)
    requires config == map[0 := Consumer("r", "o", true, true)] && s0.rows == [] && s0.pcs == map[0 := Ready]
    requires s1 == s0.(rows := [Row("m", "r", Queued, None, 0, "")]) && s2 == s1.(pcs := map[0 := Selected("m")])
    ensures Apply(config, s0, Enqueue("m", "r")) == s1
    ensures Enabled(config, s1, Select(0)) && Apply(config, s1, Select(0)) == s2
  {
    assert s0.rows + s1.rows == s1.rows;
    assert Waits(s1.rows, 0, "r");
    assert Oldest(s1.rows, "r") == Some(0);
    assert s1.pcs[0 := Selected("m")] == s2.pcs;
  }

  lemma ClaimStep(config: map<nat, Consumer>, s2: Box, s3: Box)
    requires config == map[0 := Consumer("r", "o", true, true)]
    requires s2.rows == [Row("m", "r", Queued, None, 0, "")] && s2.pcs == map[0 := Selected("m")] && s2.now == 0 &&
      s2.claims == []
    requires s3 == s2.(rows := [Row("m", "r", Leased, Some(0), 1, "o")], pcs := map[0 := Claimed("m")], claims := [0])
    ensures Enabled(config, s2, Claim(0)) && Apply(config, s2, Claim(0)) == s3
  {
    assert s2.rows[0].mid == "m" && s2.rows[0].phase == Queued;
    assert Claimable(s2.rows, "m") && HasMid(s2.rows, "m");
    assert ClaimRows(s2.rows, "m", 0, "o") == s3.rows;
    assert s2.pcs[0 := Claimed("m")] == s3.pcs && s2.claims + [0] == s3.claims;
  }
}
