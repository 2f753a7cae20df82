/** What the mailbox keeps under every interleaving of consumers, enqueuers, outside acks and
    consumer crashes. */
module MailboxSafety {
  import opened Options
  import opened MailboxMachine

  // ----- what the statements do to the table

  lemma ClaimChanges(rows: seq<Row>, mid: string, now: int, owner: string)
    requires UniqueMids(rows) && Claimable(rows, mid)
    ensures HasMid(rows, mid)
    ensures var i := IdOf(rows, mid);
      && rows[i].phase == Queued
      && ClaimRows(rows, mid, now, owner) ==
           rows[i := rows[i].(phase := Leased, leased := Some(now), delivery := rows[i].delivery + 1, owner := owner)]
  {
    var i := IdOf(rows, mid);
    var j :| 0 <= j < |rows| && rows[j].mid == mid && rows[j].phase == Queued;
    assert i == j;
  }

  lemma AckChanges(rows: seq<Row>, mid: string)
    requires UniqueMids(rows)
    ensures |AckRows(rows, mid)| == |rows|
    ensures if HasMid(rows, mid)
      then var i := IdOf(rows, mid); AckRows(rows, mid) == rows[i := rows[i].(phase := Acked)]
      else AckRows(rows, mid) == rows
  {
    if HasMid(rows, mid) {
      var i := IdOf(rows, mid);
      assert forall j | 0 <= j < |rows| && j != i :: rows[j].mid != mid;
    } else {
      assert forall j | 0 <= j < |rows| :: rows[j].mid != mid;
      assert AckRows(rows, mid) == rows;
    }
  }

  /** How the table changes in one step: not at all, by a new last row, by a claim, or by an ack. */
  ghost predicate TableStep(rows: seq<Row>, rows': seq<Row>, now: int) {
    || rows' == rows
    || Appended(rows, rows')
    || (exists i: nat :: ClaimedAt(rows, rows', i, now))
    || (exists i: nat :: AckedAt(rows, rows', i))
  }

  ghost predicate Appended(rows: seq<Row>, rows': seq<Row>) {
    && |rows'| == |rows| + 1 && rows == rows'[..|rows|]
    && !HasMid(rows, rows'[|rows|].mid)
    && rows'[|rows|].phase == Queued && rows'[|rows|].delivery == 0 && rows'[|rows|].leased.None?
  }

  ghost predicate ClaimedAt(rows: seq<Row>, rows': seq<Row>, i: nat, now: int) {
    && i < |rows| == |rows'| && rows[i].phase == Queued
    && rows' == rows[i := rows'[i]]
    && rows'[i] == rows[i].(phase := Leased, leased := Some(now), delivery := rows[i].delivery + 1,
       owner := rows'[i].owner)
  }

  ghost predicate AckedAt(rows: seq<Row>, rows': seq<Row>, i: nat) {
    i < |rows| == |rows'| && rows' == rows[i := rows[i].(phase := Acked)]
  }

  lemma TableSteps(config: map<nat, Consumer>, s: Box, a: Act)
    requires UniqueMids(s.rows) && Enabled(config, s, a)
    ensures TableStep(s.rows, Apply(config, s, a).rows, s.now)
    ensures !a.Enqueue? && !a.Claim? && !a.Finish? && !a.AckOutside? ==> Apply(config, s, a).rows == s.rows
  {
    var rows' := Apply(config, s, a).rows;
    match a
    case Enqueue(mid, to) =>
      if !HasMid(s.rows, mid) { assert Appended(s.rows, rows'); }
    case Claim(k) =>
      var mid := s.pcs[k].mid;
      if Claimable(s.rows, mid) {
        ClaimChanges(s.rows, mid, s.now, config[k].owner);
        assert ClaimedAt(s.rows, rows', IdOf(s.rows, mid), s.now);
      }
    case Finish(k) =>
      AckStep(s.rows, s.pcs[k].mid);
    case AckOutside(mid) =>
      AckStep(s.rows, mid);
    case _ =>
  }

  lemma AckStep(rows: seq<Row>, mid: string)
    requires UniqueMids(rows)
    ensures AckRows(rows, mid) == rows || exists i: nat :: AckedAt(rows, AckRows(rows, mid), i)
  {
    AckChanges(rows, mid);
    if HasMid(rows, mid) { assert AckedAt(rows, AckRows(rows, mid), IdOf(rows, mid)); }
  }

  // ----- the table

  lemma UniqueKept(rows: seq<Row>, rows': seq<Row>, now: int)
    requires UniqueMids(rows) && TableStep(rows, rows', now)
    ensures UniqueMids(rows')
  {
    if Appended(rows, rows') {
      forall i, j | 0 <= i < j < |rows'| ensures rows'[i].mid != rows'[j].mid {
        assert rows'[i] == rows[i];
        if j < |rows| { assert rows'[j] == rows[j]; }
      }
    }
  }

  lemma RowsKept(rows: seq<Row>, rows': seq<Row>, now: int, now': int)
    requires TableOk(rows, now) && TableStep(rows, rows', now) && now <= now'
    ensures forall i | 0 <= i < |rows'| :: RowOk(rows'[i], now')
  {
    forall i | 0 <= i < |rows'| ensures RowOk(rows'[i], now') {
      if i < |rows| { assert RowOk(rows[i], now); }
    }
  }

  /** Messages never move, change recipient, or go back. */
  ghost predicate Onward(rows: seq<Row>, rows': seq<Row>) {
    && |rows| <= |rows'|
    && forall i | 0 <= i < |rows| :: RowOnward(rows[i], rows'[i])
  }

  function PhaseRank(p: Phase): nat {
    match p
    case Queued => 0
    case Leased => 1
    case Acked => 2
  }

  ghost predicate RowOnward(row: Row, row': Row) {
    && row'.mid == row.mid && row'.to == row.to
    && PhaseRank(row.phase) <= PhaseRank(row'.phase)
    && row.delivery <= row'.delivery
    && (row.leased.Some? ==> row'.leased == row.leased)
  }

  lemma StepIsOnward(rows: seq<Row>, rows': seq<Row>, now: int)
    requires TableOk(rows, now) && TableStep(rows, rows', now)
    ensures Onward(rows, rows')
  {
    forall i | 0 <= i < |rows| ensures RowOnward(rows[i], rows'[i]) {
      assert RowOk(rows[i], now);
    }
  }

  // ----- claims

  lemma ClaimsKeptByClaim(rows: seq<Row>, rows': seq<Row>, claims: seq<nat>, i: nat, now: int)
    requires TableOk(rows, now) && ClaimsOk(rows, claims) && ClaimedAt(rows, rows', i, now)
    requires forall j | 0 <= j < i :: !Waits(rows, j, rows[i].to)
    ensures ClaimsOk(rows', claims + [i])
  {
    assert RowOk(rows[i], now);
    assert Waits(rows, i, rows[i].to);
    var claims' := claims + [i];
    forall n | 0 <= n < |claims| ensures claims[n] != i {}
    forall j | 0 <= j < |rows'| && rows'[j].delivery == 1 ensures j in claims' {
      if j != i { assert rows[j].delivery == 1 && j in claims; } else { assert claims'[|claims|] == i; }
    }
    forall n, j | 0 <= n < |claims'| && Waits(rows', j, rows'[claims'[n]].to) ensures claims'[n] < j {
      assert Waits(rows, j, rows[claims'[n]].to);
    }
  }

  lemma ClaimsKept(config: map<nat, Consumer>, s: Box, a: Act)
    requires TableOk(s.rows, s.now) && ClaimsOk(s.rows, s.claims) && ConsumersOk(config, s.rows, s.pcs) &&
      Enabled(config, s, a)
    ensures ClaimsOk(Apply(config, s, a).rows, Apply(config, s, a).claims)
  {
    TableSteps(config, s, a);
    var s' := Apply(config, s, a);
    if a.Claim? && Claimable(s.rows, s.pcs[a.k].mid) {
      OldestIsClaimed(config, s, a.k);
      ClaimChanges(s.rows, s.pcs[a.k].mid, s.now, config[a.k].owner);
      ClaimsKeptByClaim(s.rows, s'.rows, s.claims, IdOf(s.rows, s.pcs[a.k].mid), s.now);
    } else {
      assert s'.claims == s.claims;
      NoClaimKeeps(s.rows, s'.rows, s.claims, s.now);
    }
  }

  lemma NoClaimKeeps(rows: seq<Row>, rows': seq<Row>, claims: seq<nat>, now: int)
    requires TableOk(rows, now) && ClaimsOk(rows, claims)
    requires rows' == rows || Appended(rows, rows') || exists i: nat :: AckedAt(rows, rows', i)
    ensures ClaimsOk(rows', claims)
  {
    forall j | 0 <= j < |rows'| && rows'[j].delivery == 1 ensures j in claims {
      assert rows[j].delivery == 1;
    }
    forall n, j | 0 <= n < |claims| && Waits(rows', j, rows'[claims[n]].to) ensures claims[n] < j {
      if j < |rows| { assert Waits(rows, j, rows[claims[n]].to); }
    }
  }

  /** When the compare-and-set succeeds, the row is the oldest queued one of the recipient. */
  lemma OldestIsClaimed(config: map<nat, Consumer>, s: Box, k: nat)
    requires UniqueMids(s.rows) && ConsumersOk(config, s.rows, s.pcs) && Enabled(config, s, Claim(k))
    requires Claimable(s.rows, s.pcs[k].mid)
    ensures HasMid(s.rows, s.pcs[k].mid)
    ensures var i := IdOf(s.rows, s.pcs[k].mid);
      Oldest(s.rows, config[k].recipient) == Some(i) && s.rows[i].to == config[k].recipient
  {
    var mid := s.pcs[k].mid;
    ClaimChanges(s.rows, mid, s.now, config[k].owner);
    var i: nat :| i < |s.rows| && s.rows[i].mid == mid && s.rows[i].to == config[k].recipient &&
                  forall j | 0 <= j < i :: !Waits(s.rows, j, config[k].recipient);
    assert i == IdOf(s.rows, mid);
    assert Waits(s.rows, i, config[k].recipient);
  }

  // ----- consumers

  lemma SelectionStays(rows: seq<Row>, rows': seq<Row>, to: string, mid: string)
    requires Onward(rows, rows') && SelectionOk(rows, to, mid)
    ensures SelectionOk(rows', to, mid)
  {
    var i: nat :| i < |rows| && rows[i].mid == mid && rows[i].to == to && forall j | 0 <= j < i :: !Waits(rows, j, to);
    assert RowOnward(rows[i], rows'[i]);
    forall j | 0 <= j < i ensures !Waits(rows', j, to) {
      assert RowOnward(rows[j], rows'[j]) && !Waits(rows, j, to);
    }
  }

  lemma DeliveredStays(rows: seq<Row>, rows': seq<Row>, mid: string, now: int)
    requires TableOk(rows, now) && TableStep(rows, rows', now) && Delivered(rows, mid)
    ensures Delivered(rows', mid)
  {
    StepIsOnward(rows, rows', now);
    RowsKept(rows, rows', now, now);
    var i :| 0 <= i < |rows| && rows[i].mid == mid && rows[i].delivery == 1;
    assert RowOnward(rows[i], rows'[i]) && RowOk(rows'[i], now);
  }

  /** A message that can be claimed was never delivered, so nobody holds it and nothing has been
      recorded about it. */
  lemma ClaimableIsFresh(rows: seq<Row>, mid: string, now: int)
    requires TableOk(rows, now) && Claimable(rows, mid)
    ensures !Delivered(rows, mid)
  {
    var i :| 0 <= i < |rows| && rows[i].mid == mid && rows[i].phase == Queued;
    assert RowOk(rows[i], now);
  }

  lemma NowDelivered(config: map<nat, Consumer>, s: Box, k: nat)
    requires TableOk(s.rows, s.now) && Enabled(config, s, Claim(k)) && Claimable(s.rows, s.pcs[k].mid)
    ensures Delivered(Apply(config, s, Claim(k)).rows, s.pcs[k].mid)
  {
    var mid := s.pcs[k].mid;
    ClaimChanges(s.rows, mid, s.now, config[k].owner);
    var i := IdOf(s.rows, mid);
    assert RowOk(s.rows[i], s.now);
    var rows' := Apply(config, s, Claim(k)).rows;
    assert rows'[i].mid == mid && rows'[i].delivery == 1;
  }

  lemma SelectionsKept(config: map<nat, Consumer>, s: Box, a: Act, k: nat)
    requires TableOk(s.rows, s.now) && ConsumersOk(config, s.rows, s.pcs) && Enabled(config, s, a)
    requires k in Apply(config, s, a).pcs && Apply(config, s, a).pcs[k].Selected?
    ensures k in config && SelectionOk(Apply(config, s, a).rows, config[k].recipient, Apply(config, s, a).pcs[k].mid)
  {
    TableSteps(config, s, a);
    var s' := Apply(config, s, a);
    if a == Select(k) && Oldest(s.rows, config[k].recipient).Some? {
      var i := Oldest(s.rows, config[k].recipient).value;
      assert Waits(s.rows, i, config[k].recipient);
    } else {
      assert k in s.pcs && s.pcs[k] == s'.pcs[k];
      StepIsOnward(s.rows, s'.rows, s.now);
      SelectionStays(s.rows, s'.rows, config[k].recipient, s.pcs[k].mid);
    }
  }

  lemma HeldIsDelivered(config: map<nat, Consumer>, s: Box, a: Act, k: nat)
    requires TableOk(s.rows, s.now) && ConsumersOk(config, s.rows, s.pcs) && Enabled(config, s, a)
    requires var s' := Apply(config, s, a); k in s'.pcs && !s'.pcs[k].Ready? && !s'.pcs[k].Selected?
    ensures Delivered(Apply(config, s, a).rows, Apply(config, s, a).pcs[k].mid)
  {
    TableSteps(config, s, a);
    if a == Claim(k) {
      NowDelivered(config, s, k);
    } else {
      DeliveredStays(s.rows, Apply(config, s, a).rows, s.pcs[k].mid, s.now);
    }
  }

  lemma HeldByOne(config: map<nat, Consumer>, s: Box, a: Act, k: nat, l: nat)
    requires TableOk(s.rows, s.now) && ConsumersOk(config, s.rows, s.pcs) && Enabled(config, s, a)
    requires var s' := Apply(config, s, a);
      k in s'.pcs && l in s'.pcs && k != l && !s'.pcs[k].Ready? && !s'.pcs[k].Selected?
    ensures !Holding(Apply(config, s, a).pcs[l], Apply(config, s, a).pcs[k].mid)
  {
    if a.Claim? && Claimable(s.rows, s.pcs[a.k].mid) { ClaimableIsFresh(s.rows, s.pcs[a.k].mid, s.now); }
  }

  lemma ConsumersKept(config: map<nat, Consumer>, s: Box, a: Act)
    requires TableOk(s.rows, s.now) && ConsumersOk(config, s.rows, s.pcs) && Enabled(config, s, a)
    ensures ConsumersOk(config, Apply(config, s, a).rows, Apply(config, s, a).pcs)
  {
    var s' := Apply(config, s, a);
    forall k | k in s'.pcs && s'.pcs[k].Selected?
      ensures k in config && SelectionOk(s'.rows, config[k].recipient, s'.pcs[k].mid)
    {
      SelectionsKept(config, s, a, k);
    }
    forall k | k in s'.pcs && !s'.pcs[k].Ready? && !s'.pcs[k].Selected? ensures Delivered(s'.rows, s'.pcs[k].mid) {
      HeldIsDelivered(config, s, a, k);
    }
    forall k, l | k in s'.pcs && l in s'.pcs && k != l && !s'.pcs[k].Ready? && !s'.pcs[k].Selected?
      ensures !Holding(s'.pcs[l], s'.pcs[k].mid)
    {
      HeldByOne(config, s, a, k, l);
    }
  }

  lemma CallsKept(config: map<nat, Consumer>, s: Box, a: Act)
    requires ReasonsOk(s) && Enabled(config, s, a)
    ensures forall mid :: Apply(config, s, a).calls[mid] <= 1
  {
    if a.Call? { assert s.pcs[a.k].mid !in s.calls; }
  }

  /** The steps that record something about the message a consumer holds. */
  predicate Records(a: Act) {
    a.Judge? || a.Call? || a.CallReturns?
  }

  ghost predicate Recorded(s: Box, mid: string) {
    mid in s.calls || mid in s.failed || mid in s.succeeded || mid in s.rejected
  }

  /** The same calls of its effect, success, rejection and failure. */
  ghost predicate SameRecord(s: Box, s': Box, mid: string) {
    && s'.calls[mid] == s.calls[mid]
    && (mid in s'.succeeded <==> mid in s.succeeded)
    && (mid in s'.rejected <==> mid in s.rejected)
    && (mid in s'.failed <==> mid in s.failed)
  }

  lemma RecordedKept(config: map<nat, Consumer>, s: Box, a: Act, mid: string)
    requires TableOk(s.rows, s.now) && ConsumersOk(config, s.rows, s.pcs) && ReasonsOk(s) && Enabled(config, s, a)
    requires Recorded(Apply(config, s, a), mid)
    ensures Delivered(Apply(config, s, a).rows, mid)
  {
    TableSteps(config, s, a);
    if !Recorded(s, mid) { assert Records(a) && s.pcs[a.k].mid == mid; }
    DeliveredStays(s.rows, Apply(config, s, a).rows, mid, s.now);
  }

  /** Only the consumer that holds a message records anything about it. */
  lemma HeldStaysFresh(config: map<nat, Consumer>, s: Box, a: Act, k: nat)
    requires TableOk(s.rows, s.now) && ConsumersOk(config, s.rows, s.pcs) && ReasonsOk(s) && Enabled(config, s, a)
    requires var s' := Apply(config, s, a); k in s'.pcs && (s'.pcs[k].Claimed? || s'.pcs[k].Approved?)
    ensures !Recorded(Apply(config, s, a), Apply(config, s, a).pcs[k].mid)
  {
    var s' := Apply(config, s, a);
    var mid := s'.pcs[k].mid;
    if a == Claim(k) {
      ClaimIsFresh(config, s, k);
    } else {
      HeldBefore(config, s, a, k);
      NotRecordedByOthers(config, s, a, k, mid);
    }
  }

  lemma NotRecordedByOthers(config: map<nat, Consumer>, s: Box, a: Act, k: nat, mid: string)
    requires ConsumersOk(config, s.rows, s.pcs) && ReasonsOk(s) && Enabled(config, s, a)
    requires k in s.pcs && (s.pcs[k].Claimed? || s.pcs[k].Approved?) && s.pcs[k].mid == mid
    requires var s' := Apply(config, s, a); k in s'.pcs && (s'.pcs[k].Claimed? || s'.pcs[k].Approved?)
    ensures !Recorded(Apply(config, s, a), mid)
  {
    assert !Recorded(s, mid);
    if Records(a) {
      if a.k == k {
        assert a == Judge(k, true);
      } else {
        assert !Holding(s.pcs[a.k], mid);
        NothingAboutOthers(config, s, a, mid);
      }
    } else {
      NothingAboutOthers(config, s, a, mid);
    }
  }

  /** A step records something only about the message its consumer holds. */
  lemma NothingAboutOthers(config: map<nat, Consumer>, s: Box, a: Act, mid: string)
    requires Enabled(config, s, a) && !(Records(a) && s.pcs[a.k].mid == mid)
    ensures SameRecord(s, Apply(config, s, a), mid)
  {
  }

  lemma HeldBefore(config: map<nat, Consumer>, s: Box, a: Act, k: nat)
    requires Enabled(config, s, a) && a != Claim(k)
    requires var s' := Apply(config, s, a); k in s'.pcs && (s'.pcs[k].Claimed? || s'.pcs[k].Approved?)
    ensures k in s.pcs && (s.pcs[k].Claimed? || s.pcs[k].Approved?) && s.pcs[k].mid == Apply(config, s, a).pcs[k].mid
  {
  }

  lemma ClaimIsFresh(config: map<nat, Consumer>, s: Box, k: nat)
    requires TableOk(s.rows, s.now) && ReasonsOk(s) && Enabled(config, s, Claim(k))
    requires var s' := Apply(config, s, Claim(k)); s'.pcs[k].Claimed?
    ensures !Recorded(Apply(config, s, Claim(k)), Apply(config, s, Claim(k)).pcs[k].mid)
  {
    var mid := s.pcs[k].mid;
    ClaimableIsFresh(s.rows, mid, s.now);
    assert !Recorded(s, mid);
  }

  /** Only its own steps move a consumer that is called or finishing. */
  lemma PcBefore(config: map<nat, Consumer>, s: Box, a: Act, k: nat)
    requires Enabled(config, s, a) && !(Records(a) && a.k == k)
    requires var s' := Apply(config, s, a); k in s'.pcs && (s'.pcs[k].Called? || s'.pcs[k].Finishing?)
    ensures k in s.pcs && s.pcs[k] == Apply(config, s, a).pcs[k]
  {
  }

  lemma CalledIsOpen(config: map<nat, Consumer>, s: Box, a: Act, k: nat)
    requires ConsumersOk(config, s.rows, s.pcs) && ReasonsOk(s) && Enabled(config, s, a)
    requires var s' := Apply(config, s, a); k in s'.pcs && s'.pcs[k].Called?
    ensures var s' := Apply(config, s, a); var mid := s'.pcs[k].mid;
      mid in s'.calls && mid !in s'.failed && mid !in s'.succeeded && mid !in s'.rejected
  {
    var mid := Apply(config, s, a).pcs[k].mid;
    if Records(a) && a.k == k {
      assert !Recorded(s, mid);
    } else {
      PcBefore(config, s, a, k);
      if Records(a) { assert !Holding(s.pcs[a.k], mid); }
    }
  }

  lemma FinishingHasReason(config: map<nat, Consumer>, s: Box, a: Act, k: nat)
    requires ConsumersOk(config, s.rows, s.pcs) && ReasonsOk(s) && Enabled(config, s, a)
    requires var s' := Apply(config, s, a); k in s'.pcs && s'.pcs[k].Finishing?
    ensures var s' := Apply(config, s, a); var mid := s'.pcs[k].mid;
      (mid in s'.succeeded || mid in s'.rejected) && mid !in s'.failed
  {
    var mid := Apply(config, s, a).pcs[k].mid;
    if Records(a) && a.k == k {
      assert !Recorded(s, mid) || s.pcs[k].Called?;
    } else {
      PcBefore(config, s, a, k);
      if Records(a) { assert !Holding(s.pcs[a.k], mid); }
    }
  }

  lemma FailedKept(config: map<nat, Consumer>, s: Box, a: Act, mid: string)
    requires ConsumersOk(config, s.rows, s.pcs) && ReasonsOk(s) && Enabled(config, s, a)
    ensures mid in Apply(config, s, a).failed ==>
      mid !in Apply(config, s, a).succeeded && mid !in Apply(config, s, a).rejected
    ensures mid in Apply(config, s, a).rejected ==> mid !in Apply(config, s, a).calls
  {
    if Records(a) && s.pcs[a.k].mid == mid {
      match a
      case Judge(k, _) => assert !Recorded(s, mid);
      case Call(k) => assert !Recorded(s, mid);
      case CallReturns(k, _) => assert mid !in s.rejected && mid !in s.succeeded && mid !in s.failed;
    } else {
      NothingAboutOthers(config, s, a, mid);
    }
  }

  lemma AcksHaveReasons(config: map<nat, Consumer>, s: Box, a: Act, i: nat)
    requires UniqueMids(s.rows) && ReasonsOk(s) && Enabled(config, s, a)
    requires i < |Apply(config, s, a).rows| && Apply(config, s, a).rows[i].phase == Acked
    ensures var s' := Apply(config, s, a); var mid := s'.rows[i].mid;
      mid in s'.succeeded || mid in s'.rejected || mid in s'.ackedOutside
  {
    AckedBefore(config, s, a, i);
    assert i < |s.rows| && s.rows[i].phase == Acked ==>
      s.rows[i].mid in s.succeeded || s.rows[i].mid in s.rejected || s.rows[i].mid in s.ackedOutside;
  }

  /** A row is acked because it was before, or by the step's own ack. */
  lemma AckedBefore(config: map<nat, Consumer>, s: Box, a: Act, i: nat)
    requires UniqueMids(s.rows) && Enabled(config, s, a)
    requires i < |Apply(config, s, a).rows| && Apply(config, s, a).rows[i].phase == Acked
    ensures i < |s.rows| && Apply(config, s, a).rows[i].mid == s.rows[i].mid
    ensures || s.rows[i].phase == Acked
            || (a.Finish? && s.rows[i].mid == s.pcs[a.k].mid)
            || (a.AckOutside? && s.rows[i].mid == a.mid)
  {
    TableSteps(config, s, a);
    match a
    case Finish(k) => AckChanges(s.rows, s.pcs[k].mid);
    case AckOutside(mid) => AckChanges(s.rows, mid);
    case Claim(k) => if Claimable(s.rows, s.pcs[k].mid) { ClaimChanges(s.rows, s.pcs[k].mid, s.now, config[k].owner); }
    case _ =>
  }

  lemma ReasonsKept(config: map<nat, Consumer>, s: Box, a: Act)
    requires TableOk(s.rows, s.now) && ConsumersOk(config, s.rows, s.pcs) && ReasonsOk(s) && Enabled(config, s, a)
    ensures ReasonsOk(Apply(config, s, a))
  {
    var s' := Apply(config, s, a);
    CallsKept(config, s, a);
    forall mid | Recorded(s', mid) ensures Delivered(s'.rows, mid) { RecordedKept(config, s, a, mid); }
    forall k | k in s'.pcs && (s'.pcs[k].Claimed? || s'.pcs[k].Approved?) ensures !Recorded(s', s'.pcs[k].mid) {
      HeldStaysFresh(config, s, a, k);
    }
    forall k | k in s'.pcs && s'.pcs[k].Called?
      ensures var mid := s'.pcs[k].mid;
        mid in s'.calls && mid !in s'.failed && mid !in s'.succeeded && mid !in s'.rejected
    {
      CalledIsOpen(config, s, a, k);
    }
    forall k | k in s'.pcs && s'.pcs[k].Finishing?
      ensures (s'.pcs[k].mid in s'.succeeded || s'.pcs[k].mid in s'.rejected) && s'.pcs[k].mid !in s'.failed
    {
      FinishingHasReason(config, s, a, k);
    }
    forall mid
      ensures mid in s'.failed ==> mid !in s'.succeeded && mid !in s'.rejected
      ensures mid in s'.rejected ==> mid !in s'.calls
    {
      FailedKept(config, s, a, mid);
    }
    forall i | 0 <= i < |s'.rows| && s'.rows[i].phase == Acked
      ensures s'.rows[i].mid in s'.succeeded || s'.rows[i].mid in s'.rejected || s'.rows[i].mid in s'.ackedOutside
    {
      AcksHaveReasons(config, s, a, i);
    }
  }

  lemma InvKept(config: map<nat, Consumer>, s: Box, a: Act)
    requires Inv(config, s) && Enabled(config, s, a)
    ensures Inv(config, Apply(config, s, a))
  {
    var s' := Apply(config, s, a);
    TableSteps(config, s, a);
    UniqueKept(s.rows, s'.rows, s.now);
    RowsKept(s.rows, s'.rows, s.now, s'.now);
    ClaimsKept(config, s, a);
    ConsumersKept(config, s, a);
    ReasonsKept(config, s, a);
  }

  lemma {:induction false} InvAt(config: map<nat, Consumer>, r: Run, k: nat)
    requires Execution(config, r) && k < |r.states|
    ensures Inv(config, r.states[k])
  {
    if k > 0 {
      InvAt(config, r, k - 1);
      assert StepOk(config, r, k - 1);
      InvKept(config, r.states[k - 1], r.acts[k - 1]);
    }
  }

  // ----- the results, over whole runs

  /** The ids queued for a recipient. */
  ghost function QueueOf(rows: seq<Row>, to: string): set<nat> {
    set i: nat | i < |rows| && Waits(rows, i, to)
  }

  ghost predicate PoppedOldest(s: Box, s': Box, to: string, i: nat) {
    && i in QueueOf(s.rows, to)
    && (forall j | j in QueueOf(s.rows, to) :: i <= j)
    && s'.claims == s.claims + [i]
    && forall x :: QueueOf(s'.rows, x) == QueueOf(s.rows, x) - {i}
  }

  /** The specification: a first-in first-out queue per recipient with a pop that may find
      nothing, and removal by outside acks. */
  ghost predicate QueueStep(config: map<nat, Consumer>, s: Box, a: Act, s': Box) {
    match a
    case Claim(k) =>
      || (s'.claims == s.claims && forall to :: QueueOf(s'.rows, to) == QueueOf(s.rows, to))
      || (k in config && exists i: nat :: PoppedOldest(s, s', config[k].recipient, i))
    case Enqueue(mid, to) =>
      s'.claims == s.claims && forall x ::
        QueueOf(s'.rows, x) ==
          if x == to && !HasMid(s.rows, mid) then QueueOf(s.rows, x) + {|s.rows|} else QueueOf(s.rows, x)
    case AckOutside(mid) =>
      s'.claims == s.claims &&
      forall to :: QueueOf(s'.rows, to) == set i | i in QueueOf(s.rows, to) && s.rows[i].mid != mid
    case _ =>
      s'.claims == s.claims && forall to :: QueueOf(s'.rows, to) == QueueOf(s.rows, to)
  }

  lemma QueuesSame(rows: seq<Row>, rows': seq<Row>, i: nat)
    requires i < |rows| == |rows'| && rows' == rows[i := rows'[i]]
    requires rows'[i].to == rows[i].to && rows'[i].phase != Queued
    ensures forall to :: QueueOf(rows', to) == QueueOf(rows, to) - {i}
  {
    forall to ensures QueueOf(rows', to) == QueueOf(rows, to) - {i} {
      assert forall j: nat :: Waits(rows', j, to) <==> Waits(rows, j, to) && j != i;
    }
  }

  lemma ClaimPops(config: map<nat, Consumer>, s: Box, k: nat)
    requires Inv(config, s) && Enabled(config, s, Claim(k))
    ensures QueueStep(config, s, Claim(k), Apply(config, s, Claim(k)))
  {
    if Claimable(s.rows, s.pcs[k].mid) {
      OldestIsClaimed(config, s, k);
      ClaimChanges(s.rows, s.pcs[k].mid, s.now, config[k].owner);
      var i := IdOf(s.rows, s.pcs[k].mid);
      var s' := Apply(config, s, Claim(k));
      QueuesSame(s.rows, s'.rows, i);
      assert PoppedOldest(s, s', config[k].recipient, i);
    }
  }

  lemma FinishKeepsQueues(config: map<nat, Consumer>, s: Box, k: nat)
    requires Inv(config, s) && Enabled(config, s, Finish(k))
    ensures QueueStep(config, s, Finish(k), Apply(config, s, Finish(k)))
  {
    AckQueues(s.rows, s.pcs[k].mid);
    HeldNotQueued(config, s, k);
    var rows' := Apply(config, s, Finish(k)).rows;
    forall to ensures QueueOf(rows', to) == QueueOf(s.rows, to) {}
  }

  /** Taken together, the SELECT and the compare-and-set are an atomic pop-or-nothing, whatever
      other processes do in between; every other step leaves the queues as the specification says. */
  lemma StepRefinesQueue(config: map<nat, Consumer>, s: Box, a: Act)
    requires Inv(config, s) && Enabled(config, s, a)
    ensures QueueStep(config, s, a, Apply(config, s, a))
  {
    match a
    case Claim(k) => ClaimPops(config, s, k);
    case Enqueue(mid, to) =>
      if !HasMid(s.rows, mid) {
        TableSteps(config, s, a);
        AppendQueues(s.rows, Apply(config, s, a).rows, to);
      }
    case AckOutside(mid) => AckQueues(s.rows, mid);
    case Finish(k) => FinishKeepsQueues(config, s, k);
    case _ =>
  }

  lemma AppendQueues(rows: seq<Row>, rows': seq<Row>, to: string)
    requires Appended(rows, rows') && rows'[|rows|].to == to
    ensures forall x :: QueueOf(rows', x) == if x == to then QueueOf(rows, x) + {|rows|} else QueueOf(rows, x)
  {
    forall x ensures QueueOf(rows', x) == if x == to then QueueOf(rows, x) + {|rows|} else QueueOf(rows, x) {
      forall j: nat ensures Waits(rows', j, x) <==> Waits(rows, j, x) || (j == |rows| && x == to) {
        if j < |rows| { assert rows'[..|rows|][j] == rows'[j]; }
      }
    }
  }

  lemma AckQueues(rows: seq<Row>, mid: string)
    requires UniqueMids(rows)
    ensures forall to :: QueueOf(AckRows(rows, mid), to) == set i | i in QueueOf(rows, to) && rows[i].mid != mid
  {
    forall to ensures QueueOf(AckRows(rows, mid), to) == set i | i in QueueOf(rows, to) && rows[i].mid != mid {
      assert forall i: nat | i < |rows| :: Waits(AckRows(rows, mid), i, to) <==>
        Waits(rows, i, to) && rows[i].mid != mid;
    }
  }

  lemma HeldNotQueued(config: map<nat, Consumer>, s: Box, k: nat)
    requires Inv(config, s) && k in s.pcs && s.pcs[k].Finishing?
    ensures forall to, i | i in QueueOf(s.rows, to) :: s.rows[i].mid != s.pcs[k].mid
  {
    var d :| 0 <= d < |s.rows| && s.rows[d].mid == s.pcs[k].mid && s.rows[d].delivery == 1;
    assert RowOk(s.rows[d], s.now);
  }

  /** No row is claimed twice, by anyone, and each recipient's rows are claimed in increasing id order. */
  lemma ClaimedOnceInOrder(config: map<nat, Consumer>, r: Run, k: nat, m: nat, n: nat)
    requires Execution(config, r) && k < |r.states| && m < n < |r.states[k].claims|
    ensures var s := r.states[k];
      && s.claims[m] < |s.rows| && s.claims[n] < |s.rows| && s.claims[m] != s.claims[n]
      && s.rows[s.claims[m]].delivery == 1
      && (s.rows[s.claims[m]].to == s.rows[s.claims[n]].to ==> s.claims[m] < s.claims[n])
  {
    InvAt(config, r, k);
  }

  /** Over all consumers and restarts: a message is acked only if its authority rejected it, its
      effect went through first, or somebody outside acked it; its effect is called at most once,
      and never after a rejection; if it was called and did not succeed, because it failed or its
      consumer died, and nobody outside acked it, the message is still leased. */
  lemma EffectSafety(config: map<nat, Consumer>, r: Run, k: nat, i: nat)
    requires Execution(config, r) && k < |r.states| && i < |r.states[k].rows|
    ensures var s := r.states[k]; var row := s.rows[i];
      && (row.phase == Acked ==> row.mid in s.rejected || row.mid in s.succeeded || row.mid in s.ackedOutside)
      && s.calls[row.mid] <= 1
      && (row.mid in s.failed && row.mid !in s.ackedOutside ==> row.phase == Leased)
      && (row.mid in s.calls && row.mid !in s.succeeded && row.mid !in s.ackedOutside ==> row.phase == Leased)
      && (row.mid in s.rejected ==> row.mid !in s.calls)
  {
    InvAt(config, r, k);
    var s := r.states[k];
    if s.rows[i].mid in s.failed || s.rows[i].mid in s.calls {
      assert Delivered(s.rows, s.rows[i].mid);
      assert RowOk(s.rows[i], s.now);
    }
  }

  lemma {:induction false} OnwardAll(config: map<nat, Consumer>, r: Run, j: nat, k: nat)
    requires Execution(config, r) && j <= k < |r.states|
    ensures Onward(r.states[j].rows, r.states[k].rows)
    decreases k
  {
    if j < k {
      OnwardAll(config, r, j, k - 1);
      InvAt(config, r, k - 1);
      assert StepOk(config, r, k - 1);
      TableSteps(config, r.states[k - 1], r.acts[k - 1]);
      StepIsOnward(r.states[k - 1].rows, r.states[k].rows, r.states[k - 1].now);
      forall i | 0 <= i < |r.states[j].rows| ensures RowOnward(r.states[j].rows[i], r.states[k].rows[i]) {
        assert RowOnward(r.states[j].rows[i], r.states[k - 1].rows[i]);
      }
    }
  }

  /** Conservation: every message ever enqueued sits in exactly one row for good, and its phase
      only moves forward; so enqueuing an acked id again never revives it. */
  lemma Conservation(config: map<nat, Consumer>, r: Run, j: nat, k: nat, mid: string)
    requires Execution(config, r) && j < k < |r.states|
    requires exists to :: r.acts[j] == Enqueue(mid, to)
    ensures var rows := r.states[k].rows;
      HasMid(rows, mid) && forall i | 0 <= i < |rows| && rows[i].mid == mid :: i == IdOf(rows, mid)
    ensures HasMid(r.states[j].rows, mid) ==>
      var i := IdOf(r.states[j].rows, mid);
      i == IdOf(r.states[k].rows, mid) && PhaseRank(r.states[j].rows[i].phase) <= PhaseRank(r.states[k].rows[i].phase)
  {
    assert StepOk(config, r, j);
    InvAt(config, r, k);
    var rows1 := r.states[j + 1].rows;
    assert HasMid(rows1, mid) by {
      if !HasMid(r.states[j].rows, mid) { assert rows1[|r.states[j].rows|].mid == mid; }
    }
    OnwardAll(config, r, j + 1, k);
    OnwardAll(config, r, j, k);
    var i := IdOf(rows1, mid);
    assert RowOnward(rows1[i], r.states[k].rows[i]);
    if HasMid(r.states[j].rows, mid) {
      var h := IdOf(r.states[j].rows, mid);
      assert RowOnward(r.states[j].rows[h], r.states[k].rows[h]);
    }
  }
}
