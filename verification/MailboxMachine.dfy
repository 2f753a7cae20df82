/** The durable mailbox as a state machine: one envelope table shared by any number of consumer
    processes.  Each action is one SQL statement or one call of a consumer's authority or effect;
    a consumer may crash before any of them and start over. */
module MailboxMachine {
  import opened Options

  /** The acked column: 0, -1 and 1. */
  datatype Phase = Queued | Leased | Acked

  /** One envelope; its id is its position in the table.  `leased` is the instant of the claim in
      nanoseconds (the column keeps the seconds). */
  datatype Row = Row(mid: string, to: string, phase: Phase, leased: Option<int>, delivery: nat, owner: string)

  datatype Consumer = Consumer(recipient: string, owner: string, hasAuthority: bool, hasEffect: bool)

  /** Where a consumer is inside ProcessOne. */
  datatype Pc =
    | Ready
    | Selected(mid: string)
    | Claimed(mid: string)
    | Approved(mid: string)
    | Called(mid: string)
    | Finishing(mid: string)

  /** `rows` is durable.  The rest: the consumers' control state, the clock, and history — the
      claimed rows in claim order, effect calls by message, and why messages were acked. */
  datatype Box = Box(
    rows: seq<Row>,
    pcs: map<nat, Pc>,
    now: int,
    claims: seq<nat>,
    calls: multiset<string>,
    succeeded: set<string>,
    rejected: set<string>,
    failed: set<string>,
    ackedOutside: set<string>)

  datatype Act =
    | Enqueue(mid: string, to: string)
    | Select(k: nat)
    | Claim(k: nat)
    | Judge(k: nat, accept: bool)
    | Call(k: nat)
    | CallReturns(k: nat, ok: bool)
    | Finish(k: nat)
    | FinishError(k: nat)
    | Crash(k: nat)
    | AckOutside(mid: string)
    | Tick(d: nat)

  predicate HasMid(rows: seq<Row>, mid: string) {
    exists i :: 0 <= i < |rows| && rows[i].mid == mid
  }

  predicate Waits(rows: seq<Row>, i: int, to: string) {
    0 <= i < |rows| && rows[i].phase == Queued && rows[i].to == to
  }

  /** SELECT message_id ... WHERE recipient=? AND acked=0 ORDER BY id LIMIT 1. */
  function Oldest(rows: seq<Row>, to: string): (r: Option<nat>)
    ensures r.Some? ==> Waits(rows, r.value, to) && forall i | 0 <= i < r.value :: !Waits(rows, i, to)
    ensures r.None? ==> forall i :: !Waits(rows, i, to)
  {
    OldestFrom(rows, to, 0)
  }

  function OldestFrom(rows: seq<Row>, to: string, k: nat): (r: Option<nat>)
    requires k <= |rows|
    ensures r.Some? ==> k <= r.value && Waits(rows, r.value, to) && forall i | k <= i < r.value :: !Waits(rows, i, to)
    ensures r.None? ==> forall i | k <= i :: !Waits(rows, i, to)
    decreases |rows| - k
  {
    if k == |rows| then None
    else if Waits(rows, k, to) then Some(k)
    else OldestFrom(rows, to, k + 1)
  }

  /** The compare-and-set: only a row that is still queued is claimed. */
  function ClaimRows(rows: seq<Row>, mid: string, now: int, owner: string): seq<Row> {
    seq(|rows|, i requires 0 <= i < |rows| =>
      if rows[i].mid == mid && rows[i].phase == Queued
      then rows[i].(phase := Leased, leased := Some(now), delivery := rows[i].delivery + 1, owner := owner)
      else rows[i])
  }

  function AckRows(rows: seq<Row>, mid: string): seq<Row> {
    seq(|rows|, i requires 0 <= i < |rows| =>
      if rows[i].mid == mid && rows[i].phase != Acked then rows[i].(phase := Acked) else rows[i])
  }

  predicate Claimable(rows: seq<Row>, mid: string) {
    exists i :: 0 <= i < |rows| && rows[i].mid == mid && rows[i].phase == Queued
  }

  /** Position of a message in the table. */
  function IdOf(rows: seq<Row>, mid: string): (i: nat)
    requires HasMid(rows, mid)
    ensures i < |rows| && rows[i].mid == mid
  {
    if rows[0].mid == mid then 0
    else
      assert HasMid(rows[1..], mid) by {
        var i :| 0 <= i < |rows| && rows[i].mid == mid;
        assert rows[1..][i - 1] == rows[i];
      }
      1 + IdOf(rows[1..], mid)
  }

  predicate Enabled(config: map<nat, Consumer>, s: Box, a: Act) {
    match a
    case Enqueue(mid, to) => true
    case Select(k) => k in config && k in s.pcs && s.pcs[k] == Ready
    case Claim(k) => k in config && k in s.pcs && s.pcs[k].Selected?
    case Judge(k, accept) => k in config && k in s.pcs && s.pcs[k].Claimed? && (!config[k].hasAuthority ==> accept)
    case Call(k) => k in config && k in s.pcs && s.pcs[k].Approved?
    case CallReturns(k, ok) => k in config && k in s.pcs && s.pcs[k].Called?
    case Finish(k) => k in config && k in s.pcs && s.pcs[k].Finishing?
    case FinishError(k) => k in config && k in s.pcs && s.pcs[k].Finishing?
    case Crash(k) => k in config && k in s.pcs
    case AckOutside(mid) => true
    case Tick(d) => true
  }

  function Apply(config: map<nat, Consumer>, s: Box, a: Act): Box
    requires Enabled(config, s, a)
  {
    match a
    case Enqueue(mid, to) =>
      if HasMid(s.rows, mid) then s
      else s.(rows := s.rows + [Row(mid, to, Queued, None, 0, "")])
    case Select(k) =>
      var r := Oldest(s.rows, config[k].recipient);
      if r.None? then s else s.(pcs := s.pcs[k := Selected(s.rows[r.value].mid)])
    case Claim(k) =>
      var mid := s.pcs[k].mid;
      if Claimable(s.rows, mid) then
        s.(rows := ClaimRows(s.rows, mid, s.now, config[k].owner), pcs := s.pcs[k := Claimed(mid)],
           claims := s.claims + [IdOf(s.rows, mid)])
      else s.(pcs := s.pcs[k := Ready])
    case Judge(k, accept) =>
      var mid := s.pcs[k].mid;
      if accept then s.(pcs := s.pcs[k := Approved(mid)])
      else s.(pcs := s.pcs[k := Finishing(mid)], rejected := s.rejected + {mid})
    case Call(k) =>
      var mid := s.pcs[k].mid;
      if config[k].hasEffect then s.(pcs := s.pcs[k := Called(mid)], calls := s.calls + multiset{mid})
      else s.(pcs := s.pcs[k := Finishing(mid)], succeeded := s.succeeded + {mid})
    case CallReturns(k, ok) =>
      var mid := s.pcs[k].mid;
      if ok then s.(pcs := s.pcs[k := Finishing(mid)], succeeded := s.succeeded + {mid})
      else s.(pcs := s.pcs[k := Ready], failed := s.failed + {mid})
    case Finish(k) =>
      s.(rows := AckRows(s.rows, s.pcs[k].mid), pcs := s.pcs[k := Ready])
    case FinishError(k) =>
      s.(pcs := s.pcs[k := Ready])
    case Crash(k) =>
      s.(pcs := s.pcs[k := Ready])
    case AckOutside(mid) =>
      s.(rows := AckRows(s.rows, mid), ackedOutside := s.ackedOutside + {mid})
    case Tick(d) =>
      s.(now := s.now + d)
  }

  ghost predicate Init(s: Box) {
    && s == Box([], s.pcs, s.now, [], multiset{}, {}, {}, {}, {})
    && forall k | k in s.pcs :: s.pcs[k] == Ready
  }

  datatype Run = Run(states: seq<Box>, acts: seq<Act>) {
    function Last(): Box requires |states| > 0 { states[|states| - 1] }
  }

  ghost predicate StepOk(config: map<nat, Consumer>, r: Run, k: nat)
    requires k < |r.acts| < |r.states|
  {
    Enabled(config, r.states[k], r.acts[k]) && r.states[k + 1] == Apply(config, r.states[k], r.acts[k])
  }

  ghost predicate Execution(config: map<nat, Consumer>, r: Run) {
    && |r.states| == |r.acts| + 1
    && Init(r.states[0])
    && forall k | 0 <= k < |r.acts| :: StepOk(config, r, k)
  }

  // ----- table invariants

  ghost predicate UniqueMids(rows: seq<Row>) {
    forall i, j | 0 <= i < j < |rows| :: rows[i].mid != rows[j].mid
  }

  ghost predicate RowOk(row: Row, now: int) {
    match row.phase
    case Queued => row.delivery == 0 && row.leased.None?
    case Leased => row.delivery == 1 && row.leased.Some? && row.leased.value <= now
    case Acked =>
      row.delivery <= 1 && (row.leased.Some? <==> row.delivery == 1) && (row.leased.Some? ==> row.leased.value <= now)
  }

  ghost predicate TableOk(rows: seq<Row>, now: int) {
    UniqueMids(rows) && forall i | 0 <= i < |rows| :: RowOk(rows[i], now)
  }

  /** Claimed rows are exactly the delivered ones, each once, in id order per recipient, and ahead
      of everything still queued for that recipient. */
  ghost predicate ClaimsOk(rows: seq<Row>, claims: seq<nat>) {
    && (forall n | 0 <= n < |claims| :: claims[n] < |rows| && rows[claims[n]].delivery == 1)
    && (forall i | 0 <= i < |rows| && rows[i].delivery == 1 :: i in claims)
    && (forall m, n | 0 <= m < n < |claims| && rows[claims[m]].to == rows[claims[n]].to :: claims[m] < claims[n])
    && (forall n, i | 0 <= n < |claims| && Waits(rows, i, rows[claims[n]].to) :: claims[n] < i)
  }

  ghost predicate Holding(pc: Pc, mid: string) {
    !pc.Ready? && !pc.Selected? && pc.mid == mid
  }

  ghost predicate Delivered(rows: seq<Row>, mid: string) {
    exists i :: 0 <= i < |rows| && rows[i].mid == mid && rows[i].delivery == 1
  }

  /** A selected message is still the oldest queued one of the recipient, if it is queued at all. */
  ghost predicate SelectionOk(rows: seq<Row>, to: string, mid: string) {
    exists i: nat :: i < |rows| && rows[i].mid == mid && rows[i].to == to &&
      forall j | 0 <= j < i :: !Waits(rows, j, to)
  }

  ghost predicate ConsumersOk(config: map<nat, Consumer>, rows: seq<Row>, pcs: map<nat, Pc>) {
    && (forall k | k in pcs && pcs[k].Selected? :: k in config && SelectionOk(rows, config[k].recipient, pcs[k].mid))
    && (forall k | k in pcs && !pcs[k].Ready? && !pcs[k].Selected? :: Delivered(rows, pcs[k].mid))
    && (forall k, l | k in pcs && l in pcs && k != l && !pcs[k].Ready? && !pcs[k].Selected? ::
         !Holding(pcs[l], pcs[k].mid))
  }

  /** Reasons for acks, and effect calls. */
  ghost predicate ReasonsOk(s: Box) {
    && (forall mid :: s.calls[mid] <= 1)
    && (forall mid | mid in s.calls || mid in s.failed || mid in s.succeeded || mid in s.rejected ::
         Delivered(s.rows, mid))
    && (forall k | k in s.pcs && (s.pcs[k].Claimed? || s.pcs[k].Approved?) ::
          var mid := s.pcs[k].mid; mid !in s.calls && mid !in s.failed && mid !in s.succeeded && mid !in s.rejected)
    && (forall k | k in s.pcs && s.pcs[k].Called? ::
          var mid := s.pcs[k].mid; mid in s.calls && mid !in s.failed && mid !in s.succeeded && mid !in s.rejected)
    && (forall k | k in s.pcs && s.pcs[k].Finishing? ::
          var mid := s.pcs[k].mid; (mid in s.succeeded || mid in s.rejected) && mid !in s.failed)
    && (forall mid | mid in s.failed :: mid !in s.succeeded && mid !in s.rejected)
    && (forall mid | mid in s.rejected :: mid !in s.calls)
    && (forall i | 0 <= i < |s.rows| && s.rows[i].phase == Acked ::
          var mid := s.rows[i].mid; mid in s.succeeded || mid in s.rejected || mid in s.ackedOutside)
  }

  ghost predicate Inv(config: map<nat, Consumer>, s: Box) {
    && TableOk(s.rows, s.now)
    && ClaimsOk(s.rows, s.claims)
    && ConsumersOk(config, s.rows, s.pcs)
    && ReasonsOk(s)
  }
}
