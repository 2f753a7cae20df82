/** The mailbox's code over one shared table: the store's statements, the redelivery query, and a
    consumer's ProcessOne with other processes acting between its statements. */
module MailboxStore {
  import opened Options
  import opened MailboxMachine
  import opened MailboxSafety

  lemma Extended(config: map<nat, Consumer>, r: Run, a: Act, s: Box)
    requires Execution(config, r) && Enabled(config, r.Last(), a) && s == Apply(config, r.Last(), a)
    ensures Execution(config, Run(r.states + [s], r.acts + [a]))
  {
    var r' := Run(r.states + [s], r.acts + [a]);
    forall i | 0 <= i < |r'.acts| ensures StepOk(config, r', i) {
      if i < |r.acts| { assert StepOk(config, r, i); }
    }
  }

  ghost predicate Grew(r: Run, r': Run) {
    r.acts <= r'.acts && r.states <= r'.states
  }

  /** Steps of everybody but consumer k; k itself does not crash. */
  predicate Foreign(k: nat, a: Act) {
    match a
    case Enqueue(_, _) | AckOutside(_) | Tick(_) => true
    case Select(l) => l != k
    case Claim(l) => l != k
    case Judge(l, _) => l != k
    case Call(l) => l != k
    case CallReturns(l, _) => l != k
    case Finish(l) => l != k
    case FinishError(l) => l != k
    case Crash(l) => l != k
  }

  /** A message as its sender hands it in. */
  datatype Message = Message(mid: string, sender: string, to: string, knownType: bool)

  datatype EnqueueError = NoMessageId | InvalidType | NoSenderOrRecipient

  const SECOND: int := 1_000_000_000

  /** leased_at and the cutoff are compared as text with whole seconds. */
  predicate Expired(row: Row, now: int, timeout: int) {
    row.phase != Acked && (row.leased.None? || row.leased.value / SECOND <= (now - timeout) / SECOND)
  }

  /** Unacked messages that were never leased or leased at least the timeout ago are redelivered,
      and nothing leased a full second less than the timeout ago is. */
  lemma RedeliveryWindow(row: Row, now: int, timeout: int)
    requires row.phase != Acked
    ensures row.leased.None? || now - row.leased.value >= timeout ==> Expired(row, now, timeout)
    ensures Expired(row, now, timeout) ==> row.leased.None? || now - row.leased.value > timeout - SECOND
  {
  }

  /** The newest claim is of message mid, by consumer c: it was the oldest queued for c's recipient. */
  ghost predicate TookOldest(s: Box, c: Consumer, mid: string) {
    |s.claims| > 0 &&
    var i := s.claims[|s.claims| - 1];
    && i < |s.rows| && s.rows[i].mid == mid && s.rows[i].to == c.recipient
    && s.rows[i].phase == Leased && s.rows[i].owner == c.owner
    && forall j | 0 <= j < |s.rows| && s.rows[j].phase == Queued && s.rows[j].to == c.recipient :: i < j
  }

  /** Step m of the run gives consumer k nothing: its SELECT finds nothing queued for it, or its
      compare-and-set finds the message no longer queued. */
  ghost predicate Misses(config: map<nat, Consumer>, r: Run, m: nat, k: nat) {
    && m < |r.acts| && m < |r.states| && k in config && k in r.states[m].pcs
    && var s := r.states[m];
       || (r.acts[m] == Select(k) &&
           forall i | 0 <= i < |s.rows| && s.rows[i].phase == Queued :: s.rows[i].to != config[k].recipient)
       || (r.acts[m] == Claim(k) && s.pcs[k].Selected? &&
           forall i | 0 <= i < |s.rows| && s.rows[i].mid == s.pcs[k].mid :: s.rows[i].phase != Queued)
  }

  lemma ClaimTakesOldest(config: map<nat, Consumer>, s: Box, k: nat)
    requires Inv(config, s) && Enabled(config, s, Claim(k)) && Claimable(s.rows, s.pcs[k].mid)
    ensures TookOldest(Apply(config, s, Claim(k)), config[k], s.pcs[k].mid)
    ensures HasMid(s.rows, s.pcs[k].mid)
  {
    OldestIsClaimed(config, s, k);
    ClaimChanges(s.rows, s.pcs[k].mid, s.now, config[k].owner);
    var s', i := Apply(config, s, Claim(k)), IdOf(s.rows, s.pcs[k].mid);
    forall j | 0 <= j < |s'.rows| && s'.rows[j].phase == Queued && s'.rows[j].to == config[k].recipient ensures i < j {
      assert Waits(s'.rows, j, config[k].recipient);
      assert Waits(s.rows, j, config[k].recipient) && j != i;
    }
  }

  class Mailbox {
    const config: map<nat, Consumer>
    var rows: seq<Row>
    var now: int

    // control state of the consumers, and history
    var pcs: map<nat, Pc>
    var claims: seq<nat>
    var calls: multiset<string>
    var succeeded: set<string>
    var rejected: set<string>
    var failed: set<string>
    var ackedOutside: set<string>
    ghost var run: Run

    function View(): Box
      reads this
    {
      Box(rows, pcs, now, claims, calls, succeeded, rejected, failed, ackedOutside)
    }

    ghost predicate Valid()
      reads this
    {
      Execution(config, run) && run.Last() == View()
    }

    constructor (config: map<nat, Consumer>, now: int)
      ensures Valid() && rows == [] && this.config == config && this.now == now
      ensures pcs == map k | k in config :: Ready
    {
      this.config, this.now := config, now;
      rows, claims, calls, succeeded, rejected, failed, ackedOutside := [], [], multiset{}, {}, {}, {}, {};
      pcs := map k | k in config :: Ready;
      new;
      run := Run([View()], []);
    }

    ghost method Log(a: Act)
      requires Execution(config, run) && Enabled(config, run.Last(), a) && View() == Apply(config, run.Last(), a)
      modifies this`run
      ensures Valid() && run == Run(old(run.states) + [View()], old(run.acts) + [a])
    {
      Extended(config, run, a, View());
      run := Run(run.states + [View()], run.acts + [a]);
    }

    method Install(s: Box)
      modifies this`rows, this`now, this`pcs, this`claims, this`calls
      modifies this`succeeded, this`rejected, this`failed, this`ackedOutside
      ensures View() == s
    {
      rows, now, pcs, claims, calls := s.rows, s.now, s.pcs, s.claims, s.calls;
      succeeded, rejected, failed, ackedOutside := s.succeeded, s.rejected, s.failed, s.ackedOutside;
    }

    /** Any number of steps of other processes. */
    method Preempt(k: nat)
      requires Valid() && k in pcs
      modifies this
      ensures Valid() && Grew(old(run), run) && k in pcs && pcs[k] == old(pcs[k])
      ensures old(rejected) <= rejected && old(succeeded) <= succeeded && old(failed) <= failed
      ensures Onward(old(rows), rows) && forall x :: old(calls)[x] <= calls[x]
    {
      var n: int := *;
      for i := 0 to if n < 0 then 0 else n
        invariant Valid() && Grew(old(run), run) && k in pcs && pcs[k] == old(pcs[k])
        invariant old(rejected) <= rejected && old(succeeded) <= succeeded && old(failed) <= failed
        invariant forall x :: old(calls)[x] <= calls[x]
      {
        var a: Act := *;
        if Foreign(k, a) && Enabled(config, View(), a) {
          Install(Apply(config, View(), a));
          Log(a);
        }
      }
      assert run.states[|old(run.states)| - 1] == old(View());
      OnwardAll(config, run, |old(run.states)| - 1, |run.states| - 1);
    }

    /** Checks, then INSERT OR IGNORE. */
    method Enqueue(msg: Message) returns (err: Option<EnqueueError>)
      requires Valid()
      modifies this
      ensures Valid() && Grew(old(run), run)
      ensures err == if msg.mid == "" then Some(NoMessageId)
                     else if !msg.knownType then Some(InvalidType)
                     else if msg.sender == "" || msg.to == "" then Some(NoSenderOrRecipient)
                     else None
      ensures err.Some? || (exists i :: 0 <= i < |old(rows)| && old(rows)[i].mid == msg.mid) ==> rows == old(rows)
      ensures err.None? && (forall i | 0 <= i < |old(rows)| :: old(rows)[i].mid != msg.mid) ==>
        rows == old(rows) + [Row(msg.mid, msg.to, Queued, None, 0, "")]
    {
      if msg.mid == "" { return Some(NoMessageId); }
      if !msg.knownType { return Some(InvalidType); }
      if msg.sender == "" || msg.to == "" { return Some(NoSenderOrRecipient); }
      if !HasMid(rows, msg.mid) { rows := rows + [Row(msg.mid, msg.to, Queued, None, 0, "")]; }
      Log(MailboxMachine.Enqueue(msg.mid, msg.to));
      return None;
    }

    /** Unacked envelopes whose lease has run out, oldest first; reads only. */
    method Redeliver(timeout: int) returns (ids: seq<nat>)
      ensures forall m, n | 0 <= m < n < |ids| :: ids[m] < ids[n]
      ensures forall i: nat :: i in ids <==>
        i < |rows| && rows[i].phase != Acked &&
        (rows[i].leased.None? || rows[i].leased.value / 1_000_000_000 <= (now - timeout) / 1_000_000_000)
    {
      ids := [];
      for i := 0 to |rows|
        invariant forall n | 0 <= n < |ids| :: ids[n] < i
        invariant forall m, n | 0 <= m < n < |ids| :: ids[m] < ids[n]
        invariant forall j: nat :: j in ids <==> j < i && Expired(rows[j], now, timeout)
      {
        if Expired(rows[i], now, timeout) { ids := ids + [i]; }
      }
    }

    /** A message whose effect failed, and that nobody outside acked, comes back from Redeliver as
        soon as its lease is as old as the timeout. */
    lemma FailedIsRedelivered(i: nat, timeout: int)
      requires Valid() && i < |rows| && rows[i].mid in failed && rows[i].mid !in ackedOutside
      requires rows[i].leased.Some? ==> now - rows[i].leased.value >= timeout
      ensures Expired(rows[i], now, timeout)
    {
      EffectSafety(config, run, |run.states| - 1, i);
      RedeliveryWindow(rows[i], now, timeout);
    }

    // ----- a consumer

    /** Dequeue: a SELECT and a compare-and-set, with other processes in between.  None when the
        queue is empty or the claim was lost. */
    method Dequeue(k: nat) returns (mid: Option<string>)
      requires Valid() && k in config && k in pcs && pcs[k] == Ready
      modifies this
      ensures Valid() && Grew(old(run), run) && k in pcs
      ensures pcs[k] == if mid.Some? then Claimed(mid.value) else Ready
      ensures mid.Some? ==> TookOldest(View(), config[k], mid.value)
      ensures |run.acts| > |old(run.acts)| && (mid.None? ==> Misses(config, run, |run.acts| - 1, k))
      ensures old(rejected) <= rejected && old(succeeded) <= succeeded && old(failed) <= failed
    {
      Preempt(k);
      var oldest := Oldest(rows, config[k].recipient);
      if oldest.None? {
        SelectNothing(k);
        return None;
      }
      mid := Some(rows[oldest.value].mid);
      pcs := pcs[k := Selected(mid.value)];
      Log(Select(k));
      Preempt(k);
      mid := CompareAndSet(k, mid.value);
    }

    method SelectNothing(k: nat)
      requires Valid() && k in config && k in pcs && pcs[k] == Ready && Oldest(rows, config[k].recipient).None?
      modifies this`run
      ensures Valid() && Grew(old(run), run) && |run.acts| > |old(run.acts)|
      ensures Misses(config, run, |run.acts| - 1, k)
    {
      var to := config[k].recipient;
      forall i | 0 <= i < |rows| && rows[i].phase == Queued ensures rows[i].to != to {
        assert !Waits(rows, i, to);
      }
      assert pcs[k := Ready] == pcs;
      Log(Select(k));
    }

    /** UPDATE ... SET acked=-1 ... WHERE message_id=? AND acked=0. */
    method CompareAndSet(k: nat, selected: string) returns (mid: Option<string>)
      requires Valid() && k in config && k in pcs && pcs[k] == Selected(selected)
      modifies this
      ensures Valid() && Grew(old(run), run) && k in pcs
      ensures pcs[k] == if mid.Some? then Claimed(mid.value) else Ready
      ensures mid ==
        if exists i :: 0 <= i < |old(rows)| && old(rows)[i].mid == selected && old(rows)[i].phase == Queued
        then Some(selected) else None
      ensures if mid.None? then rows == old(rows) && claims == old(claims)
              else TookOldest(View(), config[k], selected)
      // the claim stamps the row, and no other
      ensures |rows| == |old(rows)| && now == old(now)
      ensures mid.Some? ==> forall i | 0 <= i < |rows| :: var row := old(rows)[i];
        rows[i] ==
          if row.mid == selected && row.phase == Queued
          then row.(phase := Leased, leased := Some(now), delivery := row.delivery + 1, owner := config[k].owner)
          else row
      ensures rejected == old(rejected) && succeeded == old(succeeded) && failed == old(failed)
      ensures |run.acts| > |old(run.acts)| && (mid.None? ==> Misses(config, run, |run.acts| - 1, k))
    {
      if !Claimable(rows, selected) {
        pcs := pcs[k := Ready];
        Log(Claim(k));
        return None;
      }
      ClaimRow(k, selected);
      return Some(selected);
    }

    method ClaimRow(k: nat, selected: string)
      requires Valid() && k in config && k in pcs && pcs[k] == Selected(selected) && Claimable(rows, selected)
      modifies this`rows, this`claims, this`pcs, this`run
      ensures Valid() && Grew(old(run), run) && |run.acts| > |old(run.acts)| && k in pcs && pcs[k] == Claimed(selected)
      ensures TookOldest(View(), config[k], selected) && rows == ClaimRows(old(rows), selected, now, config[k].owner)
      ensures now == old(now)
    {
      ghost var s := View();
      KnownClaim(k);
      claims := claims + [IdOf(rows, selected)];
      rows := ClaimRows(rows, selected, now, config[k].owner);
      pcs := pcs[k := Claimed(selected)];
      assert View() == Apply(config, s, Claim(k));
      Log(Claim(k));
    }

    lemma KnownClaim(k: nat)
      requires Valid() && Enabled(config, View(), Claim(k)) && Claimable(rows, pcs[k].mid)
      ensures HasMid(rows, pcs[k].mid) && TookOldest(Apply(config, View(), Claim(k)), config[k], pcs[k].mid)
    {
      InvAt(config, run, |run.states| - 1);
      ClaimTakesOldest(config, View(), k);
    }

    /** Ack of a finished message; acked says whether the UPDATE went through. */
    method Finalize(k: nat, mid: string, acked: bool)
      requires Valid() && k in config && k in pcs && pcs[k] == Finishing(mid)
      modifies this
      ensures forall x :: old(calls)[x] <= calls[x]
      ensures Valid() && Grew(old(run), run) && k in pcs && pcs[k] == Ready
      ensures acked ==> forall i | 0 <= i < |rows| && rows[i].mid == mid :: rows[i].phase == Acked
      ensures old(rejected) <= rejected && old(succeeded) <= succeeded && old(failed) <= failed
    {
      Preempt(k);
      if acked {
        Ack(k, mid);
      } else {
        pcs := pcs[k := Ready];
        Log(FinishError(k));
      }
    }

    /** UPDATE ... SET acked=1 WHERE message_id=? AND acked!=1: that message and no other. */
    method Ack(k: nat, mid: string)
      requires Valid() && k in config && k in pcs && pcs[k] == Finishing(mid)
      modifies this`rows, this`pcs, this`run
      ensures Valid() && Grew(old(run), run) && k in pcs && pcs[k] == Ready && |rows| == |old(rows)|
      ensures forall i | 0 <= i < |rows| ::
        rows[i] == if old(rows)[i].mid == mid then old(rows)[i].(phase := Acked) else old(rows)[i]
    {
      rows, pcs := AckRows(rows, mid), pcs[k := Ready];
      Log(Finish(k));
    }

    /** One message: claim, authority, effect, ack.  `accept`, `effectOk` and `acked` are what the
        authority, the effect and the final UPDATE answer when asked. */
    method ProcessOne(k: nat, accept: bool, effectOk: bool, acked: bool)
      returns (mid: Option<string>, processed: bool, failedEffect: bool, failedAck: bool)
      requires Valid() && k in config && k in pcs && pcs[k] == Ready
      modifies this
      ensures Valid() && Grew(old(run), run) && k in pcs && pcs[k] == Ready
      ensures mid.None? ==> !processed && !failedEffect && !failedAck
      ensures mid.Some? ==>
        var refused := config[k].hasAuthority && !accept;
        var broke := !refused && config[k].hasEffect && !effectOk;
        && failedEffect == broke && processed == !broke
        && failedAck == (!refused && !broke && !acked)
        && (refused ==> mid.value in rejected)
        && (broke ==> mid.value in failed)
        && (!refused && !broke ==> mid.value in succeeded)
        && (!refused && config[k].hasEffect ==> mid.value in calls)
        && (processed && acked ==> forall i | 0 <= i < |rows| && rows[i].mid == mid.value :: rows[i].phase == Acked)
    {
      processed, failedEffect, failedAck := false, false, false;
      mid := Dequeue(k);
      if mid.Some? { processed, failedEffect, failedAck := Handle(k, mid.value, accept, effectOk, acked); }
    }

    /** What happens to a message once it is claimed. */
    method Handle(k: nat, mid: string, accept: bool, effectOk: bool, acked: bool)
      returns (processed: bool, failedEffect: bool, failedAck: bool)
      requires Valid() && k in config && k in pcs && pcs[k] == Claimed(mid)
      modifies this
      ensures Valid() && Grew(old(run), run) && k in pcs && pcs[k] == Ready
      ensures var refused := config[k].hasAuthority && !accept;
        var broke := !refused && config[k].hasEffect && !effectOk;
        && failedEffect == broke && processed == !broke
        && failedAck == (!refused && !broke && !acked)
        && (refused ==> mid in rejected)
        && (broke ==> mid in failed)
        && (!refused && !broke ==> mid in succeeded)
        && (!refused && config[k].hasEffect ==> mid in calls)
        && (processed && acked ==> forall i | 0 <= i < |rows| && rows[i].mid == mid :: rows[i].phase == Acked)
    {
      processed, failedEffect, failedAck := true, false, false;
      var accepted := Judge(k, mid, accept);
      if !accepted {
        Finalize(k, mid, acked);
        return;
      }
      failedEffect := RunEffect(k, mid, effectOk);
      processed := !failedEffect;
      if processed {
        Finalize(k, mid, acked);
        failedAck := !acked;
      }
    }

    method Judge(k: nat, mid: string, accept: bool) returns (accepted: bool)
      requires Valid() && k in config && k in pcs && pcs[k] == Claimed(mid)
      modifies this
      ensures Valid() && Grew(old(run), run) && k in pcs
      ensures accepted <==> !config[k].hasAuthority || accept
      ensures pcs[k] == (if accepted then Approved(mid) else Finishing(mid)) && (!accepted ==> mid in rejected)
    {
      Preempt(k);
      accepted := !config[k].hasAuthority || accept;
      if accepted {
        pcs := pcs[k := Approved(mid)];
      } else {
        pcs, rejected := pcs[k := Finishing(mid)], rejected + {mid};
      }
      Log(MailboxMachine.Judge(k, accepted));
    }

    method RunEffect(k: nat, mid: string, effectOk: bool) returns (broke: bool)
      requires Valid() && k in config && k in pcs && pcs[k] == Approved(mid)
      modifies this
      ensures Valid() && Grew(old(run), run) && k in pcs
      ensures broke <==> config[k].hasEffect && !effectOk
      ensures pcs[k] == if broke then Ready else Finishing(mid)
      ensures (if broke then mid in failed else mid in succeeded) && (config[k].hasEffect ==> mid in calls)
    {
      Preempt(k);
      broke := false;
      if config[k].hasEffect {
        pcs, calls := pcs[k := Called(mid)], calls + multiset{mid};
        Log(Call(k));
        Preempt(k);
        broke := EffectReturns(k, mid, effectOk);
      } else {
        pcs, succeeded := pcs[k := Finishing(mid)], succeeded + {mid};
        Log(Call(k));
      }
    }

    method EffectReturns(k: nat, mid: string, effectOk: bool) returns (broke: bool)
      requires Valid() && k in config && k in pcs && pcs[k] == Called(mid)
      modifies this
      ensures Valid() && Grew(old(run), run) && k in pcs
      ensures broke <==> !effectOk
      ensures pcs[k] == if broke then Ready else Finishing(mid)
      ensures (if broke then mid in failed else mid in succeeded) && calls == old(calls)
    {
      broke := !effectOk;
      if broke {
        pcs, failed := pcs[k := Ready], failed + {mid};
      } else {
        pcs, succeeded := pcs[k := Finishing(mid)], succeeded + {mid};
      }
      Log(CallReturns(k, effectOk));
    }
  }
}
