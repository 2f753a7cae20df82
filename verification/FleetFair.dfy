/** Fair rounds, and that they exist: nobody is ever stuck, so every steady run can go on happily
    through one more fair round. */
module FleetFair {
  import opened Options
  import opened FleetMachine
  import opened Sets
  import opened FleetSafety
  import opened FleetProgress

  /** Between i and j every goroutine alive at i took a step, and one poll ran from start to end. */
  ghost predicate FairRound(r: Run, i: nat, j: nat)
    requires |r.states| == |r.acts| + 1
  {
    && i <= j < |r.states|
    && (forall t | t in r.states[i].workers :: Moved(r, i, j, t))
    && (exists a, b :: i <= a < b <= j && r.acts[a] == Poll(Start) && r.states[b].main == Idle)
  }

  ghost predicate Moved(r: Run, i: nat, j: nat, t: int)
    requires |r.states| == |r.acts| + 1 && j < |r.states|
  {
    exists k :: i <= k < j && Advances(r.states[k], r.acts[k], t)
  }

  /** cuts splits the run into consecutive fair rounds. */
  ghost predicate FairRounds(r: Run, cuts: seq<nat>)
    requires |r.states| == |r.acts| + 1
  {
    && |cuts| >= 1 && cuts[0] == 0
    && forall i | 0 <= i < |cuts| - 1 :: FairRound(r, cuts[i], cuts[i + 1])
  }

  // ----- nobody is ever stuck

  /** The next statement of an UnblockDependents call, or None when it is about to return. */
  ghost function SweepAction(sweeps: map<Caller, Sweep>, who: Caller): (a: Option<Action>)
    requires who in sweeps
    ensures a.None? <==> sweeps[who] == Children({})
    ensures a.Some? ==> a.value.Sweeping? && a.value.who == who && SweepEnabled(sweeps, who, a.value.sw)
  {
    match sweeps[who]
    case Listing(_) => Some(Sweeping(who, ListKids))
    case Children(todo) =>
      if todo == {} then None else Some(Sweeping(who, CheckParents(Element(todo))))
    case AllTerminal(_, _) => Some(Sweeping(who, CountFailures))
    case _ => Some(Sweeping(who, Write))
  }

  ghost predicate CanMove(g: Graph, s: Sys, t: int) {
    exists a :: Enabled(g, s, a) && Happy(a) && Advances(s, a, t)
  }

  ghost function GoroutineAction(s: Sys, t: int): Action
    requires t in s.workers && (s.workers[t] == Notifying ==> Goroutine(t) in s.sweeps)
  {
    match s.workers[t]
    case Spawned => Worker(t, Activate)
    case Running => Worker(t, Finish(SawComplete))
    case Notifying =>
      var a := SweepAction(s.sweeps, Goroutine(t));
      if a.Some? then a.value else Worker(t, Return)
    case FailingDependents => Worker(t, FailDependents)
    case Exiting => Worker(t, Leave)
    case Releasing => Worker(t, Release)
  }

  /** In every safe state a live goroutine can take a happy step of its own, unless it wants the
      tracker's mutex while a poll or a resume holds it. */
  lemma NobodyStuck(g: Graph, s: Sys, t: int)
    requires Safe(g, s) && t in s.workers
    ensures CanMove(g, s, t) <==> !(s.workers[t] == Exiting && s.main != Idle)
  {
    var a := GoroutineAction(s, t);
    if s.workers[t] == Exiting && s.main != Idle {
      forall b | Enabled(g, s, b) && Advances(s, b, t) ensures false {
        if b.Poll? { CandidateNotRunning(g, s); }
      }
    } else {
      assert Enabled(g, s, a) && Happy(a) && Advances(s, a, t);
    }
  }

  /** The statements of whoever holds the tracker's mutex. */
  ghost predicate HoldersOwn(a: Action) {
    match a
    case Poll(p) => !p.Start?
    case Sweeping(who, _) => who == Resuming
    case Other(o) => o.ResumePick? || o.ResumeReturn? || o.ResumeEnd?
    case Worker(_, _) => false
  }

  // What is left for the holder, in lexicographic order: the listing, the tasks, the steps on one.

  function Phase(main: Main): nat {
    if main.Counted? then 1 else 0
  }

  function TasksLeft(main: Main): nat {
    match main
    case Idle | Counted => 0
    case _ => |main.todo|
  }

  ghost function StepsLeft(g: Graph, s: Sys): int {
    match s.main
    case Idle | Counted => 0
    case Scanning(_) | Resume(_) => 1
    case Leasing(_, t, i) => 2 * |Paths(g, t)| + 3 - i
    case RollingBack(_, _, k) => k + 1
    case ResumeCall(_) => 2 + if Resuming in s.sweeps then SweepWeight(g, s.sweeps[Resuming]) else 0
  }

  ghost predicate LessLeft(g: Graph, s': Sys, s: Sys) {
    || Phase(s'.main) < Phase(s.main)
    || (Phase(s'.main) == Phase(s.main) && TasksLeft(s'.main) < TasksLeft(s.main))
    || (Phase(s'.main) == Phase(s.main) && TasksLeft(s'.main) == TasksLeft(s.main) &&
         0 <= StepsLeft(g, s') < StepsLeft(g, s))
  }

  lemma PollLeavesLess(g: Graph, s: Sys, p: PollAct)
    requires PollOk(g, s) && PollEnabled(g, s, p) && !p.Start?
    ensures LessLeft(g, ApplyPoll(g, s, p), s)
  {
  }

  lemma ResumeLeavesLess(g: Graph, s: Sys, o: OtherAct)
    requires OtherEnabled(s, o) && HoldersOwn(Other(o))
    ensures LessLeft(g, ApplyOther(g, s, o), s)
  {
    assert ApplyOther(g, s, o).sweeps == SweepsAfter(g, s, o) && ApplyOther(g, s, o).main == OtherMain(g, s, o);
  }

  /** Every statement of the holder brings it nearer to giving the mutex back. */
  lemma HolderLeavesLess(g: Graph, s: Sys, a: Action)
    requires Safe(g, s) && Enabled(g, s, a) && HoldersOwn(a)
    ensures LessLeft(g, Apply(g, s, a), s)
  {
    match a
    case Poll(p) => PollLeavesLess(g, s, p);
    case Sweeping(who, sw) => SweepLighter(g, s.status, s.sweeps[who], sw);
    case Other(o) => ResumeLeavesLess(g, s, o);
  }

  /** Whoever holds the mutex has a happy statement of its own. */
  lemma HolderCanMove(g: Graph, s: Sys) returns (a: Action)
    requires Safe(g, s) && s.main != Idle
    ensures Enabled(g, s, a) && Happy(a) && HoldersOwn(a)
  {
    match s.main
    case Counted => a := Poll(List);
    case Scanning(todo) =>
      a := if todo == {} || |s.active| >= g.maxWorkers then Poll(End) else Poll(Pick(Element(todo)));
    case Leasing(_, t, i) => a := if i < |Paths(g, t)| then Poll(Lease) else Poll(Launch);
    case RollingBack(_, _, _) => a := Poll(Unlease);
    case Resume(todo) => a := if todo == {} then Other(ResumeEnd) else Other(ResumePick(Element(todo)));
    case ResumeCall(_) =>
      var b := SweepAction(s.sweeps, Resuming);
      a := if b.Some? then b.value else Other(ResumeReturn);
  }

  // ----- going on

  lemma OneMore(g: Graph, n: nat, r: Run, a: Action) returns (r': Run)
    requires SteadyRun(g, n, r) && Enabled(g, r.Last(), a) && Steady(a)
    ensures SteadyRun(g, n, r') && r' == Run(r.states + [Apply(g, r.Last(), a)], r.acts + [a])
  {
    r' := Run(r.states + [Apply(g, r.Last(), a)], r.acts + [a]);
    Extended(g, r, a, Apply(g, r.Last(), a));
  }

  /** r' goes on from r, and happily. */
  ghost predicate GoesOn(r: Run, r': Run) {
    Grew(r, r') && HappySince(r', |r.acts|)
  }

  lemma GoesOnTrans(r0: Run, r1: Run, r2: Run)
    requires GoesOn(r0, r1) && GoesOn(r1, r2)
    ensures GoesOn(r0, r2)
  {
    forall k | |r0.acts| <= k < |r2.acts| ensures Happy(r2.acts[k]) {
      if k < |r1.acts| { assert r2.acts[k] == r1.acts[k]; }
    }
  }

  ghost predicate StaysAlive(s: Sys, s': Sys) {
    s.workers.Keys <= s'.workers.Keys
  }

  lemma HolderKeepsWorkers(g: Graph, s: Sys, a: Action)
    requires Enabled(g, s, a) && HoldersOwn(a)
    ensures StaysAlive(s, Apply(g, s, a))
  {
    if a.Other? { assert ApplyOther(g, s, a.o).workers == s.workers; }
  }

  /** The holder finishes what it is doing. */
  lemma {:induction false} HolderFinishes(g: Graph, n: nat, r: Run) returns (r': Run)
    requires SteadyRun(g, n, r)
    ensures SteadyRun(g, n, r') && GoesOn(r, r') && r'.Last().main == Idle && StaysAlive(r.Last(), r'.Last())
    decreases Phase(r.Last().main), TasksLeft(r.Last().main), StepsLeft(g, r.Last())
  {
    r' := r;
    var s := r.Last();
    if s.main != Idle {
      SteadilyAt(g, n, r, |r.states| - 1);
      var a := HolderCanMove(g, s);
      HolderLeavesLess(g, s, a);
      HolderKeepsWorkers(g, s, a);
      var r1 := OneMore(g, n, r, a);
      r' := HolderFinishes(g, n, r1);
      GoesOnTrans(r, r1, r');
    }
  }

  lemma GoroutineMoves(g: Graph, s: Sys, t: int)
    requires Safe(g, s) && t in s.workers && s.main == Idle
    ensures var a := GoroutineAction(s, t);
      && Enabled(g, s, a) && Happy(a) && Advances(s, a, t)
      && Apply(g, s, a).main == Idle && forall u | u in s.workers && u != t :: u in Apply(g, s, a).workers
  {
  }

  /** With the mutex free, each of the goroutines in `todo` takes a step. */
  lemma {:induction false} GoroutinesMove(g: Graph, n: nat, r: Run, todo: set<int>) returns (r': Run)
    requires SteadyRun(g, n, r) && r.Last().main == Idle && todo <= r.Last().workers.Keys
    ensures SteadyRun(g, n, r') && GoesOn(r, r') && r'.Last().main == Idle
    ensures forall t | t in todo :: Moved(r', |r.acts|, |r'.acts|, t)
    decreases |todo|
  {
    r' := r;
    if todo != {} {
      var t := Element(todo);
      SteadilyAt(g, n, r, |r.states| - 1);
      GoroutineMoves(g, r.Last(), t);
      var a := GoroutineAction(r.Last(), t);
      var r1 := OneMore(g, n, r, a);
      r' := GoroutinesMove(g, n, r1, todo - {t});
      GoesOnTrans(r, r1, r');
      forall u | u in todo ensures Moved(r', |r.acts|, |r'.acts|, u) {
        if u == t {
          assert Advances(r'.states[|r.acts|], r'.acts[|r.acts|], t);
        } else {
          MovedWithin(r', |r1.acts|, |r'.acts|, |r.acts|, |r'.acts|, u);
        }
      }
    }
  }

  lemma MovedWithin(r: Run, i: nat, j: nat, i': nat, j': nat, t: int)
    requires |r.states| == |r.acts| + 1 && i' <= i && j <= j' < |r.states| && Moved(r, i, j, t)
    ensures Moved(r, i', j', t)
  {
  }

  lemma MovedBefore(r: Run, r': Run, i: nat, j: nat, t: int)
    requires |r.states| == |r.acts| + 1 && |r'.states| == |r'.acts| + 1 && Grew(r, r') && j < |r.states| &&
      Moved(r, i, j, t)
    ensures Moved(r', i, j, t)
  {
    var k :| i <= k < j && Advances(r.states[k], r.acts[k], t);
    assert Advances(r'.states[k], r'.acts[k], t);
  }

  /** From every state of a steady run one more fair round can follow, without a new loser. */
  lemma FairRoundExists(g: Graph, n: nat, r: Run) returns (r': Run)
    requires SteadyRun(g, n, r)
    ensures SteadyRun(g, n, r') && GoesOn(r, r') && FairRound(r', |r.acts|, |r'.acts|)
  {
    var i := |r.acts|;
    var free := HolderFinishes(g, n, r);
    var moved := GoroutinesMove(g, n, free, r.Last().workers.Keys);
    var polling := OneMore(g, n, moved, Poll(Start));
    r' := HolderFinishes(g, n, polling);
    GoesOnTrans(r, free, moved);
    GoesOnTrans(r, moved, polling);
    GoesOnTrans(r, polling, r');
    var a, b := |moved.acts|, |r'.acts|;
    assert r'.acts[a] == Poll(Start) && r'.states[b].main == Idle;
    forall t | t in r'.states[i].workers ensures Moved(r', i, b, t) {
      assert r'.states[i] == r.Last();
      MovedBefore(moved, r', |free.acts|, |moved.acts|, t);
      MovedWithin(r', |free.acts|, |moved.acts|, i, b, t);
    }
  }

  lemma FairRoundStays(r: Run, r': Run, i: nat, j: nat)
    requires |r.states| == |r.acts| + 1 && |r'.states| == |r'.acts| + 1 && Grew(r, r') && FairRound(r, i, j)
    ensures FairRound(r', i, j)
  {
    forall t | t in r'.states[i].workers ensures Moved(r', i, j, t) { MovedBefore(r, r', i, j, t); }
    var a, b :| i <= a < b <= j && r.acts[a] == Poll(Start) && r.states[b].main == Idle;
    assert r'.acts[a] == Poll(Start) && r'.states[b].main == Idle;
  }

  lemma {:induction false} SameLosers(r: Run, r': Run, k: nat)
    requires Grew(r, r') && k <= |r.acts|
    ensures Losers(r', k) == Losers(r, k)
  {
    if k > 0 { SameLosers(r, r', k - 1); }
  }

  /** Every steady run goes on to any number of fair rounds, counted from its start, in which no
      further worker loses. */
  lemma {:induction false} FairRunExists(g: Graph, n: nat, r0: Run, rounds: nat) returns (r: Run, cuts: seq<nat>)
    requires SteadyRun(g, n, r0) && rounds > 0
    ensures SteadyRun(g, n, r) && GoesOn(r0, r) && FairRounds(r, cuts)
    ensures |cuts| == rounds + 1 && cuts[rounds] == |r.acts|
    ensures Losers(r, |r.acts|) == Losers(r0, |r0.acts|)
  {
    if rounds == 1 {
      r := FairRoundExists(g, n, r0);
      cuts := [0, |r.acts|];
      assert r.states[0].workers == map[];
      assert FairRound(r, 0, |r.acts|);
    } else {
      var before, some := FairRunExists(g, n, r0, rounds - 1);
      r := FairRoundExists(g, n, before);
      GoesOnTrans(r0, before, r);
      cuts := some + [|r.acts|];
      forall i | 0 <= i < |cuts| - 1 ensures FairRound(r, cuts[i], cuts[i + 1]) {
        if i < rounds - 1 { FairRoundStays(before, r, some[i], some[i + 1]); }
      }
    }
    NoLosers(r, |r0.acts|, |r.acts|);
    SameLosers(r0, r, |r0.acts|);
  }
}
