/** How fleetCmd turns a plan into the store a tracker starts from, and what the plan must avoid
    for the fleet to finish. */
module FleetPlan {
  import opened FleetMachine
  import opened FleetSafety
  import opened Sets
  import opened FleetProgress
  import opened FleetCompletion
  import opened FleetTracker
  import opened PathText
  import opened Pieces

  /** One plan entry: the 1-based indices it depends on and the paths it owns, as written. */
  datatype PlanTask = PlanTask(dependsOn: seq<int>, owned: seq<string>)

  /** Only indices of earlier entries become edges; later ones and the entry itself are dropped. */
  function PlanParents(plan: seq<PlanTask>, t: int): set<int>
    requires 1 <= t <= |plan|
  {
    var named := plan[t - 1].dependsOn;
    set d | d in named && 1 <= d < t
  }

  function GraphOf(plan: seq<PlanTask>, maxWorkers: int): Graph {
    var parents := map t | 1 <= t <= |plan| :: PlanParents(plan, t);
    Graph(parents,
          map t | t in parents :: PathsOf(Join(plan[t - 1].owned, ',')),
          map t | t in parents :: 0,
          if maxWorkers < 1 then 1 else maxWorkers)
  }

  predicate Declares(plan: seq<PlanTask>, t: int, p: string) {
    1 <= t <= |plan| && p in plan[t - 1].owned
  }

  ghost predicate FirstDeclarer(plan: seq<PlanTask>, h: int, p: string) {
    Declares(plan, h, p) && forall m | m < h :: !Declares(plan, m, p)
  }

  /** The task rows after the first k entries. */
  ghost predicate RowsBuilt(plan: seq<PlanTask>, k: nat, status: map<int, Status>, dep: map<int, int>,
                            owned: map<int, string>)
    requires k <= |plan|
  {
    && (forall t :: t in status <==> 1 <= t <= k)
    && (forall t | 1 <= t <= k :: status[t] == if PlanParents(plan, t) == {} then Pending else Blocked)
    && dep.Keys == status.Keys && (forall t | t in dep :: dep[t] == 0)
    && owned.Keys == status.Keys && (forall t | 1 <= t <= k :: owned[t] == Join(plan[t - 1].owned, ','))
  }

  ghost predicate EdgesBuilt(plan: seq<PlanTask>, k: nat, edges: set<(int, int)>)
    requires k <= |plan|
  {
    forall e :: e in edges <==> 1 <= e.0 <= k && e.1 in PlanParents(plan, e.0)
  }

  ghost predicate LeasesBuilt(plan: seq<PlanTask>, k: nat, leases: map<string, int>)
    requires k <= |plan|
  {
    && (forall p | p in leases :: leases[p] <= k && FirstDeclarer(plan, leases[p], p))
    && (forall t, p | t <= k && Declares(plan, t, p) :: p in leases)
  }

  ghost predicate Built(plan: seq<PlanTask>, k: nat, dag: DagStore.Store)
    reads dag
  {
    && k <= |plan| && dag.nextId == k + 1
    && RowsBuilt(plan, k, dag.status, dag.dep, dag.owned)
    && EdgesBuilt(plan, k, dag.edges)
    && LeasesBuilt(plan, k, dag.leases)
  }

  /** The row of the entry with id t: blocked when it names an earlier entry, pending otherwise. */
  ghost predicate RowIs(entry: PlanTask, t: int, status: map<int, Status>, dep: map<int, int>,
                        owned: map<int, string>) {
    && t in status && t in dep && t in owned
    && dep[t] == 0 && owned[t] == Join(entry.owned, ',')
    && status[t] == if exists d :: d in entry.dependsOn && 1 <= d < t then Blocked else Pending
  }

  /** One row and one lease section for each entry, in order.  An edge for every earlier entry an entry
      names, and no other; blocked with an edge, pending without; every declared path leased to the
      first entry that declares it. */
  method BuildPlan(plan: seq<PlanTask>) returns (dag: DagStore.Store)
    ensures fresh(dag) && dag.Valid() && Built(plan, |plan|, dag)
    ensures forall t, d :: (t, d) in dag.edges <==> 1 <= t <= |plan| && d in plan[t - 1].dependsOn && 1 <= d < t
    ensures forall t :: t in dag.status <==> 1 <= t <= |plan|
    ensures forall i | 0 <= i < |plan| :: RowIs(plan[i], i + 1, dag.status, dag.dep, dag.owned)
    ensures forall p :: p in dag.leases <==> exists i :: 0 <= i < |plan| && p in plan[i].owned
    ensures forall p | p in dag.leases :: var h := dag.leases[p] - 1;
      0 <= h < |plan| && p in plan[h].owned && forall i | 0 <= i < h :: p !in plan[i].owned
  {
    dag := new DagStore.Store();
    var taskIDs: map<int, int> := map[];
    for i := 0 to |plan|
      invariant fresh(dag) && dag.Valid() && Built(plan, i, dag)
      invariant forall t :: t in taskIDs <==> 1 <= t <= i
      invariant forall t | t in taskIDs :: taskIDs[t] == t
    {
      var id := AddTask(plan, i, dag, taskIDs);
      taskIDs := taskIDs[i + 1 := id];
    }
    BuiltRowsMean(plan, dag.status, dag.dep, dag.owned);
    BuiltEdgesMean(plan, dag.edges);
    BuiltLeasesMean(plan, dag.leases);
  }

  lemma BuiltRowsMean(plan: seq<PlanTask>, status: map<int, Status>, dep: map<int, int>, owned: map<int, string>)
    requires RowsBuilt(plan, |plan|, status, dep, owned)
    ensures forall i | 0 <= i < |plan| :: RowIs(plan[i], i + 1, status, dep, owned)
  {
    forall i | 0 <= i < |plan| ensures RowIs(plan[i], i + 1, status, dep, owned) {
      var parents := PlanParents(plan, i + 1);
      assert forall d :: d in parents <==> d in plan[i].dependsOn && 1 <= d < i + 1;
      HasElement(parents);
      assert status[i + 1] == if parents == {} then Pending else Blocked;
    }
  }

  lemma BuiltEdgesMean(plan: seq<PlanTask>, edges: set<(int, int)>)
    requires EdgesBuilt(plan, |plan|, edges)
    ensures forall t, d :: (t, d) in edges <==> 1 <= t <= |plan| && d in plan[t - 1].dependsOn && 1 <= d < t
  {
    forall t, d ensures (t, d) in edges <==> 1 <= t <= |plan| && d in plan[t - 1].dependsOn && 1 <= d < t {
      var e := (t, d);
      assert e in edges <==> 1 <= e.0 <= |plan| && e.1 in PlanParents(plan, e.0);
    }
  }

  lemma BuiltLeasesMean(plan: seq<PlanTask>, leases: map<string, int>)
    requires LeasesBuilt(plan, |plan|, leases)
    ensures forall p :: p in leases <==> exists i :: 0 <= i < |plan| && p in plan[i].owned
    ensures forall p | p in leases :: var h := leases[p] - 1;
      0 <= h < |plan| && p in plan[h].owned && forall i | 0 <= i < h :: p !in plan[i].owned
  {
    forall p ensures p in leases <==> exists i :: 0 <= i < |plan| && p in plan[i].owned {
      if p in leases { assert FirstDeclarer(plan, leases[p], p) && Declares(plan, leases[p], p); }
      if i :| 0 <= i < |plan| && p in plan[i].owned { assert Declares(plan, i + 1, p); }
    }
    forall p | p in leases
      ensures var h := leases[p] - 1;
        0 <= h < |plan| && p in plan[h].owned && forall i | 0 <= i < h :: p !in plan[i].owned
    {
      assert FirstDeclarer(plan, leases[p], p) && Declares(plan, leases[p], p);
      forall i | 0 <= i < leases[p] - 1 ensures p !in plan[i].owned { assert !Declares(plan, i + 1, p); }
    }
  }

  /** The i-th entry: its row, its edges to earlier entries, its leases. */
  method AddTask(plan: seq<PlanTask>, i: nat, dag: DagStore.Store, taskIDs: map<int, int>) returns (id: int)
    requires i < |plan| && dag.Valid() && Built(plan, i, dag)
    requires forall t :: t in taskIDs <==> 1 <= t <= i
    requires forall t | t in taskIDs :: taskIDs[t] == t
    modifies dag
    ensures id == i + 1 && dag.Valid() && Built(plan, i + 1, dag)
  {
    var dependsOnIDs := KnownDependencies(plan, i, taskIDs);
    var created := dag.CreateTaskFull(0, Join(plan[i].owned, ','));
    id := created.value;
    AddEdges(plan, i, dag, dependsOnIDs);
    if |dependsOnIDs| > 0 { dag.UpdateTaskStatus(id, Blocked); }
    RowAdded(plan, i, old(dag.status), dag.status, old(dag.dep), dag.dep, old(dag.owned), dag.owned);
    TakeLeases(plan, i, dag);
  }

  lemma RowAdded(plan: seq<PlanTask>, i: nat, status: map<int, Status>, status': map<int, Status>,
                 dep: map<int, int>, dep': map<int, int>, owned: map<int, string>, owned': map<int, string>)
    requires i < |plan| && RowsBuilt(plan, i, status, dep, owned)
    requires status' == status[i + 1 := if PlanParents(plan, i + 1) == {} then Pending else Blocked]
    requires dep' == dep[i + 1 := 0] && owned' == owned[i + 1 := Join(plan[i].owned, ',')]
    ensures RowsBuilt(plan, i + 1, status', dep', owned')
  {
  }

  method KnownDependencies(plan: seq<PlanTask>, i: nat, taskIDs: map<int, int>) returns (ids: seq<int>)
    requires i < |plan|
    requires forall t :: t in taskIDs <==> 1 <= t <= i
    requires forall t | t in taskIDs :: taskIDs[t] == t
    ensures forall d :: d in ids <==> d in plan[i].dependsOn && 1 <= d <= i
    ensures forall d :: d in ids <==> d in PlanParents(plan, i + 1)
    ensures |ids| > 0 <==> PlanParents(plan, i + 1) != {}
  {
    ids := [];
    var deps := plan[i].dependsOn;
    for j := 0 to |deps|
      invariant forall d :: d in ids <==> d in deps[..j] && 1 <= d <= i
    {
      assert deps[..j + 1] == deps[..j] + [deps[j]];
      if deps[j] in taskIDs {
        assert taskIDs[deps[j]] == deps[j];
        ids := ids + [deps[j]];
      }
    }
    assert deps[..|deps|] == deps;
    var parents := PlanParents(plan, i + 1);
    assert forall d :: d in ids <==> d in parents;
    if |ids| > 0 {
      assert ids[0] in ids && ids[0] in parents;
    } else {
      assert parents == {};
    }
  }

  method AddEdges(plan: seq<PlanTask>, i: nat, dag: DagStore.Store, ids: seq<int>)
    requires i < |plan| && EdgesBuilt(plan, i, dag.edges)
    requires forall d :: d in ids <==> d in PlanParents(plan, i + 1)
    modifies dag`edges
    ensures EdgesBuilt(plan, i + 1, dag.edges)
  {
    for j := 0 to |ids|
      invariant forall e :: e in dag.edges <==> e in old(dag.edges) || (e.0 == i + 1 && e.1 in ids[..j])
    {
      dag.AddDependency(i + 1, ids[j]);
      assert ids[..j + 1] == ids[..j] + [ids[j]];
    }
    assert ids[..|ids|] == ids;
  }

  method TakeLeases(plan: seq<PlanTask>, i: nat, dag: DagStore.Store)
    requires i < |plan| && LeasesBuilt(plan, i, dag.leases)
    modifies dag`leases
    ensures LeasesBuilt(plan, i + 1, dag.leases)
  {
    var owned := plan[i].owned;
    for j := 0 to |owned|
      invariant forall p | p in dag.leases :: dag.leases[p] <= i + 1 && FirstDeclarer(plan, dag.leases[p], p)
      invariant forall t, p | t <= i && Declares(plan, t, p) :: p in dag.leases
      invariant forall k | 0 <= k < j :: owned[k] in dag.leases
    {
      assert Declares(plan, i + 1, owned[j]);
      var ok := dag.AcquirePathLease(i + 1, owned[j]);
    }
    forall t, p | t <= i + 1 && Declares(plan, t, p) ensures p in dag.leases {
      if t == i + 1 {
        var k :| 0 <= k < |owned| && owned[k] == p;
      }
    }
  }

  /** Paths the comma-joined column preserves. */
  ghost predicate CleanPlan(plan: seq<PlanTask>) {
    forall t, p | Declares(plan, t, p) :: CleanPath(p)
  }

  lemma BuiltEdges(plan: seq<PlanTask>, maxWorkers: int, edges: set<(int, int)>, t: int, q: int)
    requires EdgesBuilt(plan, |plan|, edges) && 1 <= t <= |plan|
    ensures q in GraphOf(plan, maxWorkers).parents[t] <==> (t, q) in edges
  {
    var e := (t, q);
    assert e in edges <==> 1 <= e.0 <= |plan| && e.1 in PlanParents(plan, e.0);
  }

  lemma GraphOfPlan(plan: seq<PlanTask>, maxWorkers: int)
    ensures PlanGraph(GraphOf(plan, maxWorkers), |plan|)
  {
    var g := GraphOf(plan, maxWorkers);
    forall t | t in g.parents ensures g.parents[t] <= g.parents.Keys {
      assert g.parents[t] == PlanParents(plan, t);
    }
  }

  lemma BuiltGraph(plan: seq<PlanTask>, maxWorkers: int, dag: DagStore.Store)
    requires Built(plan, |plan|, dag)
    ensures GraphMatches(GraphOf(plan, maxWorkers), dag.dep, dag.owned, dag.edges)
    ensures GraphOf(plan, maxWorkers).parents.Keys == dag.status.Keys
  {
    BuiltRows(plan, maxWorkers, dag.status, dag.dep, dag.owned);
    var g := GraphOf(plan, maxWorkers);
    forall t, q | t in g.parents ensures q in g.parents[t] <==> (t, q) in dag.edges {
      BuiltEdges(plan, maxWorkers, dag.edges, t, q);
    }
  }

  lemma BuiltRows(plan: seq<PlanTask>, maxWorkers: int, status: map<int, Status>, dep: map<int, int>,
                  owned: map<int, string>)
    requires RowsBuilt(plan, |plan|, status, dep, owned)
    ensures var g := GraphOf(plan, maxWorkers);
      && g.parents.Keys == status.Keys && dep == g.dep
      && forall t | t in g.paths :: t in owned && g.paths[t] == PathsOf(owned[t])
  {
    var g := GraphOf(plan, maxWorkers);
    assert forall t :: t in g.parents <==> 1 <= t <= |plan|;
    assert g.parents.Keys == status.Keys;
    assert dep == g.dep;
    forall t | t in g.paths ensures t in owned && g.paths[t] == PathsOf(owned[t]) {
      BuiltPaths(plan, maxWorkers, t);
    }
  }

  lemma BuiltPaths(plan: seq<PlanTask>, maxWorkers: int, t: int)
    requires 1 <= t <= |plan|
    ensures t in GraphOf(plan, maxWorkers).paths
    ensures GraphOf(plan, maxWorkers).paths[t] == PathsOf(Join(plan[t - 1].owned, ','))
  {
  }

  /** The paths poll will want for task m. */
  function ReadPaths(plan: seq<PlanTask>, m: int): seq<string> {
    if 1 <= m <= |plan| then PathsOf(Join(plan[m - 1].owned, ',')) else []
  }

  ghost predicate Reads(plan: seq<PlanTask>, m: int, p: string) {
    p in ReadPaths(plan, m)
  }

  /** No task reads a path, trimmed and split, that was first declared, as written, by a later one. */
  ghost predicate ReadInOrder(plan: seq<PlanTask>) {
    forall h, m, p | FirstDeclarer(plan, h, p) && Reads(plan, m, p) :: h <= m
  }

  /** The leases taken while building are what progress needs exactly when the plan reads its
      paths in order. */
  lemma PlanLeasesExactly(plan: seq<PlanTask>, maxWorkers: int, leases: map<string, int>)
    requires LeasesBuilt(plan, |plan|, leases)
    ensures PlanLeases(GraphOf(plan, maxWorkers), leases) <==> ReadInOrder(plan)
  {
    var g := GraphOf(plan, maxWorkers);
    forall m, p ensures Reads(plan, m, p) <==> m in g.parents && p in Paths(g, m) {
      if 1 <= m <= |plan| { BuiltPaths(plan, maxWorkers, m); }
    }
    if PlanLeases(g, leases) {
      forall h, m, p | FirstDeclarer(plan, h, p) && Reads(plan, m, p) ensures h <= m {
        assert p in leases && FirstDeclarer(plan, leases[p], p);
        assert First(g, leases[p], p);
      }
    }
    if ReadInOrder(plan) {
      forall p | p in leases ensures leases[p] in g.parents && First(g, leases[p], p) {
        assert FirstDeclarer(plan, leases[p], p);
      }
    }
  }

  /** Clean paths are read as declared, and so in order. */
  lemma CleanPlanReadsInOrder(plan: seq<PlanTask>)
    requires CleanPlan(plan)
    ensures ReadInOrder(plan)
  {
    forall h, m, p | FirstDeclarer(plan, h, p) && Reads(plan, m, p) ensures h <= m {
      forall q | q in plan[m - 1].owned ensures CleanPath(q) { assert Declares(plan, m, q); }
      PathsReadBack(plan[m - 1].owned);
      assert Declares(plan, m, p);
    }
  }

  // ----- the order a plan asks for

  /** In every execution from a plan's start, with whatever failures, crashes and restarts, an entry
      that is pending, active or completed, or was ever dispatched, has every earlier entry it names
      completed. */
  lemma NamedAreDone(plan: seq<PlanTask>, maxWorkers: int, r: Run, k: nat, t: int, d: int)
    requires Execution(GraphOf(plan, maxWorkers), r) && k < |r.states| && Reached(r.states[k], t)
    requires 1 <= t <= |plan| && d in plan[t - 1].dependsOn && 1 <= d < t
    ensures Is(r.states[k].status, d, Completed)
  {
    NamedIsParent(plan, maxWorkers, t, d);
    ParentIsDone(GraphOf(plan, maxWorkers), r, k, t, d);
  }

  lemma NamedIsParent(plan: seq<PlanTask>, maxWorkers: int, t: int, d: int)
    requires 1 <= t <= |plan| && d in plan[t - 1].dependsOn && 1 <= d < t
    ensures d in Parents(GraphOf(plan, maxWorkers), t)
  {
    assert d in PlanParents(plan, t);
  }

  lemma ParentIsDone(g: Graph, r: Run, k: nat, t: int, d: int)
    requires Execution(g, r) && k < |r.states| && Reached(r.states[k], t) && d in Parents(g, t)
    ensures Is(r.states[k].status, d, Completed)
  {
    DependencyOrder(g, r, k, [t, d]);
    assert [t, d][1] == d;
  }

  // ----- which plans complete

  ghost predicate PlanWaits(plan: seq<PlanTask>, tasks: set<int>, m: int) {
    1 <= m <= |plan| && exists q :: q in PlanParents(plan, m) && q in tasks
  }

  /** One of the holders, other than m, is the first to declare p as written. */
  ghost predicate PlanWithheld(plan: seq<PlanTask>, holders: set<int>, m: int, p: string) {
    exists h :: h in holders && h != m && FirstDeclarer(plan, h, p)
  }

  ghost predicate PlanContends(plan: seq<PlanTask>, holders: set<int>, m: int) {
    exists j :: 0 <= j < |ReadPaths(plan, m)| && PlanWithheld(plan, holders, m, ReadPaths(plan, m)[j])
  }

  ghost predicate PlanContendsFirst(plan: seq<PlanTask>, holders: set<int>, m: int) {
    |ReadPaths(plan, m)| > 0 && PlanWithheld(plan, holders, m, ReadPaths(plan, m)[0])
  }

  /** Entries that cannot run once others are lost: each waits for an earlier one of them, for a lost
      one or for a path one of the holders declared first, and each holder waits so for an entry or
      runs into another on its first path. */
  ghost predicate StuckPlanBehind(plan: seq<PlanTask>, lost: set<int>, holders: set<int>, tasks: set<int>) {
    && tasks != {} && holders <= tasks && (forall t | t in tasks :: 1 <= t <= |plan|)
    && (forall m | m in tasks ::
         PlanWaits(plan, tasks, m) || PlanWaits(plan, lost, m) || PlanContends(plan, holders, m))
    && (forall h | h in holders ::
         PlanWaits(plan, tasks, h) || PlanWaits(plan, lost, h) || PlanContendsFirst(plan, holders, h))
  }

  /** Entries that can never run. */
  ghost predicate StuckPlan(plan: seq<PlanTask>, holders: set<int>, tasks: set<int>) {
    StuckPlanBehind(plan, {}, holders, tasks)
  }

  lemma WithheldByPlan(plan: seq<PlanTask>, leases: map<string, int>, holders: set<int>, m: int, p: string)
    requires LeasesBuilt(plan, |plan|, leases)
    ensures Withheld(leases, holders, m, p) <==> PlanWithheld(plan, holders, m, p)
  {
    if h :| h in holders && h != m && FirstDeclarer(plan, h, p) {
      assert FirstDeclarer(plan, leases[p], p);
    }
  }

  lemma StuckPlanExactly(plan: seq<PlanTask>, maxWorkers: int, leases: map<string, int>,
                         lost: set<int>, holders: set<int>, tasks: set<int>)
    requires LeasesBuilt(plan, |plan|, leases)
    ensures StuckBehind(GraphOf(plan, maxWorkers), leases, lost, holders, tasks) <==>
      StuckPlanBehind(plan, lost, holders, tasks)
  {
    var g := GraphOf(plan, maxWorkers);
    forall m | 1 <= m <= |plan|
      ensures WaitsWithin(g, tasks, m) <==> PlanWaits(plan, tasks, m)
      ensures WaitsWithin(g, lost, m) <==> PlanWaits(plan, lost, m)
      ensures Contends(g, leases, holders, m) <==> PlanContends(plan, holders, m)
      ensures ContendsFirst(g, leases, holders, m) <==> PlanContendsFirst(plan, holders, m)
    {
      SameReasons(plan, maxWorkers, leases, holders, tasks, m);
      SameReasons(plan, maxWorkers, leases, holders, lost, m);
    }
    assert tasks <= g.parents.Keys <==> forall t | t in tasks :: 1 <= t <= |plan|;
  }

  lemma SameReasons(plan: seq<PlanTask>, maxWorkers: int, leases: map<string, int>, holders: set<int>,
                    tasks: set<int>, m: int)
    requires LeasesBuilt(plan, |plan|, leases) && 1 <= m <= |plan|
    ensures var g := GraphOf(plan, maxWorkers);
      && (WaitsWithin(g, tasks, m) <==> PlanWaits(plan, tasks, m))
      && (Contends(g, leases, holders, m) <==> PlanContends(plan, holders, m))
      && (ContendsFirst(g, leases, holders, m) <==> PlanContendsFirst(plan, holders, m))
  {
    var g := GraphOf(plan, maxWorkers);
    BuiltPaths(plan, maxWorkers, m);
    assert Paths(g, m) == ReadPaths(plan, m) && Parents(g, m) == PlanParents(plan, m);
    forall p ensures Withheld(leases, holders, m, p) <==> PlanWithheld(plan, holders, m, p) {
      WithheldByPlan(plan, leases, holders, m, p);
    }
  }

  /** The state a tracker for the plan starts in. */
  ghost predicate PlanStart(plan: seq<PlanTask>, maxWorkers: int, s: Sys) {
    Init(GraphOf(plan, maxWorkers), s) && LeasesBuilt(plan, |plan|, s.leases)
  }

  lemma StartIsHappy(plan: seq<PlanTask>, maxWorkers: int, s: Sys)
    requires PlanStart(plan, maxWorkers, s)
    ensures HappyRun(GraphOf(plan, maxWorkers), |plan|, Run([s], []))
  {
    GraphOfPlan(plan, maxWorkers);
    forall p | p in s.leases ensures s.leases[p] in GraphOf(plan, maxWorkers).parents {
      assert FirstDeclarer(plan, s.leases[p], p);
    }
  }

  /** A plan completes in every long fair run exactly when none of its entries are stuck. */
  lemma PlanCompletesExactly(plan: seq<PlanTask>, maxWorkers: int, s: Sys)
    requires PlanStart(plan, maxWorkers, s)
    ensures (forall holders, tasks :: !StuckPlan(plan, holders, tasks)) <==>
      forall r, cuts | LongFairRun(GraphOf(plan, maxWorkers), |plan|, r, cuts) && r.states[0] == s ::
        AllDone(|plan|, r.Last())
  {
    var g := GraphOf(plan, maxWorkers);
    StartIsHappy(plan, maxWorkers, s);
    FleetCompletesExactly(g, |plan|, s);
    forall holders, tasks ensures StuckSet(g, s.leases, holders, tasks) <==> StuckPlan(plan, holders, tasks) {
      StuckPlanExactly(plan, maxWorkers, s.leases, {}, holders, tasks);
    }
  }

  ghost predicate StuckEntry(plan: seq<PlanTask>, lost: set<int>, t: int) {
    exists holders, tasks :: t in tasks && StuckPlanBehind(plan, lost, holders, tasks)
  }

  lemma StuckEntryExactly(plan: seq<PlanTask>, maxWorkers: int, leases: map<string, int>, lost: set<int>, t: int)
    requires LeasesBuilt(plan, |plan|, leases)
    ensures StuckTask(GraphOf(plan, maxWorkers), leases, lost, t) <==> StuckEntry(plan, lost, t)
  {
    forall holders, tasks
      ensures StuckBehind(GraphOf(plan, maxWorkers), leases, lost, holders, tasks) <==>
        StuckPlanBehind(plan, lost, holders, tasks)
    {
      StuckPlanExactly(plan, maxWorkers, leases, lost, holders, tasks);
    }
  }

  /** However the workers end, the plan decides from the losers alone which entries complete. */
  lemma PlanSettles(plan: seq<PlanTask>, maxWorkers: int, r: Run, cuts: seq<nat>, t: int)
    requires LongFair(GraphOf(plan, maxWorkers), |plan|, r, cuts)
    requires PlanStart(plan, maxWorkers, r.states[0]) && 1 <= t <= |plan|
    ensures var lost := Losers(r, |r.acts|);
      Is(r.Last().status, t, Completed) <==> t !in lost && !StuckEntry(plan, lost, t)
  {
    FleetSettles(GraphOf(plan, maxWorkers), |plan|, r, cuts);
    StuckEntryExactly(plan, maxWorkers, r.states[0].leases, Losers(r, |r.acts|), t);
  }

  /** No execution at all, with whatever failures and crashes, dispatches an entry stuck behind lost
      ones while those are not completed. */
  lemma StuckEntryNeverRuns(plan: seq<PlanTask>, maxWorkers: int, r: Run, k: nat,
                            lost: set<int>, holders: set<int>, tasks: set<int>, m: int)
    requires Execution(GraphOf(plan, maxWorkers), r) && PlanStart(plan, maxWorkers, r.states[0]) && k < |r.states|
    requires StuckPlanBehind(plan, lost, holders, tasks) && NotCompleted(r.states[k].status, lost) && m in tasks
    ensures Undispatched(r.states[k], m)
  {
    StuckPlanExactly(plan, maxWorkers, r.states[0].leases, lost, holders, tasks);
    StuckNeverRuns(GraphOf(plan, maxWorkers), r, k, lost, holders, tasks);
  }

  /** Reading paths in order is enough. */
  lemma InOrderIsNotStuck(plan: seq<PlanTask>, maxWorkers: int, s: Sys, holders: set<int>, tasks: set<int>)
    requires ReadInOrder(plan) && PlanStart(plan, maxWorkers, s)
    ensures !StuckPlan(plan, holders, tasks)
  {
    var g := GraphOf(plan, maxWorkers);
    GraphOfPlan(plan, maxWorkers);
    PlanLeasesExactly(plan, maxWorkers, s.leases);
    OrderedIsStuckless(g, |plan|, s.leases);
    assert !StuckSet(g, s.leases, holders, tasks);
    StuckPlanExactly(plan, maxWorkers, s.leases, {}, holders, tasks);
  }

  /** fleetCmd up to the start of its tracker: what happens from here is decided by the plan. */
  method StartFleet(plan: seq<PlanTask>, maxWorkers: int) returns (tracker: Tracker)
    ensures fresh(tracker) && tracker.Valid() && tracker.main == Idle && tracker.run.acts == []
    ensures tracker.g == GraphOf(plan, maxWorkers) && PlanStart(plan, maxWorkers, tracker.View())
    ensures tracker.g.maxWorkers == if maxWorkers < 1 then 1 else maxWorkers
    ensures HappyRun(tracker.g, |plan|, tracker.run)
  {
    var dag := BuildPlan(plan);
    BuiltGraph(plan, maxWorkers, dag);
    GraphOfPlan(plan, maxWorkers);
    tracker := new Tracker(dag, GraphOf(plan, maxWorkers));
    StartIsHappy(plan, maxWorkers, tracker.View());
  }
}
