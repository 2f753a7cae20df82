/** The task store: the dag_tasks, task_dependencies and path_leases tables.  Every method is one
    statement, or one section under the store's lock. */
module DagStore {
  import opened Options
  import opened FleetMachine
  import opened Sets

  // ----- the chain of depends_on columns

  function Next(dep: map<int, int>, t: int): Option<int> {
    if t in dep && dep[t] != 0 then Some(dep[t]) else None
  }

  /** The k-th task on the chain that starts at t. */
  function Chain(dep: map<int, int>, t: int, k: nat): Option<int> {
    if k == 0 then Some(t)
    else match Chain(dep, t, k - 1)
         case None => None
         case Some(x) => Next(dep, x)
  }

  ghost predicate EndsAt(dep: map<int, int>, t: int, k: nat) {
    Chain(dep, t, k).Some? && Chain(dep, t, k + 1).None?
  }

  const DEPTH_LIMIT: nat := 100

  /** The chain from `to` ends at k without meeting `from`. */
  ghost predicate Avoids(dep: map<int, int>, from: int, to: int, k: nat) {
    EndsAt(dep, to, k) && forall j: nat | j <= k :: Chain(dep, to, j) != Some(from)
  }

  /** When DetectCircular(from, to) returns nil: the chain from `to` ends within the limit and
      does not meet `from`. */
  ghost predicate Accepts(dep: map<int, int>, from: int, to: int) {
    exists k: nat :: k < DEPTH_LIMIT && Avoids(dep, from, to, k)
  }

  /** Beyond its end a chain stays ended. */
  lemma {:induction false} Ended(dep: map<int, int>, t: int, i: nat, j: nat)
    requires i <= j && Chain(dep, t, i).None?
    ensures Chain(dep, t, j).None?
  {
    if i < j { Ended(dep, t, i, j - 1); }
  }

  /** A chain that repeats a task never ends. */
  lemma {:induction false} Periodic(dep: map<int, int>, t: int, i: nat, j: nat, d: nat)
    requires i < j && Chain(dep, t, i) == Chain(dep, t, j)
    ensures Chain(dep, t, i + d) == Chain(dep, t, j + d)
  {
    if d > 0 { Periodic(dep, t, i, j, d - 1); }
  }

  lemma CycleNeverEnds(dep: map<int, int>, t: int, i: nat, j: nat, k: nat)
    requires i < j && Chain(dep, t, j).Some? && Chain(dep, t, i) == Chain(dep, t, j)
    ensures !EndsAt(dep, t, k)
  {
    if EndsAt(dep, t, k) {
      if k < j {
        Ended(dep, t, k + 1, j);
      } else {
        Periodic(dep, t, i, j, k - j + 1);
        Ended(dep, t, k + 1, k + 1);
        CycleNeverEnds(dep, t, i, j, i + (k - j));
        assert Chain(dep, t, i + (k - j) + 1) == Chain(dep, t, k + 1);
        Periodic(dep, t, i, j, k - j);
        assert false;
      }
    }
  }

  ghost predicate Ends(dep: map<int, int>, t: int) {
    exists k: nat :: EndsAt(dep, t, k)
  }

  ghost predicate Acyclic(dep: map<int, int>) {
    forall t :: Ends(dep, t)
  }

  /** trail is the beginning of the chain from `to`. */
  ghost predicate Trail(dep: map<int, int>, to: int, trail: seq<int>) {
    |trail| > 0 && trail[0] == to && forall j | 0 <= j < |trail| - 1 :: Next(dep, trail[j]) == Some(trail[j + 1])
  }

  lemma {:induction false} TrailIsChain(dep: map<int, int>, to: int, trail: seq<int>, j: nat)
    requires Trail(dep, to, trail) && j < |trail|
    ensures Chain(dep, to, j) == Some(trail[j])
    ensures j < |trail| - 1 ==> !EndsAt(dep, to, j)
  {
    if j > 0 { TrailIsChain(dep, to, trail, j - 1); }
    if j < |trail| - 1 { assert Chain(dep, to, j + 1) == Next(dep, trail[j]) == Some(trail[j + 1]); }
  }

  /** A trail that arrives at `from`, repeats a task or is longer than the limit is refused. */
  lemma Refused(dep: map<int, int>, from: int, to: int, trail: seq<int>)
    requires Trail(dep, to, trail)
    requires var last := |trail| - 1; trail[last] == from || trail[last] in trail[..last] || last >= DEPTH_LIMIT
    ensures !Accepts(dep, from, to)
  {
    var last := |trail| - 1;
    forall k: nat | k < DEPTH_LIMIT ensures !Avoids(dep, from, to, k) {
      TrailIsChain(dep, to, trail, last);
      if k < last {
        TrailIsChain(dep, to, trail, k);
      } else if trail[last] != from {
        var j :| 0 <= j < last && trail[..last][j] == trail[last];
        TrailIsChain(dep, to, trail, j);
        CycleNeverEnds(dep, to, j, last, k);
      }
    }
  }

  /** A trail without `from` whose last task has no parent is accepted within the limit. */
  lemma Accepted(dep: map<int, int>, from: int, to: int, trail: seq<int>)
    requires Trail(dep, to, trail) && from !in trail && |trail| <= DEPTH_LIMIT
    requires Next(dep, trail[|trail| - 1]) == None
    ensures Accepts(dep, from, to)
  {
    var last := |trail| - 1;
    forall j: nat | j <= last ensures Chain(dep, to, j) == Some(trail[j]) { TrailIsChain(dep, to, trail, j); }
    assert Avoids(dep, from, to, last);
  }

  lemma {:induction false} TrailTo(dep: map<int, int>, t: int, k: nat) returns (trail: seq<int>)
    requires Chain(dep, t, k).Some?
    ensures Trail(dep, t, trail) && |trail| == k + 1
    ensures forall j: nat | j <= k :: Chain(dep, t, j) == Some(trail[j])
  {
    if k == 0 { return [t]; }
    var before := TrailTo(dep, t, k - 1);
    trail := before + [Chain(dep, t, k).value];
  }

  /** Acceptance, said of the column itself. */
  lemma AcceptsMeans(dep: map<int, int>, from: int, to: int)
    ensures Accepts(dep, from, to) <==> exists walk: seq<int> ::
      && 0 < |walk| <= 100 && walk[0] == to && from !in walk
      && (forall j | 0 <= j < |walk| - 1 :: walk[j] in dep && dep[walk[j]] == walk[j + 1] && dep[walk[j]] != 0)
      && (walk[|walk| - 1] !in dep || dep[walk[|walk| - 1]] == 0)
  {
    if walk: seq<int> :| (
        && 0 < |walk| <= 100 && walk[0] == to && from !in walk
        && (forall j | 0 <= j < |walk| - 1 :: walk[j] in dep && dep[walk[j]] == walk[j + 1] && dep[walk[j]] != 0)
        && (walk[|walk| - 1] !in dep || dep[walk[|walk| - 1]] == 0)) {
      Accepted(dep, from, to, walk);
    }
    if k: nat :| k < DEPTH_LIMIT && Avoids(dep, from, to, k) {
      var walk := AcceptedWalk(dep, from, to, k);
      assert walk[0] == to && from !in walk;
    }
  }

  lemma AcceptedWalk(dep: map<int, int>, from: int, to: int, k: nat) returns (walk: seq<int>)
    requires k < DEPTH_LIMIT && Avoids(dep, from, to, k)
    ensures 0 < |walk| <= 100 && walk[0] == to && from !in walk
    ensures forall j | 0 <= j < |walk| - 1 :: walk[j] in dep && dep[walk[j]] == walk[j + 1] && dep[walk[j]] != 0
    ensures walk[|walk| - 1] !in dep || dep[walk[|walk| - 1]] == 0
  {
    walk := TrailTo(dep, to, k);
    forall j | 0 <= j < |walk| - 1 ensures walk[j] in dep && dep[walk[j]] == walk[j + 1] && dep[walk[j]] != 0 {
      assert Next(dep, walk[j]) == Some(walk[j + 1]);
    }
    assert Chain(dep, to, k + 1) == Next(dep, walk[k]);
  }

  /** Once DetectCircular accepted, `from` is not on the chain from `to` at any depth. */
  lemma AcceptedIsUnreachable(dep: map<int, int>, from: int, to: int, j: nat)
    requires Accepts(dep, from, to)
    ensures Chain(dep, to, j) != Some(from)
  {
    var k: nat :| k < DEPTH_LIMIT && Avoids(dep, from, to, k);
    if j > k { Ended(dep, to, k + 1, j); }
  }

  /** A chain that avoids `from` is not changed by giving `from` a new parent. */
  lemma {:induction false} ChainAvoids(dep: map<int, int>, from: int, to: int, t: int, k: nat)
    requires forall j: nat | j < k :: Chain(dep, t, j) != Some(from)
    ensures Chain(dep[from := to], t, k) == Chain(dep, t, k)
  {
    if k > 0 { ChainAvoids(dep, from, to, t, k - 1); }
  }

  lemma {:induction false} ChainCompose(dep: map<int, int>, t: int, i: nat, x: int, k: nat)
    requires Chain(dep, t, i) == Some(x)
    ensures Chain(dep, t, i + k) == Chain(dep, x, k)
  {
    if k > 0 { ChainCompose(dep, t, i, x, k - 1); }
  }

  lemma {:induction false} FirstMeeting(dep: map<int, int>, t: int, from: int, k: nat) returns (i: nat)
    ensures i <= k && forall j: nat | j < i :: Chain(dep, t, j) != Some(from)
    ensures i == k || Chain(dep, t, i) == Some(from)
  {
    i := 0;
    while i < k && Chain(dep, t, i) != Some(from)
      invariant i <= k && forall j: nat | j < i :: Chain(dep, t, j) != Some(from)
    {
      i := i + 1;
    }
  }

  /** Making `to` the parent of `from` keeps every chain finite, if DetectCircular accepted it. */
  lemma AcceptedEdgeKeepsAcyclic(dep: map<int, int>, from: int, to: int)
    requires Acyclic(dep) && Accepts(dep, from, to) && to != 0
    ensures Acyclic(dep[from := to])
  {
    var dep' := dep[from := to];
    forall t ensures Ends(dep', t) {
      assert Ends(dep, t);
      var e: nat :| EndsAt(dep, t, e);
      var i := FirstMeeting(dep, t, from, e + 1);
      ChainAvoids(dep, from, to, t, i);
      if i == e + 1 {
        ChainAvoids(dep, from, to, t, e);
        assert EndsAt(dep', t, e);
      } else {
        var k: nat :| k < DEPTH_LIMIT && Avoids(dep, from, to, k);
        ChainAvoids(dep, from, to, to, k);
        ChainAvoids(dep, from, to, to, k + 1);
        assert Chain(dep', t, i + 1) == Some(to);
        ChainCompose(dep', t, i + 1, to, k);
        ChainCompose(dep', t, i + 1, to, k + 1);
        assert EndsAt(dep', t, i + 1 + k);
      }
    }
  }

  // ----- the same for the edge table

  /** A path along edges from a task to its parents, of length |path| - 1. */
  ghost predicate EdgePath(edges: set<(int, int)>, path: seq<int>) {
    |path| > 0 && forall i | 0 < i < |path| :: (path[i - 1], path[i]) in edges
  }

  ghost predicate Reaches(edges: set<(int, int)>, t: int, p: int) {
    exists path :: EdgePath(edges, path) && path[0] == t && path[|path| - 1] == p
  }

  /** No task is its own ancestor. */
  ghost predicate AcyclicEdges(edges: set<(int, int)>) {
    forall path :: EdgePath(edges, path) && |path| > 1 ==> path[0] != path[|path| - 1]
  }

  /** The path up to its first use of a new edge. */
  lemma FirstUse(edges: set<(int, int)>, from: int, to: int, path: seq<int>) returns (head: seq<int>)
    requires EdgePath(edges + {(from, to)}, path)
    ensures EdgePath(edges, head) && head[0] == path[0]
    ensures head == path || head[|head| - 1] == from
  {
    head := [path[0]];
    while |head| < |path| && head[|head| - 1] != from
      invariant 0 < |head| <= |path| && head == path[..|head|] && EdgePath(edges, head)
    {
      head := path[..|head| + 1];
    }
  }

  /** The path after its last use of a new edge. */
  lemma {:induction false} LastUse(edges: set<(int, int)>, from: int, to: int, path: seq<int>) returns (tail: seq<int>)
    requires EdgePath(edges + {(from, to)}, path)
    ensures EdgePath(edges, tail) && tail[|tail| - 1] == path[|path| - 1]
    ensures tail == path || tail[0] == to
  {
    if |path| == 1 || (path[0], path[1]) in edges {
      if |path| == 1 { return path; }
      tail := LastUse(edges, from, to, path[1..]);
      if tail == path[1..] { tail := path; }
    } else {
      tail := LastUse(edges, from, to, path[1..]);
      if tail == path[1..] { assert tail[0] == to; }
    }
  }

  /** A new edge keeps the table acyclic exactly when its parent does not descend from its child. */
  lemma EdgeKeepsAcyclicExactly(edges: set<(int, int)>, from: int, to: int)
    requires AcyclicEdges(edges)
    ensures AcyclicEdges(edges + {(from, to)}) <==> !Reaches(edges, to, from)
  {
    var more := edges + {(from, to)};
    if path :| EdgePath(edges, path) && path[0] == to && path[|path| - 1] == from {
      var round := [from] + path;
      assert EdgePath(more, round) by {
        forall i | 0 < i < |round| ensures (round[i - 1], round[i]) in more {}
      }
      assert !AcyclicEdges(more);
    }
    if path :| EdgePath(more, path) && |path| > 1 && path[0] == path[|path| - 1] {
      var head := FirstUse(edges, from, to, path);
      var tail := LastUse(edges, from, to, path);
      // `to` reaches the end of the path, which is its start, and that reaches `from`
      var joined := tail + head[1..];
      assert EdgePath(edges, joined);
      assert Reaches(edges, to, from);
    }
  }

  /** Along the chain from t the edges are the legacy parents, no fewer and no more. */
  ghost predicate Mirrored(dep: map<int, int>, edges: set<(int, int)>, t: int) {
    forall j: nat, x | Chain(dep, t, j) == Some(x) :: Mirrors(dep, edges, x)
  }

  ghost predicate Mirrors(dep: map<int, int>, edges: set<(int, int)>, x: int) {
    forall p :: (x, p) in edges <==> Next(dep, x) == Some(p)
  }

  lemma {:induction false} ChainIsPath(dep: map<int, int>, edges: set<(int, int)>, t: int, j: nat)
    returns (path: seq<int>)
    requires Mirrored(dep, edges, t) && Chain(dep, t, j).Some?
    ensures EdgePath(edges, path) && path[0] == t && Some(path[|path| - 1]) == Chain(dep, t, j)
  {
    if j == 0 { return [t]; }
    path := ChainIsPath(dep, edges, t, j - 1);
    path := path + [Chain(dep, t, j).value];
  }

  lemma {:induction false} PathIsChain(dep: map<int, int>, edges: set<(int, int)>, path: seq<int>, k: nat)
    requires EdgePath(edges, path) && k < |path| && Mirrored(dep, edges, path[0])
    ensures Chain(dep, path[0], k) == Some(path[k])
  {
    if k > 0 {
      PathIsChain(dep, edges, path, k - 1);
      assert (path[k - 1], path[k]) in edges;
      var x, p := path[k - 1], path[k];
      assert Mirrors(dep, edges, x) && (x, p) in edges;
      assert Chain(dep, path[0], k) == Next(dep, x);
    }
  }

  /** DetectCircular follows the legacy column; where that is all there is and the chain is short
      it decides whether the edge closes a cycle. */
  lemma AcceptsMirrorsEdges(dep: map<int, int>, edges: set<(int, int)>, from: int, to: int, k: nat)
    requires AcyclicEdges(edges) && Mirrored(dep, edges, to) && EndsAt(dep, to, k) && k < DEPTH_LIMIT
    ensures Accepts(dep, from, to) <==> AcyclicEdges(edges + {(from, to)})
  {
    EdgeKeepsAcyclicExactly(edges, from, to);
    if path :| EdgePath(edges, path) && path[0] == to && path[|path| - 1] == from {
      PathIsChain(dep, edges, path, |path| - 1);
      if Accepts(dep, from, to) { AcceptedIsUnreachable(dep, from, to, |path| - 1); }
    }
    if !Accepts(dep, from, to) {
      assert !Avoids(dep, from, to, k);
      var j: nat :| j <= k && Chain(dep, to, j) == Some(from);
      var path := ChainIsPath(dep, edges, to, j);
      assert Reaches(edges, to, from);
    }
  }

  /** With its own column empty `to` is accepted as the parent of any other task, whatever its edges;
      so it is accepted into a cycle exactly when it descends from `from`. */
  lemma AcceptedCycleExactly(dep: map<int, int>, edges: set<(int, int)>, from: int, to: int)
    requires AcyclicEdges(edges) && Next(dep, to) == None && from != to
    ensures Accepts(dep, from, to)
    ensures AcyclicEdges(edges + {(from, to)}) <==> !Reaches(edges, to, from)
  {
    Accepted(dep, from, to, [to]);
    EdgeKeepsAcyclicExactly(edges, from, to);
  }

  /** Two tasks with empty columns, the second depending on the first: the edge back is accepted. */
  lemma AcceptedCycle()
    ensures var dep, edges := map[1 := 0, 2 := 0], {(2, 1)};
      AcyclicEdges(edges) && Accepts(dep, 1, 2) && !AcyclicEdges(edges + {(1, 2)})
  {
    var edges := {(2, 1)};
    forall path | EdgePath(edges, path) && |path| > 1 ensures path[0] != path[|path| - 1] {
      assert (path[0], path[1]) in edges && (path[|path| - 2], path[|path| - 1]) in edges;
    }
    AcceptedCycleExactly(map[1 := 0, 2 := 0], edges, 1, 2);
    assert EdgePath(edges, [2, 1]);
  }

  // ----- the store

  /** The join of task_dependencies with dag_tasks has no row outside completed and failed. */
  ghost predicate ParentRowsTerminal(edges: set<(int, int)>, status: map<int, Status>, t: int) {
    forall e | e in edges && e.0 == t :: e.1 in status ==> Terminal(status[e.1])
  }

  ghost predicate SomeParentRowFailed(edges: set<(int, int)>, status: map<int, Status>, t: int) {
    exists e :: e in edges && e.0 == t && Is(status, e.1, Failed)
  }

  lemma TerminalMeans(edges: set<(int, int)>, status: map<int, Status>, t: int)
    ensures ParentRowsTerminal(edges, status, t) <==>
      forall q | (t, q) in edges && q in status :: status[q] == Completed || status[q] == Failed
  {
    if ParentRowsTerminal(edges, status, t) {
      forall q | (t, q) in edges && q in status ensures status[q] == Completed || status[q] == Failed {
        var e := (t, q);
        assert e in edges && e.0 == t;
      }
    }
    if forall q | (t, q) in edges && q in status :: status[q] == Completed || status[q] == Failed {
      forall e | e in edges && e.0 == t && e.1 in status ensures Terminal(status[e.1]) { assert e == (t, e.1); }
    }
  }

  lemma FailedMeans(edges: set<(int, int)>, status: map<int, Status>, t: int)
    ensures SomeParentRowFailed(edges, status, t) <==> exists q :: (t, q) in edges && q in status && status[q] == Failed
  {
    if e :| e in edges && e.0 == t && Is(status, e.1, Failed) { assert e == (t, e.1); }
    if q :| (t, q) in edges && q in status && status[q] == Failed {
      var e := (t, q);
      assert e in edges && e.0 == t && Is(status, e.1, Failed);
    }
  }

  ghost function FailRows(edges: set<(int, int)>, status: map<int, Status>, q: int): map<int, Status> {
    map t | t in status :: if (t, q) in edges && status[t] == Blocked then Failed else status[t]
  }

  class Store {
    var status: map<int, Status>
    var dep: map<int, int>
    var owned: map<int, string>
    var edges: set<(int, int)>
    var leases: map<string, int>
    var nextId: int

    ghost predicate Valid()
      reads this
    {
      && dep.Keys == status.Keys && owned.Keys == status.Keys
      && nextId >= 1
      && forall t | t in status :: 1 <= t < nextId
    }

    constructor ()
      ensures Valid() && status == map[] && edges == {} && leases == map[] && nextId == 1
    {
      status, dep, owned, edges, leases, nextId := map[], map[], map[], {}, map[], 1;
    }

    /** INSERT of a task row; None when the parent named in the legacy column does not exist. */
    method CreateTaskFull(dependsOn: int, ownedPaths: string) returns (id: Option<int>)
      requires Valid()
      modifies this
      ensures Valid() && leases == old(leases)
      ensures id == if dependsOn > 0 && dependsOn !in old(status) then None else Some(old(nextId))
      ensures id.None? ==> unchanged(this)
      ensures id.Some? ==>
        && id.value !in old(status)
        && nextId == old(nextId) + 1
        && status == old(status)[id.value := if dependsOn > 0 then Blocked else Pending]
        && dep == old(dep)[id.value := dependsOn]
        && owned == old(owned)[id.value := ownedPaths]
        && edges == old(edges) + if dependsOn > 0 then {(id.value, dependsOn)} else {}
    {
      var x := Pending;
      if dependsOn > 0 {
        x := Blocked;
        if dependsOn !in status { return None; }
      }
      status, dep, owned := status[nextId := x], dep[nextId := dependsOn], owned[nextId := ownedPaths];
      if dependsOn > 0 { edges := edges + {(nextId, dependsOn)}; }
      id := Some(nextId);
      nextId := nextId + 1;
    }

    /** INSERT OR IGNORE of an edge. */
    method AddDependency(t: int, on: int)
      modifies this`edges
      ensures edges == old(edges) + {(t, on)}
    {
      edges := edges + {(t, on)};
    }

    method UpdateTaskStatus(t: int, x: Status)
      modifies this`status
      ensures status == if t in old(status) then old(status)[t := x] else old(status)
    {
      status := WithStatus(status, t, x);
    }

    /** A lease is granted unless another task holds the path; an own lease is granted again. */
    method AcquirePathLease(t: int, path: string) returns (ok: bool)
      modifies this`leases
      ensures ok <==> path !in old(leases) || old(leases)[path] == t
      ensures leases == if ok then old(leases)[path := t] else old(leases)
    {
      if path in leases && leases[path] != t { return false; }
      if path !in leases { leases := leases[path := t]; }
      return true;
    }

    method ReleasePathLeases(t: int)
      modifies this`leases
      ensures leases == WithoutLeases(old(leases), t)
      ensures forall p :: p in leases <==> p in old(leases) && old(leases)[p] != t
      ensures forall p | p in leases :: leases[p] == old(leases)[p]
    {
      leases := WithoutLeases(leases, t);
    }

    /** SELECT ... WHERE status=? without ORDER BY: the rows come in any order. */
    method TasksWithStatus(x: Status) returns (rows: seq<int>)
      ensures forall i, j | 0 <= i < j < |rows| :: rows[i] != rows[j]
      ensures forall t :: t in rows <==> t in status && status[t] == x
    {
      rows := AnyOrder(WithStatusSet(status, x));
    }

    /** SELECT DISTINCT task_id FROM task_dependencies WHERE depends_on_task_id=?. */
    method Dependents(q: int) returns (rows: seq<int>)
      ensures forall i, j | 0 <= i < j < |rows| :: rows[i] != rows[j]
      ensures forall t :: t in rows <==> (t, q) in edges
    {
      rows := AnyOrder(set e | e in edges && e.1 == q :: e.0);
    }

    method AllParentsComplete(t: int) returns (done: bool)
      ensures done <==> ParentRowsTerminal(edges, status, t)
      ensures done <==>
        forall q | (t, q) in edges && q in status :: status[q] == Completed || status[q] == Failed
    {
      var pending := set e | e in edges && e.0 == t && e.1 in status && !Terminal(status[e.1]);
      done := pending == {};
      HasElement(pending);
      forall e | e in edges && e.0 == t ensures e in pending <==> e.1 in status && !Terminal(status[e.1]) {}
      TerminalMeans(edges, status, t);
    }

    method AnyParentFailed(t: int) returns (failed: bool)
      ensures failed <==> SomeParentRowFailed(edges, status, t)
      ensures failed <==> exists q :: (t, q) in edges && q in status && status[q] == Failed
    {
      failed := exists e :: e in edges && e.0 == t && Is(status, e.1, Failed);
      FailedMeans(edges, status, t);
    }

    /** UPDATE ... WHERE id=? AND status='blocked'; n is the number of rows changed. */
    method MoveBlocked(t: int, x: Status) returns (n: nat)
      modifies this`status
      ensures n == if t in old(status) && old(status)[t] == Blocked then 1 else 0
      ensures status == if n == 1 then old(status)[t := x] else old(status)
    {
      n := if t in status && status[t] == Blocked then 1 else 0;
      status := IfBlocked(status, t, x);
    }

    /** Blocked children of a failed task become failed; one level only. */
    method FailDependents(q: int)
      modifies this`status
      ensures status == FailRows(edges, old(status), q)
      ensures status.Keys == old(status).Keys
      ensures forall t | t in status ::
        status[t] == if (t, q) in edges && old(status)[t] == Blocked then Failed else old(status)[t]
    {
      status := map t | t in status :: if (t, q) in edges && status[t] == Blocked then Failed else status[t];
    }

    /** Walks the depends_on chain of `to`; true stands for the nil error. */
    method DetectCircular(from: int, to: int) returns (ok: bool)
      ensures ok <==> Accepts(dep, from, to)
      // along the column from `to` one comes, within 100 tasks and without meeting `from`, to one without a parent
      ensures ok <==> exists walk: seq<int> ::
        && 0 < |walk| <= 100 && walk[0] == to && from !in walk
        && (forall j | 0 <= j < |walk| - 1 :: walk[j] in dep && dep[walk[j]] == walk[j + 1] && dep[walk[j]] != 0)
        && (walk[|walk| - 1] !in dep || dep[walk[|walk| - 1]] == 0)
    {
      AcceptsMeans(dep, from, to);
      ok := WalkChain(from, to);
    }

    method WalkChain(from: int, to: int) returns (ok: bool)
      ensures ok <==> Accepts(dep, from, to)
    {
      if from == to {
        Refused(dep, from, to, [to]);
        return false;
      }
      var current, visited := to, {};
      ghost var trail: seq<int> := [];
      for i := 0 to DEPTH_LIMIT
        invariant |trail| == i && Trail(dep, to, trail + [current])
        invariant forall x :: x in visited <==> x in trail
        invariant from !in trail
      {
        if current == from || current in visited {
          assert (trail + [current])[..i] == trail;
          Refused(dep, from, to, trail + [current]);
        }
        if current == from { return false; }
        if current in visited { return false; }
        visited, trail := visited + {current}, trail + [current];
        if current !in dep || dep[current] == 0 {
          Accepted(dep, from, to, trail);
          return true;
        }
        current := dep[current];
      }
      Refused(dep, from, to, trail + [current]);
      return false;
    }
  }
}
