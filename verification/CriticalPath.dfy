/** Critical path analysis: topological order, depth, downstream counts and the longest chain. */
module CriticalPath {
  import opened Dependencies
  import opened DepGraph
  import opened Items
  import opened Kahn
  import opened Seqs
  import opened Sorting
  import opened Wrappers

  // ----------------------------------------------------- downstream counts

  /** Adds one more dependent and all that depends on it. */
  lemma DownstreamEntry(g: Graph, adj: map<Id, seq<Id>>, y: Id)
    requires AdjacencyOf(g, adj) && y in g
    ensures forall x :: x in Downstream(g, y) <==> exists d :: d in adj[y] && (x == d || x in Downstream(g, d))
  {
    forall x
      ensures x in Downstream(g, y) <==> exists d :: d in adj[y] && (x == d || x in Downstream(g, d))
    {
      DownstreamStep(g, y, x);
      forall d
        ensures d in adj[y] <==> Dep(g, d, y)
      {
        AdjacentIsDependent(g, adj, d, y);
      }
    }
  }

  /** Everything at or below one of the first `k` dependents. */
  ghost predicate BelowOneOf(g: Graph, dependents: seq<Id>, k: nat, x: Id)
    requires k <= |dependents|
  {
    exists i :: 0 <= i < k && (x == dependents[i] || x in Downstream(g, dependents[i]))
  }

  /** The reachable set of one node, from the sets of its dependents. */
  method ReachableSet(ghost g: Graph, adj: map<Id, seq<Id>>, sets: map<Id, set<Id>>, y: Id) returns (below: set<Id>)
    requires AdjacencyOf(g, adj) && y in g
    requires forall d :: d in adj[y] ==> d in sets && sets[d] == Downstream(g, d)
    ensures below == Downstream(g, y)
  {
    below := {};
    var dependents := adj[y];
    for k := 0 to |dependents|
      invariant forall x :: x in below <==> BelowOneOf(g, dependents, k, x)
    {
      var d := dependents[k];
      ghost var before := below;
      below := below + {d};
      if d in sets {
        below := below + sets[d];
      }
      forall x
        ensures x in below <==> BelowOneOf(g, dependents, k + 1, x)
      {
        assert x in before <==> BelowOneOf(g, dependents, k, x);
      }
    }
    DownstreamEntry(g, adj, y);
    forall x
      ensures x in below <==> x in Downstream(g, y)
    {
      assert x in below <==> BelowOneOf(g, dependents, |dependents|, x);
    }
  }

  /** Walks the order backwards, so the sets of all dependents are final when a node is reached. */
  method CountDownstream(ghost g: Graph, adj: map<Id, seq<Id>>, ordered: seq<Id>) returns (count: map<Id, nat>)
    requires AdjacencyOf(g, adj) && TopologicalOrder(g, ordered)
    ensures count.Keys == g.Keys && forall y :: y in g ==> count[y] == |Downstream(g, y)|
  {
    count := map[];
    var sets: map<Id, set<Id>> := map[];
    var i := |ordered|;
    while i > 0
      invariant 0 <= i <= |ordered|
      invariant count.Keys == sets.Keys == Elements(ordered[i..])
      invariant forall y :: y in sets ==> sets[y] == Downstream(g, y) && count[y] == |sets[y]|
    {
      i := i - 1;
      var y := ordered[i];
      LaterDependents(g, adj, ordered, i);
      var below := ReachableSet(g, adj, sets, y);
      assert ordered[i..] == [y] + ordered[i + 1..];
      count := count[y := |below|];
      sets := sets[y := below];
    }
    assert ordered[0..] == ordered;
  }

  lemma LaterDependents(g: Graph, adj: map<Id, seq<Id>>, ordered: seq<Id>, i: nat)
    requires AdjacencyOf(g, adj) && TopologicalOrder(g, ordered) && i < |ordered|
    ensures ordered[i] in g && forall d :: d in adj[ordered[i]] ==> d in ordered[i + 1..]
  {
    var y := ordered[i];
    assert y in Elements(ordered);
    forall d | d in adj[y]
      ensures d in ordered[i + 1..]
    {
      AdjacentIsDependent(g, adj, d, y);
      assert d in Elements(ordered);
      var j :| 0 <= j < |ordered| && ordered[j] == d;
      assert Dep(g, ordered[j], y);
      var k :| 0 <= k < j && ordered[k] == y;
      assert k == i;
      assert ordered[i + 1..][j - i - 1] == d;
    }
  }

  // -------------------------------------------------------- longest chain

  lemma WalkSnoc(g: Graph, p: seq<Id>, x: Id)
    requires Walk(g, p) && Dep(g, p[|p| - 1], x)
    ensures Walk(g, p + [x])
  {
  }

  function Reverse(p: seq<Id>): (r: seq<Id>)
    ensures |r| == |p| && forall i :: 0 <= i < |p| ==> r[i] == p[|p| - 1 - i]
  {
    seq(|p|, i requires 0 <= i < |p| => p[|p| - 1 - i])
  }

  /** The last of the deepest entries. */
  function Deepest(deps: seq<Id>, depth: map<Id, nat>): (d: Id)
    requires deps != [] && forall x :: x in deps ==> x in depth
    ensures d in deps && forall x :: x in deps ==> depth[x] <= depth[d]
  {
    var last := deps[|deps| - 1];
    if |deps| == 1 then last else
      var d := Deepest(deps[..|deps| - 1], depth);
      assert deps == deps[..|deps| - 1] + [last];
      if depth[d] <= depth[last] then last else d
  }

  /** The greatest depth on the board, 0 when the board is empty. */
  method MaxDepth(depth: map<Id, nat>) returns (m: nat)
    ensures forall x :: x in depth ==> depth[x] <= m
    ensures m > 0 ==> exists x :: x in depth && depth[x] == m
  {
    m := 0;
    var rest := depth.Keys;
    while rest != {}
      invariant rest <= depth.Keys
      invariant forall x :: x in depth && x !in rest ==> depth[x] <= m
      invariant m > 0 ==> exists x :: x in depth && depth[x] == m
    {
      var x :| x in rest;
      if depth[x] > m {
        m := depth[x];
      }
      rest := rest - {x};
    }
  }

  lemma {:induction false} DepListUnique(active: seq<ItemInfo>, ids: set<Id>, i: ItemInfo)
    requires UniqueIds(active) && i in active
    ensures DepList(active, ids, i.id) == Known(i.dependsOn, ids)
  {
    var rest, last := active[..|active| - 1], active[|active| - 1];
    assert active == rest + [last];
    if i == last {
      assert i !in rest;
      DepListForeign(rest, ids, i.id);
    } else {
      assert i in rest;
      DepListUnique(rest, ids, i);
    }
  }

  lemma {:induction false} DepListForeign(active: seq<ItemInfo>, ids: set<Id>, x: Id)
    requires forall i :: i in active ==> i.id != x
    ensures DepList(active, ids, x) == []
  {
    if active != [] {
      DepListForeign(active[..|active| - 1], ids, x);
    }
  }

  /** `p` runs from a node without dependencies along dependents, and no chain of `g` is longer. */
  ghost predicate IsLongestPath(g: Graph, p: seq<Id>) {
    if p == [] then forall x, y :: !Dep(g, x, y)
    else Walk(g, Reverse(p)) && p[0] in g && g[p[0]] == [] && |p| > 1 && forall q :: Walk(g, q) ==> |q| <= |p|
  }

  /** The active dependencies of every active item. */
  method ActiveDepsOf(items: seq<ItemInfo>) returns (depsOf: map<Id, seq<Id>>)
    requires UniqueIds(Active(items))
    ensures depsOf == GraphOf(items)
  {
    var active, ids := Active(items), ActiveIds(items);
    depsOf := map[];
    for i := 0 to |active|
      invariant forall x :: x in depsOf ==> x in ids && depsOf[x] == GraphOf(items)[x]
      invariant forall k :: 0 <= k < i ==> active[k].id in depsOf
    {
      DepListUnique(active, ids, active[i]);
      depsOf := depsOf[active[i].id := Known(active[i].dependsOn, ids)];
    }
  }

  lemma DeepestStep(g: Graph, depth: map<Id, nat>, x: Id, y: Id)
    requires DepthEquations(g, depth) && Dep(g, x, y)
    requires forall z :: z in g[x] ==> z in g && depth[z] <= depth[y]
    ensures depth[x] == depth[y] + 1
  {
    assert HasStep(g, depth, x);
    var z :| Dep(g, x, z) && depth[x] == depth[z] + 1;
  }

  lemma LongestFound(g: Graph, depth: map<Id, nat>, maxDepth: nat, back: seq<Id>)
    requires DepthEquations(g, depth) && Walk(g, back) && maxDepth > 0
    requires forall x :: x in depth ==> depth[x] <= maxDepth
    requires var root := back[|back| - 1]; root in g && g[root] == [] && |back| + depth[root] == maxDepth + 1
    ensures IsLongestPath(g, Reverse(back)) && |back| == maxDepth + 1
  {
    var root := back[|back| - 1];
    assert depth[root] > 0 ==> HasStep(g, depth, root);
    assert Reverse(Reverse(back)) == back;
    forall q | Walk(g, q)
      ensures |q| <= |back|
    {
      DepthBoundsWalks(g, depth, q);
    }
  }

  method FirstDeepest(ordered: seq<Id>, depth: map<Id, nat>, maxDepth: nat) returns (start: Id)
    requires Elements(ordered) == depth.Keys
    requires exists x :: x in depth && depth[x] == maxDepth
    ensures start in depth && depth[start] == maxDepth
  {
    assert forall k :: 0 <= k < |ordered| ==> ordered[k] in Elements(ordered);
    var i := 0;
    while i < |ordered| && depth[ordered[i]] != maxDepth
      invariant 0 <= i <= |ordered|
      invariant forall k :: 0 <= k < i ==> depth[ordered[k]] != maxDepth
    {
      i := i + 1;
    }
    assert i < |ordered| by {
      var x :| x in depth && depth[x] == maxDepth;
      assert x in Elements(ordered);
    }
    start := ordered[i];
  }

  /** Walks from the first deepest node down to a root, one level of depth at a time. */
  method TraceLongestPath(items: seq<ItemInfo>, ordered: seq<Id>, depth: map<Id, nat>, maxDepth: nat)
    returns (path: seq<Id>)
    requires UniqueIds(Active(items)) && DepthEquations(GraphOf(items), depth)
    requires Elements(ordered) == depth.Keys
    requires forall x :: x in depth ==> depth[x] <= maxDepth
    requires maxDepth > 0 ==> exists x :: x in depth && depth[x] == maxDepth
    ensures IsLongestPath(GraphOf(items), path)
    ensures |path| == if maxDepth == 0 then 0 else maxDepth + 1
  {
    ghost var g := GraphOf(items);
    GraphClosed(items);
    if maxDepth == 0 {
      return [];
    }
    var depsOf := ActiveDepsOf(items);
    var current := FirstDeepest(ordered, depth, maxDepth);
    var back := [current];
    while depsOf[current] != []
      invariant current in g
      invariant Walk(g, back) && back[|back| - 1] == current
      invariant |back| + depth[current] == maxDepth + 1
      decreases depth[current]
    {
      var next := Deepest(depsOf[current], depth);
      DeepestStep(g, depth, current, next);
      WalkSnoc(g, back, next);
      back, current := back + [next], next;
    }
    LongestFound(g, depth, maxDepth, back);
    path := Reverse(back);
  }

  // ------------------------------------------------------ ready and blocked

  predicate HasUnmet(i: ItemInfo, ids: set<Id>) {
    exists d :: d in i.dependsOn && d in ids
  }

  function ReadyIds(active: seq<ItemInfo>, ids: set<Id>): seq<Id> {
    IdsOf(Filter(active, (i: ItemInfo) => !HasUnmet(i, ids)))
  }

  function BlockedIds(active: seq<ItemInfo>, ids: set<Id>): seq<Id> {
    IdsOf(Filter(active, (i: ItemInfo) => HasUnmet(i, ids)))
  }

  lemma SplitStep(active: seq<ItemInfo>, ids: set<Id>, i: nat)
    requires i < |active|
    ensures ReadyIds(active[..i + 1], ids) ==
            ReadyIds(active[..i], ids) + if HasUnmet(active[i], ids) then [] else [active[i].id]
    ensures BlockedIds(active[..i + 1], ids) ==
            BlockedIds(active[..i], ids) + if HasUnmet(active[i], ids) then [active[i].id] else []
  {
    assert active[..i + 1][..i] == active[..i];
  }

  method SplitReady(items: seq<ItemInfo>) returns (ready: seq<Id>, blocked: seq<Id>)
    ensures ready == ReadyIds(Active(items), ActiveIds(items))
    ensures blocked == BlockedIds(Active(items), ActiveIds(items))
  {
    var active, ids := Active(items), ActiveIds(items);
    ready, blocked := [], [];
    for i := 0 to |active|
      invariant ready == ReadyIds(active[..i], ids)
      invariant blocked == BlockedIds(active[..i], ids)
    {
      SplitStep(active, ids, i);
      if HasUnmet(active[i], ids) {
        blocked := blocked + [active[i].id];
      } else {
        ready := ready + [active[i].id];
      }
    }
    assert active[..|active|] == active;
  }

  lemma {:induction false} IdsOfFilterNoDup(s: seq<ItemInfo>, p: ItemInfo -> bool)
    requires UniqueIds(s)
    ensures NoDup(IdsOf(Filter(s, p)))
  {
    if s != [] {
      var s' := s[..|s| - 1];
      IdsOfFilterNoDup(s', p);
      var r, last := Filter(s', p), s[|s| - 1];
      assert IdsOf(r + [last]) == IdsOf(r) + [last.id];
      forall k | 0 <= k < |r|
        ensures r[k].id != last.id
      {
        assert r[k] in r && r[k] in s';
      }
    }
  }

  /** Ready are the nodes without dependencies, blocked all the others. */
  lemma ReadyAreRoots(items: seq<ItemInfo>)
    requires UniqueIds(Active(items))
    ensures var g, ready, blocked := GraphOf(items), ReadyIds(Active(items), ActiveIds(items)),
                                     BlockedIds(Active(items), ActiveIds(items));
            && NoDup(ready) && NoDup(blocked)
            && (forall x :: x in ready <==> x in g && g[x] == [])
            && forall x :: x in blocked <==> x in g && g[x] != []
  {
    var active, ids, g := Active(items), ActiveIds(items), GraphOf(items);
    IdsOfFilterNoDup(active, (i: ItemInfo) => !HasUnmet(i, ids));
    IdsOfFilterNoDup(active, (i: ItemInfo) => HasUnmet(i, ids));
    forall x
      ensures x in ReadyIds(active, ids) <==> x in g && g[x] == []
      ensures x in BlockedIds(active, ids) <==> x in g && g[x] != []
    {
      IdsOfHas(Filter(active, (i: ItemInfo) => !HasUnmet(i, ids)), x);
      IdsOfHas(Filter(active, (i: ItemInfo) => HasUnmet(i, ids)), x);
      if x in g {
        var i :| i in active && i.id == x;
        RootHasNothingUnmet(items, i);
        forall j | j in active && j.id == x
          ensures j == i
        {
        }
      }
    }
  }

  lemma RootHasNothingUnmet(items: seq<ItemInfo>, i: ItemInfo)
    requires UniqueIds(Active(items)) && i in Active(items)
    ensures GraphOf(items)[i.id] == [] <==> !HasUnmet(i, ActiveIds(items))
  {
    var ids, deps := ActiveIds(items), GraphOf(items)[i.id];
    DepListUnique(Active(items), ids, i);
    if HasUnmet(i, ids) {
      var d :| d in i.dependsOn && d in ids;
      assert d in deps;
    }
    assert deps != [] ==> deps[0] in deps;
  }

  // ------------------------------------------------------- the whole report

  datatype Analysis = Analysis(
    ordered: seq<Id>,
    depth: map<Id, nat>,
    longestPath: seq<Id>,
    ready: seq<Id>,
    blocked: seq<Id>,
    downstreamCount: map<Id, nat>
  )

  /** "Highest priority first", over the items of a board. */
  function ByRank(items: seq<ItemInfo>): (Id, Id) -> bool {
    var m := ItemMap(items);
    (a, b) => KeyLe(KeyOf(m, a), KeyOf(m, b))
  }

  lemma ByRankOrders(items: seq<ItemInfo>)
    ensures TotalPreorder(ByRank(items))
  {
  }

  /** What each part of a report means in terms of the dependency graph. */
  ghost predicate Describes(items: seq<ItemInfo>, a: Analysis) {
    var g := GraphOf(items);
    && UniqueIds(Active(items))
    && TopologicalOrder(g, a.ordered)
    && a.depth.Keys == g.Keys
    && (forall x :: x in g ==> LongestChain(g, x, a.depth[x]))
    && IsLongestPath(g, a.longestPath)
    && a.downstreamCount.Keys == g.Keys
    && (forall x :: x in g ==> a.downstreamCount[x] == |Downstream(g, x)|)
    && SplitsReady(g, a.ready, a.blocked)
    && SortedBy(a.ready, ByRank(items))
  }

  ghost predicate SplitsReady(g: Graph, ready: seq<Id>, blocked: seq<Id>) {
    && NoDup(ready) && NoDup(blocked)
    && (forall x :: x in ready <==> x in g && g[x] == [])
    && forall x :: x in blocked <==> x in g && g[x] != []
  }

  /** The active items from which dependencies lead onto a cycle, in board order. */
  ghost function OnCycles(items: seq<ItemInfo>): seq<ItemInfo> {
    var g := GraphOf(items);
    Filter(Active(items), (i: ItemInfo) => ReachesCycle(g, i.id))
  }

  method SplitAndRank(items: seq<ItemInfo>) returns (ready: seq<Id>, blocked: seq<Id>)
    requires UniqueIds(Active(items))
    ensures SplitsReady(GraphOf(items), ready, blocked) && SortedBy(ready, ByRank(items))
  {
    ready, blocked := SplitReady(items);
    ReadyAreRoots(items);
    ByRankOrders(items);
    StableSortSorts(ready, ByRank(items));
    PermutationFacts(ready, StableSort(ready, ByRank(items)));
    ready := StableSort(ready, ByRank(items));
  }

  /** The report; refused, with the items that reach a cycle, when the items cannot be ordered. */
  method ComputeCriticalPath(items: seq<ItemInfo>) returns (r: Result<Analysis, seq<ItemInfo>>)
    ensures r.Err? <==> HasCycle(GraphOf(items)) || !UniqueIds(Active(items))
    ensures r.Err? ==> r.error == OnCycles(items)
    ensures r.Ok? ==> Describes(items, r.value)
  {
    ghost var g := GraphOf(items);
    var active := Active(items);
    GraphClosed(items);
    var adj, inDegree := BuildGraph(items);
    var ordered, depth := Sort(g, adj, inDegree);
    OrderedOrStuck(items, ordered);
    if |ordered| < |active| {
      StuckAreOnCycles(items, ordered);
      return Err(Filter(active, (i: ItemInfo) => i.id !in ordered));
    }
    CompleteOrder(g, ordered, depth);
    AllPending(g, adj, inDegree);
    DepthIsLongestChain(g, depth);
    var downstreamCount := CountDownstream(g, adj, ordered);
    var maxDepth := MaxDepth(depth);
    var longestPath := TraceLongestPath(items, ordered, depth, maxDepth);
    var ready, blocked := SplitAndRank(items);
    return Ok(Analysis(ordered, depth, longestPath, ready, blocked, downstreamCount));
  }

  lemma UniqueIdsSize(active: seq<ItemInfo>)
    ensures |set i | i in active :: i.id| <= |active|
    ensures |set i | i in active :: i.id| == |active| <==> UniqueIds(active)
  {
    var ids := IdsOf(active);
    assert Elements(ids) == set i | i in active :: i.id by {
      forall x
        ensures x in ids <==> x in set i | i in active :: i.id
      {
        IdsOfHas(active, x);
      }
    }
    ElementsSize(ids);
    assert UniqueIds(active) <==> NoDup(ids) by {
      assert forall k :: 0 <= k < |active| ==> ids[k] == active[k].id;
    }
    if NoDup(ids) {
      NoDupSize(ids);
    }
  }

  /** Counting decides: all active ids are ordered exactly when they are distinct and free of cycles. */
  lemma OrderedOrStuck(items: seq<ItemInfo>, ordered: seq<Id>)
    requires var g := GraphOf(items);
             NoDup(ordered) && Elements(ordered) <= g.Keys && RespectsDeps(g, ordered) &&
             Stuck(g, g.Keys - Elements(ordered))
    ensures |ordered| < |Active(items)| <==> HasCycle(GraphOf(items)) || !UniqueIds(Active(items))
    ensures |ordered| >= |Active(items)| ==> Elements(ordered) == ActiveIds(items)
  {
    var g, active, done := GraphOf(items), Active(items), Elements(ordered);
    UniqueIdsSize(active);
    NoDupSize(ordered);
    SubsetSize(done, g.Keys);
    assert g.Keys == set i | i in active :: i.id;
    OrderedAllIffAcyclic(g, ordered);
  }

  lemma OrderedAllIffAcyclic(g: Graph, ordered: seq<Id>)
    requires NoDup(ordered) && Elements(ordered) <= g.Keys && RespectsDeps(g, ordered)
    requires Stuck(g, g.Keys - Elements(ordered))
    ensures HasCycle(g) <==> Elements(ordered) != g.Keys
  {
    var stuck := g.Keys - Elements(ordered);
    assert g.Keys == Elements(ordered) + stuck;
    if HasCycle(g) && stuck == {} {
      var c :| Cycle(g, c);
      assert Walk(g, [c[0]]);
      assert LeadsTo(g, c[0], [c[0]], c);
      assert c[0] in g.Keys;
      assert c[0] in Elements(ordered);
      OrderedReachesNoCycle(g, ordered, c[0]);
    }
    if stuck != {} {
      var x :| x in stuck;
      StuckReachesCycle(g, stuck, x);
      var p, c :| LeadsTo(g, x, p, c);
      assert Cycle(g, c);
    }
  }

  lemma StuckAreOnCycles(items: seq<ItemInfo>, ordered: seq<Id>)
    requires var g := GraphOf(items);
             NoDup(ordered) && Elements(ordered) <= g.Keys && RespectsDeps(g, ordered) &&
             Stuck(g, g.Keys - Elements(ordered))
    ensures Filter(Active(items), (i: ItemInfo) => i.id !in ordered) == OnCycles(items)
  {
    var g, active := GraphOf(items), Active(items);
    forall i | i in active
      ensures i.id !in ordered <==> ReachesCycle(g, i.id)
    {
      if i.id in ordered {
        OrderedReachesNoCycle(g, ordered, i.id);
      } else {
        StuckReachesCycle(g, g.Keys - Elements(ordered), i.id);
      }
    }
    FiltersAgree(active, (i: ItemInfo) => i.id !in ordered, (i: ItemInfo) => ReachesCycle(g, i.id));
  }

  /** The report does not depend on the order in which the roots were queued. */
  lemma ReportIsDetermined(items: seq<ItemInfo>, a: Analysis, b: Analysis)
    requires Describes(items, a) && Describes(items, b)
    ensures a.depth == b.depth && a.downstreamCount == b.downstreamCount
    ensures |a.longestPath| == |b.longestPath|
    ensures Elements(a.ready) == Elements(b.ready) && Elements(a.blocked) == Elements(b.blocked)
  {
    var g := GraphOf(items);
    DepthDetermined(g, a.depth, b.depth);
    CountDetermined(g, a.downstreamCount, b.downstreamCount);
    LongestPathLength(g, a.longestPath, b.longestPath);
    LongestPathLength(g, b.longestPath, a.longestPath);
  }

  lemma DepthDetermined(g: Graph, d: map<Id, nat>, e: map<Id, nat>)
    requires d.Keys == e.Keys == g.Keys
    requires forall x :: x in g ==> LongestChain(g, x, d[x])
    requires forall x :: x in g ==> LongestChain(g, x, e[x])
    ensures d == e
  {
    forall x | x in g
      ensures d[x] == e[x]
    {
      LongestChainUnique(g, x, d[x], e[x]);
    }
  }

  lemma CountDetermined(g: Graph, c: map<Id, nat>, d: map<Id, nat>)
    requires c.Keys == d.Keys == g.Keys
    requires forall x :: x in g ==> c[x] == |Downstream(g, x)|
    requires forall x :: x in g ==> d[x] == |Downstream(g, x)|
    ensures c == d
  {
  }

  lemma LongestPathLength(g: Graph, p: seq<Id>, q: seq<Id>)
    requires IsLongestPath(g, p) && IsLongestPath(g, q)
    ensures |p| <= |q|
  {
    if p != [] {
      var w := Reverse(p);
      assert Dep(g, w[0], w[1]);
    }
  }

  lemma ReadyAndBlockedAreDistinct(items: seq<ItemInfo>, a: Analysis)
    requires Describes(items, a)
    ensures NoDup(a.ready + a.blocked)
  {
    NoDupConcat(a.ready, a.blocked);
  }

  /** Depths stay below the number of active items, so 32 bits hold them on any board of fewer than 2^32 items. */
  lemma DepthBelowCount(items: seq<ItemInfo>, a: Analysis, x: Id)
    requires Describes(items, a) && x in a.depth
    ensures a.depth[x] < |Active(items)|
  {
    GraphSize(items);
    ChainFitsOrder(GraphOf(items), a.ordered, x, a.depth[x]);
  }

  lemma GraphSize(items: seq<ItemInfo>)
    ensures |GraphOf(items)| <= |Active(items)|
  {
    UniqueIdsSize(Active(items));
    assert GraphOf(items).Keys == set i | i in Active(items) :: i.id;
  }

  lemma ChainFitsOrder(g: Graph, ordered: seq<Id>, x: Id, d: nat)
    requires TopologicalOrder(g, ordered) && x in g && LongestChain(g, x, d)
    ensures d < |g|
  {
    var p :| Walk(g, p) && p[0] == x && |p| == d + 1;
    assert x in Elements(ordered);
    var k :| 0 <= k < |ordered| && ordered[k] == x;
    OrderedWalk(g, ordered, k, p);
    NoDupSize(ordered);
  }
}
