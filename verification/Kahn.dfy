/** Kahn's topological sort, which propagates depths as it goes. */
module Kahn {
  import opened Dependencies
  import opened DepGraph
  import opened Seqs
  import opened Wrappers

  /** How many entries of `deps` have not been processed. */
  ghost function Pending(deps: seq<Id>, processed: set<Id>): nat {
    if deps == [] then 0
    else Pending(deps[..|deps| - 1], processed) + if deps[|deps| - 1] in processed then 0 else 1
  }

  lemma {:induction false} PendingStep(deps: seq<Id>, processed: set<Id>, y: Id)
    requires y !in processed
    ensures Pending(deps, processed) == Pending(deps, processed + {y}) + multiset(deps)[y]
    ensures multiset(deps)[y] > 0 <==> y in deps
  {
    if deps != [] {
      PendingStep(deps[..|deps| - 1], processed, y);
      assert deps == deps[..|deps| - 1] + [deps[|deps| - 1]];
    }
  }

  lemma {:induction false} PendingBounds(deps: seq<Id>, processed: set<Id>)
    ensures Pending(deps, {}) == |deps|
    ensures Pending(deps, processed) == 0 <==> forall y :: y in deps ==> y in processed
  {
    if deps != [] {
      PendingBounds(deps[..|deps| - 1], processed);
      assert deps == deps[..|deps| - 1] + [deps[|deps| - 1]];
    }
  }

  /** `inDegree` plus the `counted` decrements is the number of dependencies outside `processed`. */
  ghost predicate Degrees(g: Graph, inDegree: map<Id, nat>, processed: set<Id>, counted: multiset<Id>) {
    && inDegree.Keys == g.Keys
    && forall x {:trigger DegreeIs(g, inDegree, processed, counted, x)} :: x in g ==>
      DegreeIs(g, inDegree, processed, counted, x)
  }

  ghost predicate DegreeIs(g: Graph, inDegree: map<Id, nat>, processed: set<Id>, counted: multiset<Id>, x: Id)
    requires x in g && x in inDegree
  {
    inDegree[x] + counted[x] == Pending(g[x], processed)
  }

  /** The nodes that have entered the queue are those whose in-degree is 0. */
  ghost predicate Frontier(g: Graph, inDegree: map<Id, nat>, entered: set<Id>) {
    inDegree.Keys == g.Keys && entered <= g.Keys && forall x {:trigger inDegree[x]} :: x in g ==>
      (x in entered <==> inDegree[x] == 0)
  }

  /** Edges out of `processed`, and from `node` into `relaxed`, have been propagated; nothing else raised a depth. */
  ghost predicate Depths(g: Graph, depth: map<Id, nat>, entered: set<Id>, processed: set<Id>, node: Id, relaxed: set<Id>) {
    && entered <= depth.Keys <= g.Keys
    && Propagated(g, depth, processed, node, relaxed)
    && Caused(g, depth, entered)
  }

  ghost predicate Propagated(g: Graph, depth: map<Id, nat>, processed: set<Id>, node: Id, relaxed: set<Id>) {
    forall x, y :: Dep(g, x, y) && Relaxed(x, y, processed, node, relaxed) ==>
      x in depth && y in depth && depth[y] + 1 <= depth[x]
  }

  ghost predicate Relaxed(x: Id, y: Id, processed: set<Id>, node: Id, relaxed: set<Id>) {
    y in processed || (y == node && x in relaxed)
  }

  ghost predicate Caused(g: Graph, depth: map<Id, nat>, entered: set<Id>) {
    forall x {:trigger HasCause(g, depth, entered, x)} :: x in depth && depth[x] > 0 ==> HasCause(g, depth, entered, x)
  }

  ghost predicate HasCause(g: Graph, depth: map<Id, nat>, entered: set<Id>, x: Id)
    requires x in depth
  {
    exists y :: y in entered && Dep(g, x, y) && y in depth && depth[x] == depth[y] + 1
  }

  lemma DegreePositive(g: Graph, adj: map<Id, seq<Id>>, inDegree: map<Id, nat>, processed: set<Id>, node: Id, k: nat)
    requires node in g && node !in processed && adj.Keys == g.Keys && k < |adj[node]| && adj[node][k] in g
    requires multiset(adj[node])[adj[node][k]] == multiset(g[adj[node][k]])[node]
    requires Degrees(g, inDegree, processed, multiset(adj[node][..k]))
    ensures inDegree[adj[node][k]] > 0
  {
    var x, rest := adj[node][k], adj[node][k..];
    assert adj[node] == adj[node][..k] + rest;
    assert rest[0] == x;
    PendingStep(g[x], processed, node);
    assert DegreeIs(g, inDegree, processed, multiset(adj[node][..k]), x);
  }

  lemma DegreesStep(g: Graph, inDegree: map<Id, nat>, processed: set<Id>, s: seq<Id>, k: nat)
    requires k < |s| && Degrees(g, inDegree, processed, multiset(s[..k]))
    requires s[k] in g && inDegree[s[k]] > 0
    ensures Degrees(g, inDegree[s[k] := inDegree[s[k]] - 1], processed, multiset(s[..k + 1]))
  {
    assert s[..k + 1] == s[..k] + [s[k]];
    forall x | x in g
      ensures DegreeIs(g, inDegree[s[k] := inDegree[s[k]] - 1], processed, multiset(s[..k + 1]), x)
    {
      assert DegreeIs(g, inDegree, processed, multiset(s[..k]), x);
    }
  }

  lemma DegreesDone(g: Graph, adj: map<Id, seq<Id>>, inDegree: map<Id, nat>, processed: set<Id>, node: Id)
    requires AdjacencyOf(g, adj) && node in g && node !in processed
    requires Degrees(g, inDegree, processed, multiset(adj[node]))
    ensures Degrees(g, inDegree, processed + {node}, multiset{})
  {
    forall x | x in g
      ensures DegreeIs(g, inDegree, processed + {node}, multiset{}, x)
    {
      assert DegreeIs(g, inDegree, processed, multiset(adj[node]), x);
      assert multiset(adj[node])[x] == multiset(g[x])[node];
      PendingStep(g[x], processed, node);
    }
  }

  lemma FrontierStep(g: Graph, inDegree: map<Id, nat>, entered: set<Id>, x: Id)
    requires Frontier(g, inDegree, entered) && x in g && inDegree[x] > 0
    ensures Frontier(g, inDegree[x := inDegree[x] - 1], if inDegree[x] == 1 then entered + {x} else entered)
  {
  }

  function Raise(depth: map<Id, nat>, x: Id, d: nat): map<Id, nat> {
    var current := if x in depth then depth[x] else 0;
    depth[x := if d > current then d else current]
  }

  lemma PropagatedStep(g: Graph, depth: map<Id, nat>, entered: set<Id>, processed: set<Id>, node: Id,
                       relaxed: set<Id>, x: Id)
    requires Propagated(g, depth, processed, node, relaxed)
    requires node in depth && x !in entered && node in entered && processed <= entered
    ensures Propagated(g, Raise(depth, x, depth[node] + 1), processed, node, relaxed + {x})
  {
    var depth' := Raise(depth, x, depth[node] + 1);
    RaiseFacts(depth, x, depth[node] + 1);
    forall z, y | Dep(g, z, y) && Relaxed(z, y, processed, node, relaxed + {x})
      ensures z in depth' && y in depth' && depth'[y] + 1 <= depth'[z]
    {
      if z != x || y in processed {
        assert Relaxed(z, y, processed, node, relaxed);
      }
    }
  }

  lemma CausedStep(g: Graph, depth: map<Id, nat>, entered: set<Id>, node: Id, x: Id)
    requires Caused(g, depth, entered) && Dep(g, x, node) && node in depth
    requires x !in entered && node in entered
    ensures Caused(g, Raise(depth, x, depth[node] + 1), entered)
    ensures Caused(g, Raise(depth, x, depth[node] + 1), entered + {x})
  {
    var depth' := Raise(depth, x, depth[node] + 1);
    RaiseFacts(depth, x, depth[node] + 1);
    forall z | z in depth' && depth'[z] > 0
      ensures HasCause(g, depth', entered, z) && HasCause(g, depth', entered + {x}, z)
    {
      var cause: Id;
      if z in depth && depth'[z] == depth[z] {
        assert HasCause(g, depth, entered, z);
        cause :| cause in entered && Dep(g, z, cause) && cause in depth && depth[z] == depth[cause] + 1;
      } else {
        cause := node;
      }
      assert cause in entered && cause in entered + {x} && Dep(g, z, cause) && depth'[z] == depth'[cause] + 1;
    }
  }

  lemma DepthsStep(g: Graph, depth: map<Id, nat>, entered: set<Id>, entered': set<Id>, processed: set<Id>, node: Id,
                   relaxed: set<Id>, x: Id)
    requires Depths(g, depth, entered, processed, node, relaxed) && Dep(g, x, node)
    requires x !in entered && node in entered && processed <= entered
    requires entered' == entered || entered' == entered + {x}
    ensures node in depth
    ensures Depths(g, Raise(depth, x, depth[node] + 1), entered', processed, node, relaxed + {x})
  {
    PropagatedStep(g, depth, entered, processed, node, relaxed, x);
    CausedStep(g, depth, entered, node, x);
  }

  lemma RaiseFacts(depth: map<Id, nat>, x: Id, d: nat)
    requires d > 0
    ensures var r := Raise(depth, x, d);
            && r.Keys == depth.Keys + {x} && r[x] >= d
            && (r[x] == d || (x in depth && r[x] == depth[x]))
            && forall z :: z in depth ==> r[z] >= depth[z] && (z != x ==> r[z] == depth[z])
  {
  }

  /** State of the scan over the dependents of `node`, when those in `seen` are done. */
  ghost predicate Scanning(g: Graph, inDegree: map<Id, nat>, entered: set<Id>, depth: map<Id, nat>,
                           processed: set<Id>, node: Id, seen: seq<Id>) {
    && Degrees(g, inDegree, processed, multiset(seen))
    && Frontier(g, inDegree, entered)
    && Depths(g, depth, entered, processed, node, Elements(seen))
  }

  lemma ScanStep(g: Graph, adj: map<Id, seq<Id>>, inDegree: map<Id, nat>, entered: set<Id>, depth: map<Id, nat>,
                 processed: set<Id>, node: Id, k: nat)
    requires AdjacencyOf(g, adj) && node in g && node !in processed && k < |adj[node]|
    requires node in entered && processed <= entered
    requires Scanning(g, inDegree, entered, depth, processed, node, adj[node][..k])
    ensures var x := adj[node][k];
            && x in inDegree && inDegree[x] > 0 && node in depth && x !in entered
            && Scanning(g, inDegree[x := inDegree[x] - 1], if inDegree[x] == 1 then entered + {x} else entered,
                        Raise(depth, x, depth[node] + 1), processed, node, adj[node][..k + 1])
            && Raise(depth, x, depth[node] + 1)[node] == depth[node]
  {
    var dependents, x := adj[node], adj[node][k];
    PrefixStep(dependents, k);
    AdjacentIsDependent(g, adj, x, node);
    DegreePositive(g, adj, inDegree, processed, node, k);
    DegreesStep(g, inDegree, processed, dependents, k);
    FrontierStep(g, inDegree, entered, x);
    DepthsStep(g, depth, entered, if inDegree[x] == 1 then entered + {x} else entered, processed, node,
               Elements(dependents[..k]), x);
  }

  /** `ordered` and then `queue` list the members of `entered`, each once. */
  ghost predicate Lists(ordered: seq<Id>, queue: seq<Id>, entered: set<Id>) {
    NoDup(ordered + queue) && Elements(ordered + queue) == entered
  }

  lemma ListsStep(ordered: seq<Id>, queue: seq<Id>, entered: set<Id>, x: Id)
    requires Lists(ordered, queue, entered) && x !in entered
    ensures Lists(ordered, queue + [x], entered + {x})
  {
    assert ordered + (queue + [x]) == ordered + queue + [x];
    assert x !in ordered + queue;
  }

  /** The inner loop: every dependent of `node` gets deeper and loses one pending dependency. */
  method ReleaseDependents(ghost g: Graph, adj: map<Id, seq<Id>>, inDegree0: map<Id, nat>, queue0: seq<Id>,
                           depth0: map<Id, nat>, ghost ordered: seq<Id>, ghost processed: set<Id>, node: Id,
                           ghost entered0: set<Id>)
    returns (inDegree: map<Id, nat>, queue: seq<Id>, depth: map<Id, nat>, ghost entered: set<Id>)
    requires AdjacencyOf(g, adj) && node in g && node !in processed && {node} + processed <= entered0
    requires Lists(ordered, queue0, entered0)
    requires node in depth0 && Scanning(g, inDegree0, entered0, depth0, processed, node, [])
    ensures entered0 <= entered && Lists(ordered, queue, entered)
    ensures Scanning(g, inDegree, entered, depth, processed, node, adj[node])
  {
    inDegree, queue, depth, entered := inDegree0, queue0, depth0, entered0;
    var dependents := adj[node];
    assert dependents[..0] == [];
    for k := 0 to |dependents|
      invariant entered0 <= entered && Lists(ordered, queue, entered)
      invariant Scanning(g, inDegree, entered, depth, processed, node, dependents[..k])
      invariant node in depth && depth[node] == depth0[node]
    {
      inDegree, queue, depth, entered :=
        ReleaseOne(g, adj, inDegree, queue, depth, ordered, processed, node, depth0[node], entered, k);
    }
    assert dependents[..|dependents|] == dependents;
  }

  /** One dependent. */
  method ReleaseOne(ghost g: Graph, adj: map<Id, seq<Id>>, inDegree0: map<Id, nat>, queue0: seq<Id>,
                    depth0: map<Id, nat>, ghost ordered: seq<Id>, ghost processed: set<Id>, node: Id, nodeDepth: nat,
                    ghost entered0: set<Id>, k: nat)
    returns (inDegree: map<Id, nat>, queue: seq<Id>, depth: map<Id, nat>, ghost entered: set<Id>)
    requires AdjacencyOf(g, adj) && node in g && node !in processed && {node} + processed <= entered0
    requires k < |adj[node]| && Lists(ordered, queue0, entered0) && node in depth0 && depth0[node] == nodeDepth
    requires Scanning(g, inDegree0, entered0, depth0, processed, node, adj[node][..k])
    ensures entered0 <= entered && Lists(ordered, queue, entered) && node in depth && depth[node] == nodeDepth
    ensures Scanning(g, inDegree, entered, depth, processed, node, adj[node][..k + 1])
  {
    var dep := adj[node][k];
    ScanStep(g, adj, inDegree0, entered0, depth0, processed, node, k);
    depth := Raise(depth0, dep, nodeDepth + 1);
    queue, entered := queue0, entered0;
    if inDegree0[dep] == 1 {
      ListsStep(ordered, queue0, entered0, dep);
      queue, entered := queue0 + [dep], entered0 + {dep};
    }
    inDegree := inDegree0[dep := inDegree0[dep] - 1];
  }

  /** Invariant of the sort: `ordered` is processed, `queue` waits, and nothing else can be processed yet. */
  ghost predicate KahnState(g: Graph, inDegree: map<Id, nat>, ordered: seq<Id>, queue: seq<Id>, entered: set<Id>,
                          depth: map<Id, nat>) {
    && Lists(ordered, queue, entered)
    && RespectsDeps(g, ordered)
    && Scanning(g, inDegree, entered, depth, Elements(ordered), "", [])
  }

  /** Taking `node` off the queue is sound: everything it depends on has been processed. */
  lemma PopStep(g: Graph, inDegree: map<Id, nat>, ordered: seq<Id>, queue: seq<Id>, entered: set<Id>,
                depth: map<Id, nat>)
    requires Closed(g) && queue != [] && KahnState(g, inDegree, ordered, queue, entered, depth)
    ensures var node := queue[0];
            && node in g && node !in ordered && node in depth
            && {node} + Elements(ordered) <= entered
            && Lists(ordered + [node], queue[1..], entered)
            && RespectsDeps(g, ordered + [node])
            && Scanning(g, inDegree, entered, depth, Elements(ordered), node, [])
  {
    var node, all := queue[0], ordered + queue;
    assert all[|ordered|] == node && node in Elements(all);
    assert ordered + [node] + queue[1..] == all;
    assert forall i :: 0 <= i < |ordered| ==> all[i] == ordered[i];
    assert inDegree[node] == 0;
    assert DegreeIs(g, inDegree, Elements(ordered), multiset([]), node);
    PendingBounds(g[node], Elements(ordered));
    RespectsDepsStep(g, ordered, node);
    DepthsRename(g, depth, entered, Elements(ordered), "", node);
  }

  lemma RespectsDepsStep(g: Graph, ordered: seq<Id>, node: Id)
    requires RespectsDeps(g, ordered) && forall y :: Dep(g, node, y) ==> y in ordered
    ensures RespectsDeps(g, ordered + [node])
  {
    var s := ordered + [node];
    forall i, y | 0 <= i < |s| && Dep(g, s[i], y)
      ensures y in s[..i]
    {
      assert s[..i] == ordered[..i];
      assert i == |ordered| ==> ordered[..i] == ordered;
    }
  }

  lemma DepthsRename(g: Graph, depth: map<Id, nat>, entered: set<Id>, processed: set<Id>, a: Id, b: Id)
    requires Depths(g, depth, entered, processed, a, Elements([]))
    ensures Depths(g, depth, entered, processed, b, Elements([]))
  {
    forall x, y | Dep(g, x, y) && Relaxed(x, y, processed, b, Elements([]))
      ensures x in depth && y in depth && depth[y] + 1 <= depth[x]
    {
      assert Relaxed(x, y, processed, a, Elements([]));
    }
  }

  lemma ScanDone(g: Graph, adj: map<Id, seq<Id>>, inDegree: map<Id, nat>, ordered: seq<Id>, entered: set<Id>,
                 depth: map<Id, nat>, node: Id)
    requires AdjacencyOf(g, adj) && node in g && node !in ordered
    requires Scanning(g, inDegree, entered, depth, Elements(ordered), node, adj[node])
    ensures Scanning(g, inDegree, entered, depth, Elements(ordered + [node]), "", [])
  {
    var processed := Elements(ordered);
    assert Elements(ordered + [node]) == processed + {node};
    DegreesDone(g, adj, inDegree, processed, node);
    forall x, y | Dep(g, x, y) && Relaxed(x, y, processed + {node}, "", Elements([]))
      ensures x in depth && y in depth && depth[y] + 1 <= depth[x]
    {
      AdjacentIsDependent(g, adj, x, node);
      assert Relaxed(x, y, processed, node, Elements(adj[node]));
    }
  }

  lemma AllPending(g: Graph, adj: map<Id, seq<Id>>, inDegree: map<Id, nat>)
    requires Represents(g, adj, inDegree)
    ensures AdjacencyOf(g, adj) && Degrees(g, inDegree, {}, multiset{})
  {
    forall x | x in g
      ensures DegreeIs(g, inDegree, {}, multiset{}, x)
    {
      PendingBounds(g[x], {});
      assert Degree(inDegree, x) == |g[x]|;
    }
  }

  /** Lists a set in an arbitrary order, as iterating a hash map does. */
  method Enumerate(all: set<Id>) returns (s: seq<Id>)
    ensures Lists([], s, all)
  {
    s := [];
    var rest := all;
    while rest != {}
      invariant Lists([], s, all - rest) && rest <= all
    {
      var id :| id in rest;
      ListsStep([], s, all - rest, id);
      assert all - (rest - {id}) == all - rest + {id};
      s, rest := s + [id], rest - {id};
    }
    assert all - {} == all;
  }

  lemma KahnInit(g: Graph, adj: map<Id, seq<Id>>, inDegree: map<Id, nat>, queue: seq<Id>, roots: set<Id>)
    requires Closed(g) && Represents(g, adj, inDegree) && Lists([], queue, roots)
    requires roots == set x | x in inDegree && inDegree[x] == 0
    ensures AdjacencyOf(g, adj) && KahnState(g, inDegree, [], queue, roots, map x | x in roots :: 0)
  {
    AllPending(g, adj, inDegree);
    assert Elements<Id>([]) == {};
    var none: seq<Id> := [];
    assert multiset(none) == multiset{};
  }

  /** One round: the node at the head of the queue is ordered and its dependents are released. */
  method ProcessNext(ghost g: Graph, adj: map<Id, seq<Id>>, inDegree0: map<Id, nat>, ordered0: seq<Id>, queue0: seq<Id>,
                     depth0: map<Id, nat>, ghost entered0: set<Id>)
    returns (inDegree: map<Id, nat>, ordered: seq<Id>, queue: seq<Id>, depth: map<Id, nat>, ghost entered: set<Id>)
    requires Closed(g) && AdjacencyOf(g, adj) && queue0 != []
    requires KahnState(g, inDegree0, ordered0, queue0, entered0, depth0)
    ensures KahnState(g, inDegree, ordered, queue, entered, depth)
    ensures |g.Keys - Elements(ordered)| < |g.Keys - Elements(ordered0)|
  {
    var node := queue0[0];
    PopStep(g, inDegree0, ordered0, queue0, entered0, depth0);
    ordered := ordered0 + [node];
    inDegree, queue, depth, entered :=
      ReleaseDependents(g, adj, inDegree0, queue0[1..], depth0, ordered, Elements(ordered0), node, entered0);
    ScanDone(g, adj, inDegree, ordered0, entered, depth, node);
    assert g.Keys - Elements(ordered) == g.Keys - Elements(ordered0) - {node};
  }

  /** Kahn's algorithm; the first nodes enter the queue in an arbitrary order. */
  method Sort(ghost g: Graph, adj: map<Id, seq<Id>>, inDegree0: map<Id, nat>)
    returns (ordered: seq<Id>, depth: map<Id, nat>)
    requires Closed(g) && Represents(g, adj, inDegree0)
    ensures NoDup(ordered) && Elements(ordered) <= g.Keys && RespectsDeps(g, ordered)
    ensures Stuck(g, g.Keys - Elements(ordered))
    ensures Depths(g, depth, Elements(ordered), Elements(ordered), "", {})
  {
    var roots := set x | x in inDegree0 && inDegree0[x] == 0;
    var queue := Enumerate(roots);
    depth := map x | x in roots :: 0;
    ordered := [];
    var inDegree := inDegree0;
    ghost var entered := roots;
    KahnInit(g, adj, inDegree0, queue, roots);
    while queue != []
      invariant KahnState(g, inDegree, ordered, queue, entered, depth)
      decreases |g.Keys - Elements(ordered)|
    {
      inDegree, ordered, queue, depth, entered := ProcessNext(g, adj, inDegree, ordered, queue, depth, entered);
    }
    SortDone(g, inDegree, ordered, entered, depth);
  }

  lemma SortDone(g: Graph, inDegree: map<Id, nat>, ordered: seq<Id>, entered: set<Id>, depth: map<Id, nat>)
    requires Closed(g) && KahnState(g, inDegree, ordered, [], entered, depth)
    ensures NoDup(ordered) && Elements(ordered) <= g.Keys && Stuck(g, g.Keys - Elements(ordered))
    ensures Depths(g, depth, Elements(ordered), Elements(ordered), "", {})
  {
    assert ordered + [] == ordered;
    var stuck := g.Keys - Elements(ordered);
    forall x | x in stuck
      ensures HasDepIn(g, stuck, x)
    {
      assert inDegree[x] > 0;
      assert DegreeIs(g, inDegree, Elements(ordered), multiset([]), x);
      PendingBounds(g[x], Elements(ordered));
      var y :| y in g[x] && y !in Elements(ordered);
      assert Dep(g, x, y);
    }
    assert Elements<Id>([]) == {};
  }

  /** A complete order comes with depths that solve the depth equations. */
  lemma CompleteOrder(g: Graph, ordered: seq<Id>, depth: map<Id, nat>)
    requires NoDup(ordered) && Elements(ordered) == g.Keys && RespectsDeps(g, ordered)
    requires Depths(g, depth, Elements(ordered), Elements(ordered), "", {})
    ensures TopologicalOrder(g, ordered) && DepthEquations(g, depth)
  {
    forall x, y | Dep(g, x, y)
      ensures depth[y] + 1 <= depth[x]
    {
      assert Relaxed(x, y, Elements(ordered), "", {});
    }
    forall x | x in g && depth[x] > 0
      ensures HasStep(g, depth, x)
    {
      assert HasCause(g, depth, Elements(ordered), x);
    }
  }
}
