/** Dependency graph of a board: definition, and the adjacency lists built from the items. */
module Dependencies {
  import opened DepGraph
  import opened Items
  import opened Seqs
  import opened Wrappers

  function Known(deps: seq<Id>, ids: set<Id>): (r: seq<Id>)
    ensures forall y :: y in r <==> y in deps && y in ids
  {
    Filter(deps, d => d in ids)
  }

  lemma KnownStep(deps: seq<Id>, j: nat, ids: set<Id>)
    requires j < |deps|
    ensures Known(deps[..j + 1], ids) == Known(deps[..j], ids) + if deps[j] in ids then [deps[j]] else []
  {
    assert deps[..j + 1][..j] == deps[..j];
  }

  /** Dependencies of the active items with id `x`, finished and unknown ones dropped. */
  function DepList(active: seq<ItemInfo>, ids: set<Id>, x: Id): seq<Id> {
    if active == [] then [] else
      var last := active[|active| - 1];
      DepList(active[..|active| - 1], ids, x) +
        if last.id == x then Known(last.dependsOn, ids) else []
  }

  /** The dependency relation among the active items of a board. */
  function GraphOf(items: seq<ItemInfo>): Graph {
    var active, ids := Active(items), ActiveIds(items);
    map x | x in ids :: DepList(active, ids, x)
  }

  lemma GraphClosed(items: seq<ItemInfo>)
    ensures Closed(GraphOf(items))
  {
    var active, ids, g := Active(items), ActiveIds(items), GraphOf(items);
    forall x, y | x in g && y in g[x]
      ensures y in g
    {
      DepListMembers(active, ids, x, y);
    }
  }

  lemma {:induction false} DepListMembers(active: seq<ItemInfo>, ids: set<Id>, x: Id, y: Id)
    ensures y in DepList(active, ids, x) <==>
            y in ids && exists i :: i in active && i.id == x && y in i.dependsOn
  {
    if active != [] {
      DepListMembers(active[..|active| - 1], ids, x, y);
      assert active == active[..|active| - 1] + [active[|active| - 1]];
    }
  }

  /** `x` depends on `y` when both are active and an item with id `x` lists `y`. */
  lemma GraphEdges(items: seq<ItemInfo>, x: Id, y: Id)
    ensures Dep(GraphOf(items), x, y) <==>
            y in ActiveIds(items) && exists i :: i in Active(items) && i.id == x && y in i.dependsOn
  {
    DepListMembers(Active(items), ActiveIds(items), x, y);
  }

  // ------------------------------------------------------ adjacency lists

  function Out(adj: map<Id, seq<Id>>, x: Id): seq<Id> {
    if x in adj then adj[x] else []
  }

  function Degree(inDegree: map<Id, nat>, x: Id): nat {
    if x in inDegree then inDegree[x] else 0
  }

  /** `adj` lists `x` under `y` as often as `seen` lists `y` under `x`; `inDegree` counts these entries. */
  ghost predicate Mirrors(adj: map<Id, seq<Id>>, inDegree: map<Id, nat>, seen: Graph) {
    && adj.Keys <= seen.Keys && inDegree.Keys <= seen.Keys
    && (forall x :: x in seen ==> Degree(inDegree, x) == |seen[x]|)
    && (forall x, y :: x in seen && y in seen ==> multiset(Out(adj, y))[x] == multiset(seen[x])[y])
    && forall x, y :: y in adj && x in adj[y] ==> x in seen
  }

  lemma MirrorsEntry(adj: map<Id, seq<Id>>, inDegree: map<Id, nat>, seen: Graph, id: Id, dep: Id)
    requires id in seen && dep in seen && Mirrors(adj, inDegree, seen)
    ensures Mirrors(adj[dep := Out(adj, dep) + [id]], inDegree[id := Degree(inDegree, id) + 1], seen[id := seen[id] + [dep]])
  {
    var adj', seen' := adj[dep := Out(adj, dep) + [id]], seen[id := seen[id] + [dep]];
    forall x, y | x in seen' && y in seen'
      ensures multiset(Out(adj', y))[x] == multiset(seen'[x])[y]
    {
      EntryCount(adj, seen, id, dep, x, y);
    }
    forall x, y | y in adj' && x in adj'[y]
      ensures x in seen'
    {
      assert x == id || (y in adj && x in adj[y]);
    }
  }

  lemma MirrorsTouch(adj: map<Id, seq<Id>>, inDegree: map<Id, nat>, seen: Graph, id: Id)
    requires id in seen && Mirrors(adj, inDegree, seen)
    ensures Mirrors(adj[id := Out(adj, id)], inDegree[id := Degree(inDegree, id)], seen)
  {
    var adj' := adj[id := Out(adj, id)];
    forall y
      ensures Out(adj', y) == Out(adj, y)
    {
    }
  }

  lemma EntryCount(adj: map<Id, seq<Id>>, seen: Graph, id: Id, dep: Id, x: Id, y: Id)
    requires id in seen && x in seen && multiset(Out(adj, y))[x] == multiset(seen[x])[y]
    ensures multiset(Out(adj[dep := Out(adj, dep) + [id]], y))[x] == multiset(seen[id := seen[id] + [dep]][x])[y]
  {
    assert multiset(Out(adj, dep) + [id]) == multiset(Out(adj, dep)) + multiset{id};
    assert multiset(seen[id] + [dep]) == multiset(seen[id]) + multiset{dep};
  }

  /** The graph of the first `i` active items, seen over the ids of all of them. */
  ghost function GraphBefore(active: seq<ItemInfo>, ids: set<Id>, i: nat): Graph
    requires i <= |active|
  {
    map x | x in ids :: DepList(active[..i], ids, x)
  }

  /** ... together with the first `j` entries of item `i`. */
  ghost function GraphWithin(active: seq<ItemInfo>, ids: set<Id>, i: nat, j: nat): Graph
    requires i < |active| && active[i].id in ids && j <= |active[i].dependsOn|
  {
    map x | x in ids :: DepList(active[..i], ids, x) +
      if active[i].id == x then Known(active[i].dependsOn[..j], ids) else []
  }

  lemma GraphEqual(g: Graph, h: Graph)
    requires g.Keys == h.Keys && forall x :: x in g ==> g[x] == h[x]
    ensures g == h
  {
  }

  lemma GraphEntry(active: seq<ItemInfo>, ids: set<Id>, i: nat, j: nat)
    requires i < |active| && active[i].id in ids && j < |active[i].dependsOn|
    ensures var g, id, dep := GraphWithin(active, ids, i, j), active[i].id, active[i].dependsOn[j];
            GraphWithin(active, ids, i, j + 1) == if dep in ids then g[id := g[id] + [dep]] else g
  {
    var deps, before := active[i].dependsOn, DepList(active[..i], ids, active[i].id);
    KnownStep(deps, j, ids);
    assert before + (Known(deps[..j], ids) + [deps[j]]) == before + Known(deps[..j], ids) + [deps[j]];
    var g, id, dep := GraphWithin(active, ids, i, j), active[i].id, active[i].dependsOn[j];
    GraphEqual(GraphWithin(active, ids, i, j + 1), if dep in ids then g[id := g[id] + [dep]] else g);
  }

  lemma GraphItem(active: seq<ItemInfo>, ids: set<Id>, i: nat)
    requires i < |active| && active[i].id in ids
    ensures GraphWithin(active, ids, i, 0) == GraphBefore(active, ids, i)
    ensures GraphWithin(active, ids, i, |active[i].dependsOn|) == GraphBefore(active, ids, i + 1)
  {
    var deps := active[i].dependsOn;
    assert deps[..|deps|] == deps && deps[..0] == [] && active[..i + 1][..i] == active[..i];
    GraphEqual(GraphWithin(active, ids, i, 0), GraphBefore(active, ids, i));
    GraphEqual(GraphWithin(active, ids, i, |deps|), GraphBefore(active, ids, i + 1));
  }

  /** Adjacency lists and in-degrees of `g`. */
  ghost predicate Represents(g: Graph, adj: map<Id, seq<Id>>, inDegree: map<Id, nat>) {
    adj.Keys == inDegree.Keys == g.Keys && Mirrors(adj, inDegree, g)
  }

  method AddItem(active: seq<ItemInfo>, ids: set<Id>, i: nat, adj0: map<Id, seq<Id>>, inDegree0: map<Id, nat>)
    returns (adj: map<Id, seq<Id>>, inDegree: map<Id, nat>)
    requires i < |active| && active[i].id in ids
    requires Mirrors(adj0, inDegree0, GraphBefore(active, ids, i))
    ensures Mirrors(adj, inDegree, GraphBefore(active, ids, i + 1))
    ensures adj0.Keys + {active[i].id} <= adj.Keys && inDegree0.Keys + {active[i].id} <= inDegree.Keys
  {
    var id := active[i].id;
    GraphItem(active, ids, i);
    MirrorsTouch(adj0, inDegree0, GraphBefore(active, ids, i), id);
    adj := adj0[id := Out(adj0, id)];
    inDegree := inDegree0[id := Degree(inDegree0, id)];
    for j := 0 to |active[i].dependsOn|
      invariant adj0.Keys + {id} <= adj.Keys && inDegree0.Keys + {id} <= inDegree.Keys
      invariant Mirrors(adj, inDegree, GraphWithin(active, ids, i, j))
    {
      var dep := active[i].dependsOn[j];
      GraphEntry(active, ids, i, j);
      if dep in ids {
        MirrorsEntry(adj, inDegree, GraphWithin(active, ids, i, j), id, dep);
        adj := adj[dep := Out(adj, dep) + [id]];
        inDegree := inDegree[id := Degree(inDegree, id) + 1];
      }
    }
  }

  ghost function IdsBefore(active: seq<ItemInfo>, i: nat): set<Id>
    requires i <= |active|
  {
    if i == 0 then {} else IdsBefore(active, i - 1) + {active[i - 1].id}
  }

  lemma {:induction false} IdsBeforeHas(active: seq<ItemInfo>, i: nat, x: ItemInfo)
    requires i <= |active| && x in active[..i]
    ensures x.id in IdsBefore(active, i)
  {
    if x != active[i - 1] {
      IdsBeforeHas(active, i - 1, x);
    }
  }

  lemma BuildComplete(items: seq<ItemInfo>, adj: map<Id, seq<Id>>, inDegree: map<Id, nat>)
    requires var active, ids := Active(items), ActiveIds(items);
             Mirrors(adj, inDegree, GraphBefore(active, ids, |active|)) &&
             IdsBefore(active, |active|) <= adj.Keys && IdsBefore(active, |active|) <= inDegree.Keys
    ensures Represents(GraphOf(items), adj, inDegree)
  {
    var active, ids := Active(items), ActiveIds(items);
    assert active[..|active|] == active;
    GraphEqual(GraphBefore(active, ids, |active|), GraphOf(items));
    forall x | x in active
      ensures x.id in IdsBefore(active, |active|)
    {
      IdsBeforeHas(active, |active|, x);
    }
  }

  method BuildGraph(items: seq<ItemInfo>) returns (adj: map<Id, seq<Id>>, inDegree: map<Id, nat>)
    ensures Represents(GraphOf(items), adj, inDegree)
  {
    var active, ids := Active(items), ActiveIds(items);
    adj, inDegree := map[], map[];
    for i := 0 to |active|
      invariant IdsBefore(active, i) <= adj.Keys && IdsBefore(active, i) <= inDegree.Keys
      invariant Mirrors(adj, inDegree, GraphBefore(active, ids, i))
    {
      adj, inDegree := AddItem(active, ids, i, adj, inDegree);
    }
    BuildComplete(items, adj, inDegree);
  }

  /** The dependents of every node, as often as they list it. */
  ghost predicate AdjacencyOf(g: Graph, adj: map<Id, seq<Id>>) {
    && adj.Keys == g.Keys
    && (forall x, y {:trigger multiset(adj[y])[x]} :: x in g && y in g ==> multiset(adj[y])[x] == multiset(g[x])[y])
    && forall x, y :: y in adj && x in adj[y] ==> x in g
  }

  lemma AdjacentIsDependent(g: Graph, adj: map<Id, seq<Id>>, x: Id, y: Id)
    requires AdjacencyOf(g, adj) && y in g
    ensures x in adj[y] <==> Dep(g, x, y)
  {
    assert x in adj[y] <==> multiset(adj[y])[x] > 0;
    if x in g {
      assert y in g[x] <==> multiset(g[x])[y] > 0;
      assert multiset(adj[y])[x] == multiset(g[x])[y];
    }
  }
}
