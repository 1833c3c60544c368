/** Working a board off: finishing everything that is ready, round after round. */
module Draining {
  import opened CriticalPath
  import opened Dependencies
  import opened DepGraph
  import opened Items
  import opened Seqs
  import opened Wrappers

  /** The board after every item whose id is in `ids` has been moved to done. */
  function Finish(items: seq<ItemInfo>, ids: set<Id>): seq<ItemInfo> {
    if items == [] then [] else
      var last := items[|items| - 1];
      Finish(items[..|items| - 1], ids) + [if last.id in ids then last.(status := "done") else last]
  }

  function Roots(items: seq<ItemInfo>): set<Id> {
    var g := GraphOf(items);
    set x | x in g && g[x] == []
  }

  /** One round: all that is ready gets finished. */
  function Round(items: seq<ItemInfo>): seq<ItemInfo> {
    Finish(items, Roots(items))
  }

  function Times<T>(f: T -> T, x: T, n: nat): T {
    if n == 0 then x else f(Times(f, x, n - 1))
  }

  /** The board after `n` rounds. */
  function AfterRounds(items: seq<ItemInfo>, n: nat): seq<ItemInfo> {
    Times(Round, items, n)
  }

  lemma {:induction false} FinishMembers(items: seq<ItemInfo>, ids: set<Id>, i: ItemInfo)
    ensures i in Finish(items, ids) <==>
            exists j :: j in items && i == if j.id in ids then j.(status := "done") else j
  {
    if items != [] {
      FinishMembers(items[..|items| - 1], ids, i);
      assert items == items[..|items| - 1] + [items[|items| - 1]];
    }
  }

  lemma FinishCloses(items: seq<ItemInfo>, ids: set<Id>)
    requires ids <= ActiveIds(items)
    ensures ClosedIds(Finish(items, ids)) == ClosedIds(items) + ids
  {
    forall x
      ensures x in ClosedIds(Finish(items, ids)) <==> x in ClosedIds(items) + ids
    {
      if x in ids {
        var j :| j in Active(items) && j.id == x;
        FinishMembers(items, ids, j.(status := "done"));
      } else if x in ClosedIds(items) {
        var j :| j in items && IsClosed(j) && j.id == x;
        FinishMembers(items, ids, j);
      } else if x in ClosedIds(Finish(items, ids)) {
        var i :| i in Finish(items, ids) && IsClosed(i) && i.id == x;
        FinishMembers(items, ids, i);
      }
    }
  }

  lemma {:induction false} FilterFinished(items: seq<ItemInfo>, closed: set<Id>, ids: set<Id>)
    ensures Filter(Finish(items, ids), (i: ItemInfo) => i.id !in closed + ids) ==
            Filter(Filter(items, (i: ItemInfo) => i.id !in closed), (i: ItemInfo) => i.id !in ids)
  {
    if items != [] {
      FilterFinished(items[..|items| - 1], closed, ids);
    }
  }

  /** Finishing `ids` takes exactly these items off the board. */
  lemma ActiveAfterFinish(items: seq<ItemInfo>, ids: set<Id>)
    requires ids <= ActiveIds(items)
    ensures Active(Finish(items, ids)) == Filter(Active(items), (i: ItemInfo) => i.id !in ids)
    ensures ActiveIds(Finish(items, ids)) == ActiveIds(items) - ids
  {
    FinishCloses(items, ids);
    FilterFinished(items, ClosedIds(items), ids);
    var closed, closed' := ClosedIds(items), ClosedIds(Finish(items, ids));
    FiltersAgree(Finish(items, ids), (i: ItemInfo) => i.id !in closed', (i: ItemInfo) => i.id !in closed + ids);
    FiltersAgree(items, (i: ItemInfo) => i.id !in closed, (i: ItemInfo) => i.id !in ClosedIds(items));
    assert Active(Finish(items, ids)) == Filter(Finish(items, ids), (i: ItemInfo) => i.id !in closed');
  }

  lemma EdgesAfterFinish(items: seq<ItemInfo>, ids: set<Id>, x: Id, y: Id)
    requires ids <= ActiveIds(items)
    ensures Dep(GraphOf(Finish(items, ids)), x, y) <==> Dep(GraphOf(items), x, y) && x !in ids && y !in ids
  {
    GraphEdges(items, x, y);
    GraphEdges(Finish(items, ids), x, y);
    ActiveAfterFinish(items, ids);
  }

  lemma UniqueAfterFinish(items: seq<ItemInfo>, ids: set<Id>)
    requires ids <= ActiveIds(items) && UniqueIds(Active(items))
    ensures UniqueIds(Active(Finish(items, ids)))
  {
    ActiveAfterFinish(items, ids);
    IdsOfFilterNoDup(Active(items), (i: ItemInfo) => i.id !in ids);
    var rest := Active(Finish(items, ids));
    assert forall k :: 0 <= k < |rest| ==> IdsOf(rest)[k] == rest[k].id;
  }

  /** What remains of `depth` when every chain has lost its first `n` nodes. */
  function Lowered(depth: map<Id, nat>, n: nat): map<Id, nat> {
    map x | x in depth && depth[x] >= n :: depth[x] - n
  }

  lemma RootsAreShallow(g: Graph, depth: map<Id, nat>)
    requires DepthEquations(g, depth) && Closed(g)
    ensures forall x :: x in g ==> (g[x] == [] <==> depth[x] == 0)
  {
    forall x | x in g
      ensures g[x] == [] <==> depth[x] == 0
    {
      assert depth[x] > 0 ==> HasStep(g, depth, x);
      if g[x] != [] {
        assert Dep(g, x, g[x][0]);
      }
    }
  }

  /** Removing the nodes of depth 0 lowers every other depth by one. */
  lemma DepthsWithoutRoots(g: Graph, g': Graph, depth: map<Id, nat>)
    requires DepthEquations(g, depth) && g'.Keys == Lowered(depth, 1).Keys
    requires forall x, y :: Dep(g', x, y) <==> Dep(g, x, y) && x in g' && y in g'
    ensures DepthEquations(g', Lowered(depth, 1))
  {
    var depth' := Lowered(depth, 1);
    forall x, y | Dep(g', x, y)
      ensures depth'[y] + 1 <= depth'[x]
    {
      assert Dep(g, x, y);
    }
    forall x | x in g' && depth'[x] > 0
      ensures HasStep(g', depth', x)
    {
      assert HasStep(g, depth, x);
      var y :| Dep(g, x, y) && depth[x] == depth[y] + 1;
      assert Dep(g', x, y);
    }
  }

  ghost predicate Solves(items: seq<ItemInfo>, depth: map<Id, nat>) {
    UniqueIds(Active(items)) && DepthEquations(GraphOf(items), depth)
  }

  lemma RoundStep(items: seq<ItemInfo>, depth: map<Id, nat>)
    requires Solves(items, depth)
    ensures Solves(Round(items), Lowered(depth, 1))
  {
    RoundDepths(items, depth);
    ActiveAfterFinish(items, Roots(items));
    UniqueAfterFinish(items, Roots(items));
  }

  lemma RoundDepths(items: seq<ItemInfo>, depth: map<Id, nat>)
    requires Solves(items, depth)
    ensures DepthEquations(GraphOf(Round(items)), Lowered(depth, 1))
  {
    var g, g' := GraphOf(items), GraphOf(Round(items));
    GraphClosed(items);
    RootsAreShallow(g, depth);
    RoundGraph(items);
    DepthsWithoutRoots(g, g', depth);
  }

  lemma RoundGraph(items: seq<ItemInfo>)
    ensures var g, g' := GraphOf(items), GraphOf(Round(items));
            && g'.Keys == g.Keys - Roots(items)
            && forall x, y :: Dep(g', x, y) <==> Dep(g, x, y) && x in g' && y in g'
  {
    var g, g' := GraphOf(items), GraphOf(Round(items));
    ActiveAfterFinish(items, Roots(items));
    forall x, y
      ensures Dep(g', x, y) <==> Dep(g, x, y) && x in g' && y in g'
    {
      EdgesAfterFinish(items, Roots(items), x, y);
    }
  }

  /** What one step keeps, any number of steps keep. */
  lemma {:induction false} Iterate<T(!new)>(f: T -> T, x: T, inv: (T, nat) -> bool, n: nat)
    requires inv(x, 0)
    requires forall y, k: nat {:trigger f(y), inv(y, k)} :: inv(y, k) ==> inv(f(y), k + 1)
    ensures inv(Times(f, x, n), n)
  {
    if n > 0 {
      Iterate(f, x, inv, n - 1);
    }
  }

  lemma RoundsLeave(items: seq<ItemInfo>, depth: map<Id, nat>, n: nat)
    requires Solves(items, depth)
    ensures Solves(AfterRounds(items, n), Lowered(depth, n))
  {
    var inv := (left: seq<ItemInfo>, k: nat) => Solves(left, Lowered(depth, k));
    LoweredNone(depth);
    forall left, k: nat | inv(left, k)
      ensures inv(Round(left), k + 1)
    {
      RoundStep(left, Lowered(depth, k));
      LoweredAgain(depth, k);
    }
    Iterate(Round, items, inv, n);
  }

  lemma LoweredNone(depth: map<Id, nat>)
    ensures Lowered(depth, 0) == depth
  {
  }

  lemma LoweredAgain(depth: map<Id, nat>, n: nat)
    ensures Lowered(Lowered(depth, n), 1) == Lowered(depth, n + 1)
  {
  }

  lemma SolvedBoard(items: seq<ItemInfo>, depth: map<Id, nat>)
    requires Solves(items, depth)
    ensures !HasCycle(GraphOf(items)) && UniqueIds(Active(items)) && ActiveIds(items) == depth.Keys
    ensures forall x :: x in depth ==> LongestChain(GraphOf(items), x, depth[x])
  {
    DepthsExcludeCycles(GraphOf(items), depth);
    DepthIsLongestChain(GraphOf(items), depth);
  }

  /** After `n` rounds just the items of depth `n` or more are left, the analysis succeeds, and depths are `n` lower. */
  lemma DrainingTheorem(items: seq<ItemInfo>, a: Analysis, n: nat)
    requires Describes(items, a)
    ensures var left := AfterRounds(items, n);
            && !HasCycle(GraphOf(left)) && UniqueIds(Active(left))
            && ActiveIds(left) == Lowered(a.depth, n).Keys
            && forall x :: x in Lowered(a.depth, n) ==> LongestChain(GraphOf(left), x, Lowered(a.depth, n)[x])
  {
    LongestChainsAreDepths(GraphOf(items), a.depth);
    RoundsLeave(items, a.depth, n);
    SolvedBoard(AfterRounds(items, n), Lowered(a.depth, n));
  }

  /** One round finishes what the report calls ready; the board is empty after (maximum depth + 1) rounds, not before. */
  lemma BoardEmpties(items: seq<ItemInfo>, a: Analysis, maxDepth: nat)
    requires Describes(items, a)
    requires (exists x :: x in a.depth && a.depth[x] == maxDepth) && forall x :: x in a.depth ==> a.depth[x] <= maxDepth
    ensures AfterRounds(items, 1) == Finish(items, Elements(a.ready))
    ensures ActiveIds(AfterRounds(items, maxDepth)) != {}
    ensures ActiveIds(AfterRounds(items, maxDepth + 1)) == {}
  {
    assert Elements(a.ready) == Roots(items);
    assert AfterRounds(items, 0) == items;
    DrainingTheorem(items, a, maxDepth);
    DrainingTheorem(items, a, maxDepth + 1);
    var x :| x in a.depth && a.depth[x] == maxDepth;
    assert x in ActiveIds(AfterRounds(items, maxDepth));
  }
}
