/** Depth-limited exploration of a finite graph with a stack, and what it finds. */
module Exploration {
  import opened Seqs

  /** A node to visit, and how many hops may still be made from it. */
  datatype Entry<T> = Entry(node: T, left: nat)

  ghost predicate ClosedUnder<T(!new)>(next: T -> seq<T>, all: set<T>) {
    forall x, y {:trigger y in next(x)} :: x in all && y in next(x) ==> y in all
  }

  ghost predicate NodesIn<T>(stack: seq<Entry<T>>, all: set<T>) {
    forall k :: 0 <= k < |stack| ==> stack[k].node in all
  }

  /** An entry for each node that has not been visited. */
  function Pushed<T(==)>(nodes: seq<T>, left: nat, order: seq<T>): (r: seq<Entry<T>>)
    ensures forall k :: 0 <= k < |r| ==> r[k].node in nodes && r[k].node !in order && r[k].left == left
  {
    if nodes == [] then [] else
      var last := nodes[|nodes| - 1];
      Pushed(nodes[..|nodes| - 1], left, order) + if last in order then [] else [Entry(last, left)]
  }

  predicate OnStack<T(==)>(stack: seq<Entry<T>>, x: T) {
    exists k :: 0 <= k < |stack| && stack[k].node == x
  }

  lemma {:induction false} PushedAre<T>(nodes: seq<T>, left: nat, order: seq<T>, x: T)
    requires x in nodes && x !in order
    ensures OnStack(Pushed(nodes, left, order), x)
  {
    var last, r := nodes[|nodes| - 1], Pushed(nodes, left, order);
    if last == x {
      assert r[|r| - 1].node == x;
    } else {
      var before := nodes[..|nodes| - 1];
      PushedAre(before, left, order, x);
      var k :| 0 <= k < |Pushed(before, left, order)| && Pushed(before, left, order)[k].node == x;
      assert r[k].node == x;
    }
  }

  lemma RoomLeft<T>(all: set<T>, order: seq<T>, x: T)
    requires x in all && x !in order
    ensures |all - Elements(order + [x])| < |all - Elements(order)|
  {
    assert all - Elements(order + [x]) == (all - Elements(order)) - {x};
  }

  /** The stack after a visit. */
  function Grown<T(==)>(next: T -> seq<T>, rest: seq<Entry<T>>, top: Entry<T>, order: seq<T>): seq<Entry<T>> {
    rest + if top.left == 0 then [] else Pushed(next(top.node), top.left - 1, order)
  }

  lemma GrownIn<T(!new)>(next: T -> seq<T>, all: set<T>, rest: seq<Entry<T>>, top: Entry<T>, order: seq<T>)
    requires ClosedUnder(next, all) && NodesIn(rest, all) && top.node in all
    ensures NodesIn(Grown(next, rest, top, order), all)
  {
  }

  /** The nodes in the order in which they are visited. */
  ghost function Explore<T(!new)>(next: T -> seq<T>, all: set<T>, stack: seq<Entry<T>>, order: seq<T>): seq<T>
    requires ClosedUnder(next, all) && NodesIn(stack, all)
    decreases |all - Elements(order)|, |stack|
  {
    if stack == [] then order else
      var top, rest := stack[|stack| - 1], stack[..|stack| - 1];
      if top.node in order then Explore(next, all, rest, order) else
        RoomLeft(all, order, top.node);
        GrownIn(next, all, rest, top, order + [top.node]);
        Explore(next, all, Grown(next, rest, top, order + [top.node]), order + [top.node])
  }

  /** The walk will end with `result`. */
  ghost predicate Leads<T(!new)>(next: T -> seq<T>, all: set<T>, stack: seq<Entry<T>>, order: seq<T>, result: seq<T>) {
    ClosedUnder(next, all) && NodesIn(stack, all) && Explore(next, all, stack, order) == result
  }

  /** One step of the walk. */
  lemma LeadsOn<T(!new)>(next: T -> seq<T>, all: set<T>, stack: seq<Entry<T>>, order: seq<T>, result: seq<T>)
    requires stack != [] && Leads(next, all, stack, order, result)
    ensures var top, rest := stack[|stack| - 1], stack[..|stack| - 1];
            if top.node in order then Leads(next, all, rest, order, result)
            else var order' := order + [top.node];
              && Leads(next, all, Grown(next, rest, top, order'), order', result)
              && |all - Elements(order')| < |all - Elements(order)|
  {
    var top, rest := stack[|stack| - 1], stack[..|stack| - 1];
    if top.node !in order {
      RoomLeft(all, order, top.node);
      GrownIn(next, all, rest, top, order + [top.node]);
    }
  }

  // ---------------------------------------------------------------- every run

  /** Nothing is visited twice, and nothing outside the graph. */
  lemma {:induction false} VisitedOnce<T(!new)>(next: T -> seq<T>, all: set<T>, stack: seq<Entry<T>>, order: seq<T>)
    requires ClosedUnder(next, all) && NodesIn(stack, all) && NoDup(order) && Elements(order) <= all
    ensures NoDup(Explore(next, all, stack, order)) && Elements(Explore(next, all, stack, order)) <= all
    decreases |all - Elements(order)|, |stack|
  {
    if stack != [] {
      var top, rest := stack[|stack| - 1], stack[..|stack| - 1];
      if top.node in order {
        VisitedOnce(next, all, rest, order);
      } else {
        RoomLeft(all, order, top.node);
        GrownIn(next, all, rest, top, order + [top.node]);
        VisitedOnce(next, all, Grown(next, rest, top, order + [top.node]), order + [top.node]);
      }
    }
  }

  /** What is visited or on the stack is visited in the end. */
  lemma {:induction false} NothingDropped<T(!new)>(next: T -> seq<T>, all: set<T>, stack: seq<Entry<T>>,
                                                   order: seq<T>, x: T)
    requires ClosedUnder(next, all) && NodesIn(stack, all) && (x in order || OnStack(stack, x))
    ensures x in Explore(next, all, stack, order)
    decreases |all - Elements(order)|, |stack|
  {
    if stack != [] {
      var top, rest := stack[|stack| - 1], stack[..|stack| - 1];
      StackSplit(stack, x);
      if top.node in order {
        NothingDropped(next, all, rest, order, x);
      } else {
        RoomLeft(all, order, top.node);
        GrownIn(next, all, rest, top, order + [top.node]);
        StaysOnStack(rest, Grown(next, rest, top, order + [top.node]), x);
        NothingDropped(next, all, Grown(next, rest, top, order + [top.node]), order + [top.node], x);
      }
    }
  }

  lemma StackSplit<T>(stack: seq<Entry<T>>, x: T)
    requires stack != []
    ensures OnStack(stack, x) ==> stack[|stack| - 1].node == x || OnStack(stack[..|stack| - 1], x)
  {
    if OnStack(stack, x) && stack[|stack| - 1].node != x {
      var k :| 0 <= k < |stack| && stack[k].node == x;
      assert stack[..|stack| - 1][k].node == x;
    }
  }

  lemma StaysOnStack<T>(rest: seq<Entry<T>>, grown: seq<Entry<T>>, x: T)
    requires rest <= grown
    ensures OnStack(rest, x) ==> OnStack(grown, x)
  {
    if OnStack(rest, x) {
      var k :| 0 <= k < |rest| && rest[k].node == x;
      assert grown[k].node == x;
    }
  }

  // ----------------------------------------------------------- within the depth

  /** `y` is reached from `x` in `n` hops. */
  ghost predicate Hops<T(!new)>(next: T -> seq<T>, x: T, y: T, n: nat) {
    if n == 0 then x == y else exists z :: Hops(next, x, z, n - 1) && y in next(z)
  }

  ghost predicate Within<T(!new)>(next: T -> seq<T>, x: T, y: T, depth: nat) {
    exists n: nat :: n <= depth && Hops(next, x, y, n)
  }

  /** The nodes passed on the way from `x` to `y`. */
  ghost predicate Trail<T(!new)>(next: T -> seq<T>, p: seq<T>, x: T, y: T) {
    && p != [] && p[0] == x && p[|p| - 1] == y
    && forall k {:trigger p[k]} :: 1 <= k < |p| ==> p[k] in next(p[k - 1])
  }

  lemma {:induction false} TrailOfHops<T(!new)>(next: T -> seq<T>, x: T, y: T, n: nat) returns (p: seq<T>)
    requires Hops(next, x, y, n)
    ensures |p| == n + 1 && Trail(next, p, x, y)
    decreases n
  {
    if n == 0 {
      p := [x];
    } else {
      var z :| Hops(next, x, z, n - 1) && y in next(z);
      var before := TrailOfHops(next, x, z, n - 1);
      p := before + [y];
    }
  }

  lemma {:induction false} HopsOfTrail<T(!new)>(next: T -> seq<T>, p: seq<T>, x: T, y: T)
    requires Trail(next, p, x, y)
    ensures Hops(next, x, y, |p| - 1)
  {
    var n := |p| - 1;
    if n > 0 {
      HopsOfTrail(next, p[..n], x, p[n - 1]);
      assert p[n] in next(p[n - 1]);
    }
  }

  /** An entry has used up as many hops as it takes to get there. */
  ghost predicate Paid<T(!new)>(next: T -> seq<T>, root: T, depth: nat, e: Entry<T>) {
    e.left <= depth && Hops(next, root, e.node, depth - e.left)
  }

  ghost predicate AllPaid<T(!new)>(next: T -> seq<T>, root: T, depth: nat, stack: seq<Entry<T>>) {
    forall k :: 0 <= k < |stack| ==> Paid(next, root, depth, stack[k])
  }

  lemma GrownIsPaid<T(!new)>(next: T -> seq<T>, root: T, depth: nat, rest: seq<Entry<T>>, top: Entry<T>, order: seq<T>)
    requires AllPaid(next, root, depth, rest) && Paid(next, root, depth, top)
    ensures AllPaid(next, root, depth, Grown(next, rest, top, order))
  {
    var grown := Grown(next, rest, top, order);
    forall k | |rest| <= k < |grown|
      ensures Paid(next, root, depth, grown[k])
    {
      assert Hops(next, root, top.node, depth - top.left) && grown[k].node in next(top.node);
    }
  }

  /** Only nodes within `depth` hops of the root are visited. */
  lemma {:induction false} VisitsWithin<T(!new)>(next: T -> seq<T>, all: set<T>, stack: seq<Entry<T>>,
                                                 order: seq<T>, root: T,
                                                 depth: nat)
    requires ClosedUnder(next, all) && NodesIn(stack, all)
    requires AllPaid(next, root, depth, stack) && forall x :: x in order ==> Within(next, root, x, depth)
    ensures forall x :: x in Explore(next, all, stack, order) ==> Within(next, root, x, depth)
    decreases |all - Elements(order)|, |stack|
  {
    if stack != [] {
      var top, rest := stack[|stack| - 1], stack[..|stack| - 1];
      if top.node in order {
        VisitsWithin(next, all, rest, order, root, depth);
      } else {
        RoomLeft(all, order, top.node);
        GrownIn(next, all, rest, top, order + [top.node]);
        GrownIsPaid(next, root, depth, rest, top, order + [top.node]);
        assert Paid(next, root, depth, top);
        assert Within(next, root, top.node, depth);
        VisitsWithin(next, all, Grown(next, rest, top, order + [top.node]), order + [top.node], root, depth);
      }
    }
  }

  // ------------------------------------------------------------- completeness

  /** Every successor of a visited node is visited or waits on the stack. */
  ghost predicate Settled<T(!new)>(next: T -> seq<T>, stack: seq<Entry<T>>, order: seq<T>) {
    forall x, y {:trigger y in next(x)} :: x in order && y in next(x) ==> y in order || OnStack(stack, y)
  }

  /** No entry has fewer hops left than the number of visited nodes accounts for. */
  ghost predicate Funded<T>(stack: seq<Entry<T>>, order: seq<T>, depth: nat) {
    forall k :: 0 <= k < |stack| ==> depth <= stack[k].left + |order|
  }

  lemma SettledAfter<T(!new)>(next: T -> seq<T>, all: set<T>, rest: seq<Entry<T>>, top: Entry<T>, order: seq<T>,
                              order': seq<T>)
    requires ClosedUnder(next, all) && NodesIn(rest, all) && top.node in all && order' == order + [top.node]
    requires Settled(next, rest + [top], order)
    requires top.left > 0 || Elements(order') == all
    requires Elements(order') <= all
    ensures Settled(next, Grown(next, rest, top, order'), order')
  {
    var grown := Grown(next, rest, top, order');
    forall x, y | x in order' && y in next(x) && y !in order'
      ensures OnStack(grown, y)
    {
      assert x in Elements(order');
      assert y in all;
      if x == top.node {
        assert y !in Elements(order');
        PushedAre(next(x), top.left - 1, order', y);
        var pushed := Pushed(next(x), top.left - 1, order');
        var k :| 0 <= k < |pushed| && pushed[k].node == y;
        assert grown[|rest| + k].node == y;
      } else {
        assert x in order;
        assert (rest + [top])[..|rest + [top]| - 1] == rest;
        StackSplit(rest + [top], y);
        StaysOnStack(rest, grown, y);
      }
    }
  }

  /** If the depth is at least the number of nodes less one, everything that can be reached is visited. */
  lemma {:induction false} ExploresAll<T(!new)>(next: T -> seq<T>, all: set<T>, stack: seq<Entry<T>>,
                                                order: seq<T>, depth: nat)
    requires ClosedUnder(next, all) && NodesIn(stack, all) && NoDup(order) && Elements(order) <= all
    requires depth + 1 >= |all| && Funded(stack, order, depth) && Settled(next, stack, order)
    ensures Settled(next, [], Explore(next, all, stack, order))
    decreases |all - Elements(order)|, |stack|
  {
    if stack == [] {
    } else {
      var top, rest := stack[|stack| - 1], stack[..|stack| - 1];
      assert stack == rest + [top];
      if top.node in order {
        assert Settled(next, rest, order) by {
          forall x, y | x in order && y in next(x) && y !in order
            ensures OnStack(rest, y)
          {
            StackSplit(stack, y);
          }
        }
        ExploresAll(next, all, rest, order, depth);
      } else {
        var order' := order + [top.node];
        RoomLeft(all, order, top.node);
        GrownIn(next, all, rest, top, order');
        NoDupSize(order');
        SubsetSize(Elements(order'), all);
        SettledAfter(next, all, rest, top, order, order');
        ExploresAll(next, all, Grown(next, rest, top, order'), order', depth);
      }
    }
  }

  lemma {:induction false} ClosedReaches<T(!new)>(next: T -> seq<T>, found: seq<T>, root: T, y: T, n: nat)
    requires Settled(next, [], found) && root in found && Hops(next, root, y, n)
    ensures y in found
  {
    if n > 0 {
      var z :| Hops(next, root, z, n - 1) && y in next(z);
      ClosedReaches(next, found, root, z, n - 1);
    }
  }

  // ------------------------------------------------------------ whole traversals

  /** The traversal from a root. */
  ghost function From<T(!new)>(next: T -> seq<T>, all: set<T>, root: T, depth: nat): seq<T>
    requires ClosedUnder(next, all) && root in all
  {
    Explore(next, all, [Entry(root, depth)], [])
  }

  /** Every visit is to a node within the depth, and no node is visited twice. */
  lemma FromIsSound<T(!new)>(next: T -> seq<T>, all: set<T>, root: T, depth: nat)
    requires ClosedUnder(next, all) && root in all
    ensures var r := From(next, all, root, depth);
            NoDup(r) && root in r && Elements(r) <= all && forall x :: x in r ==> Within(next, root, x, depth)
  {
    var stack := [Entry(root, depth)];
    assert stack[0].node == root;
    assert Hops(next, root, root, 0);
    VisitedOnce(next, all, stack, []);
    VisitsWithin(next, all, stack, [], root, depth);
    NothingDropped(next, all, stack, [], root);
  }

  ghost predicate Reaches<T(!new)>(next: T -> seq<T>, x: T, y: T) {
    exists n: nat :: Hops(next, x, y, n)
  }

  /** With a depth of at least the number of nodes less one, the reachable nodes are visited, all of them and no others. */
  lemma FromReachesAll<T(!new)>(next: T -> seq<T>, all: set<T>, root: T, depth: nat)
    requires ClosedUnder(next, all) && root in all && depth + 1 >= |all|
    ensures forall x :: x in From(next, all, root, depth) <==> Reaches(next, root, x)
  {
    var r := From(next, all, root, depth);
    FromIsSound(next, all, root, depth);
    ExploresAll(next, all, [Entry(root, depth)], [], depth);
    forall x
      ensures x in r <==> Reaches(next, root, x)
    {
      if x in r {
        var n: nat :| n <= depth && Hops(next, root, x, n);
      }
      if Reaches(next, root, x) {
        var n: nat :| Hops(next, root, x, n);
        ClosedReaches(next, r, root, x, n);
      }
    }
  }

  /** A depth of at most one is always exact: the root, or the root and its successors. */
  lemma ShallowIsExact<T(!new)>(next: T -> seq<T>, all: set<T>, root: T, depth: nat)
    requires ClosedUnder(next, all) && root in all && depth <= 1
    ensures forall x :: x in From(next, all, root, depth) <==> Within(next, root, x, depth)
  {
    FromIsSound(next, all, root, depth);
    forall x | Within(next, root, x, depth)
      ensures x in From(next, all, root, depth)
    {
      var n: nat :| n <= depth && Hops(next, root, x, n);
      if n == 1 {
        var z :| Hops(next, root, z, 0) && x in next(z);
        SuccessorsAreVisited(next, all, root, depth, x);
      }
    }
  }

  lemma SuccessorsAreVisited<T(!new)>(next: T -> seq<T>, all: set<T>, root: T, depth: nat, x: T)
    requires ClosedUnder(next, all) && root in all && depth > 0 && x in next(root)
    ensures x in From(next, all, root, depth)
  {
    FirstVisit(next, all, root, depth);
    if x != root {
      PushedAre(next(root), depth - 1, [root], x);
    }
    NothingDropped(next, all, Pushed(next(root), depth - 1, [root]), [root], x);
  }

  lemma FirstVisit<T(!new)>(next: T -> seq<T>, all: set<T>, root: T, depth: nat)
    requires ClosedUnder(next, all) && root in all && depth > 0
    ensures NodesIn(Pushed(next(root), depth - 1, [root]), all)
    ensures From(next, all, root, depth) == Explore(next, all, Pushed(next(root), depth - 1, [root]), [root])
  {
    var stack := [Entry(root, depth)];
    assert stack[..0] == [] && [] + [root] == [root];
    assert Grown(next, [], stack[0], [root]) == Pushed(next(root), depth - 1, [root]);
  }

  // ------------------------------------------------- when the depth cuts too much

  /** All nodes within the depth are visited, whatever the graph on the nodes below `n` is. */
  ghost predicate Complete(next: nat -> seq<nat>, n: nat, depth: nat)
    requires n > 0 && ClosedUnder(next, Below(n))
  {
    forall x :: Within<nat>(next, 0, x, depth) ==> x in From<nat>(next, Below(n), 0, depth)
  }

  ghost function Below(n: nat): (r: set<nat>)
    ensures |r| == n && forall x: nat :: x in r <==> x < n
  {
    if n == 0 then {} else Below(n - 1) + {n - 1}
  }

  /** A long way from node 0 to node `d` that is taken first, a short cut between them, and one more node behind `d`. */
  ghost predicate IsDetour<T(!new)>(next: T -> seq<T>, nodes: seq<T>, d: nat) {
    && d >= 2 && |nodes| == d + 2 && NoDup(nodes)
    && next(nodes[0]) == [nodes[d], nodes[1]]
    && forall i {:trigger next(nodes[i])} :: 1 <= i <= d ==> next(nodes[i]) == [nodes[i + 1]]
  }

  lemma NotBefore<T>(nodes: seq<T>, i: nat)
    requires NoDup(nodes) && i < |nodes|
    ensures nodes[i] !in nodes[..i] && nodes[..i + 1] == nodes[..i] + [nodes[i]]
  {
  }

  lemma DetourStep<T(!new)>(next: T -> seq<T>, all: set<T>, nodes: seq<T>, d: nat, i: nat)
    requires IsDetour(next, nodes, d) && ClosedUnder(next, all) && Elements(nodes) <= all && 1 <= i < d
    ensures NodesIn([Entry(nodes[d], d - 1), Entry(nodes[i], d - i)], all)
    ensures NodesIn([Entry(nodes[d], d - 1), Entry(nodes[i + 1], d - i - 1)], all)
    ensures Explore(next, all, [Entry(nodes[d], d - 1), Entry(nodes[i], d - i)], nodes[..i]) ==
            Explore(next, all, [Entry(nodes[d], d - 1), Entry(nodes[i + 1], d - i - 1)], nodes[..i + 1])
  {
    var e, top := Entry(nodes[d], d - 1), Entry(nodes[i], d - i);
    assert nodes[d] in all && nodes[i] in all && nodes[i + 1] in all;
    NotBefore(nodes, i);
    VisitTop(next, all, e, top, nodes[..i]);
    DetourGrows(next, nodes, d, i);
  }

  lemma DetourGrows<T(!new)>(next: T -> seq<T>, nodes: seq<T>, d: nat, i: nat)
    requires IsDetour(next, nodes, d) && 1 <= i < d
    ensures Grown(next, [Entry(nodes[d], d - 1)], Entry(nodes[i], d - i), nodes[..i + 1]) ==
            [Entry(nodes[d], d - 1), Entry(nodes[i + 1], d - i - 1)]
  {
    NotBefore(nodes, i + 1);
    OneSuccessor(nodes[i + 1], d - i - 1, nodes[..i + 1]);
    assert next(nodes[i]) == [nodes[i + 1]];
  }

  lemma DetourEnd<T(!new)>(next: T -> seq<T>, all: set<T>, nodes: seq<T>, d: nat)
    requires IsDetour(next, nodes, d) && ClosedUnder(next, all) && Elements(nodes) <= all
    ensures NodesIn([Entry(nodes[d], d - 1), Entry(nodes[d], 0)], all)
    ensures Explore(next, all, [Entry(nodes[d], d - 1), Entry(nodes[d], 0)], nodes[..d]) == nodes[..d + 1]
  {
    var e, top := Entry(nodes[d], d - 1), Entry(nodes[d], 0);
    assert nodes[d] in all;
    NotBefore(nodes, d);
    VisitTop(next, all, e, top, nodes[..d]);
    assert Grown(next, [e], top, nodes[..d + 1]) == [e];
    SkipsVisited(next, all, e, nodes[..d + 1]);
  }

  /** The long way is walked to its end, and the short cut then finds its end visited. */
  lemma {:induction false} DetourFrom<T(!new)>(next: T -> seq<T>, all: set<T>, nodes: seq<T>, d: nat, i: nat)
    requires IsDetour(next, nodes, d) && ClosedUnder(next, all) && Elements(nodes) <= all && 1 <= i <= d
    ensures NodesIn([Entry(nodes[d], d - 1), Entry(nodes[i], d - i)], all)
    ensures Explore(next, all, [Entry(nodes[d], d - 1), Entry(nodes[i], d - i)], nodes[..i]) == nodes[..d + 1]
    decreases d - i
  {
    if i == d {
      DetourEnd(next, all, nodes, d);
    } else {
      DetourStep(next, all, nodes, d, i);
      DetourFrom(next, all, nodes, d, i + 1);
    }
  }

  lemma VisitTop<T(!new)>(next: T -> seq<T>, all: set<T>, e: Entry<T>, top: Entry<T>, order: seq<T>)
    requires ClosedUnder(next, all) && e.node in all && top.node in all && top.node !in order
    ensures NodesIn(Grown(next, [e], top, order + [top.node]), all)
    ensures Explore(next, all, [e, top], order) ==
            Explore(next, all, Grown(next, [e], top, order + [top.node]), order + [top.node])
  {
    var stack := [e, top];
    assert stack[|stack| - 1] == top && stack[..|stack| - 1] == [e];
    GrownIn(next, all, [e], top, order + [top.node]);
  }

  lemma SkipsVisited<T(!new)>(next: T -> seq<T>, all: set<T>, e: Entry<T>, order: seq<T>)
    requires ClosedUnder(next, all) && e.node in all && e.node in order
    ensures Explore(next, all, [e], order) == order
  {
    assert [e][..0] == [];
  }

  lemma OneSuccessor<T>(x: T, left: nat, order: seq<T>)
    requires x !in order
    ensures Pushed([x], left, order) == [Entry(x, left)]
  {
    assert [x][..0] == [];
  }

  lemma DetourStart<T(!new)>(next: T -> seq<T>, all: set<T>, nodes: seq<T>, d: nat)
    requires IsDetour(next, nodes, d) && ClosedUnder(next, all) && Elements(nodes) <= all
    ensures From(next, all, nodes[0], d) == nodes[..d + 1]
  {
    assert nodes[0] in all;
    var pushed := Pushed(next(nodes[0]), d - 1, [nodes[0]]);
    FirstVisit(next, all, nodes[0], d);
    OneSuccessor(nodes[d], d - 1, [nodes[0]]);
    assert [nodes[d], nodes[1]][..1] == [nodes[d]];
    assert pushed == [Entry(nodes[d], d - 1), Entry(nodes[1], d - 1)];
    assert nodes[..1] == [nodes[0]];
    DetourFrom(next, all, nodes, d, 1);
  }

  /** The node behind the end of the short cut is two hops away and is not visited. */
  lemma DetourMisses<T(!new)>(next: T -> seq<T>, all: set<T>, nodes: seq<T>, d: nat)
    requires IsDetour(next, nodes, d) && ClosedUnder(next, all) && Elements(nodes) <= all
    ensures nodes[0] in all && nodes[d + 1] !in From(next, all, nodes[0], d)
    ensures Within(next, nodes[0], nodes[d + 1], d)
  {
    assert nodes[0] in all;
    DetourStart(next, all, nodes, d);
    NotBefore(nodes, d + 1);
    assert next(nodes[d]) == [nodes[d + 1]];
    TwoHops(next, nodes[0], nodes[d], nodes[d + 1], d);
  }

  function Detour(d: nat, x: nat): seq<nat> {
    if x == 0 then [d, 1] else if x <= d then [x + 1] else []
  }

  lemma DetourGraph(next: nat -> seq<nat>, d: nat, n: nat)
    requires d >= 2 && n >= d + 2 && forall x {:trigger next(x)} :: next(x) == Detour(d, x)
    ensures ClosedUnder(next, Below(n)) && !Complete(next, n, d)
  {
    forall x, y | x in Below(n) && y in next(x)
      ensures y in Below(n)
    {
      assert next(x) == Detour(d, x);
    }
    var nodes: seq<nat> := seq(d + 2, k => k);
    assert forall k :: 0 <= k < |nodes| ==> nodes[k] == k;
    DetourMisses<nat>(next, Below(n), nodes, d);
  }

  lemma TwoHops<T(!new)>(next: T -> seq<T>, x: T, y: T, z: T, depth: nat)
    requires y in next(x) && z in next(y) && depth >= 2
    ensures Within(next, x, z, depth)
  {
    assert Hops(next, x, x, 0);
    assert Hops(next, x, y, 1);
    assert Hops(next, x, z, 2);
  }

  lemma ReachesWithin(next: nat -> seq<nat>, depth: nat)
    ensures forall x :: Within<nat>(next, 0, x, depth) ==> Reaches(next, 0, x)
  {
    forall x | Within<nat>(next, 0, x, depth)
      ensures Reaches(next, 0, x)
    {
      var n: nat :| n <= depth && Hops<nat>(next, 0, x, n);
    }
  }

  /** The traversal visits everything within the depth, on every graph of `n` nodes, exactly when the depth is at most one
      or at least `n` less one. */
  lemma WhenDepthIsExact(n: nat, depth: nat)
    requires n > 0
    ensures (forall next: nat -> seq<nat> :: ClosedUnder(next, Below(n)) ==> Complete(next, n, depth)) <==>
            depth <= 1 || depth + 1 >= n
  {
    if depth <= 1 || depth + 1 >= n {
      forall next: nat -> seq<nat> | ClosedUnder(next, Below(n))
        ensures Complete(next, n, depth)
      {
        if depth <= 1 {
          ShallowIsExact(next, Below(n), 0, depth);
        } else {
          FromReachesAll(next, Below(n), 0, depth);
          ReachesWithin(next, depth);
        }
      }
    } else {
      var next: nat -> seq<nat> := x => Detour(depth, x);
      DetourGraph(next, depth, n);
    }
  }
}
