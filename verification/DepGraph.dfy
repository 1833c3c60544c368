/** Dependency graphs: walks, cycles, longest chains and transitive dependents. */
module DepGraph {
  import opened Seqs
  import opened Wrappers

  /** Every node with the list of nodes it depends on; a list may repeat an entry. */
  type Graph = map<Id, seq<Id>>

  ghost predicate Dep(g: Graph, x: Id, y: Id) {
    x in g && y in g && y in g[x]
  }

  ghost predicate Closed(g: Graph) {
    forall x, y :: x in g && y in g[x] ==> y in g
  }

  /** `p` follows dependencies: each entry depends on the next one. */
  ghost predicate Walk(g: Graph, p: seq<Id>) {
    && |p| > 0
    && p[0] in g
    && forall i :: 0 < i < |p| ==> Dep(g, p[i - 1], p[i])
  }

  ghost predicate Cycle(g: Graph, c: seq<Id>) {
    Walk(g, c) && |c| > 1 && c[0] == c[|c| - 1]
  }

  ghost predicate HasCycle(g: Graph) {
    exists c :: Cycle(g, c)
  }

  /** Following dependencies from `x` one can get onto a cycle. */
  ghost predicate ReachesCycle(g: Graph, x: Id) {
    exists p, c :: LeadsTo(g, x, p, c)
  }

  ghost predicate LeadsTo(g: Graph, x: Id, p: seq<Id>, c: seq<Id>) {
    Walk(g, p) && p[0] == x && Cycle(g, c) && p[|p| - 1] == c[0]
  }

  /** The longest chain of dependencies that ends at `x` has `d` edges. */
  ghost predicate LongestChain(g: Graph, x: Id, d: nat) {
    && (exists p :: Walk(g, p) && p[0] == x && |p| == d + 1)
    && forall p :: Walk(g, p) && p[0] == x ==> |p| <= d + 1
  }

  lemma LongestChainUnique(g: Graph, x: Id, d: nat, e: nat)
    requires LongestChain(g, x, d) && LongestChain(g, x, e)
    ensures d == e
  {
  }

  /** `x` depends on `y` through one or more edges. */
  ghost predicate DependsOn(g: Graph, x: Id, y: Id) {
    exists p :: Connects(g, x, y, p)
  }

  ghost predicate Connects(g: Graph, x: Id, y: Id, p: seq<Id>) {
    Walk(g, p) && |p| > 1 && p[0] == x && p[|p| - 1] == y
  }

  /** Everything that depends on `y`, directly or not. */
  ghost function Downstream(g: Graph, y: Id): set<Id> {
    set x | x in g && DependsOn(g, x, y)
  }

  /** Each dependency stands before the nodes that depend on it. */
  ghost predicate RespectsDeps(g: Graph, s: seq<Id>) {
    forall i, y :: 0 <= i < |s| && Dep(g, s[i], y) ==> y in s[..i]
  }

  ghost predicate TopologicalOrder(g: Graph, s: seq<Id>) {
    NoDup(s) && Elements(s) == g.Keys && RespectsDeps(g, s)
  }

  /** `depth` is 0 at nodes without dependencies, elsewhere one more than the deepest dependency. */
  ghost predicate DepthEquations(g: Graph, depth: map<Id, nat>) {
    && depth.Keys == g.Keys
    && (forall x, y :: Dep(g, x, y) ==> depth[y] + 1 <= depth[x])
    && forall x {:trigger HasStep(g, depth, x)} :: x in g && depth[x] > 0 ==> HasStep(g, depth, x)
  }

  ghost predicate HasStep(g: Graph, depth: map<Id, nat>, x: Id)
    requires depth.Keys == g.Keys && x in g
  {
    exists y :: Dep(g, x, y) && depth[x] == depth[y] + 1
  }

  // ---------------------------------------------------------------- walks

  lemma WalkSlice(g: Graph, p: seq<Id>, i: nat, j: nat)
    requires Walk(g, p) && i < j <= |p|
    ensures Walk(g, p[i..j])
  {
    var q := p[i..j];
    assert p[i] in g by {
      if i > 0 {
        assert Dep(g, p[i - 1], p[i]);
      }
    }
    forall k | 0 < k < |q|
      ensures Dep(g, q[k - 1], q[k])
    {
      assert Dep(g, p[i + k - 1], p[i + k]);
    }
  }

  lemma WalkCons(g: Graph, x: Id, p: seq<Id>)
    requires Walk(g, p) && Dep(g, x, p[0])
    ensures Walk(g, [x] + p)
  {
    var q := [x] + p;
    forall k | 0 < k < |q|
      ensures Dep(g, q[k - 1], q[k])
    {
      if k > 1 {
        assert Dep(g, p[k - 2], p[k - 1]);
      }
    }
  }

  lemma WalkJoin(g: Graph, p: seq<Id>, q: seq<Id>)
    requires Walk(g, p) && Walk(g, q) && p[|p| - 1] == q[0]
    ensures Walk(g, p + q[1..])
  {
    var r := p + q[1..];
    forall k | 0 < k < |r|
      ensures Dep(g, r[k - 1], r[k])
    {
      if k < |p| {
        assert Dep(g, p[k - 1], p[k]);
      } else {
        assert Dep(g, q[k - |p|], q[k - |p| + 1]);
      }
    }
  }

  // --------------------------------------------------------------- cycles

  ghost predicate HasDepIn(g: Graph, s: set<Id>, x: Id) {
    exists y :: y in s && Dep(g, x, y)
  }

  /** Every member of `s` depends on a member of `s`. */
  ghost predicate Stuck(g: Graph, s: set<Id>) {
    s <= g.Keys && forall z {:trigger HasDepIn(g, s, z)} :: z in s ==> HasDepIn(g, s, z)
  }

  /** Inside a stuck set, walks of every length exist. */
  lemma {:induction false} WalkInside(g: Graph, stuck: set<Id>, x: Id, n: nat) returns (p: seq<Id>)
    requires x in stuck
    requires Stuck(g, stuck)
    ensures Walk(g, p) && p[0] == x && |p| == n + 1
    ensures forall z :: z in p ==> z in stuck
    decreases n
  {
    if n == 0 {
      p := [x];
    } else {
      assert HasDepIn(g, stuck, x);
      var y :| y in stuck && Dep(g, x, y);
      var q := WalkInside(g, stuck, y, n - 1);
      WalkCons(g, x, q);
      p := [x] + q;
    }
  }

  lemma RepeatReachesCycle(g: Graph, p: seq<Id>, i: nat, j: nat)
    requires Walk(g, p) && i < j < |p| && p[i] == p[j]
    ensures ReachesCycle(g, p[0])
  {
    WalkSlice(g, p, 0, i + 1);
    WalkSlice(g, p, i, j + 1);
    assert LeadsTo(g, p[0], p[0..i + 1], p[i..j + 1]);
  }

  /** Nodes that can never be ordered reach a cycle. */
  lemma StuckReachesCycle(g: Graph, stuck: set<Id>, x: Id)
    requires x in stuck
    requires Stuck(g, stuck)
    ensures ReachesCycle(g, x)
  {
    var p := WalkInside(g, stuck, x, |stuck|);
    var i, j := Pigeonhole(p, stuck);
    RepeatReachesCycle(g, p, i, j);
  }

  /** Walks from an ordered node only go to earlier nodes. */
  lemma {:induction false} OrderedWalk(g: Graph, s: seq<Id>, k: nat, p: seq<Id>)
    requires RespectsDeps(g, s) && NoDup(s) && k < |s|
    requires Walk(g, p) && p[0] == s[k]
    ensures |p| <= k + 1
    ensures forall i :: 0 < i < |p| ==> p[i] in s[..k]
  {
    if |p| > 1 {
      assert Dep(g, p[0], p[1]);
      var j :| 0 <= j < k && s[j] == p[1];
      WalkSlice(g, p, 1, |p|);
      OrderedWalk(g, s, j, p[1..]);
      forall i | 0 < i < |p|
        ensures p[i] in s[..k]
      {
        if i > 1 {
          assert p[1..][i - 1] in s[..j];
        }
      }
    }
  }

  lemma OrderedReachesNoCycle(g: Graph, s: seq<Id>, x: Id)
    requires RespectsDeps(g, s) && NoDup(s) && x in s
    ensures !ReachesCycle(g, x)
  {
    if ReachesCycle(g, x) {
      var p, c :| LeadsTo(g, x, p, c);
      var k :| 0 <= k < |s| && s[k] == x;
      OrderedWalk(g, s, k, p);
      assert c[0] in s[..k + 1];
      var j :| 0 <= j <= k && s[j] == c[0];
      OrderedWalk(g, s, j, c);
    }
  }

  // ------------------------------------------------- longest chains

  lemma {:induction false} DepthBoundsWalks(g: Graph, depth: map<Id, nat>, p: seq<Id>)
    requires DepthEquations(g, depth) && Walk(g, p)
    ensures |p| <= depth[p[0]] + 1
  {
    if |p| > 1 {
      assert Dep(g, p[0], p[1]);
      WalkSlice(g, p, 1, |p|);
      DepthBoundsWalks(g, depth, p[1..]);
    }
  }

  lemma {:induction false} DepthWalk(g: Graph, depth: map<Id, nat>, x: Id) returns (p: seq<Id>)
    requires DepthEquations(g, depth) && x in g
    ensures Walk(g, p) && p[0] == x && |p| == depth[x] + 1
    decreases depth[x]
  {
    if depth[x] == 0 {
      p := [x];
    } else {
      assert HasStep(g, depth, x);
      var y :| Dep(g, x, y) && depth[x] == depth[y] + 1;
      var q := DepthWalk(g, depth, y);
      WalkCons(g, x, q);
      p := [x] + q;
    }
  }

  /** The depth equations have one solution: the longest chains. */
  lemma DepthIsLongestChain(g: Graph, depth: map<Id, nat>)
    requires DepthEquations(g, depth)
    ensures forall x :: x in g ==> LongestChain(g, x, depth[x])
  {
    forall x | x in g
      ensures LongestChain(g, x, depth[x])
    {
      var q := DepthWalk(g, depth, x);
      forall p | Walk(g, p) && p[0] == x
        ensures |p| <= depth[x] + 1
      {
        DepthBoundsWalks(g, depth, p);
      }
    }
  }

  // -------------------------------------------- transitive dependents

  /** What depends on `y` is what depends directly on it, and everything that depends on those. */
  lemma DownstreamStep(g: Graph, y: Id, x: Id)
    requires y in g
    ensures x in Downstream(g, y) <==> exists d :: Dep(g, d, y) && (x == d || x in Downstream(g, d))
  {
    if x in Downstream(g, y) {
      var p :| Connects(g, x, y, p);
      var d := p[|p| - 2];
      assert Dep(g, p[|p| - 2], p[|p| - 1]);
      if |p| > 2 {
        WalkSlice(g, p, 0, |p| - 1);
        assert Connects(g, x, d, p[0..|p| - 1]);
      }
    }
    if d :| Dep(g, d, y) && (x == d || x in Downstream(g, d)) {
      assert Walk(g, [d, y]);
      if x == d {
        assert Connects(g, x, y, [d, y]);
      } else {
        var p :| Connects(g, x, d, p);
        WalkJoin(g, p, [d, y]);
        assert Connects(g, x, y, p + [d, y][1..]);
      }
    }
  }

  /** Conversely, longest chains solve the depth equations. */
  lemma LongestChainsAreDepths(g: Graph, depth: map<Id, nat>)
    requires depth.Keys == g.Keys && forall x :: x in g ==> LongestChain(g, x, depth[x])
    ensures DepthEquations(g, depth)
  {
    forall x, y | Dep(g, x, y)
      ensures depth[y] + 1 <= depth[x]
    {
      LongestChainEdge(g, x, y, depth[x], depth[y]);
    }
    forall x | x in g && depth[x] > 0
      ensures HasStep(g, depth, x)
    {
      var p :| Walk(g, p) && p[0] == x && |p| == depth[x] + 1;
      var y := p[1];
      assert Dep(g, p[0], p[1]);
      WalkSlice(g, p, 1, |p|);
      assert |p[1..]| <= depth[y] + 1 by {
        assert LongestChain(g, y, depth[y]);
      }
    }
  }

  lemma LongestChainEdge(g: Graph, x: Id, y: Id, d: nat, e: nat)
    requires Dep(g, x, y) && LongestChain(g, x, d) && LongestChain(g, y, e)
    ensures e + 1 <= d
  {
    var p :| Walk(g, p) && p[0] == y && |p| == e + 1;
    WalkCons(g, x, p);
  }

  lemma {:induction false} DepthDropsAlong(g: Graph, depth: map<Id, nat>, p: seq<Id>)
    requires DepthEquations(g, depth) && Walk(g, p)
    ensures p[|p| - 1] in g && depth[p[|p| - 1]] + |p| - 1 <= depth[p[0]]
  {
    if |p| > 1 {
      assert Dep(g, p[0], p[1]);
      WalkSlice(g, p, 1, |p|);
      DepthDropsAlong(g, depth, p[1..]);
    }
  }

  lemma DepthsExcludeCycles(g: Graph, depth: map<Id, nat>)
    requires DepthEquations(g, depth)
    ensures !HasCycle(g)
  {
    if c :| Cycle(g, c) {
      DepthDropsAlong(g, depth, c);
    }
  }
}
