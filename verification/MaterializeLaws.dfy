/** What the materialize command collects, read off the store directly. */
module MaterializeLaws {
  import opened Board
  import opened Columns
  import opened Exploration
  import opened ItemTypes
  import opened Materialize
  import opened Wrappers

  /** The types whose items are expanded: campaigns belong to no scope but the one that admits everything. */
  predicate Admits(scope: string, itemType: string) {
    if scope == "work" then itemType in {"expedition", "chore", "voyage", "hazard", "signal", "feature"}
    else if scope == "research" then itemType in {"paper", "hypothesis", "experiment", "measure", "literature", "idea"}
    else true
  }

  /** Item `x` is live and in scope, and names `y` as a related item or as a dependency. */
  predicate LinksTo(s: State, scope: string, x: Id, y: Id) {
    && Has(s, x)
    && (match Get(s, x)[ITEM_TYPE].text case Some(itemType) => Admits(scope, itemType) case None => false)
    && ((match Get(s, x)[RELATED].list case Some(ids) => y in ids case None => false) ||
        (match Get(s, x)[DEPENDS_ON].list case Some(ids) => y in ids case None => false))
  }

  lemma NextLinks(s: State, scope: string, x: Id, y: Id)
    ensures y in Next(s, ScopeOf(scope), x) <==> LinksTo(s, scope, x, y)
  {
  }

  /** A chain of links. */
  ghost predicate Chain(s: State, scope: string, p: seq<Id>) {
    p != [] && forall k {:trigger p[k]} :: 1 <= k < |p| ==> LinksTo(s, scope, p[k - 1], p[k])
  }

  ghost predicate ChainFrom(s: State, scope: string, p: seq<Id>, x: Id, y: Id) {
    Chain(s, scope, p) && p[0] == x && p[|p| - 1] == y
  }

  lemma ChainsAreTrails(s: State, scope: string, p: seq<Id>, x: Id, y: Id)
    ensures ChainFrom(s, scope, p, x, y) <==> Trail(NextIn(s, ScopeOf(scope)), p, x, y)
  {
    var next := NextIn(s, ScopeOf(scope));
    forall k | 1 <= k < |p|
      ensures LinksTo(s, scope, p[k - 1], p[k]) <==> p[k] in next(p[k - 1])
    {
      NextLinks(s, scope, p[k - 1], p[k]);
    }
  }

  /** With the default depth of one: the root and what it links to. */
  lemma DefaultDepth(s: State, scope: string, root: Id, x: Id)
    ensures x in Collected(s, ScopeOf(scope), root, 1) <==> x == root || LinksTo(s, scope, root, x)
  {
    var next := NextIn(s, ScopeOf(scope));
    ShallowCollect(s, ScopeOf(scope), root, 1);
    NextLinks(s, scope, root, x);
    assert Hops(next, root, root, 0);
    if x in next(root) {
      assert Hops(next, root, x, 1);
    }
    if Within(next, root, x, 1) {
      var n: nat :| n <= 1 && Hops(next, root, x, n);
      if n == 1 {
        var z :| Hops(next, root, z, 0) && x in next(z);
      }
    }
  }

  /** Without hops, the root alone. */
  lemma NoDepth(s: State, scope: string, root: Id, x: Id)
    ensures x in Collected(s, ScopeOf(scope), root, 0) <==> x == root
  {
    ShallowCollect(s, ScopeOf(scope), root, 0);
    assert Hops(NextIn(s, ScopeOf(scope)), root, root, 0);
  }

  /** At any depth, what is collected is linked to the root by a chain of that many links at most. */
  lemma CollectedIsLinked(s: State, scope: string, root: Id, depth: nat, x: Id)
    requires x in Collected(s, ScopeOf(scope), root, depth)
    ensures exists p :: |p| <= depth + 1 && ChainFrom(s, scope, p, root, x)
  {
    CollectedIsSound(s, ScopeOf(scope), root, depth);
    var n: nat :| n <= depth && Hops(NextIn(s, ScopeOf(scope)), root, x, n);
    var p := TrailOfHops(NextIn(s, ScopeOf(scope)), root, x, n);
    ChainsAreTrails(s, scope, p, root, x);
  }

  /** With a depth of at least the number of distinct ids less one, exactly what is linked to the root. */
  lemma DeepCollect(s: State, scope: string, root: Id, depth: nat, x: Id)
    requires depth + 1 >= |Known(s, root)|
    ensures x in Collected(s, ScopeOf(scope), root, depth) <==> exists p :: ChainFrom(s, scope, p, root, x)
  {
    var next := NextIn(s, ScopeOf(scope));
    CollectedReachesAll(s, ScopeOf(scope), root, depth);
    if Reaches(next, root, x) {
      var n: nat :| Hops(next, root, x, n);
      var p := TrailOfHops(next, root, x, n);
      ChainsAreTrails(s, scope, p, root, x);
    }
    if p :| ChainFrom(s, scope, p, root, x) {
      ChainsAreTrails(s, scope, p, root, x);
      HopsOfTrail(next, p, root, x);
    }
  }

  /** The types of the development board are those of the work scope, but for campaigns; those of the research board are
      those of the research scope. */
  lemma ScopesAndBoards(t: ItemType)
    ensures BoardName(t) == "development" <==> t == Campaign || Admits("work", TypeName(t))
    ensures BoardName(t) == "research" <==> Admits("research", TypeName(t))
    ensures !Admits("work", TypeName(Campaign)) && !Admits("research", TypeName(Campaign))
  {
  }
}
