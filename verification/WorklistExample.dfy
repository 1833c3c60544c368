/** A board on which agents share work and the documented order of work is not the one that is followed. */
module WorklistExample {
  import opened CriticalPath
  import opened Dependencies
  import opened DepGraph
  import opened Items
  import opened Seqs
  import opened Sorting
  import opened Worklist
  import opened Wrappers

  /** Urgent, but nothing waits for it. */
  const URGENT: ItemInfo := ItemInfo("EX-1", "Fix login", "expedition", "backlog", "high", "-", [], [], None)

  /** Less urgent, but another item waits for it. */
  const AWAITED: ItemInfo := ItemInfo("EX-2", "Add index", "expedition", "backlog", "low", "-", [], [], None)

  const WAITING: ItemInfo := ItemInfo("EX-3", "Use index", "expedition", "backlog", "low", "-", [], ["EX-2"], None)

  const BOARD: seq<ItemInfo> := [URGENT, AWAITED, WAITING]

  /** No capabilities are declared, so every item may go to every agent. */
  const ANYONE: Routing := Routing(map[], map[])

  lemma OnBoard(i: ItemInfo)
    ensures i in BOARD <==> i == URGENT || i == AWAITED || i == WAITING
  {
    assert BOARD[0] == URGENT && BOARD[1] == AWAITED && BOARD[2] == WAITING;
  }

  lemma BoardIsOpen()
    ensures Active(BOARD) == BOARD
    ensures forall x :: x in ActiveIds(BOARD) <==> exists i :: i in BOARD && i.id == x
  {
    forall i | i in BOARD
      ensures !IsClosed(i)
    {
      OnBoard(i);
    }
    AllActive(BOARD);
  }

  lemma BoardIds()
    ensures UniqueIds(BOARD) && UniqueIds(Active(BOARD))
  {
    BoardIsOpen();
  }

  lemma BoardNodes(x: Id)
    ensures x in GraphOf(BOARD) <==> x == "EX-1" || x == "EX-2" || x == "EX-3"
  {
    BoardIsOpen();
    OnBoard(URGENT);
    OnBoard(AWAITED);
    OnBoard(WAITING);
    if i :| i in BOARD && i.id == x {
      OnBoard(i);
    }
  }

  lemma BoardMap()
    ensures var m := ItemMap(BOARD);
            "EX-1" in m && m["EX-1"] == URGENT && "EX-2" in m && m["EX-2"] == AWAITED
  {
    BoardIds();
    OnBoard(URGENT);
    OnBoard(AWAITED);
    ItemMapUnique(BOARD, URGENT);
    ItemMapUnique(BOARD, AWAITED);
  }

  lemma BoardDependencies(x: Id, y: Id)
    ensures Dep(GraphOf(BOARD), x, y) <==> x == "EX-3" && y == "EX-2"
  {
    GraphEdges(BOARD, x, y);
    BoardIsOpen();
    OnBoard(WAITING);
    OnBoard(AWAITED);
    assert WAITING.dependsOn[0] == "EX-2";
    if i :| i in BOARD && i.id == x && y in i.dependsOn {
      OnBoard(i);
    }
  }

  /** A graph of three nodes in which only `c` depends on anything, namely on `b`. */
  ghost predicate OneEdge(g: Graph, a: Id, b: Id, c: Id) {
    && a != b && b != c && c != a && g.Keys == {a, b, c}
    && forall x, y {:trigger Dep(g, x, y)} :: Dep(g, x, y) <==> x == c && y == b
  }

  lemma BoardGraph()
    ensures OneEdge(GraphOf(BOARD), "EX-1", "EX-2", "EX-3")
  {
    forall x
      ensures x in GraphOf(BOARD) <==> x == "EX-1" || x == "EX-2" || x == "EX-3"
    {
      BoardNodes(x);
    }
    forall x, y
      ensures Dep(GraphOf(BOARD), x, y) <==> x == "EX-3" && y == "EX-2"
    {
      BoardDependencies(x, y);
    }
  }

  lemma OneEdgeIsNoCycle(g: Graph, a: Id, b: Id, c: Id)
    requires OneEdge(g, a, b, c)
    ensures !HasCycle(g)
  {
    var depth := map[a := 0, b := 0, c := 1];
    assert Dep(g, c, b);
    assert HasStep(g, depth, c);
    DepthsExcludeCycles(g, depth);
  }

  lemma OneEdgeDownstream(g: Graph, a: Id, b: Id, c: Id)
    requires OneEdge(g, a, b, c)
    ensures |Downstream(g, a)| < |Downstream(g, b)|
  {
    assert Dep(g, c, b);
    DownstreamStep(g, b, c);
    assert c in Downstream(g, b);
    forall x
      ensures x !in Downstream(g, a)
    {
      DownstreamStep(g, a, x);
    }
    assert Downstream(g, a) == {};
  }

  lemma OneEdgeRoots(g: Graph, a: Id, b: Id, c: Id, x: Id)
    requires OneEdge(g, a, b, c) && Closed(g) && x in g
    ensures g[x] == [] <==> x == a || x == b
  {
    if g[x] != [] {
      assert Dep(g, x, g[x][0]);
    }
    assert x == c ==> Dep(g, c, b);
  }

  /** Both items without dependencies are ready, and only the second one has work waiting behind it. */
  lemma BoardReport(a: Analysis)
    requires Describes(BOARD, a)
    ensures forall x :: x in a.ready <==> x == "EX-1" || x == "EX-2"
    ensures CountOf(a.downstreamCount, "EX-1") < CountOf(a.downstreamCount, "EX-2")
  {
    var g := GraphOf(BOARD);
    BoardGraph();
    GraphClosed(BOARD);
    OneEdgeDownstream(g, "EX-1", "EX-2", "EX-3");
    forall x | x in g
      ensures g[x] == [] <==> x == "EX-1" || x == "EX-2"
    {
      OneEdgeRoots(g, "EX-1", "EX-2", "EX-3", x);
    }
  }

  /** `x` is more urgent than `y` by its priority, and more work waits for `y`; nothing else sets them apart. */
  predicate PriorityAgainstCount(m: map<Id, ItemInfo>, count: map<Id, nat>, x: Id, y: Id) {
    && x in m && y in m && m[x].assignee == m[y].assignee && m[x].rank == m[y].rank
    && PriorityRank(m[x].priority) < PriorityRank(m[y].priority)
    && CountOf(count, x) < CountOf(count, y)
  }

  /** Then the code puts `x` first, and the documented order `y`. */
  lemma PriorityWins(m: map<Id, ItemInfo>, count: map<Id, nat>, agent: string, x: Id, y: Id)
    requires PriorityAgainstCount(m, count, x, y)
    ensures Opposed(m, count, agent, x, y)
    ensures Before(m, count, agent, x, y) && !Before(m, count, agent, y, x)
    ensures Documented(m, count, agent, y, x) && !Documented(m, count, agent, x, y)
  {
  }

  lemma Priorities()
    ensures PriorityRank("high") == 1 && PriorityRank("low") == 3
  {
    assert Lower("high") == "high";
    assert Lower("low") == "low";
  }

  lemma BoardOrder(a: Analysis)
    requires Describes(BOARD, a)
    ensures PriorityAgainstCount(ItemMap(BOARD), a.downstreamCount, "EX-1", "EX-2")
  {
    BoardReport(a);
    BoardMap();
    Priorities();
  }

  lemma BoardEligible(agent: string)
    ensures Eligible(ItemMap(BOARD), ANYONE, agent, "EX-1") && Eligible(ItemMap(BOARD), ANYONE, agent, "EX-2")
  {
    BoardMap();
  }

  /** Every agent gets the same list of two. */
  lemma BoardLists(a: Analysis, agent: string)
    requires Describes(BOARD, a)
    ensures ListIds(Plan(BOARD, a, agent, ANYONE, 2)) == ["EX-1", "EX-2"]
  {
    BoardReport(a);
    BoardOrder(a);
    NobodyIsBusy(agent);
    BoardEligible(agent);
    TwoReady(BOARD, a, agent, ANYONE, "EX-1", "EX-2");
  }

  lemma TwoReady(items: seq<ItemInfo>, a: Analysis, agent: string, routing: Routing, x: Id, y: Id)
    requires NoDup(a.ready) && x != y && forall z :: z in a.ready <==> z == x || z == y
    requires CurrentOf(items, agent).None?
    requires Eligible(ItemMap(items), routing, agent, x) && Eligible(ItemMap(items), routing, agent, y)
    requires PriorityAgainstCount(ItemMap(items), a.downstreamCount, x, y)
    ensures ListIds(Plan(items, a, agent, routing, 2)) == [x, y]
  {
    var le := Urgency(ItemMap(items), a.downstreamCount, agent);
    var current, sorted, open, ready, waiting := PlanShape(items, a, agent, routing, 2);
    PriorityWins(ItemMap(items), a.downstreamCount, agent, x, y);
    TwoSorted(sorted, le, x, y);
    assert current == [];
    assert ready == sorted && waiting == [];
  }

  lemma NobodyIsBusy(agent: string)
    ensures CurrentOf(BOARD, agent) == None
  {
    CurrentIsOwn(BOARD, agent);
    if CurrentOf(BOARD, agent).Some? {
      var i :| i in BOARD && i.status == "in_progress";
      OnBoard(i);
    }
  }

  lemma TwoSorted(s: seq<Id>, le: (Id, Id) -> bool, x: Id, y: Id)
    requires NoDup(s) && SortedBy(s, le) && x != y && !le(y, x)
    requires forall z :: z in s <==> z == x || z == y
    ensures s == [x, y]
  {
    NoDupSize(s);
    assert Elements(s) == {x, y};
    assert s[0] in s && s[1] in s && s[0] != s[1];
    assert le(s[0], s[1]);
  }

  /** The commands themselves, on this board: two agents are told to do the same work, in an order that the
      documentation does not give. */
  method PlanBoard() returns (a: Analysis, entries: seq<Entry>)
    ensures Describes(BOARD, a) && entries == Plans(BOARD, a, ["m5", "dgx"], ANYONE, 2)
    ensures |entries| == 2 && ListIds(entries[0].items) == ["EX-1", "EX-2"] == ListIds(entries[1].items)
    ensures !FollowsDocumentation(ItemMap(BOARD), a.downstreamCount, "m5", ["EX-1", "EX-2"])
  {
    BoardGraph();
    BoardIds();
    OneEdgeIsNoCycle(GraphOf(BOARD), "EX-1", "EX-2", "EX-3");
    var r := ComputeCriticalPath(BOARD);
    a := r.value;
    entries := GenerateWorklist(BOARD, a, ["m5", "dgx"], ANYONE, 2);
    TwoPlans(BOARD, a, "m5", "dgx", ANYONE, 2);
    BoardLists(a, "m5");
    BoardLists(a, "dgx");
    BoardOrder(a);
    PriorityWins(ItemMap(BOARD), a.downstreamCount, "m5", "EX-1", "EX-2");
    PairFollows(ItemMap(BOARD), a.downstreamCount, "m5", "EX-1", "EX-2");
  }

  lemma TwoPlans(items: seq<ItemInfo>, a: Analysis, p: string, q: string, routing: Routing, limit: nat)
    ensures Plans(items, a, [p, q], routing, limit) ==
            [Entry(p, Plan(items, a, p, routing, limit)), Entry(q, Plan(items, a, q, routing, limit))]
  {
    assert [p, q][..1] == [p] && [p][..0] == [];
    assert Plans(items, a, [p], routing, limit) == [Entry(p, Plan(items, a, p, routing, limit))];
  }

  lemma PairFollows(m: map<Id, ItemInfo>, count: map<Id, nat>, agent: string, x: Id, y: Id)
    ensures FollowsDocumentation(m, count, agent, [x, y]) <==> Documented(m, count, agent, x, y)
  {
    assert [x, y][0] == x && [x, y][1] == y;
  }
}
