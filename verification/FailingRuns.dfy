/** Runs on which the code does not do what its documentation says. */
module FailingRuns {
  import opened Board
  import opened Columns
  import opened Dependencies
  import opened DepGraph
  import opened Effects
  import opened History
  import opened IdAlloc
  import opened Items
  import opened ItemTypes
  import opened Numbering
  import opened Requeues
  import opened Roadmap
  import opened Wrappers
  import Closure

  lemma AfterOne(s: State, clock: Clock, a: Op)
    ensures After(s, clock, [a]) == Step(s, clock, a)
  {
    assert [] + [a] == [a];
    AfterSnoc(s, clock, [], a);
  }

  lemma AfterTwo(s: State, clock: Clock, a: Op, b: Op)
    ensures After(s, clock, [a, b]) == Step(Step(s, clock, a), clock, b)
  {
    AfterOne(s, clock, a);
    AfterSnoc(s, clock, [a], b);
    assert [a] + [b] == [a, b];
  }

  lemma AfterThree(s: State, clock: Clock, a: Op, b: Op, c: Op)
    ensures After(s, clock, [a, b, c]) == Step(Step(Step(s, clock, a), clock, b), clock, c)
  {
    AfterTwo(s, clock, a, b);
    AfterSnoc(s, clock, [a, b], c);
    assert [a, b] + [c] == [a, b, c];
  }

  /** The first item of a board. */
  lemma FirstItem(clock: Clock, id: Id, input: Input)
    ensures var s := Step(EMPTY, clock, CreateWithId(id, input));
            s.rows == [NewRow(id, input, clock(0))] && Has(s, id) && Get(s, id) == NewRow(id, input, clock(0))
  {
    AddItemGets(EMPTY, clock, id, input, id);
    assert Board.AddItem(EMPTY, clock, id, input).rows == [] + [NewRow(id, input, clock(0))];
  }

  lemma OneRowIsUnique(r: Row)
    ensures UniqueLive([r])
  {
  }

  // ------------------------------------------------------------ ratification

  /** On every board with one live row per id, deleting an item makes every ratification fail, of whatever phase. */
  lemma DeletionBlocks(s: State, clock: Clock, id: Id, phase: string)
    requires UniqueLive(s.rows) && Has(s, id)
    ensures !Accepted(Step(s, clock, Remove(id)), RatifyOf(phase))
  {
    var s', k := Delete(s, id), Find(s.rows, id);
    DeleteUnique(s, id);
    assert IdOf(s'.rows[k]) == id;
    assert !FoundAt(s', k);
  }

  /** The shortest such run. */
  lemma RatifyFails(clock: Clock, id: Id, input: Input, phase: string)
    ensures !Accepted(After(EMPTY, clock, [CreateWithId(id, input), Remove(id)]), RatifyOf(phase))
  {
    AfterTwo(EMPTY, clock, CreateWithId(id, input), Remove(id));
    FirstItem(clock, id, input);
    OneRowIsUnique(NewRow(id, input, clock(0)));
    DeletionBlocks(Step(EMPTY, clock, CreateWithId(id, input)), clock, id, phase);
  }

  // ---------------------------------------------------------- closure fields

  /** A forced move to an open status that names what closed the item. */
  lemma NamingMove(s: State, clock: Clock, op: Op)
    requires op.MoveTo? && op.to == "backlog" && op.force && op.resolution.None? && op.closedBy.Some? && Has(s, op.id)
    ensures !Closure.Cleared(Step(s, clock, op), op.id, CLOSED_BY)
  {
    assert Accepted(s, op);
    Closure.MoveClearsUnlessNamed(s, clock, op);
  }

  /** An open item that says what closed it. */
  lemma ClosedByStays(clock: Clock, id: Id, input: Input, closer: string)
    ensures var move := MoveTo(id, "backlog", None, true, None, Some(closer), false);
            !Closure.Cleared(After(EMPTY, clock, [CreateWithId(id, input), move]), id, CLOSED_BY)
  {
    var move := MoveTo(id, "backlog", None, true, None, Some(closer), false);
    AfterTwo(EMPTY, clock, CreateWithId(id, input), move);
    FirstItem(clock, id, input);
    NamingMove(Step(EMPTY, clock, CreateWithId(id, input)), clock, move);
  }

  // --------------------------------------------------------------- requeues

  /** The store after the creation of one item. */
  lemma NewItem(clock: Clock, x: Id, input: Input)
    ensures var s := After(EMPTY, clock, [CreateWithId(x, input)]); Has(s, x) && AttemptsOf(Get(s, x)) == 0
  {
    AfterOne(EMPTY, clock, CreateWithId(x, input));
    FirstItem(clock, x, input);
  }

  lemma WrappedNeverTrips(n: nat, cap: int)
    requires I32_MAX < n <= 2 * I32_MAX + 1
    ensures !Trips(n, cap)
  {
  }

  lemma RoundsWrap(s: State, clock: Clock, claim: Op, requeue: Op, x: Id, n: nat)
    requires Has(s, x) && AttemptsOf(Get(s, x)) == 0
    requires IsRound(claim, requeue, x) && I32_MAX < n <= 2 * I32_MAX + 1
    ensures Count(s, clock, Rounds(claim, requeue, n), x) == n
    ensures LeftIn(After(s, clock, Rounds(claim, requeue, n)), x, "backlog")
  {
    WrappedNeverTrips(n, requeue.cap);
    RoundsTrip(s, clock, claim, requeue, x, n);
  }

  lemma RoundsAfter(s: State, clock: Clock, ops: seq<Op>, claim: Op, requeue: Op, x: Id, n: nat)
    requires Has(After(s, clock, ops), x) && AttemptsOf(Get(After(s, clock, ops), x)) == 0
    requires IsRound(claim, requeue, x) && I32_MAX < n <= 2 * I32_MAX + 1
    ensures Count(After(s, clock, ops), clock, Rounds(claim, requeue, n), x) == n
    ensures LeftIn(After(s, clock, ops + Rounds(claim, requeue, n)), x, "backlog")
  {
    RoundsWrap(After(s, clock, ops), clock, claim, requeue, x, n);
    AfterConcat(s, clock, ops, Rounds(claim, requeue, n));
  }

  /** After 2^31 rounds of taking a new item up and requeueing it, and up to 2^32 - 1, it is back in backlog, whatever the
      cap. */
  lemma BreakerFails(clock: Clock, x: Id, input: Input, claim: Op, requeue: Op, n: nat)
    requires IsRound(claim, requeue, x) && I32_MAX < n <= 2 * I32_MAX + 1
    ensures Count(After(EMPTY, clock, [CreateWithId(x, input)]), clock, Rounds(claim, requeue, n), x) == n
    ensures LeftIn(After(EMPTY, clock, [CreateWithId(x, input)] + Rounds(claim, requeue, n)), x, "backlog")
  {
    NewItem(clock, x, input);
    RoundsAfter(EMPTY, clock, [CreateWithId(x, input)], claim, requeue, x, n);
  }

  // -------------------------------------------------------------- scheduling

  /** The scheduler refuses the board as if there were a cycle, and there is none. */
  ghost predicate RefusedWithoutCycle(s: State) {
    var items := Extracted(s.rows);
    !UniqueIds(Active(items)) && !HasCycle(GraphOf(items))
  }

  /** Open, and independent of everything. */
  predicate IsOpenLeaf(i: ItemInfo) {
    !IsClosed(i) && i.dependsOn == []
  }

  predicate OnlyLeaves(items: seq<ItemInfo>) {
    forall k :: 0 <= k < |items| ==> IsOpenLeaf(items[k])
  }

  lemma NoEdgesNoCycle(g: Graph)
    requires forall x, y :: !Dep(g, x, y)
    ensures !HasCycle(g)
  {
    DepthsExcludeCycles(g, map x | x in g :: 0);
  }

  lemma LeavesHaveNoEdges(items: seq<ItemInfo>, x: Id, y: Id)
    requires OnlyLeaves(items) && Active(items) == items
    ensures !Dep(GraphOf(items), x, y)
  {
    GraphEdges(items, x, y);
  }

  lemma LeavesAreActive(items: seq<ItemInfo>)
    requires OnlyLeaves(items)
    ensures Active(items) == items
  {
    forall i | i in items
      ensures !IsClosed(i)
    {
      assert IsOpenLeaf(i);
    }
    AllActive(items);
  }

  /** Two open items with one id, and no dependencies at all. */
  lemma RepeatedIdNoCycle(items: seq<ItemInfo>, i: nat, j: nat)
    requires OnlyLeaves(items) && i < j < |items| && items[i].id == items[j].id
    ensures !UniqueIds(Active(items)) && !HasCycle(GraphOf(items))
  {
    LeavesAreActive(items);
    forall x, y
      ensures !Dep(GraphOf(items), x, y)
    {
      LeavesHaveNoEdges(items, x, y);
    }
    NoEdgesNoCycle(GraphOf(items));
  }

  lemma RepeatedLeaf(items: seq<ItemInfo>, i: ItemInfo, j: ItemInfo)
    requires OnlyLeaves(items) && IsOpenLeaf(i) && IsOpenLeaf(j) && i.id == j.id
    ensures var all := items + [i] + [j]; !UniqueIds(Active(all)) && !HasCycle(GraphOf(all))
  {
    RepeatedIdNoCycle(items + [i] + [j], |items|, |items| + 1);
  }

  lemma ExtractedSnoc(rows: seq<Row>, r: Row)
    requires !IsDeleted(r)
    ensures Extracted(rows + [r]) == Extracted(rows) + [InfoOf(r)]
  {
    assert (rows + [r])[..|rows|] == rows;
  }

  lemma NewRowIsLeaf(id: Id, input: Input, now: int)
    requires input.dependsOn == []
    ensures var r := NewRow(id, input, now); !IsDeleted(r) && InfoOf(r).id == id && IsOpenLeaf(InfoOf(r))
  {
  }

  /** One more item without dependencies. */
  lemma LeafAdded(rows: seq<Row>, id: Id, input: Input, now: int) returns (i: ItemInfo)
    requires input.dependsOn == []
    ensures IsOpenLeaf(i) && i.id == id && Extracted(rows + [NewRow(id, input, now)]) == Extracted(rows) + [i]
  {
    NewRowIsLeaf(id, input, now);
    ExtractedSnoc(rows, NewRow(id, input, now));
    i := InfoOf(NewRow(id, input, now));
  }

  lemma CreateAgain(s: State, clock: Clock, input: Input) returns (i: ItemInfo)
    requires MaxNumber(s.rows, Prefixes()) >= U32_MAX && input.dependsOn == []
    ensures MaxNumber(Step(s, clock, Create(input)).rows, Prefixes()) >= U32_MAX
    ensures Extracted(Step(s, clock, Create(input)).rows) == Extracted(s.rows) + [i]
    ensures IsOpenLeaf(i) && i.id == IdText(input.itemType, 0)
  {
    CreateAppends(s, clock, input);
    ExhaustedCreate(s, clock, input);
    i := LeafAdded(s.rows, NewId(s, input), input, clock(s.ticks));
  }

  /** With the counter exhausted, two more items of one type are enough. */
  lemma TwoMore(s: State, clock: Clock, input: Input)
    requires MaxNumber(s.rows, Prefixes()) >= U32_MAX && OnlyLeaves(Extracted(s.rows)) && input.dependsOn == []
    ensures RefusedWithoutCycle(Step(Step(s, clock, Create(input)), clock, Create(input)))
  {
    var i := CreateAgain(s, clock, input);
    var j := CreateAgain(Step(s, clock, Create(input)), clock, input);
    RepeatedLeaf(Extracted(s.rows), i, j);
  }

  lemma OneLeaf(rows: seq<Row>, id: Id, input: Input, now: int)
    requires rows == [NewRow(id, input, now)] && input.dependsOn == []
    ensures OnlyLeaves(Extracted(rows))
  {
    var i := LeafAdded([], id, input, now);
    assert rows == [] + [NewRow(id, input, now)];
    assert Extracted(rows) == [i];
  }

  lemma FirstIsLeaf(clock: Clock, id: Id, input: Input)
    requires input.dependsOn == []
    ensures OnlyLeaves(Extracted(Step(EMPTY, clock, CreateWithId(id, input)).rows))
  {
    FirstItem(clock, id, input);
    OneLeaf(Step(EMPTY, clock, CreateWithId(id, input)).rows, id, input, clock(0));
  }

  /** A run that exhausts the counter and then creates two items of one type: the scheduler reports a cycle. */
  lemma CycleReportedWithoutCycle(clock: Clock, input: Input)
    requires input.dependsOn == []
    ensures var first := CreateWithId(IdText(Expedition, U32_MAX), input);
            RefusedWithoutCycle(After(EMPTY, clock, [first, Create(input), Create(input)]))
  {
    var first := CreateWithId(IdText(Expedition, U32_MAX), input);
    AfterThree(EMPTY, clock, first, Create(input), Create(input));
    AfterOne(EMPTY, clock, first);
    ExhaustedIsReachable(clock, input);
    FirstIsLeaf(clock, IdText(Expedition, U32_MAX), input);
    TwoMore(Step(EMPTY, clock, first), clock, input);
  }
}
