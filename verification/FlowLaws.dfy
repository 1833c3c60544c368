/** Board history in terms of log rows, cells and literal types. */
module FlowLaws {
  import opened Board
  import opened Chronology
  import opened Columns
  import opened Effects
  import opened Flow
  import opened History
  import opened SchedulerLaws
  import opened Seqs
  import opened Sorting
  import opened Wrappers

  /** A transition says what its log row says. */
  lemma TransitionSays(log: seq<Run>, k: nat)
    requires k < |log|
    ensures var t, r := TransitionsOf(log)[k], log[k];
            t.itemId == r.itemId && t.from == r.from && t.to == r.to && t.ts == r.timestamp && t.forced == r.forced
  {
  }

  /** The sorted transitions are in the order of time. */
  lemma InOrderOfTime(log: seq<Run>, i: nat, j: nat)
    requires i < j < |Sorted(log)|
    ensures Sorted(log)[i].ts <= Sorted(log)[j].ts
    ensures multiset(Sorted(log)) == multiset(TransitionsOf(log))
  {
    StableSortSorts(TransitionsOf(log), NotLater);
    assert NotLater(Sorted(log)[i], Sorted(log)[j]);
  }

  /** Transitions of the same time stay in the order of the log. */
  lemma SameTimeInLogOrder(log: seq<Run>, ts: int)
    ensures Filter(Sorted(log), (t: Transition) => t.ts == ts) == Filter(TransitionsOf(log), (t: Transition) => t.ts == ts)
  {
    StableSortKeeps(TransitionsOf(log), NotLater, (t: Transition) => t.ts == ts);
  }

  // ------------------------------------------------------------- what is counted

  /** The view of a row: its cells, with the empty text for a missing assignee. */
  predicate IsFlowView(i: FlowItem, r: Row) {
    && r[ID].text == Some(i.id) && r[ITEM_TYPE].text == Some(i.itemType) && r[BOARD].text == Some(i.board)
    && r[STATUS].text == Some(i.status)
    && i.assignee == (match r[ASSIGNEE].text case Some(p) => p case None => "")
  }

  lemma FlowViewIs(i: FlowItem, r: Row)
    ensures FlowItemOf(r) == i <==> IsFlowView(i, r)
  {
  }

  /** An item is seen exactly if it is the view of a live row. */
  lemma SeenExactlyIf(s: State, i: FlowItem)
    requires UniqueLive(s.rows)
    ensures i in LiveItems(s.rows) <==> Has(s, i.id) && IsFlowView(i, Get(s, i.id))
  {
    LiveItemIsFound(s, i);
    if Has(s, i.id) {
      FlowViewIs(i, Get(s, i.id));
    }
  }

  /** The series counts the chores and expeditions of the board, however these types are capitalised. */
  lemma ScopeIs(items: seq<FlowItem>, board: string, id: Id)
    ensures id in ScopeOf(items, board) <==>
            exists k :: 0 <= k < |items| && items[k].id == id && items[k].board == board &&
                        (ReadsAs(items[k].itemType, "chore") || ReadsAs(items[k].itemType, "expedition"))
  {
    forall k | 0 <= k < |items|
      ensures CombinedSeriesType(items[k].itemType) <==>
              ReadsAs(items[k].itemType, "chore") || ReadsAs(items[k].itemType, "expedition")
    {
      LowerIs(items[k].itemType, "chore");
      LowerIs(items[k].itemType, "expedition");
    }
  }

  /** Transition number `k` is the item's last one up to a time. */
  predicate IsLatest(trans: seq<Transition>, id: Id, at: int, k: nat) {
    && k < |trans| && trans[k].itemId == id && trans[k].ts <= at
    && forall j :: k < j < |trans| && trans[j].itemId == id ==> trans[j].ts > at
  }

  lemma {:induction false} LatestIs(trans: seq<Transition>, id: Id, at: int, k: nat)
    requires IsLatest(trans, id, at, k)
    ensures StatusAt(trans, id, at) == Some(trans[k].to)
  {
    var n, before := |trans| - 1, trans[..|trans| - 1];
    OwnSnoc(before, trans[n], id, at);
    assert trans == before + [trans[n]];
    if k < n {
      assert IsLatest(before, id, at, k);
      LatestIs(before, id, at, k);
    }
  }

  lemma OwnSnoc(before: seq<Transition>, t: Transition, id: Id, at: int)
    ensures StatusAt(before + [t], id, at) ==
            if t.itemId == id && t.ts <= at then Some(t.to) else StatusAt(before, id, at)
  {
    var own := Own(before, id);
    assert (before + [t])[..|before|] == before;
    assert (own + [t])[..|own|] == own;
    assert own + [] == own;
  }

  /** The status that a bucket counts an item under is the target of its last transition by then. */
  lemma {:induction false} CountedStatus(trans: seq<Transition>, id: Id, at: int) returns (k: nat)
    requires StatusAt(trans, id, at).Some?
    ensures IsLatest(trans, id, at, k) && StatusAt(trans, id, at) == Some(trans[k].to)
  {
    var n, before := |trans| - 1, trans[..|trans| - 1];
    OwnSnoc(before, trans[n], id, at);
    assert trans == before + [trans[n]];
    if trans[n].itemId == id && trans[n].ts <= at {
      k := n;
    } else {
      k := CountedStatus(before, id, at);
      assert forall j :: k < j < |trans| && trans[j].itemId == id ==> j == n || trans[j] == before[j];
    }
  }

  /** Buckets start at the earliest positive time and are `bucketMs` apart, at least one millisecond. */
  lemma BucketTimes(out: seq<Bucket>, trans: seq<Transition>, ids: set<Id>, bucketMs: int, k: nat)
    requires trans != [] && Series(out, Start(trans), End(trans), StepOf(bucketMs), ids, trans) && k < |out|
    ensures out[k].at == Start(trans) + k * (if bucketMs < 1 then 1 else bucketMs)
  {
    BucketTimeIs(Start(trans), StepOf(bucketMs), k);
    assert IsBucket(out[k], BucketTime(Start(trans), StepOf(bucketMs), k), ids, trans);
  }

  // ---------------------------------------------------------------------- ages

  /** After a run, an item that is not terminal is listed with the time since its last log row, never less than nothing. */
  lemma AgesAre(clock: Clock, ops: seq<Op>, terminal: set<string>, now: int, a: AgingRow)
    requires NeverBack(clock) && NeverCollides(EMPTY, clock, ops)
    ensures var s := After(EMPTY, clock, ops);
            a in AgingOf(LiveItems(s.rows), Sorted(s.log), terminal, now) ==>
              && Has(s, a.id) && Get(s, a.id)[STATUS].text == Some(a.status) && a.status !in terminal
              && LastRun(s.log, a.id).Some?
              && var since := LastRun(s.log, a.id).value.timestamp;
                 a.inStatusMs >= 0 && (since <= now ==> a.inStatusMs == now - since) && (since > now ==> a.inStatusMs == 0)
  {
    AgingSkipsNothing(clock, ops, terminal, now, a);
  }

  lemma OldestFirst(out: seq<AgingRow>, i: nat, j: nat)
    requires SortedBy(out, NotYounger) && i < j < |out|
    ensures out[i].inStatusMs >= out[j].inStatusMs
  {
    assert NotYounger(out[i], out[j]);
  }
}
