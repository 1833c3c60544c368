/** The scheduler on top of the store: what it reports about a board that a run of the store has built. */
module Roadmap {
  import opened Board
  import opened Columns
  import opened CriticalPath
  import opened Dependencies
  import opened DepGraph
  import opened Effects
  import opened History
  import opened Items
  import opened Seqs
  import opened Wrappers
  import Audit
  import Store = KanbanStore

  /** A missing priority or assignee reads as a dash. */
  function TextOrDash(c: Cell): string
    requires c.Text?
  {
    match c.text
    case Some(t) => t
    case None => "-"
  }

  function InfoOf(r: Row): ItemInfo {
    ItemInfo(IdOf(r), r[TITLE].text.value, r[ITEM_TYPE].text.value, StatusOf(r), TextOrDash(r[PRIORITY]),
             TextOrDash(r[ASSIGNEE]), ListOf(r, RELATED), ListOf(r, DEPENDS_ON), r[PRIORITY_RANK].number)
  }

  /** The rows that are not deleted, as the scheduler sees them. */
  function Extracted(rows: seq<Row>): seq<ItemInfo> {
    if rows == [] then [] else
      Extracted(rows[..|rows| - 1]) + if IsDeleted(rows[|rows| - 1]) then [] else [InfoOf(rows[|rows| - 1])]
  }

  function CellList(c: Cell): seq<string>
    requires c.List?
  {
    match c.list
    case Some(l) => l
    case None => []
  }

  /** The item in row `r` of a batch, read from its columns. */
  function InfoAt(batch: Batch, r: nat): (i: ItemInfo)
    requires ValidBatch(batch) && r < batch.rows
    ensures i == InfoOf(RowAt(batch, r))
  {
    ItemInfo(batch.columns[ID][r].text.value, batch.columns[TITLE][r].text.value,
             batch.columns[ITEM_TYPE][r].text.value, batch.columns[STATUS][r].text.value,
             TextOrDash(batch.columns[PRIORITY][r]), TextOrDash(batch.columns[ASSIGNEE][r]),
             CellList(batch.columns[RELATED][r]), CellList(batch.columns[DEPENDS_ON][r]),
             batch.columns[PRIORITY_RANK][r].number)
  }

  lemma ExtractedStep(before: seq<Row>, batch: Batch, r: nat)
    requires ValidBatch(batch) && r < batch.rows
    ensures Extracted(before + RowsOf(batch)[..r + 1]) ==
            Extracted(before + RowsOf(batch)[..r]) + if batch.columns[DELETED][r].flag then [] else [InfoAt(batch, r)]
  {
    var rows := RowsOf(batch);
    assert (before + rows[..r + 1])[..|before| + r] == before + rows[..r];
    assert rows[r] == RowAt(batch, r);
  }

  method ExtractBatch(batch: Batch, ghost before: seq<Row>, items0: seq<ItemInfo>) returns (items: seq<ItemInfo>)
    requires ValidBatch(batch) && items0 == Extracted(before)
    ensures items == Extracted(before + RowsOf(batch))
  {
    items := items0;
    ghost var rows := RowsOf(batch);
    assert before + rows[..0] == before;
    for r := 0 to batch.rows
      invariant items == Extracted(before + rows[..r])
    {
      ExtractedStep(before, batch, r);
      if !batch.columns[DELETED][r].flag {
        items := items + [InfoAt(batch, r)];
      }
    }
    assert rows[..batch.rows] == rows;
  }

  method ExtractItems(batches: seq<Batch>) returns (items: seq<ItemInfo>)
    requires ValidBatches(batches)
    ensures items == Extracted(AllRows(batches))
  {
    items := [];
    for b := 0 to |batches|
      invariant items == Extracted(AllRows(batches[..b]))
    {
      items := ExtractBatch(batches[b], AllRows(batches[..b]), items);
      assert batches[..b + 1][..b] == batches[..b];
    }
    assert batches[..|batches|] == batches;
  }

  /** The critical path of a board; with one live row per id a refusal always means a cycle. */
  method BoardCriticalPath(store: Store.KanbanStore) returns (r: Result<Analysis, seq<ItemInfo>>)
    requires store.Valid()
    ensures var items := Extracted(store.View().rows);
            && (r.Err? <==> HasCycle(GraphOf(items)) || !UniqueIds(Active(items)))
            && (UniqueLive(store.View().rows) ==> (r.Err? <==> HasCycle(GraphOf(items))))
            && (r.Err? ==> r.error == OnCycles(items))
            && (r.Ok? ==> Describes(items, r.value))
  {
    var items := ExtractItems(store.itemsBatches);
    if UniqueLive(store.View().rows) {
      ExtractedUnique(store.View().rows);
      ActiveUnique(items);
    }
    r := ComputeCriticalPath(items);
  }

  // ------------------------------------------------------------ what is extracted

  lemma {:induction false} ExtractedAre(rows: seq<Row>, i: ItemInfo)
    ensures i in Extracted(rows) <==> exists k :: 0 <= k < |rows| && !IsDeleted(rows[k]) && InfoOf(rows[k]) == i
  {
    if rows != [] {
      var before := rows[..|rows| - 1];
      ExtractedAre(before, i);
      if k :| 0 <= k < |rows| && !IsDeleted(rows[k]) && InfoOf(rows[k]) == i {
        assert k < |before| ==> before[k] == rows[k];
      }
      if k :| 0 <= k < |before| && !IsDeleted(before[k]) && InfoOf(before[k]) == i {
        assert rows[k] == before[k];
      }
    }
  }

  lemma {:induction false} ExtractedUnique(rows: seq<Row>)
    requires UniqueLive(rows)
    ensures UniqueIds(Extracted(rows))
  {
    if rows != [] {
      var before, last := rows[..|rows| - 1], rows[|rows| - 1];
      ExtractedUnique(before);
      var items := Extracted(before);
      if !IsDeleted(last) {
        forall j | 0 <= j < |items|
          ensures items[j].id != IdOf(last)
        {
          ExtractedAre(before, items[j]);
          var k :| 0 <= k < |before| && !IsDeleted(before[k]) && InfoOf(before[k]) == items[j];
          assert rows[k] == before[k];
        }
      }
    }
  }

  lemma ActiveUnique(items: seq<ItemInfo>)
    requires UniqueIds(items)
    ensures UniqueIds(Active(items))
  {
    var closed := ClosedIds(items);
    FilterUnique(items, (i: ItemInfo) => i.id !in closed);
  }

  lemma {:induction false} FilterUnique(items: seq<ItemInfo>, p: ItemInfo -> bool)
    requires UniqueIds(items)
    ensures UniqueIds(Filter(items, p))
  {
    if items != [] {
      var before, last := items[..|items| - 1], items[|items| - 1];
      FilterUnique(before, p);
      forall i | i in Filter(before, p)
        ensures i.id != last.id
      {
        var k :| 0 <= k < |before| && before[k] == i;
        assert items[k] == i;
      }
    }
  }

  /** A live item whose status is not done, complete or retired. */
  predicate IsOpen(s: State, x: Id) {
    Has(s, x) && !IsClosed(InfoOf(Get(s, x)))
  }

  lemma ExtractedIs(s: State, i: ItemInfo)
    requires UniqueLive(s.rows)
    ensures i in Extracted(s.rows) <==> Has(s, i.id) && InfoOf(Get(s, i.id)) == i
  {
    ExtractedAre(s.rows, i);
    if k :| 0 <= k < |s.rows| && !IsDeleted(s.rows[k]) && InfoOf(s.rows[k]) == i {
      FindFirst(s.rows, i.id);
      assert IsLive(s.rows[k], i.id);
      FindIs(s.rows, i.id, k);
    }
  }

  lemma ActiveIs(s: State, i: ItemInfo)
    requires UniqueLive(s.rows)
    ensures i in Active(Extracted(s.rows)) <==> IsOpen(s, i.id) && InfoOf(Get(s, i.id)) == i
  {
    ExtractedIs(s, i);
    if j :| j in Extracted(s.rows) && IsClosed(j) && j.id == i.id {
      ExtractedIs(s, j);
    }
  }

  /** The dependency relation, read off the store: both items open, and one in the other's dependency list. */
  lemma BoardDependencies(s: State, x: Id, y: Id)
    requires UniqueLive(s.rows)
    ensures Dep(GraphOf(Extracted(s.rows)), x, y) <==>
              IsOpen(s, x) && IsOpen(s, y) && y in ListOf(Get(s, x), DEPENDS_ON)
  {
    var items := Extracted(s.rows);
    GraphEdges(items, x, y);
    if IsOpen(s, x) {
      ActiveIs(s, InfoOf(Get(s, x)));
    }
    if IsOpen(s, y) {
      ActiveIs(s, InfoOf(Get(s, y)));
    }
    forall i | i in Active(items)
      ensures IsOpen(s, i.id) && InfoOf(Get(s, i.id)) == i
    {
      ActiveIs(s, i);
    }
  }

  /** On every board that a run without collision builds, the scheduler sees each id once. */
  lemma RunsScheduleUniqueItems(clock: Clock, ops: seq<Op>)
    requires NeverCollides(EMPTY, clock, ops)
    ensures UniqueIds(Extracted(After(EMPTY, clock, ops).rows))
  {
    Audit.LogReplays(clock, ops);
    ExtractedUnique(After(EMPTY, clock, ops).rows);
  }
}
