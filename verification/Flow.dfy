/** Board history rebuilt from the runs log: status counts per time bucket, and the age of open work. */
module Flow {
  import opened Audit
  import opened Board
  import opened Chronology
  import opened Columns
  import opened Effects
  import opened History
  import opened Sorting
  import opened Wrappers
  import Items

  datatype Transition = Transition(itemId: Id, from: Option<string>, to: string, ts: int, forced: bool)

  datatype FlowItem = FlowItem(id: Id, itemType: string, board: string, status: string, assignee: string)

  // ------------------------------------------------------------ transitions

  function TransitionOf(r: Run): Transition {
    Transition(r.itemId, r.from, r.to, r.timestamp, r.forced)
  }

  function TransitionsOf(log: seq<Run>): (out: seq<Transition>)
    ensures |out| == |log| && forall k :: 0 <= k < |log| ==> out[k] == TransitionOf(log[k])
  {
    seq(|log|, k requires 0 <= k < |log| => TransitionOf(log[k]))
  }

  predicate NotLater(a: Transition, b: Transition) {
    a.ts <= b.ts
  }

  /** All transitions by time; those of the same time stay in the order of the log. */
  function Sorted(log: seq<Run>): seq<Transition> {
    StableSort(TransitionsOf(log), NotLater)
  }

  method Transitions(log: seq<Run>) returns (out: seq<Transition>)
    ensures out == Sorted(log)
    ensures SortedBy(out, NotLater) && multiset(out) == multiset(TransitionsOf(log))
  {
    out := [];
    for i := 0 to |log|
      invariant out == TransitionsOf(log[..i])
    {
      out := out + [TransitionOf(log[i])];
    }
    assert log[..|log|] == log;
    StableSortSorts(out, NotLater);
    out := StableSort(out, NotLater);
  }

  /** The log of every run is by time already, if the clock never goes back. */
  lemma SortedIsLog(clock: Clock, ops: seq<Op>)
    requires NeverBack(clock)
    ensures var log := After(EMPTY, clock, ops).log; Sorted(log) == TransitionsOf(log)
  {
    LogInOrder(clock, ops);
    SortedStays(TransitionsOf(After(EMPTY, clock, ops).log), NotLater);
  }

  // -------------------------------------------------------------- live items

  function TextOf(c: Cell): string
    requires c.Text?
  {
    match c.text
    case Some(t) => t
    case None => ""
  }

  function FlowItemOf(r: Row): FlowItem {
    FlowItem(IdOf(r), TextOf(r[ITEM_TYPE]), TextOf(r[BOARD]), StatusOf(r), TextOf(r[ASSIGNEE]))
  }

  /** The items that are not deleted, in storage order. */
  function LiveItems(rows: seq<Row>): seq<FlowItem> {
    if rows == [] then [] else
      LiveItems(rows[..|rows| - 1]) + if IsDeleted(rows[|rows| - 1]) then [] else [FlowItemOf(rows[|rows| - 1])]
  }

  /** The item in row `r` of a batch, read from its columns. */
  function FlowItemAt(batch: Batch, r: nat): (i: FlowItem)
    requires ValidBatch(batch) && r < batch.rows
    ensures i == FlowItemOf(RowAt(batch, r))
  {
    FlowItem(batch.columns[ID][r].text.value, TextOf(batch.columns[ITEM_TYPE][r]), TextOf(batch.columns[BOARD][r]),
             batch.columns[STATUS][r].text.value, TextOf(batch.columns[ASSIGNEE][r]))
  }

  lemma LiveItemsStep(before: seq<Row>, batch: Batch, r: nat)
    requires ValidBatch(batch) && r < batch.rows
    ensures LiveItems(before + RowsOf(batch)[..r + 1]) ==
            LiveItems(before + RowsOf(batch)[..r]) + if batch.columns[DELETED][r].flag then [] else [FlowItemAt(batch, r)]
  {
    var rows := RowsOf(batch);
    assert (before + rows[..r + 1])[..|before| + r] == before + rows[..r];
    assert rows[r] == RowAt(batch, r);
  }

  method FlowItemsOfBatch(batch: Batch, ghost before: seq<Row>, out0: seq<FlowItem>) returns (out: seq<FlowItem>)
    requires ValidBatch(batch) && out0 == LiveItems(before)
    ensures out == LiveItems(before + RowsOf(batch))
  {
    out := out0;
    ghost var rows := RowsOf(batch);
    assert before + rows[..0] == before;
    for r := 0 to batch.rows
      invariant out == LiveItems(before + rows[..r])
    {
      LiveItemsStep(before, batch, r);
      if !batch.columns[DELETED][r].flag {
        out := out + [FlowItemAt(batch, r)];
      }
    }
    assert rows[..batch.rows] == rows;
  }

  method FlowItems(batches: seq<Batch>) returns (out: seq<FlowItem>)
    requires ValidBatches(batches)
    ensures out == LiveItems(AllRows(batches))
  {
    out := [];
    for b := 0 to |batches|
      invariant out == LiveItems(AllRows(batches[..b]))
    {
      out := FlowItemsOfBatch(batches[b], AllRows(batches[..b]), out);
      assert batches[..b + 1][..b] == batches[..b];
    }
    assert batches[..|batches|] == batches;
  }

  /** The live items, seen as a list, are the items that the store finds. */
  lemma {:induction false} LiveItemsAre(rows: seq<Row>, i: FlowItem)
    ensures i in LiveItems(rows) <==> exists k :: 0 <= k < |rows| && !IsDeleted(rows[k]) && FlowItemOf(rows[k]) == i
  {
    if rows != [] {
      var before := rows[..|rows| - 1];
      LiveItemsAre(before, i);
      if k :| 0 <= k < |rows| && !IsDeleted(rows[k]) && FlowItemOf(rows[k]) == i {
        assert k < |before| ==> before[k] == rows[k];
      }
      if k :| 0 <= k < |before| && !IsDeleted(before[k]) && FlowItemOf(before[k]) == i {
        assert rows[k] == before[k];
      }
    }
  }

  lemma LiveItemIsFound(s: State, i: FlowItem)
    requires UniqueLive(s.rows)
    ensures i in LiveItems(s.rows) <==> Has(s, i.id) && FlowItemOf(Get(s, i.id)) == i
  {
    LiveItemsAre(s.rows, i);
    if k :| 0 <= k < |s.rows| && !IsDeleted(s.rows[k]) && FlowItemOf(s.rows[k]) == i {
      FindFirst(s.rows, i.id);
      assert IsLive(s.rows[k], i.id);
      FindIs(s.rows, i.id, k);
    }
  }

  // ------------------------------------------------------- history of an item

  /** The transitions of one item. */
  function Own(trans: seq<Transition>, id: Id): seq<Transition> {
    if trans == [] then [] else
      Own(trans[..|trans| - 1], id) + if trans[|trans| - 1].itemId == id then [trans[|trans| - 1]] else []
  }

  /** The last transition that is not later than `at`. */
  function LastBy(own: seq<Transition>, at: int): Option<Transition> {
    if own == [] then None
    else if own[|own| - 1].ts <= at then Some(own[|own| - 1])
    else LastBy(own[..|own| - 1], at)
  }

  /** The status of an item at a time. */
  function StatusAt(trans: seq<Transition>, id: Id, at: int): Option<string> {
    match LastBy(Own(trans, id), at)
    case Some(t) => Some(t.to)
    case None => None
  }

  lemma {:induction false} OwnAre(trans: seq<Transition>, id: Id, t: Transition)
    ensures t in Own(trans, id) <==> t in trans && t.itemId == id
  {
    if trans != [] {
      OwnAre(trans[..|trans| - 1], id, t);
      assert trans == trans[..|trans| - 1] + [trans[|trans| - 1]];
    }
  }

  lemma {:induction false} LastByExists(own: seq<Transition>, at: int)
    ensures LastBy(own, at).Some? <==> exists t :: t in own && t.ts <= at
  {
    if own != [] {
      LastByExists(own[..|own| - 1], at);
      assert own == own[..|own| - 1] + [own[|own| - 1]];
    }
  }

  predicate BegunBy(trans: seq<Transition>, id: Id, at: int) {
    exists k :: 0 <= k < |trans| && trans[k].itemId == id && trans[k].ts <= at
  }

  /** An item has a status at a time if and only if one of its transitions is not later. */
  lemma StatusFromFirstTransition(trans: seq<Transition>, id: Id, at: int)
    ensures StatusAt(trans, id, at).Some? <==> BegunBy(trans, id, at)
  {
    var own := Own(trans, id);
    LastByExists(own, at);
    if LastBy(own, at).Some? {
      var t :| t in own && t.ts <= at;
      OwnAre(trans, id, t);
    }
    if k :| 0 <= k < |trans| && trans[k].itemId == id && trans[k].ts <= at {
      OwnAre(trans, id, trans[k]);
    }
  }

  // ------------------------------------------------------------ status series

  /** Chores and expeditions form one series. */
  predicate CombinedSeriesType(itemType: string) {
    Items.Lower(itemType) == "chore" || Items.Lower(itemType) == "expedition"
  }

  predicate InScope(i: FlowItem, board: string) {
    i.board == board && CombinedSeriesType(i.itemType)
  }

  ghost function ScopeOf(items: seq<FlowItem>, board: string): set<Id> {
    set k | 0 <= k < |items| && InScope(items[k], board) :: items[k].id
  }

  datatype Bucket = Bucket(at: int, counts: map<string, nat>)

  /** The items with this status at this time. */
  ghost function WithStatus(ids: set<Id>, trans: seq<Transition>, at: int, status: string): set<Id> {
    set id | id in ids && StatusAt(trans, id, at) == Some(status)
  }

  ghost predicate CountsOne(counts: map<string, nat>, ids: set<Id>, trans: seq<Transition>, at: int, status: string) {
    var n := |WithStatus(ids, trans, at, status)|;
    (status in counts <==> n > 0) && (status in counts ==> counts[status] == n)
  }

  /** For each status, how many of the items have it at this time. */
  ghost predicate Counts(counts: map<string, nat>, ids: set<Id>, trans: seq<Transition>, at: int) {
    forall status {:trigger CountsOne(counts, ids, trans, at, status)} :: CountsOne(counts, ids, trans, at, status)
  }

  method ScopeIds(items: seq<FlowItem>, board: string) returns (ids: set<Id>)
    ensures ids == ScopeOf(items, board)
  {
    ids := {};
    for i := 0 to |items|
      invariant ids == ScopeOf(items[..i], board)
    {
      ScopeStep(items, i, board);
      if InScope(items[i], board) {
        ids := ids + {items[i].id};
      }
    }
    assert items[..|items|] == items;
  }

  lemma ScopeStep(items: seq<FlowItem>, i: nat, board: string)
    requires i < |items|
    ensures ScopeOf(items[..i + 1], board) ==
            ScopeOf(items[..i], board) + if InScope(items[i], board) then {items[i].id} else {}
  {
    var a, b := ScopeOf(items[..i + 1], board), ScopeOf(items[..i], board);
    forall x | x in b
      ensures x in a
    {
      var k :| 0 <= k < i && InScope(items[..i][k], board) && items[..i][k].id == x;
      assert items[..i + 1][k] == items[..i][k];
    }
    forall x | x in a
      ensures x in b || (InScope(items[i], board) && x == items[i].id)
    {
      var k :| 0 <= k < i + 1 && InScope(items[..i + 1][k], board) && items[..i + 1][k].id == x;
      assert k < i ==> items[..i][k] == items[..i + 1][k];
    }
    assert items[..i + 1][i] == items[i];
  }

  ghost predicate IsPerItem(perItem: map<Id, seq<Transition>>, trans: seq<Transition>, ids: set<Id>) {
    && (forall id {:trigger id in perItem} :: id in perItem <==> id in ids && Own(trans, id) != [])
    && forall id {:trigger perItem[id]} :: id in perItem ==> perItem[id] == Own(trans, id)
  }

  method PerItem(trans: seq<Transition>, ids: set<Id>) returns (perItem: map<Id, seq<Transition>>)
    ensures IsPerItem(perItem, trans, ids)
  {
    perItem := map[];
    for i := 0 to |trans|
      invariant IsPerItem(perItem, trans[..i], ids)
    {
      var t := trans[i];
      assert trans[..i + 1][..i] == trans[..i];
      if t.itemId in ids {
        perItem := perItem[t.itemId := (if t.itemId in perItem then perItem[t.itemId] else []) + [t]];
      }
    }
    assert trans[..|trans|] == trans;
  }

  lemma CountedOneMore(done: set<Id>, id: Id, trans: seq<Transition>, at: int, status: string)
    requires id !in done
    ensures |WithStatus(done + {id}, trans, at, status)| ==
            |WithStatus(done, trans, at, status)| + if StatusAt(trans, id, at) == Some(status) then 1 else 0
  {
    var a, b := WithStatus(done + {id}, trans, at, status), WithStatus(done, trans, at, status);
    assert a == if StatusAt(trans, id, at) == Some(status) then b + {id} else b;
  }

  /** One bucket: every item adds one to the status it has at this time. */
  method CountAt(perItem: map<Id, seq<Transition>>, at: int, ghost trans: seq<Transition>, ghost ids: set<Id>)
    returns (counts: map<string, nat>)
    requires IsPerItem(perItem, trans, ids)
    ensures Counts(counts, ids, trans, at)
  {
    counts := map[];
    var todo := perItem.Keys;
    ghost var done := {};
    NoneCounted(trans, at);
    while todo != {}
      invariant todo + done == perItem.Keys && todo !! done
      invariant Counts(counts, done, trans, at)
    {
      var id :| id in todo;
      counts := CountItem(counts, perItem[id], id, at, trans, done);
      todo, done := todo - {id}, done + {id};
    }
    AbsentDoNotCount(counts, done, ids, trans, at);
  }

  method CountItem(counts0: map<string, nat>, own: seq<Transition>, id: Id, at: int, ghost trans: seq<Transition>,
                   ghost done: set<Id>) returns (counts: map<string, nat>)
    requires Counts(counts0, done, trans, at) && id !in done && own == Own(trans, id)
    ensures Counts(counts, done + {id}, trans, at)
  {
    counts := counts0;
    var last := LastBy(own, at);
    if last.Some? {
      var to := last.value.to;
      counts := counts[to := (if to in counts then counts[to] else 0) + 1];
    }
    forall status
      ensures CountsOne(counts, done + {id}, trans, at, status)
    {
      assert CountsOne(counts0, done, trans, at, status);
      CountedOneMore(done, id, trans, at, status);
    }
  }

  lemma NoneCounted(trans: seq<Transition>, at: int)
    ensures Counts(map[], {}, trans, at)
  {
    forall status
      ensures CountsOne(map[], {}, trans, at, status)
    {
      assert WithStatus({}, trans, at, status) == {};
    }
  }

  lemma AbsentDoNotCount(counts: map<string, nat>, done: set<Id>, ids: set<Id>, trans: seq<Transition>, at: int)
    requires Counts(counts, done, trans, at)
    requires forall id :: id in done <==> id in ids && Own(trans, id) != []
    ensures Counts(counts, ids, trans, at)
  {
    forall status
      ensures CountsOne(counts, ids, trans, at, status)
    {
      assert CountsOne(counts, done, trans, at, status);
      assert WithStatus(done, trans, at, status) == WithStatus(ids, trans, at, status);
    }
  }

  /** The earliest positive time, 0 if there is none. */
  function Start(trans: seq<Transition>): (start: int)
    ensures start >= 0
    ensures start == 0 ==> forall t :: t in trans ==> t.ts <= 0
    ensures start > 0 ==> (exists t :: t in trans && t.ts == start) && forall t :: t in trans && t.ts > 0 ==>
              start <= t.ts
  {
    if trans == [] then 0 else
      var rest, t := Start(trans[..|trans| - 1]), trans[|trans| - 1];
      assert trans == trans[..|trans| - 1] + [t];
      if t.ts > 0 && (rest == 0 || t.ts < rest) then t.ts else rest
  }

  /** The latest time. */
  function End(trans: seq<Transition>): (end: int)
    requires trans != []
    ensures (exists t :: t in trans && t.ts == end) && forall t :: t in trans ==> t.ts <= end
  {
    var t := trans[|trans| - 1];
    assert trans == trans[..|trans| - 1] + [t];
    if |trans| == 1 then t.ts else
      var rest := End(trans[..|trans| - 1]);
      if t.ts >= rest then t.ts else rest
  }

  /** The time of bucket `k`. */
  function BucketTime(start: int, step: int, k: nat): int {
    if k == 0 then start else BucketTime(start, step, k - 1) + step
  }

  lemma {:induction false} BucketTimeIs(start: int, step: int, k: nat)
    ensures BucketTime(start, step, k) == start + k * step
  {
    if k > 0 {
      BucketTimeIs(start, step, k - 1);
    }
  }

  ghost predicate IsBucket(b: Bucket, at: int, ids: set<Id>, trans: seq<Transition>) {
    b.at == at && Counts(b.counts, ids, trans, at)
  }

  /** Buckets a fixed step apart from `start` to `end`, each with its counts. */
  ghost predicate Series(out: seq<Bucket>, start: int, end: int, step: int, ids: set<Id>, trans: seq<Transition>) {
    && (forall k {:trigger out[k]} :: 0 <= k < |out| ==> IsBucket(out[k], BucketTime(start, step, k), ids, trans))
    && (|out| > 0 ==> BucketTime(start, step, |out| - 1) <= end)
    && BucketTime(start, step, |out|) > end
  }

  method Buckets(perItem: map<Id, seq<Transition>>, start: int, end: int, step: int, ghost trans: seq<Transition>,
                 ghost ids: set<Id>) returns (out: seq<Bucket>)
    requires IsPerItem(perItem, trans, ids) && step > 0
    ensures Series(out, start, end, step, ids, trans)
  {
    out := [];
    var at := start;
    while at <= end
      invariant at == BucketTime(start, step, |out|)
      invariant forall k {:trigger out[k]} :: 0 <= k < |out| ==>
        IsBucket(out[k], BucketTime(start, step, k), ids, trans)
      invariant |out| > 0 ==> BucketTime(start, step, |out| - 1) <= end
      decreases end - at
    {
      var counts := CountAt(perItem, at, trans, ids);
      out := out + [Bucket(at, counts)];
      at := at + step;
    }
  }

  function StepOf(bucketMs: int): int {
    if bucketMs > 1 then bucketMs else 1
  }

  method StatusSeries(trans: seq<Transition>, items: seq<FlowItem>, bucketMs: int,
                      board: string) returns (out: seq<Bucket>)
    ensures (forall id :: id in ScopeOf(items, board) ==> Own(trans, id) == []) ==> out == []
    ensures forall id :: id in ScopeOf(items, board) && Own(trans, id) != [] ==>
              trans != [] && Series(out, Start(trans), End(trans), StepOf(bucketMs), ScopeOf(items, board), trans)
  {
    var ids := ScopeIds(items, board);
    var perItem := PerItem(trans, ids);
    if perItem == map[] {
      forall id | id in ids
        ensures Own(trans, id) == []
      {
        assert id !in perItem;
      }
      return [];
    }
    var some :| some in perItem;
    out := Buckets(perItem, Start(trans), End(trans), StepOf(bucketMs), trans, ids);
  }

  // ------------------------------------------------------------ conservation

  /** The sum of the counts of a bucket. */
  ghost function Total(counts: map<string, nat>): nat {
    if counts == map[] then 0 else
      var status :| status in counts;
      counts[status] + Total(counts - {status})
  }

  ghost predicate CountsSome(counts: map<string, nat>, ids: set<Id>, trans: seq<Transition>, at: int) {
    forall status :: status in counts ==> counts[status] == |WithStatus(ids, trans, at, status)|
  }

  ghost function WithAnyOf(ids: set<Id>, trans: seq<Transition>, at: int, counts: map<string, nat>): set<Id> {
    set id | id in ids && StatusAt(trans, id, at).Some? && StatusAt(trans, id, at).value in counts
  }

  lemma {:induction false} TotalIs(counts: map<string, nat>, ids: set<Id>, trans: seq<Transition>, at: int)
    requires CountsSome(counts, ids, trans, at)
    ensures Total(counts) == |WithAnyOf(ids, trans, at, counts)|
    decreases |counts|
  {
    var all := WithAnyOf(ids, trans, at, counts);
    if counts == map[] {
      assert all == {};
    } else {
      var status :| status in counts && Total(counts) == counts[status] + Total(counts - {status});
      var rest := counts - {status};
      TotalIs(rest, ids, trans, at);
      var one, others := WithStatus(ids, trans, at, status), WithAnyOf(ids, trans, at, rest);
      assert all == one + others && one !! others;
    }
  }

  /** The items whose first transition is not later than `at`. */
  ghost function Begun(ids: set<Id>, trans: seq<Transition>, at: int): set<Id> {
    set id | id in ids && BegunBy(trans, id, at)
  }

  /** The counts of a bucket sum to the number of items whose first transition is not later than the bucket. */
  lemma BucketConserves(counts: map<string, nat>, ids: set<Id>, trans: seq<Transition>, at: int)
    requires Counts(counts, ids, trans, at)
    ensures Total(counts) == |Begun(ids, trans, at)|
  {
    forall status | status in counts
      ensures counts[status] == |WithStatus(ids, trans, at, status)|
    {
      assert CountsOne(counts, ids, trans, at, status);
    }
    TotalIs(counts, ids, trans, at);
    forall id | id in ids
      ensures id in WithAnyOf(ids, trans, at, counts) <==> BegunBy(trans, id, at)
    {
      StatusFromFirstTransition(trans, id, at);
      if StatusAt(trans, id, at).Some? {
        assert CountsOne(counts, ids, trans, at, StatusAt(trans, id, at).value);
        assert id in WithStatus(ids, trans, at, StatusAt(trans, id, at).value);
      }
    }
    assert WithAnyOf(ids, trans, at, counts) == Begun(ids, trans, at);
  }

  // ------------------------------------------------------ agreement with the store

  /** The last log row of an item. */
  function LastRun(log: seq<Run>, id: Id): Option<Run> {
    if log == [] then None
    else if log[|log| - 1].itemId == id then Some(log[|log| - 1])
    else LastRun(log[..|log| - 1], id)
  }

  lemma {:induction false} HistoryEndsWithLastRun(log: seq<Run>, id: Id)
    requires HistoryOf(log, id) != []
    ensures LastRun(log, id) == Some(HistoryOf(log, id)[|HistoryOf(log, id)| - 1])
  {
    if log[|log| - 1].itemId != id {
      HistoryEndsWithLastRun(log[..|log| - 1], id);
    }
  }

  lemma {:induction false} OwnEndsWithLastRun(log: seq<Run>, id: Id)
    ensures var own, last := Own(TransitionsOf(log), id), LastRun(log, id);
            && (own == [] <==> last.None?)
            && (last.Some? ==> own[|own| - 1] == TransitionOf(last.value))
  {
    if log != [] {
      assert TransitionsOf(log)[..|log| - 1] == TransitionsOf(log[..|log| - 1]);
      OwnEndsWithLastRun(log[..|log| - 1], id);
    }
  }

  /** What the audit trail says about a live item: its last log row ends in its current status. */
  lemma LastRunIsCurrent(clock: Clock, ops: seq<Op>, id: Id)
    requires NeverCollides(EMPTY, clock, ops) && Has(After(EMPTY, clock, ops), id)
    ensures var s := After(EMPTY, clock, ops);
            LastRun(s.log, id).Some? && LastRun(s.log, id).value.to == StatusOf(Get(s, id))
  {
    LogReplays(clock, ops);
    var s := After(EMPTY, clock, ops);
    assert AuditedItem(s, id);
    HistoryEndsWithLastRun(s.log, id);
  }

  /** From its last transition on, every bucket counts a live item under its current status. */
  lemma SeriesAgreesWithStore(clock: Clock, ops: seq<Op>, id: Id, at: int)
    requires NeverBack(clock) && NeverCollides(EMPTY, clock, ops) && Has(After(EMPTY, clock, ops), id)
    ensures var s := After(EMPTY, clock, ops);
            && LastRun(s.log, id).Some?
            && (LastRun(s.log, id).value.timestamp <= at ==>
              StatusAt(Sorted(s.log), id, at) == Some(StatusOf(Get(s, id))))
  {
    LastRunIsCurrent(clock, ops, id);
    SortedIsLog(clock, ops);
    OwnEndsWithLastRun(After(EMPTY, clock, ops).log, id);
  }

  // ------------------------------------------------------------------- aging

  datatype AgingRow = AgingRow(id: Id, status: string, inStatusMs: int)

  /** When the item last entered its status, as far as the transitions know. */
  function Entered(trans: seq<Transition>, i: FlowItem): Option<int> {
    if trans == [] then None
    else
      var t := trans[|trans| - 1];
      if t.itemId == i.id && t.to == i.status then Some(t.ts) else Entered(trans[..|trans| - 1], i)
  }

  function Age(now: int, ts: int): int {
    if now - ts > 0 then now - ts else 0
  }

  function AgingOf(items: seq<FlowItem>, trans: seq<Transition>, terminal: set<string>, now: int): seq<AgingRow> {
    if items == [] then [] else
      var i := items[|items| - 1];
      AgingOf(items[..|items| - 1], trans, terminal, now) +
        if i.status in terminal then []
        else match Entered(trans, i)
          case Some(ts) => [AgingRow(i.id, i.status, Age(now, ts))]
          case None => []
  }

  predicate NotYounger(a: AgingRow, b: AgingRow) {
    a.inStatusMs >= b.inStatusMs
  }

  method Aging(items: seq<FlowItem>, trans: seq<Transition>, terminal: set<string>,
               now: int) returns (out: seq<AgingRow>)
    ensures out == StableSort(AgingOf(items, trans, terminal, now), NotYounger)
    ensures SortedBy(out, NotYounger) && multiset(out) == multiset(AgingOf(items, trans, terminal, now))
  {
    out := [];
    for k := 0 to |items|
      invariant out == AgingOf(items[..k], trans, terminal, now)
    {
      var i := items[k];
      assert items[..k + 1][..k] == items[..k];
      if i.status !in terminal {
        var entered := LastEntry(trans, i);
        if entered.Some? {
          out := out + [AgingRow(i.id, i.status, Age(now, entered.value))];
        }
      }
    }
    assert items[..|items|] == items;
    StableSortSorts(out, NotYounger);
    out := StableSort(out, NotYounger);
  }

  method LastEntry(trans: seq<Transition>, i: FlowItem) returns (entered: Option<int>)
    ensures entered == Entered(trans, i)
  {
    var k := |trans|;
    assert trans[..k] == trans;
    while k > 0
      invariant 0 <= k <= |trans| && Entered(trans, i) == Entered(trans[..k], i)
    {
      assert trans[..k][..k - 1] == trans[..k - 1];
      if trans[k - 1].itemId == i.id && trans[k - 1].to == i.status {
        return Some(trans[k - 1].ts);
      }
      k := k - 1;
    }
    return None;
  }

  lemma {:induction false} EnteredAtLastRun(log: seq<Run>, i: FlowItem)
    requires LastRun(log, i.id).Some? && LastRun(log, i.id).value.to == i.status
    ensures Entered(TransitionsOf(log), i) == Some(LastRun(log, i.id).value.timestamp)
  {
    assert TransitionsOf(log)[..|log| - 1] == TransitionsOf(log[..|log| - 1]);
    if log[|log| - 1].itemId != i.id {
      EnteredAtLastRun(log[..|log| - 1], i);
    }
  }

  lemma {:induction false} AgingAre(items: seq<FlowItem>, trans: seq<Transition>, terminal: set<string>, now: int,
                                    a: AgingRow)
    ensures a in AgingOf(items, trans, terminal, now) <==>
            exists k :: 0 <= k < |items| && items[k].status !in terminal && Entered(trans, items[k]).Some? &&
              a == AgingRow(items[k].id, items[k].status, Age(now, Entered(trans, items[k]).value))
  {
    if items != [] {
      AgingAre(items[..|items| - 1], trans, terminal, now, a);
    }
  }

  lemma {:induction false} LiveIdsAreUnique(rows: seq<Row>)
    requires UniqueLive(rows)
    ensures forall i, j :: 0 <= i < j < |LiveItems(rows)| ==> LiveItems(rows)[i].id != LiveItems(rows)[j].id
  {
    if rows != [] {
      var before, last := rows[..|rows| - 1], rows[|rows| - 1];
      LiveIdsAreUnique(before);
      forall j | 0 <= j < |LiveItems(before)| && !IsDeleted(last)
        ensures LiveItems(before)[j].id != IdOf(last)
      {
        LiveItemsAre(before, LiveItems(before)[j]);
        var k :| 0 <= k < |before| && !IsDeleted(before[k]) && FlowItemOf(before[k]) == LiveItems(before)[j];
        assert rows[k] == before[k];
      }
    }
  }

  lemma {:induction false} AgingOnce(items: seq<FlowItem>, trans: seq<Transition>, terminal: set<string>, now: int)
    requires forall i, j :: 0 <= i < j < |items| ==> items[i].id != items[j].id
    ensures var r := AgingOf(items, trans, terminal, now); forall i, j :: 0 <= i < j < |r| ==> r[i].id != r[j].id
  {
    if items != [] {
      var before := items[..|items| - 1];
      AgingOnce(before, trans, terminal, now);
      var r := AgingOf(before, trans, terminal, now);
      forall j | 0 <= j < |r|
        ensures r[j].id != items[|items| - 1].id
      {
        AgingAre(before, trans, terminal, now, r[j]);
      }
    }
  }

  /** No item is listed twice. */
  lemma AgingListsOnce(clock: Clock, ops: seq<Op>, terminal: set<string>, now: int)
    requires NeverCollides(EMPTY, clock, ops)
    ensures var s := After(EMPTY, clock, ops);
            var r := AgingOf(LiveItems(s.rows), Sorted(s.log), terminal, now);
            forall i, j :: 0 <= i < j < |r| ==> r[i].id != r[j].id
  {
    var s := After(EMPTY, clock, ops);
    LogReplays(clock, ops);
    LiveIdsAreUnique(s.rows);
    AgingOnce(LiveItems(s.rows), Sorted(s.log), terminal, now);
  }

  /** A live item, which entered its status with its last log row. */
  ghost predicate LiveSince(s: State, trans: seq<Transition>, i: FlowItem) {
    && Has(s, i.id) && i.status == StatusOf(Get(s, i.id)) && LastRun(s.log, i.id).Some?
    && Entered(trans, i) == Some(LastRun(s.log, i.id).value.timestamp)
  }

  /** Every live item that is not in a terminal status is listed, with the time since its last status change, and nothing
      else is. */
  lemma AgingSkipsNothing(clock: Clock, ops: seq<Op>, terminal: set<string>, now: int, a: AgingRow)
    requires NeverBack(clock) && NeverCollides(EMPTY, clock, ops)
    ensures var s := After(EMPTY, clock, ops);
            a in AgingOf(LiveItems(s.rows), Sorted(s.log), terminal, now) <==>
              && Has(s, a.id) && a.status == StatusOf(Get(s, a.id)) && a.status !in terminal
              && LastRun(s.log, a.id).Some? && a.inStatusMs == Age(now, LastRun(s.log, a.id).value.timestamp)
  {
    var s := After(EMPTY, clock, ops);
    var items, trans := LiveItems(s.rows), Sorted(s.log);
    SortedIsLog(clock, ops);
    LogReplays(clock, ops);
    AgingAre(items, trans, terminal, now, a);
    forall k | 0 <= k < |items|
      ensures LiveSince(s, trans, items[k])
    {
      LiveItemIsFound(s, items[k]);
      LastRunIsCurrent(clock, ops, items[k].id);
      EnteredAtLastRun(s.log, items[k]);
    }
    if Has(s, a.id) {
      var i := FlowItemOf(Get(s, a.id));
      LiveItemIsFound(s, i);
      var k :| 0 <= k < |items| && items[k] == i;
    }
  }
}
