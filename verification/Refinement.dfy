/** The row store refines the plain map of live items. */
module Refinement {
  import opened Board
  import BoardMap
  import opened Columns
  import opened Effects
  import opened History
  import opened IdAlloc
  import opened Seqs
  import opened Wrappers

  ghost function LiveIds(rows: seq<Row>): set<Id> {
    set k | 0 <= k < |rows| && !IsDeleted(rows[k]) :: IdOf(rows[k])
  }

  /** The live items of a board. */
  ghost function Items(rows: seq<Row>): map<Id, Row> {
    map x | x in LiveIds(rows) && Find(rows, x) < |rows| :: rows[Find(rows, x)]
  }

  lemma ItemsAre(s: State, x: Id)
    ensures x in Items(s.rows) <==> Has(s, x)
    ensures Has(s, x) ==> Items(s.rows)[x] == Get(s, x)
  {
    if Has(s, x) {
      assert !IsDeleted(s.rows[Find(s.rows, x)]) && IdOf(s.rows[Find(s.rows, x)]) == x;
    }
  }

  /** A map of what each id finds is the map of the live items. */
  lemma ItemsEqual(s: State, m: map<Id, Row>)
    requires forall x :: (x in m <==> Has(s, x)) && (Has(s, x) ==> m[x] == Get(s, x))
    ensures Items(s.rows) == m
  {
    forall x
      ensures x in Items(s.rows) <==> x in m
      ensures x in m ==> Items(s.rows)[x] == m[x]
    {
      ItemsAre(s, x);
    }
  }

  function RowIds(rows: seq<Row>): seq<Id> {
    seq(|rows|, k requires 0 <= k < |rows| => IdOf(rows[k]))
  }

  /** The map that a store stands for. */
  ghost function MapOf(s: State): BoardMap.Map {
    BoardMap.Map(Items(s.rows), RowIds(s.rows), s.log, s.ticks)
  }

  // ------------------------------------------------------ work on one item

  /** In the map, the item becomes `r` and nothing else changes. */
  ghost predicate Puts(s: State, t: State, id: Id, r: Row) {
    Items(t.rows) == Items(s.rows)[id := r]
  }

  lemma PutsTwice(s: State, t: State, u: State, id: Id, r: Row, q: Row)
    requires Puts(s, t, id, r) && Puts(t, u, id, q)
    ensures Puts(s, u, id, q)
  {
  }

  /** Store `t` is store `s` with the writes of draft `d` done. */
  ghost predicate Drafted(s: State, t: State, id: Id, d: BoardMap.Draft) {
    Keeps(s, t) && Has(s, id) && Puts(s, t, id, d.row) && t.ticks == d.ticks && t.log == s.log + d.log
  }

  lemma DraftedIs(s: State, t: State, id: Id, d: BoardMap.Draft)
    requires Drafted(s, t, id, d)
    ensures Has(t, id) && Get(t, id) == d.row && t.ticks == d.ticks
  {
    ItemsAre(t, id);
  }

  lemma Opened(s: State, id: Id)
    requires Has(s, id)
    ensures id in MapOf(s).items && Drafted(s, s, id, BoardMap.Open(MapOf(s), id))
  {
    ItemsAre(s, id);
  }

  lemma Closed(s: State, t: State, id: Id, d: BoardMap.Draft)
    requires Drafted(s, t, id, d)
    ensures MapOf(t) == BoardMap.Close(MapOf(s), id, d)
  {
    assert RowIds(t.rows) == RowIds(s.rows);
  }

  lemma SetFieldOnMap(s: State, id: Id, col: nat, c: Cell)
    requires Has(s, id) && Plain(col) && Fits(col, c)
    ensures Puts(s, SetField(s, id, col, c), id, With(Get(s, id), col, c))
  {
    var m := Items(s.rows)[id := With(Get(s, id), col, c)];
    var s' := SetField(s, id, col, c);
    SetFieldTouches(s, id, col, c);
    forall x
      ensures (x in m <==> Has(s', x)) && (Has(s', x) ==> m[x] == Get(s', x))
    {
      ItemsAre(s, x);
      if Has(s, x) {
        SetCellGets(s, id, col, c, x);
      }
    }
    ItemsEqual(s', m);
  }

  lemma DraftedPut(s: State, t: State, id: Id, d: BoardMap.Draft, col: nat, c: Cell)
    requires Drafted(s, t, id, d) && Plain(col) && Fits(col, c)
    ensures Has(t, id) && Drafted(s, SetField(t, id, col, c), id, BoardMap.Put(d, col, c))
  {
    DraftedIs(s, t, id, d);
    SetFieldOnMap(t, id, col, c);
    PutsTwice(s, t, SetField(t, id, col, c), id, d.row, With(d.row, col, c));
  }

  /** One more reading of the clock. */
  lemma DraftedTick(s: State, t: State, id: Id, d: BoardMap.Draft)
    requires Drafted(s, t, id, d)
    ensures Drafted(s, t.(ticks := t.ticks + 1), id, d.(ticks := d.ticks + 1))
  {
  }

  lemma DraftedStamp(s: State, t: State, clock: Clock, id: Id, d: BoardMap.Draft, col: nat, c: Cell)
    requires Drafted(s, t, id, d) && Plain(col) && Fits(col, c)
    ensures Has(t, id) && Drafted(s, UpdateField(t, clock, id, col, c), id, BoardMap.Stamp(d, clock, col, c))
  {
    var now := Number(Some(clock(d.ticks)));
    var t1, d1 := SetField(t, id, col, c), BoardMap.Put(d, col, c);
    DraftedPut(s, t, id, d, col, c);
    DraftedPut(s, t1, id, d1, UPDATED_AT, now);
    DraftedTick(s, SetField(t1, id, UPDATED_AT, now), id, BoardMap.Put(d1, UPDATED_AT, now));
  }

  lemma DraftedNote(s: State, t: State, clock: Clock, id: Id, d: BoardMap.Draft, from: Option<string>, to: string,
                    agent: Option<string>, forced: bool, reason: Option<string>)
    requires Drafted(s, t, id, d)
    ensures Drafted(s, Record(t, clock, id, from, to, agent, forced, reason), id,
                    BoardMap.Note(d, clock, id, from, to, agent, forced, reason))
  {
  }

  lemma DraftedClearing(s: State, t: State, clock: Clock, id: Id, d: BoardMap.Draft)
    requires Drafted(s, t, id, d)
    ensures Has(t, id)
    ensures Drafted(s, ClearClosure(t, clock, id), id,
                    BoardMap.Stamp(BoardMap.Stamp(d, clock, RESOLUTION, Text(None)), clock, CLOSED_BY, Text(None)))
  {
    var t1, d1 := UpdateField(t, clock, id, RESOLUTION, Text(None)), BoardMap.Stamp(d, clock, RESOLUTION, Text(None));
    DraftedStamp(s, t, clock, id, d, RESOLUTION, Text(None));
    DraftedStamp(s, t1, clock, id, d1, CLOSED_BY, Text(None));
  }

  lemma DraftedLog(s: State, t: State, clock: Clock, id: Id, d: BoardMap.Draft, to: string, agent: Option<string>,
                   forced: bool, reason: Option<string>)
    requires Drafted(s, t, id, d)
    ensures Has(t, id)
    ensures Drafted(s, LogStatus(t, clock, id, to, agent, forced, reason), id,
                    BoardMap.Note(BoardMap.Stamp(d, clock, STATUS, Text(Some(to))), clock, id, Some(StatusOf(d.row)), to,
                                  agent, forced, reason))
  {
    DraftedIs(s, t, id, d);
    var t1, d1 := UpdateField(t, clock, id, STATUS, Text(Some(to))), BoardMap.Stamp(d, clock, STATUS, Text(Some(to)));
    DraftedStamp(s, t, clock, id, d, STATUS, Text(Some(to)));
    DraftedNote(s, t1, clock, id, d1, Some(StatusOf(d.row)), to, agent, forced, reason);
  }

  lemma DraftedStatus(s: State, t: State, clock: Clock, id: Id, d: BoardMap.Draft, to: string, agent: Option<string>,
                      forced: bool, reason: Option<string>)
    requires Drafted(s, t, id, d)
    ensures Has(t, id)
    ensures Drafted(s, UpdateStatus(t, clock, id, to, agent, forced, reason), id,
                    BoardMap.Restatus(d, clock, id, to, agent, forced, reason))
  {
    DraftedLog(s, t, clock, id, d, to, agent, forced, reason);
    var t1 := LogStatus(t, clock, id, to, agent, forced, reason);
    var d1 := BoardMap.Note(BoardMap.Stamp(d, clock, STATUS, Text(Some(to))), clock, id, Some(StatusOf(d.row)), to, agent,
                            forced, reason);
    DraftedClearing(s, t1, clock, id, d1);
  }

  lemma DraftedList(s: State, t: State, clock: Clock, id: Id, d: BoardMap.Draft, col: nat, values: seq<string>)
    requires Drafted(s, t, id, d) && IsListColumn(col)
    ensures Has(t, id) && Drafted(s, UpdateList(t, clock, id, col, values), id, BoardMap.PutList(d, clock, col, values))
  {
    DraftedStamp(s, t, clock, id, d, col, List(Some(Stored(values))));
  }

  lemma DraftedEntry(s: State, t: State, clock: Clock, id: Id, d: BoardMap.Draft, col: nat, value: string)
    requires Drafted(s, t, id, d) && IsListColumn(col)
    ensures Has(t, id) && Drafted(s, AddToList(t, clock, id, col, value), id, BoardMap.PutEntry(d, clock, col, value))
  {
    DraftedIs(s, t, id, d);
    DraftedList(s, t, clock, id, d, col, ListOf(d.row, col) + [value]);
  }

  lemma DraftedDrop(s: State, t: State, clock: Clock, id: Id, d: BoardMap.Draft, col: nat, value: string)
    requires Drafted(s, t, id, d) && IsListColumn(col)
    ensures Has(t, id) && Drafted(s, RemoveFromList(t, clock, id, col, value), id, BoardMap.DropEntry(d, clock, col, value))
  {
    DraftedIs(s, t, id, d);
    FilterWithout(ListOf(d.row, col), value);
    DraftedList(s, t, clock, id, d, col, Filter(ListOf(d.row, col), v => v != value));
  }

  lemma DraftedBody(s: State, t: State, clock: Clock, id: Id, d: BoardMap.Draft, body: Option<string>,
                    hash: Option<string>)
    requires Drafted(s, t, id, d)
    ensures Has(t, id)
    ensures Drafted(s, UpdateBody(t, clock, id, body, hash), id,
                    BoardMap.Stamp(BoardMap.Put(d, BODY, Text(body)), clock, BODY_HASH, Text(hash)))
  {
    DraftedPut(s, t, id, d, BODY, Text(body));
    DraftedStamp(s, SetField(t, id, BODY, Text(body)), clock, id, BoardMap.Put(d, BODY, Text(body)), BODY_HASH, Text(hash));
  }

  lemma DraftedSome(s: State, t: State, clock: Clock, id: Id, d: BoardMap.Draft, col: nat, value: Option<string>)
    requires Drafted(s, t, id, d) && (col == RESOLUTION || col == CLOSED_BY)
    ensures Has(t, id) && Drafted(s, OptionalField(t, clock, id, col, value), id, BoardMap.StampSome(d, clock, col, value))
  {
    DraftedStamp(s, t, clock, id, d, col, Text(value));
  }

  lemma DraftedAgent(s: State, t: State, id: Id, d: BoardMap.Draft, agent: Option<string>)
    requires Drafted(s, t, id, d)
    ensures Has(t, id) && Drafted(s, AssignSome(t, id, agent), id, BoardMap.PutAgent(d, agent))
  {
    DraftedPut(s, t, id, d, ASSIGNEE, Text(agent));
  }

  lemma DraftedClose(s: State, t: State, clock: Clock, id: Id, d: BoardMap.Draft, resolution: Option<string>,
                     closedBy: Option<string>)
    requires Drafted(s, t, id, d)
    ensures Has(t, id)
    ensures Drafted(s, Close(t, clock, id, resolution, closedBy), id,
                    BoardMap.StampSome(BoardMap.StampSome(d, clock, RESOLUTION, resolution), clock, CLOSED_BY, closedBy))
  {
    DraftedSome(s, t, clock, id, d, RESOLUTION, resolution);
    DraftedSome(s, OptionalField(t, clock, id, RESOLUTION, resolution), clock, id,
                BoardMap.StampSome(d, clock, RESOLUTION, resolution), CLOSED_BY, closedBy);
  }

  lemma DraftedMove(s: State, t: State, clock: Clock, id: Id, d: BoardMap.Draft, to: string, agent: Option<string>,
                    force: bool, resolution: Option<string>, closedBy: Option<string>)
    requires Drafted(s, t, id, d)
    ensures Has(t, id)
    ensures Drafted(s, Move(t, clock, id, to, agent, force, resolution, closedBy), id,
                    BoardMap.Moved(d, clock, id, to, agent, force, resolution, closedBy))
  {
    var t1, d1 := UpdateStatus(t, clock, id, to, None, force, None), BoardMap.Restatus(d, clock, id, to, None, force, None);
    DraftedStatus(s, t, clock, id, d, to, None, force, None);
    DraftedAgent(s, t1, id, d1, agent);
    DraftedClose(s, AssignSome(t1, id, agent), clock, id, BoardMap.PutAgent(d1, agent), resolution, closedBy);
  }

  lemma DraftedFreed(s: State, t: State, clock: Clock, id: Id, d: BoardMap.Draft, to: string, agent: Option<string>,
                     reason: string, attempts: int)
    requires Drafted(s, t, id, d)
    ensures Has(t, id)
    ensures Drafted(s, Release(t, clock, id, to, agent, reason, attempts), id,
                    BoardMap.Freed(d, clock, id, to, agent, reason, attempts))
  {
    var t1 := UpdateStatus(t, clock, id, to, agent, false, Some(reason));
    var d1 := BoardMap.Restatus(d, clock, id, to, agent, false, Some(reason));
    DraftedStatus(s, t, clock, id, d, to, agent, false, Some(reason));
    DraftedPut(s, t1, id, d1, ASSIGNEE, Text(None));
    DraftedPut(s, Assign(t1, id, None), id, BoardMap.Put(d1, ASSIGNEE, Text(None)), ATTEMPT_COUNT, Number(Some(attempts)));
  }

  lemma DraftedRequeue(s: State, t: State, clock: Clock, id: Id, d: BoardMap.Draft, agent: Option<string>,
                       session: Option<string>, failure: string, cap: int, tag: string)
    requires Drafted(s, t, id, d) && CanRequeue(t, id, cap)
    ensures Drafted(s, Requeue(t, clock, id, agent, session, failure, cap, tag), id,
                    BoardMap.Requeued(d, clock, id, agent, session, failure, cap, tag))
  {
    DraftedIs(s, t, id, d);
    var attempts := Increment(AttemptsOf(d.row));
    var to, reason := if attempts >= cap then "blocked" else "backlog", RequeueReason(attempts, session, failure);
    DraftedFreed(s, t, clock, id, d, to, agent, reason, attempts);
    DraftedEntry(s, Release(t, clock, id, to, agent, reason, attempts), clock, id,
                 BoardMap.Freed(d, clock, id, to, agent, reason, attempts), TAGS, tag);
  }

  lemma DraftedRatified(s: State, t: State, clock: Clock, target: Target, d: BoardMap.Draft)
    requires Drafted(s, t, target.id, d)
    ensures Has(t, target.id)
    ensures Drafted(s, RatifyOne(t, clock, target), target.id, BoardMap.Ratified(d, clock, target))
  {
    var t1, d1 := Strip(t, clock, target), BoardMap.Stripped(d, clock, target.tags);
    DraftedList(s, t, clock, target.id, d, TAGS, Filter(target.tags, x => x != PENDING));
    DraftedIs(s, t1, target.id, d1);
    DraftedStatus(s, t1, clock, target.id, d1, "in_progress", Some("ratify"), false, Some("ratified"));
  }

  // ------------------------------------------------------------------ steps

  /** The guards of the two machines agree. */
  lemma GuardsAgree(s: State, op: Op)
    requires IsWrite(op) && Has(s, op.id)
    ensures Accepted(s, op) <==> BoardMap.Allowed(Get(s, op.id), op)
  {
  }

  lemma WriteOnMap(s: State, clock: Clock, op: Op, d: BoardMap.Draft)
    requires IsWrite(op) && Accepted(s, op) && Drafted(s, s, op.id, d) && BoardMap.Allowed(d.row, op)
    ensures Drafted(s, Step(s, clock, op), op.id, BoardMap.Worked(d, clock, op))
  {
    match op
    case SetStatus(id, to, agent, forced, reason) => DraftedStatus(s, s, clock, id, d, to, agent, forced, reason);
    case Edit(id, col, cell) => DraftedStamp(s, s, clock, id, d, col, cell);
    case EditBody(id, body, hash) => DraftedBody(s, s, clock, id, d, body, hash);
    case EditList(id, col, values) => DraftedList(s, s, clock, id, d, col, values);
    case AddEntry(id, col, value) => DraftedEntry(s, s, clock, id, d, col, value);
    case RemoveEntry(id, col, value) => DraftedDrop(s, s, clock, id, d, col, value);
    case MoveTo(id, to, agent, force, resolution, closedBy, _) =>
      DraftedMove(s, s, clock, id, d, to, agent, force, resolution, closedBy);
    case RequeueOf(id, agent, session, failure, cap, tag) =>
      DraftedRequeue(s, s, clock, id, d, agent, session, failure, cap, tag);
  }

  lemma WriteStep(s: State, clock: Clock, op: Op)
    requires IsWrite(op)
    ensures MapOf(Step(s, clock, op)) == BoardMap.OnMap(MapOf(s), clock, op)
  {
    ItemsAre(s, op.id);
    if Has(s, op.id) {
      GuardsAgree(s, op);
      if Accepted(s, op) {
        Opened(s, op.id);
        var d := BoardMap.Open(MapOf(s), op.id);
        WriteOnMap(s, clock, op, d);
        Closed(s, Step(s, clock, op), op.id, BoardMap.Worked(d, clock, op));
      }
    }
  }

  lemma {:induction false} HighestIs(rows: seq<Row>, prefixes: set<string>)
    ensures BoardMap.Highest(RowIds(rows), prefixes) == MaxNumber(rows, prefixes)
  {
    if rows != [] {
      HighestIs(rows[..|rows| - 1], prefixes);
      assert RowIds(rows)[..|rows| - 1] == RowIds(rows[..|rows| - 1]);
    }
  }

  lemma AddItemOnMap(s: State, clock: Clock, id: Id, input: Input)
    requires !Has(s, id)
    ensures MapOf(AddItem(s, clock, id, input)) == BoardMap.Added(MapOf(s), clock, id, input)
  {
    var row, s' := NewRow(id, input, clock(s.ticks)), AddItem(s, clock, id, input);
    var m := Items(s.rows)[id := row];
    forall x
      ensures (x in m <==> Has(s', x)) && (Has(s', x) ==> m[x] == Get(s', x))
    {
      ItemsAre(s, x);
      AddItemGets(s, clock, id, input, x);
    }
    ItemsEqual(s', m);
    assert RowIds(s.rows + [row]) == RowIds(s.rows) + [IdOf(row)];
  }

  lemma DeleteOnMap(s: State, id: Id)
    requires UniqueLive(s.rows) && Has(s, id)
    ensures Items(Delete(s, id).rows) == Items(s.rows) - {id}
  {
    var m, s' := Items(s.rows) - {id}, Delete(s, id);
    DeleteUnique(s, id);
    forall x
      ensures (x in m <==> Has(s', x)) && (Has(s', x) ==> m[x] == Get(s', x))
    {
      ItemsAre(s, x);
      if x != id {
        DeleteOther(s, id, x);
      }
    }
    ItemsEqual(s', m);
  }

  lemma RemoveStep(s: State, clock: Clock, op: Op)
    requires UniqueLive(s.rows) && op.Remove?
    ensures MapOf(Step(s, clock, op)) == BoardMap.OnMap(MapOf(s), clock, op)
  {
    ItemsAre(s, op.id);
    if Has(s, op.id) {
      DeleteOnMap(s, op.id);
      assert RowIds(Delete(s, op.id).rows) == RowIds(s.rows);
    } else {
      assert Items(s.rows) - {op.id} == Items(s.rows);
    }
  }

  lemma CreateStep(s: State, clock: Clock, op: Op)
    requires (op.Create? || op.CreateWithId?) && !Collides(s, op)
    ensures MapOf(Step(s, clock, op)) == BoardMap.OnMap(MapOf(s), clock, op)
  {
    if op.Create? {
      HighestIs(s.rows, Prefixes());
      AddItemOnMap(s, clock, NewId(s, op.input), op.input);
    } else {
      ItemsAre(s, op.id);
      if !Has(s, op.id) {
        AddItemOnMap(s, clock, op.id, op.input);
      }
    }
  }

  // ------------------------------------------------------------ ratification

  lemma AllLiveIs(s: State)
    ensures BoardMap.AllLive(MapOf(s)) <==> AllRowsFound(s)
  {
    forall k | 0 <= k < |s.rows|
      ensures RowIds(s.rows)[k] in Items(s.rows) <==> FoundAt(s, k)
    {
      ItemsAre(s, IdOf(s.rows[k]));
    }
  }

  lemma AwaitingSnoc(items: map<Id, Row>, phase: string, ids: seq<Id>, id: Id)
    requires BoardMap.Present(items, ids) && id in items
    ensures BoardMap.Present(items, ids + [id])
    ensures BoardMap.Awaiting(items, phase, ids + [id]) ==
            BoardMap.Awaiting(items, phase, ids) +
              if IsPending(ListOf(items[id], TAGS), phase) then [Target(id, ListOf(items[id], TAGS))] else []
  {
    assert (ids + [id])[..|ids|] == ids;
  }

  lemma {:induction false} AwaitingIs(s: State, phase: string, n: nat)
    requires n <= |s.rows| && RowsFound(s, n)
    ensures BoardMap.Present(Items(s.rows), RowIds(s.rows)[..n])
    ensures BoardMap.Awaiting(Items(s.rows), phase, RowIds(s.rows)[..n]) == TargetsIn(s, phase, n)
  {
    if n > 0 {
      var items, ids, id := Items(s.rows), RowIds(s.rows), IdOf(s.rows[n - 1]);
      assert FoundAt(s, n - 1);
      ItemsAre(s, id);
      AwaitingIs(s, phase, n - 1);
      AwaitingSnoc(items, phase, ids[..n - 1], id);
      assert ids[..n] == ids[..n - 1] + [id];
    }
  }

  lemma RatifyOneOnMap(s: State, clock: Clock, t: Target)
    requires Has(s, t.id)
    ensures t.id in MapOf(s).items
    ensures var d := BoardMap.Open(MapOf(s), t.id);
            MapOf(RatifyOne(s, clock, t)) == BoardMap.Close(MapOf(s), t.id, BoardMap.Ratified(d, clock, t))
  {
    Opened(s, t.id);
    var d := BoardMap.Open(MapOf(s), t.id);
    DraftedRatified(s, s, clock, t, d);
    Closed(s, RatifyOne(s, clock, t), t.id, BoardMap.Ratified(d, clock, t));
  }

  lemma {:induction false} RatifyAllOnMap(s: State, clock: Clock, targets: seq<Target>)
    requires AllHave(s, targets)
    ensures forall k :: 0 <= k < |targets| ==> targets[k].id in MapOf(s).items
    ensures MapOf(RatifyAll(s, clock, targets)) == BoardMap.RatifiedEach(MapOf(s), clock, targets)
  {
    forall k | 0 <= k < |targets|
      ensures targets[k].id in MapOf(s).items
    {
      ItemsAre(s, targets[k].id);
    }
    if targets != [] {
      var t, before := targets[|targets| - 1], targets[..|targets| - 1];
      RatifyAllOnMap(s, clock, before);
      RatifyOneOnMap(RatifyAll(s, clock, before), clock, t);
    }
  }

  lemma RatifyOnMap(s: State, clock: Clock, phase: string)
    requires AllRowsFound(s)
    ensures BoardMap.AllLive(MapOf(s)) && MapOf(Ratify(s, clock, phase)) == BoardMap.RatifiedPhase(MapOf(s), clock, phase)
  {
    var n := |s.rows|;
    AllLiveIs(s);
    AwaitingIs(s, phase, n);
    assert RowIds(s.rows)[..n] == RowIds(s.rows);
    RatifyAllOnMap(s, clock, TargetsIn(s, phase, n));
  }

  /** The accepted call: the step is the ratification. */
  lemma RatifyAccepted(s: State, clock: Clock, op: Op)
    requires op.RatifyOf? && AllRowsFound(s)
    ensures Step(s, clock, op) == Ratify(s, clock, op.phase)
  {
    assert Accepted(s, op);
  }

  lemma RatifyStep(s: State, clock: Clock, op: Op)
    requires op.RatifyOf?
    ensures MapOf(Step(s, clock, op)) == BoardMap.OnMap(MapOf(s), clock, op)
  {
    if AllRowsFound(s) {
      RatifyOnMap(s, clock, op.phase);
      RatifyAccepted(s, clock, op);
      RatifyingMap(MapOf(s), clock, op.phase);
    } else {
      AllLiveIs(s);
    }
  }

  lemma RatifyingMap(m: BoardMap.Map, clock: Clock, phase: string)
    requires BoardMap.AllLive(m)
    ensures BoardMap.OnMap(m, clock, RatifyOf(phase)) == BoardMap.RatifiedPhase(m, clock, phase)
  {
  }

  // ------------------------------------------------------------ the refinement

  /** A step of the store is the same step of the map: items, timestamps, log, allocated ids and refusals. */
  lemma StepOnMap(s: State, clock: Clock, op: Op)
    requires UniqueLive(s.rows) && !Collides(s, op)
    ensures MapOf(Step(s, clock, op)) == BoardMap.OnMap(MapOf(s), clock, op)
  {
    if IsWrite(op) {
      WriteStep(s, clock, op);
    } else if op.RatifyOf? {
      RatifyStep(s, clock, op);
    } else if op.Remove? {
      RemoveStep(s, clock, op);
    } else {
      CreateStep(s, clock, op);
    }
  }

  /** After every run without collision the store stands for the map that the map machine has reached by itself. */
  lemma {:induction false} RunsRefineMap(clock: Clock, ops: seq<Op>)
    requires NeverCollides(EMPTY, clock, ops)
    ensures MapOf(After(EMPTY, clock, ops)) == BoardMap.MapAfter(clock, ops)
    ensures UniqueLive(After(EMPTY, clock, ops).rows)
  {
    if ops == [] {
      assert Items([]) == map[];
    } else {
      var before, op := ops[..|ops| - 1], ops[|ops| - 1];
      var s := After(EMPTY, clock, before);
      NeverCollidesBefore(EMPTY, clock, ops);
      RunsRefineMap(clock, before);
      StepOnMap(s, clock, op);
      StepKeepsUnique(s, clock, op);
    }
  }

  // ------------------------------------------------------------------ queries

  lemma {:induction false} QueryIs(rows: seq<Row>, status: Option<string>, itemType: Option<string>,
                                   board: Option<string>, assignee: Option<string>, r: Row)
    ensures r in Query(rows, status, itemType, board, assignee) <==>
              r in rows && Matches(r, status, itemType, board, assignee)
  {
    if rows != [] {
      QueryIs(rows[..|rows| - 1], status, itemType, board, assignee, r);
      assert rows == rows[..|rows| - 1] + [rows[|rows| - 1]];
    }
  }

  lemma {:induction false} QueryOnce(rows: seq<Row>, status: Option<string>, itemType: Option<string>,
                                     board: Option<string>, assignee: Option<string>)
    requires UniqueLive(rows)
    ensures NoDup(Query(rows, status, itemType, board, assignee))
  {
    if rows != [] {
      var before, last := rows[..|rows| - 1], rows[|rows| - 1];
      QueryOnce(before, status, itemType, board, assignee);
      QueryIs(before, status, itemType, board, assignee, last);
      forall k | 0 <= k < |before| && !IsDeleted(last)
        ensures before[k] != last
      {
        assert before[k] == rows[k];
      }
    }
  }

  /** A query returns the matching items of the map, each once. */
  lemma QueryOnMap(s: State, status: Option<string>, itemType: Option<string>, board: Option<string>,
                   assignee: Option<string>)
    requires UniqueLive(s.rows)
    ensures var results := Query(s.rows, status, itemType, board, assignee);
            && NoDup(results)
            && forall r :: r in results <==>
                 IdOf(r) in Items(s.rows) && Items(s.rows)[IdOf(r)] == r && Matches(r, status, itemType, board, assignee)
  {
    QueryOnce(s.rows, status, itemType, board, assignee);
    forall r: Row
      ensures r in Query(s.rows, status, itemType, board, assignee) <==>
              IdOf(r) in Items(s.rows) && Items(s.rows)[IdOf(r)] == r && Matches(r, status, itemType, board, assignee)
    {
      QueryIs(s.rows, status, itemType, board, assignee, r);
      ItemsAre(s, IdOf(r));
      if r in s.rows && !IsDeleted(r) {
        var k :| 0 <= k < |s.rows| && s.rows[k] == r;
        FindFirst(s.rows, IdOf(r));
        assert IsLive(s.rows[k], IdOf(r));
        FindIs(s.rows, IdOf(r), k);
      }
    }
  }
}
