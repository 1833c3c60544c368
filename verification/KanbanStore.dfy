/** The in-memory store: column batches that are rebuilt on every write, and an append-only runs log. */
module KanbanStore {
  import opened Board
  import opened Columns
  import opened IdAlloc
  import opened Ratification
  import opened Seqs
  import opened Wrappers

  type Reply<T> = Result<T, Error>

  /** What a requeue did. */
  datatype Outcome = Outcome(attempts: int, status: string, deadLettered: bool)

  datatype RatifyReport = RatifyReport(stripped: seq<Id>, voyagesStarted: seq<Id>, remainingPending: nat)

  class KanbanStore {
    var itemsBatches: seq<Batch>
    var runs: seq<Run>
    var ticks: nat
    const clock: Clock

    ghost predicate Valid()
      reads this
    {
      ValidBatches(itemsBatches)
    }

    ghost function View(): State
      requires Valid()
      reads this
    {
      State(AllRows(itemsBatches), runs, ticks)
    }

    constructor (clock: Clock)
      ensures Valid() && View() == State([], [], 0) && this.clock == clock
    {
      itemsBatches, runs, ticks := [], [], 0;
      this.clock := clock;
    }

    method Now() returns (t: int)
      modifies this`ticks
      ensures t == clock(old(ticks)) && ticks == old(ticks) + 1
    {
      t := clock(ticks);
      ticks := ticks + 1;
    }

    // ------------------------------------------------------------- lookup

    /** Position and status of the first row with this id that is not deleted. */
    method FindItem(id: Id) returns (found: bool, b: nat, r: nat, status: string)
      requires Valid()
      ensures found <==> Has(View(), id)
      ensures found ==> b < |itemsBatches| && r < itemsBatches[b].rows &&
                        Offset(itemsBatches, b) + r == Find(View().rows, id) && status == StatusOf(Get(View(), id))
    {
      ghost var rows := AllRows(itemsBatches);
      found, b, r, status := false, 0, 0, "";
      assert itemsBatches[..0] == [];
      while b < |itemsBatches|
        invariant 0 <= b <= |itemsBatches|
        invariant Offset(itemsBatches, b) <= |rows|
        invariant forall k :: 0 <= k < Offset(itemsBatches, b) ==> !IsLive(rows[k], id)
      {
        var batch := itemsBatches[b];
        OffsetStep(itemsBatches, b);
        r := 0;
        while r < batch.rows
          invariant 0 <= r <= batch.rows && Offset(itemsBatches, b) + r <= |rows|
          invariant forall k :: 0 <= k < Offset(itemsBatches, b) + r ==> !IsLive(rows[k], id)
        {
          RowPosition(itemsBatches, b, r);
          if batch.columns[ID][r].text.value == id && !batch.columns[DELETED][r].flag {
            FindIs(rows, id, Offset(itemsBatches, b) + r);
            return true, b, r, batch.columns[STATUS][r].text.value;
          }
          r := r + 1;
        }
        b := b + 1;
      }
      assert itemsBatches[..|itemsBatches|] == itemsBatches;
      FindIs(rows, id, |rows|);
    }

    /** The row of an item. */
    method GetItem(id: Id) returns (reply: Reply<Row>)
      requires Valid()
      ensures reply == if Has(View(), id) then Ok(Get(View(), id)) else Err(NotFound(id))
    {
      var found, b, r, _ := FindItem(id);
      if !found {
        return Err(NotFound(id));
      }
      RowPosition(itemsBatches, b, r);
      var batch := itemsBatches[b];
      var row := seq(WIDTH, c requires 0 <= c < WIDTH && |batch.columns| == WIDTH && r < |batch.columns[c]| => batch.columns[c][r]);
      assert row == RowAt(batch, r);
      return Ok(row);
    }

    // ------------------------------------------------------------- writes

    /** Rebuilds the columns of one batch with one cell replaced. */
    method ReplaceCell(b: nat, r: nat, col: nat, cell: Cell)
      requires Valid() && b < |itemsBatches| && r < itemsBatches[b].rows && col < WIDTH && Fits(col, cell)
      modifies this`itemsBatches
      ensures Valid() && |itemsBatches| == |old(itemsBatches)| && itemsBatches[b].rows == old(itemsBatches)[b].rows
      ensures forall k :: k != b && 0 <= k < |itemsBatches| ==> itemsBatches[k] == old(itemsBatches)[k]
      ensures Offset(itemsBatches, b) == Offset(old(itemsBatches), b)
      ensures var k, rows := Offset(old(itemsBatches), b) + r, old(View().rows);
              k < |rows| && View() == old(View()).(rows := rows[k := With(rows[k], col, cell)])
    {
      var batch := RebuildBatch(itemsBatches[b], r, col, cell);
      ReplacedInTable(itemsBatches, b, r, col, cell);
      itemsBatches := itemsBatches[b := batch];
      assert itemsBatches[..b] == old(itemsBatches)[..b];
    }

    /** Writes one cell of an item. */
    method WriteCell(id: Id, col: nat, cell: Cell) returns (ok: bool)
      requires Valid() && col < WIDTH && Fits(col, cell)
      modifies this`itemsBatches
      ensures Valid() && ok == old(Has(View(), id))
      ensures View() == if ok then SetCell(old(View()), id, col, cell) else old(View())
    {
      var found, b, r, _ := FindItem(id);
      if found {
        ReplaceCell(b, r, col, cell);
      }
      ok := found;
    }

    /** Sets `updated_at` of an item to the current time. */
    method TouchUpdatedAt(id: Id) returns (ok: bool)
      requires Valid()
      modifies this`itemsBatches, this`ticks
      ensures Valid() && ok == old(Has(View(), id))
      ensures View() == if ok then Touch(old(View()), clock, id) else old(View())
    {
      var found, b, r, _ := FindItem(id);
      if found {
        var now := Now();
        ReplaceCell(b, r, UPDATED_AT, Number(Some(now)));
      }
      ok := found;
    }

    /** Writes one field of an item and its `updated_at`: title, priority, rank, resolution and so on. */
    method WriteField(id: Id, col: nat, cell: Cell) returns (reply: Reply<()>)
      requires Valid() && Plain(col) && Fits(col, cell)
      modifies this`itemsBatches, this`ticks
      ensures Valid()
      ensures if old(Has(View(), id)) then reply == Ok(()) && View() == UpdateField(old(View()), clock, id, col, cell)
              else reply == Err(NotFound(id)) && View() == old(View())
    {
      var ok := WriteCell(id, col, cell);
      if !ok {
        return Err(NotFound(id));
      }
      ghost var s := View();
      assert s == SetField(old(View()), id, col, cell);
      ok := TouchUpdatedAt(id);
      return Ok(());
    }

    /** Writes the body and its hash. */
    method UpdateBody(id: Id, body: Option<string>, hash: Option<string>) returns (reply: Reply<()>)
      requires Valid()
      modifies this`itemsBatches, this`ticks
      ensures Valid()
      ensures if old(Has(View(), id)) then reply == Ok(()) && View() == Board.UpdateBody(old(View()), clock, id, body, hash)
              else reply == Err(NotFound(id)) && View() == old(View())
    {
      var ok := WriteCell(id, BODY, Text(body));
      if !ok {
        return Err(NotFound(id));
      }
      ghost var s := View();
      assert s == SetField(old(View()), id, BODY, Text(body));
      reply := WriteField(id, BODY_HASH, Text(hash));
    }

    method UpdateAssignee(id: Id, agent: Option<string>) returns (reply: Reply<()>)
      requires Valid()
      modifies this`itemsBatches
      ensures Valid()
      ensures if old(Has(View(), id)) then reply == Ok(()) && View() == Assign(old(View()), id, agent)
              else reply == Err(NotFound(id)) && View() == old(View())
    {
      var ok := WriteCell(id, ASSIGNEE, Text(agent));
      reply := if ok then Ok(()) else Err(NotFound(id));
    }

    /** Appends a status change to the runs log. */
    method RecordRun(id: Id, from: Option<string>, to: string, agent: Option<string>, forced: bool,
                     reason: Option<string>)
      requires Valid()
      modifies this`runs, this`ticks
      ensures Valid() && View() == Record(old(View()), clock, id, from, to, agent, forced, reason)
    {
      var now := Now();
      runs := runs + [Run(id, from, to, now, agent, forced, reason)];
    }

    /** Rebuilds the batch with a new status and `updated_at` in one row. */
    method RewriteStatus(id: Id, b: nat, r: nat, to: string)
      requires Valid() && Has(View(), id)
      requires b < |itemsBatches| && r < itemsBatches[b].rows && Offset(itemsBatches, b) + r == Find(View().rows, id)
      modifies this`itemsBatches, this`ticks
      ensures Valid() && View() == UpdateField(old(View()), clock, id, STATUS, Text(Some(to)))
    {
      SetCellKeeps(View(), id, STATUS, Text(Some(to)));
      var now := Now();
      ReplaceCell(b, r, STATUS, Text(Some(to)));
      ReplaceCell(b, r, UPDATED_AT, Number(Some(now)));
    }

    /** Changes the status, logs the change, and clears the closure fields unless the new status is terminal. */
    method UpdateStatus(id: Id, to: string, agent: Option<string>, forced: bool, reason: Option<string>)
      returns (reply: Reply<string>)
      requires Valid()
      modifies this
      ensures Valid()
      ensures if old(Has(View(), id)) then
                reply == Ok(old(StatusOf(Get(View(), id)))) &&
                View() == Board.UpdateStatus(old(View()), clock, id, to, agent, forced, reason)
              else reply == Err(NotFound(id)) && View() == old(View())
    {
      var found, b, r, oldStatus := FindItem(id);
      if !found {
        return Err(NotFound(id));
      }
      RewriteStatus(id, b, r, to);
      RecordRun(id, Some(oldStatus), to, agent, forced, reason);
      if !IsTerminal(to) {
        var _ := WriteField(id, RESOLUTION, Text(None));
        var _ := WriteField(id, CLOSED_BY, Text(None));
      }
      return Ok(oldStatus);
    }

    // -------------------------------------------------------- list columns

    method UpdateListField(id: Id, col: nat, values: seq<string>) returns (reply: Reply<()>)
      requires Valid() && IsListColumn(col)
      modifies this`itemsBatches
      ensures Valid()
      ensures if old(Has(View(), id)) then reply == Ok(()) && View() == SetField(old(View()), id, col, List(Some(Stored(values))))
              else reply == Err(NotFound(id)) && View() == old(View())
    {
      var kept := [];
      for i := 0 to |values|
        invariant kept == Stored(values[..i])
      {
        assert values[..i + 1][..i] == values[..i];
        if !IsBlank(values[i]) {
          kept := kept + [values[i]];
        }
      }
      assert values[..|values|] == values;
      var ok := WriteCell(id, col, List(Some(kept)));
      reply := if ok then Ok(()) else Err(NotFound(id));
    }

    /** Replaces a whole list: tags, related items or dependencies. */
    method ReplaceList(id: Id, col: nat, values: seq<string>) returns (reply: Reply<()>)
      requires Valid() && IsListColumn(col)
      modifies this`itemsBatches, this`ticks
      ensures Valid()
      ensures if old(Has(View(), id)) then reply == Ok(()) && View() == UpdateList(old(View()), clock, id, col, values)
              else reply == Err(NotFound(id)) && View() == old(View())
    {
      reply := UpdateListField(id, col, values);
      if reply.Ok? {
        var _ := TouchUpdatedAt(id);
      }
    }

    method GetListField(id: Id, col: nat) returns (reply: Reply<seq<string>>)
      requires Valid() && IsListColumn(col)
      ensures reply == if Has(View(), id) then Ok(ListOf(Get(View(), id), col)) else Err(NotFound(id))
    {
      var item := GetItem(id);
      match item
      case Ok(row) => reply := Ok(ListOf(row, col));
      case Err(e) => reply := Err(e);
    }

    method AddToListField(id: Id, col: nat, value: string) returns (reply: Reply<()>)
      requires Valid() && IsListColumn(col)
      modifies this`itemsBatches, this`ticks
      ensures Valid()
      ensures if old(Has(View(), id)) then reply == Ok(()) && View() == AddToList(old(View()), clock, id, col, value)
              else reply == Err(NotFound(id)) && View() == old(View())
    {
      var current := GetListField(id, col);
      if current.Err? {
        return Err(current.error);
      }
      if value in current.value {
        return Ok(());
      }
      reply := ReplaceList(id, col, current.value + [value]);
    }

    /** Whether the value was there to be removed. */
    method RemoveFromListField(id: Id, col: nat, value: string) returns (reply: Reply<bool>)
      requires Valid() && IsListColumn(col)
      modifies this`itemsBatches, this`ticks
      ensures Valid()
      ensures if old(Has(View(), id)) then
                reply == Ok(value in old(ListOf(Get(View(), id), col))) &&
                View() == RemoveFromList(old(View()), clock, id, col, value)
              else reply == Err(NotFound(id)) && View() == old(View())
    {
      var current := GetListField(id, col);
      if current.Err? {
        return Err(current.error);
      }
      var next := Filter(current.value, v => v != value);
      FilterWithout(current.value, value);
      if |next| == |current.value| {
        return Ok(false);
      }
      var _ := ReplaceList(id, col, next);
      return Ok(true);
    }

    // -------------------------------------------------- create and delete

    /** Appends a new item and logs its creation. */
    method AppendItem(id: Id, input: Input)
      requires Valid()
      modifies this
      ensures Valid() && View() == AddItem(old(View()), clock, id, input)
    {
      var now := Now();
      AppendedRow(itemsBatches, NewRow(id, input, now));
      itemsBatches := itemsBatches + [Single(NewRow(id, input, now))];
      RecordRun(id, None, "backlog", None, false, None);
    }

    method CreateItem(input: Input) returns (id: Id)
      requires Valid()
      modifies this
      ensures Valid() && id == IdText(input.itemType, NextNumber(old(View()).rows))
      ensures View() == AddItem(old(View()), clock, id, input)
    {
      id := AllocateId(itemsBatches, input.itemType);
      AppendItem(id, input);
    }

    method CreateItemWithId(id: Id, input: Input) returns (reply: Reply<Id>)
      requires Valid()
      modifies this
      ensures Valid()
      ensures if old(Has(View(), id)) then reply == Err(DuplicateId(id)) && View() == old(View())
              else reply == Ok(id) && View() == AddItem(old(View()), clock, id, input)
    {
      var existing := GetItem(id);
      if existing.Ok? {
        return Err(DuplicateId(id));
      }
      AppendItem(id, input);
      return Ok(id);
    }

    /** Marks the row as deleted; rows are never removed. */
    method DeleteItem(id: Id) returns (reply: Reply<()>)
      requires Valid()
      modifies this`itemsBatches
      ensures Valid()
      ensures if old(Has(View(), id)) then reply == Ok(()) && View() == Delete(old(View()), id)
              else reply == Err(NotFound(id)) && View() == old(View())
    {
      var ok := WriteCell(id, DELETED, Flag(true));
      reply := if ok then Ok(()) else Err(NotFound(id));
    }

    method QueryItems(status: Option<string>, itemType: Option<string>, board: Option<string>, assignee: Option<string>)
      returns (results: seq<Row>)
      requires Valid()
      ensures results == Query(View().rows, status, itemType, board, assignee)
    {
      results := [];
      assert itemsBatches[..0] == [];
      for b := 0 to |itemsBatches|
        invariant results == Query(AllRows(itemsBatches[..b]), status, itemType, board, assignee)
      {
        results := QueryBatch(itemsBatches[b], status, itemType, board, assignee, AllRows(itemsBatches[..b]), results);
        assert itemsBatches[..b + 1][..b] == itemsBatches[..b];
      }
      assert itemsBatches[..|itemsBatches|] == itemsBatches;
    }

    // ------------------------------------------------------------- claims

    /** Refuses an unforced claim while another agent holds the item in progress. */
    method CheckExclusiveClaim(id: Id, agent: string, forced: bool) returns (reply: Reply<()>)
      requires Valid()
      ensures forced ==> reply == Ok(())
      ensures !forced && !Has(View(), id) ==> reply == Err(NotFound(id))
      ensures !forced && Has(View(), id) ==>
                if ClaimConflicts(View(), id, agent, forced) then
                  reply == Err(ClaimConflict(id, AssigneeOf(Get(View(), id)).value, agent))
                else reply == Ok(())
    {
      if forced {
        return Ok(());
      }
      var item := GetItem(id);
      if item.Err? {
        return Err(item.error);
      }
      var current := AssigneeOf(item.value);
      if StatusOf(item.value) == "in_progress" && current.Some? && current.value != agent {
        return Err(ClaimConflict(id, current.value, agent));
      }
      return Ok(());
    }

    /** The move command: guards first, then writes. `admitted` is the verdict of the transition and WIP checks. */
    method MoveItem(id: Id, to: string, agent: Option<string>, force: bool, resolution: Option<string>,
                    closedBy: Option<string>, admitted: bool) returns (reply: Reply<()>)
      requires Valid()
      modifies this
      ensures Valid()
      ensures reply.Ok? <==> old(CanMove(View(), id, to, agent, force, resolution, admitted))
      ensures reply.Ok? ==> View() == Move(old(View()), clock, id, to, agent, force, resolution, closedBy)
      ensures reply.Err? ==> View() == old(View()) &&
                             old(MoveRefusal(View(), id, to, agent, force, resolution, admitted)) == Some(reply.error)
    {
      var item := GetItem(id);
      if item.Err? {
        return Err(item.error);
      }
      if !ResolutionAllowed(resolution, to) {
        return Err(InvalidResolution(id));
      }
      if !force {
        if !admitted {
          return Err(NotAdmitted(id));
        }
      }
      if to == "in_progress" && agent.Some? {
        var claim := CheckExclusiveClaim(id, agent.value, force);
        if claim.Err? {
          return claim;
        }
      }
      ApplyMove(id, to, agent, force, resolution, closedBy);
      return Ok(());
    }

    /** Sets a closure field if a value is given. */
    method WriteOptional(id: Id, col: nat, value: Option<string>)
      requires Valid() && Has(View(), id) && (col == RESOLUTION || col == CLOSED_BY)
      modifies this`itemsBatches, this`ticks
      ensures Valid() && View() == OptionalField(old(View()), clock, id, col, value)
    {
      if value.Some? {
        var _ := WriteField(id, col, Text(value));
      }
    }

    method ApplyMove(id: Id, to: string, agent: Option<string>, force: bool, resolution: Option<string>,
                     closedBy: Option<string>)
      requires Valid() && Has(View(), id)
      modifies this
      ensures Valid() && View() == Move(old(View()), clock, id, to, agent, force, resolution, closedBy)
    {
      ghost var s0 := View();
      var _ := UpdateStatus(id, to, None, force, None);
      ghost var s1 := View();
      if agent.Some? {
        var _ := UpdateAssignee(id, agent);
      }
      ghost var s2 := View();
      assert s2 == if agent.Some? then Assign(s1, id, agent) else s1;
      WriteOptional(id, RESOLUTION, resolution);
      WriteOptional(id, CLOSED_BY, closedBy);
    }

    method ReleaseClaim(id: Id, to: string, agent: Option<string>, reason: string, attempts: int)
      requires Valid() && Has(View(), id)
      modifies this
      ensures Valid() && View() == Release(old(View()), clock, id, to, agent, reason, attempts)
    {
      var _ := UpdateStatus(id, to, agent, false, Some(reason));
      var _ := UpdateAssignee(id, None);
      var _ := WriteCell(id, ATTEMPT_COUNT, Number(Some(attempts)));
    }

    method RequeueItem(id: Id, agent: Option<string>, session: Option<string>, reason: string, cap: int,
                       deadLetterTag: string) returns (reply: Reply<Outcome>)
      requires Valid()
      modifies this
      ensures Valid()
      ensures reply.Ok? <==> old(CanRequeue(View(), id, cap))
      ensures reply.Ok? ==>
                var attempts := Increment(AttemptsOf(old(Get(View(), id))));
                && reply.value == Outcome(attempts, if attempts >= cap then "blocked" else "backlog", attempts >= cap)
                && View() == Requeue(old(View()), clock, id, agent, session, reason, cap, deadLetterTag)
      ensures reply.Err? ==> View() == old(View())
      ensures reply.Err? ==> reply.error == if cap >= 1 && !old(Has(View(), id)) then NotFound(id) else InvalidRequeue(id)
    {
      if cap < 1 {
        return Err(InvalidRequeue(id));
      }
      var item := GetItem(id);
      if item.Err? {
        return Err(item.error);
      }
      if StatusOf(item.value) != "in_progress" {
        return Err(InvalidRequeue(id));
      }
      var attempts := Increment(AttemptsOf(item.value));
      var dead := attempts >= cap;
      var to := if dead then "blocked" else "backlog";
      ReleaseClaim(id, to, agent, RequeueReason(attempts, session, reason), attempts);
      if dead {
        var _ := AddToListField(id, TAGS, deadLetterTag);
      }
      return Ok(Outcome(attempts, to, dead));
    }

    // ------------------------------------------------------- ratification

    /** Looks at one row, the `n`-th of all. */
    method PendingAt(b: nat, r: nat, phase: string, targets0: seq<Target>, ghost s: State, ghost n: nat)
      returns (reply: Reply<seq<Target>>)
      requires Valid() && s == View() && b < |itemsBatches| && r < itemsBatches[b].rows && n == Offset(itemsBatches, b) + r
      requires n < |s.rows| && ScanReply(s, phase, n, Ok(targets0))
      ensures ScanReply(s, phase, n + 1, reply)
    {
      RowPosition(itemsBatches, b, r);
      TargetsStep(s, phase, n);
      var id := itemsBatches[b].columns[ID][r].text.value;
      assert id == IdOf(s.rows[n]);
      var tags := GetListField(id, TAGS);
      if tags.Err? {
        return Err(tags.error);
      }
      return Ok(targets0 + if IsPending(tags.value, phase) then [Target(id, tags.value)] else []);
    }

    /** Adds the targets among the rows of one batch. */
    method PendingInBatch(b: nat, phase: string, targets0: seq<Target>, ghost s: State, ghost start: nat)
      returns (reply: Reply<seq<Target>>)
      requires Valid() && s == View() && b < |itemsBatches| && start == Offset(itemsBatches, b)
      requires start + itemsBatches[b].rows <= |s.rows| && ScanReply(s, phase, start, Ok(targets0))
      ensures ScanReply(s, phase, start + itemsBatches[b].rows, reply)
    {
      var r, rows := 0, itemsBatches[b].rows;
      ghost var n, end := start, start + rows;
      reply := Ok(targets0);
      while r < rows && reply.Ok?
        invariant r <= rows && n == start + r
        invariant ScanReply(s, phase, if reply.Ok? then n else end, reply)
      {
        reply := PendingAt(b, r, phase, reply.value, s, n);
        r, n := r + 1, n + 1;
        if reply.Err? {
          NotFoundStays(s, phase, n, end, reply);
        }
      }
    }

    /** Pass 1 and pass 3: the items awaiting ratification, by row; fails on a row whose id finds no live row. */
    method PendingTargets(phase: string) returns (reply: Reply<seq<Target>>)
      requires Valid()
      ensures reply.Ok? <==> AllRowsFound(View())
      ensures reply.Ok? ==> reply.value == TargetsIn(View(), phase, |View().rows|)
    {
      reply := Ok([]);
      ghost var s, n := View(), 0;
      assert itemsBatches[..0] == [];
      for b := 0 to |itemsBatches|
        invariant n == Offset(itemsBatches, b) && reply.Ok? && ScanReply(s, phase, n, reply)
      {
        OffsetStep(itemsBatches, b);
        reply := PendingInBatch(b, phase, reply.value, s, n);
        n := n + itemsBatches[b].rows;
        if reply.Err? {
          NotFoundStays(s, phase, n, |s.rows|, reply);
          return;
        }
      }
      assert itemsBatches[..|itemsBatches|] == itemsBatches;
    }

    method StripTarget(t: Target)
      requires Valid() && Has(View(), t.id)
      modifies this`itemsBatches, this`ticks
      ensures Valid() && View() == Strip(old(View()), clock, t)
    {
      var _ := ReplaceList(t.id, TAGS, Filter(t.tags, x => x != PENDING));
    }

    method RatifyTarget(t: Target) returns (started: bool)
      requires Valid() && Has(View(), t.id)
      modifies this
      ensures Valid() && View() == RatifyOne(old(View()), clock, t)
      ensures started == NeedsStart(Strip(old(View()), clock, t), t.id)
    {
      StripTarget(t);
      started := false;
      if IsVoyageId(t.id) {
        var item := GetItem(t.id);
        if StatusOf(item.value) != "in_progress" {
          var _ := UpdateStatus(t.id, "in_progress", Some("ratify"), false, Some("ratified"));
          started := true;
        }
      }
    }

    /** Pass 2: strips every target and starts the voyages among them. */
    method StripTargets(targets: seq<Target>) returns (stripped: seq<Id>, voyagesStarted: seq<Id>)
      requires Valid() && AllHave(View(), targets)
      modifies this
      ensures Valid() && View() == RatifyAll(old(View()), clock, targets)
      ensures stripped == TargetIds(targets) && voyagesStarted == StartedBy(old(View()), clock, targets)
    {
      stripped, voyagesStarted := [], [];
      ghost var s := View();
      assert targets[..0] == [];
      for i := 0 to |targets|
        invariant Valid() && AllHave(s, targets[..i]) && View() == RatifyAll(s, clock, targets[..i])
        invariant stripped == TargetIds(targets[..i]) && voyagesStarted == StartedBy(s, clock, targets[..i])
      {
        TargetIdsStep(targets, i);
        RatifyStep(s, clock, targets, i);
        var started := RatifyTarget(targets[i]);
        stripped := stripped + [targets[i].id];
        if started {
          voyagesStarted := voyagesStarted + [targets[i].id];
        }
      }
      assert targets[..|targets|] == targets;
    }

    method RatifyPhase(phase: string) returns (reply: Reply<RatifyReport>)
      requires Valid()
      modifies this
      ensures Valid()
      ensures reply.Ok? <==> old(AllRowsFound(View()))
      ensures reply.Ok? ==>
                var targets := TargetsIn(old(View()), phase, |old(View()).rows|);
                && View() == Ratify(old(View()), clock, phase) && AllRowsFound(View())
                && reply.value.stripped == TargetIds(targets)
                && reply.value.voyagesStarted == StartedBy(old(View()), clock, targets)
                && reply.value.remainingPending == 0
      ensures reply.Err? ==> View() == old(View())
    {
      var targets := PendingTargets(phase);
      if targets.Err? {
        return Err(targets.error);
      }
      var stripped, started := StripTargets(targets.value);
      RatifyIsTotal(old(View()), clock, phase);
      var remaining := PendingTargets(phase);
      return Ok(RatifyReport(stripped, started, |remaining.value|));
    }
  }

  lemma TargetsStep(s: State, phase: string, n: nat)
    requires n < |s.rows| && RowsFound(s, n)
    ensures RowsFound(s, n + 1) <==> Has(s, IdOf(s.rows[n]))
    ensures Has(s, IdOf(s.rows[n])) ==>
              var id, tags := IdOf(s.rows[n]), ListOf(Get(s, IdOf(s.rows[n])), TAGS);
              TargetsIn(s, phase, n + 1) == TargetsIn(s, phase, n) + if IsPending(tags, phase) then [Target(id, tags)] else []
  {
    assert RowsFound(s, n + 1) ==> FoundAt(s, n);
  }

  /** The outcome of a scan of the first `n` rows: an error as soon as one of them is not found. */
  ghost predicate ScanReply(s: State, phase: string, n: nat, reply: Reply<seq<Target>>) {
    && n <= |s.rows|
    && (reply.Ok? <==> RowsFound(s, n))
    && (reply.Ok? ==> reply.value == TargetsIn(s, phase, n))
  }

  lemma NotFoundStays(s: State, phase: string, m: nat, n: nat, reply: Reply<seq<Target>>)
    requires m <= n <= |s.rows| && ScanReply(s, phase, m, reply) && reply.Err?
    ensures ScanReply(s, phase, n, reply)
  {
    var k :| 0 <= k < m && !FoundAt(s, k);
    assert !FoundAt(s, k);
  }

  lemma TargetIdsStep(targets: seq<Target>, i: nat)
    requires i < |targets|
    ensures TargetIds(targets[..i + 1]) == TargetIds(targets[..i]) + [targets[i].id]
  {
  }

  lemma AllHavePrefix(s: State, targets: seq<Target>, i: nat)
    requires i <= |targets| && AllHave(s, targets)
    ensures AllHave(s, targets[..i])
  {
  }

  /** One more target, as the loop of pass 2 takes it. */
  lemma RatifyStep(s: State, clock: Clock, targets: seq<Target>, i: nat)
    requires i < |targets| && AllHave(s, targets)
    ensures AllHave(s, targets[..i]) && AllHave(s, targets[..i + 1])
    ensures var before, t := RatifyAll(s, clock, targets[..i]), targets[i];
            && Has(before, t.id)
            && RatifyAll(s, clock, targets[..i + 1]) == RatifyOne(before, clock, t)
            && StartedBy(s, clock, targets[..i + 1]) ==
                 StartedBy(s, clock, targets[..i]) + (if NeedsStart(Strip(before, clock, t), t.id) then [t.id] else [])
  {
    AllHavePrefix(s, targets, i);
    AllHavePrefix(s, targets, i + 1);
    assert targets[..i + 1] == targets[..i] + [targets[i]];
    RatifyAllSnoc(s, clock, targets[..i], targets[i]);
    assert targets[..i + 1][..i] == targets[..i];
    StartedBySnoc(s, clock, targets[..i + 1]);
  }

  lemma RatifyAllSnoc(s: State, clock: Clock, before: seq<Target>, t: Target)
    requires AllHave(s, before) && AllHave(s, before + [t])
    ensures Has(RatifyAll(s, clock, before), t.id)
    ensures RatifyAll(s, clock, before + [t]) == RatifyOne(RatifyAll(s, clock, before), clock, t)
  {
    var all := before + [t];
    assert all[..|all| - 1] == before && all[|all| - 1] == t;
    assert Has(s, all[|before|].id);
  }

  lemma QueryStep(before: seq<Row>, rows: seq<Row>, r: nat, status: Option<string>, itemType: Option<string>,
                  board: Option<string>, assignee: Option<string>)
    requires r < |rows|
    ensures Query(before + rows[..r + 1], status, itemType, board, assignee) ==
            Query(before + rows[..r], status, itemType, board, assignee) +
              if Matches(rows[r], status, itemType, board, assignee) then [rows[r]] else []
  {
    assert (before + rows[..r + 1])[..|before| + r] == before + rows[..r];
  }

  method QueryBatch(batch: Batch, status: Option<string>, itemType: Option<string>, board: Option<string>,
                    assignee: Option<string>, ghost before: seq<Row>, results0: seq<Row>) returns (results: seq<Row>)
    requires ValidBatch(batch) && results0 == Query(before, status, itemType, board, assignee)
    ensures results == Query(before + RowsOf(batch), status, itemType, board, assignee)
  {
    results := results0;
    ghost var rows := RowsOf(batch);
    assert before + rows[..0] == before;
    for r := 0 to batch.rows
      invariant results == Query(before + rows[..r], status, itemType, board, assignee)
    {
      QueryStep(before, rows, r, status, itemType, board, assignee);
      var row := seq(WIDTH, c requires 0 <= c < WIDTH && |batch.columns| == WIDTH && r < |batch.columns[c]| => batch.columns[c][r]);
      assert row == rows[r];
      if Matches(row, status, itemType, board, assignee) {
        results := results + [row];
      }
    }
    assert rows[..batch.rows] == rows;
  }

  /** All columns of a batch, one of them with one cell replaced. */
  method RebuildBatch(batch: Batch, r: nat, col: nat, cell: Cell) returns (rebuilt: Batch)
    requires ValidBatch(batch) && r < batch.rows && col < WIDTH && Fits(col, cell)
    ensures rebuilt == Replaced(batch, r, col, cell)
  {
    var columns := [];
    for ci := 0 to |batch.columns|
      invariant columns == if ci <= col then batch.columns[..ci] else batch.columns[..ci][col := batch.columns[col][r := cell]]
    {
      if ci == col {
        columns := columns + [RebuildColumn(batch.columns[ci], r, cell)];
      } else {
        columns := columns + [batch.columns[ci]];
      }
    }
    assert columns == batch.columns[col := batch.columns[col][r := cell]];
    rebuilt := Batch(batch.rows, columns);
  }

  function RebuildColumn(column: seq<Cell>, r: nat, cell: Cell): seq<Cell>
    requires r < |column|
  {
    column[r := cell]
  }

  lemma OffsetStep(bs: seq<Batch>, b: nat)
    requires ValidBatches(bs) && b < |bs|
    ensures Offset(bs, b + 1) == Offset(bs, b) + bs[b].rows && Offset(bs, b + 1) <= |AllRows(bs)|
  {
    assert bs[..b + 1][..b] == bs[..b];
    AllRowsPrefix(bs, b + 1);
  }

  lemma {:induction false} AllRowsPrefix(bs: seq<Batch>, b: nat)
    requires ValidBatches(bs) && b <= |bs|
    ensures Offset(bs, b) <= |AllRows(bs)|
  {
    if b < |bs| {
      assert bs[..|bs| - 1][..b] == bs[..b];
      AllRowsPrefix(bs[..|bs| - 1], b);
    } else {
      assert bs[..b] == bs;
    }
  }
}
