/** Runs of the store: every operation as a step, and what all runs keep. */
module History {
  import opened Board
  import opened Columns
  import opened Effects
  import opened IdAlloc
  import opened Ratification
  import opened Wrappers

  /** The store's operations; `admitted` stands for the verdict of the transition and WIP checks. */
  datatype Op =
    | Create(input: Input)
    | CreateWithId(id: Id, input: Input)
    | SetStatus(id: Id, to: string, agent: Option<string>, forced: bool, reason: Option<string>)
    | Edit(id: Id, col: nat, cell: Cell)
    | EditBody(id: Id, body: Option<string>, hash: Option<string>)
    | EditList(id: Id, col: nat, values: seq<string>)
    | AddEntry(id: Id, col: nat, value: string)
    | RemoveEntry(id: Id, col: nat, value: string)
    | MoveTo(id: Id, to: string, agent: Option<string>, force: bool, resolution: Option<string>,
             closedBy: Option<string>, admitted: bool)
    | RequeueOf(id: Id, agent: Option<string>, session: Option<string>, failure: string, cap: int, deadLetterTag: string)
    | RatifyOf(phase: string)
    | Remove(id: Id)

  /** Columns with an update of their own that no protocol depends on. */
  predicate Editable(col: nat) {
    col in {TITLE, PRIORITY, RESOLUTION, CLOSED_BY, PRIORITY_RANK}
  }

  /** A step that is not refused. */
  predicate Accepted(s: State, op: Op) {
    match op
    case Create(_) => true
    case CreateWithId(id, _) => !Has(s, id)
    case SetStatus(id, _, _, _, _) => Has(s, id)
    case Edit(id, col, cell) => Has(s, id) && Editable(col) && Fits(col, cell)
    case EditBody(id, _, _) => Has(s, id)
    case EditList(id, col, _) => Has(s, id) && IsListColumn(col)
    case AddEntry(id, col, _) => Has(s, id) && IsListColumn(col)
    case RemoveEntry(id, col, _) => Has(s, id) && IsListColumn(col)
    case MoveTo(id, to, agent, force, resolution, _, admitted) => CanMove(s, id, to, agent, force, resolution, admitted)
    case RequeueOf(id, _, _, _, cap, _) => CanRequeue(s, id, cap)
    case RatifyOf(_) => AllRowsFound(s)
    case Remove(id) => Has(s, id)
  }

  ghost function NewId(s: State, input: Input): Id {
    IdText(input.itemType, NextNumber(s.rows))
  }

  /** One step; a refused call changes nothing. */
  ghost function Step(s: State, clock: Clock, op: Op): State {
    if !Accepted(s, op) then s else
      match op
      case Create(input) => AddItem(s, clock, NewId(s, input), input)
      case CreateWithId(id, input) => AddItem(s, clock, id, input)
      case SetStatus(id, to, agent, forced, reason) => UpdateStatus(s, clock, id, to, agent, forced, reason)
      case Edit(id, col, cell) => UpdateField(s, clock, id, col, cell)
      case EditBody(id, body, hash) => UpdateBody(s, clock, id, body, hash)
      case EditList(id, col, values) => UpdateList(s, clock, id, col, values)
      case AddEntry(id, col, value) => AddToList(s, clock, id, col, value)
      case RemoveEntry(id, col, value) => RemoveFromList(s, clock, id, col, value)
      case MoveTo(id, to, agent, force, resolution, closedBy, _) =>
        Move(s, clock, id, to, agent, force, resolution, closedBy)
      case RequeueOf(id, agent, session, reason, cap, tag) => Requeue(s, clock, id, agent, session, reason, cap, tag)
      case RatifyOf(phase) => Ratify(s, clock, phase)
      case Remove(id) => Delete(s, id)
  }

  lemma RequeueStep(s: State, clock: Clock, op: Op)
    requires op.RequeueOf? && Accepted(s, op)
    ensures CanRequeue(s, op.id, op.cap)
    ensures Step(s, clock, op) == Requeue(s, clock, op.id, op.agent, op.session, op.failure, op.cap, op.deadLetterTag)
  {
  }

  const EMPTY: State := State([], [], 0)

  ghost function After(s: State, clock: Clock, ops: seq<Op>): State {
    if ops == [] then s else Step(After(s, clock, ops[..|ops| - 1]), clock, ops[|ops| - 1])
  }

  lemma AfterSnoc(s: State, clock: Clock, ops: seq<Op>, op: Op)
    ensures After(s, clock, ops + [op]) == Step(After(s, clock, ops), clock, op)
  {
    assert (ops + [op])[..|ops|] == ops;
  }

  lemma {:induction false} AfterConcat(s: State, clock: Clock, ops: seq<Op>, more: seq<Op>)
    ensures After(s, clock, ops + more) == After(After(s, clock, ops), clock, more)
  {
    if more == [] {
      assert ops + more == ops;
    } else {
      var before, op := more[..|more| - 1], more[|more| - 1];
      AfterConcat(s, clock, ops, before);
      AfterSnoc(s, clock, ops + before, op);
      assert ops + more == ops + before + [op];
    }
  }

  /** A step gives the id of a live item to a new one. */
  ghost predicate Collides(s: State, op: Op) {
    op.Create? && Has(s, NewId(s, op.input))
  }

  ghost predicate NeverCollides(s: State, clock: Clock, ops: seq<Op>) {
    forall k {:trigger ops[k]} :: 0 <= k < |ops| ==> !Collides(After(s, clock, ops[..k]), ops[k])
  }

  lemma NeverCollidesBefore(s: State, clock: Clock, ops: seq<Op>)
    requires ops != [] && NeverCollides(s, clock, ops)
    ensures var before := ops[..|ops| - 1];
            NeverCollides(s, clock, before) && !Collides(After(s, clock, before), ops[|ops| - 1])
  {
    var before := ops[..|ops| - 1];
    forall k | 0 <= k < |before|
      ensures !Collides(After(s, clock, before[..k]), before[k])
    {
      assert before[..k] == ops[..k] && before[k] == ops[k];
    }
  }

  // ------------------------------------------------------------- the frame

  /** An operation on one existing item that keeps it. */
  predicate IsWrite(op: Op) {
    !op.Create? && !op.CreateWithId? && !op.RatifyOf? && !op.Remove?
  }

  /** The columns that an operation may change in the rows it is about. */
  function Written(op: Op): set<nat> {
    match op
    case SetStatus(_, _, _, _, _) => STATUS_COLUMNS
    case Edit(_, col, _) => {col, UPDATED_AT}
    case EditBody(_, _, _) => {BODY, BODY_HASH, UPDATED_AT}
    case EditList(_, col, _) => {col, UPDATED_AT}
    case AddEntry(_, col, _) => {col, UPDATED_AT}
    case RemoveEntry(_, col, _) => {col, UPDATED_AT}
    case MoveTo(_, _, _, _, _, _, _) => MOVE_COLUMNS
    case RequeueOf(_, _, _, _, _, _) => REQUEUE_COLUMNS
    case RatifyOf(_) => RATIFY_COLUMNS
    case _ => {}
  }

  /** Whether an operation may change column `c` of item `x`. */
  predicate Writes(op: Op, x: Id, c: nat) {
    (op.RatifyOf? || (IsWrite(op) && op.id == x)) && c in Written(op)
  }

  lemma WriteTouches(s: State, clock: Clock, op: Op)
    requires IsWrite(op) && Accepted(s, op)
    ensures Has(s, op.id) && Touches(s, Step(s, clock, op), op.id, Written(op))
  {
    match op
    case SetStatus(id, to, agent, forced, reason) => UpdateStatusTouches(s, clock, id, to, agent, forced, reason);
    case Edit(id, col, cell) => UpdateFieldTouches(s, clock, id, col, cell);
    case EditBody(id, body, hash) => UpdateBodyTouches(s, clock, id, body, hash);
    case EditList(id, col, values) => UpdateFieldTouches(s, clock, id, col, List(Some(Stored(values))));
    case AddEntry(id, col, value) => AddToListTouches(s, clock, id, col, value);
    case RemoveEntry(id, col, value) => RemoveFromListTouches(s, clock, id, col, value);
    case MoveTo(id, to, agent, force, resolution, closedBy, _) =>
      MoveTouches(s, clock, id, to, agent, force, resolution, closedBy);
    case RequeueOf(id, agent, session, failure, cap, tag) =>
      RequeueTouches(s, clock, id, agent, session, failure, cap, tag);
  }

  /** A created item is found under its id, unless that id is in use; everything else is found as before. */
  lemma AddItemGets(s: State, clock: Clock, id: Id, input: Input, x: Id)
    ensures var s' := AddItem(s, clock, id, input);
            && (Has(s', x) <==> x == id || Has(s, x))
            && (Has(s, x) ==> Get(s', x) == Get(s, x))
            && (x == id && !Has(s, x) ==> Get(s', x) == NewRow(id, input, clock(s.ticks)))
  {
    var s' := AddItem(s, clock, id, input);
    assert s'.rows[..|s'.rows| - 1] == s.rows;
  }

  /** Deleting another item leaves an item as it is. */
  lemma DeleteOther(s: State, id: Id, x: Id)
    requires Has(s, id) && x != id
    ensures Has(Delete(s, id), x) <==> Has(s, x)
    ensures Has(s, x) ==> Get(Delete(s, id), x) == Get(s, x)
  {
    var rows, rows' := s.rows, Delete(s, id).rows;
    FindFirst(rows, x);
    forall j | 0 <= j < |rows|
      ensures IsLive(rows'[j], x) <==> IsLive(rows[j], x)
    {
    }
    FindIs(rows', x, Find(rows, x));
  }

  /** `x` is still there, and so is its value in column `c` unless the step writes it. */
  ghost predicate Framed(s: State, s': State, op: Op, x: Id, c: nat)
    requires Has(s, x) && c < WIDTH
  {
    Has(s', x) && (!Writes(op, x, c) ==> Get(s', x)[c] == Get(s, x)[c])
  }

  lemma WriteFrame(s: State, clock: Clock, op: Op, x: Id, c: nat)
    requires IsWrite(op) && Accepted(s, op) && Has(s, x) && c < WIDTH
    ensures Framed(s, Step(s, clock, op), op, x, c)
  {
    WriteTouches(s, clock, op);
    TouchesCell(s, Step(s, clock, op), op.id, Written(op), x, c);
  }

  lemma TouchesCell(s: State, s': State, id: Id, cols: set<nat>, x: Id, c: nat)
    requires Touches(s, s', id, cols) && Has(s, x) && c < WIDTH
    ensures Has(s', x) && (!(x == id && c in cols) ==> Get(s', x)[c] == Get(s, x)[c])
  {
  }

  lemma RatifyFrame(s: State, clock: Clock, op: Op, x: Id, c: nat)
    requires op.RatifyOf? && Accepted(s, op) && Has(s, x) && c < WIDTH
    ensures Framed(s, Step(s, clock, op), op, x, c)
  {
    RatifyRow(s, clock, op.phase, x);
    RatifiedCells(s, Ratify(s, clock, op.phase), op.phase, x, c);
  }

  lemma RatifiedCells(s: State, s': State, phase: string, x: Id, c: nat)
    requires Has(s, x) && Has(s', x) && RatifiedItem(s, s', phase, x) && c < WIDTH
    ensures c !in RATIFY_COLUMNS ==> Get(s', x)[c] == Get(s, x)[c]
  {
  }

  lemma StoreFrame(s: State, clock: Clock, op: Op, x: Id, c: nat)
    requires op.Create? || op.CreateWithId? || (op.Remove? && op.id != x)
    requires Accepted(s, op) && Has(s, x) && c < WIDTH
    ensures Framed(s, Step(s, clock, op), op, x, c)
  {
    match op
    case Create(input) => AddItemGets(s, clock, NewId(s, input), input, x);
    case CreateWithId(id, input) => AddItemGets(s, clock, id, input, x);
    case Remove(id) => DeleteOther(s, id, x);
  }

  /** A step that is not a deletion of `x` keeps `x` and every cell of it that the step does not write. */
  lemma StepFrame(s: State, clock: Clock, op: Op, x: Id, c: nat)
    requires Has(s, x) && c < WIDTH && !(op.Remove? && op.id == x)
    ensures Framed(s, Step(s, clock, op), op, x, c)
  {
    if !Accepted(s, op) {
    } else if IsWrite(op) {
      WriteFrame(s, clock, op, x, c);
    } else if op.RatifyOf? {
      RatifyFrame(s, clock, op, x, c);
    } else {
      StoreFrame(s, clock, op, x, c);
    }
  }

  /** Over a run, a cell that no step writes keeps its value, and its item stays. */
  lemma {:induction false} UntouchedCellsStay(s: State, clock: Clock, ops: seq<Op>, x: Id, c: nat)
    requires Has(s, x) && c < WIDTH
    requires forall op :: op in ops ==> !(op.Remove? && op.id == x) && !Writes(op, x, c)
    ensures Has(After(s, clock, ops), x) && Get(After(s, clock, ops), x)[c] == Get(s, x)[c]
  {
    if ops != [] {
      var before, op := ops[..|ops| - 1], ops[|ops| - 1];
      UntouchedCellsStay(s, clock, before, x, c);
      StepFrame(After(s, clock, before), clock, op, x, c);
    }
  }

  /** What a creation fixes for good: id, type, board and time of creation. */
  const FIXED_COLUMNS: set<nat> := {ID, ITEM_TYPE, BOARD, CREATED}

  lemma FixedIsNotWritten(s: State, op: Op, x: Id, c: nat)
    requires Accepted(s, op) && c in FIXED_COLUMNS
    ensures !Writes(op, x, c)
  {
  }

  /** No run changes a fixed cell of an item that it does not delete. */
  lemma {:induction false} FixedCellsStay(s: State, clock: Clock, ops: seq<Op>, x: Id, c: nat)
    requires Has(s, x) && c in FIXED_COLUMNS
    requires forall op :: op in ops ==> !(op.Remove? && op.id == x)
    ensures Has(After(s, clock, ops), x) && Get(After(s, clock, ops), x)[c] == Get(s, x)[c]
  {
    if ops != [] {
      var before, op := ops[..|ops| - 1], ops[|ops| - 1];
      var s1 := After(s, clock, before);
      FixedCellsStay(s, clock, before, x, c);
      if Accepted(s1, op) {
        FixedIsNotWritten(s1, op, x, c);
        StepFrame(s1, clock, op, x, c);
      }
    }
  }

  // ------------------------------------------------------- one row per item

  lemma AddItemUnique(s: State, clock: Clock, id: Id, input: Input)
    requires UniqueLive(s.rows) && !Has(s, id)
    ensures UniqueLive(AddItem(s, clock, id, input).rows)
  {
    FindFirst(s.rows, id);
    assert forall k :: 0 <= k < |s.rows| ==> !IsLive(s.rows[k], id);
  }

  lemma DeleteUnique(s: State, id: Id)
    requires UniqueLive(s.rows) && Has(s, id)
    ensures UniqueLive(Delete(s, id).rows) && !Has(Delete(s, id), id)
  {
    var rows, rows', k := s.rows, Delete(s, id).rows, Find(s.rows, id);
    forall j | 0 <= j < |rows|
      ensures !IsLive(rows'[j], id)
    {
      assert j < k || k < j || j == k;
    }
    FindIs(rows', id, |rows'|);
  }

  lemma KeepsUnique(s: State, s': State)
    requires UniqueLive(s.rows) && Keeps(s, s')
    ensures UniqueLive(s'.rows)
  {
  }

  lemma StepKeepsUnique(s: State, clock: Clock, op: Op)
    requires UniqueLive(s.rows) && !Collides(s, op)
    ensures UniqueLive(Step(s, clock, op).rows)
  {
    if Accepted(s, op) {
      match op
      case Create(input) => AddItemUnique(s, clock, NewId(s, input), input);
      case CreateWithId(id, input) => AddItemUnique(s, clock, id, input);
      case RatifyOf(phase) => KeepsUnique(s, Ratify(s, clock, phase));
      case Remove(id) => DeleteUnique(s, id);
      case _ => WriteTouches(s, clock, op); KeepsUnique(s, Step(s, clock, op));
    }
  }
}
