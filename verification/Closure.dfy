/** The closure fields do not outlive a reopening: an item that is not in a terminal status has none, with one exception. */
module Closure {
  import opened Board
  import opened Columns
  import opened Effects
  import opened History
  import opened Ratification
  import opened Wrappers

  predicate IsClosureField(c: nat) {
    c == RESOLUTION || c == CLOSED_BY
  }

  /** If the item exists and is open, its closure field is null. */
  ghost predicate Cleared(s: State, x: Id, c: nat)
    requires IsClosureField(c)
  {
    Has(s, x) && !IsTerminal(StatusOf(Get(s, x))) ==> Get(s, x)[c] == Text(None)
  }

  /** Neither writes the field directly, nor names what closes an item while moving it to an open status. */
  predicate Careful(op: Op, c: nat) {
    && !(op.Edit? && op.col == c)
    && (op.MoveTo? && c == CLOSED_BY ==> op.closedBy.None? || IsTerminal(op.to))
  }

  lemma StatusChangeClears(s: State, clock: Clock, op: Op, c: nat)
    requires op.SetStatus? || op.MoveTo? || op.RequeueOf?
    requires IsClosureField(c) && Careful(op, c) && Accepted(s, op)
    ensures Cleared(Step(s, clock, op), op.id, c)
  {
    match op
    case SetStatus(id, to, agent, forced, reason) => UpdateStatusTouches(s, clock, id, to, agent, forced, reason);
    case MoveTo(id, to, agent, force, resolution, closedBy, _) =>
      MoveCloses(s, clock, id, to, agent, force, resolution, closedBy);
    case RequeueOf(id, agent, session, failure, cap, tag) =>
      RequeueClears(s, clock, id, agent, session, failure, cap, tag);
  }

  lemma RatifiedClears(id: Id, tags: seq<string>, r: Row, r': Row, c: nat)
    requires IsClosureField(c) && Ratified(id, tags, r, r') && (IsTerminal(StatusOf(r)) || r[c] == Text(None))
    ensures IsTerminal(StatusOf(r')) || r'[c] == Text(None)
  {
    if !Waiting(id, r) {
      assert r'[STATUS] == r[STATUS] && r'[c] == r[c];
    }
  }

  lemma RatifiedItemClears(s: State, s': State, phase: string, x: Id, c: nat)
    requires IsClosureField(c) && Cleared(s, x, c) && Has(s, x) && Has(s', x) && RatifiedItem(s, s', phase, x)
    ensures Cleared(s', x, c)
  {
    if Pending(s, x, phase) {
      RatifiedClears(x, ListOf(Get(s, x), TAGS), Get(s, x), Get(s', x), c);
    }
  }

  lemma RatifyClears(s: State, clock: Clock, op: Op, x: Id, c: nat)
    requires op.RatifyOf? && IsClosureField(c) && Accepted(s, op) && Cleared(s, x, c) && Has(s, x)
    ensures Cleared(Step(s, clock, op), x, c)
  {
    RatifyRow(s, clock, op.phase, x);
    RatifiedItemClears(s, Ratify(s, clock, op.phase), op.phase, x, c);
  }

  lemma FrameClears(s: State, clock: Clock, op: Op, x: Id, c: nat)
    requires IsClosureField(c) && Cleared(s, x, c) && Has(s, x) && !(op.Remove? && op.id == x)
    requires !Writes(op, x, STATUS) && !Writes(op, x, c)
    ensures Cleared(Step(s, clock, op), x, c)
  {
    StepFrame(s, clock, op, x, STATUS);
    StepFrame(s, clock, op, x, c);
  }

  lemma CreatedClears(s: State, clock: Clock, id: Id, input: Input, x: Id, c: nat)
    requires IsClosureField(c) && !Has(s, x)
    ensures Cleared(AddItem(s, clock, id, input), x, c)
  {
    AddItemGets(s, clock, id, input, x);
    assert NewRow(id, input, clock(s.ticks))[c] == Text(None);
  }

  /** An item that is not there can only be created, with both fields null. */
  lemma AbsentClears(s: State, clock: Clock, op: Op, x: Id, c: nat)
    requires IsClosureField(c) && !Has(s, x)
    ensures Cleared(Step(s, clock, op), x, c)
  {
    if Accepted(s, op) {
      if op.Create? {
        CreatedClears(s, clock, NewId(s, op.input), op.input, x, c);
      } else if op.CreateWithId? {
        CreatedClears(s, clock, op.id, op.input, x, c);
      } else {
        StaysAbsent(s, clock, op, x);
      }
    }
  }

  lemma StaysAbsent(s: State, clock: Clock, op: Op, x: Id)
    requires !Has(s, x) && Accepted(s, op) && !op.Create? && !op.CreateWithId?
    ensures !Has(Step(s, clock, op), x)
  {
    if op.Remove? {
      DeleteOther(s, op.id, x);
    } else if op.RatifyOf? {
      assert Keeps(s, Ratify(s, clock, op.phase));
    } else {
      WriteTouches(s, clock, op);
    }
  }

  lemma StepClears(s: State, clock: Clock, op: Op, x: Id, c: nat)
    requires IsClosureField(c) && Cleared(s, x, c) && Careful(op, c) && UniqueLive(s.rows)
    ensures Cleared(Step(s, clock, op), x, c)
  {
    if Accepted(s, op) {
      if !Has(s, x) {
        AbsentClears(s, clock, op, x, c);
      } else if op.Remove? && op.id == x {
        DeleteUnique(s, x);
      } else if (op.SetStatus? || op.MoveTo? || op.RequeueOf?) && op.id == x {
        StatusChangeClears(s, clock, op, c);
      } else if op.RatifyOf? {
        RatifyClears(s, clock, op, x, c);
      } else {
        FrameClears(s, clock, op, x, c);
      }
    }
  }

  /** After every run of such steps without collision, an open item has no resolution, and nothing recorded as having closed it. */
  lemma {:induction false} OpenItemsAreCleared(clock: Clock, ops: seq<Op>, x: Id, c: nat)
    requires IsClosureField(c) && NeverCollides(EMPTY, clock, ops) && forall op :: op in ops ==> Careful(op, c)
    ensures Cleared(After(EMPTY, clock, ops), x, c) && UniqueLive(After(EMPTY, clock, ops).rows)
  {
    if ops != [] {
      var before, op := ops[..|ops| - 1], ops[|ops| - 1];
      NeverCollidesBefore(EMPTY, clock, ops);
      OpenItemsAreCleared(clock, before, x, c);
      StepClears(After(EMPTY, clock, before), clock, op, x, c);
      StepKeepsUnique(After(EMPTY, clock, before), clock, op);
    }
  }

  /** The exception: a move that names what closed the item leaves that name on it, even where the target is open. */
  lemma MoveClearsUnlessNamed(s: State, clock: Clock, op: Op)
    requires op.MoveTo? && Accepted(s, op)
    ensures Cleared(Step(s, clock, op), op.id, RESOLUTION)
    ensures Cleared(Step(s, clock, op), op.id, CLOSED_BY) <==> op.closedBy.None? || IsTerminal(op.to)
  {
    MoveCloses(s, clock, op.id, op.to, op.agent, op.force, op.resolution, op.closedBy);
    ClosedBy(s, Move(s, clock, op.id, op.to, op.agent, op.force, op.resolution, op.closedBy), op);
  }

  lemma ClosedBy(s: State, s': State, op: Op)
    requires op.MoveTo? && Has(s, op.id) && Has(s', op.id) && StatusOf(Get(s', op.id)) == op.to
    requires Get(s', op.id)[CLOSED_BY] == if op.closedBy.Some? then Text(op.closedBy) else Kept(Get(s, op.id)[CLOSED_BY], op.to)
    ensures Cleared(s', op.id, CLOSED_BY) <==> op.closedBy.None? || IsTerminal(op.to)
  {
  }
}
