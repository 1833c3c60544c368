/** The runs log as an audit trail: after every run it replays to the current status of every live item. */
module Audit {
  import opened Board
  import opened Columns
  import opened Effects
  import opened History
  import opened Ratification
  import opened Wrappers

  /** The log rows of `id` since its latest creation. */
  function HistoryOf(log: seq<Run>, id: Id): seq<Run> {
    if log == [] then [] else
      var before, last := HistoryOf(log[..|log| - 1], id), log[|log| - 1];
      if last.itemId != id then before
      else if last.from.None? then [last]
      else before + [last]
  }

  /** Starts with the creation in backlog, each row continues where the previous one ended, and the end is `status`. */
  ghost predicate Replays(h: seq<Run>, status: string) {
    && |h| > 0
    && h[0].from == None && h[0].to == "backlog"
    && (forall k :: 0 < k < |h| ==> h[k].from == Some(h[k - 1].to))
    && h[|h| - 1].to == status
  }

  ghost predicate AuditedItem(s: State, id: Id)
    requires Has(s, id)
  {
    Replays(HistoryOf(s.log, id), StatusOf(Get(s, id)))
  }

  ghost predicate Audited(s: State) {
    forall id {:trigger AuditedItem(s, id)} :: Has(s, id) ==> AuditedItem(s, id)
  }

  lemma AppendedHistory(log: seq<Run>, r: Run, id: Id)
    ensures HistoryOf(log + [r], id) ==
            if r.itemId != id then HistoryOf(log, id) else if r.from.None? then [r] else HistoryOf(log, id) + [r]
  {
    assert (log + [r])[..|log|] == log;
  }

  /** A write that touches no status and logs nothing. */
  lemma SilentKeepsAudit(s: State, s': State, id: Id, cols: set<nat>)
    requires Audited(s) && Touches(s, s', id, cols) && STATUS !in cols && s'.log == s.log
    ensures Audited(s')
  {
    forall x | Has(s', x)
      ensures AuditedItem(s', x)
    {
      assert AuditedItem(s, x);
      TouchesCell(s, s', id, cols, x, STATUS);
    }
  }

  /** A write that changes one status and logs that change. */
  lemma LoggedKeepsAudit(s: State, s': State, id: Id, cols: set<nat>, r: Run)
    requires Audited(s) && Touches(s, s', id, cols) && s'.log == s.log + [r]
    requires r.itemId == id && r.from == Some(StatusOf(Get(s, id))) && r.to == StatusOf(Get(s', id))
    ensures Audited(s')
  {
    forall x | Has(s', x)
      ensures AuditedItem(s', x)
    {
      assert AuditedItem(s, x);
      AppendedHistory(s.log, r, x);
    }
  }

  lemma AddItemKeepsAudit(s: State, clock: Clock, id: Id, input: Input)
    requires Audited(s) && !Has(s, id)
    ensures Audited(AddItem(s, clock, id, input))
  {
    var s' := AddItem(s, clock, id, input);
    forall x | Has(s', x)
      ensures AuditedItem(s', x)
    {
      AddItemGets(s, clock, id, input, x);
      AppendedHistory(s.log, s'.log[|s.log|], x);
      if x != id {
        assert AuditedItem(s, x);
      }
    }
  }

  lemma DeleteKeepsAudit(s: State, id: Id)
    requires Has(s, id) && UniqueLive(s.rows) && Audited(s)
    ensures Audited(Delete(s, id))
  {
    DeleteUnique(s, id);
    forall x | Has(Delete(s, id), x)
      ensures AuditedItem(Delete(s, id), x)
    {
      DeleteOther(s, id, x);
      assert AuditedItem(s, x);
    }
  }

  lemma RatifyOneKeepsAudit(s: State, clock: Clock, t: Target)
    requires Has(s, t.id) && Audited(s)
    ensures Audited(RatifyOne(s, clock, t))
  {
    var s1 := Strip(s, clock, t);
    StripTouches(s, clock, t);
    SilentKeepsAudit(s, s1, t.id, {TAGS, UPDATED_AT});
    if NeedsStart(s1, t.id) {
      StartTouches(s1, clock, t.id);
      var s2 := RatifyOne(s, clock, t);
      LoggedKeepsAudit(s1, s2, t.id, STATUS_COLUMNS, s2.log[|s1.log|]);
    }
  }

  lemma {:induction false} RatifyAllKeepsAudit(s: State, clock: Clock, targets: seq<Target>)
    requires AllHave(s, targets) && Audited(s)
    ensures Audited(RatifyAll(s, clock, targets))
  {
    if targets != [] {
      RatifyAllKeepsAudit(s, clock, targets[..|targets| - 1]);
      assert Has(s, targets[|targets| - 1].id);
      RatifyOneKeepsAudit(RatifyAll(s, clock, targets[..|targets| - 1]), clock, targets[|targets| - 1]);
    }
  }

  lemma WriteKeepsAudit(s: State, clock: Clock, op: Op)
    requires IsWrite(op) && Accepted(s, op) && Audited(s)
    ensures Audited(Step(s, clock, op))
  {
    var s' := Step(s, clock, op);
    WriteTouches(s, clock, op);
    if ChangesStatus(op) {
      ChangeIsLogged(s, clock, op);
      LoggedKeepsAudit(s, s', op.id, Written(op), s'.log[|s.log|]);
    } else {
      OthersAreSilent(s, clock, op);
      SilentKeepsAudit(s, s', op.id, Written(op));
    }
  }

  /** Whether an operation changes the status of its item. */
  predicate ChangesStatus(op: Op) {
    op.SetStatus? || op.MoveTo? || op.RequeueOf?
  }

  /** One more log row: the change of this item's status from what it was to what it is. */
  ghost predicate LogsChange(s: State, s': State, clock: Clock, id: Id)
    requires Has(s, id) && Has(s', id)
  {
    && s'.ticks >= s.ticks + 2
    && |s'.log| == |s.log| + 1 && s'.log == s.log + [s'.log[|s.log|]]
    && s'.log[|s.log|].itemId == id
    && s'.log[|s.log|].from == Some(StatusOf(Get(s, id)))
    && s'.log[|s.log|].to == StatusOf(Get(s', id))
    && s'.log[|s.log|].timestamp == clock(s.ticks + 1)
  }

  /** Every status change is logged once, with the status it replaces. */
  lemma ChangeIsLogged(s: State, clock: Clock, op: Op)
    requires ChangesStatus(op) && Accepted(s, op)
    ensures Has(s, op.id) && Has(Step(s, clock, op), op.id) && LogsChange(s, Step(s, clock, op), clock, op.id)
  {
    match op
    case SetStatus(id, to, agent, forced, reason) => UpdateStatusTouches(s, clock, id, to, agent, forced, reason);
    case MoveTo(id, to, agent, force, resolution, closedBy, _) =>
      MoveTouches(s, clock, id, to, agent, force, resolution, closedBy);
    case RequeueOf(id, agent, session, failure, cap, tag) =>
      RequeueTouches(s, clock, id, agent, session, failure, cap, tag);
  }

  /** Other writes log nothing and change no status. */
  lemma OthersAreSilent(s: State, clock: Clock, op: Op)
    requires IsWrite(op) && !ChangesStatus(op) && Accepted(s, op)
    ensures Step(s, clock, op).log == s.log && STATUS !in Written(op)
  {
    match op
    case Edit(id, col, cell) => UpdateFieldTouches(s, clock, id, col, cell);
    case EditBody(id, body, hash) => UpdateBodyTouches(s, clock, id, body, hash);
    case EditList(id, col, values) => UpdateFieldTouches(s, clock, id, col, List(Some(Stored(values))));
    case AddEntry(id, col, value) => AddToListTouches(s, clock, id, col, value);
    case RemoveEntry(id, col, value) => RemoveFromListTouches(s, clock, id, col, value);
  }

  lemma StepKeepsAudit(s: State, clock: Clock, op: Op)
    requires UniqueLive(s.rows) && Audited(s) && !Collides(s, op)
    ensures Audited(Step(s, clock, op))
  {
    if !Accepted(s, op) {
    } else if IsWrite(op) {
      WriteKeepsAudit(s, clock, op);
    } else {
      match op
      case Create(input) => AddItemKeepsAudit(s, clock, NewId(s, input), input);
      case CreateWithId(id, input) => AddItemKeepsAudit(s, clock, id, input);
      case RatifyOf(phase) => RatifyAllKeepsAudit(s, clock, TargetsIn(s, phase, |s.rows|));
      case Remove(id) => DeleteKeepsAudit(s, id);
    }
  }

  /** After every run without collision, at most one row per id is live, and the log rows of every live item since its
      latest creation lead step by step from backlog to its current status. */
  lemma {:induction false} LogReplays(clock: Clock, ops: seq<Op>)
    requires NeverCollides(EMPTY, clock, ops)
    ensures UniqueLive(After(EMPTY, clock, ops).rows) && Audited(After(EMPTY, clock, ops))
  {
    if ops != [] {
      var before, op := ops[..|ops| - 1], ops[|ops| - 1];
      NeverCollidesBefore(EMPTY, clock, ops);
      LogReplays(clock, before);
      StepKeepsUnique(After(EMPTY, clock, before), clock, op);
      StepKeepsAudit(After(EMPTY, clock, before), clock, op);
    }
  }
}
