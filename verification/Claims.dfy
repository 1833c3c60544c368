/** Exclusive claims: once an agent holds an item in progress, it keeps it until the claim is released. */
module Claims {
  import opened Board
  import opened Columns
  import opened Effects
  import opened History
  import opened Ratification
  import opened Wrappers

  /** `agent` holds the item in progress. */
  predicate Held(s: State, x: Id, agent: string) {
    Has(s, x) && StatusOf(Get(s, x)) == "in_progress" && AssigneeOf(Get(s, x)) == Some(agent)
  }

  /** Operations that end `agent`'s claim: a move or status change out of progress, a forced handoff, a requeue, a deletion. */
  predicate Releases(op: Op, x: Id, agent: string) {
    match op
    case SetStatus(id, to, _, _, _) => id == x && to != "in_progress"
    case MoveTo(id, to, claimant, force, _, _, _) =>
      id == x && (to != "in_progress" || (force && claimant.Some? && claimant != Some(agent)))
    case RequeueOf(id, _, _, _, _, _) => id == x
    case Remove(id) => id == x
    case _ => false
  }

  lemma SameCells(s: State, s': State, x: Id, agent: string)
    requires Held(s, x, agent) && Has(s', x)
    requires Get(s', x)[STATUS] == Get(s, x)[STATUS] && Get(s', x)[ASSIGNEE] == Get(s, x)[ASSIGNEE]
    ensures Held(s', x, agent)
  {
  }

  lemma FrameHolds(s: State, clock: Clock, op: Op, x: Id, agent: string)
    requires Held(s, x, agent) && !(op.Remove? && op.id == x) && !Writes(op, x, STATUS) && !Writes(op, x, ASSIGNEE)
    ensures Held(Step(s, clock, op), x, agent)
  {
    StepFrame(s, clock, op, x, STATUS);
    StepFrame(s, clock, op, x, ASSIGNEE);
    SameCells(s, Step(s, clock, op), x, agent);
  }

  /** Ratification starts voyages only, so work in progress stays in progress, and nobody's assignment is touched. */
  lemma RatifiedKeepsClaim(s: State, s': State, phase: string, x: Id)
    requires Has(s, x) && Has(s', x) && StatusOf(Get(s, x)) == "in_progress" && RatifiedItem(s, s', phase, x)
    ensures Get(s', x)[STATUS] == Get(s, x)[STATUS] && Get(s', x)[ASSIGNEE] == Get(s, x)[ASSIGNEE]
  {
  }

  lemma RatifyHolds(s: State, clock: Clock, phase: string, x: Id, agent: string)
    requires AllRowsFound(s) && Held(s, x, agent)
    ensures Held(Ratify(s, clock, phase), x, agent)
  {
    RatifyRow(s, clock, phase, x);
    RatifiedKeepsClaim(s, Ratify(s, clock, phase), phase, x);
    SameCells(s, Ratify(s, clock, phase), x, agent);
  }

  lemma StatusHolds(s: State, clock: Clock, op: Op, x: Id, agent: string)
    requires op.SetStatus? && op.id == x && Held(s, x, agent)
    ensures Held(Step(s, clock, op), x, agent) <==> op.to == "in_progress"
  {
    UpdateStatusTouches(s, clock, x, op.to, op.agent, op.forced, op.reason);
    Unchanged(s, Step(s, clock, op), x, STATUS_COLUMNS, ASSIGNEE);
  }

  lemma MoveHolds(s: State, clock: Clock, op: Op, x: Id, agent: string)
    requires op.MoveTo? && op.id == x && Held(s, x, agent) && Accepted(s, op)
    ensures Held(Step(s, clock, op), x, agent) <==> !Releases(op, x, agent)
  {
    MoveTouches(s, clock, x, op.to, op.agent, op.force, op.resolution, op.closedBy);
  }

  /** A step by any agent keeps the claim unless it is accepted and releases it. */
  lemma StepHolds(s: State, clock: Clock, op: Op, x: Id, agent: string)
    requires Held(s, x, agent) && !(Accepted(s, op) && Releases(op, x, agent))
    ensures Held(Step(s, clock, op), x, agent)
  {
    if Accepted(s, op) {
      if op.SetStatus? && op.id == x {
        StatusHolds(s, clock, op, x, agent);
      } else if op.MoveTo? && op.id == x {
        MoveHolds(s, clock, op, x, agent);
      } else if op.RatifyOf? {
        RatifyHolds(s, clock, op.phase, x, agent);
      } else {
        FrameHolds(s, clock, op, x, agent);
      }
    }
  }

  /** Each of the releasing operations, once accepted, does end the claim. */
  lemma ReleaseFrees(s: State, clock: Clock, op: Op, x: Id, agent: string)
    requires UniqueLive(s.rows) && Held(s, x, agent) && Accepted(s, op) && Releases(op, x, agent)
    ensures !Held(Step(s, clock, op), x, agent)
  {
    match op
    case SetStatus(_, _, _, _, _) => StatusHolds(s, clock, op, x, agent);
    case MoveTo(_, _, _, _, _, _, _) => MoveHolds(s, clock, op, x, agent);
    case RequeueOf(_, runner, session, failure, cap, tag) =>
      RequeueTouches(s, clock, x, runner, session, failure, cap, tag);
    case Remove(_) => DeleteUnique(s, x);
  }

  /** Some step of the run was accepted and released the claim. */
  ghost predicate Released(s: State, clock: Clock, ops: seq<Op>, x: Id, agent: string) {
    exists k :: 0 <= k < |ops| && Accepted(After(s, clock, ops[..k]), ops[k]) && Releases(ops[k], x, agent)
  }

  /** Over every run a claim holds until it is released: no other agent becomes the assignee in between. */
  lemma {:induction false} ClaimIsExclusive(s: State, clock: Clock, ops: seq<Op>, x: Id, agent: string)
    requires Held(s, x, agent) && !Released(s, clock, ops, x, agent)
    ensures Held(After(s, clock, ops), x, agent)
  {
    if ops != [] {
      var before, op := ops[..|ops| - 1], ops[|ops| - 1];
      assert !Released(s, clock, before, x, agent) by {
        forall k | 0 <= k < |before|
          ensures !(Accepted(After(s, clock, before[..k]), before[k]) && Releases(before[k], x, agent))
        {
          assert before[..k] == ops[..k] && before[k] == ops[k];
        }
      }
      ClaimIsExclusive(s, clock, before, x, agent);
      assert ops[..|ops| - 1] == before && op == ops[|before|];
      StepHolds(After(s, clock, before), clock, op, x, agent);
    }
  }

  /** An admitted, unforced claim is refused exactly while another agent holds the item. */
  lemma ClaimIsRefused(s: State, x: Id, agent: string, closedBy: Option<string>)
    requires Has(s, x)
    ensures Accepted(s, MoveTo(x, "in_progress", Some(agent), false, None, closedBy, true)) <==>
            !exists other :: other != agent && Held(s, x, other)
  {
    if ClaimConflicts(s, x, agent, false) {
      assert Held(s, x, AssigneeOf(Get(s, x)).value);
    }
  }

  /** A claim that is not refused makes its agent the holder. */
  lemma ClaimIsGranted(s: State, clock: Clock, op: Op, x: Id, agent: string)
    requires op.MoveTo? && op.id == x && op.to == "in_progress" && op.agent == Some(agent) && agent != ""
    requires Accepted(s, op)
    ensures Held(Step(s, clock, op), x, agent)
  {
    MoveTouches(s, clock, x, op.to, op.agent, op.force, op.resolution, op.closedBy);
  }
}
