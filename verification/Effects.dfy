/** What each write does: which item it touches, in which columns, and what it logs. */
module Effects {
  import opened Board
  import opened Columns
  import opened Seqs
  import opened Wrappers

  /** At most one row per id is not deleted. */
  ghost predicate UniqueLive(rows: seq<Row>) {
    forall i, j :: 0 <= i < j < |rows| && !IsDeleted(rows[i]) && !IsDeleted(rows[j]) ==> IdOf(rows[i]) != IdOf(rows[j])
  }

  /** Rows may differ only in these columns. */
  ghost predicate SameBut(r: Row, r': Row, cols: set<nat>) {
    forall c {:trigger r'[c]} :: 0 <= c < WIDTH && c !in cols ==> r'[c] == r[c]
  }

  /** Only item `id` may differ, and only in these columns. */
  ghost predicate Touches(s: State, s': State, id: Id, cols: set<nat>) {
    && Keeps(s, s')
    && s.ticks <= s'.ticks
    && Has(s, id)
    && (forall x {:trigger Get(s', x)} :: Has(s, x) && x != id ==> Get(s', x) == Get(s, x))
    && SameBut(Get(s, id), Get(s', id), cols)
  }

  lemma SetFieldTouches(s: State, id: Id, col: nat, c: Cell)
    requires Has(s, id) && Plain(col) && Fits(col, c)
    ensures var s' := SetField(s, id, col, c);
            Touches(s, s', id, {col}) && Get(s', id)[col] == c && s'.log == s.log && s'.ticks == s.ticks
  {
    var s' := SetField(s, id, col, c);
    forall x | Has(s, x)
      ensures Get(s', x) == if x == id then With(Get(s, id), col, c) else Get(s, x)
    {
      SetCellGets(s, id, col, c, x);
    }
  }

  lemma TouchesTrans(s: State, t: State, u: State, id: Id, a: set<nat>, b: set<nat>)
    requires Touches(s, t, id, a) && Touches(t, u, id, b)
    ensures Touches(s, u, id, a + b)
  {
    forall c | 0 <= c < WIDTH && c !in a + b
      ensures Get(u, id)[c] == Get(s, id)[c]
    {
      assert Get(t, id)[c] == Get(s, id)[c];
    }
  }

  /** A field edit changes the named cell and `updated_at` of one item, and nothing else. */
  lemma UpdateFieldTouches(s: State, clock: Clock, id: Id, col: nat, c: Cell)
    requires Has(s, id) && Plain(col) && Fits(col, c)
    ensures var s' := UpdateField(s, clock, id, col, c);
            && Touches(s, s', id, {col, UPDATED_AT})
            && (col != UPDATED_AT ==> Get(s', id)[col] == c)
            && Get(s', id)[UPDATED_AT] == Number(Some(clock(s.ticks)))
            && s'.log == s.log && s'.ticks == s.ticks + 1
  {
    var s1 := SetField(s, id, col, c);
    var s2 := SetField(s1, id, UPDATED_AT, Number(Some(clock(s.ticks))));
    SetFieldTouches(s, id, col, c);
    SetFieldTouches(s1, id, UPDATED_AT, Number(Some(clock(s.ticks))));
    TouchesTrans(s, s1, s2, id, {col}, {UPDATED_AT});
    var s' := UpdateField(s, clock, id, col, c);
    assert s' == s2.(ticks := s.ticks + 1);
    assert Get(s2, id)[col] == Get(s1, id)[col] || col == UPDATED_AT;
  }

  /** What a closure field is after a status change. */
  function Kept(c: Cell, to: string): Cell {
    if IsTerminal(to) then c else Text(None)
  }

  const STATUS_COLUMNS: set<nat> := {STATUS, UPDATED_AT, RESOLUTION, CLOSED_BY}

  lemma LogStatusTouches(s: State, clock: Clock, id: Id, to: string, agent: Option<string>, forced: bool,
                         reason: Option<string>)
    requires Has(s, id)
    ensures var s' := LogStatus(s, clock, id, to, agent, forced, reason);
            && Touches(s, s', id, {STATUS, UPDATED_AT})
            && StatusOf(Get(s', id)) == to
            && s'.log == s.log + [Run(id, Some(StatusOf(Get(s, id))), to, clock(s.ticks + 1), agent, forced, reason)]
            && s'.ticks == s.ticks + 2
  {
    UpdateFieldTouches(s, clock, id, STATUS, Text(Some(to)));
  }

  /** A status change sets the status, logs it once, and clears both closure fields exactly when the new status is
      not terminal. */
  lemma UpdateStatusTouches(s: State, clock: Clock, id: Id, to: string, agent: Option<string>, forced: bool,
                            reason: Option<string>)
    requires Has(s, id)
    ensures var s' := UpdateStatus(s, clock, id, to, agent, forced, reason);
            && Touches(s, s', id, STATUS_COLUMNS)
            && StatusOf(Get(s', id)) == to
            && Get(s', id)[RESOLUTION] == Kept(Get(s, id)[RESOLUTION], to)
            && Get(s', id)[CLOSED_BY] == Kept(Get(s, id)[CLOSED_BY], to)
            && s'.log == s.log + [Run(id, Some(StatusOf(Get(s, id))), to, clock(s.ticks + 1), agent, forced, reason)]
            && s'.ticks >= s.ticks + 2
  {
    var s1, s2 := LogStatus(s, clock, id, to, agent, forced, reason), UpdateStatus(s, clock, id, to, agent, forced, reason);
    LogStatusTouches(s, clock, id, to, agent, forced, reason);
    if IsTerminal(to) {
      TouchesMore(s, s1, id, {STATUS, UPDATED_AT}, STATUS_COLUMNS);
      Unchanged(s, s1, id, {STATUS, UPDATED_AT}, RESOLUTION);
      Unchanged(s, s1, id, {STATUS, UPDATED_AT}, CLOSED_BY);
    } else {
      ClearingTouches(s1, clock, id);
      Compose(s, s1, s2, id, {STATUS, UPDATED_AT}, CLOSURE_COLUMNS, STATUS_COLUMNS);
      Unchanged(s1, s2, id, CLOSURE_COLUMNS, STATUS);
    }
  }

  lemma ClearingTouches(s: State, clock: Clock, id: Id)
    requires Has(s, id)
    ensures var s' := ClearClosure(s, clock, id);
            && Touches(s, s', id, CLOSURE_COLUMNS)
            && Get(s', id)[RESOLUTION] == Text(None) && Get(s', id)[CLOSED_BY] == Text(None)
            && s'.log == s.log && s'.ticks == s.ticks + 2
  {
    var s1 := UpdateField(s, clock, id, RESOLUTION, Text(None));
    UpdateFieldTouches(s, clock, id, RESOLUTION, Text(None));
    UpdateFieldTouches(s1, clock, id, CLOSED_BY, Text(None));
    var s2 := UpdateField(s1, clock, id, CLOSED_BY, Text(None));
    Compose(s, s1, s2, id, {RESOLUTION, UPDATED_AT}, {CLOSED_BY, UPDATED_AT}, CLOSURE_COLUMNS);
    Unchanged(s1, s2, id, {CLOSED_BY, UPDATED_AT}, RESOLUTION);
  }

  lemma TouchesMore(s: State, s': State, id: Id, a: set<nat>, b: set<nat>)
    requires Touches(s, s', id, a) && a <= b
    ensures Touches(s, s', id, b)
  {
    forall c | 0 <= c < WIDTH && c !in b
      ensures Get(s', id)[c] == Get(s, id)[c]
    {
      assert c !in a;
    }
  }

  lemma NothingTouched(s: State, id: Id, cols: set<nat>)
    requires Has(s, id)
    ensures Touches(s, s, id, cols)
  {
  }

  lemma UpdateBodyTouches(s: State, clock: Clock, id: Id, body: Option<string>, hash: Option<string>)
    requires Has(s, id)
    ensures var s' := UpdateBody(s, clock, id, body, hash);
            && Touches(s, s', id, {BODY, BODY_HASH, UPDATED_AT})
            && Get(s', id)[BODY] == Text(body) && Get(s', id)[BODY_HASH] == Text(hash)
            && s'.log == s.log
  {
    var s1 := SetField(s, id, BODY, Text(body));
    SetFieldTouches(s, id, BODY, Text(body));
    UpdateFieldTouches(s1, clock, id, BODY_HASH, Text(hash));
    var s2 := UpdateField(s1, clock, id, BODY_HASH, Text(hash));
    TouchesTrans(s, s1, s2, id, {BODY}, {BODY_HASH, UPDATED_AT});
    assert {BODY} + {BODY_HASH, UPDATED_AT} == {BODY, BODY_HASH, UPDATED_AT};
    assert Get(s2, id)[BODY] == Get(s1, id)[BODY];
  }

  /** Blank entries are dropped, the others keep their order; an entry that is there already is not added twice. */
  lemma AddToListTouches(s: State, clock: Clock, id: Id, col: nat, value: string)
    requires Has(s, id) && IsListColumn(col)
    ensures var s' := AddToList(s, clock, id, col, value);
            && Touches(s, s', id, {col, UPDATED_AT})
            && ListOf(Get(s', id), col) == (if value in ListOf(Get(s, id), col) then ListOf(Get(s, id), col)
                                            else Stored(ListOf(Get(s, id), col) + [value]))
            && s'.log == s.log
  {
    var current := ListOf(Get(s, id), col);
    UpdateFieldTouches(s, clock, id, col, List(Some(Stored(current + [value]))));
    NothingTouched(s, id, {col, UPDATED_AT});
  }

  /** All copies of the entry go; the other entries keep their order, and blank ones are dropped if anything is written. */
  lemma RemoveFromListTouches(s: State, clock: Clock, id: Id, col: nat, value: string)
    requires Has(s, id) && IsListColumn(col)
    ensures var s' := RemoveFromList(s, clock, id, col, value);
            && Touches(s, s', id, {col, UPDATED_AT})
            && ListOf(Get(s', id), col) == (if value in ListOf(Get(s, id), col)
                                            then Stored(Filter(ListOf(Get(s, id), col), v => v != value))
                                            else ListOf(Get(s, id), col))
            && value !in ListOf(Get(s', id), col)
            && s'.log == s.log
  {
    var current := ListOf(Get(s, id), col);
    var next := Filter(current, v => v != value);
    NothingTouched(s, id, {col, UPDATED_AT});
    FilterWithout(current, value);
    UpdateFieldTouches(s, clock, id, col, List(Some(Stored(next))));
  }

  lemma OptionalFieldTouches(s: State, clock: Clock, id: Id, col: nat, value: Option<string>)
    requires Has(s, id) && (col == RESOLUTION || col == CLOSED_BY)
    ensures var s' := OptionalField(s, clock, id, col, value);
            && Touches(s, s', id, {col, UPDATED_AT})
            && Get(s', id)[col] == (if value.Some? then Text(value) else Get(s, id)[col])
            && s'.log == s.log
  {
    NothingTouched(s, id, {col, UPDATED_AT});
    UpdateFieldTouches(s, clock, id, col, Text(value));
  }

  /** Two writes in a row, seen as one. */
  lemma Compose(s: State, t: State, u: State, id: Id, a: set<nat>, b: set<nat>, cols: set<nat>)
    requires Touches(s, t, id, a) && Touches(t, u, id, b) && a + b <= cols
    ensures Touches(s, u, id, cols)
  {
    TouchesTrans(s, t, u, id, a, b);
    TouchesMore(s, u, id, a + b, cols);
  }

  /** A column that the second write leaves alone has the value that the first one gave it. */
  lemma Unchanged(s: State, s': State, id: Id, cols: set<nat>, c: nat)
    requires Touches(s, s', id, cols) && c < WIDTH && c !in cols
    ensures Get(s', id)[c] == Get(s, id)[c]
  {
  }

  const CLOSURE_COLUMNS: set<nat> := {RESOLUTION, CLOSED_BY, UPDATED_AT}

  /** The closure fields that a move may set. */
  function Close(s: State, clock: Clock, id: Id, resolution: Option<string>, closedBy: Option<string>): (r: State)
    requires Has(s, id)
    ensures Keeps(s, r)
  {
    OptionalField(OptionalField(s, clock, id, RESOLUTION, resolution), clock, id, CLOSED_BY, closedBy)
  }

  lemma CloseTouches(s: State, clock: Clock, id: Id, resolution: Option<string>, closedBy: Option<string>)
    requires Has(s, id)
    ensures var s' := Close(s, clock, id, resolution, closedBy);
            && Touches(s, s', id, CLOSURE_COLUMNS)
            && Get(s', id)[RESOLUTION] == (if resolution.Some? then Text(resolution) else Get(s, id)[RESOLUTION])
            && Get(s', id)[CLOSED_BY] == (if closedBy.Some? then Text(closedBy) else Get(s, id)[CLOSED_BY])
            && s'.log == s.log
  {
    var s1 := OptionalField(s, clock, id, RESOLUTION, resolution);
    OptionalFieldTouches(s, clock, id, RESOLUTION, resolution);
    var s2 := OptionalField(s1, clock, id, CLOSED_BY, closedBy);
    OptionalFieldTouches(s1, clock, id, CLOSED_BY, closedBy);
    Compose(s, s1, s2, id, {RESOLUTION, UPDATED_AT}, {CLOSED_BY, UPDATED_AT}, CLOSURE_COLUMNS);
    Unchanged(s, s1, id, {RESOLUTION, UPDATED_AT}, CLOSED_BY);
    Unchanged(s1, s2, id, {CLOSED_BY, UPDATED_AT}, RESOLUTION);
  }

  const MOVE_COLUMNS: set<nat> := STATUS_COLUMNS + {ASSIGNEE}

  function AssignSome(s: State, id: Id, agent: Option<string>): (r: State)
    requires Has(s, id)
    ensures Keeps(s, r)
  {
    if agent.Some? then Assign(s, id, agent) else s
  }

  lemma AssignTouches(s: State, id: Id, agent: Option<string>)
    requires Has(s, id)
    ensures var s' := AssignSome(s, id, agent);
            && Touches(s, s', id, {ASSIGNEE})
            && Get(s', id)[ASSIGNEE] == (if agent.Some? then Text(agent) else Get(s, id)[ASSIGNEE])
            && s'.log == s.log
  {
    NothingTouched(s, id, {ASSIGNEE});
    SetFieldTouches(s, id, ASSIGNEE, Text(agent));
  }

  /** The status change of a move, and the new assignee. */
  function Claimed(s: State, clock: Clock, id: Id, to: string, agent: Option<string>, force: bool): (r: State)
    requires Has(s, id)
    ensures Keeps(s, r)
  {
    AssignSome(UpdateStatus(s, clock, id, to, None, force, None), id, agent)
  }

  /** A status change followed by a new assignee. */
  lemma AssignedAfter(s: State, s1: State, s2: State, id: Id)
    requires Touches(s, s1, id, STATUS_COLUMNS) && Touches(s1, s2, id, {ASSIGNEE})
    ensures Touches(s, s2, id, MOVE_COLUMNS)
    ensures Get(s2, id)[STATUS] == Get(s1, id)[STATUS] && Get(s1, id)[ASSIGNEE] == Get(s, id)[ASSIGNEE]
  {
    Compose(s, s1, s2, id, STATUS_COLUMNS, {ASSIGNEE}, MOVE_COLUMNS);
    Unchanged(s1, s2, id, {ASSIGNEE}, STATUS);
    Unchanged(s, s1, id, STATUS_COLUMNS, ASSIGNEE);
  }

  lemma ClaimedTouches(s: State, clock: Clock, id: Id, to: string, agent: Option<string>, force: bool)
    requires Has(s, id)
    ensures var s' := Claimed(s, clock, id, to, agent, force);
            && Touches(s, s', id, MOVE_COLUMNS)
            && StatusOf(Get(s', id)) == to
            && Get(s', id)[ASSIGNEE] == (if agent.Some? then Text(agent) else Get(s, id)[ASSIGNEE])
            && s'.ticks >= s.ticks + 2
            && s'.log == s.log + [Run(id, Some(StatusOf(Get(s, id))), to, clock(s.ticks + 1), None, force, None)]
  {
    var s1 := UpdateStatus(s, clock, id, to, None, force, None);
    UpdateStatusTouches(s, clock, id, to, None, force, None);
    AssignTouches(s1, id, agent);
    AssignedAfter(s, s1, AssignSome(s1, id, agent), id);
  }

  lemma ClaimedKeeps(s: State, clock: Clock, id: Id, to: string, agent: Option<string>, force: bool)
    requires Has(s, id)
    ensures var s' := Claimed(s, clock, id, to, agent, force);
            && Get(s', id)[RESOLUTION] == Kept(Get(s, id)[RESOLUTION], to)
            && Get(s', id)[CLOSED_BY] == Kept(Get(s, id)[CLOSED_BY], to)
  {
    var s1 := UpdateStatus(s, clock, id, to, None, force, None);
    UpdateStatusTouches(s, clock, id, to, None, force, None);
    AssignTouches(s1, id, agent);
    Unchanged(s1, AssignSome(s1, id, agent), id, {ASSIGNEE}, RESOLUTION);
    Unchanged(s1, AssignSome(s1, id, agent), id, {ASSIGNEE}, CLOSED_BY);
  }

  /** A move changes the status, the closure fields and, if an agent is named, the assignee. */
  lemma MoveTouches(s: State, clock: Clock, id: Id, to: string, agent: Option<string>, force: bool,
                    resolution: Option<string>, closedBy: Option<string>)
    requires Has(s, id)
    ensures var s' := Move(s, clock, id, to, agent, force, resolution, closedBy);
            && Touches(s, s', id, MOVE_COLUMNS)
            && StatusOf(Get(s', id)) == to
            && Get(s', id)[ASSIGNEE] == (if agent.Some? then Text(agent) else Get(s, id)[ASSIGNEE])
            && s'.ticks >= s.ticks + 2
            && s'.log == s.log + [Run(id, Some(StatusOf(Get(s, id))), to, clock(s.ticks + 1), None, force, None)]
  {
    var s1 := Claimed(s, clock, id, to, agent, force);
    ClaimedTouches(s, clock, id, to, agent, force);
    var s2 := Close(s1, clock, id, resolution, closedBy);
    CloseTouches(s1, clock, id, resolution, closedBy);
    assert s2 == Move(s, clock, id, to, agent, force, resolution, closedBy);
    ClosedAfter(s, s1, s2, id);
  }

  lemma ClosedAfter(s: State, s1: State, s2: State, id: Id)
    requires Touches(s, s1, id, MOVE_COLUMNS) && Touches(s1, s2, id, CLOSURE_COLUMNS)
    ensures Touches(s, s2, id, MOVE_COLUMNS)
    ensures Get(s2, id)[STATUS] == Get(s1, id)[STATUS] && Get(s2, id)[ASSIGNEE] == Get(s1, id)[ASSIGNEE]
  {
    Compose(s, s1, s2, id, MOVE_COLUMNS, CLOSURE_COLUMNS, MOVE_COLUMNS);
  }

  /** A move clears the closure fields like any status change, and then sets those that it names. */
  lemma MoveCloses(s: State, clock: Clock, id: Id, to: string, agent: Option<string>, force: bool,
                   resolution: Option<string>, closedBy: Option<string>)
    requires Has(s, id)
    ensures var s' := Move(s, clock, id, to, agent, force, resolution, closedBy);
            && StatusOf(Get(s', id)) == to
            && Get(s', id)[RESOLUTION] == (if resolution.Some? then Text(resolution) else Kept(Get(s, id)[RESOLUTION], to))
            && Get(s', id)[CLOSED_BY] == (if closedBy.Some? then Text(closedBy) else Kept(Get(s, id)[CLOSED_BY], to))
  {
    var s1 := Claimed(s, clock, id, to, agent, force);
    MoveTouches(s, clock, id, to, agent, force, resolution, closedBy);
    ClaimedKeeps(s, clock, id, to, agent, force);
    CloseTouches(s1, clock, id, resolution, closedBy);
    assert Close(s1, clock, id, resolution, closedBy) == Move(s, clock, id, to, agent, force, resolution, closedBy);
  }

  const RELEASE_COLUMNS: set<nat> := STATUS_COLUMNS + {ASSIGNEE, ATTEMPT_COUNT}

  /** Both cells that a requeue writes after the status change. */
  function Unclaim(s: State, id: Id, attempts: int): (r: State)
    requires Has(s, id)
    ensures Keeps(s, r)
  {
    SetField(Assign(s, id, None), id, ATTEMPT_COUNT, Number(Some(attempts)))
  }

  lemma UnclaimTouches(s: State, id: Id, attempts: int)
    requires Has(s, id)
    ensures var s' := Unclaim(s, id, attempts);
            && Touches(s, s', id, {ASSIGNEE, ATTEMPT_COUNT})
            && Get(s', id)[ASSIGNEE] == Text(None) && Get(s', id)[ATTEMPT_COUNT] == Number(Some(attempts))
            && s'.log == s.log
  {
    var s1 := Assign(s, id, None);
    SetFieldTouches(s, id, ASSIGNEE, Text(None));
    SetFieldTouches(s1, id, ATTEMPT_COUNT, Number(Some(attempts)));
    var s2 := Unclaim(s, id, attempts);
    Compose(s, s1, s2, id, {ASSIGNEE}, {ATTEMPT_COUNT}, {ASSIGNEE, ATTEMPT_COUNT});
    Unchanged(s1, s2, id, {ATTEMPT_COUNT}, ASSIGNEE);
  }

  lemma ReleaseTouches(s: State, clock: Clock, id: Id, to: string, agent: Option<string>, reason: string, attempts: int)
    requires Has(s, id)
    ensures var s' := Release(s, clock, id, to, agent, reason, attempts);
            && Touches(s, s', id, RELEASE_COLUMNS)
            && StatusOf(Get(s', id)) == to && Get(s', id)[ASSIGNEE] == Text(None)
            && Get(s', id)[ATTEMPT_COUNT] == Number(Some(attempts))
            && s'.ticks >= s.ticks + 2
            && s'.log == s.log + [Run(id, Some(StatusOf(Get(s, id))), to, clock(s.ticks + 1), agent, false, Some(reason))]
  {
    var s1 := UpdateStatus(s, clock, id, to, agent, false, Some(reason));
    UpdateStatusTouches(s, clock, id, to, agent, false, Some(reason));
    UnclaimTouches(s1, id, attempts);
    var s2 := Unclaim(s1, id, attempts);
    assert s2 == Release(s, clock, id, to, agent, reason, attempts);
    Compose(s, s1, s2, id, STATUS_COLUMNS, {ASSIGNEE, ATTEMPT_COUNT}, RELEASE_COLUMNS);
    Unchanged(s1, s2, id, {ASSIGNEE, ATTEMPT_COUNT}, STATUS);
  }

  lemma ReleaseClears(s: State, clock: Clock, id: Id, to: string, agent: Option<string>, reason: string, attempts: int)
    requires Has(s, id) && !IsTerminal(to)
    ensures var s' := Release(s, clock, id, to, agent, reason, attempts);
            Get(s', id)[RESOLUTION] == Text(None) && Get(s', id)[CLOSED_BY] == Text(None)
  {
    var s1 := UpdateStatus(s, clock, id, to, agent, false, Some(reason));
    UpdateStatusTouches(s, clock, id, to, agent, false, Some(reason));
    UnclaimTouches(s1, id, attempts);
    Unchanged(s1, Unclaim(s1, id, attempts), id, {ASSIGNEE, ATTEMPT_COUNT}, RESOLUTION);
    Unchanged(s1, Unclaim(s1, id, attempts), id, {ASSIGNEE, ATTEMPT_COUNT}, CLOSED_BY);
  }

  const REQUEUE_COLUMNS: set<nat> := RELEASE_COLUMNS + {TAGS}

  /** What a requeue writes: the claim is released, the attempt counted, and a dead item parked and tagged. */
  ghost predicate RequeueWrites(s: State, s': State, clock: Clock, id: Id, agent: Option<string>, reason: string,
                                attempts: int, tag: string, dead: bool)
    requires Has(s, id)
  {
    var tags := ListOf(Get(s, id), TAGS);
    && Touches(s, s', id, REQUEUE_COLUMNS)
    && StatusOf(Get(s', id)) == (if dead then "blocked" else "backlog")
    && Get(s', id)[ASSIGNEE] == Text(None)
    && Get(s', id)[ATTEMPT_COUNT] == Number(Some(attempts))
    && ListOf(Get(s', id), TAGS) == (if dead && tag !in tags then Stored(tags + [tag]) else tags)
    && s'.ticks >= s.ticks + 2
    && s'.log == s.log + [Run(id, Some("in_progress"), if dead then "blocked" else "backlog", clock(s.ticks + 1), agent,
                              false, Some(reason))]
  }

  /** A requeue releases the claim, counts the attempt, and parks and tags the item once its attempts are used up. */
  lemma RequeueTouches(s: State, clock: Clock, id: Id, agent: Option<string>, session: Option<string>, reason: string,
                       cap: int, tag: string)
    requires CanRequeue(s, id, cap)
    ensures var attempts := Increment(AttemptsOf(Get(s, id)));
            RequeueWrites(s, Requeue(s, clock, id, agent, session, reason, cap, tag), clock, id, agent,
                          RequeueReason(attempts, session, reason), attempts, tag, attempts >= cap)
  {
    var attempts := Increment(AttemptsOf(Get(s, id)));
    var dead := attempts >= cap;
    ReleasedTouches(s, clock, id, if dead then "blocked" else "backlog", agent, RequeueReason(attempts, session, reason),
                    attempts, tag, dead);
  }

  /** The writes of a requeue, whatever it decides. */
  function Released(s: State, clock: Clock, id: Id, to: string, agent: Option<string>, reason: string, attempts: int,
                    tag: string, dead: bool): (r: State)
    requires Has(s, id)
    ensures Keeps(s, r)
  {
    Park(Release(s, clock, id, to, agent, reason, attempts), clock, id, tag, dead)
  }

  lemma ReleasedTouches(s: State, clock: Clock, id: Id, to: string, agent: Option<string>, reason: string,
                        attempts: int,
                        tag: string, dead: bool)
    requires Has(s, id)
    ensures var s', tags := Released(s, clock, id, to, agent, reason, attempts, tag, dead), ListOf(Get(s, id), TAGS);
            && Touches(s, s', id, REQUEUE_COLUMNS)
            && StatusOf(Get(s', id)) == to
            && Get(s', id)[ASSIGNEE] == Text(None)
            && Get(s', id)[ATTEMPT_COUNT] == Number(Some(attempts))
            && ListOf(Get(s', id), TAGS) == (if dead && tag !in tags then Stored(tags + [tag]) else tags)
            && s'.ticks >= s.ticks + 2
            && s'.log == s.log + [Run(id, Some(StatusOf(Get(s, id))), to, clock(s.ticks + 1), agent, false, Some(reason))]
  {
    var s1, s2 := Release(s, clock, id, to, agent, reason, attempts), Released(s, clock, id, to, agent, reason, attempts, tag, dead);
    ReleaseTouches(s, clock, id, to, agent, reason, attempts);
    ParkTouches(s1, clock, id, tag, dead);
    BothTouch(s, s1, s2, id, tag, dead);
  }

  lemma BothTouch(s: State, s1: State, s2: State, id: Id, tag: string, dead: bool)
    requires Touches(s, s1, id, RELEASE_COLUMNS) && Touches(s1, s2, id, {TAGS, UPDATED_AT})
    requires var tags := ListOf(Get(s1, id), TAGS);
             ListOf(Get(s2, id), TAGS) == if dead && tag !in tags then Stored(tags + [tag]) else tags
    ensures Touches(s, s2, id, REQUEUE_COLUMNS)
    ensures var tags := ListOf(Get(s, id), TAGS);
            ListOf(Get(s2, id), TAGS) == if dead && tag !in tags then Stored(tags + [tag]) else tags
  {
    Compose(s, s1, s2, id, RELEASE_COLUMNS, {TAGS, UPDATED_AT}, REQUEUE_COLUMNS);
    Unchanged(s, s1, id, RELEASE_COLUMNS, TAGS);
  }

  /** Tags an item that has used up its attempts. */
  function Park(s: State, clock: Clock, id: Id, tag: string, dead: bool): (r: State)
    requires Has(s, id)
    ensures Keeps(s, r)
  {
    if dead then AddToList(s, clock, id, TAGS, tag) else s
  }

  lemma ParkTouches(s: State, clock: Clock, id: Id, tag: string, dead: bool)
    requires Has(s, id)
    ensures var s', tags := Park(s, clock, id, tag, dead), ListOf(Get(s, id), TAGS);
            && Touches(s, s', id, {TAGS, UPDATED_AT})
            && ListOf(Get(s', id), TAGS) == (if dead && tag !in tags then Stored(tags + [tag]) else tags)
            && Get(s', id)[STATUS] == Get(s, id)[STATUS] && Get(s', id)[ASSIGNEE] == Get(s, id)[ASSIGNEE]
            && Get(s', id)[ATTEMPT_COUNT] == Get(s, id)[ATTEMPT_COUNT]
            && s'.log == s.log
  {
    var s' := Park(s, clock, id, tag, dead);
    AddToListTouches(s, clock, id, TAGS, tag);
    NothingTouched(s, id, {TAGS, UPDATED_AT});
    Unchanged(s, s', id, {TAGS, UPDATED_AT}, STATUS);
    Unchanged(s, s', id, {TAGS, UPDATED_AT}, ASSIGNEE);
    Unchanged(s, s', id, {TAGS, UPDATED_AT}, ATTEMPT_COUNT);
  }

  /** Both targets of a requeue are open, so both closure fields are cleared. */
  lemma RequeueClears(s: State, clock: Clock, id: Id, agent: Option<string>, session: Option<string>, reason: string,
                      cap: int, tag: string)
    requires CanRequeue(s, id, cap)
    ensures var s' := Requeue(s, clock, id, agent, session, reason, cap, tag);
            Get(s', id)[RESOLUTION] == Text(None) && Get(s', id)[CLOSED_BY] == Text(None)
  {
    var attempts := Increment(AttemptsOf(Get(s, id)));
    var to, text := if attempts >= cap then "blocked" else "backlog", RequeueReason(attempts, session, reason);
    assert !IsTerminal(to);
    var s1 := Release(s, clock, id, to, agent, text, attempts);
    ReleaseClears(s, clock, id, to, agent, text, attempts);
    ParkKeepsClosure(s1, clock, id, tag, attempts >= cap);
  }

  lemma ParkKeepsClosure(s: State, clock: Clock, id: Id, tag: string, dead: bool)
    requires Has(s, id)
    ensures var s' := Park(s, clock, id, tag, dead);
            Get(s', id)[RESOLUTION] == Get(s, id)[RESOLUTION] && Get(s', id)[CLOSED_BY] == Get(s, id)[CLOSED_BY]
  {
    ParkTouches(s, clock, id, tag, dead);
    Unchanged(s, Park(s, clock, id, tag, dead), id, {TAGS, UPDATED_AT}, RESOLUTION);
    Unchanged(s, Park(s, clock, id, tag, dead), id, {TAGS, UPDATED_AT}, CLOSED_BY);
  }
}
