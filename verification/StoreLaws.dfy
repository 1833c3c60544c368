/** The store's operations in terms of cells and literal texts. */
module StoreLaws {
  import opened Board
  import opened Columns
  import opened Dependencies
  import opened DepGraph
  import opened Effects
  import opened History
  import opened IdAlloc
  import opened Items
  import opened ItemTypes
  import opened Ratification
  import opened Refinement
  import opened Roadmap
  import opened Seqs
  import opened Wrappers
  import Claims

  // ------------------------------------------------------------------ queries

  /** A row is returned exactly if it is the live row of its id and each filter that is given is the text of its cell; a
      null cell meets no filter. */
  lemma QueryReturns(s: State, status: Option<string>, itemType: Option<string>, board: Option<string>,
                     assignee: Option<string>, r: Row)
    requires UniqueLive(s.rows)
    ensures r in Query(s.rows, status, itemType, board, assignee) <==>
            && Has(s, IdOf(r)) && Get(s, IdOf(r)) == r
            && (status == None || r[STATUS].text == status)
            && (itemType == None || r[ITEM_TYPE].text == itemType)
            && (board == None || r[BOARD].text == board)
            && (assignee == None || r[ASSIGNEE].text == assignee)
  {
    QueryOnMap(s, status, itemType, board, assignee);
    ItemsAre(s, IdOf(r));
  }

  lemma NullMeetsNoFilter(s: State, agent: string, r: Row)
    requires UniqueLive(s.rows) && r[ASSIGNEE].text == None
    ensures r !in Query(s.rows, None, None, None, Some(agent))
  {
    QueryReturns(s, None, None, None, Some(agent), r);
  }

  /** Results come in storage order. */
  lemma {:induction false} QueryInOrder(rows: seq<Row>, status: Option<string>, itemType: Option<string>,
                                        board: Option<string>, assignee: Option<string>) returns (at: seq<nat>)
    ensures var results := Query(rows, status, itemType, board, assignee);
            && |at| == |results|
            && (forall i :: 0 <= i < |at| ==> at[i] < |rows| && rows[at[i]] == results[i])
            && forall i, j :: 0 <= i < j < |at| ==> at[i] < at[j]
  {
    if rows == [] {
      at := [];
    } else {
      var n, before := |rows| - 1, rows[..|rows| - 1];
      at := QueryInOrder(before, status, itemType, board, assignee);
      assert forall i :: 0 <= i < |at| ==> rows[at[i]] == before[at[i]];
      if Matches(rows[n], status, itemType, board, assignee) {
        at := at + [n];
      }
    }
  }

  // ----------------------------------------------------------------- creation

  /** A creation is logged as a change from nothing to backlog, by nobody in particular. */
  lemma CreationLogged(s: State, clock: Clock, id: Id, input: Input)
    ensures var s' := Board.AddItem(s, clock, id, input);
            && |s'.log| == |s.log| + 1 && s'.log[..|s.log|] == s.log
            && var r := s'.log[|s.log|];
               && r.itemId == id && r.from == None && r.to == "backlog" && r.timestamp == clock(s.ticks + 1)
               && r.agent == None && !r.forced && r.reason == None
  {
  }

  /** What a new item's cells hold: what the caller gave, in backlog, both times now, not deleted, and otherwise nothing. */
  predicate IsNew(r: Row, id: Id, input: Input, now: int) {
    && r[ID].text == Some(id) && r[TITLE].text == Some(input.title) && r[STATUS].text == Some("backlog")
    && r[PRIORITY].text == input.priority && r[ASSIGNEE].text == input.assignee
    && r[TAGS].list == Some(input.tags) && r[RELATED].list == Some(input.related)
    && r[DEPENDS_ON].list == Some(input.dependsOn)
    && r[BODY].text == input.body && r[BODY_HASH].text == input.bodyHash
    && r[CREATED].number == Some(now) && r[UPDATED_AT].number == Some(now) && !r[DELETED].flag
    && r[RESOLUTION].text == None && r[CLOSED_BY].text == None
    && r[PRIORITY_RANK].number == None && r[ATTEMPT_COUNT].number == Some(0)
  }

  lemma NewRowIsNew(id: Id, input: Input, now: int)
    ensures IsNew(NewRow(id, input, now), id, input, now)
  {
  }

  lemma CreatedItem(s: State, clock: Clock, id: Id, input: Input)
    requires !Has(s, id)
    ensures var s' := Board.AddItem(s, clock, id, input); Has(s', id) && IsNew(Get(s', id), id, input, clock(s.ticks))
  {
    AddItemGets(s, clock, id, input, id);
    NewRowIsNew(id, input, clock(s.ticks));
  }

  /** The stored names of an item type and of its board. */
  predicate IsTyped(r: Row, t: ItemType) {
    (r[ITEM_TYPE].text, r[BOARD].text) ==
    match t
    case Expedition => (Some("expedition"), Some("development"))
    case Chore => (Some("chore"), Some("development"))
    case Voyage => (Some("voyage"), Some("development"))
    case Campaign => (Some("campaign"), Some("development"))
    case Hazard => (Some("hazard"), Some("development"))
    case Signal => (Some("signal"), Some("development"))
    case Feature => (Some("feature"), Some("development"))
    case Paper => (Some("paper"), Some("research"))
    case Hypothesis => (Some("hypothesis"), Some("research"))
    case Experiment => (Some("experiment"), Some("research"))
    case Measure => (Some("measure"), Some("research"))
    case Idea => (Some("idea"), Some("research"))
    case Literature => (Some("literature"), Some("research"))
  }

  lemma NewRowIsTyped(id: Id, input: Input, now: int)
    ensures IsTyped(NewRow(id, input, now), input.itemType)
  {
    BoardOfType(input.itemType);
  }

  lemma CreatedType(s: State, clock: Clock, id: Id, input: Input)
    requires !Has(s, id)
    ensures var s' := Board.AddItem(s, clock, id, input); Has(s', id) && IsTyped(Get(s', id), input.itemType)
  {
    AddItemGets(s, clock, id, input, id);
    NewRowIsTyped(id, input, clock(s.ticks));
  }

  lemma BoardOfType(t: ItemType)
    ensures BoardName(t) == if t in {Paper, Hypothesis, Experiment, Measure, Idea, Literature} then "research" else "development"
  {
  }

  // ------------------------------------------------------------ status changes

  /** Done, complete, abandoned and retired are the statuses that keep what closed an item. */
  lemma StatusChangeCloses(s: State, clock: Clock, id: Id, to: string, agent: Option<string>, forced: bool,
                           reason: Option<string>)
    requires Has(s, id)
    ensures var s' := UpdateStatus(s, clock, id, to, agent, forced, reason);
            && Has(s', id) && Get(s', id)[STATUS].text == Some(to)
            && (if to == "done" || to == "complete" || to == "abandoned" || to == "retired" then
                  Get(s', id)[RESOLUTION] == Get(s, id)[RESOLUTION] && Get(s', id)[CLOSED_BY] == Get(s, id)[CLOSED_BY]
                else Get(s', id)[RESOLUTION].text == None && Get(s', id)[CLOSED_BY].text == None)
  {
    UpdateStatusTouches(s, clock, id, to, agent, forced, reason);
  }

  /** Another agent, whose name is not empty, has the item in progress. */
  predicate HeldByOther(r: Row, agent: string) {
    r[STATUS].text == Some("in_progress") && r[ASSIGNEE].text.Some? && r[ASSIGNEE].text.value !in ["", agent]
  }

  /** No resolution, or a known one for a terminal status. */
  predicate ResolutionFits(resolution: Option<string>, to: string) {
    resolution.Some? ==>
      && resolution.value in {"completed", "superseded", "wont_do", "duplicate", "obsolete", "merged", "refuted"}
      && to in {"done", "complete", "abandoned", "retired"}
  }

  /** A move is accepted exactly if the item exists, the resolution fits, the other checks admit it or are forced, and nobody
      else holds an item that is being claimed without force. */
  lemma MoveAccepted(s: State, id: Id, to: string, agent: Option<string>, force: bool, resolution: Option<string>,
                     closedBy: Option<string>, admitted: bool)
    ensures Accepted(s, MoveTo(id, to, agent, force, resolution, closedBy, admitted)) <==>
            && Has(s, id) && ResolutionFits(resolution, to)
            && (force || (admitted && !(to == "in_progress" && agent.Some? && HeldByOther(Get(s, id), agent.value))))
  {
  }

  /** Which refusal is reported: the first one that applies. */
  lemma MoveRefused(s: State, id: Id, to: string, agent: Option<string>, force: bool, resolution: Option<string>,
                    admitted: bool)
    ensures match MoveRefusal(s, id, to, agent, force, resolution, admitted)
            case None => true
            case Some(NotFound(x)) => x == id && !Has(s, id)
            case Some(InvalidResolution(x)) => x == id && Has(s, id) && !ResolutionFits(resolution, to)
            case Some(NotAdmitted(x)) => x == id && Has(s, id) && ResolutionFits(resolution, to) && !force && !admitted
            case Some(ClaimConflict(x, current, attempted)) =>
              && x == id && Has(s, id) && ResolutionFits(resolution, to) && !force && admitted && to == "in_progress"
              && agent == Some(attempted) && Get(s, id)[ASSIGNEE].text == Some(current) && HeldByOther(Get(s, id), attempted)
            case Some(_) => false
  {
  }

  /** A deletion sets one flag of one live row with the id, and changes no other cell of the store. */
  lemma DeletionMarks(s: State, id: Id) returns (k: nat)
    requires Has(s, id)
    ensures k < |s.rows| && s.rows[k][ID].text == Some(id) && !s.rows[k][DELETED].flag
    ensures var s' := Delete(s, id);
            && |s'.rows| == |s.rows| && s'.log == s.log && s'.ticks == s.ticks && s'.rows[k][DELETED].flag
            && (forall c :: 0 <= c < WIDTH && c != DELETED ==> s'.rows[k][c] == s.rows[k][c])
            && forall j :: 0 <= j < |s.rows| && j != k ==> s'.rows[j] == s.rows[j]
  {
    k := Find(s.rows, id);
  }

  // ------------------------------------------------------------------ requeues

  /** Accepted for a cap of at least one and an item in progress; a null counter counts as zero. */
  lemma RequeueAccepted(s: State, op: Op)
    requires op.RequeueOf?
    ensures Accepted(s, op) <==> op.cap >= 1 && Has(s, op.id) && Get(s, op.id)[STATUS].text == Some("in_progress")
  {
  }

  /** The counter goes up by one in 32 bits; a null counter counts as zero. */
  predicate CountsUp(r: Row, r': Row) {
    r'[ATTEMPT_COUNT].number ==
    match r[ATTEMPT_COUNT].number
    case None => Some(1)
    case Some(n) => Some(if n == 0x7FFF_FFFF then -0x8000_0000 else n + 1)
  }

  lemma RequeueCounts(s: State, clock: Clock, op: Op)
    requires op.RequeueOf? && Accepted(s, op)
    ensures Has(s, op.id) && Has(Step(s, clock, op), op.id)
    ensures CountsUp(Get(s, op.id), Get(Step(s, clock, op), op.id))
  {
    RequeueStep(s, clock, op);
    RequeueTouches(s, clock, op.id, op.agent, op.session, op.failure, op.cap, op.deadLetterTag);
    CountedUp(Get(s, op.id), Get(Step(s, clock, op), op.id));
  }

  lemma CountedUp(r: Row, r': Row)
    requires r'[ATTEMPT_COUNT] == Number(Some(Increment(AttemptsOf(r))))
    ensures CountsUp(r, r')
  {
  }

  /** What the log says about a requeue: the number of the attempt, the session if there is one, and the reason. */
  lemma RequeueText(k: nat, n: int, session: string, failure: string)
    requires n < 0
    ensures RequeueReason(k, None, failure) == "requeue #" + Decimal(k) + ": " + failure
    ensures RequeueReason(k, Some(session), failure) == "requeue #" + Decimal(k) + " (session " + session + "): " + failure
    ensures RequeueReason(n, None, failure) == "requeue #-" + Decimal(-n) + ": " + failure
  {
    assert "requeue #" + ("-" + Decimal(-n)) == "requeue #-" + Decimal(-n);
  }

  // ------------------------------------------------------------- list entries

  /** The characters of Unicode's White_Space property. */
  const SPACES: set<int> := {9, 10, 11, 12, 13, 32, 133, 160, 5760, 8192, 8193, 8194, 8195, 8196, 8197, 8198, 8199, 8200,
                             8201, 8202, 8232, 8233, 8239, 8287, 12288}

  lemma SpacesAre(c: char)
    ensures IsWhitespace(c) <==> c as int in SPACES
  {
  }

  /** A list write stores the entries that are not made of white space alone, none else. */
  lemma StoredEntries(values: seq<string>, x: string)
    ensures x in Stored(values) <==> x in values && exists k :: 0 <= k < |x| && x[k] as int !in SPACES
  {
    forall k | 0 <= k < |x|
      ensures IsWhitespace(x[k]) <==> x[k] as int in SPACES
    {
      SpacesAre(x[k]);
    }
  }

  /** The entry is neither made of white space nor the pending mark. */
  ghost predicate IsKept(x: string) {
    x != "pending-ratification" && exists k :: 0 <= k < |x| && x[k] as int !in SPACES
  }

  // ------------------------------------------------------------- ratification

  /** The item carries the tag of the phase and the pending mark. */
  predicate AwaitsRatification(r: Row, phase: string) {
    r[TAGS].list.Some? && phase in r[TAGS].list.value && "pending-ratification" in r[TAGS].list.value
  }

  predicate IsVoyage(id: Id) {
    |id| >= 3 && id[0] == 'V' && id[1] == 'Y' && id[2] == '-'
  }

  lemma VoyageIdIs(id: Id)
    ensures IsVoyageId(id) <==> IsVoyage(id)
  {
    if IsVoyageId(id) {
      assert id[..3][0] == 'V' && id[..3][1] == 'Y' && id[..3][2] == '-';
    }
  }

  /** An item that awaited ratification keeps its other tags, and is in progress if its id is a voyage's. */
  ghost predicate IsRatified(id: Id, r: Row, r': Row) {
    && (forall x :: x in ListOf(r', TAGS) <==> x in ListOf(r, TAGS) && IsKept(x))
    && r'[STATUS].text == (if IsVoyage(id) then Some("in_progress") else r[STATUS].text)
  }

  lemma AwaitsIs(s: State, id: Id, phase: string)
    requires Has(s, id)
    ensures Pending(s, id, phase) <==> AwaitsRatification(Get(s, id), phase)
  {
  }

  lemma KeptTagsAre(tags: seq<string>, x: string)
    ensures x in KeptTags(tags) <==> x in tags && IsKept(x)
  {
    StoredEntries(Filter(tags, y => y != PENDING), x);
  }

  lemma RatifiedIs(id: Id, r: Row, r': Row)
    requires Ratified(id, ListOf(r, TAGS), r, r')
    ensures IsRatified(id, r, r')
  {
    VoyageIdIs(id);
    forall x
      ensures x in ListOf(r', TAGS) <==> x in ListOf(r, TAGS) && IsKept(x)
    {
      KeptTagsAre(ListOf(r, TAGS), x);
    }
  }

  /** What a ratification does to an item; one that does not await it stays as it is. */
  lemma RatifyResult(s: State, clock: Clock, phase: string, x: Id)
    requires AllRowsFound(s) && Has(s, x)
    ensures var s' := Ratify(s, clock, phase);
            && Has(s', x)
            && if AwaitsRatification(Get(s, x), phase) then IsRatified(x, Get(s, x), Get(s', x)) else Get(s', x) == Get(s, x)
  {
    RatifyRow(s, clock, phase, x);
    AwaitsIs(s, x, phase);
    if AwaitsRatification(Get(s, x), phase) {
      RatifiedIs(x, Get(s, x), Get(Ratify(s, clock, phase), x));
    }
  }

  /** The report, in literal tags and ids: stripped are the live items that carry the pending mark and the tag of the phase,
      started those of them that are voyages and not in progress. */
  lemma RatifyReportIs(s: State, clock: Clock, phase: string, x: Id)
    requires AllRowsFound(s)
    ensures var targets := TargetsIn(s, phase, |s.rows|);
            && (x in TargetIds(targets) <==> Has(s, x) && AwaitsRatification(Get(s, x), phase))
            && (x in StartedBy(s, clock, targets) <==>
                  Has(s, x) && AwaitsRatification(Get(s, x), phase) && IsVoyage(x) && Get(s, x)[STATUS].text != Some("in_progress"))
  {
    ReportOn(s, clock, phase, x);
    VoyageIdIs(x);
    if Has(s, x) {
      AwaitsIs(s, x, phase);
    }
  }

  // --------------------------------------------------------------- extraction

  /** The scheduler's view of a row: its cells, with a dash for a missing priority or assignee and no entries for a missing
      list. */
  predicate IsViewOf(i: ItemInfo, r: Row) {
    && r[ID].text == Some(i.id) && r[TITLE].text == Some(i.title) && r[ITEM_TYPE].text == Some(i.itemType)
    && r[STATUS].text == Some(i.status) && r[PRIORITY_RANK].number == i.rank
    && i.priority == (match r[PRIORITY].text case Some(p) => p case None => "-")
    && i.assignee == (match r[ASSIGNEE].text case Some(p) => p case None => "-")
    && i.related == (match r[RELATED].list case Some(l) => l case None => [])
    && i.dependsOn == (match r[DEPENDS_ON].list case Some(l) => l case None => [])
  }

  lemma ViewIs(i: ItemInfo, r: Row)
    ensures InfoOf(r) == i <==> IsViewOf(i, r)
  {
  }

  /** The scheduler sees an item exactly if it is the view of a live row. */
  lemma ExtractedExactlyIf(s: State, i: ItemInfo)
    requires UniqueLive(s.rows)
    ensures i in Extracted(s.rows) <==> Has(s, i.id) && IsViewOf(i, Get(s, i.id))
  {
    ExtractedIs(s, i);
    if Has(s, i.id) {
      ViewIs(i, Get(s, i.id));
    }
  }

  /** The items are the views of live rows at increasing positions. */
  ghost predicate InOrder(at: seq<nat>, rows: seq<Row>, items: seq<ItemInfo>) {
    && |at| == |items|
    && (forall i :: 0 <= i < |at| ==> at[i] < |rows| && !IsDeleted(rows[at[i]]) && items[i] == InfoOf(rows[at[i]]))
    && forall i, j :: 0 <= i < j < |at| ==> at[i] < at[j]
  }

  lemma InOrderSkip(at: seq<nat>, rows: seq<Row>, items: seq<ItemInfo>, r: Row)
    requires InOrder(at, rows, items)
    ensures InOrder(at, rows + [r], items)
  {
  }

  lemma InOrderSnoc(at: seq<nat>, rows: seq<Row>, items: seq<ItemInfo>, r: Row, i: ItemInfo)
    requires InOrder(at, rows, items) && !IsDeleted(r) && i == InfoOf(r)
    ensures InOrder(at + [|rows|], rows + [r], items + [i])
  {
  }

  /** The scheduler's items come in storage order. */
  lemma {:induction false} ExtractedInOrder(rows: seq<Row>) returns (at: seq<nat>)
    ensures InOrder(at, rows, Extracted(rows))
  {
    if rows == [] {
      at := [];
    } else {
      var before, r := rows[..|rows| - 1], rows[|rows| - 1];
      at := ExtractedInOrder(before);
      assert rows == before + [r];
      if IsDeleted(r) {
        InOrderSkip(at, before, Extracted(before), r);
      } else {
        InOrderSnoc(at, before, Extracted(before), r, InfoOf(r));
        at := at + [|before|];
      }
    }
  }

  /** A live item that is not done, complete or retired. */
  predicate IsUnfinished(s: State, x: Id) {
    Has(s, x) && Get(s, x)[STATUS].text !in {Some("done"), Some("complete"), Some("retired")}
  }

  /** The scheduler's dependency relation, in cells: both items unfinished, and one in the other's list. */
  lemma DependsExactlyIf(s: State, x: Id, y: Id)
    requires UniqueLive(s.rows)
    ensures Dep(GraphOf(Extracted(s.rows)), x, y) <==>
            && IsUnfinished(s, x) && IsUnfinished(s, y)
            && Get(s, x)[DEPENDS_ON].list.Some? && y in Get(s, x)[DEPENDS_ON].list.value
  {
    BoardDependencies(s, x, y);
    UnfinishedIs(s, x);
    UnfinishedIs(s, y);
  }

  lemma UnfinishedIs(s: State, x: Id)
    ensures IsOpen(s, x) <==> IsUnfinished(s, x)
  {
  }

  // ------------------------------------------------------------------- claims

  /** The agent's name is in the assignee cell of an item in progress. */
  predicate Holds(s: State, x: Id, agent: string) {
    Has(s, x) && Get(s, x)[STATUS].text == Some("in_progress") && Get(s, x)[ASSIGNEE].text == Some(agent)
  }

  /** Nobody is called by the empty text; otherwise a claim is what the cells say. */
  lemma ClaimIs(s: State, x: Id, agent: string)
    ensures Claims.Held(s, x, agent) <==> agent != "" && Holds(s, x, agent)
  {
  }
}
