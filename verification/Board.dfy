/** The board as the store's callers see it: rows in storage order, the runs log, and each operation's effect. */
module Board {
  import opened Columns
  import opened IdAlloc
  import opened ItemTypes
  import opened Seqs
  import opened Wrappers

  /** The readings of the wall clock, in the order in which they are taken. */
  type Clock = nat -> int

  /** One row of the runs table: a status change. */
  datatype Run = Run(
    itemId: Id,
    from: Option<string>,
    to: string,
    timestamp: int,
    agent: Option<string>,
    forced: bool,
    reason: Option<string>
  )

  /** Items, runs, and how often the clock has been read. */
  datatype State = State(rows: seq<Row>, log: seq<Run>, ticks: nat)

  datatype Error =
    | NotFound(id: Id)
    | DuplicateId(id: Id)
    | ClaimConflict(id: Id, current: string, attempted: string)
    | InvalidRequeue(id: Id)
    | InvalidResolution(id: Id)
    | NotAdmitted(id: Id)

  datatype Input = Input(
    title: string,
    itemType: ItemType,
    priority: Option<string>,
    assignee: Option<string>,
    tags: seq<string>,
    related: seq<Id>,
    dependsOn: seq<Id>,
    body: Option<string>,
    bodyHash: Option<string>
  )

  predicate IsTerminal(status: string) {
    status in ["done", "complete", "abandoned", "retired"]
  }

  // ---------------------------------------------------------------- lookup

  predicate IsLive(r: Row, id: Id) {
    !IsDeleted(r) && IdOf(r) == id
  }

  /** Position of the first row with this id that is not deleted; the number of rows if there is none. */
  function Find(rows: seq<Row>, id: Id): (k: nat)
    ensures k <= |rows|
    ensures k < |rows| ==> IsLive(rows[k], id)
  {
    if rows == [] then 0 else
      var k := Find(rows[..|rows| - 1], id);
      if k < |rows| - 1 || IsLive(rows[|rows| - 1], id) then k else |rows|
  }

  predicate Has(s: State, id: Id) {
    Find(s.rows, id) < |s.rows|
  }

  function Get(s: State, id: Id): Row
    requires Has(s, id)
  {
    s.rows[Find(s.rows, id)]
  }

  lemma {:induction false} FindFirst(rows: seq<Row>, id: Id)
    ensures forall j :: 0 <= j < Find(rows, id) ==> !IsLive(rows[j], id)
  {
    if rows != [] {
      FindFirst(rows[..|rows| - 1], id);
    }
  }

  lemma FindIs(rows: seq<Row>, id: Id, k: nat)
    requires k <= |rows| && (k < |rows| ==> IsLive(rows[k], id)) && forall j :: 0 <= j < k ==> !IsLive(rows[j], id)
    ensures Find(rows, id) == k
  {
    FindFirst(rows, id);
  }

  // ---------------------------------------------------------------- writes

  function SetCell(s: State, id: Id, col: nat, c: Cell): State
    requires Has(s, id) && col < WIDTH && Fits(col, c)
  {
    var k := Find(s.rows, id);
    s.(rows := s.rows[k := With(s.rows[k], col, c)])
  }

  /** Columns whose value does not decide which row an id finds. */
  predicate Plain(col: nat) {
    col < WIDTH && col != ID && col != DELETED
  }

  /** The same rows with the same ids, so every id still finds the row it found. */
  ghost predicate Keeps(s: State, r: State) {
    && |r.rows| == |s.rows|
    && (forall k {:trigger r.rows[k]} ::
          0 <= k < |s.rows| ==> IdOf(r.rows[k]) == IdOf(s.rows[k]) && IsDeleted(r.rows[k]) == IsDeleted(s.rows[k]))
    && forall x {:trigger Find(r.rows, x)} :: Find(r.rows, x) == Find(s.rows, x)
  }

  lemma SetCellKeeps(s: State, id: Id, col: nat, c: Cell)
    requires Has(s, id) && Plain(col) && Fits(col, c)
    ensures Keeps(s, SetCell(s, id, col, c))
  {
    var rows, rows' := s.rows, SetCell(s, id, col, c).rows;
    forall x
      ensures Find(rows', x) == Find(rows, x)
    {
      assert forall j :: 0 <= j < |rows| ==> IsLive(rows'[j], x) == IsLive(rows[j], x);
      FindFirst(rows, x);
      FindIs(rows', x, Find(rows, x));
    }
  }

  /** Another id's row is untouched, and this id's row differs in the named cell only. */
  lemma SetCellGets(s: State, id: Id, col: nat, c: Cell, x: Id)
    requires Has(s, id) && Plain(col) && Fits(col, c) && Has(s, x)
    ensures Has(SetCell(s, id, col, c), x)
    ensures Get(SetCell(s, id, col, c), x) == if x == id then With(Get(s, id), col, c) else Get(s, x)
  {
    SetCellKeeps(s, id, col, c);
  }

  /** One cell, in a column that does not decide which row is found. */
  function SetField(s: State, id: Id, col: nat, c: Cell): (r: State)
    requires Has(s, id) && Plain(col) && Fits(col, c)
    ensures Keeps(s, r)
  {
    SetCellKeeps(s, id, col, c);
    SetCell(s, id, col, c)
  }

  function Touch(s: State, clock: Clock, id: Id): (r: State)
    requires Has(s, id)
    ensures Keeps(s, r)
  {
    SetField(s, id, UPDATED_AT, Number(Some(clock(s.ticks)))).(ticks := s.ticks + 1)
  }

  /** A field and then `updated_at`. */
  function UpdateField(s: State, clock: Clock, id: Id, col: nat, c: Cell): (r: State)
    requires Has(s, id) && Plain(col) && Fits(col, c)
    ensures Keeps(s, r)
  {
    Touch(SetField(s, id, col, c), clock, id)
  }

  /** The body and its hash, and then `updated_at`. */
  function UpdateBody(s: State, clock: Clock, id: Id, body: Option<string>, hash: Option<string>): (r: State)
    requires Has(s, id)
    ensures Keeps(s, r)
  {
    UpdateField(SetField(s, id, BODY, Text(body)), clock, id, BODY_HASH, Text(hash))
  }

  function Record(s: State, clock: Clock, id: Id, from: Option<string>, to: string, agent: Option<string>, forced: bool,
                  reason: Option<string>): State
  {
    s.(log := s.log + [Run(id, from, to, clock(s.ticks), agent, forced, reason)], ticks := s.ticks + 1)
  }

  /** Both closure fields are set to null. */
  function ClearClosure(s: State, clock: Clock, id: Id): (r: State)
    requires Has(s, id)
    ensures Keeps(s, r)
  {
    UpdateField(UpdateField(s, clock, id, RESOLUTION, Text(None)), clock, id, CLOSED_BY, Text(None))
  }

  /** The status is written and the change is logged. */
  function LogStatus(s: State, clock: Clock, id: Id, to: string, agent: Option<string>, forced: bool,
                     reason: Option<string>): (r: State)
    requires Has(s, id)
    ensures Keeps(s, r)
  {
    Record(UpdateField(s, clock, id, STATUS, Text(Some(to))), clock, id, Some(StatusOf(Get(s, id))), to, agent, forced, reason)
  }

  function UpdateStatus(s: State, clock: Clock, id: Id, to: string, agent: Option<string>, forced: bool,
                        reason: Option<string>): (r: State)
    requires Has(s, id)
    ensures Keeps(s, r)
  {
    var s1 := LogStatus(s, clock, id, to, agent, forced, reason);
    if IsTerminal(to) then s1 else ClearClosure(s1, clock, id)
  }

  predicate IsWhitespace(c: char) {
    var n := c as int;
    9 <= n <= 13 || n == 0x20 || n == 0x85 || n == 0xA0 || n == 0x1680 || 0x2000 <= n <= 0x200A ||
    n == 0x2028 || n == 0x2029 || n == 0x202F || n == 0x205F || n == 0x3000
  }

  predicate IsBlank(s: string) {
    forall k :: 0 <= k < |s| ==> IsWhitespace(s[k])
  }

  /** What a list write stores: blank entries are dropped. */
  function Stored(values: seq<string>): seq<string> {
    Filter(values, v => !IsBlank(v))
  }

  predicate IsListColumn(col: nat) {
    col == TAGS || col == RELATED || col == DEPENDS_ON
  }

  function UpdateList(s: State, clock: Clock, id: Id, col: nat, values: seq<string>): (r: State)
    requires Has(s, id) && IsListColumn(col)
    ensures Keeps(s, r)
  {
    UpdateField(s, clock, id, col, List(Some(Stored(values))))
  }

  function AddToList(s: State, clock: Clock, id: Id, col: nat, value: string): (r: State)
    requires Has(s, id) && IsListColumn(col)
    ensures Keeps(s, r)
  {
    var current := ListOf(Get(s, id), col);
    if value in current then s else UpdateList(s, clock, id, col, current + [value])
  }

  function RemoveFromList(s: State, clock: Clock, id: Id, col: nat, value: string): (r: State)
    requires Has(s, id) && IsListColumn(col)
    ensures Keeps(s, r)
  {
    var current := ListOf(Get(s, id), col);
    var next := Filter(current, v => v != value);
    if |next| == |current| then s else UpdateList(s, clock, id, col, next)
  }

  lemma {:induction false} FilterWithout(s: seq<string>, value: string)
    ensures |Filter(s, v => v != value)| == |s| <==> value !in s
  {
    if s != [] {
      FilterWithout(s[..|s| - 1], value);
      assert s == s[..|s| - 1] + [s[|s| - 1]];
    }
  }

  // ------------------------------------------------------ create and delete

  function NewRow(id: Id, input: Input, now: int): Row {
    [Text(Some(id)), Text(Some(input.title)), Text(Some(TypeName(input.itemType))), Text(Some("backlog")),
     Text(input.priority), Number(Some(now)), Text(input.assignee), Text(Some(BoardName(input.itemType))),
     List(Some(input.tags)), List(Some(input.related)), List(Some(input.dependsOn)), Text(input.body),
     Text(input.bodyHash), Flag(false), Text(None), Text(None), Number(Some(now)), Number(None), Number(Some(0))]
  }

  function AddItem(s: State, clock: Clock, id: Id, input: Input): State {
    var s1 := s.(rows := s.rows + [NewRow(id, input, clock(s.ticks))], ticks := s.ticks + 1);
    Record(s1, clock, id, None, "backlog", None, false, None)
  }

  function Delete(s: State, id: Id): State
    requires Has(s, id)
  {
    SetCell(s, id, DELETED, Flag(true))
  }

  // -------------------------------------------------------- claim protocol

  function AssigneeOf(r: Row): Option<string> {
    if r[ASSIGNEE].text == Some("") then None else r[ASSIGNEE].text
  }

  /** An unforced claim is refused while another agent holds the item in progress. */
  predicate ClaimConflicts(s: State, id: Id, agent: string, forced: bool)
    requires Has(s, id)
  {
    var r := Get(s, id);
    !forced && StatusOf(r) == "in_progress" && AssigneeOf(r).Some? && AssigneeOf(r) != Some(agent)
  }

  function OptionalField(s: State, clock: Clock, id: Id, col: nat, value: Option<string>): (r: State)
    requires Has(s, id) && (col == RESOLUTION || col == CLOSED_BY)
    ensures Keeps(s, r)
  {
    if value.Some? then UpdateField(s, clock, id, col, Text(value)) else s
  }

  function Assign(s: State, id: Id, agent: Option<string>): (r: State)
    requires Has(s, id)
    ensures Keeps(s, r)
  {
    SetField(s, id, ASSIGNEE, Text(agent))
  }

  predicate IsResolution(resolution: string) {
    resolution in ["completed", "superseded", "wont_do", "duplicate", "obsolete", "merged", "refuted"]
  }

  /** A resolution must be a known one, and the target status terminal. */
  predicate ResolutionAllowed(resolution: Option<string>, to: string) {
    resolution.Some? ==> IsResolution(resolution.value) && IsTerminal(to)
  }

  /** The first guard that refuses a move; `admitted` is the verdict of the transition and WIP checks, which force skips. */
  function MoveRefusal(s: State, id: Id, to: string, agent: Option<string>, force: bool, resolution: Option<string>,
                       admitted: bool): Option<Error>
  {
    if !Has(s, id) then Some(NotFound(id))
    else if !ResolutionAllowed(resolution, to) then Some(InvalidResolution(id))
    else if !force && !admitted then Some(NotAdmitted(id))
    else if to == "in_progress" && agent.Some? && ClaimConflicts(s, id, agent.value, force) then
      Some(ClaimConflict(id, AssigneeOf(Get(s, id)).value, agent.value))
    else None
  }

  predicate CanMove(s: State, id: Id, to: string, agent: Option<string>, force: bool, resolution: Option<string>,
                    admitted: bool)
  {
    MoveRefusal(s, id, to, agent, force, resolution, admitted).None?
  }

  /** The writes of the move command, after its guards have passed. */
  function Move(s: State, clock: Clock, id: Id, to: string, agent: Option<string>, force: bool,
                resolution: Option<string>, closedBy: Option<string>): State
    requires Has(s, id)
  {
    var s1 := UpdateStatus(s, clock, id, to, None, force, None);
    var s2 := if agent.Some? then Assign(s1, id, agent) else s1;
    OptionalField(OptionalField(s2, clock, id, RESOLUTION, resolution), clock, id, CLOSED_BY, closedBy)
  }

  // ---------------------------------------------------------------- requeue

  const I32_MAX: int := 0x7FFF_FFFF

  /** 32-bit signed addition of one. */
  function Increment(n: int): int {
    if n == I32_MAX then -I32_MAX - 1 else n + 1
  }

  function AttemptsOf(r: Row): int {
    match r[ATTEMPT_COUNT].number
    case Some(n) => n
    case None => 0
  }

  function Signed(n: int): string {
    if n < 0 then "-" + Decimal(-n) else Decimal(n)
  }

  function RequeueReason(attempts: int, session: Option<string>, reason: string): string {
    match session
    case Some(x) => "requeue #" + Signed(attempts) + " (session " + x + "): " + reason
    case None => "requeue #" + Signed(attempts) + ": " + reason
  }

  predicate CanRequeue(s: State, id: Id, cap: int) {
    cap >= 1 && Has(s, id) && StatusOf(Get(s, id)) == "in_progress"
  }

  function Release(s: State, clock: Clock, id: Id, to: string, agent: Option<string>, reason: string,
                   attempts: int): (r: State)
    requires Has(s, id)
    ensures Keeps(s, r)
  {
    var s1 := UpdateStatus(s, clock, id, to, agent, false, Some(reason));
    SetField(Assign(s1, id, None), id, ATTEMPT_COUNT, Number(Some(attempts)))
  }

  /** Releases the claim, counts the attempt, and parks the item when it has used up its attempts. */
  function Requeue(s: State, clock: Clock, id: Id, agent: Option<string>, session: Option<string>, reason: string,
                   cap: int, deadLetterTag: string): (r: State)
    requires CanRequeue(s, id, cap)
  {
    var attempts := Increment(AttemptsOf(Get(s, id)));
    var dead := attempts >= cap;
    var s1 := Release(s, clock, id, if dead then "blocked" else "backlog", agent,
                      RequeueReason(attempts, session, reason), attempts);
    if dead then AddToList(s1, clock, id, TAGS, deadLetterTag) else s1
  }

  // ----------------------------------------------------------- ratification

  const PENDING: string := "pending-ratification"

  predicate IsPending(tags: seq<string>, phase: string) {
    phase in tags && PENDING in tags
  }

  /** The ids of the first `n` rows, deleted rows included, find live rows. */
  predicate RowsFound(s: State, n: nat)
    requires n <= |s.rows|
  {
    forall k {:trigger FoundAt(s, k)} :: 0 <= k < n ==> FoundAt(s, k)
  }

  predicate FoundAt(s: State, k: nat)
    requires k < |s.rows|
  {
    Has(s, IdOf(s.rows[k]))
  }

  predicate AllRowsFound(s: State) {
    RowsFound(s, |s.rows|)
  }

  datatype Target = Target(id: Id, tags: seq<string>)

  function TargetIds(targets: seq<Target>): (r: seq<Id>) {
    seq(|targets|, k requires 0 <= k < |targets| => targets[k].id)
  }

  predicate AllHave(s: State, targets: seq<Target>) {
    forall k :: 0 <= k < |targets| ==> Has(s, targets[k].id)
  }

  /** For each of the first `n` rows, the item of that id if it awaits ratification in this phase. */
  function TargetsIn(s: State, phase: string, n: nat): (r: seq<Target>)
    requires n <= |s.rows| && RowsFound(s, n)
    ensures AllHave(s, r)
  {
    if n == 0 then [] else
      assert FoundAt(s, n - 1);
      var id := IdOf(s.rows[n - 1]);
      var tags := ListOf(Get(s, id), TAGS);
      TargetsIn(s, phase, n - 1) + if IsPending(tags, phase) then [Target(id, tags)] else []
  }

  lemma {:induction false} TargetsCarryTags(s: State, phase: string, n: nat)
    requires n <= |s.rows| && RowsFound(s, n)
    ensures forall k :: 0 <= k < |TargetsIn(s, phase, n)| ==>
              var t := TargetsIn(s, phase, n)[k]; t.tags == ListOf(Get(s, t.id), TAGS) && IsPending(t.tags, phase)
  {
    if n > 0 {
      assert FoundAt(s, n - 1);
      TargetsCarryTags(s, phase, n - 1);
    }
  }

  predicate IsVoyageId(id: Id) {
    |id| >= 3 && id[..3] == "VY-"
  }

  predicate NeedsStart(s: State, id: Id) {
    IsVoyageId(id) && Has(s, id) && StatusOf(Get(s, id)) != "in_progress"
  }

  function Strip(s: State, clock: Clock, t: Target): (r: State)
    requires Has(s, t.id)
    ensures Keeps(s, r)
  {
    UpdateList(s, clock, t.id, TAGS, Filter(t.tags, x => x != PENDING))
  }

  function RatifyOne(s: State, clock: Clock, t: Target): (r: State)
    requires Has(s, t.id)
    ensures Keeps(s, r)
  {
    var s1 := Strip(s, clock, t);
    if NeedsStart(s1, t.id) then UpdateStatus(s1, clock, t.id, "in_progress", Some("ratify"), false, Some("ratified"))
    else s1
  }

  function RatifyAll(s: State, clock: Clock, targets: seq<Target>): (r: State)
    requires AllHave(s, targets)
    ensures Keeps(s, r)
  {
    if targets == [] then s else
      var last, before := targets[|targets| - 1], RatifyAll(s, clock, targets[..|targets| - 1]);
      assert Has(s, last.id) && Has(before, last.id);
      RatifyOne(before, clock, last)
  }

  /** Whether ratifying `t` next, after `before`, starts it. */
  predicate Starts(s: State, clock: Clock, before: seq<Target>, t: Target)
    requires AllHave(s, before) && Has(s, t.id)
  {
    var s1 := RatifyAll(s, clock, before);
    assert Has(s1, t.id);
    NeedsStart(Strip(s1, clock, t), t.id)
  }

  /** The voyages that ratifying these targets starts, in order. */
  function StartedBy(s: State, clock: Clock, targets: seq<Target>): seq<Id>
    requires AllHave(s, targets)
  {
    if targets == [] then [] else
      var t, before := targets[|targets| - 1], targets[..|targets| - 1];
      StartedBy(s, clock, before) + if Starts(s, clock, before, t) then [t.id] else []
  }

  function Ratify(s: State, clock: Clock, phase: string): State
    requires AllRowsFound(s)
  {
    RatifyAll(s, clock, TargetsIn(s, phase, |s.rows|))
  }

  // ------------------------------------------------------------------ query

  /** An absent filter accepts everything; a null cell meets no filter. */
  predicate Accepts(filter: Option<string>, c: Cell)
    requires c.Text?
  {
    filter.None? || c.text == filter
  }

  predicate Matches(r: Row, status: Option<string>, itemType: Option<string>, board: Option<string>, assignee: Option<string>) {
    && !IsDeleted(r)
    && Accepts(status, r[STATUS]) && Accepts(itemType, r[ITEM_TYPE])
    && Accepts(board, r[BOARD]) && Accepts(assignee, r[ASSIGNEE])
  }

  function Query(rows: seq<Row>, status: Option<string>, itemType: Option<string>, board: Option<string>,
                 assignee: Option<string>): seq<Row>
  {
    if rows == [] then [] else
      var last := rows[|rows| - 1];
      Query(rows[..|rows| - 1], status, itemType, board, assignee) +
        if Matches(last, status, itemType, board, assignee) then [last] else []
  }
}
