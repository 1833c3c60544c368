/** The board as a plain map from id to item: no rows, no batches, no deleted items, the same operations. */
module BoardMap {
  import opened Board
  import opened Columns
  import opened History
  import opened IdAlloc
  import opened Seqs
  import opened Wrappers

  /** The live items, the ids ever used in the order of their creation, the log, and how often the clock was read. */
  datatype Map = Map(items: map<Id, Row>, ids: seq<Id>, log: seq<Run>, ticks: nat)

  /** An item while an operation works on it: the row, the clock readings so far, and what was logged. */
  datatype Draft = Draft(row: Row, ticks: nat, log: seq<Run>)

  // -------------------------------------------------------- work on one item

  function Put(d: Draft, col: nat, c: Cell): Draft
    requires Plain(col) && Fits(col, c)
  {
    d.(row := With(d.row, col, c))
  }

  /** A cell and the time of the change. */
  function Stamp(d: Draft, clock: Clock, col: nat, c: Cell): Draft
    requires Plain(col) && Fits(col, c)
  {
    Put(Put(d, col, c), UPDATED_AT, Number(Some(clock(d.ticks)))).(ticks := d.ticks + 1)
  }

  function Note(d: Draft, clock: Clock, id: Id, from: Option<string>, to: string, agent: Option<string>, forced: bool,
                reason: Option<string>): Draft
  {
    d.(log := d.log + [Run(id, from, to, clock(d.ticks), agent, forced, reason)], ticks := d.ticks + 1)
  }

  function Restatus(d: Draft, clock: Clock, id: Id, to: string, agent: Option<string>, forced: bool,
                    reason: Option<string>): Draft
  {
    var d1 := Note(Stamp(d, clock, STATUS, Text(Some(to))), clock, id, Some(StatusOf(d.row)), to, agent, forced, reason);
    if IsTerminal(to) then d1
    else Stamp(Stamp(d1, clock, RESOLUTION, Text(None)), clock, CLOSED_BY, Text(None))
  }

  function PutList(d: Draft, clock: Clock, col: nat, values: seq<string>): Draft
    requires IsListColumn(col)
  {
    Stamp(d, clock, col, List(Some(Stored(values))))
  }

  function PutEntry(d: Draft, clock: Clock, col: nat, value: string): Draft
    requires IsListColumn(col)
  {
    if value in ListOf(d.row, col) then d else PutList(d, clock, col, ListOf(d.row, col) + [value])
  }

  function DropEntry(d: Draft, clock: Clock, col: nat, value: string): Draft
    requires IsListColumn(col)
  {
    if value !in ListOf(d.row, col) then d
    else PutList(d, clock, col, Filter(ListOf(d.row, col), v => v != value))
  }

  function StampSome(d: Draft, clock: Clock, col: nat, value: Option<string>): Draft
    requires col == RESOLUTION || col == CLOSED_BY
  {
    if value.Some? then Stamp(d, clock, col, Text(value)) else d
  }

  function PutAgent(d: Draft, agent: Option<string>): Draft {
    if agent.Some? then Put(d, ASSIGNEE, Text(agent)) else d
  }

  function Moved(d: Draft, clock: Clock, id: Id, to: string, agent: Option<string>, force: bool,
                 resolution: Option<string>, closedBy: Option<string>): Draft
  {
    var d1 := PutAgent(Restatus(d, clock, id, to, None, force, None), agent);
    StampSome(StampSome(d1, clock, RESOLUTION, resolution), clock, CLOSED_BY, closedBy)
  }

  function Freed(d: Draft, clock: Clock, id: Id, to: string, agent: Option<string>, reason: string, attempts: int): Draft {
    var d1 := Restatus(d, clock, id, to, agent, false, Some(reason));
    Put(Put(d1, ASSIGNEE, Text(None)), ATTEMPT_COUNT, Number(Some(attempts)))
  }

  function Requeued(d: Draft, clock: Clock, id: Id, agent: Option<string>, session: Option<string>, failure: string,
                    cap: int, tag: string): Draft
  {
    var attempts := Increment(AttemptsOf(d.row));
    var dead := attempts >= cap;
    var d1 := Freed(d, clock, id, if dead then "blocked" else "backlog", agent,
                    RequeueReason(attempts, session, failure), attempts);
    if dead then PutEntry(d1, clock, TAGS, tag) else d1
  }

  function Stripped(d: Draft, clock: Clock, tags: seq<string>): Draft {
    PutList(d, clock, TAGS, Filter(tags, x => x != PENDING))
  }

  function Ratified(d: Draft, clock: Clock, t: Target): Draft {
    var d1 := Stripped(d, clock, t.tags);
    if IsVoyageId(t.id) && StatusOf(d1.row) != "in_progress" then
      Restatus(d1, clock, t.id, "in_progress", Some("ratify"), false, Some("ratified"))
    else d1
  }

  /** Whether an operation on an existing item is accepted. */
  predicate Allowed(r: Row, op: Op)
    requires IsWrite(op)
  {
    match op
    case Edit(_, col, cell) => Editable(col) && Fits(col, cell)
    case EditList(_, col, _) => IsListColumn(col)
    case AddEntry(_, col, _) => IsListColumn(col)
    case RemoveEntry(_, col, _) => IsListColumn(col)
    case MoveTo(_, to, agent, force, resolution, _, admitted) =>
      && ResolutionAllowed(resolution, to) && (force || admitted)
      && !(to == "in_progress" && agent.Some? && !force && StatusOf(r) == "in_progress" &&
           AssigneeOf(r).Some? && AssigneeOf(r) != agent)
    case RequeueOf(_, _, _, _, cap, _) => cap >= 1 && StatusOf(r) == "in_progress"
    case SetStatus(_, _, _, _, _) => true
    case EditBody(_, _, _) => true
  }

  function Worked(d: Draft, clock: Clock, op: Op): Draft
    requires IsWrite(op) && Allowed(d.row, op)
  {
    match op
    case SetStatus(id, to, agent, forced, reason) => Restatus(d, clock, id, to, agent, forced, reason)
    case Edit(_, col, cell) => Stamp(d, clock, col, cell)
    case EditBody(_, body, hash) => Stamp(Put(d, BODY, Text(body)), clock, BODY_HASH, Text(hash))
    case EditList(_, col, values) => PutList(d, clock, col, values)
    case AddEntry(_, col, value) => PutEntry(d, clock, col, value)
    case RemoveEntry(_, col, value) => DropEntry(d, clock, col, value)
    case MoveTo(id, to, agent, force, resolution, closedBy, _) => Moved(d, clock, id, to, agent, force, resolution, closedBy)
    case RequeueOf(id, agent, session, failure, cap, tag) => Requeued(d, clock, id, agent, session, failure, cap, tag)
  }

  // ------------------------------------------------------- work on the map

  function Open(m: Map, id: Id): Draft
    requires id in m.items
  {
    Draft(m.items[id], m.ticks, [])
  }

  function Close(m: Map, id: Id, d: Draft): Map {
    m.(items := m.items[id := d.row], log := m.log + d.log, ticks := d.ticks)
  }

  function Added(m: Map, clock: Clock, id: Id, input: Input): Map {
    Map(m.items[id := NewRow(id, input, clock(m.ticks))], m.ids + [id],
        m.log + [Run(id, None, "backlog", clock(m.ticks + 1), None, false, None)], m.ticks + 2)
  }

  /** The greatest number that any id ever used has under `prefixes`. */
  ghost function Highest(ids: seq<Id>, prefixes: set<string>): nat {
    if ids == [] then 0 else IdAlloc.Max(Highest(ids[..|ids| - 1], prefixes), MaxUnder(ids[|ids| - 1], prefixes))
  }

  ghost function NewIdIn(m: Map, input: Input): Id {
    IdText(input.itemType, IdAlloc.Next(IdAlloc.Max(Highest(m.ids, Prefixes()), GLOBAL_ID_BASE)))
  }

  predicate Present(items: map<Id, Row>, ids: seq<Id>) {
    forall k :: 0 <= k < |ids| ==> ids[k] in items
  }

  /** Every id ever used is the id of a live item. */
  predicate AllLive(m: Map) {
    Present(m.items, m.ids)
  }

  /** The items that await ratification, in the order of their ids' creation. */
  function Awaiting(items: map<Id, Row>, phase: string, ids: seq<Id>): seq<Target>
    requires Present(items, ids)
  {
    if ids == [] then [] else
      var id, before := ids[|ids| - 1], ids[..|ids| - 1];
      Awaiting(items, phase, before) +
        if IsPending(ListOf(items[id], TAGS), phase) then [Target(id, ListOf(items[id], TAGS))] else []
  }

  function RatifiedEach(m: Map, clock: Clock, targets: seq<Target>): (r: Map)
    requires forall k :: 0 <= k < |targets| ==> targets[k].id in m.items
    ensures r.items.Keys == m.items.Keys && r.ids == m.ids
  {
    if targets == [] then m else
      var t, m1 := targets[|targets| - 1], RatifiedEach(m, clock, targets[..|targets| - 1]);
      assert t.id in m1.items;
      Close(m1, t.id, Ratified(Open(m1, t.id), clock, t))
  }

  lemma {:induction false} AwaitingAreItems(items: map<Id, Row>, phase: string, ids: seq<Id>)
    requires Present(items, ids)
    ensures forall k :: 0 <= k < |Awaiting(items, phase, ids)| ==> Awaiting(items, phase, ids)[k].id in items
  {
    if ids != [] {
      AwaitingAreItems(items, phase, ids[..|ids| - 1]);
    }
  }

  function RatifiedPhase(m: Map, clock: Clock, phase: string): Map
    requires AllLive(m)
  {
    AwaitingAreItems(m.items, phase, m.ids);
    RatifiedEach(m, clock, Awaiting(m.items, phase, m.ids))
  }

  /** One step of the map; a refused operation changes nothing. */
  ghost function OnMap(m: Map, clock: Clock, op: Op): Map {
    if op.Create? then Added(m, clock, NewIdIn(m, op.input), op.input)
    else if op.CreateWithId? then if op.id in m.items then m else Added(m, clock, op.id, op.input)
    else if op.RatifyOf? then if AllLive(m) then RatifiedPhase(m, clock, op.phase) else m
    else if op.Remove? then m.(items := m.items - {op.id})
    else if op.id in m.items && Allowed(m.items[op.id], op) then Close(m, op.id, Worked(Open(m, op.id), clock, op))
    else m
  }

  const NO_ITEMS: Map := Map(map[], [], [], 0)

  ghost function MapAfter(clock: Clock, ops: seq<Op>): Map {
    if ops == [] then NO_ITEMS else OnMap(MapAfter(clock, ops[..|ops| - 1]), clock, ops[|ops| - 1])
  }
}
