# Verification model of arrow-kanban

A Dafny 4.11 model of the kanban engine's two cores and three of its self-contained parts, with proofs about every run
and every input. `dafny verify dfyconfig.toml` checks the whole project.

**The scheduler** (`src/critical_path.rs`). `DepGraph` says what chains, cycles and longest chains of a dependency
relation are, without any algorithm. `Dependencies`, `Kahn` and `CriticalPath` are the loops of `compute_critical_path`:
adjacency lists and in-degrees, the queue with longest-chain propagation, the memoised reachable sets, the backward walk
and the ready/blocked split. Where the code iterates a hash map, the model picks an arbitrary element, so the results
hold for every iteration order. `Draining` iterates "finish all that is ready". `Worklist` and `Voyages` consume the
report: agents' lists, folding of typed edges, voyage groups and campaign totals. `WorklistExample` runs the analysis and
the worklist on one board.

**The store** (`src/crud.rs`). `KanbanStore` is a class over column batches that are rebuilt cell by cell, and a runs log;
each method's contract ties the new state to a function of the old one in `Board`, which sees the batches as a list of
rows. `Effects` says which cells each operation touches. `History` turns every operation into a step and proves, over
whole runs, that untouched cells stay and that at most one row per id is live. On top of it: `BoardMap` and `Refinement`
(the store refines a machine on a plain map of live items, which has its own log, clock count and ids), `Audit` (the log replays to the current status), `Chronology` (the log is in the order of time), `Numbering`
(allocated numbers), `Claims`, `Requeues`, `Ratification` and `Closure` (the protocols). `Roadmap` connects the store to
the scheduler, `Flow` (`src/flow.rs`) rebuilds board history from the log and is compared with the store. `FailingRuns` holds the runs on
which the code does not do what its documentation says.

**Self-contained parts.** `ItemTypes` and `IdAlloc` (`src/item_type.rs`, `src/id_alloc.rs`): decimal printing and parsing,
the scan over all prefixes. `Base64` (`src/base64.rs`). `Exploration` and `Materialize`: the depth-limited stack walk of
the materialize command (`src/main.rs`); `MaterializeExample` builds the boards on which it misses items.

**The laws.** What the loops compute is stated through small definitions (which statuses are closed, what an agent may take,
which types are in scope), and these definitions are shared by all theorems. The modules `SchedulerLaws`, `WorklistLaws`,
`VoyageLaws`, `MaterializeLaws`, `StoreLaws`, `IdLaws` and `FlowLaws` say what the results are without them: in items, edges,
cells, and literal statuses, types, tags and prefixes.

The clock is an input: a function from the number of readings so far to a time. Only `Chronology` and `Flow` assume that
it never goes back, and they say so. Numbers that the code keeps in 32 bits wrap around as in a release build. The id
counter is the one place where whole-run results need more: that no step of the run collides, which is to give a new item
the id of a live one (`History.NeverCollides`). This is exactly the condition for unique ids throughout a run
(`Numbering.RunsAreUniqueUnlessCollision`). It holds while the counter lasts, which a caller can check before each creation
(`Numbering.LastingNeverCollides`); a collision takes an exhausted counter (`Numbering.CollisionMeansExhausted`), and a run
can exhaust it (`Numbering.ExhaustedIsReachable`).

## What the code does differently from its documentation

- `compute_critical_path` reports a "cycle" also when two active items have the same id; `CriticalPath.ComputeCriticalPath`
  states the exact condition, and `Roadmap.BoardCriticalPath` shows that a board with one live row per id is refused for
  cycles only. The store keeps to one live row per id as long as no step collides; `FailingRuns.CycleReportedWithoutCycle`
  is a run of three creations that does collide, after which a board without any dependency is refused.
- The comment in `generate_worklist` sorts by downstream count before priority; the code compares priority first. The two
  orders disagree on a pair exactly if it has the same rank and its priorities and counts strictly oppose each other
  (`Worklist.DocumentedUnlessOpposed`), a list follows the documented order exactly if it shows no such pair
  (`Worklist.ListFollowsDocumentation`), and `WorklistExample.PlanBoard` is a board whose list does not.
- The comment "skip if already assigned to another agent in this worklist" has no code behind it: two agents are told to
  do the same work at some limit exactly if some ready or blocked item is open to both (`Worklist.SharedExactlyWhenOpen`),
  and at a given limit exactly if it is due in both agents' queues (`Worklist.SharedExactlyWhenDue`);
  `WorklistExample.PlanBoard` gives two agents the same list.
- With a depth limit of 0 the list of an agent that has an item in progress still holds that item; in no other case is the
  limit exceeded (`Worklist.ListIsBounded`).
- `ratify_phase` is documented as total, but one deleted id that has not been created again makes every call fail
  (`Ratification.TombstonesBlock`); creating and deleting one item is enough (`FailingRuns.RatifyFails`).
- Closure fields are documented as meaningful on closed items only; a move that names `closed_by` with an open target
  leaves it there (`Closure.MoveClearsUnlessNamed`, with the run `FailingRuns.ClosedByStays`).
- The materialize walk takes a "maximum depth", but can miss items within that depth, because an item reached first by a
  long way is not expanded again when a shorter way turns up: `MaterializeExample.CollectMisses` builds such a board for
  every depth of two or more, and `Exploration.WhenDepthIsExact` says for which depths and sizes it cannot happen.
- The requeue breaker is documented to park an item from the cap on. The 32-bit counter wraps around, so the k-th requeue
  parks exactly if k modulo 2^32 is between the cap and 2^31 - 1 (`Requeues.Breaker`, `Requeues.TripsWhen`). `FailingRuns.BreakerFails` is the run: from 2^31 rounds of taking
  an item up and requeueing it on, the item is back in backlog, whatever the cap.

## Model

| member | source | states |
|---|---|---|
| `DepGraph.DepthIsLongestChain` | src/critical_path.rs:195-231 | The equations that depth propagation establishes (deeper than every dependency, by exactly one than some) have the longest chains as their only solution |
| `DepGraph.LongestChainsAreDepths` | src/critical_path.rs:195-231 | Conversely, the lengths of longest chains solve these equations |
| `DepGraph.StuckReachesCycle` | src/critical_path.rs:233-244 | Every node that counting can never release reaches a cycle along dependencies |
| `DepGraph.OrderedReachesNoCycle` | src/critical_path.rs:233-244 | No node in a dependency-respecting order reaches a cycle |
| `DepGraph.DownstreamStep` | src/critical_path.rs:267-299 | What depends on a node, directly or not, is its direct dependents and everything that depends on those: the recurrence that the memoised sets use |
| `DepGraph.DepthsExcludeCycles` | src/critical_path.rs:195-244 | A graph whose depth equations can be solved has no cycle |
| `Dependencies.GraphEdges` | src/critical_path.rs:159-193 | `x` depends on `y` exactly when both are active and an active item with id `x` lists `y`; closed, unknown and repeated ids included |
| `Dependencies.BuildGraph` | src/critical_path.rs:175-193 | The adjacency lists and in-degrees built by the loop hold every entry of the dependency relation with its multiplicity, self-dependencies included |
| `Kahn.Enumerate` | src/critical_path.rs:196-209 | The initial queue lists the roots in an arbitrary order, each once |
| `Kahn.ReleaseOne` | src/critical_path.rs:216-229 | One turn of the inner loop: the dependent gets at least one deeper, loses one pending dependency, and enters the queue exactly when that was its last one |
| `Kahn.Sort` | src/critical_path.rs:195-231 | For every queue order: no id twice, every dependency before its dependents, the ids that are left out all wait for one another, and depths are relaxed over all processed edges |
| `Kahn.CompleteOrder` | src/critical_path.rs:203-231 | If nothing is left out, the order is topological and the depths solve the depth equations |
| `CriticalPath.ReachableSet` | src/critical_path.rs:286-296 | The set of one node, made of its dependents and their sets, is everything reachable through dependents |
| `CriticalPath.CountDownstream` | src/critical_path.rs:267-299 | Every count is the cardinality of the set of items that depend on the item, directly or not, never a number of paths |
| `CriticalPath.TraceLongestPath` | src/critical_path.rs:345-401 | The walk ends; its result is a real chain from a root, of maximum depth plus one items, and no chain is longer; empty when the maximum depth is 0 |
| `CriticalPath.ReadyAreRoots` | src/critical_path.rs:305-318 | Ready are exactly the active ids without active dependencies, blocked exactly the others, none twice |
| `CriticalPath.SplitAndRank` | src/critical_path.rs:305-331 | The split, with the ready ids sorted by rank and priority |
| `CriticalPath.OrderedOrStuck` | src/critical_path.rs:233-244 | Counting decides correctly: fewer ids are ordered than there are active items exactly when there is a cycle or two active items share an id |
| `CriticalPath.StuckAreOnCycles` | src/critical_path.rs:234-243 | The reported items are exactly the active ones that reach a cycle |
| `CriticalPath.ComputeCriticalPath` | src/critical_path.rs:156-342 | Refused exactly on a cycle or a repeated active id, naming exactly the items that reach a cycle; otherwise a topological order, longest-chain depths, reachable-set counts, a longest path, and the ready/blocked split |
| `CriticalPath.ReportIsDetermined` | src/critical_path.rs:195-231 | Any two reports on the same items agree on depths, counts, path length, ready and blocked sets, however the hash maps were iterated |
| `CriticalPath.ReadyAndBlockedAreDistinct` | src/critical_path.rs:305-318 | No id is listed twice among ready and blocked |
| `CriticalPath.DepthBelowCount` | src/critical_path.rs:204-222 | Depths stay below the number of active items, so a 32-bit depth does not overflow on a board of fewer than 2^32 items |
| `Draining.ActiveAfterFinish` | src/critical_path.rs:160-173 | Marking active ids done takes exactly these items off the active board |
| `Draining.RoundStep` | src/critical_path.rs:160-231 | Finishing all roots keeps the board analysable and lowers every remaining depth by one |
| `Draining.DrainingTheorem` | src/critical_path.rs:160-331 | After n rounds of finishing all that is ready, just the items of depth n or more are left, the analysis succeeds, and every depth is n lower |
| `Draining.BoardEmpties` | src/critical_path.rs:160-331 | A round finishes what the report calls ready; the board is empty after maximum depth plus one rounds and not before |
| `Worklist.AssignedWork` | src/critical_path.rs:706-710 | The current item of an agent is the last item in progress under its name |
| `Worklist.DocumentedUnlessOpposed` | src/critical_path.rs:754-783 | The order of the code and the order of its comment (own items, rank, downstream count, priority) disagree on a pair exactly if it agrees in ownership and rank while one item has the better priority and the other the greater count |
| `Worklist.ListFollowsDocumentation` | src/critical_path.rs:754-797 | The ready part of an agent's list is in the documented order exactly if no two of its items oppose priority and count |
| `Worklist.GenerateWorklist` | src/critical_path.rs:696-832 | The loops produce for each agent its current item, then eligible ready items most urgent first up to the limit, then eligible blocked items up to the limit |
| `Worklist.ListIsBounded` | src/critical_path.rs:716-825 | At most `limit` entries, except exactly if the limit is 0 and the agent has an item in progress, which then is the only entry; none assigned to someone else, all but the current item in backlog and within the agent's capabilities, entries shown as blocked really blocked |
| `Worklist.CurrentComesFirst` | src/critical_path.rs:716-726 | The item that an agent has in progress comes first in its list, whatever the limit |
| `Worklist.NoRepeats` | src/critical_path.rs:716-825 | No item twice in one agent's list |
| `Worklist.BlockedComeLast` | src/critical_path.rs:785-823 | A blocked item is shown only if every eligible ready item is listed, and a list below the limit leaves out nothing eligible |
| `Worklist.MostUrgentFirst` | src/critical_path.rs:756-797 | Ready work that is left out is no more urgent than any ready work that is shown |
| `Worklist.SharedIsOpenToBoth` | src/critical_path.rs:785-823 | Whatever the limit, an item that two agents' lists share is ready or blocked work that both may take |
| `Worklist.SharedExactlyWhenOpen` | src/critical_path.rs:785-823 | Nothing reserves an item: on every board, two agents' lists share an item at some limit exactly if some ready or blocked item is open to both |
| `WorklistExample.PlanBoard` | src/critical_path.rs:696-832 | The analysis and the worklist run on a board of three: two agents get the same two items, in an order that the comment does not give |
| `WorklistExample.BoardOrder` | src/critical_path.rs:754-783 | On that board, whatever report describes it, the item of higher priority has the smaller downstream count and nothing else sets the two apart |
| `Worklist.PlanIsQueue` | src/critical_path.rs:716-825 | A list is the current item, and then as much of the agent's queue (ready work by urgency, then blocked work) as the limit leaves places |
| `Worklist.QueueHolds` | src/critical_path.rs:742-823 | The queue holds exactly the ready and blocked work that the agent may start, each item once |
| `Worklist.QueueOrder` | src/critical_path.rs:756-783 | Ahead of ready work in the queue there is only ready work that is at least as urgent |
| `Worklist.SharedExactlyWhenDue` | src/critical_path.rs:785-823 | For every limit: two agents' lists share an item exactly if in each agent's queue fewer items are ahead of it than the limit leaves places |
| `SchedulerLaws.NodesAre` | src/critical_path.rs:160-173 | Active is an id that has an item, and no item that is done, complete or retired; in-progress items stay active |
| `SchedulerLaws.EdgesAre` | src/critical_path.rs:175-193 | One active id depends on another exactly if some item of the first lists the second |
| `SchedulerLaws.ReportCovers` | src/critical_path.rs:305-342 | Depths and counts cover exactly the active ids; ready are those of which no item lists an active id, blocked the others |
| `SchedulerLaws.PriorityOrder` | src/critical_path.rs:861-869 | Critical, high, medium, low in any capitalisation rank in this order, and any other text after them |
| `SchedulerLaws.ReadyInOrder` | src/critical_path.rs:871-887 | Ready items with a rank come first, by rank; equal ranks, and items without one, go by priority |
| `WorklistLaws.OfferedExactlyIf` | src/critical_path.rs:618-634 | Offered to an agent is exactly the ready or blocked work in backlog that is unassigned or its own, and for which, once any capabilities are declared, the agent is declared and provides all that is required |
| `WorklistLaws.ListedIsOffered` | src/critical_path.rs:716-825 | Every listed item is on the board, and is the agent's current one or so offered |
| `WorklistLaws.NothingDeclared` | src/critical_path.rs:618-624 | If no agent declares anything, requirements withhold nothing |
| `WorklistLaws.CurrentIs` | src/critical_path.rs:706-726 | The current item is the last one in progress that carries the agent's name; the dash is no agent |
| `WorklistLaws.EntryTitles` | src/critical_path.rs:899-906 | Titles of more than 40 characters are cut to 37 and three dots |
| `WorklistLaws.ListPerAgent` | src/critical_path.rs:712-832 | One list per agent, in the order in which the agents are given |
| `WorklistLaws.UrgencyIs` | src/critical_path.rs:756-783 | Own items first; then rank and priority; and among equals the item with at least as much work waiting behind it |
| `Voyages.FoldTypedMemberships` | src/critical_path.rs:424-470 | Every item gains exactly the voyages that it implements or that spawn it and that it did not name before, each once, behind what it named; nothing else changes |
| `Voyages.FoldIsIdempotent` | src/critical_path.rs:424-470 | Folding twice is folding once, whatever order the edges are visited in |
| `Voyages.FoldKeepsVoyages` | src/critical_path.rs:424-470 | Folding changes neither the voyages nor which of them the typed edges name |
| `Voyages.CampaignAggregate` | src/critical_path.rs:922-949 | Members that exist on the board, the expeditions under them, and how many of these are finished |
| `Voyages.CampaignCountsEveryLink` | src/critical_path.rs:424-470 | After folding, the campaign total counts once each expedition that a member voyage is linked to by `related`, `implements` or `spawns` |
| `Voyages.PlaceItem` | src/critical_path.rs:483-501 | An item is listed under every voyage it names, as often as it names it, and counts as placed exactly if it names one |
| `Voyages.GroupByVoyage` | src/critical_path.rs:472-554 | The groups are those of all voyages but finished ones with only finished children, sorted; orphans are the open non-voyage items that name no voyage |
| `Voyages.NoOpenWorkIsLost` | src/critical_path.rs:472-554 | Every open non-voyage item is in the group of each voyage it names, which is then not dropped, or it is an orphan, and never both |
| `VoyageLaws.FoldedNames` | src/critical_path.rs:424-470 | After folding an item names what it named before and the voyages that it implements or that spawn it by an edge that is not deleted, and nothing else |
| `VoyageLaws.ShownExactlyIf` | src/critical_path.rs:506-530 | A voyage is shown exactly if it is not done or complete, or has an unfinished child; its group counts the places where items name it, and those of finished items |
| `VoyageLaws.GroupsAreVoyages` | src/critical_path.rs:472-530 | Every group is that of a voyage of the board, with these counts, and lists exactly the items, no voyages, that name it |
| `VoyageLaws.OrphansAre` | src/critical_path.rs:537-551 | Orphans are the items that are no voyages, not done, complete or retired, and name no voyage of the board |
| `VoyageLaws.GroupsInOrder` | src/critical_path.rs:533-538 | Groups go by status: in progress, backlog, review, finished, others; and then by the id, as text |
| `VoyageLaws.TextOrder` | src/critical_path.rs:533-538 | Texts are ordered by the first character in which they differ |
| `VoyageLaws.CampaignCounts` | src/critical_path.rs:922-949 | The campaign total counts the expeditions that name a member voyage of the board, done those that are done, complete or retired |
| `VoyageLaws.CampaignMembers` | src/critical_path.rs:922-949 | Members are the voyages of the board among those asked for |
| `ItemTypes.AllTypes` | src/item_type.rs:96-101 | The two boards together list every item type, so a scan over them meets every prefix |
| `IdAlloc.ParseDecimal` | src/id_alloc.rs:44-52 | Printing and parsing a number gives it back, and is refused exactly above 2^32 - 1 |
| `IdAlloc.MaxIdForPrefix` | src/id_alloc.rs:30-59 | The scan over all batches and rows, deleted ones included, finds the greatest number in use under a prefix, before any dot |
| `IdAlloc.GlobalMaxId` | src/id_alloc.rs:75-94 | The scan over all types finds the greatest number in use under any current or legacy prefix |
| `IdAlloc.AllocateId` | src/id_alloc.rs:97-101 | The allocated id is the prefix of the type with the number after the maximum, from the base on |
| `IdAlloc.NumberOfAllocated` | src/id_alloc.rs:30-59 | An allocated id is read back as its own number, under its own prefix and no other |
| `IdAlloc.CounterAdvances` | src/id_alloc.rs:97-101 | The next number exceeds every number in use, and the base, exactly when the maximum is below 2^32 - 1 |
| `IdAlloc.AllocatedIsFresh` | src/id_alloc.rs:97-101 | Until then the allocated id differs from the id of every row, deleted rows included |
| `IdLaws.PrefixesAre` | src/item_type.rs:54-100 | The 13 current and 6 legacy prefixes are scanned, and no others |
| `IdLaws.PrefixesOfType` | src/item_type.rs:54-100 | Which prefixes each type has |
| `IdLaws.NumberOf` | src/id_alloc.rs:40-55 | A plain id counts with its number, a dotted one with the number before the first dot |
| `IdLaws.CountedIds` | src/id_alloc.rs:40-55 | Only ids of a known prefix and a dash count, and with the number up to the first dot |
| `IdLaws.NextIsGreater` | src/id_alloc.rs:75-101 | While the counter lasts, the next number is greater than that of every row, legacy and dotted ids included |
| `IdLaws.FirstId` | src/id_alloc.rs:63-101 | Counting starts at 1300: the first expedition is EX-1300 |
| `IdLaws.Signs` | src/id_alloc.rs:44-52 | A plus sign may precede the number, other signs may not |
| `Columns.ReplacedInTable` | src/crud.rs:531-568 | Replacing one cell of one column of one batch replaces one cell of one row of the table, and nothing else |
| `Columns.AppendedRow` | src/crud.rs:276-317 | Pushing a one-row batch appends one row to the table |
| `KanbanStore.KanbanStore.constructor` | src/crud.rs:112-121 | A new store has no rows and an empty log |
| `KanbanStore.KanbanStore.FindItem` | src/crud.rs:1301-1326 | Finds the first row, batch by batch, that has the id and is not deleted, and its status; fails exactly if there is none |
| `KanbanStore.KanbanStore.GetItem` | src/crud.rs:392-412 | Returns that row, or NotFound |
| `KanbanStore.KanbanStore.ReplaceCell` | src/crud.rs:640-665 | Rebuilding the columns of a batch changes one cell of one row of the whole table |
| `KanbanStore.KanbanStore.TouchUpdatedAt` | src/crud.rs:1414-1448 | Sets `updated_at` of one item to the current time |
| `KanbanStore.KanbanStore.WriteField` | src/crud.rs:773-782 | A field edit writes the field and `updated_at` of one item, or fails with NotFound and changes nothing |
| `KanbanStore.KanbanStore.UpdateBody` | src/crud.rs:785-795 | Writes body, hash and `updated_at` of one item |
| `KanbanStore.KanbanStore.UpdateAssignee` | src/crud.rs:605-637 | Writes the assignee and not `updated_at` |
| `KanbanStore.KanbanStore.RecordRun` | src/crud.rs:1451-1479 | Appends one row to the runs log, stamped with the current time |
| `KanbanStore.KanbanStore.UpdateStatus` | src/crud.rs:516-602 | Returns the old status; writes the new one, logs the change, and clears the closure fields unless the new status is terminal |
| `KanbanStore.KanbanStore.UpdateListField` | src/crud.rs:712-770 | Stores the list without its blank entries |
| `KanbanStore.KanbanStore.ReplaceList` | src/crud.rs:798-801 | Replaces a whole list and touches `updated_at` |
| `KanbanStore.KanbanStore.AddToListField` | src/crud.rs:932-940 | Appends an entry that is not there yet; otherwise changes nothing |
| `KanbanStore.KanbanStore.RemoveFromListField` | src/crud.rs:948-961 | Removes all copies of an entry and reports whether there were any; otherwise changes nothing |
| `KanbanStore.KanbanStore.CreateItem` | src/crud.rs:257-322 | Appends a backlog item under a newly allocated id and logs its creation |
| `KanbanStore.KanbanStore.CreateItemWithId` | src/crud.rs:325-389 | The same under a given id; refused, without effect, exactly if a live item has it |
| `KanbanStore.KanbanStore.DeleteItem` | src/crud.rs:1158-1182 | Marks the item's row as deleted; no row is ever removed |
| `KanbanStore.KanbanStore.QueryItems` | src/crud.rs:1185-1256 | Collects the rows that are not deleted and meet all filters, in storage order |
| `KanbanStore.KanbanStore.CheckExclusiveClaim` | src/crud.rs:469-513 | Refuses exactly an unforced claim on an item that another, non-empty assignee has in progress, naming the holder |
| `KanbanStore.KanbanStore.MoveItem` | src/main.rs:1163-1237 | All guards come before the first write: a refused move changes nothing and names the first guard that refuses (unknown item, resolution, transition or WIP, another agent's claim); an accepted one does exactly the writes of a move |
| `KanbanStore.KanbanStore.RequeueItem` | src/crud.rs:1113-1155 | Accepted exactly for a cap of at least 1 and an item in progress; reports the attempt, the new status and whether the item was parked; a refused call changes nothing and reports an unknown item unless the cap itself is invalid |
| `KanbanStore.KanbanStore.PendingTargets` | src/crud.rs:832-848 | Finds, row by row, the items that carry both tags; fails exactly if the id of some row has no live item |
| `KanbanStore.KanbanStore.RatifyPhase` | src/crud.rs:829-896 | Accepted exactly if every row's id has a live item; then nothing is left pending and the report lists what was stripped and started; a refused call changes nothing |
| `Effects.UpdateFieldTouches` | src/crud.rs:773-782 | A field edit changes the named cell and `updated_at` of one item; every other cell, item, id and log row stays |
| `Effects.UpdateStatusTouches` | src/crud.rs:516-602 | A status change touches status, `updated_at` and closure fields of one item, logs exactly one row from the old to the new status, and clears the closure fields exactly if the new status is not terminal |
| `Effects.AddToListTouches` | src/crud.rs:932-940 | Adding an entry keeps the order of the others, drops blank ones, and touches nothing else |
| `Effects.RemoveFromListTouches` | src/crud.rs:948-961 | A removal takes all copies of the entry, leaves the others in their order without blank ones, and touches nothing but the list and `updated_at`; an entry that is not there changes nothing |
| `Effects.MoveTouches` | src/main.rs:1214-1237 | A move touches one item: status, closure fields, `updated_at`, and the assignee exactly if one is named; it logs one row |
| `Effects.RequeueTouches` | src/crud.rs:1113-1155 | A requeue clears the assignee, raises the counter by one, goes to blocked with the tag from the cap on and to backlog before, logs one row that names the attempt, and touches nothing else |
| `History.StepFrame` | src/crud.rs:516-1182 | A step other than deleting an item keeps the item and every cell of it that the operation does not name |
| `History.UntouchedCellsStay` | src/crud.rs:516-1182 | Over every run, a cell that no step names keeps its value |
| `History.FixedCellsStay` | src/crud.rs:516-1182 | No run changes the id, type, board or time of creation of an item that it does not delete |
| `Numbering.NewIdIsFresh` | src/crud.rs:257-258 | An allocated id belongs to no live item while the counter lasts |
| `History.StepKeepsUnique` | src/crud.rs:257-389 | Every step that does not give a new item the id of a live one keeps at most one live row per id |
| `Refinement.StepOnMap` | src/crud.rs:257-1182 | While ids are unique and the step does not collide, every step, moves, requeues and ratifications included, does to the map of live items, the ids ever used, the log and the clock what the map machine does |
| `Refinement.RunsRefineMap` | src/crud.rs:257-1182 | After every run without collision the store stands for exactly what the map machine reaches by itself, timestamps, log, allocated ids and refusals included, with one row per id |
| `Refinement.WriteOnMap` | src/crud.rs:516-1155 | An accepted write works on one item only: the new rows are the old map with that item replaced by what the map machine makes of it |
| `Refinement.RatifyAllOnMap` | src/crud.rs:850-876 | Ratifying targets one after the other in the rows is ratifying them one after the other in the map |
| `Refinement.HighestIs` | src/id_alloc.rs:75-94 | The greatest number among the ids ever used is the greatest number among the rows |
| `Refinement.ItemsAre` | src/crud.rs:392-412 | Looking up an id finds exactly what the map holds |
| `Refinement.QueryOnMap` | src/crud.rs:1185-1256 | A query returns exactly the matching items of the map, each once |
| `StoreLaws.QueryReturns` | src/crud.rs:1185-1256 | A row is returned exactly if it is the live row of its id and every filter that is given is the text of its cell: status, type, board, assignee |
| `StoreLaws.NullMeetsNoFilter` | src/crud.rs:1241-1245 | A row without assignee meets no assignee filter |
| `StoreLaws.QueryInOrder` | src/crud.rs:1194-1256 | Results come in storage order |
| `StoreLaws.CreationLogged` | src/crud.rs:318-323 | A creation adds one log row, from nothing to backlog, without agent or reason |
| `StoreLaws.CreatedItem` | src/crud.rs:257-323 | The cells of a new item: what the caller gave, backlog, both times now, not deleted, no closure fields, no rank, no attempts |
| `StoreLaws.CreatedType` | src/item_type.rs:108-168 | The names of type and board that a new item of each type gets |
| `StoreLaws.StatusChangeCloses` | src/crud.rs:573-602 | A change to done, complete, abandoned or retired keeps the closure fields, any other clears them |
| `StoreLaws.MoveAccepted` | src/main.rs:1176-1218 | The exact condition for accepting a move, with the seven resolutions and the four terminal statuses |
| `StoreLaws.MoveRefused` | src/main.rs:1176-1218 | A refused move reports the first guard that applies: unknown item, resolution, the other checks, claim; and a conflict names the holder |
| `StoreLaws.DeletionMarks` | src/crud.rs:1158-1182 | A deletion sets the flag of one live row and changes no other cell |
| `StoreLaws.RequeueAccepted` | src/crud.rs:1113-1131 | A requeue is accepted exactly for a cap of at least 1 and a live item whose status cell says in progress |
| `StoreLaws.RequeueCounts` | src/crud.rs:1132-1136 | The counter cell goes up by one in 32 bits, a null cell counting as zero |
| `StoreLaws.RequeueText` | src/crud.rs:1137-1142 | The logged reason names the attempt, the session if there is one, and the reason given |
| `StoreLaws.StoredEntries` | src/crud.rs:712-770 | A list write drops exactly the entries that are empty or white space |
| `StoreLaws.RatifyResult` | src/crud.rs:829-896 | An item with the pending mark and the tag of the phase keeps its other tags, and is in progress if its id starts with VY-; any other item is unchanged |
| `StoreLaws.RatifyReportIs` | src/crud.rs:850-876 | Stripped and started ids, in literal tags, status and id prefix |
| `StoreLaws.ExtractedExactlyIf` | src/critical_path.rs:81-148 | The scheduler sees exactly the views of live rows, cell by cell, with a dash for a missing priority or assignee |
| `StoreLaws.ExtractedInOrder` | src/critical_path.rs:81-148 | The scheduler's items come in storage order |
| `StoreLaws.DependsExactlyIf` | src/critical_path.rs:156-193 | The scheduler's dependencies, in cells: two live items, neither done, complete nor retired, one in the other's list |
| `StoreLaws.ClaimIs` | src/crud.rs:484-513 | A claim is an item in progress with the agent's name, which is not empty, in the assignee cell |
| `Audit.ChangeIsLogged` | src/crud.rs:570-571 | Each status change, move and requeue appends one log row, from the status before to the status after, with the time of the change |
| `Audit.OthersAreSilent` | src/crud.rs:640-801 | No other write changes a status or the log |
| `Audit.StepKeepsAudit` | src/crud.rs:1451-1479 | With one live row per id, every step that does not collide keeps the log consistent with the statuses |
| `Audit.LogReplays` | src/crud.rs:1451-1479 | After every run without collision, the log rows of each live item since its latest creation start at backlog, each continues where the previous one ended, and the last one ends in the current status |
| `Chronology.LogInOrder` | src/crud.rs:1451-1479 | If the clock never goes back, the log of every run is in order, and no row is later than the next clock reading |
| `Numbering.RunGrows` | src/id_alloc.rs:75-101 | Over every run rows are never removed and never change their id |
| `Numbering.NumbersIncrease` | src/id_alloc.rs:75-101 | While the counter lasts, of two creations in a run, with any steps in between, the later one gets the greater number, across item types |
| `Numbering.NeverReused` | src/crud.rs:257-258 | While the counter lasts, an id that any row had at some point of a run is not allocated later in it, even after deletion |
| `Numbering.UniqueExactlyUnlessCollision` | src/crud.rs:257-258 | A step leaves two live rows with one id exactly if it creates an item under the id of a live one |
| `Numbering.RunsAreUniqueUnlessCollision` | src/crud.rs:257-258 | Throughout a run at most one row per id is live exactly if no step of the run collides |
| `Numbering.LastingNeverCollides` | src/id_alloc.rs:97-101 | While the counter lasts, no step of a run collides |
| `Numbering.CollisionMeansExhausted` | src/id_alloc.rs:97-101 | Then the greatest number in use is 2^32 - 1 or more, and the new id has the number 0 |
| `Numbering.ExhaustedIsReachable` | src/crud.rs:325-389 | One creation with an explicit id exhausts the counter of an empty store |
| `Numbering.ExhaustedCounterRepeats` | src/id_alloc.rs:97-101 | From such a state, the next two items of a type share an id and are both live |
| `Claims.StepHolds` | src/crud.rs:497-513 | A step by any agent keeps a claim unless it is accepted and is a move out of progress, a forced handoff, a requeue or a deletion of the item |
| `Claims.ReleaseFrees` | src/crud.rs:1113-1155 | Each of these, once accepted, does end the claim |
| `Claims.ClaimIsExclusive` | src/main.rs:1214-1225 | Over every run an agent that holds an item in progress stays its assignee until such a step is accepted |
| `Claims.ClaimIsRefused` | src/main.rs:1214-1218 | An admitted unforced claim is refused exactly while another agent holds the item |
| `Claims.ClaimIsGranted` | src/main.rs:1220-1225 | A claim that is not refused makes its agent the holder |
| `Requeues.BumpedWraps` | src/crud.rs:1134-1134 | The counter after k increments is the 32-bit wrap of the start plus k, and exact while it fits |
| `Requeues.AttemptsAreCounted` | src/crud.rs:1113-1155 | Over every run that does not delete the item, the counter has been incremented exactly once per successful requeue |
| `Requeues.Breaker` | src/crud.rs:1134-1148 | For every k, the k-th successful requeue of an item that had no attempts leaves it unassigned, in backlog with its tags while k, wrapped to 32 bits, is below the cap, and otherwise in blocked with the dead-letter tag exactly if that is not blank or was there before |
| `Requeues.TripsWhen` | src/crud.rs:1134-1136 | The wrapped k has reached the cap exactly if k modulo 2^32 lies between the cap and 2^31 - 1; up to 2^31 - 1 nothing wraps |
| `Requeues.NewItemHasNoAttempts` | src/crud.rs:325-389 | A created item starts without attempts |
| `Requeues.RoundsTrip` | src/crud.rs:1134-1148 | For every n, n rounds of taking an item up and requeueing it are n successful requeues, and leave it in blocked or backlog by n modulo 2^32 |
| `Ratification.RatifyIsTotal` | src/crud.rs:829-896 | Nothing of the phase is pending afterwards; every item with both tags has lost the pending tag and keeps its other non-blank tags in order, voyages among them are in progress, and every other item is what it was |
| `Ratification.RatifyReports` | src/crud.rs:850-876 | The stripped ids are exactly those of the items with both tags; the started ones are exactly the voyages among them that were not in progress, each once |
| `Ratification.TombstonesBlock` | src/crud.rs:835-848 | A call is accepted exactly if every deleted id has been created again |
| `Ratification.NothingDeleted` | src/crud.rs:835-848 | Without deleted rows every call is accepted |
| `Ratification.TargetsOnce` | src/crud.rs:835-848 | If no two rows share an id, no item is stripped or reported twice |
| `Closure.StepClears` | src/crud.rs:573-602 | A step that does not write a closure field itself keeps open items free of it |
| `Closure.OpenItemsAreCleared` | src/crud.rs:573-602 | After every run of such steps without collision no open item has a resolution or a record of what closed it |
| `Closure.MoveClearsUnlessNamed` | src/main.rs:1227-1237 | A move leaves no resolution on an open item, and no `closed_by` exactly if it names none or its target is terminal |
| `Roadmap.ExtractItems` | src/critical_path.rs:81-148 | The scheduler's items are the rows that are not deleted, in storage order, with a dash for a missing priority or assignee |
| `Roadmap.BoardCriticalPath` | src/main.rs:2003-2005 | The scheduler refuses a board exactly if its dependencies have a cycle or two open items share an id; with one live row per id, exactly if they have a cycle |
| `Roadmap.BoardDependencies` | src/critical_path.rs:156-193 | The scheduler's dependency relation, read off the store: both items live and open, one in the other's dependency list |
| `Roadmap.RunsScheduleUniqueItems` | src/critical_path.rs:81-148 | On every board that a run without collision builds, the scheduler sees each id once |
| `FailingRuns.DeletionBlocks` | src/crud.rs:835-848 | On every board with one live row per id, deleting an item makes the next ratification fail, of whatever phase |
| `FailingRuns.RatifyFails` | src/crud.rs:835-848 | So it does on the board of that one item |
| `FailingRuns.ClosedByStays` | src/main.rs:1227-1237 | Creating an item and moving it to backlog with a `closed_by` leaves an open item that says what closed it |
| `FailingRuns.BreakerFails` | src/crud.rs:1134-1148 | For a new item and every cap, from 2^31 rounds to 2^32 - 1 the requeue goes back to backlog |
| `FailingRuns.CycleReportedWithoutCycle` | src/critical_path.rs:233-244 | After a creation under the greatest id and two more, the scheduler's refusal condition holds without a cycle |
| `Flow.Transitions` | src/flow.rs:40-69 | One transition per log row, sorted by time, those of the same time in log order |
| `Flow.SortedIsLog` | src/flow.rs:67-67 | If the clock never goes back, sorting changes nothing |
| `Flow.FlowItems` | src/flow.rs:72-102 | The rows that are not deleted, in storage order |
| `Flow.StatusSeries` | src/flow.rs:116-158 | Empty without transitions in scope; otherwise buckets one step apart from the earliest positive time to the latest, each counting every item in scope under the status of its last transition by then |
| `Flow.BucketConserves` | src/flow.rs:141-153 | The counts of a bucket sum to the number of items in scope whose first transition is not later |
| `Flow.SeriesAgreesWithStore` | src/flow.rs:141-153 | After a run without collision, and with a clock that never goes back, every bucket from an item's last log row on counts it under its current status |
| `Flow.Aging` | src/flow.rs:230-256 | Computes the ages from the last transition into the current status, sorted from old to young |
| `Flow.AgingSkipsNothing` | src/flow.rs:230-256 | After a run without collision, and with a clock that never goes back, listed are exactly the live items in a status that is not terminal, each with the time since its last log row, and none is skipped as unmeasurable |
| `Flow.AgingListsOnce` | src/flow.rs:230-256 | After a run without collision no item is listed twice |
| `FlowLaws.TransitionSays` | src/flow.rs:40-69 | A transition carries over its log row's fields |
| `FlowLaws.InOrderOfTime` | src/flow.rs:67-67 | The result is in the order of time, and a rearrangement of the log |
| `FlowLaws.SameTimeInLogOrder` | src/flow.rs:67-67 | Transitions of the same time stay in the order of the log |
| `FlowLaws.SeenExactlyIf` | src/flow.rs:72-102 | The items are the views of live rows, cell by cell, with the empty text for a missing assignee |
| `FlowLaws.ScopeIs` | src/flow.rs:122-164 | The series counts the chores and expeditions of the board, in any capitalisation |
| `FlowLaws.CountedStatus` | src/flow.rs:143-148 | A bucket counts an item under the target of its last transition that is not later |
| `FlowLaws.BucketTimes` | src/flow.rs:131-157 | Bucket times are the start plus multiples of the bucket length, which is at least 1 |
| `FlowLaws.AgesAre` | src/flow.rs:230-256 | After a run without collision, ages are the time since the last log row, 0 if that is in the future |
| `FlowLaws.OldestFirst` | src/flow.rs:254-254 | Greater ages come first |
| `Base64.OrAdds` | src/base64.rs:33-33 | Joining bits by shift and or adds, when they do not overlap |
| `Base64.CharsAreSymbols` | src/base64.rs:7-7 | The alphabet string holds the 64 symbols in order |
| `Base64.DecodeTable` | src/base64.rs:9-25 | The loops fill the table with the value of every symbol and 255 elsewhere |
| `Base64.SymbolRoundTrip` | src/base64.rs:7-25 | Table and alphabet are inverse |
| `Base64.Encode` | src/base64.rs:28-49 | The loop over chunks of three prints every chunk as four symbols, padded at the end |
| `Base64.Decode` | src/base64.rs:52-85 | The loop over chunks of four skips padding and line breaks, reads other bytes through the table or as zero, and drops a lone last symbol |
| `Base64.EncodedLength` | src/base64.rs:28-49 | The output has four symbols per three bytes or part of them |
| `Base64.EncodedFormat` | src/base64.rs:28-49 | All symbols are from the alphabet but for two, one or no padding symbols at the end |
| `Base64.RoundTrip` | src/base64.rs:52-85 | Decoding an encoded message gives it back |
| `Base64.RoundTripWithLineBreaks` | src/base64.rs:52-56 | So it does after any carriage returns and line feeds were put anywhere into the text |
| `Base64.CanonicalTexts` | src/base64.rs:28-85 | Encoding a decoded text gives the text back exactly if it is canonical: groups of four from the alphabet, padding only at the end, unused bits zero |
| `Base64.ThreeBytes` | src/base64.rs:28-49 | Three bytes are four symbols of six bits each, highest bits first (section 4 of RFC 4648) |
| `Base64.TwoBytes` | src/base64.rs:28-49 | Two bytes are three symbols and one equals sign |
| `Base64.OneByte` | src/base64.rs:28-49 | One byte is two symbols and two equals signs |
| `Base64.OtherBytes` | src/base64.rs:9-25 | A byte outside the alphabet stands for 255 within the table, and for zero beyond it |
| `Exploration.VisitedOnce` | src/main.rs:739-743 | No node is visited twice, and none outside the finite graph; the walk ends by the measure of unvisited nodes and stack height |
| `Exploration.VisitsWithin` | src/main.rs:739-800 | Only nodes within the depth are visited |
| `Exploration.ExploresAll` | src/main.rs:739-800 | If the depth is at least the number of nodes less one, the visited nodes are closed under successors |
| `Exploration.FromReachesAll` | src/main.rs:734-801 | Then exactly the nodes that can be reached are visited |
| `Exploration.ShallowIsExact` | src/main.rs:734-801 | For a depth of at most one exactly the nodes within the depth are visited |
| `Exploration.DetourMisses` | src/main.rs:734-801 | For every depth of two or more: on a long way past a node that has a short cut (two nodes more than the depth, among any others), the node at the end is within the depth and missed |
| `Exploration.WhenDepthIsExact` | src/main.rs:734-801 | The walk visits everything within the depth on every graph of n nodes exactly if the depth is at most one or at least n less one |
| `Materialize.Expand` | src/main.rs:745-800 | A visited item pushes its related items and dependencies that are not visited, unless no hops are left or it is unknown or out of scope |
| `Materialize.Collect` | src/main.rs:713-800 | The stack loop collects what the walk visits, and fails exactly if the root is unknown |
| `Materialize.CollectedIsSound` | src/main.rs:734-801 | No id twice, the root among them, none further than the depth |
| `Materialize.CollectedReachesAll` | src/main.rs:734-801 | With a depth of at least the number of distinct ids less one, exactly what can be reached |
| `MaterializeLaws.NextLinks` | src/main.rs:745-800 | An item leads to another exactly if it is live, its type is in the scope's literal list, and it names the other as related or as a dependency |
| `MaterializeLaws.DefaultDepth` | src/main.rs:734-801 | With the default depth of one, collected are the root and what it so names |
| `MaterializeLaws.NoDepth` | src/main.rs:739-743 | With a depth of zero the root alone |
| `MaterializeLaws.CollectedIsLinked` | src/main.rs:734-801 | At any depth, a collected item is connected to the root by a chain of at most that many such links |
| `MaterializeLaws.DeepCollect` | src/main.rs:734-801 | With a depth of at least the number of distinct ids less one, collected is exactly what such chains reach |
| `MaterializeLaws.ScopesAndBoards` | src/main.rs:715-732 | Each scope is the types of one board, but for campaigns, which are in neither |
| `MaterializeExample.BoardIsBuilt` | src/crud.rs:325-389 | The creations of the failing run build exactly the items of the detour, whatever distinct ids they get |
| `MaterializeExample.CollectMisses` | src/main.rs:734-801 | For every depth of two or more, every scope, every item type in it and every choice of ids, that run builds a board of two items more than the depth on which the command misses an item within the depth |
| `MaterializeExample.SomeBoardMisses` | src/main.rs:734-801 | For every depth of two or more and every scope there is such a run from the empty store |
| `Materialize.ShallowCollect` | src/main.rs:734-801 | With the default depth of one, or zero, exactly what is that near |

## Left out

- Comments on items, the embedding column, and the loading and saving of batches: no decision of the model depends on them.
- `throughput` and `wip` of `src/flow.rs`: single-pass counts whose facts are easy beside those of the status series.
- `depth_groups` of the critical-path report: the depths, grouped for display.
- Parsing of capabilities and agents, text formatters, the command line, the server, backups and exports.
- `History.Step`: `update_assignee` and the raw string update on the status column are not steps of their own; the first bypasses the claim guard, the second the log.
- `KanbanStore.KanbanStore.MoveItem`: the verdict of the transition table and of the WIP limits is an input; the check of the resolution and the claim guard are modelled. That a board without configuration refuses every move is not.
- `KanbanStore.KanbanStore.UpdateBody`: the hash of the body is an input.
- `Flow.StatusSeries`: times are unbounded integers; the overflow of a bucket time past the 64-bit range is not modelled.
- `Flow.Aging`: likewise for the difference of two times.
- `Materialize.Collect`: the sorting of the collected ids before they are written, and the writing, are not modelled; removing duplicates has no effect, because there are none.
- `Base64.Decode`: works on the bytes of the text, so the UTF-8 decoding of the caller's string is not modelled.
- `CriticalPath.ReportIsDetermined`: says nothing about the order among equally ranked ready items or which of several longest paths is reported, because these do depend on the iteration order.
- 32-bit wrap-around is that of a release build; a debug build stops instead.
- Reads of the clock are numbered per call, so two operations never share a reading, though readings may be equal.
