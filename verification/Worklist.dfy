/** Work assignment: what each agent is told to work on. */
module Worklist {
  import opened CriticalPath
  import opened Items
  import opened Seqs
  import opened Sorting
  import opened Wrappers

  /** Which capabilities items need and agents have; both come from the caller. */
  datatype Routing = Routing(requirements: map<Id, seq<string>>, capabilities: map<string, set<string>>)

  datatype WorkItem = WorkItem(id: Id, title: string, blocked: bool)

  datatype Entry = Entry(agent: string, items: seq<WorkItem>)

  predicate AgentCanTake(routing: Routing, id: Id, agent: string) {
    || routing.capabilities == map[]
    || id !in routing.requirements
    || routing.requirements[id] == []
    || (agent in routing.capabilities && forall c :: c in routing.requirements[id] ==> c in routing.capabilities[agent])
  }

  function Truncate(s: string): string {
    if |s| <= 40 then s else s[..37] + "..."
  }

  /** The item an agent is working on: the last one in progress that is assigned to it. */
  function CurrentOf(items: seq<ItemInfo>, agent: string): Option<Id> {
    if items == [] then None else
      var last := items[|items| - 1];
      if last.status == "in_progress" && last.assignee != "-" && last.assignee == agent then Some(last.id)
      else CurrentOf(items[..|items| - 1], agent)
  }

  /** Work the agent may start: waiting, not someone else's, and within its capabilities. */
  predicate Eligible(m: map<Id, ItemInfo>, routing: Routing, agent: string, id: Id) {
    && id in m && m[id].status == "backlog"
    && (m[id].assignee == "-" || m[id].assignee == agent)
    && AgentCanTake(routing, m[id].id, agent)
  }

  function OwnFirst(m: map<Id, ItemInfo>, agent: string, id: Id): int {
    if id in m && m[id].assignee == agent then 0 else 1
  }

  function CountOf(count: map<Id, nat>, id: Id): nat {
    if id in count then count[id] else 0
  }

  /** Own items first, then rank and priority, then how much work is waiting behind. */
  predicate Before(m: map<Id, ItemInfo>, count: map<Id, nat>, agent: string, a: Id, b: Id) {
    || OwnFirst(m, agent, a) < OwnFirst(m, agent, b)
    || (OwnFirst(m, agent, a) == OwnFirst(m, agent, b) &&
        (!KeyLe(KeyOf(m, b), KeyOf(m, a)) ||
         (KeyOf(m, a) == KeyOf(m, b) && CountOf(count, a) >= CountOf(count, b))))
  }

  function Urgency(m: map<Id, ItemInfo>, count: map<Id, nat>, agent: string): (Id, Id) -> bool {
    (a, b) => Before(m, count, agent, a, b)
  }

  function Rank(m: map<Id, ItemInfo>, id: Id): (int, int) {
    (KeyOf(m, id).bucket, KeyOf(m, id).rank)
  }

  /** The order as documented: own items first, then rank, then how much work is waiting behind, then priority. */
  predicate Documented(m: map<Id, ItemInfo>, count: map<Id, nat>, agent: string, a: Id, b: Id) {
    var (bucketA, rankA), (bucketB, rankB) := Rank(m, a), Rank(m, b);
    || OwnFirst(m, agent, a) < OwnFirst(m, agent, b)
    || (OwnFirst(m, agent, a) == OwnFirst(m, agent, b) &&
        (|| bucketA < bucketB
         || (bucketA == bucketB && rankA < rankB)
         || (Rank(m, a) == Rank(m, b) &&
             (|| CountOf(count, a) > CountOf(count, b)
              || (CountOf(count, a) == CountOf(count, b) && KeyOf(m, a).priority <= KeyOf(m, b).priority)))))
  }

  /** Equal but for priority and the work waiting behind, which speak for different items. */
  predicate Opposed(m: map<Id, ItemInfo>, count: map<Id, nat>, agent: string, a: Id, b: Id) {
    && OwnFirst(m, agent, a) == OwnFirst(m, agent, b) && Rank(m, a) == Rank(m, b)
    && (|| (KeyOf(m, a).priority < KeyOf(m, b).priority && CountOf(count, a) < CountOf(count, b))
        || (KeyOf(m, b).priority < KeyOf(m, a).priority && CountOf(count, b) < CountOf(count, a)))
  }

  /** The order of the code is the documented one but for opposed items. */
  lemma DocumentedUnlessOpposed(m: map<Id, ItemInfo>, count: map<Id, nat>, agent: string, a: Id, b: Id)
    ensures (Before(m, count, agent, a, b) <==> Documented(m, count, agent, a, b)) <==> !Opposed(m, count, agent, a, b)
  {
  }

  lemma UrgencyOrders(m: map<Id, ItemInfo>, count: map<Id, nat>, agent: string)
    ensures TotalPreorder(Urgency(m, count, agent))
  {
  }

  function Available(m: map<Id, ItemInfo>, routing: Routing, agent: string, ids: seq<Id>): seq<Id> {
    Filter(ids, id => Eligible(m, routing, agent, id))
  }

  function Current(items: seq<ItemInfo>, m: map<Id, ItemInfo>, agent: string): (r: seq<WorkItem>)
    ensures |r| <= 1
  {
    match CurrentOf(items, agent)
    case Some(id) => if id in m then [WorkItem(id, Truncate(m[id].title), false)] else []
    case None => []
  }

  function Room(limit: nat, used: nat): nat {
    if used < limit then limit - used else 0
  }

  function Take<T>(s: seq<T>, n: nat): seq<T> {
    if n <= |s| then s[..n] else s
  }

  lemma TakeFacts<T>(s: seq<T>, n: nat)
    ensures |Take(s, n)| <= n && (|Take(s, n)| < n ==> Take(s, n) == s)
    ensures forall x :: x in Take(s, n) ==> x in s
    ensures NoDup(s) ==> NoDup(Take(s, n))
  {
  }

  function Show(m: map<Id, ItemInfo>, ids: seq<Id>, blocked: set<Id>): (r: seq<WorkItem>)
    requires forall id :: id in ids ==> id in m
    ensures |r| == |ids| && forall k :: 0 <= k < |r| ==> r[k].id == ids[k] && r[k].blocked == (ids[k] in blocked)
  {
    seq(|ids|, k requires 0 <= k < |ids| => WorkItem(ids[k], Truncate(m[ids[k]].title), ids[k] in blocked))
  }

  /** The ready items an agent is shown, and then the blocked ones. */
  function Ready(items: seq<ItemInfo>, a: Analysis, agent: string, routing: Routing, limit: nat): (r: seq<Id>) {
    var m := ItemMap(items);
    Take(StableSort(Available(m, routing, agent, a.ready), Urgency(m, a.downstreamCount, agent)),
         Room(limit, |Current(items, m, agent)|))
  }

  function Waiting(items: seq<ItemInfo>, a: Analysis, agent: string, routing: Routing, limit: nat): (r: seq<Id>) {
    var m := ItemMap(items);
    Take(Available(m, routing, agent, a.blocked),
         Room(limit, |Current(items, m, agent)| + |Ready(items, a, agent, routing, limit)|))
  }

  lemma SortedAvailable(m: map<Id, ItemInfo>, a: Analysis, agent: string, routing: Routing)
    ensures var le, available := Urgency(m, a.downstreamCount, agent), Available(m, routing, agent, a.ready);
            && SortedBy(StableSort(available, le), le) && |StableSort(available, le)| == |available|
            && (NoDup(available) ==> NoDup(StableSort(available, le)))
            && forall id :: id in StableSort(available, le) <==> id in a.ready && Eligible(m, routing, agent, id)
  {
    var le, available := Urgency(m, a.downstreamCount, agent), Available(m, routing, agent, a.ready);
    UrgencyOrders(m, a.downstreamCount, agent);
    StableSortSorts(available, le);
    PermutationFacts(available, StableSort(available, le));
  }

  lemma ReadyAreEligible(items: seq<ItemInfo>, a: Analysis, agent: string, routing: Routing, limit: nat)
    ensures forall id :: id in Ready(items, a, agent, routing, limit) ==>
              id in a.ready && Eligible(ItemMap(items), routing, agent, id)
    ensures forall id :: id in Waiting(items, a, agent, routing, limit) ==>
              id in a.blocked && Eligible(ItemMap(items), routing, agent, id)
  {
    var m := ItemMap(items);
    SortedAvailable(m, a, agent, routing);
    TakeFacts(StableSort(Available(m, routing, agent, a.ready), Urgency(m, a.downstreamCount, agent)),
              Room(limit, |Current(items, m, agent)|));
    TakeFacts(Available(m, routing, agent, a.blocked),
              Room(limit, |Current(items, m, agent)| + |Ready(items, a, agent, routing, limit)|));
  }

  /** The list of one agent. */
  function Plan(items: seq<ItemInfo>, a: Analysis, agent: string, routing: Routing, limit: nat): seq<WorkItem> {
    var m, blocked := ItemMap(items), set id | id in a.blocked;
    ReadyAreEligible(items, a, agent, routing, limit);
    Current(items, m, agent) + Show(m, Ready(items, a, agent, routing, limit), blocked) +
      Show(m, Waiting(items, a, agent, routing, limit), blocked)
  }

  // ------------------------------------------------------------- the loops

  method AssignedWork(items: seq<ItemInfo>) returns (current: map<string, Id>)
    ensures forall agent :: CurrentOf(items, agent) == if agent in current then Some(current[agent]) else None
  {
    current := map[];
    for i := 0 to |items|
      invariant forall agent :: CurrentOf(items[..i], agent) == if agent in current then Some(current[agent]) else None
    {
      var item := items[i];
      assert items[..i + 1][..i] == items[..i];
      if item.status == "in_progress" && item.assignee != "-" {
        current := current[item.assignee := item.id];
      }
    }
    assert items[..|items|] == items;
  }

  lemma ShowStep(m: map<Id, ItemInfo>, ids: seq<Id>, id: Id, blocked: set<Id>)
    requires id in m && forall x :: x in ids ==> x in m
    ensures Show(m, ids + [id], blocked) == Show(m, ids, blocked) + [WorkItem(id, Truncate(m[id].title), id in blocked)]
  {
  }

  /** Fills the list with ready items, most urgent first, until the limit is reached. */
  method AddReady(m: map<Id, ItemInfo>, available: seq<Id>, blocked: set<Id>, limit: nat, list0: seq<WorkItem>)
    returns (list: seq<WorkItem>)
    requires forall id :: id in available ==> id in m
    ensures list == list0 + Show(m, Take(available, Room(limit, |list0|)), blocked)
  {
    list := list0;
    var k := 0;
    assert available[..0] == [];
    while k < |available| && |list| < limit
      invariant 0 <= k <= |available| && k <= Room(limit, |list0|)
      invariant |list| == |list0| + k
      invariant list == list0 + Show(m, available[..k], blocked)
    {
      var id := available[k];
      assert available[..k + 1] == available[..k] + [id];
      ShowStep(m, available[..k], id, blocked);
      list := list + [WorkItem(id, Truncate(m[id].title), id in blocked)];
      k := k + 1;
    }
    assert available[..k] == Take(available, Room(limit, |list0|));
  }

  /** Fills the rest of the list with blocked items, in board order. */
  method AddBlocked(m: map<Id, ItemInfo>, routing: Routing, agent: string, waiting: seq<Id>, limit: nat,
                    list0: seq<WorkItem>)
    returns (list: seq<WorkItem>)
    ensures list == list0 + Show(m, Take(Available(m, routing, agent, waiting), Room(limit, |list0|)), set id | id in waiting)
  {
    list := list0;
    var blocked := set id | id in waiting;
    var room := Room(limit, |list0|);
    var k := 0;
    assert waiting[..0] == [];
    while k < |waiting| && |list| < limit
      invariant 0 <= k <= |waiting|
      invariant |Available(m, routing, agent, waiting[..k])| <= room
      invariant list == list0 + Show(m, Available(m, routing, agent, waiting[..k]), blocked)
    {
      var id := waiting[k];
      assert waiting[..k + 1][..k] == waiting[..k];
      if Eligible(m, routing, agent, id) {
        ShowStep(m, Available(m, routing, agent, waiting[..k]), id, blocked);
        list := list + [WorkItem(id, Truncate(m[id].title), true)];
      }
      k := k + 1;
    }
    ScanStops(m, routing, agent, waiting, k, room);
  }

  /** A scan that stops when the room is full, or at the end, has taken the first eligible ones. */
  lemma ScanStops(m: map<Id, ItemInfo>, routing: Routing, agent: string, waiting: seq<Id>, k: nat, room: nat)
    requires k <= |waiting| && |Available(m, routing, agent, waiting[..k])| <= room
    requires k == |waiting| || |Available(m, routing, agent, waiting[..k])| == room
    ensures Take(Available(m, routing, agent, waiting), room) == Available(m, routing, agent, waiting[..k])
  {
    assert waiting == waiting[..k] + waiting[k..];
    FilterAppend(waiting[..k], waiting[k..], id => Eligible(m, routing, agent, id));
    assert k == |waiting| ==> waiting[k..] == [];
  }

  method AddCurrent(items: seq<ItemInfo>, m: map<Id, ItemInfo>, agent: string, inProgress: map<string, Id>)
    returns (list: seq<WorkItem>)
    requires CurrentOf(items, agent) == if agent in inProgress then Some(inProgress[agent]) else None
    ensures list == Current(items, m, agent)
  {
    list := [];
    if agent in inProgress && inProgress[agent] in m {
      list := [WorkItem(inProgress[agent], Truncate(m[inProgress[agent]].title), false)];
    }
  }

  method AddReadyOf(items: seq<ItemInfo>, m: map<Id, ItemInfo>, a: Analysis, agent: string, routing: Routing,
                    limit: nat,
                    list0: seq<WorkItem>)
    returns (list: seq<WorkItem>)
    requires m == ItemMap(items) && |list0| == |Current(items, m, agent)|
    ensures forall id :: id in Ready(items, a, agent, routing, limit) ==> id in m
    ensures list == list0 + Show(m, Ready(items, a, agent, routing, limit), set id | id in a.blocked)
  {
    var available := StableSort(Available(m, routing, agent, a.ready), Urgency(m, a.downstreamCount, agent));
    SortedAvailable(m, a, agent, routing);
    ReadyAreEligible(items, a, agent, routing, limit);
    list := AddReady(m, available, (set id | id in a.blocked), limit, list0);
  }

  method AddBlockedOf(items: seq<ItemInfo>, m: map<Id, ItemInfo>, a: Analysis, agent: string, routing: Routing,
                      limit: nat,
                      list0: seq<WorkItem>)
    returns (list: seq<WorkItem>)
    requires m == ItemMap(items)
    requires |list0| == |Current(items, m, agent)| + |Ready(items, a, agent, routing, limit)|
    ensures forall id :: id in Waiting(items, a, agent, routing, limit) ==> id in m
    ensures list == list0 + Show(m, Waiting(items, a, agent, routing, limit), set id | id in a.blocked)
  {
    ReadyAreEligible(items, a, agent, routing, limit);
    list := list0;
    if |list| < limit {
      list := AddBlocked(m, routing, agent, a.blocked, limit, list);
    } else {
      assert Waiting(items, a, agent, routing, limit) == [];
    }
  }

  method PlanFor(items: seq<ItemInfo>, m: map<Id, ItemInfo>, a: Analysis, agent: string, routing: Routing, limit: nat,
                 inProgress: map<string, Id>)
    returns (list: seq<WorkItem>)
    requires m == ItemMap(items)
    requires CurrentOf(items, agent) == if agent in inProgress then Some(inProgress[agent]) else None
    ensures list == Plan(items, a, agent, routing, limit)
  {
    list := AddCurrent(items, m, agent, inProgress);
    list := AddReadyOf(items, m, a, agent, routing, limit, list);
    list := AddBlockedOf(items, m, a, agent, routing, limit, list);
  }

  function Plans(items: seq<ItemInfo>, a: Analysis, agents: seq<string>, routing: Routing, limit: nat): seq<Entry> {
    if agents == [] then [] else
      var agent := agents[|agents| - 1];
      Plans(items, a, agents[..|agents| - 1], routing, limit) + [Entry(agent, Plan(items, a, agent, routing, limit))]
  }

  method GenerateWorklist(items: seq<ItemInfo>, a: Analysis, agents: seq<string>, routing: Routing, limit: nat)
    returns (entries: seq<Entry>)
    ensures entries == Plans(items, a, agents, routing, limit)
  {
    var m := ItemMap(items);
    var inProgress := AssignedWork(items);
    entries := [];
    for i := 0 to |agents|
      invariant entries == Plans(items, a, agents[..i], routing, limit)
    {
      var list := PlanFor(items, m, a, agents[i], routing, limit, inProgress);
      assert agents[..i + 1][..i] == agents[..i];
      entries := entries + [Entry(agents[i], list)];
    }
    assert agents[..|agents|] == agents;
  }

  // ------------------------------------------------------------ guarantees

  function ListIds(list: seq<WorkItem>): (r: seq<Id>)
    ensures |r| == |list| && forall k :: 0 <= k < |r| ==> r[k] == list[k].id
  {
    seq(|list|, k requires 0 <= k < |list| => list[k].id)
  }

  /** Eligible work that is on the board but not in the list. */
  ghost predicate LeftOut(items: seq<ItemInfo>, ids: seq<Id>, agent: string, routing: Routing, list: seq<WorkItem>, id: Id) {
    id in ids && Eligible(ItemMap(items), routing, agent, id) && id !in ListIds(list)
  }

  /** Where an entry of the list comes from. */
  lemma EntryOrigin(items: seq<ItemInfo>, a: Analysis, agent: string, routing: Routing, limit: nat, e: WorkItem)
    requires e in Plan(items, a, agent, routing, limit)
    ensures || (CurrentOf(items, agent) == Some(e.id) && e.id in ItemMap(items) && !e.blocked)
            || (e.id in Ready(items, a, agent, routing, limit) && e.blocked == (e.id in a.blocked))
            || (e.id in Waiting(items, a, agent, routing, limit) && e.blocked)
  {
    ReadyAreEligible(items, a, agent, routing, limit);
    var m, blocked := ItemMap(items), set id | id in a.blocked;
    var ready, waiting := Ready(items, a, agent, routing, limit), Waiting(items, a, agent, routing, limit);
    if e in Show(m, ready, blocked) {
      var k :| 0 <= k < |ready| && Show(m, ready, blocked)[k] == e;
    } else if e in Show(m, waiting, blocked) {
      var k :| 0 <= k < |waiting| && Show(m, waiting, blocked)[k] == e;
    }
  }

  /** Length, and who may appear. */
  lemma ListIsBounded(items: seq<ItemInfo>, a: Analysis, agent: string, routing: Routing, limit: nat)
    requires UniqueIds(items)
    ensures var m, list := ItemMap(items), Plan(items, a, agent, routing, limit);
            && (|list| <= limit <==> limit > 0 || CurrentOf(items, agent).None?)
            && (|list| > limit ==> |list| == 1)
            && (forall e :: e in list ==> e.id in m && (m[e.id].assignee == agent || m[e.id].assignee == "-"))
            && (forall e :: e in list ==> CurrentOf(items, agent) == Some(e.id) || Eligible(m, routing, agent, e.id))
            && forall e :: e in list && e.blocked ==> e.id in a.blocked
  {
    ReadyAreEligible(items, a, agent, routing, limit);
    CurrentIsOwn(items, agent);
    var m, list := ItemMap(items), Plan(items, a, agent, routing, limit);
    TakeFacts(StableSort(Available(m, routing, agent, a.ready), Urgency(m, a.downstreamCount, agent)),
              Room(limit, |Current(items, m, agent)|));
    TakeFacts(Available(m, routing, agent, a.blocked),
              Room(limit, |Current(items, m, agent)| + |Ready(items, a, agent, routing, limit)|));
    forall e | e in list
      ensures e.id in m && (m[e.id].assignee == agent || m[e.id].assignee == "-")
      ensures CurrentOf(items, agent) == Some(e.id) || Eligible(m, routing, agent, e.id)
      ensures e.blocked ==> e.id in a.blocked
    {
      EntryOrigin(items, a, agent, routing, limit, e);
      if CurrentOf(items, agent) == Some(e.id) {
        var i :| i in items && i.id == e.id && i.assignee == agent;
        ItemMapUnique(items, i);
      }
    }
  }

  lemma {:induction false} CurrentIsOwn(items: seq<ItemInfo>, agent: string)
    ensures CurrentOf(items, agent).Some? ==>
              exists i :: i in items && i.id == CurrentOf(items, agent).value && i.assignee == agent &&
                          i.status == "in_progress"
  {
    if items != [] {
      CurrentIsOwn(items[..|items| - 1], agent);
      assert items == items[..|items| - 1] + [items[|items| - 1]];
    }
  }

  lemma PlanListsIds(items: seq<ItemInfo>, a: Analysis, agent: string, routing: Routing, limit: nat)
    ensures ListIds(Plan(items, a, agent, routing, limit)) ==
            ListIds(Current(items, ItemMap(items), agent)) +
              (Ready(items, a, agent, routing, limit) + Waiting(items, a, agent, routing, limit))
  {
    var m := ItemMap(items);
    ReadyAreEligible(items, a, agent, routing, limit);
    ShownIds(Current(items, m, agent), m, Ready(items, a, agent, routing, limit), Waiting(items, a, agent, routing, limit),
             set id | id in a.blocked);
  }

  lemma ShownIds(current: seq<WorkItem>, m: map<Id, ItemInfo>, ready: seq<Id>, waiting: seq<Id>, blocked: set<Id>)
    requires (forall id :: id in ready ==> id in m) && forall id :: id in waiting ==> id in m
    ensures ListIds(current + Show(m, ready, blocked) + Show(m, waiting, blocked)) == ListIds(current) + (ready + waiting)
  {
  }

  /** The list, as ids: the current item, then the most urgent ready ones, then blocked ones. */
  lemma PlanShape(items: seq<ItemInfo>, a: Analysis, agent: string, routing: Routing, limit: nat)
    returns (current: seq<Id>, sorted: seq<Id>, open: seq<Id>, ready: seq<Id>, waiting: seq<Id>)
    ensures ListIds(Plan(items, a, agent, routing, limit)) == current + (ready + waiting)
    ensures current == [] || (|current| == 1 && CurrentOf(items, agent) == Some(current[0]))
    ensures ready == Take(sorted, Room(limit, |current|)) && waiting == Take(open, Room(limit, |current| + |ready|))
    ensures ready == Ready(items, a, agent, routing, limit) && waiting == Waiting(items, a, agent, routing, limit)
    ensures forall id :: id in sorted <==> id in a.ready && Eligible(ItemMap(items), routing, agent, id)
    ensures forall id :: id in open <==> id in a.blocked && Eligible(ItemMap(items), routing, agent, id)
    ensures NoDup(a.ready) ==> NoDup(sorted)
    ensures NoDup(a.blocked) ==> NoDup(open)
    ensures SortedBy(sorted, Urgency(ItemMap(items), a.downstreamCount, agent))
  {
    var m := ItemMap(items);
    ReadyAreEligible(items, a, agent, routing, limit);
    SortedAvailable(m, a, agent, routing);
    PlanListsIds(items, a, agent, routing, limit);
    current := ListIds(Current(items, m, agent));
    open := Available(m, routing, agent, a.blocked);
    sorted := StableSort(Available(m, routing, agent, a.ready), Urgency(m, a.downstreamCount, agent));
    ready, waiting := Ready(items, a, agent, routing, limit), Waiting(items, a, agent, routing, limit);
    if NoDup(a.ready) {
      FilterNoDup(a.ready, id => Eligible(m, routing, agent, id));
    }
    if NoDup(a.blocked) {
      FilterNoDup(a.blocked, id => Eligible(m, routing, agent, id));
    }
  }

  /** An agent's current item comes first, unmarked, whatever the limit. */
  lemma CurrentComesFirst(items: seq<ItemInfo>, a: Analysis, agent: string, routing: Routing, limit: nat)
    requires CurrentOf(items, agent).Some?
    ensures var list := Plan(items, a, agent, routing, limit);
            |list| > 0 && Some(list[0].id) == CurrentOf(items, agent) && !list[0].blocked
  {
    CurrentIsOwn(items, agent);
  }

  /** No item is listed twice. */
  lemma NoRepeats(items: seq<ItemInfo>, a: Analysis, agent: string, routing: Routing, limit: nat)
    requires UniqueIds(items) && NoDup(a.ready + a.blocked)
    ensures NoDup(ListIds(Plan(items, a, agent, routing, limit)))
  {
    if CurrentOf(items, agent).Some? {
      CurrentIsBusy(items, agent, routing);
    }
    PartsAreDistinct(items, a, agent, routing, limit);
  }

  lemma PartsAreDistinct(items: seq<ItemInfo>, a: Analysis, agent: string, routing: Routing, limit: nat)
    requires CurrentOf(items, agent).Some? ==> !Eligible(ItemMap(items), routing, agent, CurrentOf(items, agent).value)
    requires NoDup(a.ready + a.blocked)
    ensures NoDup(ListIds(Plan(items, a, agent, routing, limit)))
  {
    var current, sorted, open, ready, waiting := PlanShape(items, a, agent, routing, limit);
    NoDupSplit(a.ready, a.blocked);
    if current != [] {
      assert !Eligible(ItemMap(items), routing, agent, current[0]);
      assert current[0] !in sorted && current[0] !in open;
    }
    ThreeParts(current, sorted, open, Room(limit, |current|), Room(limit, |current| + |ready|));
  }

  lemma ThreeParts(current: seq<Id>, sorted: seq<Id>, open: seq<Id>, n: nat, m: nat)
    requires |current| <= 1 && NoDup(sorted) && NoDup(open)
    requires current != [] ==> current[0] !in sorted && current[0] !in open
    requires forall x :: x in sorted ==> x !in open
    ensures NoDup(current + (Take(sorted, n) + Take(open, m)))
  {
    TakeFacts(sorted, n);
    TakeFacts(open, m);
    NoDupConcat(Take(sorted, n), Take(open, m));
    NoDupConcat(current, Take(sorted, n) + Take(open, m));
  }

  lemma CurrentIsBusy(items: seq<ItemInfo>, agent: string, routing: Routing)
    requires UniqueIds(items) && CurrentOf(items, agent).Some?
    ensures !Eligible(ItemMap(items), routing, agent, CurrentOf(items, agent).value)
  {
    CurrentIsHeld(items, agent, CurrentOf(items, agent).value);
  }

  /** Blocked work appears only when all eligible ready work is listed, and a list below the limit omits nothing. */
  lemma BlockedComeLast(items: seq<ItemInfo>, a: Analysis, agent: string, routing: Routing, limit: nat, id: Id)
    requires NoDup(a.ready + a.blocked)
    ensures var list := Plan(items, a, agent, routing, limit);
            && ((exists e :: e in list && e.blocked) ==> !LeftOut(items, a.ready, agent, routing, list, id))
            && (|list| < limit ==> !LeftOut(items, a.ready + a.blocked, agent, routing, list, id))
  {
    var list := Plan(items, a, agent, routing, limit);
    var current, sorted, open, ready, waiting := PlanShape(items, a, agent, routing, limit);
    NoDupSplit(a.ready, a.blocked);
    TakeFacts(sorted, Room(limit, |current|));
    TakeFacts(open, Room(limit, |current| + |ready|));
    if e :| e in list && e.blocked {
      EntryOrigin(items, a, agent, routing, limit, e);
      assert e.id in waiting;
      assert ready == sorted;
    }
    assert |ListIds(list)| == |list|;
  }

  /** Ready work that is left out is no more urgent than any ready work that is shown. */
  lemma MostUrgentFirst(items: seq<ItemInfo>, a: Analysis, agent: string, routing: Routing, limit: nat, x: Id, y: Id)
    requires x in a.ready && Eligible(ItemMap(items), routing, agent, x) && x !in a.blocked
    requires x in ListIds(Plan(items, a, agent, routing, limit)) && CurrentOf(items, agent) != Some(x)
    requires LeftOut(items, a.ready, agent, routing, Plan(items, a, agent, routing, limit), y)
    ensures Before(ItemMap(items), a.downstreamCount, agent, x, y)
  {
    var current, sorted, open, ready, waiting := PlanShape(items, a, agent, routing, limit);
    TakeFacts(sorted, Room(limit, |current|));
    TakeFacts(open, Room(limit, |current| + |ready|));
    assert ready == sorted[..|ready|];
    TakenComeFirst(sorted, Urgency(ItemMap(items), a.downstreamCount, agent), |ready|, x, y);
  }

  lemma TakenComeFirst(sorted: seq<Id>, le: (Id, Id) -> bool, n: nat, x: Id, y: Id)
    requires SortedBy(sorted, le) && n <= |sorted| && x in sorted[..n] && y in sorted && y !in sorted[..n]
    ensures le(x, y)
  {
    var i :| 0 <= i < n && sorted[i] == x;
    var j :| 0 <= j < |sorted| && sorted[j] == y;
    assert forall k :: 0 <= k < n ==> sorted[..n][k] == sorted[k];
    assert forall k :: 0 <= k < n ==> sorted[..n][k] != y;
  }

  // -------------------------------------------------- the documented order

  predicate FollowsDocumentation(m: map<Id, ItemInfo>, count: map<Id, nat>, agent: string, ids: seq<Id>) {
    forall i, j :: 0 <= i < j < |ids| ==> Documented(m, count, agent, ids[i], ids[j])
  }

  predicate NoneOpposed(m: map<Id, ItemInfo>, count: map<Id, nat>, agent: string, ids: seq<Id>) {
    forall i, j :: 0 <= i < j < |ids| ==> !Opposed(m, count, agent, ids[i], ids[j])
  }

  /** The ready part of a list follows the documented order exactly if no two of its items are opposed. */
  lemma ListFollowsDocumentation(items: seq<ItemInfo>, a: Analysis, agent: string, routing: Routing, limit: nat)
    ensures var m, count, ready := ItemMap(items), a.downstreamCount, Ready(items, a, agent, routing, limit);
            FollowsDocumentation(m, count, agent, ready) <==> NoneOpposed(m, count, agent, ready)
  {
    var m, count, ready := ItemMap(items), a.downstreamCount, Ready(items, a, agent, routing, limit);
    ReadyIsSorted(items, a, agent, routing, limit);
    forall i, j | 0 <= i < j < |ready|
      ensures Documented(m, count, agent, ready[i], ready[j]) <==> !Opposed(m, count, agent, ready[i], ready[j])
    {
      DocumentedUnlessOpposed(m, count, agent, ready[i], ready[j]);
      assert Urgency(m, count, agent)(ready[i], ready[j]);
    }
  }

  lemma ReadyIsSorted(items: seq<ItemInfo>, a: Analysis, agent: string, routing: Routing, limit: nat)
    ensures SortedBy(Ready(items, a, agent, routing, limit), Urgency(ItemMap(items), a.downstreamCount, agent))
  {
    SortedAvailable(ItemMap(items), a, agent, routing);
  }

  // ------------------------------------------------------- shared assignments

  predicate Shown(items: seq<ItemInfo>, a: Analysis, agent: string, routing: Routing, limit: nat, x: Id) {
    x in ListIds(Plan(items, a, agent, routing, limit))
  }

  /** Work on the board that both agents may start. */
  predicate OpenToBoth(items: seq<ItemInfo>, a: Analysis, p: string, q: string, routing: Routing, x: Id) {
    && x in a.ready + a.blocked
    && Eligible(ItemMap(items), routing, p, x) && Eligible(ItemMap(items), routing, q, x)
  }

  lemma ShownOrigin(items: seq<ItemInfo>, a: Analysis, agent: string, routing: Routing, limit: nat, x: Id)
    requires Shown(items, a, agent, routing, limit, x)
    ensures CurrentOf(items, agent) == Some(x) ||
            (x in a.ready + a.blocked && Eligible(ItemMap(items), routing, agent, x))
  {
    var list := Plan(items, a, agent, routing, limit);
    var k :| 0 <= k < |list| && ListIds(list)[k] == x;
    EntryOrigin(items, a, agent, routing, limit, list[k]);
    ReadyAreEligible(items, a, agent, routing, limit);
  }

  lemma CurrentIsHeld(items: seq<ItemInfo>, agent: string, x: Id)
    requires UniqueIds(items) && CurrentOf(items, agent) == Some(x)
    ensures x in ItemMap(items) && ItemMap(items)[x].assignee == agent && ItemMap(items)[x].status == "in_progress"
  {
    CurrentIsOwn(items, agent);
    var i :| i in items && i.id == x && i.assignee == agent && i.status == "in_progress";
    ItemMapUnique(items, i);
  }

  lemma CurrentIsNotShared(items: seq<ItemInfo>, a: Analysis, p: string, q: string, routing: Routing, limit: nat, x: Id)
    requires UniqueIds(items) && p != q && Shown(items, a, q, routing, limit, x)
    ensures CurrentOf(items, p) != Some(x)
  {
    ShownOrigin(items, a, q, routing, limit, x);
    if CurrentOf(items, p) == Some(x) {
      CurrentIsHeld(items, p, x);
      if CurrentOf(items, q) == Some(x) {
        CurrentIsHeld(items, q, x);
      }
    }
  }

  /** At every limit, an item in the lists of two agents is one that both may start. */
  lemma SharedIsOpenToBoth(items: seq<ItemInfo>, a: Analysis, p: string, q: string, routing: Routing, limit: nat, x: Id)
    requires UniqueIds(items) && p != q
    requires Shown(items, a, p, routing, limit, x) && Shown(items, a, q, routing, limit, x)
    ensures OpenToBoth(items, a, p, q, routing, x)
  {
    CurrentIsNotShared(items, a, p, q, routing, limit, x);
    CurrentIsNotShared(items, a, q, p, routing, limit, x);
    ShownOrigin(items, a, p, routing, limit, x);
    ShownOrigin(items, a, q, routing, limit, x);
  }

  lemma PlanLength(items: seq<ItemInfo>, a: Analysis, agent: string, routing: Routing, limit: nat)
    ensures |Plan(items, a, agent, routing, limit)| <= 1 + |a.ready| + |a.blocked|
  {
    SortedAvailable(ItemMap(items), a, agent, routing);
    PlanListsIds(items, a, agent, routing, limit);
  }

  /** A limit that no list reaches. */
  function Ample(a: Analysis): nat {
    2 + |a.ready| + |a.blocked|
  }

  lemma AmpleShowsAll(items: seq<ItemInfo>, a: Analysis, agent: string, routing: Routing, x: Id)
    requires NoDup(a.ready + a.blocked) && x in a.ready + a.blocked && Eligible(ItemMap(items), routing, agent, x)
    ensures Shown(items, a, agent, routing, Ample(a), x)
  {
    PlanLength(items, a, agent, routing, Ample(a));
    BlockedComeLast(items, a, agent, routing, Ample(a), x);
  }

  /** Nothing reserves an item: two agents are told to work on the same item, at some limit, exactly if some item on the
      board is open to both. */
  lemma SharedExactlyWhenOpen(items: seq<ItemInfo>, a: Analysis, p: string, q: string, routing: Routing)
    requires UniqueIds(items) && NoDup(a.ready + a.blocked) && p != q
    ensures (exists limit, x :: Shown(items, a, p, routing, limit, x) && Shown(items, a, q, routing, limit, x)) <==>
            exists x :: OpenToBoth(items, a, p, q, routing, x)
  {
    if limit: nat, x :| Shown(items, a, p, routing, limit, x) && Shown(items, a, q, routing, limit, x) {
      SharedIsOpenToBoth(items, a, p, q, routing, limit, x);
    }
    if x :| OpenToBoth(items, a, p, q, routing, x) {
      AmpleShowsAll(items, a, p, routing, x);
      AmpleShowsAll(items, a, q, routing, x);
    }
  }

  // ------------------------------------------------------- one queue per agent

  /** All work that an agent may start, in the order in which it is offered: ready work by urgency, then blocked work. */
  function Queue(items: seq<ItemInfo>, a: Analysis, agent: string, routing: Routing): seq<Id> {
    var m := ItemMap(items);
    StableSort(Available(m, routing, agent, a.ready), Urgency(m, a.downstreamCount, agent)) +
      Available(m, routing, agent, a.blocked)
  }

  /** The places that the current item leaves. */
  function Places(items: seq<ItemInfo>, agent: string, limit: nat): nat {
    Room(limit, |Current(items, ItemMap(items), agent)|)
  }

  lemma TakeBoth(s: seq<Id>, t: seq<Id>, limit: nat, used: nat)
    ensures Take(s, Room(limit, used)) + Take(t, Room(limit, used + |Take(s, Room(limit, used))|)) ==
            Take(s + t, Room(limit, used))
  {
  }

  /** The list is the current item, and then as much of the queue as there are places. */
  lemma PlanIsQueue(items: seq<ItemInfo>, a: Analysis, agent: string, routing: Routing, limit: nat)
    ensures ListIds(Plan(items, a, agent, routing, limit)) ==
            ListIds(Current(items, ItemMap(items), agent)) +
              Take(Queue(items, a, agent, routing), Places(items, agent, limit))
  {
    var m := ItemMap(items);
    PlanListsIds(items, a, agent, routing, limit);
    TakeBoth(StableSort(Available(m, routing, agent, a.ready), Urgency(m, a.downstreamCount, agent)),
             Available(m, routing, agent, a.blocked), limit, |Current(items, m, agent)|);
  }

  /** The queue holds the ready and blocked work that the agent may start, each item once. */
  lemma QueueHolds(items: seq<ItemInfo>, a: Analysis, agent: string, routing: Routing)
    requires NoDup(a.ready + a.blocked)
    ensures NoDup(Queue(items, a, agent, routing))
    ensures forall x :: x in Queue(items, a, agent, routing) <==>
              x in a.ready + a.blocked && Eligible(ItemMap(items), routing, agent, x)
  {
    var m := ItemMap(items);
    NoDupSplit(a.ready, a.blocked);
    FilterNoDup(a.ready, id => Eligible(m, routing, agent, id));
    FilterNoDup(a.blocked, id => Eligible(m, routing, agent, id));
    SortedAvailable(m, a, agent, routing);
    NoDupConcat(StableSort(Available(m, routing, agent, a.ready), Urgency(m, a.downstreamCount, agent)),
                Available(m, routing, agent, a.blocked));
  }

  lemma InFirstPart(s: seq<Id>, t: seq<Id>, ids: seq<Id>, j: nat)
    requires j < |s + t| && (s + t)[j] in ids && forall x :: x in t ==> x !in ids
    ensures j < |s|
  {
  }

  /** Whatever is ahead of ready work is ready work at least as urgent. */
  lemma QueueOrder(items: seq<ItemInfo>, a: Analysis, agent: string, routing: Routing, i: nat, j: nat)
    requires NoDup(a.ready + a.blocked) && i < j < |Queue(items, a, agent, routing)|
    requires Queue(items, a, agent, routing)[j] in a.ready
    ensures var queue := Queue(items, a, agent, routing);
            queue[i] in a.ready && Before(ItemMap(items), a.downstreamCount, agent, queue[i], queue[j])
  {
    var m := ItemMap(items);
    var sorted := StableSort(Available(m, routing, agent, a.ready), Urgency(m, a.downstreamCount, agent));
    SortedAvailable(m, a, agent, routing);
    NoDupSplit(a.ready, a.blocked);
    InFirstPart(sorted, Available(m, routing, agent, a.blocked), a.ready, j);
    assert Urgency(m, a.downstreamCount, agent)(sorted[i], sorted[j]);
  }

  /** Fewer items are ahead of `x` in the agent's queue than there are places. */
  ghost predicate Due(items: seq<ItemInfo>, a: Analysis, agent: string, routing: Routing, limit: nat, x: Id) {
    var queue := Queue(items, a, agent, routing);
    exists k :: 0 <= k < |queue| && queue[k] == x && k < Places(items, agent, limit)
  }

  lemma TakenAre(s: seq<Id>, n: nat, x: Id)
    ensures x in Take(s, n) <==> exists k :: 0 <= k < |s| && s[k] == x && k < n
  {
    if k :| 0 <= k < |s| && s[k] == x && k < n {
      assert Take(s, n)[k] == x;
    }
  }

  lemma CurrentId(items: seq<ItemInfo>, agent: string, x: Id)
    ensures x in ListIds(Current(items, ItemMap(items), agent)) <==> CurrentOf(items, agent) == Some(x)
  {
    CurrentIsOwn(items, agent);
    var current := Current(items, ItemMap(items), agent);
    assert current != [] ==> ListIds(current) == [current[0].id];
  }

  /** A list shows the current item and what is due. */
  lemma ShownExactlyWhenDue(items: seq<ItemInfo>, a: Analysis, agent: string, routing: Routing, limit: nat, x: Id)
    ensures Shown(items, a, agent, routing, limit, x) <==>
            CurrentOf(items, agent) == Some(x) || Due(items, a, agent, routing, limit, x)
  {
    CurrentId(items, agent, x);
    PlanIsQueue(items, a, agent, routing, limit);
    TakenAre(Queue(items, a, agent, routing), Places(items, agent, limit), x);
  }

  /** At every limit, two agents' lists share an item exactly if it is due in both queues. */
  lemma SharedExactlyWhenDue(items: seq<ItemInfo>, a: Analysis, p: string, q: string, routing: Routing, limit: nat, x: Id)
    requires UniqueIds(items) && p != q
    ensures Shown(items, a, p, routing, limit, x) && Shown(items, a, q, routing, limit, x) <==>
            Due(items, a, p, routing, limit, x) && Due(items, a, q, routing, limit, x)
  {
    ShownExactlyWhenDue(items, a, p, routing, limit, x);
    ShownExactlyWhenDue(items, a, q, routing, limit, x);
    if Shown(items, a, p, routing, limit, x) && Shown(items, a, q, routing, limit, x) {
      CurrentIsNotShared(items, a, p, q, routing, limit, x);
      CurrentIsNotShared(items, a, q, p, routing, limit, x);
    }
  }
}
