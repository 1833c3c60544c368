/** The agents' lists, read off items and routing directly. */
module WorklistLaws {
  import opened CriticalPath
  import opened Items
  import opened SchedulerLaws
  import opened Seqs
  import opened Worklist
  import opened Wrappers

  /** Exactly this may be offered to an agent: waiting work that is nobody's or its own, for which it provides every
      required capability, if any capabilities are declared at all. */
  lemma OfferedExactlyIf(items: seq<ItemInfo>, a: Analysis, agent: string, routing: Routing, i: ItemInfo)
    requires UniqueIds(items) && NoDup(a.ready + a.blocked) && i in items
    ensures var required, declared := routing.requirements, routing.capabilities;
            i.id in Queue(items, a, agent, routing) <==>
              && i.id in a.ready + a.blocked && i.status == "backlog"
              && (i.assignee == "-" || i.assignee == agent)
              && (declared != map[] && i.id in required && required[i.id] != [] ==>
                    agent in declared && forall c :: c in required[i.id] ==> c in declared[agent])
  {
    QueueHolds(items, a, agent, routing);
    ItemMapUnique(items, i);
  }

  /** Only such work is listed, but for the item that the agent has in progress already. */
  lemma ListedIsOffered(items: seq<ItemInfo>, a: Analysis, agent: string, routing: Routing, limit: nat, x: Id)
    requires NoDup(a.ready + a.blocked) && x in ListIds(Plan(items, a, agent, routing, limit))
    ensures CurrentOf(items, agent) == Some(x) || x in Queue(items, a, agent, routing)
    ensures exists i :: i in items && i.id == x
  {
    ShownExactlyWhenDue(items, a, agent, routing, limit, x);
    CurrentIsOwn(items, agent);
    QueueHolds(items, a, agent, routing);
    if x in Queue(items, a, agent, routing) {
      assert ItemMap(items)[x] in items;
    }
  }

  /** What an agent declares, or that it declares nothing, does not matter as long as no agent declares anything. */
  lemma NothingDeclared(items: seq<ItemInfo>, a: Analysis, agent: string, required: map<Id, seq<string>>)
    ensures Queue(items, a, agent, Routing(required, map[])) == Queue(items, a, agent, Routing(map[], map[]))
  {
    var m := ItemMap(items);
    FiltersAgree(a.ready, id => Eligible(m, Routing(required, map[]), agent, id), id => Eligible(m, Routing(map[], map[]), agent, id));
    FiltersAgree(a.blocked, id => Eligible(m, Routing(required, map[]), agent, id), id => Eligible(m, Routing(map[], map[]), agent, id));
  }

  // ------------------------------------------------------------ the current item

  predicate WorksOn(i: ItemInfo, agent: string) {
    i.status == "in_progress" && i.assignee == agent
  }

  /** An agent's current item is the last one that it has in progress; the dash is no agent. */
  lemma {:induction false} CurrentIs(items: seq<ItemInfo>, agent: string, x: Id)
    ensures CurrentOf(items, agent) == Some(x) <==>
            agent != "-" && exists k :: 0 <= k < |items| && items[k].id == x && WorksOn(items[k], agent) &&
                                        forall j :: k < j < |items| ==> !WorksOn(items[j], agent)
  {
    if items != [] {
      var n, before := |items| - 1, items[..|items| - 1];
      CurrentIs(before, agent, x);
      if WorksOn(items[n], agent) {
        assert agent != "-" ==> CurrentOf(items, agent) == Some(items[n].id);
      } else {
        assert CurrentOf(items, agent) == CurrentOf(before, agent);
        if k :| 0 <= k < |before| && before[k].id == x && WorksOn(before[k], agent) &&
                forall j :: k < j < |before| ==> !WorksOn(before[j], agent) {
          assert items[k] == before[k];
          assert forall j :: k < j < |items| ==> j == n || items[j] == before[j];
        }
        if k :| 0 <= k < |items| && items[k].id == x && WorksOn(items[k], agent) &&
                forall j :: k < j < |items| ==> !WorksOn(items[j], agent) {
          assert k != n && before[k] == items[k];
          assert forall j :: k < j < |before| ==> before[j] == items[j];
        }
      }
    }
  }

  // --------------------------------------------------------------- the entries

  /** Long titles are cut to 37 characters and three dots. */
  predicate ShortTitle(title: string, short: string) {
    if |title| <= 40 then short == title else |short| == 40 && short[..37] == title[..37] && short[37..] == "..."
  }

  lemma EntryTitles(items: seq<ItemInfo>, a: Analysis, agent: string, routing: Routing, limit: nat, k: nat, i: ItemInfo)
    requires UniqueIds(items) && k < |Plan(items, a, agent, routing, limit)|
    requires i in items && i.id == Plan(items, a, agent, routing, limit)[k].id
    ensures ShortTitle(i.title, Plan(items, a, agent, routing, limit)[k].title)
  {
    ItemMapUnique(items, i);
    ReadyAreEligible(items, a, agent, routing, limit);
  }

  /** One list per agent, in the order in which the agents are named. */
  lemma {:induction false} ListPerAgent(items: seq<ItemInfo>, a: Analysis, agents: seq<string>, routing: Routing, limit: nat,
                                       k: nat)
    requires k < |agents|
    ensures |Plans(items, a, agents, routing, limit)| == |agents|
    ensures Plans(items, a, agents, routing, limit)[k] == Entry(agents[k], Plan(items, a, agents[k], routing, limit))
  {
    if k < |agents| - 1 {
      ListPerAgent(items, a, agents[..|agents| - 1], routing, limit, k);
    } else if k > 0 {
      ListPerAgent(items, a, agents[..|agents| - 1], routing, limit, k - 1);
    }
  }

  // ----------------------------------------------------------------- the order

  predicate IsOwn(i: ItemInfo, agent: string) {
    i.assignee == agent
  }

  /** Own items first; then rank and priority; of items that tie, the one with more work waiting behind it. */
  lemma UrgencyIs(items: seq<ItemInfo>, a: Analysis, agent: string, x: ItemInfo, y: ItemInfo)
    requires UniqueIds(items) && x in items && y in items
    requires x.id in a.downstreamCount && y.id in a.downstreamCount
    ensures Before(ItemMap(items), a.downstreamCount, agent, x.id, y.id) <==>
            if IsOwn(x, agent) != IsOwn(y, agent) then IsOwn(x, agent)
            else InOrder(x, y) &&
                 (InOrder(y, x) ==> a.downstreamCount[x.id] >= a.downstreamCount[y.id])
  {
    ItemMapUnique(items, x);
    ItemMapUnique(items, y);
    KeysInOrder(x, y);
    KeysInOrder(y, x);
    TiedKeys(SortKey(x), SortKey(y));
  }

  lemma TiedKeys(k: Key, l: Key)
    ensures KeyLe(k, l) && KeyLe(l, k) <==> k == l
  {
  }
}
