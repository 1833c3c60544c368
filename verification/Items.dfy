/** The item records that the scheduling and grouping views work on. */
module Items {
  import opened Wrappers
  import opened Seqs

  datatype ItemInfo = ItemInfo(
    id: Id,
    title: string,
    itemType: string,
    status: string,
    priority: string,
    assignee: string,
    related: seq<Id>,
    dependsOn: seq<Id>,
    rank: Option<int>
  )

  predicate IsClosed(i: ItemInfo) {
    i.status == "done" || i.status == "complete" || i.status == "retired"
  }

  ghost predicate UniqueIds(items: seq<ItemInfo>) {
    forall i, j :: 0 <= i < j < |items| ==> items[i].id != items[j].id
  }

  function IdsOf(items: seq<ItemInfo>): (r: seq<Id>)
    ensures |r| == |items|
  {
    seq(|items|, i requires 0 <= i < |items| => items[i].id)
  }

  lemma IdsOfHas(items: seq<ItemInfo>, x: Id)
    ensures x in IdsOf(items) <==> exists i :: i in items && i.id == x
  {
    if i :| i in items && i.id == x {
      var k :| 0 <= k < |items| && items[k] == i;
      assert IdsOf(items)[k] == x;
    }
  }

  /** Id lookup; of several items with one id the last wins, as when a map is collected. */
  function ItemMap(items: seq<ItemInfo>): (m: map<Id, ItemInfo>)
    ensures forall i :: i in items ==> i.id in m
    ensures forall id :: id in m ==> m[id] in items && m[id].id == id
  {
    if items == [] then map[] else
      var last := items[|items| - 1];
      assert items == items[..|items| - 1] + [last];
      ItemMap(items[..|items| - 1])[last.id := last]
  }

  lemma ItemMapUnique(items: seq<ItemInfo>, i: ItemInfo)
    requires UniqueIds(items) && i in items
    ensures ItemMap(items)[i.id] == i
  {
  }

  /** Ids of the items that are finished; the id is what counts, not the row. */
  function ClosedIds(items: seq<ItemInfo>): set<Id> {
    set i | i in items && IsClosed(i) :: i.id
  }

  function Active(items: seq<ItemInfo>): seq<ItemInfo> {
    var closed := ClosedIds(items);
    Filter(items, (i: ItemInfo) => i.id !in closed)
  }

  function ActiveIds(items: seq<ItemInfo>): set<Id> {
    set i | i in Active(items) :: i.id
  }

  /** On a board without finished items everything is active. */
  lemma AllActive(items: seq<ItemInfo>)
    requires forall i :: i in items ==> !IsClosed(i)
    ensures Active(items) == items
    ensures forall x :: x in ActiveIds(items) <==> exists i :: i in items && i.id == x
  {
    assert ClosedIds(items) == {};
    FilterAll(items, (i: ItemInfo) => i.id !in ClosedIds(items));
  }

  // ------------------------------------------------------------ ranking

  function LowerChar(c: char): char {
    if 'A' <= c <= 'Z' then c - 'A' + 'a' else c
  }

  function Lower(s: string): string {
    seq(|s|, i requires 0 <= i < |s| => LowerChar(s[i]))
  }

  function PriorityRank(p: string): int {
    var l := Lower(p);
    if l == "critical" then 0
    else if l == "high" then 1
    else if l == "medium" then 2
    else if l == "low" then 3
    else 99
  }

  datatype Key = Key(bucket: int, rank: int, priority: int)

  /** Items with a manual rank come before items without one. */
  function SortKey(i: ItemInfo): Key {
    match i.rank
    case Some(r) => Key(0, r, PriorityRank(i.priority))
    case None => Key(1, 0, PriorityRank(i.priority))
  }

  function KeyOf(m: map<Id, ItemInfo>, id: Id): Key {
    if id in m then SortKey(m[id]) else Key(2, 0, 99)
  }

  predicate KeyLe(a: Key, b: Key) {
    || a.bucket < b.bucket
    || (a.bucket == b.bucket && (a.rank < b.rank || (a.rank == b.rank && a.priority <= b.priority)))
  }
}
