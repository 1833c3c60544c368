/** Voyage groups, orphans, folding and campaign totals, read off items and edges directly. */
module VoyageLaws {
  import opened Items
  import opened Seqs
  import opened Sorting
  import opened Voyages
  import opened Wrappers

  // ------------------------------------------------------------ typed edges

  /** Folding makes an item name exactly what it named before and the voyages that it implements or that spawn it by an
      edge that is not deleted; being spawned counts for items that are no voyages. */
  lemma FoldedNames(items: seq<ItemInfo>, edges: seq<Edge>, folded: seq<ItemInfo>, k: nat, v: Id)
    requires Folded(items, edges, folded) && k < |items|
    ensures v in folded[k].related <==>
            || v in items[k].related
            || (&& (exists i :: i in items && i.itemType == "voyage" && i.id == v)
                && ((exists e :: e in edges && !e.deleted && e.kind == "implements" && e.source == items[k].id && e.target == v)
                    || (&& (exists e :: e in edges && !e.deleted && e.kind == "spawns" && e.source == v && e.target == items[k].id)
                        && exists i :: i in items && i.itemType != "voyage" && i.id == items[k].id)))
  {
    assert FoldedItem(items, edges, items[k], folded[k]);
    var typed := TypedVoyages(items, edges, items[k].id);
    var t :| folded[k].related == items[k].related + t && Elements(t) == typed - Elements(items[k].related);
    assert v in t <==> v in Elements(t);
    assert v in items[k].related <==> v in Elements(items[k].related);
  }

  // ---------------------------------------------------------------- finished

  /** Of several items with one id the last one counts. */
  ghost predicate IsLast(items: seq<ItemInfo>, k: nat, id: Id) {
    k < |items| && items[k].id == id && forall j :: k < j < |items| ==> items[j].id != id
  }

  lemma {:induction false} LastIsMapped(items: seq<ItemInfo>, k: nat, id: Id)
    requires IsLast(items, k, id)
    ensures id in ItemMap(items) && ItemMap(items)[id] == items[k]
  {
    if k < |items| - 1 {
      assert IsLast(items[..|items| - 1], k, id);
      LastIsMapped(items[..|items| - 1], k, id);
    }
  }

  lemma {:induction false} SomeIsLast(items: seq<ItemInfo>, id: Id) returns (k: nat)
    requires exists i :: i in items && i.id == id
    ensures IsLast(items, k, id)
  {
    var n, before := |items| - 1, items[..|items| - 1];
    if items[n].id == id {
      k := n;
    } else {
      assert items == before + [items[n]];
      k := SomeIsLast(before, id);
    }
  }

  /** The status of the last item with this id is done, complete or retired. */
  ghost predicate LastIsFinished(items: seq<ItemInfo>, id: Id) {
    exists k: nat :: IsLast(items, k, id) &&
                (items[k].status == "done" || items[k].status == "complete" || items[k].status == "retired")
  }

  lemma FinishedIs(items: seq<ItemInfo>, id: Id)
    ensures id in ItemMap(items) && IsClosed(ItemMap(items)[id]) <==> LastIsFinished(items, id)
  {
    if k: nat :| IsLast(items, k, id) && (items[k].status == "done" || items[k].status == "complete" || items[k].status == "retired") {
      LastIsMapped(items, k, id);
    }
    if id in ItemMap(items) {
      assert ItemMap(items)[id] in items;
      var k := SomeIsLast(items, id);
      LastIsMapped(items, k, id);
    }
  }

  // ------------------------------------------------------------ voyage groups

  /** The places where `related` names voyage `v`, as places of item number `k`. */
  ghost function PlacesIn(k: nat, related: seq<Id>, v: Id): set<(nat, nat)> {
    set p | 0 <= p < |related| && related[p] == v :: (k, p)
  }

  /** All places where one of the first `n` items, no voyage itself and of an accepted id, names voyage `v`. */
  ghost function Places(items: seq<ItemInfo>, v: Id, n: nat, accepted: Id -> bool): set<(nat, nat)>
    requires n <= |items|
  {
    set k, p | 0 <= k < n && items[k].itemType != "voyage" && accepted(items[k].id) &&
               0 <= p < |items[k].related| && items[k].related[p] == v :: (k, p)
  }

  /** Where the board's items name voyage `v`. */
  ghost function Named(items: seq<ItemInfo>, v: Id): set<(nat, nat)> {
    set k, p | 0 <= k < |items| && items[k].itemType != "voyage" &&
               0 <= p < |items[k].related| && items[k].related[p] == v :: (k, p)
  }

  /** Where its finished items do. */
  ghost function NamedByFinished(items: seq<ItemInfo>, v: Id): set<(nat, nat)> {
    set place | place in Named(items, v) && LastIsFinished(items, items[place.0].id)
  }

  lemma {:induction false} CopiesCount(k: nat, related: seq<Id>, v: Id, id: Id)
    ensures |Copies(related, v, id)| == |PlacesIn(k, related, v)|
  {
    if related != [] {
      var n, before := |related| - 1, related[..|related| - 1];
      CopiesCount(k, before, v, id);
      assert PlacesIn(k, related, v) == PlacesIn(k, before, v) + if related[n] == v then {(k, n)} else {};
    }
  }

  lemma FilterOne(x: Id, accepted: Id -> bool)
    ensures Filter([x], accepted) == if accepted(x) then [x] else []
  {
    assert [x][..0] == [];
  }

  lemma {:induction false} CopiesFilter(related: seq<Id>, v: Id, id: Id, accepted: Id -> bool)
    ensures Filter(Copies(related, v, id), accepted) == if accepted(id) then Copies(related, v, id) else []
  {
    if related != [] {
      var before, tail := related[..|related| - 1], if related[|related| - 1] == v then [id] else [];
      CopiesFilter(before, v, id, accepted);
      FilterAppend(Copies(before, v, id), tail, accepted);
      FilterOne(id, accepted);
      assert Copies(related, v, id) == Copies(before, v, id) + tail;
    }
  }

  lemma PlacesStep(items: seq<ItemInfo>, v: Id, n: nat, accepted: Id -> bool)
    requires n < |items|
    ensures var more := if items[n].itemType != "voyage" && accepted(items[n].id) then PlacesIn(n, items[n].related, v) else {};
            |Places(items, v, n + 1, accepted)| == |Places(items, v, n, accepted)| + |more|
  {
    var more := if items[n].itemType != "voyage" && accepted(items[n].id) then PlacesIn(n, items[n].related, v) else {};
    assert Places(items, v, n + 1, accepted) == Places(items, v, n, accepted) + more;
    assert Places(items, v, n, accepted) !! more;
  }

  lemma ChildrenStep(items: seq<ItemInfo>, v: Id, n: nat, accepted: Id -> bool)
    requires n < |items|
    ensures |Filter(Children(items[..n + 1], v), accepted)| == |Filter(Children(items[..n], v), accepted)| +
            if items[n].itemType != "voyage" && accepted(items[n].id) then |PlacesIn(n, items[n].related, v)| else 0
  {
    var last := items[n];
    var more := if last.itemType == "voyage" then [] else Copies(last.related, v, last.id);
    assert items[..n + 1][..n] == items[..n];
    assert Children(items[..n + 1], v) == Children(items[..n], v) + more;
    FilterAppend(Children(items[..n], v), more, accepted);
    CopiesFilter(last.related, v, last.id, accepted);
    CopiesCount(n, last.related, v, last.id);
  }

  lemma {:induction false} ChildrenCount(items: seq<ItemInfo>, v: Id, n: nat, accepted: Id -> bool)
    requires n <= |items|
    ensures |Filter(Children(items[..n], v), accepted)| == |Places(items, v, n, accepted)|
  {
    if n == 0 {
      assert Places(items, v, 0, accepted) == {};
    } else {
      ChildrenCount(items, v, n - 1, accepted);
      PlacesStep(items, v, n - 1, accepted);
      ChildrenStep(items, v, n - 1, accepted);
    }
  }

  lemma GroupTotal(items: seq<ItemInfo>, v: Id)
    ensures |Children(items, v)| == |Named(items, v)|
  {
    ChildrenCount(items, v, |items|, _ => true);
    assert items[..|items|] == items;
    FilterAll(Children(items, v), _ => true);
    assert Named(items, v) == Places(items, v, |items|, _ => true);
  }

  lemma GroupDone(items: seq<ItemInfo>, v: Id)
    ensures |ClosedAmong(ItemMap(items), Children(items, v))| == |NamedByFinished(items, v)|
  {
    var m := ItemMap(items);
    var closed := (id: Id) => id in m && IsClosed(m[id]);
    ChildrenCount(items, v, |items|, closed);
    assert items[..|items|] == items;
    assert NamedByFinished(items, v) == Places(items, v, |items|, closed) by {
      forall id
        ensures closed(id) <==> LastIsFinished(items, id)
      {
        FinishedIs(items, id);
      }
    }
    FiltersAgree(Children(items, v), closed, id => id in m && IsClosed(m[id]));
  }

  /** A group that shows the voyage, and counts its children and the finished ones among them. */
  ghost predicate Shows(g: VoyageGroup, items: seq<ItemInfo>, v: ItemInfo) {
    && g.voyageId == v.id && g.title == v.title && g.status == v.status
    && g.total == |Named(items, v.id)| && g.done == |NamedByFinished(items, v.id)|
  }

  lemma GroupShows(items: seq<ItemInfo>, v: ItemInfo)
    ensures Shows(GroupOf(items, v), items, v)
  {
    GroupTotal(items, v.id);
    GroupDone(items, v.id);
  }

  /** A voyage is shown exactly if it is not done or complete, or has a child that is not finished. */
  lemma ShownExactlyIf(items: seq<ItemInfo>, groups: seq<VoyageGroup>, v: ItemInfo)
    requires multiset(groups) == multiset(AllGroups(items)) && v in items && v.itemType == "voyage"
    ensures (exists g :: g in groups && Shows(g, items, v)) <==>
            || (v.status != "done" && v.status != "complete")
            || exists place :: place in Named(items, v.id) && !LastIsFinished(items, items[place.0].id)
  {
    PermutationFacts(groups, AllGroups(items));
    GroupShows(items, v);
    AllFinished(items, v.id);
    GroupsInclude(items, VoyagesOf(items), GroupOf(items, v));
    if g :| g in groups && Shows(g, items, v) {
      GroupsInclude(items, VoyagesOf(items), g);
    }
  }

  lemma AllFinished(items: seq<ItemInfo>, v: Id)
    ensures |NamedByFinished(items, v)| == |Named(items, v)| <==>
            forall place :: place in Named(items, v) ==> LastIsFinished(items, items[place.0].id)
  {
    SubsetSize(NamedByFinished(items, v), Named(items, v));
    if forall place :: place in Named(items, v) ==> LastIsFinished(items, items[place.0].id) {
      assert NamedByFinished(items, v) == Named(items, v);
    }
  }

  /** Every group shows a voyage of the board, and lists exactly the items that name it. */
  lemma GroupsAreVoyages(items: seq<ItemInfo>, groups: seq<VoyageGroup>, g: VoyageGroup)
    requires multiset(groups) == multiset(AllGroups(items)) && g in groups
    ensures exists v :: v in items && v.itemType == "voyage" && Shows(g, items, v)
    ensures forall x :: x in g.items <==> exists i :: i in items && i.itemType != "voyage" && i.id == x && g.voyageId in i.related
  {
    PermutationFacts(groups, AllGroups(items));
    GroupsInclude(items, VoyagesOf(items), g);
    var v :| v in VoyagesOf(items) && g == GroupOf(items, v);
    GroupShows(items, v);
    forall x
      ensures x in g.items <==> exists i :: i in items && i.itemType != "voyage" && i.id == x && g.voyageId in i.related
    {
      ChildrenHave(items, v.id, x);
    }
  }

  /** Some item with this id, no voyage, names a voyage of the board. */
  ghost predicate NamesVoyage(items: seq<ItemInfo>, x: Id) {
    exists i, v :: i in items && i.itemType != "voyage" && i.id == x &&
                   v in items && v.itemType == "voyage" && v.id in i.related
  }

  lemma PlacedAre(items: seq<ItemInfo>, x: Id)
    ensures x in PlacedIds(items, VoyageIds(items)) <==> NamesVoyage(items, x)
  {
    if i, v :| i in items && i.itemType != "voyage" && i.id == x && v in items && v.itemType == "voyage" && v.id in i.related {
      PlacedHas(items, i, v.id);
    }
    if x in PlacedIds(items, VoyageIds(items)) {
      var i, r :| i in items && i.itemType != "voyage" && r in i.related && r in VoyageIds(items) && i.id == x;
      var v :| v in items && v.itemType == "voyage" && v.id == r;
    }
  }

  /** Orphans are the items, no voyages, that are not done, complete or retired themselves, and of whose id no item names
      a voyage of the board. */
  lemma OrphansAre(items: seq<ItemInfo>, x: Id)
    ensures x in Orphans(items) <==>
            && !NamesVoyage(items, x)
            && exists i :: i in items && i.itemType != "voyage" && i.id == x &&
                           i.status != "done" && i.status != "complete" && i.status != "retired"
  {
    OrphansHave(items, x);
    PlacedAre(items, x);
  }

  // ------------------------------------------------------------------ the order

  /** In progress first, then backlog, review, the finished ones, and all others. */
  predicate StatusBefore(s: string, t: string) {
    || (s == "in_progress" && t != "in_progress")
    || (s == "backlog" && t != "in_progress" && t != "backlog")
    || (s == "review" && t != "in_progress" && t != "backlog" && t != "review")
    || (s in ["done", "complete", "retired"] && t !in ["in_progress", "backlog", "review", "done", "complete", "retired"])
  }

  /** By the first character in which they differ; a text comes before its continuations. */
  ghost predicate TextBefore(a: string, b: string) {
    exists n :: 0 <= n <= |a| && n <= |b| && a[..n] == b[..n] && (if n < |a| && n < |b| then a[n] < b[n] else n == |a| < |b|)
  }

  lemma FirstDiffers(a: string, b: string)
    requires a != [] && b != [] && a[0] != b[0]
    ensures TextBefore(a, b) <==> a[0] < b[0]
  {
    assert a[..0] == b[..0];
    forall n | 0 < n <= |a| && n <= |b|
      ensures a[..n] != b[..n]
    {
      assert a[..n][0] != b[..n][0];
    }
  }

  lemma OneIsEmpty(a: string, b: string)
    requires a == [] || b == []
    ensures TextBefore(a, b) <==> a == [] && b != []
  {
    assert a[..0] == b[..0];
  }

  lemma {:induction false} TextOrder(a: string, b: string)
    ensures StringLe(a, b) <==> a == b || TextBefore(a, b)
  {
    if a == [] || b == [] {
      OneIsEmpty(a, b);
    } else if a[0] != b[0] {
      FirstDiffers(a, b);
    } else {
      TextOrder(a[1..], b[1..]);
      TextBeforeTail(a, b);
      assert a == [a[0]] + a[1..] && b == [b[0]] + b[1..];
    }
  }

  lemma TextBeforeTail(a: string, b: string)
    requires a != [] && b != [] && a[0] == b[0]
    ensures TextBefore(a, b) <==> TextBefore(a[1..], b[1..])
  {
    if n :| 0 <= n <= |a| && n <= |b| && a[..n] == b[..n] && (if n < |a| && n < |b| then a[n] < b[n] else n == |a| < |b|) {
      assert n > 0;
      assert a[1..][..n - 1] == a[..n][1..] && b[1..][..n - 1] == b[..n][1..];
    }
    if n :| 0 <= n <= |a[1..]| && n <= |b[1..]| && a[1..][..n] == b[1..][..n] &&
            (if n < |a[1..]| && n < |b[1..]| then a[1..][n] < b[1..][n] else n == |a[1..]| < |b[1..]|) {
      assert a[..n + 1] == [a[0]] + a[1..][..n] && b[..n + 1] == [b[0]] + b[1..][..n];
    }
  }

  /** Groups go by status, and those of statuses that rank alike by the voyage's id. */
  lemma GroupsInOrder(groups: seq<VoyageGroup>, i: nat, j: nat)
    requires SortedBy(groups, GroupLe) && i < j < |groups|
    ensures var g, h := groups[i], groups[j];
            && !StatusBefore(h.status, g.status)
            && (StatusBefore(g.status, h.status) || g.voyageId == h.voyageId || TextBefore(g.voyageId, h.voyageId))
  {
    assert GroupLe(groups[i], groups[j]);
    TextOrder(groups[i].voyageId, groups[j].voyageId);
  }

  // ------------------------------------------------------------ campaign totals

  /** Item number `k` is an expedition that names a voyage of the board which is among the members. */
  ghost predicate IsUnder(items: seq<ItemInfo>, members: seq<Id>, k: nat) {
    && k < |items| && items[k].itemType == "expedition"
    && exists v :: v in items && v.itemType == "voyage" && v.id in members && v.id in items[k].related
  }

  ghost predicate IsFinishedItem(i: ItemInfo) {
    i.status == "done" || i.status == "complete" || i.status == "retired"
  }

  /** The positions that a campaign counts. */
  ghost function Counted(items: seq<ItemInfo>, existing: set<Id>, closedOnly: bool): set<nat> {
    set k | 0 <= k < |items| && IsMemberExpedition(existing, items[k]) && (closedOnly ==> IsClosed(items[k]))
  }

  lemma CountedSnoc(before: seq<ItemInfo>, i: ItemInfo, existing: set<Id>, closedOnly: bool)
    ensures |Counted(before + [i], existing, closedOnly)| == |Counted(before, existing, closedOnly)| +
            if IsMemberExpedition(existing, i) && (closedOnly ==> IsClosed(i)) then 1 else 0
  {
    var more := if IsMemberExpedition(existing, i) && (closedOnly ==> IsClosed(i)) then {|before|} else {};
    assert Counted(before + [i], existing, closedOnly) == Counted(before, existing, closedOnly) + more;
  }

  lemma {:induction false} CountIsSize(items: seq<ItemInfo>, existing: set<Id>, closedOnly: bool)
    ensures CountIf(items, existing, closedOnly) == |Counted(items, existing, closedOnly)|
  {
    if items == [] {
      assert Counted(items, existing, closedOnly) == {};
    } else {
      var before, last := items[..|items| - 1], items[|items| - 1];
      CountIsSize(before, existing, closedOnly);
      CountedSnoc(before, last, existing, closedOnly);
      assert items == before + [last];
    }
  }

  lemma MembersAre(items: seq<ItemInfo>, members: seq<Id>, k: nat)
    requires k < |items|
    ensures IsMemberExpedition(ExistingMembers(items, members), items[k]) <==> IsUnder(items, members, k)
  {
    if r :| r in items[k].related && r in ExistingMembers(items, members) {
      var v :| v in items && v.itemType == "voyage" && v.id == r;
    }
  }

  /** The campaign's total is the number of such items, and what is done of it the number of those that are finished. */
  lemma CampaignCounts(items: seq<ItemInfo>, members: seq<Id>)
    ensures var children := MemberExpeditions(items, ExistingMembers(items, members));
            && |children| == |set k | 0 <= k < |items| && IsUnder(items, members, k)|
            && |Filter(children, IsClosed)| ==
                 |set k | 0 <= k < |items| && IsUnder(items, members, k) && IsFinishedItem(items[k])|
  {
    var existing := ExistingMembers(items, members);
    CountIfIs(items, existing);
    CountIsSize(items, existing, false);
    CountIsSize(items, existing, true);
    forall k | 0 <= k < |items|
      ensures IsMemberExpedition(existing, items[k]) <==> IsUnder(items, members, k)
    {
      MembersAre(items, members, k);
    }
    assert Counted(items, existing, false) == set k | 0 <= k < |items| && IsUnder(items, members, k);
    assert Counted(items, existing, true) == set k | 0 <= k < |items| && IsUnder(items, members, k) && IsFinishedItem(items[k]);
  }

  /** The member count is that of the voyages of the board that are among the members. */
  lemma CampaignMembers(items: seq<ItemInfo>, members: seq<Id>, x: Id)
    ensures x in ExistingMembers(items, members) <==> x in members && exists v :: v in items && v.itemType == "voyage" && v.id == x
  {
  }
}
