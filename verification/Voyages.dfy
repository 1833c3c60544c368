/** Voyage rollups: typed membership edges, grouping under voyages, and campaign totals. */
module Voyages {
  import opened Items
  import opened Seqs
  import opened Sorting
  import opened Wrappers

  /** A typed relation between two items; deleted edges stay in the store. */
  datatype Edge = Edge(source: Id, target: Id, kind: string, deleted: bool)

  /** The sources of live edges of one kind that point at `target`. */
  function Incoming(edges: seq<Edge>, target: Id, kind: string): set<Id> {
    set e | e in edges && !e.deleted && e.target == target && e.kind == kind :: e.source
  }

  function VoyageIds(items: seq<ItemInfo>): set<Id> {
    set i | i in items && i.itemType == "voyage" :: i.id
  }

  predicate IsChildId(items: seq<ItemInfo>, id: Id) {
    exists i :: i in items && i.itemType != "voyage" && i.id == id
  }

  /** The voyages that typed edges make an item a member of. */
  function TypedVoyages(items: seq<ItemInfo>, edges: seq<Edge>, id: Id): set<Id> {
    set v | v in VoyageIds(items) &&
            (id in Incoming(edges, v, "implements") || (v in Incoming(edges, id, "spawns") && IsChildId(items, id)))
  }

  // --------------------------------------------------------- folding edges

  function Added(add: map<Id, seq<Id>>, id: Id): seq<Id> {
    if id in add then add[id] else []
  }

  /** Item `id` is going to be folded into voyage `v`. */
  ghost predicate Adds(add: map<Id, seq<Id>>, id: Id, v: Id) {
    v in Added(add, id)
  }

  /** Takes the elements of a set in an arbitrary order. */
  method Pick(s: set<Id>) returns (x: Id, rest: set<Id>)
    requires s != {}
    ensures x in s && rest == s - {x}
  {
    x :| x in s;
    rest := s - {x};
  }

  /** Members of each voyage by its incoming `implements` edges. */
  method CollectImplements(edges: seq<Edge>, voyages: set<Id>) returns (add: map<Id, seq<Id>>)
    ensures forall id, v :: Adds(add, id, v) <==> v in voyages && id in Incoming(edges, v, "implements")
  {
    add := map[];
    var todo := voyages;
    while todo != {}
      invariant todo <= voyages
      invariant forall id, v :: Adds(add, id, v) <==> v in voyages - todo && id in Incoming(edges, v, "implements")
    {
      var v, rest := Pick(todo);
      ghost var before := add;
      var sources := Incoming(edges, v, "implements");
      var left := sources;
      while left != {}
        invariant left <= sources
        invariant forall id, w :: Adds(add, id, w) <==> Adds(before, id, w) || (w == v && id in sources - left)
      {
        var e, others := Pick(left);
        assert sources - others == sources - left + {e};
        add := add[e := Added(add, e) + [v]];
        left := others;
      }
      assert sources - {} == sources;
      assert voyages - rest == voyages - todo + {v};
      todo := rest;
    }
    assert voyages - {} == voyages;
  }

  /** Adds the voyages among `sources` to one item. */
  method AddVoyages(id: Id, sources: set<Id>, voyages: set<Id>, add0: map<Id, seq<Id>>) returns (add: map<Id, seq<Id>>)
    ensures forall x, v :: Adds(add, x, v) <==> Adds(add0, x, v) || (x == id && v in voyages && v in sources)
  {
    add := add0;
    var left := sources;
    while left != {}
      invariant left <= sources
      invariant forall x, v :: Adds(add, x, v) <==>
                  Adds(add0, x, v) || (x == id && v in voyages && v in sources && v !in left)
    {
      var v, others := Pick(left);
      ghost var before := add;
      if v in voyages {
        add := add[id := Added(add, id) + [v]];
      }
      assert forall x, w :: Adds(add, x, w) <==> Adds(before, x, w) || (x == id && w == v && v in voyages);
      left := others;
    }
  }

  lemma ChildStep(items: seq<ItemInfo>, i: nat, id: Id)
    requires i < |items|
    ensures IsChildId(items[..i + 1], id) <==>
            IsChildId(items[..i], id) || (items[i].itemType != "voyage" && id == items[i].id)
  {
    PrefixStep(items, i);
    assert forall x :: x in items[..i + 1] <==> x in items[..i] || x == items[i];
  }

  /** Adds, for every child item, the voyages that spawn it. */
  method CollectSpawns(items: seq<ItemInfo>, edges: seq<Edge>, voyages: set<Id>, add0: map<Id, seq<Id>>)
    returns (add: map<Id, seq<Id>>)
    ensures forall id, v :: Adds(add, id, v) <==>
              Adds(add0, id, v) || (v in voyages && v in Incoming(edges, id, "spawns") && IsChildId(items, id))
  {
    add := add0;
    for i := 0 to |items|
      invariant forall id, v :: Adds(add, id, v) <==>
                  Adds(add0, id, v) || (v in voyages && v in Incoming(edges, id, "spawns") && IsChildId(items[..i], id))
    {
      forall id {
        ChildStep(items, i, id);
      }
      if items[i].itemType != "voyage" {
        add := AddVoyages(items[i].id, Incoming(edges, items[i].id, "spawns"), voyages, add);
      }
    }
    assert items[..|items|] == items;
  }

  /** `r` is `s` followed by the elements of `extra` that `s` lacks, each once. */
  ghost predicate Extends(s: seq<Id>, extra: set<Id>, r: seq<Id>) {
    exists t :: r == s + t && NoDup(t) && Elements(t) == extra - Elements(s)
  }

  method AppendMissing(related: seq<Id>, voyages: seq<Id>) returns (r: seq<Id>)
    ensures Extends(related, Elements(voyages), r)
  {
    var t := [];
    for k := 0 to |voyages|
      invariant NoDup(t) && Elements(t) == Elements(voyages[..k]) - Elements(related)
    {
      PrefixStep(voyages, k);
      if voyages[k] !in related + t {
        assert Elements(t + [voyages[k]]) == Elements(t) + {voyages[k]};
        t := t + [voyages[k]];
      }
    }
    assert voyages[..|voyages|] == voyages;
    r := related + t;
  }

  /** An item after folding: the same but for `related`, which now also names its typed voyages. */
  ghost predicate FoldedItem(items: seq<ItemInfo>, edges: seq<Edge>, i: ItemInfo, j: ItemInfo) {
    j == i.(related := j.related) && Extends(i.related, TypedVoyages(items, edges, i.id), j.related)
  }

  ghost predicate Folded(items: seq<ItemInfo>, edges: seq<Edge>, folded: seq<ItemInfo>) {
    |folded| == |items| && forall k {:trigger folded[k]} :: 0 <= k < |items| ==>
      FoldedItem(items, edges, items[k], folded[k])
  }

  method FoldTypedMemberships(items: seq<ItemInfo>, edges: seq<Edge>) returns (folded: seq<ItemInfo>)
    ensures Folded(items, edges, folded)
  {
    var voyages := VoyageIds(items);
    var add := map[];
    if voyages != {} {
      add := CollectImplements(edges, voyages);
      add := CollectSpawns(items, edges, voyages, add);
    }
    forall id
      ensures Elements(Added(add, id)) == TypedVoyages(items, edges, id)
    {
      assert forall v :: v in Added(add, id) <==> Adds(add, id, v);
    }
    folded := [];
    for k := 0 to |items|
      invariant |folded| == k
      invariant forall j {:trigger folded[j]} :: 0 <= j < k ==> FoldedItem(items, edges, items[j], folded[j])
    {
      var related := AppendMissing(items[k].related, Added(add, items[k].id));
      folded := folded + [items[k].(related := related)];
    }
  }

  /** Folding keeps ids and types, so the typed voyages stay the same. */
  lemma FoldKeepsVoyages(items: seq<ItemInfo>, edges: seq<Edge>, folded: seq<ItemInfo>)
    requires Folded(items, edges, folded)
    ensures VoyageIds(folded) == VoyageIds(items)
    ensures forall id :: TypedVoyages(folded, edges, id) == TypedVoyages(items, edges, id)
  {
    assert forall k :: 0 <= k < |items| ==> folded[k].id == items[k].id && folded[k].itemType == items[k].itemType;
    forall id
      ensures id in VoyageIds(folded) <==> id in VoyageIds(items)
      ensures IsChildId(folded, id) <==> IsChildId(items, id)
    {
      if id in VoyageIds(folded) {
        var k :| 0 <= k < |folded| && folded[k].itemType == "voyage" && folded[k].id == id;
        assert items[k] in items;
      }
      if id in VoyageIds(items) {
        var k :| 0 <= k < |items| && items[k].itemType == "voyage" && items[k].id == id;
        assert folded[k] in folded;
      }
      if IsChildId(folded, id) {
        var k :| 0 <= k < |folded| && folded[k].itemType != "voyage" && folded[k].id == id;
        assert items[k] in items;
      }
      if IsChildId(items, id) {
        var k :| 0 <= k < |items| && items[k].itemType != "voyage" && items[k].id == id;
        assert folded[k] in folded;
      }
    }
  }

  /** Folding twice is folding once, whatever orders the edges are visited in. */
  lemma FoldIsIdempotent(items: seq<ItemInfo>, edges: seq<Edge>, once: seq<ItemInfo>, twice: seq<ItemInfo>)
    requires Folded(items, edges, once) && Folded(once, edges, twice)
    ensures twice == once
  {
    FoldKeepsVoyages(items, edges, once);
    forall k | 0 <= k < |once|
      ensures twice[k] == once[k]
    {
      assert FoldedItem(items, edges, items[k], once[k]) && FoldedItem(once, edges, once[k], twice[k]);
      var t :| once[k].related == items[k].related + t && Elements(t) == TypedVoyages(items, edges, items[k].id) - Elements(items[k].related);
      var u :| twice[k].related == once[k].related + u && Elements(u) == TypedVoyages(once, edges, once[k].id) - Elements(once[k].related);
      assert Elements(once[k].related) == Elements(items[k].related) + Elements(t);
      assert Elements(u) == {};
      assert u == [] by {
        ElementsEmpty(u);
      }
    }
  }

  // ------------------------------------------------------ campaign totals

  predicate IsMemberExpedition(existing: set<Id>, i: ItemInfo) {
    i.itemType == "expedition" && exists r :: r in i.related && r in existing
  }

  function MemberExpeditions(items: seq<ItemInfo>, existing: set<Id>): seq<ItemInfo> {
    Filter(items, (i: ItemInfo) => IsMemberExpedition(existing, i))
  }

  function ExistingMembers(items: seq<ItemInfo>, members: seq<Id>): set<Id> {
    set v | v in VoyageIds(items) && v in members
  }

  function CountIf(items: seq<ItemInfo>, existing: set<Id>, closedOnly: bool): nat {
    if items == [] then 0 else
      var i := items[|items| - 1];
      CountIf(items[..|items| - 1], existing, closedOnly) +
        if IsMemberExpedition(existing, i) && (closedOnly ==> IsClosed(i)) then 1 else 0
  }

  lemma {:induction false} CountIfIs(items: seq<ItemInfo>, existing: set<Id>)
    ensures CountIf(items, existing, false) == |MemberExpeditions(items, existing)|
    ensures CountIf(items, existing, true) == |Filter(MemberExpeditions(items, existing), IsClosed)|
  {
    if items != [] {
      CountIfIs(items[..|items| - 1], existing);
      var before := MemberExpeditions(items[..|items| - 1], existing);
      assert (before + [items[|items| - 1]])[..|before|] == before;
    }
  }

  method CountMembers(items: seq<ItemInfo>, existing: set<Id>) returns (done: nat, total: nat)
    ensures total == |MemberExpeditions(items, existing)|
    ensures done == |Filter(MemberExpeditions(items, existing), IsClosed)|
  {
    CountIfIs(items, existing);
    done, total := 0, 0;
    for k := 0 to |items|
      invariant total == CountIf(items[..k], existing, false) && done == CountIf(items[..k], existing, true)
    {
      assert items[..k + 1][..k] == items[..k];
      if IsMemberExpedition(existing, items[k]) {
        total := total + 1;
        if IsClosed(items[k]) {
          done := done + 1;
        }
      }
    }
    assert items[..|items|] == items;
  }

  /** Member voyages on the board, and the expeditions under them: finished ones and all. */
  method CampaignAggregate(items: seq<ItemInfo>, members: seq<Id>) returns (memberCount: nat, done: nat, total: nat)
    ensures var children := MemberExpeditions(items, ExistingMembers(items, members));
            && memberCount == |ExistingMembers(items, members)|
            && total == |children|
            && done == |Filter(children, IsClosed)|
            && done <= total
  {
    var existing := ExistingMembers(items, members);
    done, total := CountMembers(items, existing);
    memberCount := |existing|;
  }

  /** A member voyage that the item names, implements, or is spawned by. */
  ghost predicate LinkedToMember(items: seq<ItemInfo>, edges: seq<Edge>, members: seq<Id>, i: ItemInfo) {
    exists v :: v in ExistingMembers(items, members) &&
      (v in i.related || i.id in Incoming(edges, v, "implements") || v in Incoming(edges, i.id, "spawns"))
  }

  lemma {:induction false} SameCount(s: seq<ItemInfo>, t: seq<ItemInfo>, p: ItemInfo -> bool, q: ItemInfo -> bool)
    requires |s| == |t| && forall k :: 0 <= k < |s| ==> p(s[k]) == q(t[k])
    ensures |Filter(s, p)| == |Filter(t, q)|
  {
    if s != [] {
      SameCount(s[..|s| - 1], t[..|t| - 1], p, q);
    }
  }

  lemma FoldedItemIsMember(items: seq<ItemInfo>, edges: seq<Edge>, folded: seq<ItemInfo>, members: seq<Id>, k: nat)
    requires Folded(items, edges, folded) && k < |items|
    ensures IsMemberExpedition(ExistingMembers(folded, members), folded[k]) <==>
            items[k].itemType == "expedition" && LinkedToMember(items, edges, members, items[k])
  {
    FoldKeepsVoyages(items, edges, folded);
    var i, j, existing := items[k], folded[k], ExistingMembers(items, members);
    assert ExistingMembers(folded, members) == existing;
    assert FoldedItem(items, edges, i, j);
    var t :| j.related == i.related + t && Elements(t) == TypedVoyages(items, edges, i.id) - Elements(i.related);
    forall v
      ensures v in j.related <==> v in i.related || v in TypedVoyages(items, edges, i.id)
    {
      assert v in t <==> v in Elements(t);
      assert v in i.related <==> v in Elements(i.related);
    }
    if i.itemType == "expedition" {
      assert IsChildId(items, i.id);
    }
  }

  /** After folding, the campaign counts every expedition linked to a member voyage, by whichever kind of link, once. */
  lemma CampaignCountsEveryLink(items: seq<ItemInfo>, edges: seq<Edge>, folded: seq<ItemInfo>, members: seq<Id>)
    requires Folded(items, edges, folded)
    ensures |MemberExpeditions(folded, ExistingMembers(folded, members))| ==
            |Filter(items, (i: ItemInfo) => i.itemType == "expedition" && LinkedToMember(items, edges, members, i))|
  {
    var existing := ExistingMembers(folded, members);
    forall k | 0 <= k < |items|
      ensures IsMemberExpedition(existing, folded[k]) ==
              (items[k].itemType == "expedition" && LinkedToMember(items, edges, members, items[k]))
    {
      FoldedItemIsMember(items, edges, folded, members, k);
    }
    SameCount(folded, items, (i: ItemInfo) => IsMemberExpedition(existing, i),
              (i: ItemInfo) => i.itemType == "expedition" && LinkedToMember(items, edges, members, i));
  }

  // ---------------------------------------------------- grouping by voyage

  /** How often `v` occurs in `related`, as that many copies of `id`. */
  function Copies(related: seq<Id>, v: Id, id: Id): seq<Id> {
    if related == [] then [] else
      Copies(related[..|related| - 1], v, id) + if related[|related| - 1] == v then [id] else []
  }

  /** The children listed under voyage `v`. */
  function Children(items: seq<ItemInfo>, v: Id): seq<Id> {
    if items == [] then [] else
      var last := items[|items| - 1];
      Children(items[..|items| - 1], v) + if last.itemType == "voyage" then [] else Copies(last.related, v, last.id)
  }

  lemma {:induction false} CopiesHave(related: seq<Id>, v: Id, id: Id, x: Id)
    ensures x in Copies(related, v, id) <==> x == id && v in related
  {
    if related != [] {
      CopiesHave(related[..|related| - 1], v, id, x);
      assert related == related[..|related| - 1] + [related[|related| - 1]];
    }
  }

  lemma {:induction false} ChildrenHave(items: seq<ItemInfo>, v: Id, x: Id)
    ensures x in Children(items, v) <==>
            exists i :: i in items && i.itemType != "voyage" && i.id == x && v in i.related
  {
    if items != [] {
      var last := items[|items| - 1];
      ChildrenHave(items[..|items| - 1], v, x);
      CopiesHave(last.related, v, last.id, x);
      assert items == items[..|items| - 1] + [last];
    }
  }

  datatype VoyageGroup = VoyageGroup(voyageId: Id, title: string, status: string, items: seq<Id>, done: nat, total: nat)

  function ClosedAmong(m: map<Id, ItemInfo>, ids: seq<Id>): seq<Id> {
    Filter(ids, id => id in m && IsClosed(m[id]))
  }

  function GroupOf(items: seq<ItemInfo>, v: ItemInfo): VoyageGroup {
    var children := Children(items, v.id);
    VoyageGroup(v.id, v.title, v.status, children, |ClosedAmong(ItemMap(items), children)|, |children|)
  }

  /** A finished voyage is dropped when all its children are finished too. */
  predicate Dropped(g: VoyageGroup) {
    (g.status == "done" || g.status == "complete") && g.done == g.total
  }

  function GroupsOf(items: seq<ItemInfo>, voyages: seq<ItemInfo>): seq<VoyageGroup> {
    if voyages == [] then [] else
      var g := GroupOf(items, voyages[|voyages| - 1]);
      GroupsOf(items, voyages[..|voyages| - 1]) + if Dropped(g) then [] else [g]
  }

  function VoyagesOf(items: seq<ItemInfo>): seq<ItemInfo> {
    Filter(items, (i: ItemInfo) => i.itemType == "voyage")
  }

  lemma VoyageHasId(items: seq<ItemInfo>, k: nat)
    requires k < |VoyagesOf(items)|
    ensures VoyagesOf(items)[k].id in VoyageIds(items)
  {
    assert VoyagesOf(items)[k] in VoyagesOf(items);
  }

  function AllGroups(items: seq<ItemInfo>): seq<VoyageGroup> {
    GroupsOf(items, VoyagesOf(items))
  }

  /** Ids of child items that name a voyage. */
  function PlacedIds(items: seq<ItemInfo>, voyages: set<Id>): set<Id> {
    set i, v | i in items && i.itemType != "voyage" && v in i.related && v in voyages :: i.id
  }

  function Orphans(items: seq<ItemInfo>): seq<Id> {
    var placed := PlacedIds(items, VoyageIds(items));
    IdsOf(Filter(items, (i: ItemInfo) => i.itemType != "voyage" && i.id !in placed && !IsClosed(i)))
  }

  function StatusOrder(s: string): int {
    if s == "in_progress" then 0
    else if s == "backlog" then 1
    else if s == "review" then 2
    else if s == "done" || s == "complete" || s == "retired" then 3
    else 4
  }

  predicate StringLe(a: string, b: string) {
    a == [] || (b != [] && (a[0] < b[0] || (a[0] == b[0] && StringLe(a[1..], b[1..]))))
  }

  lemma {:induction false} StringLeTotal(a: string, b: string)
    ensures StringLe(a, b) || StringLe(b, a)
  {
    if a != [] && b != [] {
      StringLeTotal(a[1..], b[1..]);
    }
  }

  lemma {:induction false} StringLeTransitive(a: string, b: string, c: string)
    requires StringLe(a, b) && StringLe(b, c)
    ensures StringLe(a, c)
  {
    if a != [] && a[0] == b[0] && b[0] == c[0] {
      StringLeTransitive(a[1..], b[1..], c[1..]);
    }
  }

  predicate GroupLe(a: VoyageGroup, b: VoyageGroup) {
    || StatusOrder(a.status) < StatusOrder(b.status)
    || (StatusOrder(a.status) == StatusOrder(b.status) && StringLe(a.voyageId, b.voyageId))
  }

  lemma GroupLeOrders()
    ensures TotalPreorder(GroupLe)
  {
    forall a, b
      ensures GroupLe(a, b) || GroupLe(b, a)
    {
      StringLeTotal(a.voyageId, b.voyageId);
    }
    forall a, b, c | GroupLe(a, b) && GroupLe(b, c)
      ensures GroupLe(a, c)
    {
      if StatusOrder(a.status) == StatusOrder(b.status) == StatusOrder(c.status) {
        StringLeTransitive(a.voyageId, b.voyageId, c.voyageId);
      }
    }
  }

  /** `children` with `id` listed under each voyage among the first `j` entries of `related`. */
  ghost predicate Listed(children: map<Id, seq<Id>>, children0: map<Id, seq<Id>>, related: seq<Id>, j: nat, id: Id,
                         v: Id)
    requires j <= |related|
  {
    Added(children, v) == Added(children0, v) + Copies(related[..j], v, id)
  }

  lemma ListedStep(children: map<Id, seq<Id>>, children': map<Id, seq<Id>>, children0: map<Id, seq<Id>>,
                   related: seq<Id>, j: nat, id: Id, v: Id)
    requires j < |related| && Listed(children, children0, related, j, id, v)
    requires Added(children', v) == Added(children, v) + if related[j] == v then [id] else []
    ensures Listed(children', children0, related, j + 1, id, v)
  {
    assert related[..j + 1][..j] == related[..j];
    var a, b, c := Added(children0, v), Copies(related[..j], v, id), if related[j] == v then [id] else [];
    assert Copies(related[..j + 1], v, id) == b + c;
    assert a + (b + c) == a + b + c;
  }

  ghost predicate AllListed(children: map<Id, seq<Id>>, children0: map<Id, seq<Id>>, related: seq<Id>, j: nat, id: Id,
                            voyages: set<Id>)
    requires j <= |related|
  {
    forall v {:trigger Listed(children, children0, related, j, id, v)} ::
      v in voyages ==> Listed(children, children0, related, j, id, v)
  }

  lemma AllListedStep(children: map<Id, seq<Id>>, children': map<Id, seq<Id>>, children0: map<Id, seq<Id>>,
                      related: seq<Id>, j: nat, id: Id, voyages: set<Id>)
    requires j < |related| && AllListed(children, children0, related, j, id, voyages)
    requires children' == if related[j] in voyages then children[related[j] := Added(children, related[j]) + [id]] else children
    ensures AllListed(children', children0, related, j + 1, id, voyages)
  {
    forall v | v in voyages
      ensures Listed(children', children0, related, j + 1, id, v)
    {
      ListedStep(children, children', children0, related, j, id, v);
    }
  }

  lemma AllListedStart(children: map<Id, seq<Id>>, related: seq<Id>, id: Id, voyages: set<Id>)
    ensures AllListed(children, children, related, 0, id, voyages)
  {
    forall v | v in voyages
      ensures Listed(children, children, related, 0, id, v)
    {
      assert related[..0] == [];
    }
  }

  lemma AllListedEnd(children: map<Id, seq<Id>>, children0: map<Id, seq<Id>>, related: seq<Id>, id: Id, voyages: set<Id>)
    requires AllListed(children, children0, related, |related|, id, voyages)
    ensures forall v :: v in voyages ==> Added(children, v) == Added(children0, v) + Copies(related, v, id)
  {
    assert related[..|related|] == related;
    forall v | v in voyages
      ensures Added(children, v) == Added(children0, v) + Copies(related, v, id)
    {
      assert Listed(children, children0, related, |related|, id, v);
    }
  }

  ghost predicate Names(related: seq<Id>, voyages: set<Id>) {
    exists v :: v in related && v in voyages
  }

  lemma NamesStep(related: seq<Id>, j: nat, voyages: set<Id>)
    requires j < |related|
    ensures Names(related[..j + 1], voyages) <==> Names(related[..j], voyages) || related[j] in voyages
  {
    PrefixStep(related, j);
    assert related[j] in related[..j + 1];
  }

  /** Lists one item under every voyage it names. */
  method PlaceItem(item: ItemInfo, voyages: set<Id>, children0: map<Id, seq<Id>>)
    returns (children: map<Id, seq<Id>>, placed: bool)
    ensures forall v :: v in voyages ==> Added(children, v) == Added(children0, v) + Copies(item.related, v, item.id)
    ensures placed <==> exists v :: v in item.related && v in voyages
  {
    var related := item.related;
    children, placed := children0, false;
    AllListedStart(children, related, item.id, voyages);
    for j := 0 to |related|
      invariant AllListed(children, children0, related, j, item.id, voyages)
      invariant placed <==> Names(related[..j], voyages)
    {
      ghost var before := children;
      NamesStep(related, j, voyages);
      if related[j] in voyages {
        children := children[related[j] := Added(children, related[j]) + [item.id]];
        placed := true;
      }
      AllListedStep(before, children, children0, related, j, item.id, voyages);
    }
    AllListedEnd(children, children0, related, item.id, voyages);
    assert related[..|related|] == related;
  }

  /** Maps each voyage to its children, and collects the ids that have a voyage. */
  method MapChildren(items: seq<ItemInfo>, voyages: set<Id>) returns (children: map<Id, seq<Id>>, placed: set<Id>)
    ensures forall v :: v in voyages ==> Added(children, v) == Children(items, v)
    ensures placed == PlacedIds(items, voyages)
  {
    children, placed := map[], {};
    for k := 0 to |items|
      invariant forall v :: v in voyages ==> Added(children, v) == Children(items[..k], v)
      invariant placed == PlacedIds(items[..k], voyages)
    {
      assert items[..k + 1][..k] == items[..k];
      PlacedStep(items, k, voyages);
      if items[k].itemType != "voyage" {
        var found;
        children, found := PlaceItem(items[k], voyages, children);
        if found {
          placed := placed + {items[k].id};
        }
      }
    }
    assert items[..|items|] == items;
  }

  lemma PlacedStep(items: seq<ItemInfo>, k: nat, voyages: set<Id>)
    requires k < |items|
    ensures PlacedIds(items[..k + 1], voyages) == PlacedIds(items[..k], voyages) +
            if items[k].itemType != "voyage" && exists v :: v in items[k].related && v in voyages then {items[k].id} else {}
  {
    PrefixStep(items, k);
    assert forall i :: i in items[..k + 1] <==> i in items[..k] || i == items[k];
  }

  method GroupByVoyage(items: seq<ItemInfo>) returns (groups: seq<VoyageGroup>, orphans: seq<Id>)
    ensures multiset(groups) == multiset(AllGroups(items)) && SortedBy(groups, GroupLe)
    ensures orphans == Orphans(items)
  {
    var children, placed := MapChildren(items, VoyageIds(items));
    groups := BuildGroups(items, children);
    GroupLeOrders();
    StableSortSorts(groups, GroupLe);
    groups := StableSort(groups, GroupLe);
    orphans := IdsOf(Filter(items, (i: ItemInfo) => i.itemType != "voyage" && i.id !in placed && !IsClosed(i)));
  }

  method BuildGroup(items: seq<ItemInfo>, m: map<Id, ItemInfo>, children: map<Id, seq<Id>>, v: ItemInfo)
    returns (g: VoyageGroup)
    requires m == ItemMap(items) && Added(children, v.id) == Children(items, v.id)
    ensures g == GroupOf(items, v)
  {
    var own := Added(children, v.id);
    g := VoyageGroup(v.id, v.title, v.status, own, |ClosedAmong(m, own)|, |own|);
  }

  method GroupEach(items: seq<ItemInfo>, m: map<Id, ItemInfo>, children: map<Id, seq<Id>>, voyages: seq<ItemInfo>)
    returns (groups: seq<VoyageGroup>)
    requires m == ItemMap(items)
    requires forall k :: 0 <= k < |voyages| ==> Added(children, voyages[k].id) == Children(items, voyages[k].id)
    ensures groups == GroupsOf(items, voyages)
  {
    groups := [];
    for k := 0 to |voyages|
      invariant groups == GroupsOf(items, voyages[..k])
    {
      assert voyages[..k + 1][..k] == voyages[..k];
      var g := BuildGroup(items, m, children, voyages[k]);
      if !Dropped(g) {
        groups := groups + [g];
      }
    }
    assert voyages[..|voyages|] == voyages;
  }

  method BuildGroups(items: seq<ItemInfo>, children: map<Id, seq<Id>>) returns (groups: seq<VoyageGroup>)
    requires forall v :: v in VoyageIds(items) ==> Added(children, v) == Children(items, v)
    ensures groups == AllGroups(items)
  {
    forall k | 0 <= k < |VoyagesOf(items)|
      ensures VoyagesOf(items)[k].id in VoyageIds(items)
    {
      VoyageHasId(items, k);
    }
    groups := GroupEach(items, ItemMap(items), children, VoyagesOf(items));
  }

  lemma {:induction false} GroupsInclude(items: seq<ItemInfo>, voyages: seq<ItemInfo>, g: VoyageGroup)
    ensures g in GroupsOf(items, voyages) <==> !Dropped(g) && exists v :: v in voyages && g == GroupOf(items, v)
  {
    if voyages != [] {
      GroupsInclude(items, voyages[..|voyages| - 1], g);
      assert voyages == voyages[..|voyages| - 1] + [voyages[|voyages| - 1]];
    }
  }

  lemma {:induction false} FilterDrops(s: seq<Id>, p: Id -> bool, x: Id)
    requires x in s && !p(x)
    ensures |Filter(s, p)| < |s|
  {
    if s[|s| - 1] != x {
      assert s == s[..|s| - 1] + [s[|s| - 1]];
      FilterDrops(s[..|s| - 1], p, x);
    }
  }

  /** No open item gets lost: each is listed under every voyage it names, or else it is an orphan, and never both. */
  lemma NoOpenWorkIsLost(items: seq<ItemInfo>, groups: seq<VoyageGroup>, i: ItemInfo)
    requires multiset(groups) == multiset(AllGroups(items))
    requires i in items && i.itemType != "voyage" && !IsClosed(i) && !IsClosed(ItemMap(items)[i.id])
    ensures forall v :: v in i.related && v in VoyageIds(items) ==>
              exists g :: g in groups && g.voyageId == v && i.id in g.items
    ensures i.id in Orphans(items) <==> forall g :: g in groups ==> i.id !in g.items
  {
    PermutationFacts(groups, AllGroups(items));
    forall v | v in i.related && v in VoyageIds(items)
      ensures exists g :: g in groups && g.voyageId == v && i.id in g.items
    {
      OpenChildIsListed(items, i.id, i, v);
    }
    forall g | g in groups && i.id in g.items
      ensures i.id in PlacedIds(items, VoyageIds(items))
    {
      ListedIsPlaced(items, g, i.id);
    }
    OrphansHave(items, i.id);
    if i.id in PlacedIds(items, VoyageIds(items)) {
      var j, v :| j in items && j.itemType != "voyage" && v in j.related && v in VoyageIds(items) && j.id == i.id;
      OpenChildIsListed(items, i.id, j, v);
    }
  }

  lemma OrphansHave(items: seq<ItemInfo>, x: Id)
    ensures x in Orphans(items) <==>
            x !in PlacedIds(items, VoyageIds(items)) && exists i :: i in items && i.itemType != "voyage" && !IsClosed(i) && i.id == x
  {
    var placed := PlacedIds(items, VoyageIds(items));
    IdsOfHas(Filter(items, (i: ItemInfo) => i.itemType != "voyage" && i.id !in placed && !IsClosed(i)), x);
  }

  lemma OpenChildIsListed(items: seq<ItemInfo>, x: Id, j: ItemInfo, v: Id)
    requires j in items && j.itemType != "voyage" && j.id == x && v in j.related && v in VoyageIds(items)
    requires !IsClosed(ItemMap(items)[x])
    ensures exists g :: g in AllGroups(items) && g.voyageId == v && x in g.items
  {
    var w :| w in items && w.itemType == "voyage" && w.id == v;
    var g, m := GroupOf(items, w), ItemMap(items);
    ChildrenHave(items, v, x);
    FilterDrops(g.items, id => id in m && IsClosed(m[id]), x);
    assert g.done == |ClosedAmong(m, g.items)|;
    GroupsInclude(items, VoyagesOf(items), g);
  }

  lemma ListedIsPlaced(items: seq<ItemInfo>, g: VoyageGroup, x: Id)
    requires g in AllGroups(items) && x in g.items
    ensures x in PlacedIds(items, VoyageIds(items))
  {
    var voyages := VoyagesOf(items);
    GroupsInclude(items, voyages, g);
    var w :| w in voyages && g == GroupOf(items, w);
    ChildrenHave(items, w.id, x);
    var i :| i in items && i.itemType != "voyage" && i.id == x && w.id in i.related;
    PlacedHas(items, i, w.id);
  }

  lemma PlacedHas(items: seq<ItemInfo>, i: ItemInfo, v: Id)
    requires i in items && i.itemType != "voyage" && v in i.related && v in VoyageIds(items)
    ensures i.id in PlacedIds(items, VoyageIds(items))
  {
  }
}
