/** The scheduler's report, read off the items directly: which statuses, edges and priorities count. */
module SchedulerLaws {
  import opened CriticalPath
  import opened Dependencies
  import opened DepGraph
  import opened Items
  import opened Wrappers

  // ------------------------------------------------------------ what is active

  /** The nodes are the ids that have an item, and no item that is done, complete or retired. */
  lemma NodesAre(items: seq<ItemInfo>, x: Id)
    ensures x in GraphOf(items) <==>
            && (exists i :: i in items && i.id == x)
            && forall i :: i in items && i.id == x ==> i.status != "done" && i.status != "complete" && i.status != "retired"
  {
    if x in GraphOf(items) {
      var i :| i in Active(items) && i.id == x;
      assert x !in ClosedIds(items);
    }
    if i :| i in items && i.id == x {
      if x !in ClosedIds(items) {
        assert i in Active(items);
      }
    }
  }

  /** One node depends on another exactly if an item lists it. */
  lemma EdgesAre(items: seq<ItemInfo>, x: Id, y: Id)
    ensures Dep(GraphOf(items), x, y) <==>
            x in GraphOf(items) && y in GraphOf(items) && exists i :: i in items && i.id == x && y in i.dependsOn
  {
    GraphEdges(items, x, y);
    if x in GraphOf(items) {
      forall i | i in items && i.id == x
        ensures i in Active(items)
      {
        var j :| j in Active(items) && j.id == x;
        assert x !in ClosedIds(items);
      }
    }
  }

  /** Some item with this id lists a node. */
  ghost predicate HeldUp(items: seq<ItemInfo>, x: Id) {
    exists y :: y in GraphOf(items) && ListsIt(items, x, y)
  }

  ghost predicate ListsIt(items: seq<ItemInfo>, x: Id, y: Id) {
    exists i :: i in items && i.id == x && y in i.dependsOn
  }

  lemma RootsAre(items: seq<ItemInfo>, x: Id)
    requires x in GraphOf(items)
    ensures GraphOf(items)[x] != [] <==> HeldUp(items, x)
  {
    var g := GraphOf(items);
    if g[x] != [] {
      var y := g[x][0];
      GraphClosed(items);
      assert y in g[x];
      assert Dep(g, x, y);
      EdgesAre(items, x, y);
      assert ListsIt(items, x, y);
    }
    if y :| y in g && ListsIt(items, x, y) {
      EdgesAre(items, x, y);
    }
  }

  /** Every part of a report that is kept by id covers exactly the nodes, and ready are those that no other node holds up. */
  lemma ReportCovers(items: seq<ItemInfo>, a: Analysis, x: Id)
    requires Describes(items, a)
    ensures x in a.depth <==> x in GraphOf(items)
    ensures x in a.downstreamCount <==> x in GraphOf(items)
    ensures x in a.ready <==> x in GraphOf(items) && !HeldUp(items, x)
    ensures x in a.blocked <==> x in GraphOf(items) && HeldUp(items, x)
  {
    if x in GraphOf(items) {
      RootsAre(items, x);
    }
  }

  // ------------------------------------------------------------ what is urgent

  /** `text` is `word`, but for upper-case letters. */
  predicate ReadsAs(text: string, word: string) {
    && |text| == |word|
    && forall k :: 0 <= k < |text| ==>
         text[k] == word[k] || ('A' <= text[k] <= 'Z' && text[k] as int + 32 == word[k] as int)
  }

  /** For words without capital letters. */
  predicate IsLower(word: string) {
    forall k :: 0 <= k < |word| ==> !('A' <= word[k] <= 'Z')
  }

  lemma LowerIs(text: string, word: string)
    requires IsLower(word)
    ensures Lower(text) == word <==> ReadsAs(text, word)
  {
    if Lower(text) == word {
      forall k | 0 <= k < |text|
        ensures text[k] == word[k] || ('A' <= text[k] <= 'Z' && text[k] as int + 32 == word[k] as int)
      {
        assert Lower(text)[k] == LowerChar(text[k]);
      }
    }
    if ReadsAs(text, word) {
      forall k | 0 <= k < |text|
        ensures Lower(text)[k] == word[k]
      {
      }
    }
  }

  /** Four priorities are known, in this order; any other text, an absent priority included, comes after them. */
  lemma PriorityOrder(p: string)
    ensures PriorityRank(p) == 0 <==> ReadsAs(p, "critical")
    ensures PriorityRank(p) == 1 <==> ReadsAs(p, "high")
    ensures PriorityRank(p) == 2 <==> ReadsAs(p, "medium")
    ensures PriorityRank(p) == 3 <==> ReadsAs(p, "low")
    ensures PriorityRank(p) >= 0 && (PriorityRank(p) > 3 ==> PriorityRank(p) == PriorityRank("-"))
  {
    LowerIs(p, "critical");
    LowerIs(p, "high");
    LowerIs(p, "medium");
    LowerIs(p, "low");
    assert Lower("-") == "-";
  }

  /** Items with a rank come first, smaller ranks before greater ones; those of equal rank go by priority. */
  ghost predicate InOrder(x: ItemInfo, y: ItemInfo) {
    match (x.rank, y.rank)
    case (Some(r), Some(q)) => r < q || (r == q && PriorityRank(x.priority) <= PriorityRank(y.priority))
    case (Some(_), None) => true
    case (None, Some(_)) => false
    case (None, None) => PriorityRank(x.priority) <= PriorityRank(y.priority)
  }

  lemma KeysInOrder(x: ItemInfo, y: ItemInfo)
    ensures KeyLe(SortKey(x), SortKey(y)) <==> InOrder(x, y)
  {
  }

  /** The ready list is in this order. */
  lemma ReadyInOrder(items: seq<ItemInfo>, a: Analysis, i: nat, j: nat, x: ItemInfo, y: ItemInfo)
    requires UniqueIds(items) && Describes(items, a) && i < j < |a.ready|
    requires x in items && x.id == a.ready[i] && y in items && y.id == a.ready[j]
    ensures InOrder(x, y)
  {
    ItemMapUnique(items, x);
    ItemMapUnique(items, y);
    assert ByRank(items)(a.ready[i], a.ready[j]);
    KeysInOrder(x, y);
  }
}
