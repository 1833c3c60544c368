/** Boards on which the materialize walk misses an item within the depth. */
module MaterializeExample {
  import opened Board
  import opened Columns
  import opened Exploration
  import opened History
  import opened IdAlloc
  import opened ItemTypes
  import opened Materialize
  import opened Seqs
  import opened Wrappers

  /** The ids of a detour: two more than the depth, all different. */
  ghost predicate AreIds(ids: seq<Id>, d: nat) {
    d >= 2 && |ids| == d + 2 && NoDup(ids)
  }

  /** Item 0 is related to items `d` and 1, items 1 to `d` each to the next one. */
  function RelatedOf(ids: seq<Id>, d: nat, k: nat): seq<Id>
    requires |ids| == d + 2 && d >= 2 && k < |ids|
  {
    if k == 0 then [ids[d], ids[1]] else if k <= d then [ids[k + 1]] else []
  }

  function InputNo(t: ItemType, ids: seq<Id>, d: nat, k: nat): Input
    requires |ids| == d + 2 && d >= 2 && k < |ids|
  {
    Input("item", t, None, None, [], RelatedOf(ids, d, k), [], None, None)
  }

  /** What the walk reads of an item. */
  predicate Leads(t: ItemType, r: Row, related: seq<Id>) {
    ListOf(r, RELATED) == related && ListOf(r, DEPENDS_ON) == [] && r[ITEM_TYPE].text == Some(TypeName(t))
  }

  /** Item `k` is on a board of the first `n` items if and only if it is one of them. */
  ghost predicate HoldsItem(t: ItemType, s: State, ids: seq<Id>, d: nat, n: nat, k: nat)
    requires AreIds(ids, d) && k < |ids|
  {
    (Has(s, ids[k]) <==> k < n) && (k < n ==> Leads(t, Get(s, ids[k]), RelatedOf(ids, d, k)))
  }

  /** The board holds the first `n` items, and mentions no ids but these. */
  ghost predicate Holds(t: ItemType, s: State, ids: seq<Id>, d: nat, n: nat)
    requires AreIds(ids, d)
  {
    && Listed(s.rows) <= Elements(ids)
    && forall k {:trigger HoldsItem(t, s, ids, d, n, k)} :: 0 <= k < |ids| ==> HoldsItem(t, s, ids, d, n, k)
  }

  // -------------------------------------------------------- building the board

  lemma NewRowLeads(t: ItemType, id: Id, related: seq<Id>, now: int)
    ensures var row := NewRow(id, Input("item", t, None, None, [], related, [], None, None), now);
            Leads(t, row, related) && Elements(ListOf(row, RELATED)) + Elements(ListOf(row, DEPENDS_ON)) == Elements(related)
  {
  }

  lemma ListedSnoc(rows: seq<Row>, r: Row)
    ensures Listed(rows + [r]) == Listed(rows) + (Elements(ListOf(r, RELATED)) + Elements(ListOf(r, DEPENDS_ON)))
  {
    assert (rows + [r])[..|rows|] == rows;
  }

  lemma CreationRows(s: State, clock: Clock, id: Id, input: Input)
    requires !Has(s, id)
    ensures Step(s, clock, CreateWithId(id, input)).rows == s.rows + [NewRow(id, input, clock(s.ticks))]
  {
  }

  lemma CreationGets(s: State, clock: Clock, id: Id, input: Input, x: Id)
    requires !Has(s, id)
    ensures var s' := Step(s, clock, CreateWithId(id, input));
            && (Has(s', x) <==> x == id || Has(s, x))
            && (x != id && Has(s, x) ==> Get(s', x) == Get(s, x))
            && (x == id ==> Get(s', x) == NewRow(id, input, clock(s.ticks)))
  {
    AddItemGets(s, clock, id, input, x);
  }

  lemma CreationHolds(t: ItemType, s: State, clock: Clock, ids: seq<Id>, d: nat, n: nat, k: nat)
    requires AreIds(ids, d) && n < |ids| && k < |ids| && HoldsItem(t, s, ids, d, n, n) && HoldsItem(t, s, ids, d, n, k)
    ensures HoldsItem(t, Step(s, clock, CreateWithId(ids[n], InputNo(t, ids, d, n))), ids, d, n + 1, k)
  {
    CreationGets(s, clock, ids[n], InputNo(t, ids, d, n), ids[k]);
    NewRowLeads(t, ids[n], RelatedOf(ids, d, n), clock(s.ticks));
    assert k < n ==> ids[k] != ids[n];
    assert n < k ==> ids[n] != ids[k];
  }

  lemma RelatedAreIds(ids: seq<Id>, d: nat, k: nat)
    requires AreIds(ids, d) && k < |ids|
    ensures Elements(RelatedOf(ids, d, k)) <= Elements(ids)
  {
  }

  lemma CreationLists(t: ItemType, s: State, clock: Clock, ids: seq<Id>, d: nat, n: nat)
    requires AreIds(ids, d) && n < |ids| && !Has(s, ids[n]) && Listed(s.rows) <= Elements(ids)
    ensures Listed(Step(s, clock, CreateWithId(ids[n], InputNo(t, ids, d, n))).rows) <= Elements(ids)
  {
    var row := NewRow(ids[n], InputNo(t, ids, d, n), clock(s.ticks));
    CreationRows(s, clock, ids[n], InputNo(t, ids, d, n));
    NewRowLeads(t, ids[n], RelatedOf(ids, d, n), clock(s.ticks));
    ListedSnoc(s.rows, row);
    RelatedAreIds(ids, d, n);
  }

  function Creations(t: ItemType, ids: seq<Id>, d: nat, n: nat): seq<Op>
    requires |ids| == d + 2 && d >= 2 && n <= |ids|
  {
    seq(n, k requires 0 <= k < n => CreateWithId(ids[k], InputNo(t, ids, d, k)))
  }

  lemma CreationStep(t: ItemType, s: State, clock: Clock, ids: seq<Id>, d: nat, n: nat)
    requires AreIds(ids, d) && n < |ids| && Holds(t, s, ids, d, n)
    ensures Holds(t, Step(s, clock, CreateWithId(ids[n], InputNo(t, ids, d, n))), ids, d, n + 1)
  {
    var s', m := Step(s, clock, CreateWithId(ids[n], InputNo(t, ids, d, n))), n + 1;
    assert HoldsItem(t, s, ids, d, n, n);
    CreationLists(t, s, clock, ids, d, n);
    forall k | 0 <= k < |ids|
      ensures HoldsItem(t, s', ids, d, m, k)
    {
      CreationHolds(t, s, clock, ids, d, n, k);
    }
  }

  lemma CreationsSnoc(t: ItemType, ids: seq<Id>, d: nat, n: nat)
    requires AreIds(ids, d) && n < |ids|
    ensures Creations(t, ids, d, n + 1) == Creations(t, ids, d, n) + [CreateWithId(ids[n], InputNo(t, ids, d, n))]
  {
  }

  lemma NextCreation(t: ItemType, clock: Clock, before: seq<Op>, ids: seq<Id>, d: nat, n: nat)
    requires AreIds(ids, d) && n < |ids| && Holds(t, After(EMPTY, clock, before), ids, d, n)
    ensures Holds(t, After(EMPTY, clock, before + [CreateWithId(ids[n], InputNo(t, ids, d, n))]), ids, d, n + 1)
  {
    CreationStep(t, After(EMPTY, clock, before), clock, ids, d, n);
    AfterSnoc(EMPTY, clock, before, CreateWithId(ids[n], InputNo(t, ids, d, n)));
  }

  /** The board is what creating the items one after the other, under given ids, leaves behind. */
  lemma {:induction false} BoardIsBuilt(t: ItemType, clock: Clock, ids: seq<Id>, d: nat, n: nat)
    requires AreIds(ids, d) && n <= |ids|
    ensures Holds(t, After(EMPTY, clock, Creations(t, ids, d, n)), ids, d, n)
  {
    if n == 0 {
      NothingHeld(t, ids, d);
    } else {
      BoardIsBuilt(t, clock, ids, d, n - 1);
      NextCreation(t, clock, Creations(t, ids, d, n - 1), ids, d, n - 1);
      CreationsSnoc(t, ids, d, n - 1);
    }
  }

  lemma NothingHeld(t: ItemType, ids: seq<Id>, d: nat)
    requires AreIds(ids, d)
    ensures Holds(t, EMPTY, ids, d, 0)
  {
    forall k | 0 <= k < |ids|
      ensures HoldsItem(t, EMPTY, ids, d, 0, k)
    {
    }
  }

  // ------------------------------------------------------------ what is missed

  lemma IdIsListed(t: ItemType, s: State, ids: seq<Id>, d: nat, k: nat)
    requires AreIds(ids, d) && Holds(t, s, ids, d, d + 2) && 1 <= k <= d + 1
    ensures ids[k] in Listed(s.rows)
  {
    assert HoldsItem(t, s, ids, d, d + 2, k - 1);
    assert RelatedOf(ids, d, k - 1)[if k == 1 then 1 else 0] == ids[k];
    ListedHas(s.rows, Find(s.rows, ids[k - 1]), ids[k]);
  }

  /** The board mentions the ids of its items, and no others. */
  lemma BoardKnows(t: ItemType, s: State, ids: seq<Id>, d: nat)
    requires AreIds(ids, d) && Holds(t, s, ids, d, d + 2)
    ensures Known(s, ids[0]) == Elements(ids)
  {
    forall x | x in ids
      ensures x in Known(s, ids[0])
    {
      var k :| 0 <= k < |ids| && ids[k] == x;
      if k > 0 {
        IdIsListed(t, s, ids, d, k);
      }
    }
  }

  lemma ItemLeadsTo(t: ItemType, s: State, ids: seq<Id>, d: nat, scope: Scope, k: nat)
    requires AreIds(ids, d) && Holds(t, s, ids, d, d + 2) && InScope(scope, TypeName(t)) && k < d + 2
    ensures NextIn(s, scope)(ids[k]) == RelatedOf(ids, d, k)
  {
    assert HoldsItem(t, s, ids, d, d + 2, k);
  }

  lemma BoardIsDetour(t: ItemType, s: State, ids: seq<Id>, d: nat, scope: Scope)
    requires AreIds(ids, d) && Holds(t, s, ids, d, d + 2) && InScope(scope, TypeName(t))
    ensures IsDetour(NextIn(s, scope), ids, d)
  {
    var next := NextIn(s, scope);
    ItemLeadsTo(t, s, ids, d, scope, 0);
    forall k | 1 <= k <= d
      ensures next(ids[k]) == [ids[k + 1]]
    {
      ItemLeadsTo(t, s, ids, d, scope, k);
    }
  }

  /** Both items are on a board of `size` ids, and the walk from `root` misses `missed`, which is within the depth. */
  ghost predicate Misses(s: State, scope: Scope, root: Id, missed: Id, depth: nat, size: nat) {
    && Has(s, root) && Has(s, missed) && |Known(s, root)| == size
    && Within(NextIn(s, scope), root, missed, depth)
    && missed !in Collected(s, scope, root, depth)
  }

  lemma BoardMisses(t: ItemType, s: State, ids: seq<Id>, depth: nat, scope: Scope)
    requires AreIds(ids, depth) && Holds(t, s, ids, depth, depth + 2) && InScope(scope, TypeName(t))
    ensures Misses(s, scope, ids[0], ids[depth + 1], depth, depth + 2)
  {
    assert HoldsItem(t, s, ids, depth, depth + 2, 0) && HoldsItem(t, s, ids, depth, depth + 2, depth + 1);
    BoardKnows(t, s, ids, depth);
    NoDupSize(ids);
    BoardIsDetour(t, s, ids, depth, scope);
    KnownIsClosed(s, scope, ids[0]);
    DetourMisses(NextIn(s, scope), Known(s, ids[0]), ids, depth);
  }

  /** For every depth of two or more, and whatever the scope and the ids: the walk over this board of two items more than
      the depth misses the last item, although it is within the depth. */
  lemma CollectMisses(t: ItemType, clock: Clock, ids: seq<Id>, depth: nat, scope: Scope)
    requires AreIds(ids, depth) && InScope(scope, TypeName(t))
    ensures var s := After(EMPTY, clock, Creations(t, ids, depth, depth + 2));
            Misses(s, scope, ids[0], ids[depth + 1], depth, depth + 2)
  {
    BoardIsBuilt(t, clock, ids, depth, depth + 2);
    BoardMisses(t, After(EMPTY, clock, Creations(t, ids, depth, depth + 2)), ids, depth, scope);
  }

  /** Expedition ids with the numbers from 0 on. */
  function FirstIds(d: nat): seq<Id> {
    seq(d + 2, k requires 0 <= k < d + 2 => IdText(Expedition, k))
  }

  lemma FirstIdsDiffer(d: nat)
    requires d >= 2
    ensures AreIds(FirstIds(d), d)
  {
    forall i, j | 0 <= i < j < d + 2
      ensures FirstIds(d)[i] != FirstIds(d)[j]
    {
      NumbersDiffer(i, j);
    }
  }

  /** So for every depth of two or more and every scope there is a run from the empty store after which the walk misses an
      item within the depth. */
  lemma SomeBoardMisses(clock: Clock, depth: nat, scope: Scope) returns (ops: seq<Op>, root: Id, missed: Id)
    requires depth >= 2
    ensures Misses(After(EMPTY, clock, ops), scope, root, missed, depth, depth + 2)
  {
    var t := if scope == Research then Hypothesis else Expedition;
    var ids := FirstIds(depth);
    FirstIdsDiffer(depth);
    CollectMisses(t, clock, ids, depth, scope);
    ops, root, missed := Creations(t, ids, depth, depth + 2), ids[0], ids[depth + 1];
  }

  lemma NumbersDiffer(i: nat, j: nat)
    requires i != j
    ensures IdText(Expedition, i) != IdText(Expedition, j)
  {
    ValueOfDecimal(i);
    ValueOfDecimal(j);
    var p := Prefix(Expedition) + "-";
    assert IdText(Expedition, i)[|p|..] == Decimal(i) && IdText(Expedition, j)[|p|..] == Decimal(j);
  }
}
