/** The ids that the materialize command collects: a depth-limited walk over related items and dependencies. */
module Materialize {
  import opened Board
  import opened Columns
  import opened Exploration
  import opened Seqs
  import opened Wrappers
  import Store = KanbanStore

  datatype Scope = All | Work | Research

  function ScopeOf(scope: string): Scope {
    if scope == "work" then Work else if scope == "research" then Research else All
  }

  predicate IsDevType(t: string) {
    t in ["expedition", "chore", "voyage", "hazard", "signal", "feature"]
  }

  predicate IsResearchType(t: string) {
    t in ["paper", "hypothesis", "experiment", "measure", "literature", "idea"]
  }

  predicate InScope(scope: Scope, itemType: string) {
    match scope
    case All => true
    case Work => IsDevType(itemType)
    case Research => IsResearchType(itemType)
  }

  /** The items that an item leads to; an unknown id, or one out of scope, leads nowhere. */
  function Next(s: State, scope: Scope, id: Id): seq<Id> {
    if !Has(s, id) then [] else
      var r := Get(s, id);
      if InScope(scope, r[ITEM_TYPE].text.value) then ListOf(r, RELATED) + ListOf(r, DEPENDS_ON) else []
  }

  function NextIn(s: State, scope: Scope): Id -> seq<Id> {
    id => Next(s, scope, id)
  }

  /** All ids in the relation lists of the board. */
  function Listed(rows: seq<Row>): set<Id> {
    if rows == [] then {} else
      var r := rows[|rows| - 1];
      Listed(rows[..|rows| - 1]) + (set x | x in ListOf(r, RELATED)) + set x | x in ListOf(r, DEPENDS_ON)
  }

  /** The root and all ids that the board mentions in its lists. */
  function Known(s: State, root: Id): set<Id> {
    Listed(s.rows) + {root}
  }

  lemma {:induction false} ListedHas(rows: seq<Row>, k: nat, x: Id)
    requires k < |rows| && (x in ListOf(rows[k], RELATED) || x in ListOf(rows[k], DEPENDS_ON))
    ensures x in Listed(rows)
  {
    if k < |rows| - 1 {
      ListedHas(rows[..|rows| - 1], k, x);
    }
  }

  lemma KnownIsClosed(s: State, scope: Scope, root: Id)
    ensures ClosedUnder(NextIn(s, scope), Known(s, root))
  {
    forall x, y | x in Known(s, root) && y in NextIn(s, scope)(x)
      ensures y in Known(s, root)
    {
      ListedHas(s.rows, Find(s.rows, x), y);
    }
  }

  /** The collected ids, in the order in which they are visited. */
  ghost function Collected(s: State, scope: Scope, root: Id, depth: nat): seq<Id> {
    KnownIsClosed(s, scope, root);
    From(NextIn(s, scope), Known(s, root), root, depth)
  }

  lemma {:induction false} PushedConcat(a: seq<Id>, b: seq<Id>, left: nat, order: seq<Id>)
    ensures Pushed(a + b, left, order) == Pushed(a, left, order) + Pushed(b, left, order)
  {
    if b == [] {
      assert a + b == a;
    } else {
      assert (a + b)[..|a + b| - 1] == a + b[..|b| - 1];
      PushedConcat(a, b[..|b| - 1], left, order);
    }
  }

  method PushAll(stack0: seq<Entry<Id>>, ids: seq<Id>, left: nat, visited: set<Id>, ghost order: seq<Id>)
    returns (stack: seq<Entry<Id>>)
    requires visited == Elements(order)
    ensures stack == stack0 + Pushed(ids, left, order)
  {
    stack := stack0;
    for i := 0 to |ids|
      invariant stack == stack0 + Pushed(ids[..i], left, order)
    {
      assert ids[..i + 1][..i] == ids[..i];
      if ids[i] !in visited {
        stack := stack + [Entry(ids[i], left)];
      }
    }
    assert ids[..|ids|] == ids;
  }

  /** Both relation lists of an item, unless it is unknown or out of scope. */
  method Relations(store: Store.KanbanStore, scope: Scope, id: Id) returns (lists: Option<(seq<Id>, seq<Id>)>)
    requires store.Valid()
    ensures Next(store.View(), scope, id) == match lists case Some(l) => l.0 + l.1 case None => []
  {
    var item := store.GetItem(id);
    if item.Err? {
      return None;
    }
    var row := item.value;
    if !InScope(scope, row[ITEM_TYPE].text.value) {
      return None;
    }
    return Some((ListOf(row, RELATED), ListOf(row, DEPENDS_ON)));
  }

  /** Pushes what a newly visited item leads to. */
  method Expand(store: Store.KanbanStore, scope: Scope, rest: seq<Entry<Id>>, top: Entry<Id>, visited: set<Id>,
                ghost order: seq<Id>, ghost next: Id -> seq<Id>) returns (stack: seq<Entry<Id>>)
    requires store.Valid() && visited == Elements(order) && next(top.node) == Next(store.View(), scope, top.node)
    ensures stack == Grown(next, rest, top, order)
  {
    stack := rest;
    if top.left > 0 {
      var lists := Relations(store, scope, top.node);
      match lists {
        case None =>
        case Some((related, dependsOn)) =>
          PushedConcat(related, dependsOn, top.left - 1, order);
          stack := PushAll(stack, related, top.left - 1, visited, order);
          stack := PushAll(stack, dependsOn, top.left - 1, visited, order);
      }
    }
  }

  /** The stack loop. */
  method Walk(store: Store.KanbanStore, scope: Scope, root: Id, depth: nat, ghost next: Id -> seq<Id>,
              ghost all: set<Id>)
    returns (allIds: seq<Id>)
    requires store.Valid() && next == NextIn(store.View(), scope) && ClosedUnder(next, all) && root in all
    ensures allIds == From(next, all, root, depth)
  {
    var stack, visited := [Entry(root, depth)], {};
    allIds := [];
    ghost var result := From(next, all, root, depth);
    while stack != []
      invariant visited == Elements(allIds) && Leads(next, all, stack, allIds, result)
      decreases |all - Elements(allIds)|, |stack|
    {
      var top, rest := stack[|stack| - 1], stack[..|stack| - 1];
      LeadsOn(next, all, stack, allIds, result);
      stack := rest;
      if top.node !in visited {
        ElementsSnoc(allIds, top.node);
        visited := visited + {top.node};
        allIds := allIds + [top.node];
        stack := Expand(store, scope, rest, top, visited, allIds, next);
      }
    }
  }

  method Collect(store: Store.KanbanStore, itemId: Id, scope: string, depth: nat) returns (reply: Store.Reply<seq<Id>>)
    requires store.Valid()
    ensures reply == if Has(store.View(), itemId) then Ok(Collected(store.View(), ScopeOf(scope), itemId, depth))
                     else Err(NotFound(itemId))
  {
    var root := store.GetItem(itemId);
    if root.Err? {
      return Err(root.error);
    }
    ghost var next, all := NextIn(store.View(), ScopeOf(scope)), Known(store.View(), itemId);
    KnownIsClosed(store.View(), ScopeOf(scope), itemId);
    var allIds := Walk(store, ScopeOf(scope), itemId, depth, next, all);
    return Ok(allIds);
  }

  // --------------------------------------------------------------- guarantees

  /** No id twice, the root among them, and none further than `depth` hops away. */
  lemma CollectedIsSound(s: State, scope: Scope, root: Id, depth: nat)
    ensures var ids, next := Collected(s, scope, root, depth), NextIn(s, scope);
            NoDup(ids) && root in ids && forall x :: x in ids ==> Within(next, root, x, depth)
  {
    KnownIsClosed(s, scope, root);
    FromIsSound(NextIn(s, scope), Known(s, root), root, depth);
  }

  /** With a depth of at least the number of distinct ids less one, exactly what can be reached. */
  lemma CollectedReachesAll(s: State, scope: Scope, root: Id, depth: nat)
    requires depth + 1 >= |Known(s, root)|
    ensures forall x :: x in Collected(s, scope, root, depth) <==> Reaches(NextIn(s, scope), root, x)
  {
    KnownIsClosed(s, scope, root);
    FromReachesAll(NextIn(s, scope), Known(s, root), root, depth);
  }

  /** A depth of zero or one collects exactly what is that near. */
  lemma ShallowCollect(s: State, scope: Scope, root: Id, depth: nat)
    requires depth <= 1
    ensures forall x :: x in Collected(s, scope, root, depth) <==> Within(NextIn(s, scope), root, x, depth)
  {
    KnownIsClosed(s, scope, root);
    ShallowIsExact(NextIn(s, scope), Known(s, root), root, depth);
  }
}
