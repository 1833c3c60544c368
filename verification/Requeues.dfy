/** The requeue breaker: attempts are counted exactly, and the last one parks the item. */
module Requeues {
  import opened Board
  import opened Columns
  import opened Effects
  import opened History
  import opened Wrappers

  /** The accepted requeues of `x` in a run. */
  ghost function Count(s: State, clock: Clock, ops: seq<Op>, x: Id): nat {
    if ops == [] then 0 else
      var before, op := ops[..|ops| - 1], ops[|ops| - 1];
      Count(s, clock, before, x) + if Requeues(After(s, clock, before), op, x) then 1 else 0
  }

  /** The counter after `k` increments. */
  function Bumped(n: int, k: nat): int {
    if k == 0 then n else Increment(Bumped(n, k - 1))
  }

  /** The 32-bit signed integer that `n` wraps around to. */
  function Wrapped(n: int): int {
    (n + I32_MAX + 1) % (2 * I32_MAX + 2) - I32_MAX - 1
  }

  predicate IsI32(n: int) {
    -I32_MAX - 1 <= n <= I32_MAX
  }

  /** The wrapped value is the one in range that differs by a multiple of the modulus. */
  lemma WrappedIs(n: int, w: int, turns: int)
    requires IsI32(w) && n == w + turns * 0x1_0000_0000
    ensures Wrapped(n) == w
  {
    assert n + I32_MAX + 1 == (w + I32_MAX + 1) + turns * 0x1_0000_0000;
  }

  lemma IncrementWraps(n: int)
    ensures IsI32(Wrapped(n)) && Increment(Wrapped(n)) == Wrapped(n + 1)
  {
    var w, turns := Wrapped(n), (n + I32_MAX + 1) / 0x1_0000_0000;
    assert n == w + turns * 0x1_0000_0000;
    WrappedIs(n + 1, Increment(w), if w == I32_MAX then turns + 1 else turns);
  }

  lemma {:induction false} BumpedWraps(n: int, k: nat)
    requires IsI32(n)
    ensures Bumped(n, k) == Wrapped(n + k)
    ensures n + k <= I32_MAX ==> Bumped(n, k) == n + k
  {
    if n + k <= I32_MAX {
      WrappedIs(n + k, n + k, 0);
    }
    if k > 0 {
      BumpedWraps(n, k - 1);
      IncrementWraps(n + k - 1);
    }
  }

  ghost predicate NotRemoved(ops: seq<Op>, x: Id) {
    forall k :: 0 <= k < |ops| ==> !(ops[k].Remove? && ops[k].id == x)
  }

  predicate Requeues(s: State, op: Op, x: Id) {
    op.RequeueOf? && op.id == x && Accepted(s, op)
  }

  lemma RequeueCounts(s: State, clock: Clock, op: Op, x: Id)
    requires Requeues(s, op, x)
    ensures Has(s, x) && Has(Step(s, clock, op), x)
    ensures AttemptsOf(Get(Step(s, clock, op), x)) == Increment(AttemptsOf(Get(s, x)))
  {
    RequeueStep(s, clock, op);
    RequeueTouches(s, clock, x, op.agent, op.session, op.failure, op.cap, op.deadLetterTag);
  }

  lemma OthersDoNotCount(s: State, clock: Clock, op: Op, x: Id)
    requires Has(s, x) && !(op.Remove? && op.id == x) && !Requeues(s, op, x)
    ensures Has(Step(s, clock, op), x) && AttemptsOf(Get(Step(s, clock, op), x)) == AttemptsOf(Get(s, x))
  {
    if Accepted(s, op) {
      OnlyRequeuesWriteCount(op, x);
      StepFrame(s, clock, op, x, ATTEMPT_COUNT);
    }
  }

  lemma OnlyRequeuesWriteCount(op: Op, x: Id)
    requires !(op.RequeueOf? && op.id == x) && (op.Edit? ==> Editable(op.col))
    requires op.EditList? || op.AddEntry? || op.RemoveEntry? ==> IsListColumn(op.col)
    ensures !Writes(op, x, ATTEMPT_COUNT)
  {
  }

  /** Over every run that does not delete the item, its counter grows by the number of its successful requeues. */
  lemma {:induction false} AttemptsAreCounted(s: State, clock: Clock, ops: seq<Op>, x: Id)
    requires Has(s, x) && NotRemoved(ops, x)
    ensures Has(After(s, clock, ops), x)
    ensures AttemptsOf(Get(After(s, clock, ops), x)) == Bumped(AttemptsOf(Get(s, x)), Count(s, clock, ops, x))
  {
    if ops != [] {
      var before, op := ops[..|ops| - 1], ops[|ops| - 1];
      var s1, s2 := After(s, clock, before), After(s, clock, ops);
      AttemptsAreCounted(s, clock, before, x);
      if Requeues(s1, op, x) {
        RequeueCounts(s1, clock, op, x);
      } else {
        OthersDoNotCount(s1, clock, op, x);
      }
      assert s2 == Step(s1, clock, op);
      assert Count(s, clock, ops, x) == Count(s, clock, before, x) + if Requeues(s1, op, x) then 1 else 0;
    }
  }

  /** Released for another attempt, or parked in blocked under the dead-letter tag. */
  ghost predicate Requeued(r: Row, r': Row, attempts: int, cap: int, tag: string) {
    && AssigneeOf(r').None?
    && AttemptsOf(r') == attempts
    && StatusOf(r') == (if attempts < cap then "backlog" else "blocked")
    && (attempts < cap ==> ListOf(r', TAGS) == ListOf(r, TAGS))
    && (attempts >= cap ==> (tag in ListOf(r', TAGS) <==> tag in ListOf(r, TAGS) || !IsBlank(tag)))
  }

  lemma RequeuedIs(r: Row, r': Row, cap: int, tag: string)
    requires r'[ASSIGNEE] == Text(None)
    requires StatusOf(r') == if AttemptsOf(r') >= cap then "blocked" else "backlog"
    requires var tags := ListOf(r, TAGS);
             ListOf(r', TAGS) == if AttemptsOf(r') >= cap && tag !in tags then Stored(tags + [tag]) else tags
    ensures Requeued(r, r', AttemptsOf(r'), cap, tag)
  {
    StoredKeeps(ListOf(r, TAGS), tag);
  }

  lemma RequeueOutcome(s: State, clock: Clock, op: Op, x: Id)
    requires Requeues(s, op, x)
    ensures Has(s, x) && Has(Step(s, clock, op), x)
    ensures var r, r' := Get(s, x), Get(Step(s, clock, op), x);
            Requeued(r, r', AttemptsOf(r'), op.cap, op.deadLetterTag)
  {
    RequeueStep(s, clock, op);
    RequeueTouches(s, clock, x, op.agent, op.session, op.failure, op.cap, op.deadLetterTag);
    RequeuedIs(Get(s, x), Get(Step(s, clock, op), x), op.cap, op.deadLetterTag);
  }

  lemma StoredKeeps(tags: seq<string>, tag: string)
    ensures tag !in tags ==> (tag in Stored(tags + [tag]) <==> !IsBlank(tag))
  {
    assert (tags + [tag])[|tags|] == tag;
  }

  /** From the one store to the other, item `x` was requeued to its attempt number `attempts`. */
  ghost predicate RequeuedIn(s1: State, s2: State, x: Id, attempts: int, cap: int, tag: string) {
    Has(s1, x) && Has(s2, x) && Requeued(Get(s1, x), Get(s2, x), attempts, cap, tag)
  }

  lemma NextRequeue(s: State, clock: Clock, ops: seq<Op>, op: Op, x: Id)
    requires Has(s, x) && NotRemoved(ops, x) && Requeues(After(s, clock, ops), op, x)
    ensures var s1, s2, k := After(s, clock, ops), After(s, clock, ops + [op]), Count(s, clock, ops + [op], x);
            && k == Count(s, clock, ops, x) + 1
            && RequeuedIn(s1, s2, x, Bumped(AttemptsOf(Get(s, x)), k), op.cap, op.deadLetterTag)
  {
    AfterSnoc(s, clock, ops, op);
    CountSnoc(s, clock, ops, op, x);
    AttemptsAreCounted(s, clock, ops, x);
    AttemptsAreCounted(s, clock, ops + [op], x);
    RequeueOutcome(After(s, clock, ops), clock, op, x);
  }

  /** From the cap to 2^31 - 1 the breaker trips, elsewhere it does not, and what counts is the count modulo 2^32. */
  predicate Trips(k: nat, cap: int) {
    cap <= k % (2 * I32_MAX + 2) <= I32_MAX
  }

  /** Released below the cap, parked from the cap on, where the number of the attempt is counted in 32 bits. */
  ghost predicate Broken(s1: State, s2: State, x: Id, k: nat, cap: int, tag: string) {
    && RequeuedIn(s1, s2, x, Wrapped(k), cap, tag)
    && StatusOf(Get(s2, x)) == if Trips(k, cap) then "blocked" else "backlog"
  }

  lemma RequeuedMeans(s1: State, s2: State, x: Id, n: int, k: nat, cap: int, tag: string)
    requires n == 0 && cap >= 1 && RequeuedIn(s1, s2, x, Bumped(n, k), cap, tag)
    ensures Broken(s1, s2, x, k, cap, tag)
  {
    BumpedWraps(0, k);
    TripsWhen(k, cap);
  }

  /** The k-th successful requeue of an item that had no attempts releases it while the wrapped count is below the cap,
      and parks it from the cap on; in between, any operations may have happened to the item, short of deletion. */
  lemma Breaker(s: State, clock: Clock, ops: seq<Op>, op: Op, x: Id)
    requires Has(s, x) && AttemptsOf(Get(s, x)) == 0 && NotRemoved(ops, x)
    requires Requeues(After(s, clock, ops), op, x)
    ensures var s1, s2, k := After(s, clock, ops), After(s, clock, ops + [op]), Count(s, clock, ops + [op], x);
            k == Count(s, clock, ops, x) + 1 && Broken(s1, s2, x, k, op.cap, op.deadLetterTag)
  {
    var s1, s2, k := After(s, clock, ops), After(s, clock, ops + [op]), Count(s, clock, ops + [op], x);
    NextRequeue(s, clock, ops, op, x);
    RequeuedMeans(s1, s2, x, AttemptsOf(Get(s, x)), k, op.cap, op.deadLetterTag);
  }

  lemma CountSnoc(s: State, clock: Clock, ops: seq<Op>, op: Op, x: Id)
    ensures Count(s, clock, ops + [op], x) == Count(s, clock, ops, x) + if Requeues(After(s, clock, ops), op, x) then 1 else 0
  {
    assert (ops + [op])[..|ops|] == ops;
  }

  lemma TripsWhen(k: nat, cap: int)
    requires cap >= 1
    ensures Wrapped(k) >= cap <==> Trips(k, cap)
    ensures k <= I32_MAX ==> Wrapped(k) == k
  {
    var m := 2 * I32_MAX + 2;
    var q, r := k / m, k % m;
    assert k + I32_MAX + 1 == q * m + (r + I32_MAX + 1);
    if r <= I32_MAX {
      Remainder(q, r + I32_MAX + 1);
    } else {
      Remainder(q + 1, r - I32_MAX - 1);
    }
  }

  lemma Remainder(q: nat, r: nat)
    requires r < 2 * I32_MAX + 2
    ensures (q * (2 * I32_MAX + 2) + r) % (2 * I32_MAX + 2) == r
  {
  }

  /** A new item has no attempts. */
  lemma NewItemHasNoAttempts(s: State, clock: Clock, id: Id, input: Input)
    requires !Has(s, id)
    ensures var s' := AddItem(s, clock, id, input); Has(s', id) && AttemptsOf(Get(s', id)) == 0
  {
    AddItemGets(s, clock, id, input, id);
  }

  // ---------------------------------------------------------- many requeues

  /** An item is taken up, and requeued. */
  predicate IsRound(claim: Op, requeue: Op, x: Id) {
    && claim.SetStatus? && claim.id == x && claim.to == "in_progress"
    && requeue.RequeueOf? && requeue.id == x && requeue.cap >= 1
  }

  function Rounds(claim: Op, requeue: Op, n: nat): seq<Op> {
    if n == 0 then [] else Rounds(claim, requeue, n - 1) + [claim] + [requeue]
  }

  lemma {:induction false} RoundsRemoveNothing(claim: Op, requeue: Op, x: Id, n: nat)
    requires IsRound(claim, requeue, x)
    ensures NotRemoved(Rounds(claim, requeue, n), x)
  {
    if n > 0 {
      RoundsRemoveNothing(claim, requeue, x, n - 1);
    }
  }

  /** After the claim the requeue is accepted. */
  lemma ClaimThenRequeue(s: State, clock: Clock, claim: Op, requeue: Op, x: Id)
    requires Has(s, x) && IsRound(claim, requeue, x)
    ensures Requeues(Step(s, clock, claim), requeue, x)
  {
    UpdateStatusTouches(s, clock, x, claim.to, claim.agent, claim.forced, claim.reason);
  }

  lemma OneRound(s: State, clock: Clock, before: seq<Op>, claim: Op, requeue: Op, x: Id)
    requires Has(After(s, clock, before), x) && IsRound(claim, requeue, x)
    ensures Requeues(After(s, clock, before + [claim]), requeue, x)
    ensures Count(s, clock, before + [claim] + [requeue], x) == Count(s, clock, before, x) + 1
  {
    CountSnoc(s, clock, before, claim, x);
    AfterSnoc(s, clock, before, claim);
    ClaimThenRequeue(After(s, clock, before), clock, claim, requeue, x);
    CountSnoc(s, clock, before + [claim], requeue, x);
  }

  lemma ItemStays(s: State, clock: Clock, ops: seq<Op>, x: Id)
    requires Has(s, x) && NotRemoved(ops, x)
    ensures Has(After(s, clock, ops), x)
  {
    AttemptsAreCounted(s, clock, ops, x);
  }

  lemma {:induction false} RoundsCount(s: State, clock: Clock, claim: Op, requeue: Op, x: Id, n: nat)
    requires Has(s, x) && IsRound(claim, requeue, x)
    ensures Count(s, clock, Rounds(claim, requeue, n), x) == n
  {
    if n > 0 {
      RoundsCount(s, clock, claim, requeue, x, n - 1);
      RoundsRemoveNothing(claim, requeue, x, n - 1);
      ItemStays(s, clock, Rounds(claim, requeue, n - 1), x);
      OneRound(s, clock, Rounds(claim, requeue, n - 1), claim, requeue, x);
    }
  }

  ghost predicate LeftIn(s: State, x: Id, status: string) {
    Has(s, x) && StatusOf(Get(s, x)) == status
  }

  lemma BrokenLeaves(s1: State, s2: State, x: Id, k: nat, cap: int, tag: string)
    requires Broken(s1, s2, x, k, cap, tag)
    ensures LeftIn(s2, x, if Trips(k, cap) then "blocked" else "backlog")
  {
  }

  /** The n-th round is the n-th successful requeue, and the status that it leaves depends on n modulo 2^32. */
  lemma RoundsTrip(s: State, clock: Clock, claim: Op, requeue: Op, x: Id, n: nat)
    requires Has(s, x) && AttemptsOf(Get(s, x)) == 0 && IsRound(claim, requeue, x) && n > 0
    ensures Count(s, clock, Rounds(claim, requeue, n), x) == n
    ensures LeftIn(After(s, clock, Rounds(claim, requeue, n)), x, if Trips(n, requeue.cap) then "blocked" else "backlog")
  {
    var before := Rounds(claim, requeue, n - 1);
    RoundsCount(s, clock, claim, requeue, x, n);
    RoundsRemoveNothing(claim, requeue, x, n - 1);
    ItemStays(s, clock, before, x);
    OneRound(s, clock, before, claim, requeue, x);
    LastRound(s, clock, before, claim, requeue, x, n);
  }

  lemma LastRound(s: State, clock: Clock, before: seq<Op>, claim: Op, requeue: Op, x: Id, n: nat)
    requires Has(s, x) && AttemptsOf(Get(s, x)) == 0 && IsRound(claim, requeue, x) && NotRemoved(before, x)
    requires Requeues(After(s, clock, before + [claim]), requeue, x)
    requires Count(s, clock, before + [claim] + [requeue], x) == n
    ensures LeftIn(After(s, clock, before + [claim] + [requeue]), x, if Trips(n, requeue.cap) then "blocked" else "backlog")
  {
    var ops := before + [claim];
    Breaker(s, clock, ops, requeue, x);
    BrokenLeaves(After(s, clock, ops), After(s, clock, ops + [requeue]), x, n, requeue.cap, requeue.deadLetterTag);
  }
}
