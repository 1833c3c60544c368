/** Allocated ids over whole runs: numbers increase across item types and are never used twice. */
module Numbering {
  import opened Board
  import opened Columns
  import opened Effects
  import opened History
  import opened IdAlloc
  import opened ItemTypes
  import opened Seqs
  import opened Wrappers

  /** Rows are never removed and never change their id. */
  ghost predicate Grows(rows: seq<Row>, rows': seq<Row>) {
    |rows| <= |rows'| && forall k {:trigger rows'[k]} :: 0 <= k < |rows| ==> IdOf(rows'[k]) == IdOf(rows[k])
  }

  lemma StepGrows(s: State, clock: Clock, op: Op)
    ensures Grows(s.rows, Step(s, clock, op).rows)
  {
    if Accepted(s, op) && IsWrite(op) {
      WriteTouches(s, clock, op);
    }
  }

  lemma {:induction false} RunGrows(s: State, clock: Clock, ops: seq<Op>, i: nat)
    requires i <= |ops|
    ensures Grows(After(s, clock, ops[..i]).rows, After(s, clock, ops).rows)
    decreases |ops|
  {
    if i == |ops| {
      assert ops[..i] == ops;
    } else {
      var before := ops[..|ops| - 1];
      assert before[..i] == ops[..i];
      RunGrows(s, clock, before, i);
      StepGrows(After(s, clock, before), clock, ops[|ops| - 1]);
    }
  }

  lemma {:induction false} MaxNumberGrows(rows: seq<Row>, rows': seq<Row>, prefixes: set<string>)
    requires Grows(rows, rows')
    ensures MaxNumber(rows, prefixes) <= MaxNumber(rows', prefixes)
    decreases |rows'|
  {
    if rows == [] {
    } else if |rows| == |rows'| {
      MaxNumberGrows(rows[..|rows| - 1], rows'[..|rows'| - 1], prefixes);
    } else {
      MaxNumberGrows(rows, rows'[..|rows'| - 1], prefixes);
    }
  }

  /** What the counter stands at before step `k` of a run. */
  ghost function NumberAt(s: State, clock: Clock, ops: seq<Op>, k: nat): nat
    requires k <= |ops|
  {
    NextNumber(After(s, clock, ops[..k]).rows)
  }

  /** The allocation happens before the 32-bit counter is exhausted. */
  ghost predicate CounterLasts(s: State, op: Op) {
    op.Create? ==> MaxNumber(s.rows, Prefixes()) < U32_MAX
  }

  ghost predicate CounterLastsAll(s: State, clock: Clock, ops: seq<Op>) {
    forall k {:trigger ops[k]} :: 0 <= k < |ops| ==> CounterLasts(After(s, clock, ops[..k]), ops[k])
  }

  lemma NewIdIsFresh(s: State, input: Input)
    requires MaxNumber(s.rows, Prefixes()) < U32_MAX
    ensures !Has(s, NewId(s, input))
  {
    var id := NewId(s, input);
    if Has(s, id) {
      AllocatedIsFresh(s.rows, input.itemType, Find(s.rows, id));
    }
  }

  /** While the counter lasts, no step collides. */
  lemma LastingNeverCollides(s: State, clock: Clock, ops: seq<Op>)
    requires CounterLastsAll(s, clock, ops)
    ensures NeverCollides(s, clock, ops)
  {
    forall k | 0 <= k < |ops|
      ensures !Collides(After(s, clock, ops[..k]), ops[k])
    {
      assert CounterLasts(After(s, clock, ops[..k]), ops[k]);
      if ops[k].Create? {
        NewIdIsFresh(After(s, clock, ops[..k]), ops[k].input);
      }
    }
  }

  /** Creating an item uses up its number. */
  lemma CreateUsesNumber(s: State, clock: Clock, op: Op)
    requires op.Create? && CounterLasts(s, op)
    ensures MaxNumber(Step(s, clock, op).rows, Prefixes()) >= NextNumber(s.rows)
  {
    var rows := Step(s, clock, op).rows;
    CounterAdvances(s.rows);
    NumberOfAllocated(op.input.itemType, NextNumber(s.rows));
    assert IdOf(rows[|rows| - 1]) == NewId(s, op.input);
  }

  /** The greatest number in use never falls during a run. */
  lemma MaxNeverFalls(s: State, clock: Clock, ops: seq<Op>, i: nat, j: nat)
    requires i <= j <= |ops|
    ensures MaxNumber(After(s, clock, ops[..i]).rows, Prefixes()) <= MaxNumber(After(s, clock, ops[..j]).rows, Prefixes())
  {
    assert ops[..j][..i] == ops[..i];
    RunGrows(s, clock, ops[..j], i);
    MaxNumberGrows(After(s, clock, ops[..i]).rows, After(s, clock, ops[..j]).rows, Prefixes());
  }

  lemma CreationRaisesMax(s: State, clock: Clock, ops: seq<Op>, i: nat)
    requires i < |ops| && ops[i].Create? && CounterLasts(After(s, clock, ops[..i]), ops[i])
    ensures MaxNumber(After(s, clock, ops[..i + 1]).rows, Prefixes()) >= NumberAt(s, clock, ops, i)
  {
    PrefixStep(ops, i);
    AfterSnoc(s, clock, ops[..i], ops[i]);
    CreateUsesNumber(After(s, clock, ops[..i]), clock, ops[i]);
  }

  /** Of two creations in a run the later one gets the greater number, whatever the item types. */
  lemma NumbersIncrease(s: State, clock: Clock, ops: seq<Op>, i: nat, j: nat)
    requires i < j < |ops| && ops[i].Create? && ops[j].Create? && CounterLastsAll(s, clock, ops)
    ensures NumberAt(s, clock, ops, i) < NumberAt(s, clock, ops, j)
  {
    assert CounterLasts(After(s, clock, ops[..i]), ops[i]) && CounterLasts(After(s, clock, ops[..j]), ops[j]);
    CreationRaisesMax(s, clock, ops, i);
    MaxNeverFalls(s, clock, ops, i + 1, j);
    CounterAdvances(After(s, clock, ops[..j]).rows);
  }

  /** An id that any row had at some point of the run, deleted since or not, is not allocated later. */
  lemma NeverReused(s: State, clock: Clock, ops: seq<Op>, i: nat, j: nat, k: nat)
    requires i <= j < |ops| && ops[j].Create? && CounterLastsAll(s, clock, ops)
    requires k < |After(s, clock, ops[..i]).rows|
    ensures IdOf(After(s, clock, ops[..i]).rows[k]) != NewId(After(s, clock, ops[..j]), ops[j].input)
  {
    var sj := After(s, clock, ops[..j]);
    assert CounterLasts(sj, ops[j]);
    assert ops[..j][..i] == ops[..i];
    RunGrows(s, clock, ops[..j], i);
    AllocatedIsFresh(sj.rows, ops[j].input.itemType, k);
  }

  lemma CreateAppends(s: State, clock: Clock, input: Input)
    ensures Step(s, clock, Create(input)).rows == s.rows + [NewRow(NewId(s, input), input, clock(s.ticks))]
  {
  }

  lemma AppendGrows(rows: seq<Row>, r: Row)
    ensures MaxNumber(rows + [r], Prefixes()) >= MaxNumber(rows, Prefixes())
  {
    MaxNumberGrows(rows, rows + [r], Prefixes());
  }

  /** Once the counter is exhausted, it stays at zero. */
  lemma ExhaustedCreate(s: State, clock: Clock, input: Input)
    requires MaxNumber(s.rows, Prefixes()) >= U32_MAX
    ensures var rows := Step(s, clock, Create(input)).rows;
            && |rows| == |s.rows| + 1 && rows[..|s.rows|] == s.rows
            && IdOf(rows[|s.rows|]) == IdText(input.itemType, 0) && !IsDeleted(rows[|s.rows|])
            && MaxNumber(rows, Prefixes()) >= U32_MAX
  {
    CreateAppends(s, clock, input);
    AppendGrows(s.rows, NewRow(NewId(s, input), input, clock(s.ticks)));
  }

  /** Once the counter is exhausted, the next two items of a type get the same id and are both live. */
  lemma ExhaustedCounterRepeats(s: State, clock: Clock, input: Input)
    requires MaxNumber(s.rows, Prefixes()) >= U32_MAX
    ensures !UniqueLive(Step(Step(s, clock, Create(input)), clock, Create(input)).rows)
  {
    var s1 := Step(s, clock, Create(input));
    ExhaustedCreate(s, clock, input);
    ExhaustedCreate(s1, clock, input);
    var rows, n := Step(s1, clock, Create(input)).rows, |s.rows|;
    assert rows[n] == rows[..n + 1][n];
    assert IdOf(rows[n]) == IdOf(rows[n + 1]) && !IsDeleted(rows[n]) && !IsDeleted(rows[n + 1]);
  }

  lemma TwoLiveRows(rows: seq<Row>, i: nat, j: nat)
    requires i < j < |rows| && IdOf(rows[i]) == IdOf(rows[j]) && !IsDeleted(rows[i]) && !IsDeleted(rows[j])
    ensures !UniqueLive(rows)
  {
  }

  lemma NewRowIsLive(id: Id, input: Input, now: int)
    ensures IsLive(NewRow(id, input, now), id)
  {
  }

  lemma CollisionRepeats(s: State, clock: Clock, input: Input)
    requires Has(s, NewId(s, input))
    ensures !UniqueLive(Step(s, clock, Create(input)).rows)
  {
    var id := NewId(s, input);
    CreateAppends(s, clock, input);
    NewRowIsLive(id, input, clock(s.ticks));
    TwoLiveRows(s.rows + [NewRow(id, input, clock(s.ticks))], Find(s.rows, id), |s.rows|);
  }

  /** A step leaves two live rows with one id exactly if it creates an item under the id of a live one. */
  lemma UniqueExactlyUnlessCollision(s: State, clock: Clock, op: Op)
    requires UniqueLive(s.rows)
    ensures UniqueLive(Step(s, clock, op).rows) <==> !Collides(s, op)
  {
    if Collides(s, op) {
      CollisionRepeats(s, clock, op.input);
    } else {
      StepKeepsUnique(s, clock, op);
    }
  }

  ghost predicate UniqueAt(s: State, clock: Clock, ops: seq<Op>, k: nat)
    requires k <= |ops|
  {
    UniqueLive(After(s, clock, ops[..k]).rows)
  }

  lemma UniqueNext(s: State, clock: Clock, ops: seq<Op>, k: nat)
    requires k < |ops| && UniqueAt(s, clock, ops, k)
    ensures UniqueAt(s, clock, ops, k + 1) <==> !Collides(After(s, clock, ops[..k]), ops[k])
  {
    PrefixStep(ops, k);
    AfterSnoc(s, clock, ops[..k], ops[k]);
    UniqueExactlyUnlessCollision(After(s, clock, ops[..k]), clock, ops[k]);
  }

  lemma {:induction false} UniqueUpTo(s: State, clock: Clock, ops: seq<Op>, n: nat)
    requires UniqueLive(s.rows) && NeverCollides(s, clock, ops) && n <= |ops|
    ensures UniqueAt(s, clock, ops, n)
  {
    if n > 0 {
      UniqueUpTo(s, clock, ops, n - 1);
      assert !Collides(After(s, clock, ops[..n - 1]), ops[n - 1]);
      UniqueNext(s, clock, ops, n - 1);
    }
  }

  /** Throughout a run at most one row per id is live exactly if no step of the run collides. */
  lemma RunsAreUniqueUnlessCollision(s: State, clock: Clock, ops: seq<Op>)
    requires UniqueLive(s.rows)
    ensures (forall k :: 0 <= k <= |ops| ==> UniqueAt(s, clock, ops, k)) <==> NeverCollides(s, clock, ops)
  {
    if NeverCollides(s, clock, ops) {
      forall k | 0 <= k <= |ops|
        ensures UniqueAt(s, clock, ops, k)
      {
        UniqueUpTo(s, clock, ops, k);
      }
    }
    if forall k :: 0 <= k <= |ops| ==> UniqueAt(s, clock, ops, k) {
      forall k | 0 <= k < |ops|
        ensures !Collides(After(s, clock, ops[..k]), ops[k])
      {
        assert UniqueAt(s, clock, ops, k + 1);
        UniqueNext(s, clock, ops, k);
      }
    }
  }

  /** That takes an exhausted counter, and the new id is then the one with the number zero. */
  lemma CollisionMeansExhausted(s: State, input: Input)
    requires Has(s, NewId(s, input))
    ensures MaxNumber(s.rows, Prefixes()) >= U32_MAX && NewId(s, input) == IdText(input.itemType, 0)
  {
    if MaxNumber(s.rows, Prefixes()) < U32_MAX {
      NewIdIsFresh(s, input);
    }
  }

  /** A run that exhausts the counter: one item is created under the greatest id. */
  lemma ExhaustedIsReachable(clock: Clock, input: Input)
    ensures var s := After(EMPTY, clock, [CreateWithId(IdText(Expedition, U32_MAX), input)]);
            UniqueLive(s.rows) && MaxNumber(s.rows, Prefixes()) >= U32_MAX
  {
    var id := IdText(Expedition, U32_MAX);
    var op := CreateWithId(id, input);
    assert [op][..0] == [];
    var row := NewRow(id, input, clock(0));
    assert Step(EMPTY, clock, op).rows == [] + [row];
    NumberOfAllocated(Expedition, U32_MAX);
    assert ([] + [row])[..0] == [];
    assert IdOf(row) == id;
  }
}
