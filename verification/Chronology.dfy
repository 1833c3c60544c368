/** With a clock that never goes back, the runs log is in the order of time. */
module Chronology {
  import opened Audit
  import opened Board
  import opened History
  import opened Ratification
  import opened Wrappers

  ghost predicate NeverBack(clock: Clock) {
    forall i: nat, j: nat :: i <= j ==> clock(i) <= clock(j)
  }

  /** Log rows are in order, and none is later than the next reading of the clock. */
  ghost predicate InOrder(s: State, clock: Clock) {
    && (forall i, j :: 0 <= i < j < |s.log| ==> s.log[i].timestamp <= s.log[j].timestamp)
    && forall i :: 0 <= i < |s.log| ==> s.log[i].timestamp <= clock(s.ticks)
  }

  lemma SilentInOrder(s: State, s': State, clock: Clock)
    requires NeverBack(clock) && InOrder(s, clock) && s'.log == s.log && s'.ticks >= s.ticks
    ensures InOrder(s', clock)
  {
    assert clock(s.ticks) <= clock(s'.ticks);
  }

  lemma LoggedInOrder(s: State, s': State, clock: Clock, r: Run, k: nat)
    requires NeverBack(clock) && InOrder(s, clock) && s'.log == s.log + [r]
    requires s.ticks <= k <= s'.ticks && r.timestamp == clock(k)
    ensures InOrder(s', clock)
  {
    assert clock(s.ticks) <= clock(k) <= clock(s'.ticks);
  }

  lemma RatifyOneInOrder(s: State, clock: Clock, t: Target)
    requires NeverBack(clock) && InOrder(s, clock) && Has(s, t.id)
    ensures InOrder(RatifyOne(s, clock, t), clock)
  {
    var s1 := Strip(s, clock, t);
    StripTouches(s, clock, t);
    SilentInOrder(s, s1, clock);
    if NeedsStart(s1, t.id) {
      StartTouches(s1, clock, t.id);
      var s2 := RatifyOne(s, clock, t);
      LoggedInOrder(s1, s2, clock, s2.log[|s1.log|], s1.ticks + 1);
    }
  }

  lemma {:induction false} RatifyAllInOrder(s: State, clock: Clock, targets: seq<Target>)
    requires NeverBack(clock) && InOrder(s, clock) && AllHave(s, targets)
    ensures InOrder(RatifyAll(s, clock, targets), clock)
  {
    if targets != [] {
      RatifyAllInOrder(s, clock, targets[..|targets| - 1]);
      assert Has(s, targets[|targets| - 1].id);
      RatifyOneInOrder(RatifyAll(s, clock, targets[..|targets| - 1]), clock, targets[|targets| - 1]);
    }
  }

  lemma AddItemInOrder(s: State, clock: Clock, id: Id, input: Input)
    requires NeverBack(clock) && InOrder(s, clock)
    ensures InOrder(AddItem(s, clock, id, input), clock)
  {
    var s' := AddItem(s, clock, id, input);
    LoggedInOrder(s, s', clock, s'.log[|s.log|], s.ticks + 1);
  }

  lemma WriteInOrder(s: State, clock: Clock, op: Op)
    requires NeverBack(clock) && InOrder(s, clock) && IsWrite(op) && Accepted(s, op)
    ensures InOrder(Step(s, clock, op), clock)
  {
    var s' := Step(s, clock, op);
    WriteTouches(s, clock, op);
    if ChangesStatus(op) {
      ChangeIsLogged(s, clock, op);
      LoggedInOrder(s, s', clock, s'.log[|s.log|], s.ticks + 1);
    } else {
      OthersAreSilent(s, clock, op);
      SilentInOrder(s, s', clock);
    }
  }

  lemma StepInOrder(s: State, clock: Clock, op: Op)
    requires NeverBack(clock) && InOrder(s, clock)
    ensures InOrder(Step(s, clock, op), clock)
  {
    if !Accepted(s, op) {
    } else if IsWrite(op) {
      WriteInOrder(s, clock, op);
    } else {
      match op
      case Create(input) => AddItemInOrder(s, clock, NewId(s, input), input);
      case CreateWithId(id, input) => AddItemInOrder(s, clock, id, input);
      case RatifyOf(phase) => RatifyAllInOrder(s, clock, TargetsIn(s, phase, |s.rows|));
      case Remove(id) => SilentInOrder(s, Delete(s, id), clock);
    }
  }

  lemma {:induction false} LogInOrder(clock: Clock, ops: seq<Op>)
    requires NeverBack(clock)
    ensures InOrder(After(EMPTY, clock, ops), clock)
  {
    if ops != [] {
      LogInOrder(clock, ops[..|ops| - 1]);
      StepInOrder(After(EMPTY, clock, ops[..|ops| - 1]), clock, ops[|ops| - 1]);
    }
  }
}
