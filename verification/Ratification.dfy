/** Ratification of a phase: what one call leaves behind. */
module Ratification {
  import opened Board
  import opened Columns
  import opened Effects
  import opened Seqs
  import opened Wrappers

  /** The tags that survive: all others that are not blank, in order. */
  function KeptTags(tags: seq<string>): seq<string> {
    Stored(Filter(tags, x => x != PENDING))
  }

  const RATIFY_COLUMNS: set<nat> := STATUS_COLUMNS + {TAGS}

  predicate Waiting(id: Id, r: Row) {
    IsVoyageId(id) && StatusOf(r) != "in_progress"
  }

  /** The row of an item that awaited ratification with these tags, before and after. */
  ghost predicate Ratified(id: Id, tags: seq<string>, r: Row, r': Row) {
    && ListOf(r', TAGS) == KeptTags(tags)
    && StatusOf(r') == (if IsVoyageId(id) then "in_progress" else StatusOf(r))
    && (Waiting(id, r) ==> SameBut(r, r', RATIFY_COLUMNS) && r'[RESOLUTION] == Text(None) && r'[CLOSED_BY] == Text(None))
    && (!Waiting(id, r) ==> SameBut(r, r', {TAGS, UPDATED_AT}))
  }

  lemma StripTouches(s: State, clock: Clock, t: Target)
    requires Has(s, t.id)
    ensures var s' := Strip(s, clock, t);
            && Touches(s, s', t.id, {TAGS, UPDATED_AT})
            && ListOf(Get(s', t.id), TAGS) == KeptTags(t.tags)
            && Get(s', t.id)[STATUS] == Get(s, t.id)[STATUS]
            && s'.log == s.log
  {
    UpdateFieldTouches(s, clock, t.id, TAGS, List(Some(KeptTags(t.tags))));
    Unchanged(s, Strip(s, clock, t), t.id, {TAGS, UPDATED_AT}, STATUS);
  }

  lemma StartTouches(s: State, clock: Clock, id: Id)
    requires Has(s, id)
    ensures var s' := UpdateStatus(s, clock, id, "in_progress", Some("ratify"), false, Some("ratified"));
            && Touches(s, s', id, STATUS_COLUMNS)
            && StatusOf(Get(s', id)) == "in_progress"
            && Get(s', id)[RESOLUTION] == Text(None) && Get(s', id)[CLOSED_BY] == Text(None)
            && Get(s', id)[TAGS] == Get(s, id)[TAGS]
            && s'.ticks >= s.ticks + 2
            && s'.log == s.log + [Run(id, Some(StatusOf(Get(s, id))), "in_progress", clock(s.ticks + 1), Some("ratify"),
                                      false, Some("ratified"))]
  {
    UpdateStatusTouches(s, clock, id, "in_progress", Some("ratify"), false, Some("ratified"));
    Unchanged(s, UpdateStatus(s, clock, id, "in_progress", Some("ratify"), false, Some("ratified")), id, STATUS_COLUMNS, TAGS);
  }

  lemma RatifyOneTouches(s: State, clock: Clock, t: Target)
    requires Has(s, t.id)
    ensures var s' := RatifyOne(s, clock, t);
            && Touches(s, s', t.id, RATIFY_COLUMNS)
            && Ratified(t.id, t.tags, Get(s, t.id), Get(s', t.id))
  {
    var s1 := Strip(s, clock, t);
    StripTouches(s, clock, t);
    if NeedsStart(s1, t.id) {
      StartTouches(s1, clock, t.id);
      Compose(s, s1, RatifyOne(s, clock, t), t.id, {TAGS, UPDATED_AT}, STATUS_COLUMNS, RATIFY_COLUMNS);
    } else {
      TouchesMore(s, s1, t.id, {TAGS, UPDATED_AT}, RATIFY_COLUMNS);
    }
  }

  /** Every target carries the tags that its item has now. */
  ghost predicate Snapshot(s: State, targets: seq<Target>) {
    AllHave(s, targets) && forall k :: 0 <= k < |targets| ==> targets[k].tags == ListOf(Get(s, targets[k].id), TAGS)
  }

  predicate IsTarget(targets: seq<Target>, id: Id) {
    exists k :: 0 <= k < |targets| && targets[k].id == id
  }

  lemma IsTargetSnoc(targets: seq<Target>, id: Id)
    requires targets != []
    ensures IsTarget(targets, id) <==> IsTarget(targets[..|targets| - 1], id) || targets[|targets| - 1].id == id
  {
    var before := targets[..|targets| - 1];
    if IsTarget(targets, id) && targets[|targets| - 1].id != id {
      var k :| 0 <= k < |targets| && targets[k].id == id;
      assert before[k].id == id;
    }
    if IsTarget(before, id) {
      var k :| 0 <= k < |before| && before[k].id == id;
      assert targets[k].id == id;
    }
  }

  /** Ratifying an item a second time from the same snapshot changes nothing that counts. */
  lemma RatifiedTwice(id: Id, tags: seq<string>, r: Row, r1: Row, r2: Row)
    requires Ratified(id, tags, r, r1) && Ratified(id, tags, r1, r2)
    ensures Ratified(id, tags, r, r2)
  {
    assert r2[RESOLUTION] == r1[RESOLUTION] && r2[CLOSED_BY] == r1[CLOSED_BY];
    forall c | 0 <= c < WIDTH && c !in RATIFY_COLUMNS
      ensures r2[c] == r[c]
    {
      assert r1[c] == r[c];
    }
  }

  /** The targets, and only they, are ratified. */
  ghost predicate RatifiedIn(s: State, s': State, targets: seq<Target>, x: Id)
    requires Has(s, x) && Has(s', x)
  {
    if IsTarget(targets, x) then Ratified(x, ListOf(Get(s, x), TAGS), Get(s, x), Get(s', x))
    else Get(s', x) == Get(s, x)
  }

  lemma RatifyNext(s: State, s1: State, clock: Clock, targets: seq<Target>, x: Id)
    requires targets != [] && Has(s, x) && Has(s1, x) && RatifiedIn(s, s1, targets[..|targets| - 1], x)
    requires var t := targets[|targets| - 1]; Has(s1, t.id) && (t.id == x ==> t.tags == ListOf(Get(s, x), TAGS))
    ensures RatifiedIn(s, RatifyOne(s1, clock, targets[|targets| - 1]), targets, x)
  {
    var t, before := targets[|targets| - 1], targets[..|targets| - 1];
    IsTargetSnoc(targets, x);
    RatifyOneTouches(s1, clock, t);
    if t.id == x && IsTarget(before, x) {
      RatifiedTwice(x, t.tags, Get(s, x), Get(s1, x), Get(RatifyOne(s1, clock, t), x));
    }
  }

  lemma {:induction false} RatifyAllRow(s: State, clock: Clock, targets: seq<Target>, x: Id)
    requires Snapshot(s, targets) && Has(s, x)
    ensures RatifiedIn(s, RatifyAll(s, clock, targets), targets, x)
  {
    if targets != [] {
      var before := targets[..|targets| - 1];
      RatifyAllRow(s, clock, before, x);
      RatifyNext(s, RatifyAll(s, clock, before), clock, targets, x);
    }
  }

  // ------------------------------------------------------------- the targets

  predicate Pending(s: State, id: Id, phase: string)
    requires Has(s, id)
  {
    IsPending(ListOf(Get(s, id), TAGS), phase)
  }

  predicate IdIn(rows: seq<Row>, id: Id) {
    exists k :: 0 <= k < |rows| && IdOf(rows[k]) == id
  }

  lemma {:induction false} TargetsAre(s: State, phase: string, n: nat, x: Id)
    requires n <= |s.rows| && RowsFound(s, n) && Has(s, x)
    ensures IsTarget(TargetsIn(s, phase, n), x) <==> Pending(s, x, phase) && IdIn(s.rows[..n], x)
  {
    if n > 0 {
      TargetsAre(s, phase, n - 1, x);
      var targets := TargetsIn(s, phase, n);
      assert FoundAt(s, n - 1);
      assert s.rows[..n] == s.rows[..n - 1] + [s.rows[n - 1]];
      IdInSnoc(s.rows[..n - 1], s.rows[n - 1], x);
      if Pending(s, IdOf(s.rows[n - 1]), phase) {
        assert targets[..|targets| - 1] == TargetsIn(s, phase, n - 1);
        assert targets[|targets| - 1].id == IdOf(s.rows[n - 1]);
        IsTargetSnoc(targets, x);
      } else {
        assert targets == TargetsIn(s, phase, n - 1);
      }
    }
  }

  lemma IdInSnoc(rows: seq<Row>, r: Row, x: Id)
    ensures IdIn(rows + [r], x) <==> IdIn(rows, x) || IdOf(r) == x
  {
    assert (rows + [r])[|rows|] == r;
    if IdIn(rows, x) {
      var k :| 0 <= k < |rows| && IdOf(rows[k]) == x;
      assert IdOf((rows + [r])[k]) == x;
    }
  }

  lemma AllTargets(s: State, phase: string, x: Id)
    requires AllRowsFound(s) && Has(s, x)
    ensures IsTarget(TargetsIn(s, phase, |s.rows|), x) <==> Pending(s, x, phase)
  {
    TargetsAre(s, phase, |s.rows|, x);
    assert s.rows[..|s.rows|] == s.rows;
    assert IdOf(s.rows[Find(s.rows, x)]) == x;
  }

  lemma {:induction false} NoTargets(s: State, phase: string, n: nat)
    requires n <= |s.rows| && RowsFound(s, n)
    requires forall x :: Has(s, x) ==> !Pending(s, x, phase)
    ensures TargetsIn(s, phase, n) == []
  {
    if n > 0 {
      NoTargets(s, phase, n - 1);
      assert FoundAt(s, n - 1);
    }
  }

  // -------------------------------------------------------------- the theorem

  /** What ratifying a phase does to one item. */
  ghost predicate RatifiedItem(s: State, s': State, phase: string, x: Id)
    requires Has(s, x) && Has(s', x)
  {
    if Pending(s, x, phase) then Ratified(x, ListOf(Get(s, x), TAGS), Get(s, x), Get(s', x))
    else Get(s', x) == Get(s, x)
  }

  lemma RatifyRow(s: State, clock: Clock, phase: string, x: Id)
    requires AllRowsFound(s) && Has(s, x)
    ensures var s' := Ratify(s, clock, phase); RatifiedItem(s, s', phase, x) && !Pending(s', x, phase)
  {
    AllTargets(s, phase, x);
    TargetsCarryTags(s, phase, |s.rows|);
    RatifyAllRow(s, clock, TargetsIn(s, phase, |s.rows|), x);
  }

  /** After one call nothing of the phase is pending: every item that carried both tags has lost the pending tag and
      keeps its other non-blank tags, the voyages among them are in progress, and every other item is what it was. */
  lemma RatifyIsTotal(s: State, clock: Clock, phase: string)
    requires AllRowsFound(s)
    ensures var s' := Ratify(s, clock, phase);
            && AllRowsFound(s') && TargetsIn(s', phase, |s'.rows|) == []
            && (forall x :: Has(s', x) <==> Has(s, x))
            && forall x {:trigger RatifiedItem(s, s', phase, x)} :: Has(s, x) ==> RatifiedItem(s, s', phase, x)
  {
    var s' := Ratify(s, clock, phase);
    FoundAfter(s, s');
    forall x | Has(s, x)
      ensures RatifiedItem(s, s', phase, x) && !Pending(s', x, phase)
    {
      RatifyRow(s, clock, phase, x);
    }
    NoTargets(s', phase, |s'.rows|);
  }

  lemma FoundAfter(s: State, s': State)
    requires Keeps(s, s') && AllRowsFound(s)
    ensures AllRowsFound(s')
  {
    forall k | 0 <= k < |s'.rows|
      ensures FoundAt(s', k)
    {
      assert FoundAt(s, k);
    }
  }

  // --------------------------------------------------------------- the report

  lemma StartsIs(s: State, clock: Clock, before: seq<Target>, t: Target)
    requires AllHave(s, before) && Has(s, t.id)
    ensures Has(RatifyAll(s, clock, before), t.id)
    ensures Starts(s, clock, before, t) <==> Waiting(t.id, Get(RatifyAll(s, clock, before), t.id))
  {
    StripTouches(RatifyAll(s, clock, before), clock, t);
  }

  /** A target is started by its first ratification if it is a voyage that is not in progress, and never again. */
  lemma StartsOnce(s: State, clock: Clock, before: seq<Target>, t: Target)
    requires Snapshot(s, before) && Has(s, t.id)
    ensures Starts(s, clock, before, t) <==> Waiting(t.id, Get(s, t.id)) && !IsTarget(before, t.id)
  {
    StartsIs(s, clock, before, t);
    WaitingAfter(s, clock, before, t.id);
  }

  lemma WaitingAfter(s: State, clock: Clock, before: seq<Target>, x: Id)
    requires Snapshot(s, before) && Has(s, x)
    ensures Waiting(x, Get(RatifyAll(s, clock, before), x)) <==> Waiting(x, Get(s, x)) && !IsTarget(before, x)
  {
    RatifyAllRow(s, clock, before, x);
  }

  /** The voyages reported as started are those that awaited ratification and were not in progress. */
  lemma {:induction false} StartedAre(s: State, clock: Clock, targets: seq<Target>, x: Id)
    requires Snapshot(s, targets)
    ensures x in StartedBy(s, clock, targets) <==> IsTarget(targets, x) && Has(s, x) && Waiting(x, Get(s, x))
  {
    if targets != [] {
      var before, t := targets[..|targets| - 1], targets[|targets| - 1];
      IsTargetSnoc(targets, x);
      StartedAre(s, clock, before, x);
      StartsOnce(s, clock, before, t);
      StartedBySnoc(s, clock, targets);
    }
  }

  lemma {:induction false} StartedNoDup(s: State, clock: Clock, targets: seq<Target>)
    requires Snapshot(s, targets)
    ensures NoDup(StartedBy(s, clock, targets))
  {
    if targets != [] {
      var before, t := targets[..|targets| - 1], targets[|targets| - 1];
      StartedNoDup(s, clock, before);
      StartedAre(s, clock, before, t.id);
      StartsOnce(s, clock, before, t);
      StartedBySnoc(s, clock, targets);
    }
  }

  lemma StartedBySnoc(s: State, clock: Clock, targets: seq<Target>)
    requires AllHave(s, targets) && targets != []
    ensures var t, before := targets[|targets| - 1], targets[..|targets| - 1];
            StartedBy(s, clock, targets) == StartedBy(s, clock, before) + if Starts(s, clock, before, t) then [t.id] else []
  {
  }

  lemma TargetIdIs(targets: seq<Target>, x: Id)
    ensures x in TargetIds(targets) <==> IsTarget(targets, x)
  {
    if IsTarget(targets, x) {
      var k :| 0 <= k < |targets| && targets[k].id == x;
      assert TargetIds(targets)[k] == x;
    }
    if x in TargetIds(targets) {
      var k :| 0 <= k < |targets| && TargetIds(targets)[k] == x;
      assert targets[k].id == x;
    }
  }

  /** What the report says about one id. */
  lemma ReportOn(s: State, clock: Clock, phase: string, x: Id)
    requires AllRowsFound(s)
    ensures var targets := TargetsIn(s, phase, |s.rows|);
            && (x in TargetIds(targets) <==> Has(s, x) && Pending(s, x, phase))
            && (x in StartedBy(s, clock, targets) <==> Has(s, x) && Pending(s, x, phase) && Waiting(x, Get(s, x)))
  {
    var targets := TargetsIn(s, phase, |s.rows|);
    TargetsCarryTags(s, phase, |s.rows|);
    StartedAre(s, clock, targets, x);
    TargetIdIs(targets, x);
    if Has(s, x) {
      AllTargets(s, phase, x);
    }
  }

  lemma RatifyReports(s: State, clock: Clock, phase: string)
    requires AllRowsFound(s)
    ensures var targets := TargetsIn(s, phase, |s.rows|);
            && (forall x :: x in TargetIds(targets) <==> Has(s, x) && Pending(s, x, phase))
            && (forall x :: x in StartedBy(s, clock, targets) <==>
              Has(s, x) && Pending(s, x, phase) && Waiting(x, Get(s, x)))
            && NoDup(StartedBy(s, clock, targets))
  {
    var targets := TargetsIn(s, phase, |s.rows|);
    TargetsCarryTags(s, phase, |s.rows|);
    StartedNoDup(s, clock, targets);
    forall x
      ensures x in TargetIds(targets) <==> Has(s, x) && Pending(s, x, phase)
      ensures x in StartedBy(s, clock, targets) <==> Has(s, x) && Pending(s, x, phase) && Waiting(x, Get(s, x))
    {
      ReportOn(s, clock, phase, x);
    }
  }

  // --------------------------------------------------- when a call is accepted

  /** If no row is deleted, every call is accepted. */
  lemma NothingDeleted(s: State)
    requires forall k :: 0 <= k < |s.rows| ==> !IsDeleted(s.rows[k])
    ensures AllRowsFound(s)
  {
    forall k | 0 <= k < |s.rows|
      ensures FoundAt(s, k)
    {
      FindFirst(s.rows, IdOf(s.rows[k]));
      assert IsLive(s.rows[k], IdOf(s.rows[k]));
    }
  }

  /** A deleted id that has not been created again makes the call fail; nothing else does. */
  lemma TombstonesBlock(s: State)
    ensures AllRowsFound(s) <==>
            forall k :: 0 <= k < |s.rows| && IsDeleted(s.rows[k]) ==> Has(s, IdOf(s.rows[k]))
  {
    if forall k :: 0 <= k < |s.rows| && IsDeleted(s.rows[k]) ==> Has(s, IdOf(s.rows[k])) {
      forall k | 0 <= k < |s.rows|
        ensures FoundAt(s, k)
      {
        FindFirst(s.rows, IdOf(s.rows[k]));
        assert IsLive(s.rows[k], IdOf(s.rows[k])) || IsDeleted(s.rows[k]);
      }
    } else {
      var k :| 0 <= k < |s.rows| && IsDeleted(s.rows[k]) && !Has(s, IdOf(s.rows[k]));
      assert !FoundAt(s, k);
    }
  }

  /** If no two rows share an id, no item is a target twice. */
  lemma {:induction false} TargetsOnce(s: State, phase: string, n: nat)
    requires n <= |s.rows| && RowsFound(s, n)
    requires forall i, j :: 0 <= i < j < n ==> IdOf(s.rows[i]) != IdOf(s.rows[j])
    ensures NoDup(TargetIds(TargetsIn(s, phase, n)))
    ensures forall x :: x in TargetIds(TargetsIn(s, phase, n)) ==> IdIn(s.rows[..n], x)
  {
    if n > 0 {
      TargetsOnce(s, phase, n - 1);
      assert FoundAt(s, n - 1);
      var before, all := TargetIds(TargetsIn(s, phase, n - 1)), TargetIds(TargetsIn(s, phase, n));
      var id := IdOf(s.rows[n - 1]);
      assert all == before || all == before + [id];
      assert !IdIn(s.rows[..n - 1], id);
      assert s.rows[..n] == s.rows[..n - 1] + [s.rows[n - 1]];
      forall x | x in all
        ensures IdIn(s.rows[..n], x)
      {
        IdInSnoc(s.rows[..n - 1], s.rows[n - 1], x);
      }
    }
  }
}
