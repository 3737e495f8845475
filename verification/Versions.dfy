/**
 How many versions a grant has: one for each lineage row, one for each allocation and one for each voided
 hold that had not consumed all it had set aside, in every reachable state.
 */
module Versions {
  import opened Sums
  import opened Tables
  import opened Engine
  import opened Invariant
  import opened Preservation

  function RowOf(db: Db, g: nat): nat -> int {
    (i: nat) => if i < |db.lineage| && db.lineage[i].grant == g then 1 else 0
  }

  function LotOf(db: Db, g: nat): nat -> int {
    (i: nat) => if i < |db.allocations| && db.allocations[i].grant == g then 1 else 0
  }

  /** Voiding h gave something back to grant g. */
  function GivenBack(db: Db, g: nat): nat -> int {
    (h: nat) =>
      if h < |db.holds| && db.holds[h].state == Voided && ConsumedThrough(db, g, h) < AllocatedTo(db, g, h) then 1
      else 0
  }

  function Events(db: Db, g: nat): int {
    SumTo(|db.lineage|, RowOf(db, g)) + SumTo(|db.allocations|, LotOf(db, g)) + SumTo(|db.holds|, GivenBack(db, g))
  }

  ghost predicate OnePerEvent(db: Db) {
    forall g: nat :: g < |db.chains| ==> |db.chains[g]| == Events(db, g)
  }

  // ----- lineage

  /** A row is one event more, unless it captures a voided hold. */
  lemma LineageEvent(db: Db, db': Db, row: Lineage, g: nat)
    requires AddsLineage(db, db', row)
    requires IsCapture(db, row) ==>
               var h := HoldOf(db, row.entry).value; h < |db.holds| && db.holds[h].state != Voided
    ensures Events(db', g) == Events(db, g) + if g == row.grant then 1 else 0
  {
    LineageAddedSums(db, db', row, g);
    SumSame(|db.lineage|, RowOf(db', g), RowOf(db, g));
    SumSame(|db.allocations|, LotOf(db', g), LotOf(db, g));
    SumSame(|db.holds|, GivenBack(db', g), GivenBack(db, g));
  }

  lemma LineageCounts(db: Db, now: int, row: Lineage)
    requires Inv(db) && LineageValid(db, now, row) && OnePerEvent(db)
    ensures OnePerEvent(DoInsertLineage(db, now, row).db)
  {
    LineageFits(db, now, row);
    var db' := DoInsertLineage(db, now, row).db;
    if IsCapture(db, row) {
      CaptureFits(db, now, row);
    }
    forall g: nat | g < |db'.chains| ensures |db'.chains[g]| == Events(db', g) {
      LineageEvent(db, db', row, g);
    }
  }

  // ----- allocations

  /** An allocation is one event more, unless it is for a voided hold. */
  lemma AllocationEvent(db: Db, db': Db, row: Allocation, g: nat)
    requires db' == db.(allocations := db.allocations + [row], chains := db'.chains)
    requires match HoldOfHoldEntry(db, row.holdEntry)
             case None => true
             case Some(h) => h < |db.holds| && db.holds[h].state != Voided
    ensures Events(db', g) == Events(db, g) + if g == row.grant then 1 else 0
  {
    AllocationAddedSums(db, db', row, g);
    SumSame(|db.lineage|, RowOf(db', g), RowOf(db, g));
    SumSame(|db.allocations|, LotOf(db', g), LotOf(db, g));
    SumSame(|db.holds|, GivenBack(db', g), GivenBack(db, g));
  }

  lemma AllocationCounts(db: Db, now: int, row: Allocation)
    requires Inv(db) && AllocationValid(db, now, row) && OnePerEvent(db)
    ensures OnePerEvent(DoInsertAllocation(db, now, row).db)
  {
    AllocationFits(db, now, row);
    var db' := DoInsertAllocation(db, now, row).db;
    forall g: nat | g < |db'.chains| ensures |db'.chains[g]| == Events(db', g) {
      AllocationEvent(db, db', row, g);
    }
  }

  // ----- hold updates

  lemma UpdateEvent(db: Db, h: nat, row: Hold, g: nat)
    requires Inv(db) && UpdateValid(db, h, row)
    ensures Events(DoUpdateHold(db, h, row).db, g) ==
            Events(db, g) + if row.state == Voided && ConsumedThrough(db, g, h) < AllocatedTo(db, g, h) then 1 else 0
  {
    UpdateFits(db, h, row);
    var db' := DoUpdateHold(db, h, row).db;
    HoldUpdateSums(db, db', g);
    SumSame(|db.lineage|, RowOf(db', g), RowOf(db, g));
    SumSame(|db.allocations|, LotOf(db', g), LotOf(db, g));
    SumMoved(|db.holds|, GivenBack(db, g), GivenBack(db', g), h,
             if row.state == Voided && ConsumedThrough(db, g, h) < AllocatedTo(db, g, h) then 1 else 0);
  }

  lemma UpdateCounts(db: Db, h: nat, row: Hold)
    requires Inv(db) && UpdateValid(db, h, row) && OnePerEvent(db)
    ensures OnePerEvent(DoUpdateHold(db, h, row).db)
  {
    UpdateFits(db, h, row);
    var db' := DoUpdateHold(db, h, row).db;
    forall g: nat | g < |db'.chains| ensures |db'.chains[g]| == Events(db', g) {
      UpdateEvent(db, h, row, g);
      if !Backs(db, g, h) {
        UnbackedNothing(db, g, h);
      }
    }
  }

  // ----- every statement

  lemma FramedEvents(db: Db, db': Db, g: nat)
    requires Refs(db) && Links(db) && Frames(db, db')
    requires forall h: nat :: |db.holds| <= h < |db'.holds| ==> db'.holds[h].state == Held
    ensures Events(db', g) == Events(db, g)
  {
    FramedSums(db, db', g);
    SumSame(|db.lineage|, RowOf(db', g), RowOf(db, g));
    SumSame(|db.allocations|, LotOf(db', g), LotOf(db, g));
    SumPadded(|db.holds|, |db'.holds|, GivenBack(db, g), GivenBack(db', g));
  }

  lemma NoEvents(db: Db, g: nat)
    requires Links(db) && g >= |db.grants|
    ensures Events(db, g) == 0
  {
    SumsNonNegative(db, g);
    forall i: nat | i < |db.lineage| ensures RowOf(db, g)(i) == 0 {
      assert Linked(db, db.lineage[i]);
    }
    forall i: nat | i < |db.allocations| ensures LotOf(db, g)(i) == 0 {
      assert AllocationLinked(db, db.allocations[i]);
    }
    SumZero(|db.lineage|, RowOf(db, g));
    SumZero(|db.allocations|, LotOf(db, g));
    SumZero(|db.holds|, GivenBack(db, g));
  }

  lemma InsertCounts(db: Db, now: int, op: Op)
    requires Inv(db) && RowOp(op) && !op.InsertLineage? && !op.InsertAllocation? && !op.UpdateHold? && OnePerEvent(db)
    ensures OnePerEvent(Statement(db, now, op).db)
  {
    InsertFrames(db, now, op);
    var db' := Statement(db, now, op).db;
    forall g: nat | g < |db'.chains| ensures |db'.chains[g]| == Events(db', g) {
      FramedEvents(db, db', g);
      if g >= |db.chains| {
        NoEvents(db, g);
      }
    }
  }

  lemma LineageIsSame(db: Db, now: int, row: Lineage)
    ensures Statement(db, now, InsertLineage(row)).db == DoInsertLineage(db, now, row).db
    ensures !LineageValid(db, now, row) ==> DoInsertLineage(db, now, row).db == db
  {
  }

  lemma LineageCounted(db: Db, now: int, row: Lineage)
    requires Inv(db) && OnePerEvent(db)
    ensures OnePerEvent(Statement(db, now, InsertLineage(row)).db)
  {
    LineageIsSame(db, now, row);
    if LineageValid(db, now, row) {
      LineageCounts(db, now, row);
    }
  }

  lemma AllocationIsSame(db: Db, now: int, row: Allocation)
    ensures Statement(db, now, InsertAllocation(row)).db == DoInsertAllocation(db, now, row).db
    ensures !AllocationValid(db, now, row) ==> DoInsertAllocation(db, now, row).db == db
  {
  }

  lemma AllocationCounted(db: Db, now: int, row: Allocation)
    requires Inv(db) && OnePerEvent(db)
    ensures OnePerEvent(Statement(db, now, InsertAllocation(row)).db)
  {
    AllocationIsSame(db, now, row);
    if AllocationValid(db, now, row) {
      AllocationCounts(db, now, row);
    }
  }

  lemma UpdateIsSame(db: Db, now: int, h: nat, row: Hold)
    ensures Statement(db, now, UpdateHold(h, row)).db == DoUpdateHold(db, h, row).db
    ensures !UpdateValid(db, h, row) ==> DoUpdateHold(db, h, row).db == db
  {
  }

  lemma UpdateCounted(db: Db, now: int, h: nat, row: Hold)
    requires Inv(db) && OnePerEvent(db)
    ensures OnePerEvent(Statement(db, now, UpdateHold(h, row)).db)
  {
    UpdateIsSame(db, now, h, row);
    if UpdateValid(db, h, row) {
      UpdateCounts(db, h, row);
    }
  }

  lemma StatementCounts(db: Db, now: int, op: Op)
    requires Inv(db) && RowOp(op) && OnePerEvent(db)
    ensures OnePerEvent(Statement(db, now, op).db)
  {
    if op.InsertLineage? {
      LineageCounted(db, now, op.lineage);
    } else if op.InsertAllocation? {
      AllocationCounted(db, now, op.allocation);
    } else if op.UpdateHold? {
      UpdateCounted(db, now, op.id, op.row);
    } else {
      InsertCounts(db, now, op);
    }
  }

  /** Over every run: a grant has exactly one version for each event, committed or not. */
  lemma {:induction false} OneVersionPerEvent(now: int, ops: seq<Op>)
    ensures OnePerEvent(Run(Begin(EMPTY, now), ops).base) && OnePerEvent(Run(Begin(EMPTY, now), ops).cur)
    decreases |ops|
  {
    if ops != [] {
      var s, op := Run(Begin(EMPTY, now), ops[..|ops| - 1]), ops[|ops| - 1];
      OneVersionPerEvent(now, ops[..|ops| - 1]);
      RunKeepsInv(now, ops[..|ops| - 1]);
      if RowOp(op) {
        StatementCounts(s.cur, s.now, op);
      }
    }
  }
}
