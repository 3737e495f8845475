/** A grant that has been reversed is closed for good: its counters stay put and nothing more is accepted on it. */
module Closing {
  import opened Tables
  import opened Engine
  import opened Invariant
  import opened Preservation
  import opened Conservation

  predicate HasReversal(db: Db, g: nat) {
    exists i: nat :: i < |db.lineage| && OfKind(g, Reversal)(db.lineage[i])
  }

  /** All that was granted is reversed, and nothing else ever happened or is set aside. */
  predicate Shut(c: Capacity) {
    && c.granted > 0 && c.reversed == c.granted
    && c.consumed == 0 && c.compensated == 0 && c.expired == 0 && c.remaining == 0 && c.reserved == 0
  }

  ghost predicate ReversedShut(db: Db) {
    forall g: nat :: HasReversal(db, g) ==> Shut(Current(db, g))
  }

  lemma ReversalShuts(db: Db, now: int, row: Lineage)
    requires Inv(db) && LineageValid(db, now, row) && row.kind == Reversal
    ensures Shut(AfterLineage(Current(db, row.grant), row.kind, row.amount, IsCapture(db, row)))
  {
    CompensatedAtMostConsumed(db, row.grant);
    CurrentOk(db, row.grant);
    assert Current(db, row.grant) == Totals(db, row.grant);
  }

  lemma ShutSums(db: Db, g: nat)
    requires Inv(db) && g < |db.chains| && Shut(Current(db, g))
    ensures KindSum(db, g, Issuance) > 0 && KindSum(db, g, Consumption) == 0
  {
    assert Current(db, g) == Totals(db, g);
  }

  lemma AlreadyIssued(db: Db, g: nat)
    requires Links(db) && KindSum(db, g, Issuance) > 0
    ensures exists i: nat :: i < |db.lineage| && OfKind(g, Issuance)(db.lineage[i])
  {
    forall i: nat | i < |db.lineage| ensures db.lineage[i].amount > 0 {
      assert Linked(db, db.lineage[i]);
    }
    LineageSumPositive(db.lineage, OfKind(g, Issuance));
  }

  lemma NeverConsumed(db: Db, g: nat, t: nat)
    requires Links(db) && KindSum(db, g, Consumption) == 0
    ensures TxSum(db, g, Consumption, t) == 0
  {
    forall i: nat | i < |db.lineage|
      ensures db.lineage[i].amount > 0 && !OfKindInTx(db, g, Consumption, t)(db.lineage[i])
    {
      assert Linked(db, db.lineage[i]);
      LineageSumPositive(db.lineage, OfKind(g, Consumption)) by {
        assert forall j: nat :: j < |db.lineage| ==> Linked(db, db.lineage[j]);
      }
      assert !OfKind(g, Consumption)(db.lineage[i]);
    }
    LineageSumPositive(db.lineage, OfKindInTx(db, g, Consumption, t));
  }

  /** All six kinds and every allocation are refused on a shut grant. */
  lemma ShutRefuses(db: Db, now: int, row: Lineage)
    requires Inv(db) && HasReversal(db, row.grant) && Shut(Current(db, row.grant))
    ensures !LineageValid(db, now, row)
  {
    if LineageValid(db, now, row) {
      ShutSums(db, row.grant);
      AlreadyIssued(db, row.grant);
      if row.kind == Compensation {
        NeverConsumed(db, row.grant, db.txs[db.entries[row.entry].tx].related.value);
      }
      assert false;
    }
  }

  lemma ShutReservesNothing(db: Db, now: int, row: Allocation)
    requires Shut(Current(db, row.grant))
    ensures !AllocationValid(db, now, row)
  {
  }

  lemma LineageMovesOne(db: Db, now: int, row: Lineage)
    requires DoInsertLineage(db, now, row).outcome == Accepted
    ensures var db' := DoInsertLineage(db, now, row).db;
            && db'.lineage == db.lineage + [row]
            && Current(db', row.grant) == AfterLineage(Current(db, row.grant), row.kind, row.amount, IsCapture(db, row))
            && forall g: nat :: g != row.grant ==> Current(db', g) == Current(db, g)
  {
  }

  lemma ShutAfterRow(db: Db, db': Db, row: Lineage)
    requires ReversedShut(db) && !HasReversal(db, row.grant) && db'.lineage == db.lineage + [row]
    requires forall g: nat :: g != row.grant ==> Current(db', g) == Current(db, g)
    requires row.kind == Reversal ==> Shut(Current(db', row.grant))
    ensures ReversedShut(db')
  {
    forall g: nat | HasReversal(db', g) ensures Shut(Current(db', g)) {
      var i: nat :| i < |db'.lineage| && OfKind(g, Reversal)(db'.lineage[i]);
      if i < |db.lineage| {
        assert OfKind(g, Reversal)(db.lineage[i]);
      }
    }
  }

  lemma LineageKeepsShut(db: Db, now: int, row: Lineage)
    requires Inv(db) && ReversedShut(db)
    ensures ReversedShut(DoInsertLineage(db, now, row).db)
  {
    if LineageValid(db, now, row) {
      LineageFits(db, now, row);
      LineageMovesOne(db, now, row);
      if HasReversal(db, row.grant) {
        ShutRefuses(db, now, row);
      } else {
        if row.kind == Reversal {
          ReversalShuts(db, now, row);
        }
        ShutAfterRow(db, DoInsertLineage(db, now, row).db, row);
      }
    }
  }

  lemma ShutStays(db: Db, db': Db)
    requires ReversedShut(db) && db'.lineage == db.lineage
    requires forall g: nat ::
               CapacityOk(Current(db', g))
               && Current(db', g) == Current(db, g).(reserved := Current(db', g).reserved)
    ensures ReversedShut(db')
  {
    forall g: nat | HasReversal(db', g) ensures Shut(Current(db', g)) {
      assert HasReversal(db, g);
    }
  }

  lemma UpdateStaysOk(db: Db, h: nat, row: Hold)
    requires Inv(db)
    ensures Chained(DoUpdateHold(db, h, row).db)
  {
    if UpdateValid(db, h, row) {
      UpdateKeepsChains(db, h, row);
    }
  }

  lemma UpdateMovesReserved(db: Db, h: nat, row: Hold)
    requires Chained(DoUpdateHold(db, h, row).db)
    ensures var db' := DoUpdateHold(db, h, row).db;
            && db'.lineage == db.lineage
            && forall g: nat ::
                 CapacityOk(Current(db', g))
                 && Current(db', g) == Current(db, g).(reserved := Current(db', g).reserved)
  {
    var db' := DoUpdateHold(db, h, row).db;
    forall g: nat
      ensures CapacityOk(Current(db', g)) && Current(db', g) == Current(db, g).(reserved := Current(db', g).reserved)
    {
      CurrentOk(db', g);
      OnlyReservedMoves(db, h, row, g);
    }
  }

  lemma UpdateKeepsShut(db: Db, h: nat, row: Hold)
    requires Inv(db) && ReversedShut(db)
    ensures ReversedShut(DoUpdateHold(db, h, row).db)
  {
    UpdateStaysOk(db, h, row);
    UpdateMovesReserved(db, h, row);
    ShutStays(db, DoUpdateHold(db, h, row).db);
  }

  lemma AllocationKeepsShut(db: Db, now: int, row: Allocation)
    requires ReversedShut(db)
    ensures ReversedShut(DoInsertAllocation(db, now, row).db)
  {
    forall g: nat | HasReversal(DoInsertAllocation(db, now, row).db, g)
      ensures Shut(Current(DoInsertAllocation(db, now, row).db, g))
    {
      assert HasReversal(db, g);
    }
  }

  lemma OnlyReservedMoves(db: Db, h: nat, row: Hold, g: nat)
    ensures var db' := DoUpdateHold(db, h, row).db;
            Current(db', g) == Current(db, g).(reserved := Current(db', g).reserved)
  {
  }

  lemma StatementKeepsShut(db: Db, now: int, op: Op)
    requires Inv(db) && ReversedShut(db) && RowOp(op)
    ensures ReversedShut(Statement(db, now, op).db)
  {
    match op
    case InsertLineage(row) => LineageKeepsShut(db, now, row);
    case UpdateHold(h, row) => UpdateKeepsShut(db, h, row);
    case InsertAllocation(row) => AllocationKeepsShut(db, now, row);
    case _ =>
      InsertKeepsShut(db, now, op);
  }

  lemma InsertKeepsShut(db: Db, now: int, op: Op)
    requires Inv(db) && ReversedShut(db) && RowOp(op) && !op.InsertLineage? && !op.InsertAllocation? && !op.UpdateHold?
    ensures ReversedShut(Statement(db, now, op).db)
  {
    var db' := Statement(db, now, op).db;
    InsertFrames(db, now, op);
    forall g: nat | HasReversal(db', g) ensures Shut(Current(db', g)) {
      assert HasReversal(db, g);
      var i: nat :| i < |db.lineage| && OfKind(g, Reversal)(db.lineage[i]);
      assert Linked(db, db.lineage[i]);
    }
  }

  lemma {:induction false} RunKeepsShut(now: int, ops: seq<Op>)
    ensures ReversedShut(Run(Begin(EMPTY, now), ops).base) && ReversedShut(Run(Begin(EMPTY, now), ops).cur)
  {
    if ops != [] {
      var s, op := Run(Begin(EMPTY, now), ops[..|ops| - 1]), ops[|ops| - 1];
      RunKeepsShut(now, ops[..|ops| - 1]);
      RunKeepsInv(now, ops[..|ops| - 1]);
      if RowOp(op) {
        StatementKeepsShut(s.cur, s.now, op);
      }
    }
  }

  /**
   Over every run: as long as a grant has a REVERSAL row, everything granted is reversed, every other
   counter is 0, and each further lineage row and allocation on it is refused.
   */
  lemma ReversedForGood(now: int, ops: seq<Op>, g: nat)
    requires HasReversal(Run(Begin(EMPTY, now), ops).cur, g)
    ensures var s := Run(Begin(EMPTY, now), ops);
            && Shut(Current(s.cur, g))
            && (forall row: Lineage :: row.grant == g ==> Exec(s, InsertLineage(row)).1 == Rejected(Invalid))
            && (forall row: Allocation :: row.grant == g ==> Exec(s, InsertAllocation(row)).1 == Rejected(Invalid))
  {
    RunKeepsShut(now, ops);
    RunKeepsInv(now, ops);
    ShutForGood(Run(Begin(EMPTY, now), ops), g);
  }

  lemma ShutToLineage(s: Session, row: Lineage)
    requires !LineageValid(s.cur, s.now, row)
    ensures Exec(s, InsertLineage(row)).1 == Rejected(Invalid)
  {
  }

  lemma ShutForGood(s: Session, g: nat)
    requires Inv(s.cur) && HasReversal(s.cur, g) && Shut(Current(s.cur, g))
    ensures forall row: Lineage :: row.grant == g ==> Exec(s, InsertLineage(row)).1 == Rejected(Invalid)
    ensures forall row: Allocation :: row.grant == g ==> Exec(s, InsertAllocation(row)).1 == Rejected(Invalid)
  {
    forall row: Lineage | row.grant == g ensures Exec(s, InsertLineage(row)).1 == Rejected(Invalid) {
      ShutRefuses(s.cur, s.now, row);
      ShutToLineage(s, row);
    }
    ShutToAllocations(s, g);
  }

  lemma ShutToAllocations(s: Session, g: nat)
    requires Shut(Current(s.cur, g))
    ensures forall row: Allocation :: row.grant == g ==> Exec(s, InsertAllocation(row)).1 == Rejected(Invalid)
  {
    forall row: Allocation | row.grant == g ensures Exec(s, InsertAllocation(row)).1 == Rejected(Invalid) {
      ShutReservesNothing(s.cur, s.now, row);
    }
  }
}
