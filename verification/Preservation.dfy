/** Every accepted statement keeps the invariant, and no guard behind the validators ever fires. */
module Preservation {
  import opened Sums
  import opened Tables
  import opened Engine
  import opened Invariant

  // ----- lineage rows

  ghost predicate AddsLineage(db: Db, db': Db, row: Lineage) {
    db' == db.(lineage := db.lineage + [row], chains := db'.chains)
  }

  lemma LineageAddedSums(db: Db, db': Db, row: Lineage, g: nat)
    requires AddsLineage(db, db', row)
    ensures forall k :: KindSum(db', g, k) == KindSum(db, g, k) + if OfKind(g, k)(row) then row.amount else 0
    ensures forall k, t: nat ::
              TxSum(db', g, k, t) == TxSum(db, g, k, t) + if OfKindInTx(db, g, k, t)(row) then row.amount else 0
    ensures forall h: nat ::
              ConsumedThrough(db', g, h) == ConsumedThrough(db, g, h)
                + if ThroughHold(db, g, h)(row) then row.amount else 0
    ensures forall h: nat :: AllocatedTo(db', g, h) == AllocatedTo(db, g, h)
  {
    forall k ensures KindSum(db', g, k) == KindSum(db, g, k) + if OfKind(g, k)(row) then row.amount else 0 {
      LineageSumAppend(db.lineage, row, OfKind(g, k));
    }
    forall k, t: nat ensures
      TxSum(db', g, k, t) == TxSum(db, g, k, t) + if OfKindInTx(db, g, k, t)(row) then row.amount else 0
    {
      LineageSumSame(db'.lineage, OfKindInTx(db', g, k, t), OfKindInTx(db, g, k, t));
      LineageSumAppend(db.lineage, row, OfKindInTx(db, g, k, t));
    }
    forall h: nat ensures
      ConsumedThrough(db', g, h) == ConsumedThrough(db, g, h) + if ThroughHold(db, g, h)(row) then row.amount else 0
    {
      LineageSumSame(db'.lineage, ThroughHold(db', g, h), ThroughHold(db, g, h));
      LineageSumAppend(db.lineage, row, ThroughHold(db, g, h));
    }
    forall h: nat ensures AllocatedTo(db', g, h) == AllocatedTo(db, g, h) {
      AllocationSumSame(db.allocations, ToHold(db', g, h), ToHold(db, g, h));
    }
  }

  lemma LineageReserved(db: Db, db': Db, row: Lineage, g: nat)
    requires AddsLineage(db, db', row)
    requires IsCapture(db, row) && row.grant == g ==>
               HoldOf(db, row.entry).value < |db.holds| && db.holds[HoldOf(db, row.entry).value].state != Voided
    ensures Reserved(db', g) == Reserved(db, g) - if row.grant == g && IsCapture(db, row) then row.amount else 0
  {
    LineageAddedSums(db, db', row, g);
    if row.grant == g && IsCapture(db, row) {
      SumMoved(|db.holds|, Outstanding(db, g), Outstanding(db', g), HoldOf(db, row.entry).value, -row.amount);
    } else {
      SumSame(|db.holds|, Outstanding(db, g), Outstanding(db', g));
    }
  }

  /** A capture the validator lets through fits inside a live hold's outstanding reservation. */
  lemma CaptureFits(db: Db, now: int, row: Lineage)
    requires Inv(db) && LineageValid(db, now, row) && IsCapture(db, row)
    ensures var h := HoldOf(db, row.entry).value;
            && h < |db.holds| && db.holds[h].state == Held
            && ConsumedThrough(db, row.grant, h) + row.amount <= AllocatedTo(db, row.grant, h)
            && row.amount <= Current(db, row.grant).reserved
  {
    var h := HoldOf(db, row.entry).value;
    SumsNonNegative(db, row.grant);
    ReservedCovers(db, row.grant, h);
  }

  lemma CurrentOk(db: Db, g: nat)
    requires Chained(db)
    ensures CapacityOk(Current(db, g))
  {
    if g < |db.chains| {
      assert ChainOk(db.chains[g]);
    }
  }

  /** The validated kind leaves room in the counters. */
  lemma KindLeavesRoom(db: Db, now: int, row: Lineage)
    requires row.amount > 0 && InScope(db, row) && KindValid(db, now, row)
    requires CapacityOk(Current(db, row.grant))
    requires IsCapture(db, row) ==> row.amount <= Current(db, row.grant).reserved
    ensures CapacityOk(AfterLineage(Current(db, row.grant), row.kind, row.amount, IsCapture(db, row)))
  {
    assert HoldOf(db, row.entry) == db.txs[db.entries[row.entry].tx].hold;
  }

  lemma LineageSourceFree(db: Db, row: Lineage)
    requires row.grant < |db.chains| && ChainKnown(db, row.grant) && LineageKeyFree(db, row)
    ensures SourceFree(db.chains[row.grant], FromLineage(row.entry))
  {
    var chain := db.chains[row.grant];
    forall i: nat | i < |chain| ensures chain[i].source != FromLineage(row.entry) {
      assert SourceKnown(db, row.grant, chain[i].source);
    }
  }

  lemma LineageAccepted(db: Db, now: int, row: Lineage)
    requires LineageValid(db, now, row) && CapacityOk(Current(db, row.grant)) && ChainKnown(db, row.grant)
    requires IsCapture(db, row) ==> row.amount <= Current(db, row.grant).reserved
    ensures DoInsertLineage(db, now, row).outcome == Accepted
  {
    KindLeavesRoom(db, now, row);
    LineageSourceFree(db, row);
  }

  /** The validators leave room: the appended version meets every CHECK and unique index. */
  lemma LineageFits(db: Db, now: int, row: Lineage)
    requires Inv(db) && LineageValid(db, now, row)
    ensures DoInsertLineage(db, now, row).outcome == Accepted
  {
    CurrentOk(db, row.grant);
    if IsCapture(db, row) {
      CaptureFits(db, now, row);
    }
    assert ChainKnown(db, row.grant);
    LineageAccepted(db, now, row);
  }

  lemma AppendedOk(chain: seq<Version>, source: Source, c: Capacity)
    requires ChainOk(chain) && VersionOk(chain, source, c)
    ensures ChainOk(Appended(chain, source, c)) && Latest(Appended(chain, source, c)) == c
  {
  }

  lemma LineageKeepsChains(db: Db, now: int, row: Lineage)
    requires Inv(db) && LineageValid(db, now, row)
    ensures Chained(DoInsertLineage(db, now, row).db)
  {
    LineageFits(db, now, row);
    var db' := DoInsertLineage(db, now, row).db;
    var next := AfterLineage(Current(db, row.grant), row.kind, row.amount, IsCapture(db, row));
    assert db'.lineage[|db.lineage|] == row;
    forall g: nat | g < |db'.chains| ensures ChainOk(db'.chains[g]) && ChainKnown(db', g) {
      assert ChainOk(db.chains[g]) && ChainKnown(db, g);
      if g == row.grant {
        AppendedOk(db.chains[g], FromLineage(row.entry), next);
      }
      forall i: nat | i < |db'.chains[g]| ensures SourceKnown(db', g, db'.chains[g][i].source) {
        if i < |db.chains[g]| {
          assert SourceKnown(db, g, db.chains[g][i].source);
          KnownStays(db, db', g, db.chains[g][i].source);
        }
      }
    }
  }

  lemma KnownStays(db: Db, db': Db, g: nat, source: Source)
    requires db.lineage <= db'.lineage && |db.allocations| <= |db'.allocations| && |db.holds| <= |db'.holds|
    requires forall h: nat :: h < |db.holds| && db.holds[h].state == Voided ==> db'.holds[h].state == Voided
    requires SourceKnown(db, g, source)
    ensures SourceKnown(db', g, source)
  {
    if source.FromLineage? {
      var i: nat :| i < |db.lineage| && db.lineage[i].grant == g && db.lineage[i].entry == source.entry;
      assert db'.lineage[i] == db.lineage[i];
    }
  }

  /** The sums move exactly as the appender moves the counters. */
  lemma LineageMovesTotals(db: Db, db': Db, row: Lineage)
    requires AddsLineage(db, db', row)
    requires IsCapture(db, row) ==>
               HoldOf(db, row.entry).value < |db.holds| && db.holds[HoldOf(db, row.entry).value].state != Voided
    ensures Totals(db', row.grant) == AfterLineage(Totals(db, row.grant), row.kind, row.amount, IsCapture(db, row))
    ensures forall g: nat :: g != row.grant ==> Totals(db', g) == Totals(db, g)
  {
    LineageAddedSums(db, db', row, row.grant);
    LineageReserved(db, db', row, row.grant);
    forall g: nat | g != row.grant ensures Totals(db', g) == Totals(db, g) {
      LineageAddedSums(db, db', row, g);
      LineageReserved(db, db', row, g);
    }
  }

  lemma LineageKeepsExact(db: Db, now: int, row: Lineage)
    requires Inv(db) && LineageValid(db, now, row)
    ensures Exact(DoInsertLineage(db, now, row).db)
  {
    LineageFits(db, now, row);
    var db' := DoInsertLineage(db, now, row).db;
    if IsCapture(db, row) {
      CaptureFits(db, now, row);
    }
    LineageMovesTotals(db, db', row);
    assert Current(db, row.grant) == Totals(db, row.grant);
  }

  lemma LineageKeepsCaps(db: Db, now: int, row: Lineage)
    requires Inv(db) && LineageValid(db, now, row)
    ensures HoldsCapped(DoInsertLineage(db, now, row).db) && ReversalsCapped(DoInsertLineage(db, now, row).db)
  {
    LineageFits(db, now, row);
    var db' := DoInsertLineage(db, now, row).db;
    if IsCapture(db, row) {
      CaptureFits(db, now, row);
    }
    forall g: nat, h: nat ensures ConsumedThrough(db', g, h) <= AllocatedTo(db', g, h) {
      LineageAddedSums(db, db', row, g);
      assert ConsumedThrough(db, g, h) <= AllocatedTo(db, g, h);
    }
    forall g: nat, r: nat | r < |db'.txs| && db'.txs[r].related.Some?
      ensures TxSum(db', g, Compensation, r) <= TxSum(db', g, Consumption, db'.txs[r].related.value)
    {
      LineageAddedSums(db, db', row, g);
      assert TxSum(db, g, Compensation, r) <= TxSum(db, g, Consumption, db.txs[r].related.value);
    }
  }

  lemma LineageKeepsInv(db: Db, now: int, row: Lineage)
    requires Inv(db) && LineageValid(db, now, row)
    ensures Inv(DoInsertLineage(db, now, row).db)
  {
    LineageFits(db, now, row);
    LineageKeepsChains(db, now, row);
    LineageKeepsExact(db, now, row);
    LineageKeepsCaps(db, now, row);
    var db' := DoInsertLineage(db, now, row).db;
    forall i: nat | i < |db'.lineage| ensures Linked(db', db'.lineage[i]) {
      if i < |db.lineage| {
        assert Linked(db, db.lineage[i]);
      }
    }
    forall i: nat | i < |db'.allocations| ensures AllocationLinked(db', db'.allocations[i]) {
      assert AllocationLinked(db, db.allocations[i]);
    }
  }

  // ----- allocations

  lemma AllocationFits(db: Db, now: int, row: Allocation)
    requires Inv(db) && AllocationValid(db, now, row)
    ensures DoInsertAllocation(db, now, row).outcome == Accepted
  {
    CurrentOk(db, row.grant);
    var chain := db.chains[row.grant];
    assert ChainKnown(db, row.grant);
    forall i: nat | i < |chain| ensures chain[i].source != FromAllocation(|db.allocations|) {
      assert SourceKnown(db, row.grant, chain[i].source);
    }
  }

  lemma AllocationAddedSums(db: Db, db': Db, row: Allocation, g: nat)
    requires db' == db.(allocations := db.allocations + [row], chains := db'.chains)
    ensures forall k :: KindSum(db', g, k) == KindSum(db, g, k)
    ensures forall k, t: nat :: TxSum(db', g, k, t) == TxSum(db, g, k, t)
    ensures forall h: nat :: ConsumedThrough(db', g, h) == ConsumedThrough(db, g, h)
    ensures forall h: nat ::
              AllocatedTo(db', g, h) == AllocatedTo(db, g, h) + if ToHold(db, g, h)(row) then row.amount else 0
  {
    forall k, t: nat ensures TxSum(db', g, k, t) == TxSum(db, g, k, t) {
      LineageSumSame(db.lineage, OfKindInTx(db', g, k, t), OfKindInTx(db, g, k, t));
    }
    forall h: nat ensures ConsumedThrough(db', g, h) == ConsumedThrough(db, g, h) {
      LineageSumSame(db.lineage, ThroughHold(db', g, h), ThroughHold(db, g, h));
    }
    forall h: nat ensures
      AllocatedTo(db', g, h) == AllocatedTo(db, g, h) + if ToHold(db, g, h)(row) then row.amount else 0
    {
      AllocationSumSame(db'.allocations, ToHold(db', g, h), ToHold(db, g, h));
      AllocationSumAppend(db.allocations, row, ToHold(db, g, h));
    }
  }

  /** An allocation moves only its grant's reserved sum, by its amount. */
  lemma AllocationMovesTotals(db: Db, db': Db, row: Allocation, h: nat, g: nat)
    requires db' == db.(allocations := db.allocations + [row], chains := db'.chains)
    requires h < |db.holds| && db.holds[h].state != Voided && HoldOfHoldEntry(db, row.holdEntry) == Some(h)
    ensures Totals(db', g) ==
            Totals(db, g).(reserved := Totals(db, g).reserved + if g == row.grant then row.amount else 0)
  {
    AllocationAddedSums(db, db', row, g);
    if g == row.grant {
      SumMoved(|db.holds|, Outstanding(db, g), Outstanding(db', g), h, row.amount);
    } else {
      SumSame(|db.holds|, Outstanding(db, g), Outstanding(db', g));
    }
  }

  lemma AllocationKeepsExact(db: Db, now: int, row: Allocation)
    requires Inv(db) && AllocationValid(db, now, row)
    ensures Exact(DoInsertAllocation(db, now, row).db)
  {
    AllocationFits(db, now, row);
    var db' := DoInsertAllocation(db, now, row).db;
    forall g: nat | g < |db'.chains| ensures Current(db', g) == Totals(db', g) {
      AllocationMovesTotals(db, db', row, db.holdEntries[row.holdEntry].hold, g);
      assert Current(db, g) == Totals(db, g);
    }
  }

  lemma AllocationKeepsChains(db: Db, now: int, row: Allocation)
    requires Inv(db) && AllocationValid(db, now, row)
    ensures Chained(DoInsertAllocation(db, now, row).db)
  {
    AllocationFits(db, now, row);
    var db' := DoInsertAllocation(db, now, row).db;
    forall g: nat | g < |db'.chains| ensures ChainOk(db'.chains[g]) && ChainKnown(db', g) {
      assert ChainOk(db.chains[g]) && ChainKnown(db, g);
      if g == row.grant {
        AppendedOk(db.chains[g], FromAllocation(|db.allocations|), Latest(db'.chains[g]));
      }
      forall i: nat | i < |db'.chains[g]| ensures SourceKnown(db', g, db'.chains[g][i].source) {
        if i < |db.chains[g]| {
          assert SourceKnown(db, g, db.chains[g][i].source);
          KnownStays(db, db', g, db.chains[g][i].source);
        }
      }
    }
  }

  lemma AllocationKeepsInv(db: Db, now: int, row: Allocation)
    requires Inv(db) && AllocationValid(db, now, row)
    ensures Inv(DoInsertAllocation(db, now, row).db)
  {
    AllocationFits(db, now, row);
    AllocationKeepsExact(db, now, row);
    AllocationKeepsChains(db, now, row);
    var db' := DoInsertAllocation(db, now, row).db;
    forall g: nat, h: nat ensures ConsumedThrough(db', g, h) <= AllocatedTo(db', g, h) {
      AllocationAddedSums(db, db', row, g);
      assert ConsumedThrough(db, g, h) <= AllocatedTo(db, g, h);
    }
    forall g: nat, r: nat | r < |db'.txs| && db'.txs[r].related.Some?
      ensures TxSum(db', g, Compensation, r) <= TxSum(db', g, Consumption, db'.txs[r].related.value)
    {
      AllocationAddedSums(db, db', row, g);
      assert TxSum(db, g, Compensation, r) <= TxSum(db, g, Consumption, db.txs[r].related.value);
    }
    forall i: nat | i < |db'.lineage| ensures Linked(db', db'.lineage[i]) {
      assert Linked(db, db.lineage[i]);
    }
    forall i: nat | i < |db'.allocations| ensures AllocationLinked(db', db'.allocations[i]) {
      if i < |db.allocations| {
        assert AllocationLinked(db, db.allocations[i]);
      }
    }
  }

  // ----- hold updates

  lemma HoldUpdateSums(db: Db, db': Db, g: nat)
    requires db' == db.(holds := db'.holds, chains := db'.chains)
    ensures forall k :: KindSum(db', g, k) == KindSum(db, g, k)
    ensures forall k, t: nat :: TxSum(db', g, k, t) == TxSum(db, g, k, t)
    ensures forall h: nat :: ConsumedThrough(db', g, h) == ConsumedThrough(db, g, h)
    ensures forall h: nat :: AllocatedTo(db', g, h) == AllocatedTo(db, g, h)
  {
    forall k, t: nat ensures TxSum(db', g, k, t) == TxSum(db, g, k, t) {
      LineageSumSame(db.lineage, OfKindInTx(db', g, k, t), OfKindInTx(db, g, k, t));
    }
    forall h: nat ensures ConsumedThrough(db', g, h) == ConsumedThrough(db, g, h) {
      LineageSumSame(db.lineage, ThroughHold(db', g, h), ThroughHold(db, g, h));
    }
    forall h: nat ensures AllocatedTo(db', g, h) == AllocatedTo(db, g, h) {
      AllocationSumSame(db.allocations, ToHold(db', g, h), ToHold(db, g, h));
    }
  }

  ghost predicate UpdateValid(db: Db, h: nat, row: Hold) {
    h < |db.holds| && HoldAdvances(db.holds[h], row)
  }

  /** A grant that backs no allocation of h holds nothing for it. */
  lemma UnbackedNothing(db: Db, g: nat, h: nat)
    requires Links(db) && HoldsCapped(db) && !Backs(db, g, h)
    ensures Unconsumed(db, g, h) == 0
  {
    AllocationSumPositive(db.allocations, ToHold(db, g, h));
    SumsNonNegative(db, g);
    assert ConsumedThrough(db, g, h) <= AllocatedTo(db, g, h);
  }

  lemma VoidSourceFree(db: Db, g: nat, h: nat)
    requires g < |db.chains| && ChainKnown(db, g) && h < |db.holds| && db.holds[h].state == Held
    ensures SourceFree(db.chains[g], FromVoid(h))
  {
    var chain := db.chains[g];
    forall i: nat | i < |chain| ensures chain[i].source != FromVoid(h) {
      assert SourceKnown(db, g, chain[i].source);
    }
  }

  lemma ReleaseFits(db: Db, g: nat, h: nat)
    requires g < |db.chains| && ChainKnown(db, g) && CapacityOk(Current(db, g)) && h < |db.holds|
             && db.holds[h].state == Held
    requires 0 <= Unconsumed(db, g, h) <= Current(db, g).reserved
    ensures ReleaseOk(db, g, h)
  {
    VoidSourceFree(db, g, h);
  }

  lemma ReleaseBounded(db: Db, g: nat, h: nat)
    requires Links(db) && HoldsCapped(db) && Exact(db) && g < |db.chains| && h < |db.holds|
             && db.holds[h].state != Voided
    ensures 0 <= Unconsumed(db, g, h) <= Current(db, g).reserved
  {
    assert ConsumedThrough(db, g, h) <= AllocatedTo(db, g, h);
    assert Current(db, g) == Totals(db, g);
    ReservedCovers(db, g, h);
  }

  lemma AllReleasesFit(db: Db, h: nat)
    requires Inv(db) && h < |db.holds| && db.holds[h].state == Held
    ensures ReleasesOk(db, h)
  {
    forall g: nat | g < |db.chains| && Backs(db, g, h) ensures ReleaseOk(db, g, h) {
      CurrentOk(db, g);
      ReleaseBounded(db, g, h);
      assert ChainKnown(db, g);
      ReleaseFits(db, g, h);
    }
  }

  /** Voiding a hold never meets its defensive raises. */
  lemma UpdateFits(db: Db, h: nat, row: Hold)
    requires Inv(db) && UpdateValid(db, h, row)
    ensures ReleasesOk(db, h) && DoUpdateHold(db, h, row).outcome == Accepted
  {
    AllReleasesFit(db, h);
  }

  /** A void takes h out of a grant's reserved sum; any other update leaves every sum alone. */
  lemma UpdateMovesTotals(db: Db, db': Db, h: nat, row: Hold, g: nat)
    requires h < |db.holds| && db.holds[h].state != Voided
    requires db' == db.(holds := db.holds[h := row], chains := db'.chains)
    ensures Totals(db', g) ==
            Totals(db, g).(reserved := Totals(db, g).reserved - if row.state == Voided then Unconsumed(db, g, h) else 0)
  {
    HoldUpdateSums(db, db', g);
    if row.state == Voided {
      SumMoved(|db.holds|, Outstanding(db, g), Outstanding(db', g), h, -Unconsumed(db, g, h));
    } else {
      SumSame(|db.holds|, Outstanding(db, g), Outstanding(db', g));
    }
  }

  /** Over the caps, the release version takes off exactly what the hold still reserved of the grant. */
  lemma ReleasedLatest(db: Db, g: nat, h: nat)
    requires Links(db) && HoldsCapped(db) && g < |db.chains|
    ensures Latest(Released(db, g, h)) == ReleasedCapacity(db, g, h)
  {
    assert ConsumedThrough(db, g, h) <= AllocatedTo(db, g, h);
    if !Backs(db, g, h) {
      UnbackedNothing(db, g, h);
    }
  }

  lemma UpdateKeepsExact(db: Db, h: nat, row: Hold)
    requires Inv(db) && UpdateValid(db, h, row)
    ensures Exact(DoUpdateHold(db, h, row).db)
  {
    UpdateFits(db, h, row);
    var db' := DoUpdateHold(db, h, row).db;
    forall g: nat | g < |db'.chains| ensures Current(db', g) == Totals(db', g) {
      UpdateMovesTotals(db, db', h, row, g);
      ReleasedLatest(db, g, h);
      assert Current(db, g) == Totals(db, g);
    }
  }

  lemma ReleasedChain(db: Db, db': Db, g: nat, h: nat)
    requires g < |db.chains| && ChainOk(db.chains[g]) && ChainKnown(db, g) && ReleaseOk(db, g, h) && h < |db.holds|
    requires |db'.chains| == |db.chains| && db'.chains[g] == Released(db, g, h)
    requires db'.lineage == db.lineage && db'.allocations == db.allocations && |db'.holds| == |db.holds|
    requires forall q: nat :: q < |db.holds| && (q == h || db.holds[q].state == Voided) ==> db'.holds[q].state == Voided
    ensures ChainOk(db'.chains[g]) && ChainKnown(db', g)
  {
    if Backs(db, g, h) && Unconsumed(db, g, h) > 0 {
      AppendedOk(db.chains[g], FromVoid(h), ReleasedCapacity(db, g, h));
    }
    forall i: nat | i < |db'.chains[g]| ensures SourceKnown(db', g, db'.chains[g][i].source) {
      if i < |db.chains[g]| {
        assert SourceKnown(db, g, db.chains[g][i].source);
        KnownStays(db, db', g, db.chains[g][i].source);
      }
    }
  }

  lemma UpdateKeepsChains(db: Db, h: nat, row: Hold)
    requires Inv(db) && UpdateValid(db, h, row)
    ensures Chained(DoUpdateHold(db, h, row).db)
  {
    UpdateFits(db, h, row);
    var db' := DoUpdateHold(db, h, row).db;
    forall g: nat | g < |db'.chains| ensures ChainOk(db'.chains[g]) && ChainKnown(db', g) {
      assert ChainOk(db.chains[g]) && ChainKnown(db, g);
      if row.state == Voided {
        if Backs(db, g, h) {
          ReleasedChain(db, db', g, h);
        } else {
          KnownChain(db, db', g);
        }
      } else {
        KnownChain(db, db', g);
      }
    }
  }

  lemma KnownChain(db: Db, db': Db, g: nat)
    requires g < |db.chains| && g < |db'.chains| && db'.chains[g] == db.chains[g] && ChainKnown(db, g)
    requires db.lineage <= db'.lineage && |db.allocations| <= |db'.allocations| && |db.holds| <= |db'.holds|
    requires forall h: nat :: h < |db.holds| && db.holds[h].state == Voided ==> db'.holds[h].state == Voided
    ensures ChainKnown(db', g)
  {
    forall i: nat | i < |db'.chains[g]| ensures SourceKnown(db', g, db'.chains[g][i].source) {
      assert SourceKnown(db, g, db.chains[g][i].source);
      KnownStays(db, db', g, db.chains[g][i].source);
    }
  }

  lemma UpdateKeepsInv(db: Db, h: nat, row: Hold)
    requires Inv(db) && UpdateValid(db, h, row)
    ensures Inv(DoUpdateHold(db, h, row).db)
  {
    UpdateFits(db, h, row);
    UpdateKeepsExact(db, h, row);
    UpdateKeepsChains(db, h, row);
    var db' := DoUpdateHold(db, h, row).db;
    forall g: nat, q: nat ensures ConsumedThrough(db', g, q) <= AllocatedTo(db', g, q) {
      HoldUpdateSums(db, db', g);
      assert ConsumedThrough(db, g, q) <= AllocatedTo(db, g, q);
    }
    forall g: nat, r: nat | r < |db'.txs| && db'.txs[r].related.Some?
      ensures TxSum(db', g, Compensation, r) <= TxSum(db', g, Consumption, db'.txs[r].related.value)
    {
      HoldUpdateSums(db, db', g);
      assert TxSum(db, g, Compensation, r) <= TxSum(db, g, Consumption, db.txs[r].related.value);
    }
    forall i: nat | i < |db'.lineage| ensures Linked(db', db'.lineage[i]) {
      assert Linked(db, db.lineage[i]);
    }
    forall i: nat | i < |db'.allocations| ensures AllocationLinked(db', db'.allocations[i]) {
      assert AllocationLinked(db, db.allocations[i]);
    }
  }

  // ----- every statement

  /** Plain inserts extend the tables that sums refer to and change no sum. */
  lemma InsertFrames(db: Db, now: int, op: Op)
    requires Refs(db) && RelationUnique(db) && RowOp(op) && !op.InsertLineage? && !op.InsertAllocation?
             && !op.UpdateHold?
    ensures var db' := Statement(db, now, op).db; Frames(db, db') && Refs(db') && RelationUnique(db')
  {
    match op
    case InsertTransaction(t) => if TransactionValid(db, t) { TransactionFrames(db, t); }
    case InsertGrant(g) => if GrantValid(db, g) { GrantFrames(db, g); }
    case _ =>
  }

  lemma GrantFrames(db: Db, g: Grant)
    requires Refs(db) && RelationUnique(db) && GrantValid(db, g)
    ensures var db' := db.(grants := db.grants + [g], chains := db.chains + [[]]);
            Frames(db, db') && Refs(db') && RelationUnique(db')
  {
  }

  lemma TransactionFrames(db: Db, t: Transaction)
    requires Refs(db) && RelationUnique(db) && TransactionValid(db, t)
    ensures var db' := db.(txs := db.txs + [t]); Frames(db, db') && Refs(db') && RelationUnique(db')
  {
  }

  lemma InsertKeepsInv(db: Db, now: int, op: Op)
    requires Inv(db) && RowOp(op) && !op.InsertLineage? && !op.InsertAllocation? && !op.UpdateHold?
    ensures Inv(Statement(db, now, op).db)
  {
    InsertFrames(db, now, op);
    FrameKeepsInv(db, Statement(db, now, op).db);
  }

  lemma StatementKeepsInv(db: Db, now: int, op: Op)
    requires Inv(db) && RowOp(op)
    ensures Inv(Statement(db, now, op).db)
  {
    match op
    case InsertLineage(row) =>
      if LineageValid(db, now, row) { LineageKeepsInv(db, now, row); }
    case InsertAllocation(row) =>
      if AllocationValid(db, now, row) { AllocationKeepsInv(db, now, row); }
    case UpdateHold(h, row) =>
      if UpdateValid(db, h, row) { UpdateKeepsInv(db, h, row); }
    case _ =>
      InsertKeepsInv(db, now, op);
  }

  /**
   The guards suffice: over the invariant, no CHECK or unique index on an appended version fails
   and no defensive raise of the reserve step or of the void step fires.
   */
  lemma GuardsNeverFire(db: Db, now: int, op: Op)
    requires Inv(db) && RowOp(op)
    ensures Statement(db, now, op).outcome != Rejected(Guarded)
  {
    match op
    case InsertLineage(row) =>
      if LineageValid(db, now, row) { LineageFits(db, now, row); }
    case InsertAllocation(row) =>
      if AllocationValid(db, now, row) { AllocationFits(db, now, row); }
    case UpdateHold(h, row) =>
      if UpdateValid(db, h, row) { UpdateFits(db, h, row); }
    case _ =>
  }

  lemma EmptyHoldsInv()
    ensures Inv(EMPTY)
  {
  }

  ghost predicate SessionInv(s: Session) {
    Inv(s.base) && Inv(s.cur)
  }

  /** Reservation refinement over every run: any statements, any interleaving, any commits and rollbacks. */
  lemma {:induction false} RunKeepsInv(now: int, ops: seq<Op>)
    ensures SessionInv(Run(Begin(EMPTY, now), ops))
  {
    if ops == [] {
      EmptyHoldsInv();
    } else {
      var s := Run(Begin(EMPTY, now), ops[..|ops| - 1]);
      var op := ops[|ops| - 1];
      RunKeepsInv(now, ops[..|ops| - 1]);
      if RowOp(op) {
        StatementKeepsInv(s.cur, s.now, op);
      }
    }
  }

  /** In every reachable state a grant's newest version is the sum of its lineage and outstanding reservations. */
  lemma LatestIsTotals(now: int, ops: seq<Op>, g: nat)
    ensures var db := Run(Begin(EMPTY, now), ops).cur;
            g < |db.chains| ==> Latest(db.chains[g]) == Totals(db, g) && CapacityOk(Totals(db, g))
  {
    RunKeepsInv(now, ops);
    var db := Run(Begin(EMPTY, now), ops).cur;
    if g < |db.chains| {
      assert Current(db, g) == Totals(db, g);
      CurrentOk(db, g);
    }
  }
}
