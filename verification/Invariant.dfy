/**
 What every statement keeps, inside or between transactions: each grant's newest version is the
 sum of its lineage and of its outstanding reservations, no hold consumes more of a lot than was
 allocated to it, and no reversal compensates more of a lot than the reversed transaction took.
 */
module Invariant {
  import opened Sums
  import opened Tables
  import opened Engine

  // ----- the invariant

  /** Foreign keys and row-level CHECKs. */
  ghost predicate Refs(db: Db) {
    && |db.chains| == |db.grants|
    && (forall i: nat :: i < |db.grants| ==>
          && db.grants[i].account < |db.accounts| && db.accounts[db.grants[i].account].grantEnabled
          && db.grants[i].source < |db.txs|)
    && (forall i: nat :: i < |db.txs| ==>
          && RelationPaired(db.txs[i])
          && (db.txs[i].hold.Some? ==> db.txs[i].hold.value < |db.holds|)
          && (db.txs[i].related.Some? ==> db.txs[i].related.value < |db.txs|))
    && (forall i: nat :: i < |db.entries| ==>
          db.entries[i].tx < |db.txs| && db.entries[i].account < |db.accounts|)
    && (forall i: nat :: i < |db.holds| ==> HoldRowOk(db.holds[i]))
    && (forall i: nat :: i < |db.holdEntries| ==>
          db.holdEntries[i].hold < |db.holds| && db.holdEntries[i].account < |db.accounts|)
  }

  /** holds_amounts_chk and holds_state_amount_chk. */
  predicate HoldRowOk(h: Hold) {
    && h.original > 0 && 0 <= h.remaining <= h.original
    && (if h.state == Held then h.remaining > 0 else h.remaining == 0)
  }

  /** What a lineage row's kind says about its entry for as long as it exists. */
  ghost predicate Linked(db: Db, l: Lineage) {
    && l.amount > 0
    && l.grant < |db.grants| && db.grants[l.grant].account == l.account
    && l.entry < |db.entries| && db.entries[l.entry].account == l.account
    && (if l.kind in {Issuance, Compensation} then db.entries[l.entry].amount < 0 else db.entries[l.entry].amount > 0)
    && (l.kind == Issuance ==> db.entries[l.entry].tx == db.grants[l.grant].source)
    && (l.kind == Compensation && db.entries[l.entry].tx < |db.txs| ==>
          var t := db.txs[db.entries[l.entry].tx]; NotFalse(t.relation, Reverses) && t.related.Some?)
  }

  ghost predicate AllocationLinked(db: Db, a: Allocation) {
    && a.amount > 0
    && a.grant < |db.grants| && db.grants[a.grant].account == a.account
    && a.holdEntry < |db.holdEntries| && db.holdEntries[a.holdEntry].account == a.account
    && db.holdEntries[a.holdEntry].amount > 0
  }

  ghost predicate Links(db: Db) {
    && (forall i: nat :: i < |db.lineage| ==> Linked(db, db.lineage[i]))
    && (forall i: nat :: i < |db.allocations| ==> AllocationLinked(db, db.allocations[i]))
  }

  /** At most one transaction stands in a given relation to another. */
  ghost predicate RelationUnique(db: Db) {
    forall i: nat, j: nat :: i < j < |db.txs| && db.txs[i].related.Some? ==>
      !(db.txs[i].relation == db.txs[j].relation && db.txs[i].related == db.txs[j].related)
  }

  /** The event a version names has happened. */
  ghost predicate SourceKnown(db: Db, g: nat, source: Source) {
    match source
    case FromLineage(e) => exists i: nat :: i < |db.lineage| && db.lineage[i].grant == g && db.lineage[i].entry == e
    case FromAllocation(a) => a < |db.allocations|
    case FromVoid(h) => h < |db.holds| && db.holds[h].state == Voided
  }

  /** Versions count up from 1, satisfy every CHECK and name distinct events. */
  ghost predicate ChainOk(chain: seq<Version>) {
    && (forall i: nat :: i < |chain| ==> chain[i].number == i + 1 && CapacityOk(chain[i].capacity))
    && (forall i: nat, j: nat :: i < j < |chain| ==> chain[i].source != chain[j].source)
  }

  ghost predicate ChainKnown(db: Db, g: nat)
    requires g < |db.chains|
  {
    forall i: nat :: i < |db.chains[g]| ==> SourceKnown(db, g, db.chains[g][i].source)
  }

  ghost predicate Chained(db: Db) {
    forall g: nat :: g < |db.chains| ==> ChainOk(db.chains[g]) && ChainKnown(db, g)
  }

  /** The incremental chain refines the declarative sums. */
  ghost predicate Exact(db: Db) {
    forall g: nat :: g < |db.chains| ==> Current(db, g) == Totals(db, g)
  }

  ghost predicate HoldsCapped(db: Db) {
    forall g: nat, h: nat :: ConsumedThrough(db, g, h) <= AllocatedTo(db, g, h)
  }

  ghost predicate ReversalsCapped(db: Db) {
    forall g: nat, r: nat :: r < |db.txs| && db.txs[r].related.Some? ==>
      TxSum(db, g, Compensation, r) <= TxSum(db, g, Consumption, db.txs[r].related.value)
  }

  ghost predicate Inv(db: Db) {
    && Refs(db) && Links(db) && RelationUnique(db) && Chained(db)
    && Exact(db) && HoldsCapped(db) && ReversalsCapped(db)
  }

  // ----- laws of the filtered sums

  lemma LineageSumAppend(rows: seq<Lineage>, row: Lineage, p: Lineage -> bool)
    ensures LineageSum(rows + [row], p) == LineageSum(rows, p) + if p(row) then row.amount else 0
  {
    SumSame(|rows|, LineageTerm(rows + [row], p), LineageTerm(rows, p));
  }

  lemma LineageSumSame(rows: seq<Lineage>, p: Lineage -> bool, q: Lineage -> bool)
    requires forall i: nat :: i < |rows| ==> p(rows[i]) == q(rows[i])
    ensures LineageSum(rows, p) == LineageSum(rows, q)
  {
    SumSame(|rows|, LineageTerm(rows, p), LineageTerm(rows, q));
  }

  lemma LineageSumPositive(rows: seq<Lineage>, p: Lineage -> bool)
    requires forall i: nat :: i < |rows| ==> rows[i].amount > 0
    ensures LineageSum(rows, p) >= 0
    ensures LineageSum(rows, p) == 0 <==> forall i: nat :: i < |rows| ==> !p(rows[i])
  {
    var f := LineageTerm(rows, p);
    SumNonNegative(|rows|, f);
    if i: nat :| i < |rows| && p(rows[i]) {
      TermAtMostSum(|rows|, f, i);
    } else {
      SumZero(|rows|, f);
    }
  }

  lemma AllocationSumAppend(rows: seq<Allocation>, row: Allocation, p: Allocation -> bool)
    ensures AllocationSum(rows + [row], p) == AllocationSum(rows, p) + if p(row) then row.amount else 0
  {
    SumSame(|rows|, AllocationTerm(rows + [row], p), AllocationTerm(rows, p));
  }

  lemma AllocationSumSame(rows: seq<Allocation>, p: Allocation -> bool, q: Allocation -> bool)
    requires forall i: nat :: i < |rows| ==> p(rows[i]) == q(rows[i])
    ensures AllocationSum(rows, p) == AllocationSum(rows, q)
  {
    SumSame(|rows|, AllocationTerm(rows, p), AllocationTerm(rows, q));
  }

  lemma AllocationSumPositive(rows: seq<Allocation>, p: Allocation -> bool)
    requires forall i: nat :: i < |rows| ==> rows[i].amount > 0
    ensures AllocationSum(rows, p) >= 0
    ensures AllocationSum(rows, p) == 0 <==> forall i: nat :: i < |rows| ==> !p(rows[i])
  {
    var f := AllocationTerm(rows, p);
    SumNonNegative(|rows|, f);
    if i: nat :| i < |rows| && p(rows[i]) {
      TermAtMostSum(|rows|, f, i);
    } else {
      SumZero(|rows|, f);
    }
  }

  /** A grant's sums are non-negative, and zero for a grant or hold no row names. */
  lemma SumsNonNegative(db: Db, g: nat)
    requires Links(db)
    ensures forall k :: KindSum(db, g, k) >= 0
    ensures forall k, t: nat :: TxSum(db, g, k, t) >= 0
    ensures forall h: nat :: ConsumedThrough(db, g, h) >= 0 && AllocatedTo(db, g, h) >= 0
    ensures g >= |db.grants| ==> (forall k :: KindSum(db, g, k) == 0) && (forall h: nat :: AllocatedTo(db, g, h) == 0)
  {
    forall k ensures KindSum(db, g, k) >= 0 && (g >= |db.grants| ==> KindSum(db, g, k) == 0) {
      LineageSumPositive(db.lineage, OfKind(g, k));
    }
    forall k, t: nat ensures TxSum(db, g, k, t) >= 0 {
      LineageSumPositive(db.lineage, OfKindInTx(db, g, k, t));
    }
    forall h: nat
      ensures ConsumedThrough(db, g, h) >= 0 && AllocatedTo(db, g, h) >= 0
              && (g >= |db.grants| ==> AllocatedTo(db, g, h) == 0)
    {
      LineageSumPositive(db.lineage, ThroughHold(db, g, h));
      AllocationSumPositive(db.allocations, ToHold(db, g, h));
    }
  }

  lemma ReservedCovers(db: Db, g: nat, h: nat)
    requires Links(db) && HoldsCapped(db)
    ensures Reserved(db, g) >= 0
    ensures h < |db.holds| && db.holds[h].state != Voided ==> Unconsumed(db, g, h) <= Reserved(db, g)
  {
    SumNonNegative(|db.holds|, Outstanding(db, g));
    if h < |db.holds| {
      TermAtMostSum(|db.holds|, Outstanding(db, g), h);
    }
  }

  // ----- statements that only add rows the sums do not read

  /** db' adds rows to the tables that lineage and allocations refer to, and touches nothing else. */
  ghost predicate Frames(db: Db, db': Db) {
    && db.accounts <= db'.accounts && db.txs <= db'.txs && db.entries <= db'.entries && db.grants <= db'.grants
    && db.holds <= db'.holds && db.holdEntries <= db'.holdEntries
    && db'.lineage == db.lineage && db'.allocations == db.allocations && db.chains <= db'.chains
    && (forall g: nat :: |db.chains| <= g < |db'.chains| ==> db'.chains[g] == [])
  }

  lemma FramedSums(db: Db, db': Db, g: nat)
    requires Refs(db) && Links(db) && Frames(db, db')
    ensures forall k :: KindSum(db', g, k) == KindSum(db, g, k)
    ensures forall k, t: nat :: TxSum(db', g, k, t) == TxSum(db, g, k, t)
    ensures forall h: nat :: ConsumedThrough(db', g, h) == ConsumedThrough(db, g, h)
    ensures forall h: nat :: AllocatedTo(db', g, h) == AllocatedTo(db, g, h)
  {
    assert forall i: nat :: i < |db.lineage| ==> TxOf(db', db.lineage[i].entry) == TxOf(db, db.lineage[i].entry);
    forall k, t: nat ensures TxSum(db', g, k, t) == TxSum(db, g, k, t) {
      LineageSumSame(db.lineage, OfKindInTx(db', g, k, t), OfKindInTx(db, g, k, t));
    }
    forall h: nat ensures ConsumedThrough(db', g, h) == ConsumedThrough(db, g, h) {
      LineageSumSame(db.lineage, ThroughHold(db', g, h), ThroughHold(db, g, h));
    }
    forall h: nat ensures AllocatedTo(db', g, h) == AllocatedTo(db, g, h) {
      AllocationSumSame(db.allocations, ToHold(db', g, h), ToHold(db, g, h));
    }
  }

  /** No row refers to a transaction or hold that does not exist yet. */
  lemma NothingAhead(db: Db, g: nat)
    requires Refs(db) && Links(db)
    ensures forall k, t: nat :: t >= |db.txs| ==> TxSum(db, g, k, t) == 0
    ensures forall h: nat :: h >= |db.holds| ==> ConsumedThrough(db, g, h) == 0 && AllocatedTo(db, g, h) == 0
  {
    forall k, t: nat | t >= |db.txs| ensures TxSum(db, g, k, t) == 0 {
      LineageSumPositive(db.lineage, OfKindInTx(db, g, k, t));
    }
    forall h: nat | h >= |db.holds| ensures ConsumedThrough(db, g, h) == 0 && AllocatedTo(db, g, h) == 0 {
      LineageSumPositive(db.lineage, ThroughHold(db, g, h));
      AllocationSumPositive(db.allocations, ToHold(db, g, h));
    }
  }

  lemma FramedTotals(db: Db, db': Db, g: nat)
    requires Refs(db) && Links(db) && Frames(db, db')
    ensures Totals(db', g) == Totals(db, g)
  {
    FramedSums(db, db', g);
    NothingAhead(db, g);
    SumPadded(|db.holds|, |db'.holds|, Outstanding(db, g), Outstanding(db', g));
  }

  lemma FrameKeepsInv(db: Db, db': Db)
    requires Inv(db) && Frames(db, db') && Refs(db') && RelationUnique(db')
    ensures Inv(db')
  {
    forall g: nat | g < |db'.chains| ensures Current(db', g) == Totals(db', g) {
      FramedTotals(db, db', g);
      if g >= |db.chains| {
        SumsNonNegative(db, g);
        SumZero(|db.holds|, Outstanding(db, g)) by {
          forall h: nat ensures ConsumedThrough(db, g, h) == 0 {
            LineageSumPositive(db.lineage, ThroughHold(db, g, h));
          }
        }
      }
    }
    forall g: nat, h: nat ensures ConsumedThrough(db', g, h) <= AllocatedTo(db', g, h) {
      FramedSums(db, db', g);
      assert ConsumedThrough(db, g, h) <= AllocatedTo(db, g, h);
    }
    forall g: nat, r: nat | r < |db'.txs| && db'.txs[r].related.Some?
      ensures TxSum(db', g, Compensation, r) <= TxSum(db', g, Consumption, db'.txs[r].related.value)
    {
      FramedSums(db, db', g);
      NothingAhead(db, g);
      SumsNonNegative(db, g);
    }
    FrameKeepsChains(db, db');
  }

  lemma FrameKeepsChains(db: Db, db': Db)
    requires Chained(db) && Frames(db, db')
    ensures Chained(db')
  {
    forall g: nat | g < |db'.chains| ensures ChainOk(db'.chains[g]) && ChainKnown(db', g) {
      if g < |db.chains| {
        assert ChainOk(db.chains[g]) && ChainKnown(db, g);
        forall i: nat | i < |db'.chains[g]| ensures SourceKnown(db', g, db'.chains[g][i].source) {
          assert SourceKnown(db, g, db.chains[g][i].source);
        }
      }
    }
  }
}
