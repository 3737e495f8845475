/**
 Which rows get in, told from the history of a grant instead of its counters: for each kind of lineage
 and for allocations the sums of earlier rows and plain comparisons of times that decide, both ways.
 */
module Decisions {
  import opened Sums
  import opened Tables
  import opened Engine
  import opened Invariant
  import opened Preservation

  // ----- the history of a grant

  /** Issued and given back, less everything taken. */
  function Unspent(db: Db, g: nat): int {
    KindSum(db, g, Issuance) + KindSum(db, g, Compensation) - KindSum(db, g, Consumption)
    - KindSum(db, g, Reversal) - KindSum(db, g, Refund) - KindSum(db, g, Expiration)
  }

  /** What no HELD or APPLIED hold has set aside of that. */
  function Free(db: Db, g: nat): int {
    Unspent(db, g) - Reserved(db, g)
  }

  /** The newest version of a grant, counter by counter, is its history. */
  lemma CountersTell(db: Db, g: nat)
    requires Inv(db) && g < |db.chains|
    ensures Current(db, g).granted == KindSum(db, g, Issuance) && Current(db, g).consumed == KindSum(db, g, Consumption)
    ensures Current(db, g).reversed == KindSum(db, g, Reversal) + KindSum(db, g, Refund)
    ensures Current(db, g).compensated == KindSum(db, g, Compensation)
    ensures Current(db, g).expired == KindSum(db, g, Expiration)
    ensures Current(db, g).remaining == Unspent(db, g) && Current(db, g).reserved == Reserved(db, g)
  {
    assert Current(db, g) == Totals(db, g);
  }

  // ----- the row by itself

  /** Grant and posting exist, are of one account and one asset, and the row takes no more than the posting has. */
  predicate Fits(db: Db, row: Lineage) {
    && row.grant < |db.grants| && row.entry < |db.entries|
    && var g, e := db.grants[row.grant], db.entries[row.entry];
    && g.account == row.account && e.account == row.account && row.account < |db.accounts| && e.tx < |db.txs|
    && e.asset == db.accounts[row.account].asset && db.txs[e.tx].asset == e.asset
    && 0 < row.amount && (row.amount <= e.amount || row.amount <= -e.amount)
  }

  /** The grant has no row on that posting yet. */
  predicate Unused(db: Db, row: Lineage) {
    forall i: nat :: i < |db.lineage| && db.lineage[i].entry == row.entry ==> db.lineage[i].grant != row.grant
  }

  predicate NoneOfKind(db: Db, g: nat, k: Kind) {
    forall i: nat :: i < |db.lineage| && db.lineage[i].grant == g ==> db.lineage[i].kind != k
  }

  predicate Inserted(db: Db, now: int, row: Lineage) {
    Statement(db, now, InsertLineage(row)).outcome == Accepted
  }

  lemma InvalidRefused(db: Db, now: int, row: Lineage)
    requires !LineageValid(db, now, row)
    ensures DoInsertLineage(db, now, row).outcome == Rejected(Invalid)
  {
  }

  lemma Decided(db: Db, now: int, row: Lineage)
    requires Inv(db)
    ensures Inserted(db, now, row) <==> LineageValid(db, now, row)
  {
    InsertedIs(db, now, row);
    if LineageValid(db, now, row) {
      LineageFits(db, now, row);
    } else {
      InvalidRefused(db, now, row);
    }
  }

  lemma InsertedIs(db: Db, now: int, row: Lineage)
    ensures Inserted(db, now, row) <==> DoInsertLineage(db, now, row).outcome == Accepted
  {
  }

  /** Nothing else is ever accepted. */
  lemma OnlyFitting(db: Db, now: int, row: Lineage)
    requires Inv(db) && Inserted(db, now, row)
    ensures Fits(db, row) && Unused(db, row)
  {
    Decided(db, now, row);
  }

  // ----- each kind

  /** Spending outside a hold: a debit within what is free, before the grant expires by both clocks. */
  lemma ConsumptionDecided(db: Db, now: int, row: Lineage)
    requires Inv(db) && row.kind == Consumption && Fits(db, row) && db.txs[db.entries[row.entry].tx].hold == None
    ensures var x, e := db.grants[row.grant].expiresAt, db.entries[row.entry];
            Inserted(db, now, row) <==>
            && Unused(db, row) && e.amount > 0 && row.amount <= Free(db, row.grant)
            && (x.Some? ==> now < x.value && db.txs[e.tx].effectiveAt < x.value)
  {
    Decided(db, now, row);
    CountersTell(db, row.grant);
  }

  /** What a HELD hold has left of a grant is within what the grant has left. */
  lemma CaptureWithin(db: Db, g: nat, h: nat)
    requires Inv(db) && g < |db.chains| && h < |db.holds| && db.holds[h].state == Held
    ensures AllocatedTo(db, g, h) - ConsumedThrough(db, g, h) <= Current(db, g).remaining
  {
    CountersTell(db, g);
    CurrentOk(db, g);
    ReservedCovers(db, g, h);
  }

  lemma CaptureKind(db: Db, now: int, row: Lineage, h: nat)
    requires Fits(db, row) && row.grant < |db.chains| && row.kind == Consumption
    requires db.txs[db.entries[row.entry].tx].hold == Some(h) && ConsumedThrough(db, row.grant, h) >= 0
    requires h < |db.holds| && db.holds[h].state == Held ==>
               AllocatedTo(db, row.grant, h) - ConsumedThrough(db, row.grant, h) <= Current(db, row.grant).remaining
    ensures KindValid(db, now, row) <==>
            && db.entries[row.entry].amount > 0 && h < |db.holds| && db.holds[h].state == Held
            && row.amount <= AllocatedTo(db, row.grant, h) - ConsumedThrough(db, row.grant, h)
  {
  }

  /** Spending through a hold: a debit within what the hold has left of the grant, while it is HELD, at any time. */
  lemma CaptureDecided(db: Db, now: int, row: Lineage, h: nat)
    requires Inv(db) && row.kind == Consumption && Fits(db, row) && db.txs[db.entries[row.entry].tx].hold == Some(h)
    ensures Inserted(db, now, row) <==>
            && Unused(db, row) && db.entries[row.entry].amount > 0
            && h < |db.holds| && db.holds[h].state == Held
            && row.amount <= AllocatedTo(db, row.grant, h) - ConsumedThrough(db, row.grant, h)
  {
    Decided(db, now, row);
    SumsNonNegative(db, row.grant);
    if h < |db.holds| && db.holds[h].state == Held {
      CaptureWithin(db, row.grant, h);
    }
    CaptureKind(db, now, row, h);
  }

  /** Issuing: once, the whole of a credit of the source transaction, before the grant expires. */
  lemma IssuanceDecided(db: Db, now: int, row: Lineage)
    requires Inv(db) && row.kind == Issuance && Fits(db, row)
    ensures var g, e := db.grants[row.grant], db.entries[row.entry];
            Inserted(db, now, row) <==>
            && Unused(db, row) && NoneOfKind(db, row.grant, Issuance)
            && e.tx == g.source && e.amount == -row.amount && (g.expiresAt.Some? ==> now < g.expiresAt.value)
  {
    Decided(db, now, row);
  }

  /** Credits of transaction t to account a among the first n postings. */
  function CreditedTo(db: Db, t: nat, a: nat, n: nat): int
    requires n <= |db.entries|
  {
    if n == 0 then 0
    else
      var e := db.entries[n - 1];
      CreditedTo(db, t, a, n - 1) + if e.tx == t && e.account == a && e.amount < 0 then -e.amount else 0
  }

  lemma {:induction false} CreditsAre(db: Db, t: nat, a: nat, n: nat)
    requires n <= |db.entries|
    ensures CreditedTo(db, t, a, n) == SumTo(n, Magnitude(db.entries, PostedBy(db, t, a, false)))
  {
    if n > 0 {
      CreditsAre(db, t, a, n - 1);
    }
  }

  function Credited(db: Db, t: nat, a: nat): int {
    CreditedTo(db, t, a, |db.entries|)
  }

  lemma FundingIs(db: Db, t: nat, a: nat)
    ensures FundingCredit(db, t, a) == Credited(db, t, a)
  {
    CreditsAre(db, t, a, |db.entries|);
  }

  /** Expiring: the whole of a debit within what is free, for the funding account, once expired by both clocks. */
  lemma ExpirationDecided(db: Db, now: int, row: Lineage)
    requires Inv(db) && row.kind == Expiration && Fits(db, row)
    ensures var g, e := db.grants[row.grant], db.entries[row.entry];
            Inserted(db, now, row) <==>
            && Unused(db, row) && e.amount == row.amount && row.amount <= Free(db, row.grant)
            && Credited(db, e.tx, g.funding) == row.amount
            && g.expiresAt.Some? && g.expiresAt.value <= now && g.expiresAt.value <= db.txs[e.tx].effectiveAt
  {
    Decided(db, now, row);
    CountersTell(db, row.grant);
    FundingIs(db, db.entries[row.entry].tx, db.grants[row.grant].funding);
  }

  /** Refunding: the same before expiry, in a transaction without hold or relation. */
  lemma RefundDecided(db: Db, now: int, row: Lineage)
    requires Inv(db) && row.kind == Refund && Fits(db, row)
    ensures var g, e := db.grants[row.grant], db.entries[row.entry];
            var t := db.txs[e.tx];
            Inserted(db, now, row) <==>
            && Unused(db, row) && e.amount == row.amount && row.amount <= Free(db, row.grant)
            && Credited(db, e.tx, g.funding) == row.amount && t.hold == None && t.relation == None && t.related == None
            && (g.expiresAt.Some? ==> now < g.expiresAt.value && t.effectiveAt < g.expiresAt.value)
  {
    Decided(db, now, row);
    CountersTell(db, row.grant);
    FundingIs(db, db.entries[row.entry].tx, db.grants[row.grant].funding);
  }

  /** Giving back: a credit of a reversal, up to what the reversed transaction consumed of the grant, at any time. */
  lemma CompensationDecided(db: Db, now: int, row: Lineage)
    requires Inv(db) && row.kind == Compensation && Fits(db, row)
    ensures var e := db.entries[row.entry];
            var t := db.txs[e.tx];
            Inserted(db, now, row) <==>
            && Unused(db, row) && e.amount < 0 && t.relation == Some(Reverses) && t.related.Some?
            && TxSum(db, row.grant, Compensation, e.tx) + row.amount <=
               TxSum(db, row.grant, Consumption, t.related.value)
  {
    Decided(db, now, row);
    SumsNonNegative(db, row.grant);
    assert RelationPaired(db.txs[db.entries[row.entry].tx]);
  }

  /**
   Reversing a grant: once, the whole of a debit, all that was issued and nothing of it used; in the
   reversal of the source transaction, or in a transaction without relation.
   */
  lemma ReversalDecided(db: Db, now: int, row: Lineage)
    requires Inv(db) && row.kind == Reversal && Fits(db, row)
    ensures var e := db.entries[row.entry];
            var t := db.txs[e.tx];
            Inserted(db, now, row) <==>
            && Unused(db, row) && NoneOfKind(db, row.grant, Reversal) && e.amount == row.amount
            && row.amount == KindSum(db, row.grant, Issuance) == Unspent(db, row.grant)
            && KindSum(db, row.grant, Consumption) == 0 && KindSum(db, row.grant, Expiration) == 0
            && Reserved(db, row.grant) == 0
            && ((t.relation == Some(Reverses) && t.related == Some(db.grants[row.grant].source)) || t.relation == None)
  {
    Decided(db, now, row);
    CountersTell(db, row.grant);
    assert RelationPaired(db.txs[db.entries[row.entry].tx]);
  }

  /** Setting aside: for a held debit of a HELD hold, within what is free, before the grant expires, once. */
  lemma AllocationDecided(db: Db, now: int, row: Allocation)
    requires Inv(db)
    ensures Statement(db, now, InsertAllocation(row)).outcome == Accepted <==>
            && row.amount > 0 && row.grant < |db.grants| && row.holdEntry < |db.holdEntries|
            && var g, he := db.grants[row.grant], db.holdEntries[row.holdEntry];
            && g.account == row.account && he.account == row.account && he.amount > 0
            && he.hold < |db.holds| && db.holds[he.hold].state == Held
            && row.amount <= Free(db, row.grant) && (g.expiresAt.Some? ==> now < g.expiresAt.value)
            && forall i: nat :: i < |db.allocations| && db.allocations[i].grant == row.grant ==>
                 db.allocations[i].holdEntry != row.holdEntry
  {
    if row.grant < |db.grants| {
      CountersTell(db, row.grant);
    }
    if AllocationValid(db, now, row) {
      AllocationFits(db, now, row);
    }
  }

  /** Updating a hold: from HELD only, to a smaller positive remainder, to APPLIED or to VOIDED with its time. */
  lemma UpdateDecided(db: Db, now: int, h: nat, row: Hold)
    requires Inv(db)
    ensures Statement(db, now, UpdateHold(h, row)).outcome == Accepted <==>
            && h < |db.holds| && db.holds[h].state == Held && row.original == db.holds[h].original
            && (|| (row.state == Held && 0 < row.remaining < db.holds[h].remaining
                    && row.appliedAt == None && row.voidedAt == None)
                || (row.state == Applied && row.remaining == 0 && row.appliedAt.Some? && row.voidedAt == None)
                || (row.state == Voided && row.remaining == 0 && row.appliedAt == None && row.voidedAt.Some?))
  {
    if h < |db.holds| && HoldAdvances(db.holds[h], row) && row.state == Voided {
      UpdateFits(db, h, row);
    }
  }

  // ----- around the moment of expiry

  /**
   A grant that expires at x and a transaction that began then: up to x - 1 whatever is free may be spent
   and nothing may be expired, from x on nothing may be spent and it may be expired.
   */
  lemma ExpiryTurns(db: Db, now: int, spent: Lineage, lapsed: Lineage, x: int)
    requires Inv(db) && spent.kind == Consumption && lapsed.kind == Expiration && spent.grant == lapsed.grant
    requires Fits(db, spent) && Unused(db, spent) && spent.amount <= Free(db, spent.grant)
    requires Fits(db, lapsed) && Unused(db, lapsed) && lapsed.amount <= Free(db, lapsed.grant)
    requires db.grants[spent.grant].expiresAt == Some(x)
    requires var e := db.entries[spent.entry];
             e.amount > 0 && db.txs[e.tx].hold == None && db.txs[e.tx].effectiveAt < x
    requires var e := db.entries[lapsed.entry];
             && e.amount == lapsed.amount && db.txs[e.tx].effectiveAt >= x
             && Credited(db, e.tx, db.grants[lapsed.grant].funding) == lapsed.amount
    ensures Inserted(db, now, spent) <==> now <= x - 1
    ensures Inserted(db, now, lapsed) <==> now >= x
  {
    ConsumptionDecided(db, now, spent);
    ExpirationDecided(db, now, lapsed);
  }

  // ----- the plain inserts

  /**
   A transaction needs its hold to exist; with both halves of a relation, to an earlier transaction or to
   itself, that no other transaction has taken that relation to it; with one half alone it is refused.
   */
  lemma TransactionDecided(db: Db, now: int, tx: Transaction)
    ensures Statement(db, now, InsertTransaction(tx)).outcome == Accepted <==>
            && (tx.hold == None || tx.hold.value < |db.holds|)
            && (|| (tx.related == None && tx.relation == None)
                || (tx.related.Some? && tx.relation.Some? && tx.related.value <= |db.txs| &&
                    forall i: nat :: i < |db.txs| && db.txs[i].related == tx.related ==>
                      db.txs[i].relation != tx.relation))
  {
  }

  /** So of one transaction one reversal and one correction get in, in either order, and neither twice. */
  lemma OneOfEach(db: Db, now: int, t: nat, relation: Relation, other: Relation, at: int, asset: nat)
    requires t < |db.txs| && relation != other
    requires forall i: nat :: i < |db.txs| ==> db.txs[i].related != Some(t)
    ensures var one := InsertTransaction(Transaction(None, Some(t), Some(relation), at, asset));
            var two := InsertTransaction(Transaction(None, Some(t), Some(other), at, asset));
            var first := Statement(db, now, one);
            && first.outcome == Accepted && Statement(first.db, now, one).outcome != Accepted
            && Statement(first.db, now, two).outcome == Accepted
  {
    var first := Statement(db, now, InsertTransaction(Transaction(None, Some(t), Some(relation), at, asset)));
    assert first.db.txs[|db.txs|].related == Some(t);
  }

  /** A grant needs a capable account, another account that funds it, and a source no other grant has. */
  lemma GrantDecided(db: Db, now: int, g: Grant)
    ensures Statement(db, now, InsertGrant(g)).outcome == Accepted <==>
            && g.account < |db.accounts| && db.accounts[g.account].grantEnabled
            && g.funding < |db.accounts| && g.funding != g.account && g.source < |db.txs|
            && (forall i: nat :: i < |db.grants| ==> db.grants[i].source != g.source)
            && (g.expiresAt != None ==> forall i: nat :: i < |db.grants| ==> db.grants[i].account != g.funding)
  {
  }

  /** The shape of accounts and grants in every reachable state. */
  ghost predicate Shaped(db: Db) {
    && (forall a: nat :: a < |db.accounts| && db.accounts[a].grantEnabled ==>
          db.accounts[a].side == CreditSide && !db.accounts[a].mayOverdraw)
    && (forall g: nat :: g < |db.grants| ==>
          && db.grants[g].account != db.grants[g].funding
          && db.grants[g].account < |db.accounts| && db.accounts[db.grants[g].account].grantEnabled)
    && (forall i: nat, j: nat :: i < j < |db.grants| ==>
          && db.grants[i].source != db.grants[j].source
          && (db.grants[j].expiresAt != None ==> db.grants[i].account != db.grants[j].funding))
  }

  lemma StatementKeepsShape(db: Db, now: int, op: Op)
    requires Shaped(db) && RowOp(op)
    ensures Shaped(Statement(db, now, op).db)
  {
    match op
    case InsertLineage(row) => assert DoInsertLineage(db, now, row).db.accounts == db.accounts;
    case InsertAllocation(row) => assert DoInsertAllocation(db, now, row).db.accounts == db.accounts;
    case UpdateHold(h, row) => assert DoUpdateHold(db, h, row).db.accounts == db.accounts;
    case _ =>
  }

  /**
   Over every run: grant-enabled accounts are credit accounts that may not be overdrawn, every grant has
   a source of its own, and no expiring grant is funded from an account that had a grant already.
   */
  lemma {:induction false} ShapeOverRuns(now: int, ops: seq<Op>)
    ensures Shaped(Run(Begin(EMPTY, now), ops).base) && Shaped(Run(Begin(EMPTY, now), ops).cur)
    decreases |ops|
  {
    if ops != [] {
      var s, op := Run(Begin(EMPTY, now), ops[..|ops| - 1]), ops[|ops| - 1];
      ShapeOverRuns(now, ops[..|ops| - 1]);
      if RowOp(op) {
        StatementKeepsShape(s.cur, s.now, op);
      }
    }
  }

  /** Accounts, postings, holds and held entries: what is asked of them, and no more. */
  lemma PlainDecided(db: Db, now: int, account: Account, entry: Entry, hold: Hold, held: HoldEntry)
    ensures Statement(db, now, InsertAccount(account)).outcome == Accepted <==>
            !account.grantEnabled || (account.side == CreditSide && !account.mayOverdraw)
    ensures Statement(db, now, InsertEntry(entry)).outcome == Accepted <==>
            entry.amount != 0 && entry.tx < |db.txs| && entry.account < |db.accounts|
    ensures Statement(db, now, InsertHold(hold)).outcome == Accepted <==>
            exists n: int :: n > 0 && hold == Hold(Held, n, n, None, None)
    ensures Statement(db, now, InsertHoldEntry(held)).outcome == Accepted <==>
            held.amount != 0 && held.hold < |db.holds| && held.account < |db.accounts|
  {
    if HoldStarts(hold) {
      assert hold == Hold(Held, hold.original, hold.original, None, None);
    }
  }
}
