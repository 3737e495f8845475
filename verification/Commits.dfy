/**
 What a commit adds to the statement invariant. The deferred triggers look only at rows the
 transaction touched, so each law below is carried from the previous committed state for the rest.
 */
module Commits {
  import opened Sums
  import opened Tables
  import opened Engine
  import opened Invariant
  import opened Preservation

  // ----- how the working state relates to the committed one

  /** A hold row is unchanged, or was HELD and has advanced. */
  predicate Evolves(was: Hold, row: Hold) {
    row.original == was.original && (row == was || (was.state == Held && row.remaining < was.remaining))
  }

  ghost predicate Grows(base: Db, cur: Db) {
    && base.accounts <= cur.accounts && base.txs <= cur.txs && base.entries <= cur.entries
    && base.grants <= cur.grants && base.lineage <= cur.lineage
    && base.holdEntries <= cur.holdEntries && base.allocations <= cur.allocations
    && |base.holds| <= |cur.holds| && (forall h: nat :: h < |base.holds| ==> Evolves(base.holds[h], cur.holds[h]))
    && |base.chains| <= |cur.chains| && (forall g: nat :: g < |base.chains| ==> base.chains[g] <= cur.chains[g])
  }

  /** Every row the transaction inserted or updated has its trigger firings queued. */
  ghost predicate Queued(s: Session) {
    && (forall e: nat :: |s.base.entries| <= e < |s.cur.entries| ==> EntryPosted(e) in s.queue)
    && (forall i: nat :: |s.base.lineage| <= i < |s.cur.lineage| ==> LineageWritten(i) in s.queue)
    && (forall a: nat :: |s.base.allocations| <= a < |s.cur.allocations| ==> AllocationMade(a) in s.queue)
    && (forall he: nat :: |s.base.holdEntries| <= he < |s.cur.holdEntries| ==> HoldEntryAdded(he) in s.queue)
    && (forall h: nat :: h < |s.cur.holds| && (h >= |s.base.holds| || s.cur.holds[h] != s.base.holds[h]) ==>
          HoldTouched(h) in s.queue)
  }

  /** No row has been deleted: the statements of the engine insert rows and update holds. */
  ghost predicate Solid(db: Db) {
    && (forall e: nat :: e < |db.entries| ==> db.entries[e].amount != 0)
    && (forall he: nat :: he < |db.holdEntries| ==> db.holdEntries[he].amount != 0)
  }

  ghost predicate Open(s: Session) {
    SessionInv(s) && Solid(s.base) && Solid(s.cur) && Grows(s.base, s.cur) && Queued(s)
  }

  lemma StatementKeepsSolid(db: Db, now: int, op: Op)
    requires Solid(db) && RowOp(op)
    ensures Solid(Statement(db, now, op).db)
  {
  }

  lemma UpdateGrows(db: Db, h: nat, row: Hold)
    requires Refs(db)
    ensures Grows(db, DoUpdateHold(db, h, row).db)
  {
    if h < |db.holds| && HoldAdvances(db.holds[h], row) {
      assert HoldRowOk(db.holds[h]);
      assert Evolves(db.holds[h], row);
    }
  }

  lemma LineageGrows(db: Db, now: int, row: Lineage)
    ensures Grows(db, DoInsertLineage(db, now, row).db)
  {
  }

  lemma AllocationGrows(db: Db, now: int, row: Allocation)
    ensures Grows(db, DoInsertAllocation(db, now, row).db)
  {
  }

  lemma StatementGrows(db: Db, now: int, op: Op)
    requires Refs(db) && RowOp(op)
    ensures Grows(db, Statement(db, now, op).db)
  {
    match op
    case UpdateHold(h, row) => UpdateGrows(db, h, row);
    case InsertLineage(row) => LineageGrows(db, now, row);
    case InsertAllocation(row) => AllocationGrows(db, now, row);
    case _ =>
  }

  lemma GrowsTransitive(a: Db, b: Db, c: Db)
    requires Grows(a, b) && Grows(b, c)
    ensures Grows(a, c)
  {
    forall h: nat | h < |a.holds| ensures Evolves(a.holds[h], c.holds[h]) {
      assert Evolves(a.holds[h], b.holds[h]) && Evolves(b.holds[h], c.holds[h]);
    }
    forall g: nat | g < |a.chains| ensures a.chains[g] <= c.chains[g] {
      assert a.chains[g] <= b.chains[g] <= c.chains[g];
    }
  }

  lemma ExecQueue(s: Session, op: Op)
    requires RowOp(op)
    ensures Exec(s, op).0.queue == s.queue + Statement(s.cur, s.now, op).queued
  {
  }

  lemma UpdateQueues(s: Session, h: nat, row: Hold)
    requires Queued(s)
    ensures Queued(Exec(s, UpdateHold(h, row)).0)
  {
    var s' := Exec(s, UpdateHold(h, row)).0;
    ExecQueue(s, UpdateHold(h, row));
    forall q: nat | q < |s'.cur.holds| && (q >= |s'.base.holds| || s'.cur.holds[q] != s'.base.holds[q])
      ensures HoldTouched(q) in s'.queue
    {
      if s'.cur != s.cur && q == h {
        assert Statement(s.cur, s.now, UpdateHold(h, row)).queued[0] == HoldTouched(h);
      }
    }
  }

  /** A statement that changes a table queues the firings for what it changed. */
  lemma StatementQueues(s: Session, op: Op)
    requires RowOp(op) && Queued(s) && Grows(s.base, s.cur)
    ensures Queued(Exec(s, op).0)
  {
    ExecQueue(s, op);
    var queued := Statement(s.cur, s.now, op).queued;
    match op
    case UpdateHold(h, row) => UpdateQueues(s, h, row);
    case InsertEntry(e) => assert queued != [] ==> queued[0] == EntryPosted(|s.cur.entries|);
    case InsertLineage(row) => assert queued != [] ==> queued[0] == LineageWritten(|s.cur.lineage|);
    case InsertHold(row) => assert queued != [] ==> queued[0] == HoldTouched(|s.cur.holds|);
    case InsertHoldEntry(he) => assert queued != [] ==> queued[0] == HoldEntryAdded(|s.cur.holdEntries|);
    case InsertAllocation(row) => assert queued != [] ==> queued[0] == AllocationMade(|s.cur.allocations|);
    case _ =>
  }

  lemma ExecKeepsOpen(s: Session, op: Op)
    requires Open(s)
    ensures Open(Exec(s, op).0)
  {
    if RowOp(op) {
      StatementKeepsInv(s.cur, s.now, op);
      StatementKeepsSolid(s.cur, s.now, op);
      StatementGrows(s.cur, s.now, op);
      GrowsTransitive(s.base, s.cur, Exec(s, op).0.cur);
      StatementQueues(s, op);
    }
  }

  lemma BeginOpen(db: Db, now: int)
    requires Inv(db) && Solid(db)
    ensures Open(Begin(db, now))
  {
  }

  // ----- sums whose rows the transaction did not touch

  lemma AllocatedToEntryStays(base: Db, cur: Db, he: nat)
    requires base.allocations <= cur.allocations
    requires forall a: nat :: |base.allocations| <= a < |cur.allocations| ==> cur.allocations[a].holdEntry != he
    ensures AllocatedToEntry(cur, he) == AllocatedToEntry(base, he)
  {
    SumPadded(|base.allocations|, |cur.allocations|,
              AllocationTerm(base.allocations, ToHoldEntry(he)), AllocationTerm(cur.allocations, ToHoldEntry(he)));
  }

  lemma AttributedStays(base: Db, cur: Db, e: nat)
    requires base.lineage <= cur.lineage
    requires forall i: nat :: |base.lineage| <= i < |cur.lineage| ==> cur.lineage[i].entry != e
    ensures Attributed(cur, e) == Attributed(base, e)
  {
    SumPadded(|base.lineage|, |cur.lineage|, LineageTerm(base.lineage, OnEntry(e)),
              LineageTerm(cur.lineage, OnEntry(e)));
  }

  lemma HoldOfStays(base: Db, cur: Db)
    requires Refs(base) && Grows(base, cur)
    ensures forall e: nat :: e < |base.entries| ==> TxOf(cur, e) == TxOf(base, e) && HoldOf(cur, e) == HoldOf(base, e)
  {
  }

  /** The transaction neither posted to hold h nor added an entry to it. */
  ghost predicate Untouched(base: Db, cur: Db, h: nat) {
    && (forall e: nat :: |base.entries| <= e < |cur.entries| ==> HoldOf(cur, e) != Some(h))
    && (forall he: nat :: |base.holdEntries| <= he < |cur.holdEntries| ==> cur.holdEntries[he].hold != h)
  }

  lemma EntrySumStays(rows: seq<Entry>, more: seq<Entry>, p: nat -> bool, q: nat -> bool)
    requires rows <= more
    requires forall e: nat :: e < |rows| ==> p(e) == q(e)
    requires forall e: nat :: |rows| <= e < |more| ==> !q(e)
    ensures EntrySum(more, q) == EntrySum(rows, p)
  {
    SumPadded(|rows|, |more|, Magnitude(rows, p), Magnitude(more, q));
  }

  lemma HeldSumStays(rows: seq<HoldEntry>, more: seq<HoldEntry>, p: nat -> bool, q: nat -> bool)
    requires rows <= more
    requires forall e: nat :: e < |rows| ==> p(e) == q(e)
    requires forall e: nat :: |rows| <= e < |more| ==> !q(e)
    ensures HeldSum(more, q) == HeldSum(rows, p)
  {
    SumPadded(|rows|, |more|, HeldMagnitude(rows, p), HeldMagnitude(more, q));
  }

  lemma HoldSumsStay(base: Db, cur: Db, h: nat)
    requires Refs(base) && Grows(base, cur) && Untouched(base, cur, h)
    ensures forall debit ::
              Captured(cur, h, debit) == Captured(base, h, debit)
              && HeldTotal(cur, h, debit) == HeldTotal(base, h, debit)
    ensures forall a: nat, debit :: CapturedFrom(cur, h, a, debit) == CapturedFrom(base, h, a, debit)
    ensures forall a: nat, debit :: HeldFrom(cur, h, a, debit) == HeldFrom(base, h, a, debit)
  {
    HoldOfStays(base, cur);
    forall debit
      ensures Captured(cur, h, debit) == Captured(base, h, debit)
              && HeldTotal(cur, h, debit) == HeldTotal(base, h, debit)
    {
      EntrySumStays(base.entries, cur.entries, CapturedBy(base, h, debit), CapturedBy(cur, h, debit));
      HeldSumStays(base.holdEntries, cur.holdEntries, HeldBy(base, h, debit), HeldBy(cur, h, debit));
    }
    forall a: nat, debit ensures CapturedFrom(cur, h, a, debit) == CapturedFrom(base, h, a, debit) {
      EntrySumStays(base.entries, cur.entries, CapturedOn(base, h, a, debit), CapturedOn(cur, h, a, debit));
    }
    forall a: nat, debit ensures HeldFrom(cur, h, a, debit) == HeldFrom(base, h, a, debit) {
      HeldSumStays(base.holdEntries, cur.holdEntries, HeldOn(base, h, a, debit), HeldOn(cur, h, a, debit));
    }
  }

  lemma NoRowsNoSums(db: Db, h: nat, a: nat, debit: bool)
    requires Refs(db) && a >= |db.accounts|
    ensures CapturedFrom(db, h, a, debit) == 0 && HeldFrom(db, h, a, debit) == 0
  {
    SumZero(|db.entries|, Magnitude(db.entries, CapturedOn(db, h, a, debit)));
    SumZero(|db.holdEntries|, HeldMagnitude(db.holdEntries, HeldOn(db, h, a, debit)));
  }

  lemma PartsStay(base: Db, cur: Db, h: nat, a: nat, debit: bool)
    requires Refs(base) && Grows(base, cur) && Untouched(base, cur, h)
    ensures CapturedFrom(cur, h, a, debit) == CapturedFrom(base, h, a, debit)
    ensures HeldFrom(cur, h, a, debit) == HeldFrom(base, h, a, debit)
    ensures a >= |base.accounts| ==> CapturedFrom(cur, h, a, debit) == 0 && HeldFrom(cur, h, a, debit) == 0
  {
    HoldSumsStay(base, cur, h);
    if a >= |base.accounts| {
      NoRowsNoSums(base, h, a, debit);
    }
  }

  lemma SameProduct(x: int, m: int, y: int, n: int, x': int, y': int)
    requires x * m == y * n && x' == x && y' == y
    ensures x' * m == y' * n
  {
  }

  lemma ProportionStays(base: Db, cur: Db, h: nat, a: nat, debit: bool)
    requires Refs(base) && Grows(base, cur) && Untouched(base, cur, h)
    requires a < |base.accounts| ==> InProportion(base, h, a, debit)
    ensures InProportion(cur, h, a, debit)
  {
    HoldSumsStay(base, cur, h);
    PartsStay(base, cur, h, a, debit);
    if a < |base.accounts| {
      SameProduct(CapturedFrom(base, h, a, debit), HeldTotal(base, h, true), HeldFrom(base, h, a, debit),
                  Captured(base, h, true),
                  CapturedFrom(cur, h, a, debit), HeldFrom(cur, h, a, debit));
    }
  }

  lemma ConsistencyStays(base: Db, cur: Db, h: nat)
    requires Refs(base) && Grows(base, cur) && Untouched(base, cur, h)
    requires h < |base.holds| && cur.holds[h] == base.holds[h] && HoldConsistent(base, h)
    ensures HoldConsistent(cur, h)
  {
    if he: nat :| he < |cur.holdEntries| && OnGrantAccount(cur, h, he) {
      assert base.holdEntries[he] == cur.holdEntries[he];
      assert OnGrantAccount(base, h, he);
      HoldSumsStay(base, cur, h);
      forall a: nat, debit: bool | a < |cur.accounts| ensures InProportion(cur, h, a, debit) {
        ProportionStays(base, cur, h, a, debit);
      }
    }
  }

  // ----- holds in committed states

  /** Every held entry of a grant-enabled account is a debit covered by allocations exactly. */
  ghost predicate HoldsBacked(db: Db) {
    forall he: nat :: HoldEntryAllocated(db, he)
  }

  ghost predicate HoldsAgree(db: Db) {
    forall h: nat :: HoldConsistent(db, h)
  }

  lemma CommitBacks(s: Session)
    requires Open(s) && CommitPasses(s) && HoldsBacked(s.base)
    ensures HoldsBacked(s.cur)
  {
    var base, cur := s.base, s.cur;
    forall he: nat ensures HoldEntryAllocated(cur, he) {
      if he < |base.holdEntries| {
        assert HoldEntryAllocated(base, he);
        if a: nat :| |base.allocations| <= a < |cur.allocations| && cur.allocations[a].holdEntry == he {
          assert AllocationMade(a) in s.queue;
          assert AllocationTotal(cur, a);
          assert AllocationLinked(cur, cur.allocations[a]);
        } else {
          AllocatedToEntryStays(base, cur, he);
        }
      } else if he < |cur.holdEntries| {
        assert HoldEntryAdded(he) in s.queue;
      }
    }
  }

  lemma CommitAgrees(s: Session)
    requires Open(s) && CommitPasses(s) && HoldsAgree(s.base)
    ensures HoldsAgree(s.cur)
  {
    var base, cur := s.base, s.cur;
    forall h: nat ensures HoldConsistent(cur, h) {
      if h < |cur.holds| && HoldTouched(h) !in s.queue {
        if e: nat :| |base.entries| <= e < |cur.entries| && HoldOf(cur, e) == Some(h) {
          assert EntryPosted(e) in s.queue;
        } else if he: nat :| |base.holdEntries| <= he < |cur.holdEntries| && cur.holdEntries[he].hold == h {
          assert HoldEntryAdded(he) in s.queue;
        } else {
          assert HoldConsistent(base, h);
          ConsistencyStays(base, cur, h);
        }
      }
    }
  }

  /**
   What holds of every committed state, whatever rows the callers insert and holds they update. When
   they also edit rows that no trigger guards, Inv and HoldsBacked still hold, and Edits says when HoldsAgree does.
   */
  ghost predicate CommittedInv(db: Db) {
    Inv(db) && HoldsBacked(db) && HoldsAgree(db)
  }

  lemma ExecCommits(s: Session, op: Op)
    requires Open(s) && CommittedInv(s.base)
    ensures Open(Exec(s, op).0) && CommittedInv(Exec(s, op).0.base)
  {
    ExecKeepsOpen(s, op);
    if op.Commit? && CommitPasses(s) {
      CommitBacks(s);
      CommitAgrees(s);
    }
  }

  lemma NothingCommitted(now: int)
    ensures Open(Begin(EMPTY, now)) && CommittedInv(EMPTY)
  {
    EmptyHoldsInv();
    BeginOpen(EMPTY, now);
  }

  lemma {:induction false} RunCommits(now: int, ops: seq<Op>)
    ensures Open(Run(Begin(EMPTY, now), ops)) && CommittedInv(Run(Begin(EMPTY, now), ops).base)
  {
    if ops == [] {
      NothingCommitted(now);
    } else {
      RunCommits(now, ops[..|ops| - 1]);
      ExecCommits(Run(Begin(EMPTY, now), ops[..|ops| - 1]), ops[|ops| - 1]);
    }
  }

  // ----- attribution and reversals, for callers that post atomically

  /**
   Lineage is written in the transaction that posts its entry. The triggers do not enforce this:
   attribution is rechecked only when an entry is inserted.
   */
  predicate AttributesInTime(s: Session, op: Op) {
    op.InsertLineage? ==> op.lineage.entry >= |s.base.entries|
  }

  /** In addition, entries arrive in the transaction that inserts their ledger transaction. */
  predicate AtomicOp(s: Session, op: Op) {
    AttributesInTime(s, op) && (op.InsertEntry? ==> op.entry.tx >= |s.base.txs|)
  }

  ghost predicate AttributedRun(s: Session, ops: seq<Op>) {
    ops == [] || (AttributedRun(s, ops[..|ops| - 1]) && AttributesInTime(Run(s, ops[..|ops| - 1]), ops[|ops| - 1]))
  }

  ghost predicate AtomicRun(s: Session, ops: seq<Op>) {
    ops == [] || (AtomicRun(s, ops[..|ops| - 1]) && AtomicOp(Run(s, ops[..|ops| - 1]), ops[|ops| - 1]))
  }

  ghost predicate EntriesFresh(s: Session) {
    forall e: nat :: |s.base.entries| <= e < |s.cur.entries| ==> s.cur.entries[e].tx >= |s.base.txs|
  }

  ghost predicate LineageFresh(s: Session) {
    forall i: nat :: |s.base.lineage| <= i < |s.cur.lineage| ==> s.cur.lineage[i].entry >= |s.base.entries|
  }

  /** Every entry of a grant-enabled account is attributed in full. */
  ghost predicate FullyAttributed(db: Db) {
    forall e: nat :: e < |db.entries| && GrantEnabled(db, db.entries[e].account) ==>
      Attributed(db, e) == Abs(db.entries[e].amount)
  }

  /** As FullyAttributed, and every reversing entry mirrors the account's entries it reverses. */
  ghost predicate Mirrored(db: Db) {
    forall e: nat :: EntryAttributed(db, e)
  }

  ghost predicate Completed(db: Db) {
    forall i: nat :: CompensationComplete(db, i)
  }

  ghost predicate AtomicInv(db: Db) {
    CommittedInv(db) && Mirrored(db) && Completed(db)
  }

  /**
   A commit keeps every entry fully attributed if and only if it wrote no lineage for an entry that
   an earlier transaction had already posted.
   */
  lemma AttributionKept(s: Session)
    requires Open(s) && CommitPasses(s) && FullyAttributed(s.base)
    ensures FullyAttributed(s.cur) <==> LineageFresh(s)
  {
    var base, cur := s.base, s.cur;
    if LineageFresh(s) {
      forall e: nat | e < |cur.entries| && GrantEnabled(cur, cur.entries[e].account)
        ensures Attributed(cur, e) == Abs(cur.entries[e].amount)
      {
        if e < |base.entries| {
          AttributedStays(base, cur, e);
        } else {
          assert EntryPosted(e) in s.queue;
          assert EntryAttributed(cur, e);
        }
      }
    } else {
      var i: nat :| |base.lineage| <= i < |cur.lineage| && cur.lineage[i].entry < |base.entries|;
      LateLineageOverfills(base, cur, i);
    }
  }

  lemma LateLineageOverfills(base: Db, cur: Db, i: nat)
    requires Refs(base) && Refs(cur) && Links(cur) && Grows(base, cur) && FullyAttributed(base)
    requires |base.lineage| <= i < |cur.lineage| && cur.lineage[i].entry < |base.entries|
    ensures !FullyAttributed(cur)
  {
    var e := cur.lineage[i].entry;
    assert Linked(cur, cur.lineage[i]);
    assert forall j: nat :: j < |cur.lineage| ==> Linked(cur, cur.lineage[j]);
    var f, g := LineageTerm(base.lineage, OnEntry(e)), LineageTerm(cur.lineage, OnEntry(e));
    SumGrows(|base.lineage|, |cur.lineage|, f, g);
    assert Attributed(base, e) + g(i) <= Attributed(cur, e);
    assert base.entries[e] == cur.entries[e];
  }

  // ----- what later rows may do to a reversal: the exact conditions

  /** The transaction wrote lineage of this kind for grant g on entries of transaction t. */
  predicate Wrote(s: Session, g: nat, k: Kind, t: nat) {
    exists i: nat :: |s.base.lineage| <= i < |s.cur.lineage| && OfKindInTx(s.cur, g, k, t)(s.cur.lineage[i])
  }

  /** It posted an entry of transaction t to account a, on one side. */
  predicate Posted(s: Session, t: nat, a: nat, debit: bool) {
    exists e: nat :: |s.base.entries| <= e < |s.cur.entries| && PostedBy(s.cur, t, a, debit)(e)
  }

  lemma TxSumGrows(s: Session, g: nat, k: Kind, t: nat)
    requires Open(s)
    ensures TxSum(s.cur, g, k, t) >= TxSum(s.base, g, k, t)
    ensures TxSum(s.cur, g, k, t) == TxSum(s.base, g, k, t) <==> !Wrote(s, g, k, t)
  {
    var base, cur := s.base, s.cur;
    var f, f' :=
        LineageTerm(base.lineage, OfKindInTx(base, g, k, t)), LineageTerm(cur.lineage, OfKindInTx(cur, g, k, t));
    forall i: nat | i < |cur.lineage|
      ensures cur.lineage[i].amount > 0
      ensures i < |base.lineage| ==> f(i) == f'(i)
    {
      RowStays(base, cur, g, k, t, i);
    }
    GrownSum(s, g, k, t, f, f');
  }

  lemma RowStays(base: Db, cur: Db, g: nat, k: Kind, t: nat, i: nat)
    requires Refs(base) && Links(base) && Links(cur) && Grows(base, cur) && i < |cur.lineage|
    ensures cur.lineage[i].amount > 0
    ensures i < |base.lineage| ==>
              LineageTerm(base.lineage, OfKindInTx(base, g, k, t))(i) ==
                LineageTerm(cur.lineage, OfKindInTx(cur, g, k, t))(i)
  {
    assert Linked(cur, cur.lineage[i]);
    HoldOfStays(base, cur);
    if i < |base.lineage| {
      assert Linked(base, base.lineage[i]);
    }
  }

  lemma GrownSum(s: Session, g: nat, k: Kind, t: nat, f: nat -> int, f': nat -> int)
    requires s.base.lineage <= s.cur.lineage && f' == LineageTerm(s.cur.lineage, OfKindInTx(s.cur, g, k, t))
    requires forall i: nat :: i < |s.cur.lineage| ==> s.cur.lineage[i].amount > 0
    requires forall i: nat :: i < |s.base.lineage| ==> f(i) == f'(i)
    ensures SumTo(|s.cur.lineage|, f') >= SumTo(|s.base.lineage|, f)
    ensures SumTo(|s.cur.lineage|, f') == SumTo(|s.base.lineage|, f) <==> !Wrote(s, g, k, t)
  {
    var base, cur := s.base, s.cur;
    SumGrows(|base.lineage|, |cur.lineage|, f, f');
    if Wrote(s, g, k, t) {
      var i: nat :| |base.lineage| <= i < |cur.lineage| && OfKindInTx(cur, g, k, t)(cur.lineage[i]);
      assert SumTo(|base.lineage|, f) + f'(i) <= SumTo(|cur.lineage|, f');
    } else {
      SumPadded(|base.lineage|, |cur.lineage|, f, f');
    }
  }

  lemma TxSideGrows(s: Session, t: nat, a: nat, debit: bool)
    requires Open(s)
    ensures TxSide(s.cur, t, a, debit) >= TxSide(s.base, t, a, debit)
    ensures TxSide(s.cur, t, a, debit) == TxSide(s.base, t, a, debit) <==> !Posted(s, t, a, debit)
  {
    var base, cur := s.base, s.cur;
    var f, f' :=
        Magnitude(base.entries, PostedBy(base, t, a, debit)), Magnitude(cur.entries, PostedBy(cur, t, a, debit));
    SumGrows(|base.entries|, |cur.entries|, f, f');
    if Posted(s, t, a, debit) {
      var e: nat :| |base.entries| <= e < |cur.entries| && PostedBy(cur, t, a, debit)(e);
      assert SumTo(|base.entries|, f) + f'(e) <= SumTo(|cur.entries|, f');
    } else {
      SumPadded(|base.entries|, |cur.entries|, f, f');
    }
  }

  /** Compensation of grant g in r may be rechecked now; if it is not, the reversed u must not have consumed more. */
  predicate StillCompensated(s: Session, g: nat, r: nat, u: nat) {
    Wrote(s, g, Compensation, r) || !Wrote(s, g, Consumption, u)
  }

  /** For every committed compensation row: its reversal compensated again, or the reversed did not consume more. */
  ghost predicate CompensationKept(s: Session) {
    forall i: nat :: i < |s.base.lineage| && s.base.lineage[i].kind == Compensation ==>
      var l := s.base.lineage[i];
      match TxOf(s.base, l.entry)
      case None => true
      case Some(r) => s.base.txs[r].related.Some? ==> StillCompensated(s, l.grant, r, s.base.txs[r].related.value)
  }

  /** What a passing commit says of grant g between a reversal r and the u it reverses, given it was exact before. */
  lemma CompensationStep(s: Session, g: nat, r: nat, u: nat)
    requires Open(s) && CommitPasses(s) && r < |s.base.txs| && s.base.txs[r].related == Some(u)
    requires TxSum(s.base, g, Compensation, r) == TxSum(s.base, g, Consumption, u)
    ensures TxSum(s.cur, g, Compensation, r) == TxSum(s.cur, g, Consumption, u) <==> StillCompensated(s, g, r, u)
  {
    TxSumGrows(s, g, Compensation, r);
    TxSumGrows(s, g, Consumption, u);
    if Wrote(s, g, Compensation, r) {
      var j: nat :| |s.base.lineage| <= j < |s.cur.lineage| && OfKindInTx(s.cur, g, Compensation, r)(s.cur.lineage[j]);
      assert LineageWritten(j) in s.queue;
      assert CompensationComplete(s.cur, j);
    }
  }

  lemma CompensationRowStep(s: Session, i: nat)
    requires Open(s) && CommitPasses(s) && i < |s.base.lineage| && s.base.lineage[i].kind == Compensation
    requires CompensationComplete(s.base, i)
    ensures var l := s.base.lineage[i];
            && TxOf(s.base, l.entry).Some? && s.base.txs[TxOf(s.base, l.entry).value].related.Some?
            && (CompensationComplete(s.cur, i) <==>
                StillCompensated(s, l.grant, TxOf(s.base, l.entry).value,
                                 s.base.txs[TxOf(s.base, l.entry).value].related.value))
  {
    var l := s.base.lineage[i];
    assert Linked(s.base, l);
    HoldOfStays(s.base, s.cur);
    var r := TxOf(s.base, l.entry).value;
    var u := s.base.txs[r].related.value;
    CompensationStep(s, l.grant, r, u);
    TxSumGrows(s, l.grant, Consumption, u);
    assert s.cur.lineage[i] == l && s.cur.txs[r] == s.base.txs[r];
    SumsNonNegative(s.base, l.grant);
  }

  /**
   Exact compensation survives a commit if and only if, for every committed compensation, its reversal
   compensated the grant again in that commit or the reversed transaction did not consume more of it.
   */
  lemma CompletionKept(s: Session)
    requires Open(s) && CommitPasses(s) && Completed(s.base)
    ensures Completed(s.cur) <==> CompensationKept(s)
  {
    var base, cur := s.base, s.cur;
    forall i: nat | i < |base.lineage| && base.lineage[i].kind == Compensation
      ensures var l := base.lineage[i];
              && TxOf(base, l.entry).Some? && base.txs[TxOf(base, l.entry).value].related.Some?
              && (CompensationComplete(cur, i) <==>
                  StillCompensated(s, l.grant, TxOf(base, l.entry).value,
                                   base.txs[TxOf(base, l.entry).value].related.value))
    {
      assert CompensationComplete(base, i);
      CompensationRowStep(s, i);
    }
    forall i: nat | i >= |base.lineage| || base.lineage[i].kind != Compensation ensures CompensationComplete(cur, i) {
      if |base.lineage| <= i < |cur.lineage| {
        assert LineageWritten(i) in s.queue;
      }
    }
  }

  /** Entry e belongs to a committed reversal of another transaction, on a grant-enabled account. */
  predicate Reversing(db: Db, e: nat) {
    && e < |db.entries| && GrantEnabled(db, db.entries[e].account)
    && db.entries[e].tx < |db.txs| && db.txs[db.entries[e].tx].relation == Some(Reverses)
    && db.txs[db.entries[e].tx].related.Some?
  }

  /** The reversal posted on the same side again, or the reversed posted nothing more on the side it mirrors. */
  predicate StillMirrored(s: Session, e: nat)
    requires Reversing(s.base, e)
  {
    var row := s.base.entries[e];
    Posted(s, row.tx, row.account, row.amount > 0)
      || !Posted(s, s.base.txs[row.tx].related.value, row.account, row.amount < 0)
  }

  ghost predicate MirrorsKept(s: Session) {
    forall e: nat :: Reversing(s.base, e) ==> StillMirrored(s, e)
  }

  lemma MirrorStep(s: Session, e: nat)
    requires Open(s) && CommitPasses(s) && Reversing(s.base, e)
    requires EntryAttributed(s.base, e) && Attributed(s.cur, e) == Attributed(s.base, e)
    ensures EntryAttributed(s.cur, e) <==> StillMirrored(s, e)
  {
    var base, cur := s.base, s.cur;
    var row := base.entries[e];
    var t := base.txs[row.tx].related.value;
    assert row.amount != 0 && cur.entries[e] == row && cur.txs[row.tx] == base.txs[row.tx];
    TxSideGrows(s, row.tx, row.account, row.amount > 0);
    TxSideGrows(s, t, row.account, row.amount < 0);
    if Posted(s, row.tx, row.account, row.amount > 0) {
      var e': nat :| |base.entries| <= e' < |cur.entries| && PostedBy(cur, row.tx, row.account, row.amount > 0)(e');
      assert EntryPosted(e') in s.queue;
      assert EntryAttributed(cur, e');
      assert cur.entries[e'].amount != 0;
    }
  }

  /** Attribution and mirroring survive a commit if and only if no lineage is late and every reversal still mirrors. */
  lemma MirroringKept(s: Session)
    requires Open(s) && CommitPasses(s) && Mirrored(s.base)
    ensures Mirrored(s.cur) <==> LineageFresh(s) && MirrorsKept(s)
  {
    var base, cur := s.base, s.cur;
    MirroredIsAttributed(base);
    AttributionKept(s);
    if LineageFresh(s) {
      forall e: nat
        ensures Reversing(base, e) ==> (EntryAttributed(cur, e) <==> StillMirrored(s, e))
        ensures !Reversing(base, e) ==> EntryAttributed(cur, e)
      {
        MirrorEntry(s, e);
      }
    } else if Mirrored(cur) {
      MirroredIsAttributed(cur);
    }
  }

  lemma MirrorEntry(s: Session, e: nat)
    requires Open(s) && CommitPasses(s) && LineageFresh(s) && EntryAttributed(s.base, e)
    ensures Reversing(s.base, e) ==> (EntryAttributed(s.cur, e) <==> StillMirrored(s, e))
    ensures !Reversing(s.base, e) ==> EntryAttributed(s.cur, e)
  {
    if e < |s.base.entries| {
      AttributedStays(s.base, s.cur, e);
      if Reversing(s.base, e) {
        MirrorStep(s, e);
      }
    } else if e < |s.cur.entries| {
      assert EntryPosted(e) in s.queue;
    }
  }

  lemma MirroredIsAttributed(db: Db)
    requires Mirrored(db)
    ensures FullyAttributed(db)
  {
    forall e: nat | e < |db.entries| && GrantEnabled(db, db.entries[e].account)
      ensures Attributed(db, e) == Abs(db.entries[e].amount)
    {
      assert EntryAttributed(db, e);
    }
  }

  // ----- the committed states of a run

  /** The transactions of a run that committed, each as it stood at its commit. */
  function Passed(now: int, ops: seq<Op>): seq<Session> {
    if ops == [] then []
    else
      var s := Run(Begin(EMPTY, now), ops[..|ops| - 1]);
      Passed(now, ops[..|ops| - 1]) + if ops[|ops| - 1].Commit? && CommitPasses(s) then [s] else []
  }

  function Before(done: seq<Session>, i: nat): Db
    requires i <= |done|
  {
    if i == 0 then EMPTY else done[i - 1].cur
  }

  ghost predicate ChainedCommit(done: seq<Session>, i: nat)
    requires i < |done|
  {
    Open(done[i]) && CommitPasses(done[i]) && done[i].base == Before(done, i)
  }

  ghost predicate ChainedCommits(done: seq<Session>) {
    forall i: nat :: i < |done| ==> ChainedCommit(done, i)
  }

  lemma {:induction false} ChainGrows(done: seq<Session>, s: Session)
    requires ChainedCommits(done) && Open(s) && CommitPasses(s) && s.base == Before(done, |done|)
    ensures ChainedCommits(done + [s])
  {
    forall i: nat | i < |done + [s]| ensures ChainedCommit(done + [s], i) {
      if i < |done| {
        assert ChainedCommit(done, i);
      }
      assert Before(done + [s], i) == Before(done, i);
    }
  }

  /** Each commit starts from what the one before it left. */
  lemma {:induction false} PassedChain(now: int, ops: seq<Op>)
    ensures ChainedCommits(Passed(now, ops))
    ensures Run(Begin(EMPTY, now), ops).base == Before(Passed(now, ops), |Passed(now, ops)|)
  {
    if ops != [] {
      var done, s := Passed(now, ops[..|ops| - 1]), Run(Begin(EMPTY, now), ops[..|ops| - 1]);
      PassedChain(now, ops[..|ops| - 1]);
      if ops[|ops| - 1].Commit? && CommitPasses(s) {
        OpenRun(now, ops[..|ops| - 1]);
        ChainGrows(done, s);
      } else {
        assert Passed(now, ops) == done;
        BaseStays(s, ops[|ops| - 1]);
      }
    }
  }

  lemma OpenRun(now: int, ops: seq<Op>)
    ensures Open(Run(Begin(EMPTY, now), ops))
  {
    RunCommits(now, ops);
  }

  lemma BaseStays(s: Session, op: Op)
    requires !(op.Commit? && CommitPasses(s))
    ensures Exec(s, op).0.base == s.base
  {
  }

  ghost predicate CompletedUpTo(done: seq<Session>, n: nat)
    requires n <= |done|
  {
    n == 0 || (CompletedUpTo(done, n - 1) && Completed(done[n - 1].cur))
  }

  ghost predicate CompensationKeptUpTo(done: seq<Session>, n: nat)
    requires n <= |done|
  {
    n == 0 || (CompensationKeptUpTo(done, n - 1) && CompensationKept(done[n - 1]))
  }

  ghost predicate MirroredUpTo(done: seq<Session>, n: nat)
    requires n <= |done|
  {
    n == 0 || (MirroredUpTo(done, n - 1) && Mirrored(done[n - 1].cur))
  }

  ghost predicate MirrorsKeptUpTo(done: seq<Session>, n: nat)
    requires n <= |done|
  {
    n == 0 || (MirrorsKeptUpTo(done, n - 1) && LineageFresh(done[n - 1]) && MirrorsKept(done[n - 1]))
  }

  lemma CompletedNext(done: seq<Session>, i: nat)
    requires i < |done| && ChainedCommit(done, i) && Completed(Before(done, i))
    ensures Completed(done[i].cur) <==> CompensationKept(done[i])
  {
    CompletionKept(done[i]);
  }

  lemma MirroredNext(done: seq<Session>, i: nat)
    requires i < |done| && ChainedCommit(done, i) && Mirrored(Before(done, i))
    ensures Mirrored(done[i].cur) <==> LineageFresh(done[i]) && MirrorsKept(done[i])
  {
    MirroringKept(done[i]);
  }

  lemma {:induction false} CompletedBefore(done: seq<Session>, n: nat)
    requires n <= |done| && CompletedUpTo(done, n)
    ensures Completed(Before(done, n))
  {
    if n == 0 {
      EmptyIsExact();
    }
  }

  lemma EmptyIsExact()
    ensures Completed(EMPTY) && Mirrored(EMPTY)
  {
  }

  lemma {:induction false} MirroredBefore(done: seq<Session>, n: nat)
    requires n <= |done| && MirroredUpTo(done, n)
    ensures Mirrored(Before(done, n))
  {
    if n == 0 {
      EmptyIsExact();
    }
  }

  lemma {:induction false} CompletedStep(done: seq<Session>, n: nat)
    requires 0 < n <= |done| && ChainedCommit(done, n - 1)
    requires CompletedUpTo(done, n - 1) <==> CompensationKeptUpTo(done, n - 1)
    ensures CompletedUpTo(done, n) <==> CompensationKeptUpTo(done, n)
  {
    if CompletedUpTo(done, n - 1) {
      CompletedBefore(done, n - 1);
      CompletedNext(done, n - 1);
    }
  }

  lemma {:induction false} MirroredStep(done: seq<Session>, n: nat)
    requires 0 < n <= |done| && ChainedCommit(done, n - 1)
    requires MirroredUpTo(done, n - 1) <==> MirrorsKeptUpTo(done, n - 1)
    ensures MirroredUpTo(done, n) <==> MirrorsKeptUpTo(done, n)
  {
    if MirroredUpTo(done, n - 1) {
      MirroredBefore(done, n - 1);
      MirroredNext(done, n - 1);
    }
  }

  /** Over a run, compensation is exact in every committed state if and only if every commit kept it so. */
  lemma {:induction false} CompletedOverCommits(done: seq<Session>, n: nat)
    requires n <= |done| && ChainedCommits(done)
    ensures CompletedUpTo(done, n) <==> CompensationKeptUpTo(done, n)
  {
    if n > 0 {
      CompletedOverCommits(done, n - 1);
      assert ChainedCommit(done, n - 1);
      CompletedStep(done, n);
    }
  }

  /** The same of mirroring: every commit wrote its lineage in time and left the reversals mirrored. */
  lemma {:induction false} MirroredOverCommits(done: seq<Session>, n: nat)
    requires n <= |done| && ChainedCommits(done)
    ensures MirroredUpTo(done, n) <==> MirrorsKeptUpTo(done, n)
  {
    if n > 0 {
      MirroredOverCommits(done, n - 1);
      assert ChainedCommit(done, n - 1);
      MirroredStep(done, n);
    }
  }

  /** Exact reversals over whole runs: both laws hold in every committed state exactly when every commit kept them. */
  lemma ExactOverRuns(now: int, ops: seq<Op>)
    ensures var done := Passed(now, ops);
            && (CompletedUpTo(done, |done|) <==> CompensationKeptUpTo(done, |done|))
            && (MirroredUpTo(done, |done|) <==> MirrorsKeptUpTo(done, |done|))
            && (CompletedUpTo(done, |done|) ==> Completed(Run(Begin(EMPTY, now), ops).base))
            && (MirroredUpTo(done, |done|) ==> Mirrored(Run(Begin(EMPTY, now), ops).base))
  {
    PassedChain(now, ops);
    EmptyIsExact();
    CompletedOverCommits(Passed(now, ops), |Passed(now, ops)|);
    MirroredOverCommits(Passed(now, ops), |Passed(now, ops)|);
  }

  lemma ExecKeepsFresh(s: Session, op: Op)
    requires LineageFresh(s) && AttributesInTime(s, op)
    ensures LineageFresh(Exec(s, op).0)
    ensures EntriesFresh(s) && AtomicOp(s, op) ==> EntriesFresh(Exec(s, op).0)
  {
  }

  /** When lineage is written in time, every committed state is fully attributed. */
  lemma {:induction false} AttributedRunCommits(now: int, ops: seq<Op>)
    requires AttributedRun(Begin(EMPTY, now), ops)
    ensures var s := Run(Begin(EMPTY, now), ops);
            Open(s) && LineageFresh(s) && CommittedInv(s.base) && FullyAttributed(s.base)
  {
    RunCommits(now, ops);
    if ops != [] {
      var s := Run(Begin(EMPTY, now), ops[..|ops| - 1]);
      var op := ops[|ops| - 1];
      AttributedRunCommits(now, ops[..|ops| - 1]);
      ExecKeepsFresh(s, op);
      if op.Commit? && CommitPasses(s) {
        AttributionKept(s);
      }
    }
  }

  lemma {:induction false} AtomicRunsAttribute(s: Session, ops: seq<Op>)
    requires AtomicRun(s, ops)
    ensures AttributedRun(s, ops)
  {
    if ops != [] {
      AtomicRunsAttribute(s, ops[..|ops| - 1]);
    }
  }

  /** Rows that only name what the same transaction inserted can disturb no committed reversal. */
  lemma FreshDisturbsNothing(s: Session)
    requires Open(s) && EntriesFresh(s) && LineageFresh(s)
    ensures CompensationKept(s) && MirrorsKept(s)
  {
    forall g: nat, k: Kind, t: nat | t < |s.base.txs| ensures !Wrote(s, g, k, t) {
      forall i: nat | |s.base.lineage| <= i < |s.cur.lineage| ensures !OfKindInTx(s.cur, g, k, t)(s.cur.lineage[i]) {
        assert Linked(s.cur, s.cur.lineage[i]);
      }
    }
  }

  lemma {:induction false} AtomicPassed(now: int, ops: seq<Op>)
    requires AtomicRun(Begin(EMPTY, now), ops)
    ensures var s := Run(Begin(EMPTY, now), ops); EntriesFresh(s) && LineageFresh(s)
    ensures forall i: nat :: i < |Passed(now, ops)| ==>
            EntriesFresh(Passed(now, ops)[i]) && LineageFresh(Passed(now, ops)[i])
  {
    if ops != [] {
      AtomicPassed(now, ops[..|ops| - 1]);
      ExecKeepsFresh(Run(Begin(EMPTY, now), ops[..|ops| - 1]), ops[|ops| - 1]);
    }
  }

  lemma {:induction false} FreshKeepsAll(done: seq<Session>, n: nat)
    requires n <= |done| && ChainedCommits(done)
    requires forall i: nat :: i < |done| ==> EntriesFresh(done[i]) && LineageFresh(done[i])
    ensures CompensationKeptUpTo(done, n) && MirrorsKeptUpTo(done, n)
  {
    if n > 0 {
      FreshKeepsAll(done, n - 1);
      assert ChainedCommit(done, n - 1);
      FreshDisturbsNothing(done[n - 1]);
    }
  }

  /**
   Callers that post atomically keep both at every commit, so their committed states are mirrored and
   exactly compensated.
   */
  lemma {:induction false} AtomicRunCommits(now: int, ops: seq<Op>)
    requires AtomicRun(Begin(EMPTY, now), ops)
    ensures CompensationKeptUpTo(Passed(now, ops), |Passed(now, ops)|)
            && MirrorsKeptUpTo(Passed(now, ops), |Passed(now, ops)|)
    ensures AtomicInv(Run(Begin(EMPTY, now), ops).base)
  {
    RunCommits(now, ops);
    PassedChain(now, ops);
    AtomicPassed(now, ops);
    FreshKeepsAll(Passed(now, ops), |Passed(now, ops)|);
    ExactOverRuns(now, ops);
  }
}
