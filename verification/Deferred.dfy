/**
 What a commit asks for, told from the rows the transaction touched: it succeeds if and only if its
 postings on grant-enabled accounts are attributed, its reversals mirror, its compensations are complete,
 lapsed grants it wrote to are emptied, and the holds it touched are backed and agree with their postings.
 */
module Deferred {
  import opened Tables
  import opened Engine
  import opened Invariant
  import opened Preservation
  import opened Commits
  import opened Decisions

  // ----- only touched rows are checked

  /** The transaction inserted or updated the hold, posted to it, or gave it an entry. */
  ghost predicate Touched(s: Session, h: nat) {
    && h < |s.cur.holds|
    && (|| h >= |s.base.holds| || s.cur.holds[h] != s.base.holds[h]
        || (exists e: nat :: |s.base.entries| <= e < |s.cur.entries| && HoldOf(s.cur, e) == Some(h))
        || (exists he: nat :: |s.base.holdEntries| <= he < |s.cur.holdEntries| && s.cur.holdEntries[he].hold == h))
  }

  /** The firing is about a row that the transaction inserted or updated. */
  predicate Names(s: Session, f: Pending) {
    match f
    case EntryPosted(e) => |s.base.entries| <= e < |s.cur.entries|
    case LineageWritten(i) => |s.base.lineage| <= i < |s.cur.lineage|
    case AllocationMade(a) => |s.base.allocations| <= a < |s.cur.allocations|
    case HoldEntryAdded(he) => |s.base.holdEntries| <= he < |s.cur.holdEntries|
    case HoldTouched(h) => h < |s.cur.holds| && (h >= |s.base.holds| || s.cur.holds[h] != s.base.holds[h])
  }

  ghost predicate NamesOwn(s: Session) {
    forall i: nat :: i < |s.queue| ==> Names(s, s.queue[i])
  }

  lemma QueuedNames(db: Db, now: int, op: Op, i: nat)
    requires RowOp(op) && Refs(db) && i < |Statement(db, now, op).queued|
    ensures Names(Session(db, Statement(db, now, op).db, now, []), Statement(db, now, op).queued[i])
  {
    if op.UpdateHold? && op.id < |db.holds| && HoldAdvances(db.holds[op.id], op.row) {
      assert HoldRowOk(db.holds[op.id]);
    }
  }

  /** A hold that has changed stays changed, and the tables only grow. */
  lemma NamesStay(base: Db, cur: Db, more: Db, now: int, f: Pending)
    requires Grows(base, cur) && Grows(cur, more)
    ensures Names(Session(base, cur, now, []), f) ==> Names(Session(base, more, now, []), f)
    ensures Names(Session(cur, more, now, []), f) ==> Names(Session(base, more, now, []), f)
  {
    if f.HoldTouched? && f.hold < |base.holds| {
      assert Evolves(base.holds[f.hold], cur.holds[f.hold]) && Evolves(cur.holds[f.hold], more.holds[f.hold]);
    }
  }

  lemma ExecNames(s: Session, op: Op)
    requires Open(s) && NamesOwn(s)
    ensures NamesOwn(Exec(s, op).0)
  {
    if RowOp(op) {
      var s' := Exec(s, op).0;
      ExecQueue(s, op);
      StatementGrows(s.cur, s.now, op);
      forall i: nat | i < |s'.queue| ensures Names(s', s'.queue[i]) {
        if i >= |s.queue| {
          QueuedNames(s.cur, s.now, op, i - |s.queue|);
        }
        NamesStay(s.base, s.cur, s'.cur, s.now, s'.queue[i]);
      }
    }
  }

  lemma {:induction false} RunNames(now: int, ops: seq<Op>)
    ensures NamesOwn(Run(Begin(EMPTY, now), ops))
    decreases |ops|
  {
    if ops != [] {
      RunNames(now, ops[..|ops| - 1]);
      RunCommits(now, ops[..|ops| - 1]);
      ExecNames(Run(Begin(EMPTY, now), ops[..|ops| - 1]), ops[|ops| - 1]);
    }
  }

  // ----- what is asked

  predicate Capable(db: Db, a: nat) {
    a < |db.accounts| && db.accounts[a].grantEnabled
  }

  /** Attributed in full; in a reversal, the account's side equals the side of the reversed transaction it mirrors. */
  predicate PostingSettled(db: Db, e: nat)
    requires e < |db.entries| && db.entries[e].tx < |db.txs|
  {
    var row, t := db.entries[e], db.txs[db.entries[e].tx];
    Capable(db, row.account) ==>
      && (Attributed(db, e) == row.amount || Attributed(db, e) == -row.amount) && Attributed(db, e) >= 0
      && (t.relation == Some(Reverses) && t.related.Some? ==>
            && TxSide(db, row.tx, row.account, row.amount > 0) ==
               TxSide(db, t.related.value, row.account, row.amount < 0)
            && TxSide(db, t.related.value, row.account, row.amount < 0) != 0)
  }

  /** A compensation gives back all the reversed transaction took; a grant that has lapsed keeps nothing free. */
  predicate LineageSettled(db: Db, now: int, i: nat)
    requires i < |db.lineage| && db.lineage[i].entry < |db.entries| && db.entries[db.lineage[i].entry].tx < |db.txs|
    requires db.lineage[i].grant < |db.grants|
  {
    var l, t := db.lineage[i], db.entries[db.lineage[i].entry].tx;
    && (l.kind == Compensation && db.txs[t].related.Some? ==>
          TxSum(db, l.grant, Compensation, t) == TxSum(db, l.grant, Consumption, db.txs[t].related.value))
    && (l.kind == Compensation || l.kind == Expiration ==>
          match db.grants[l.grant].expiresAt
          case None => true
          case Some(x) => x <= now ==> Free(db, l.grant) == 0)
  }

  /** Some held entry of h is on a grant-enabled account. */
  ghost predicate HoldsGrants(db: Db, h: nat) {
    exists he: nat :: he < |db.holdEntries| && HeldOnGrants(db, h, he)
  }

  predicate HeldOnGrants(db: Db, h: nat, he: nat)
    requires he < |db.holdEntries|
  {
    db.holdEntries[he].hold == h && db.holdEntries[he].amount != 0 && Capable(db, db.holdEntries[he].account)
  }

  /** Held and posted amounts of h balance, fit its row, and every account's side is posted in proportion. */
  ghost predicate HoldSettled(db: Db, h: nat)
    requires h < |db.holds|
  {
    var row, held, posted := db.holds[h], HeldTotal(db, h, true), Captured(db, h, true);
    HoldsGrants(db, h) ==>
      && held == row.original && HeldTotal(db, h, false) == held && Captured(db, h, false) == posted
      && (row.state == Held ==> posted == row.original - row.remaining)
      && (row.state == Applied ==> posted == row.original)
      && (row.state == Voided ==> posted < row.original)
      && (forall a: nat, debit: bool :: a < |db.accounts| ==> SideSettled(db, h, a, debit))
  }

  predicate SideSettled(db: Db, h: nat, a: nat, debit: bool) {
    CapturedFrom(db, h, a, debit) * HeldTotal(db, h, true) == HeldFrom(db, h, a, debit) * Captured(db, h, true)
  }

  /** Everything the transaction touched is settled. */
  ghost predicate Settled(s: Session)
    requires Refs(s.cur) && Links(s.cur)
  {
    && (forall e: nat :: |s.base.entries| <= e < |s.cur.entries| ==> PostingSettled(s.cur, e))
    && (forall i: nat :: |s.base.lineage| <= i < |s.cur.lineage| ==>
          Linked(s.cur, s.cur.lineage[i]) && LineageSettled(s.cur, s.now, i))
    && (forall a: nat :: |s.base.allocations| <= a < |s.cur.allocations| ==>
          && AllocationLinked(s.cur, s.cur.allocations[a])
          && AllocatedToEntry(s.cur, s.cur.allocations[a].holdEntry) ==
             s.cur.holdEntries[s.cur.allocations[a].holdEntry].amount)
    && (forall he: nat :: |s.base.holdEntries| <= he < |s.cur.holdEntries| &&
                          Capable(s.cur, s.cur.holdEntries[he].account) ==>
          s.cur.holdEntries[he].amount > 0 && AllocatedToEntry(s.cur, he) == s.cur.holdEntries[he].amount)
    && (forall h: nat :: Touched(s, h) ==> HoldSettled(s.cur, h))
  }

  // ----- check by check

  lemma PostingChecked(db: Db, e: nat)
    requires Refs(db) && e < |db.entries|
    ensures EntryAttributed(db, e) <==> PostingSettled(db, e)
  {
    assert RelationPaired(db.txs[db.entries[e].tx]);
  }

  lemma LineageChecked(db: Db, now: int, i: nat)
    requires Inv(db) && i < |db.lineage|
    ensures Linked(db, db.lineage[i])
    ensures CompensationComplete(db, i) && ExpiredRemoved(db, now, i) <==> LineageSettled(db, now, i)
  {
    var l := db.lineage[i];
    assert Linked(db, l);
    CountersTell(db, l.grant);
    if l.kind == Compensation {
      CompensationChecked(db, i);
    }
  }

  /** A compensation row compensates something, so complete means that something was consumed. */
  lemma CompensationChecked(db: Db, i: nat)
    requires Refs(db) && Links(db) && i < |db.lineage| && db.lineage[i].kind == Compensation
    ensures Linked(db, db.lineage[i])
    ensures var l, t := db.lineage[i], db.entries[db.lineage[i].entry].tx;
            && db.txs[t].related.Some?
            && (CompensationComplete(db, i) <==>
                TxSum(db, l.grant, Compensation, t) == TxSum(db, l.grant, Consumption, db.txs[t].related.value))
  {
    var l := db.lineage[i];
    assert Linked(db, l);
    var t := db.entries[l.entry].tx;
    assert TxOf(db, l.entry) == Some(t);
    forall j: nat | j < |db.lineage| ensures db.lineage[j].amount > 0 {
      assert Linked(db, db.lineage[j]);
    }
    LineageSumPositive(db.lineage, OfKindInTx(db, l.grant, Compensation, t));
    assert OfKindInTx(db, l.grant, Compensation, t)(l);
  }

  lemma HoldChecked(db: Db, h: nat)
    requires Refs(db) && h < |db.holds|
    ensures HoldConsistent(db, h) <==> HoldSettled(db, h)
  {
    assert HoldRowOk(db.holds[h]);
    if he: nat :| he < |db.holdEntries| && HeldOnGrants(db, h, he) {
      assert OnGrantAccount(db, h, he);
    }
    if he: nat :| he < |db.holdEntries| && OnGrantAccount(db, h, he) {
      assert HeldOnGrants(db, h, he);
    }
    forall a: nat, debit: bool ensures InProportion(db, h, a, debit) <==> SideSettled(db, h, a, debit) {
    }
  }

  lemma HeldChecked(db: Db, he: nat)
    requires he < |db.holdEntries| && db.holdEntries[he].amount != 0
    ensures HoldEntryAllocated(db, he) <==>
            (Capable(db, db.holdEntries[he].account) ==>
               db.holdEntries[he].amount > 0 && AllocatedToEntry(db, he) == db.holdEntries[he].amount)
  {
  }

  // ----- both directions

  lemma SettledPasses(s: Session, f: Pending)
    requires Open(s) && Settled(s) && Names(s, f)
    ensures Passes(s.cur, s.now, f)
  {
    match f
    case EntryPosted(e) =>
      PostingChecked(s.cur, e);
      if HoldOf(s.cur, e).Some? {
        assert Touched(s, HoldOf(s.cur, e).value);
        HoldChecked(s.cur, HoldOf(s.cur, e).value);
      }
    case LineageWritten(i) => LineageChecked(s.cur, s.now, i);
    case AllocationMade(a) => assert AllocationLinked(s.cur, s.cur.allocations[a]);
    case HoldEntryAdded(he) =>
      HeldChecked(s.cur, he);
      assert Touched(s, s.cur.holdEntries[he].hold);
      HoldChecked(s.cur, s.cur.holdEntries[he].hold);
    case HoldTouched(h) =>
      assert Touched(s, h);
      HoldChecked(s.cur, h);
  }

  lemma PassedIn(s: Session, f: Pending)
    requires CommitPasses(s) && f in s.queue
    ensures Passes(s.cur, s.now, f)
  {
    var i :| 0 <= i < |s.queue| && s.queue[i] == f;
  }

  lemma TouchedAgrees(s: Session, h: nat)
    requires Open(s) && CommitPasses(s) && Touched(s, h)
    ensures HoldSettled(s.cur, h)
  {
    HoldChecked(s.cur, h);
    if h >= |s.base.holds| || s.cur.holds[h] != s.base.holds[h] {
      PassedIn(s, HoldTouched(h));
    } else if e: nat :| |s.base.entries| <= e < |s.cur.entries| && HoldOf(s.cur, e) == Some(h) {
      PassedIn(s, EntryPosted(e));
    } else {
      var he: nat :| |s.base.holdEntries| <= he < |s.cur.holdEntries| && s.cur.holdEntries[he].hold == h;
      PassedIn(s, HoldEntryAdded(he));
    }
  }

  lemma PassedSettles(s: Session)
    requires Open(s) && CommitPasses(s)
    ensures Settled(s)
  {
    forall e: nat | |s.base.entries| <= e < |s.cur.entries| ensures PostingSettled(s.cur, e) {
      PassedIn(s, EntryPosted(e));
      PostingChecked(s.cur, e);
    }
    forall i: nat | |s.base.lineage| <= i < |s.cur.lineage|
      ensures Linked(s.cur, s.cur.lineage[i]) && LineageSettled(s.cur, s.now, i)
    {
      PassedIn(s, LineageWritten(i));
      LineageChecked(s.cur, s.now, i);
    }
    forall a: nat | |s.base.allocations| <= a < |s.cur.allocations|
      ensures AllocationLinked(s.cur, s.cur.allocations[a]) && AllocationTotal(s.cur, a)
    {
      PassedIn(s, AllocationMade(a));
    }
    forall he: nat | |s.base.holdEntries| <= he < |s.cur.holdEntries| && Capable(s.cur, s.cur.holdEntries[he].account)
      ensures s.cur.holdEntries[he].amount > 0 && AllocatedToEntry(s.cur, he) == s.cur.holdEntries[he].amount
    {
      PassedIn(s, HoldEntryAdded(he));
      HeldChecked(s.cur, he);
    }
    forall h: nat | Touched(s, h) ensures HoldSettled(s.cur, h) {
      TouchedAgrees(s, h);
    }
  }

  /** Over every run: a commit succeeds if and only if all its transaction touched is settled; else nothing stays. */
  lemma CommitDecided(now: int, ops: seq<Op>, next: int)
    ensures var s := Run(Begin(EMPTY, now), ops);
            && Refs(s.cur) && Links(s.cur)
            && Exec(s, Commit(next)) == if Settled(s) then (Begin(s.cur, next), Accepted)
                                        else (Begin(s.base, next), Rejected(DeferredFailed))
  {
    var s := Run(Begin(EMPTY, now), ops);
    RunCommits(now, ops);
    RunNames(now, ops);
    if CommitPasses(s) {
      PassedSettles(s);
    } else {
      var i: nat :| i < |s.queue| && !Passes(s.cur, s.now, s.queue[i]);
      if Settled(s) {
        SettledPasses(s, s.queue[i]);
      }
    }
  }
}
