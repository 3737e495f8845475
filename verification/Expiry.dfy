/** Past its expiry a grant's remaining and reserved capacity only go down, commit by commit. */
module Expiry {
  import opened Tables
  import opened Engine
  import opened Invariant
  import opened Preservation
  import opened Commits

  /** The grant existed when the transaction began, and the transaction began at or after its expiry. */
  ghost predicate Lapsed(s: Session, g: nat) {
    g < |s.base.grants| && s.base.grants[g].expiresAt.Some? && s.base.grants[g].expiresAt.value <= s.now
  }

  ghost predicate CompensatedIn(s: Session, g: nat) {
    exists i: nat :: |s.base.lineage| <= i < |s.cur.lineage| && s.cur.lineage[i].grant == g
      && s.cur.lineage[i].kind == Compensation
  }

  /** Inside the transaction reservations have not grown, and capacity only by compensation. */
  ghost predicate Waning(s: Session) {
    forall g: nat :: Lapsed(s, g) ==>
      && Current(s.cur, g).reserved <= Current(s.base, g).reserved
      && (Current(s.cur, g).remaining <= Current(s.base, g).remaining || CompensatedIn(s, g))
  }

  lemma LineageWanes(db: Db, now: int, row: Lineage, g: nat)
    requires g < |db.grants| && Expired(db.grants[g].expiresAt, now)
    ensures var db' := DoInsertLineage(db, now, row).db;
            && Current(db', g).reserved <= Current(db, g).reserved
            && (Current(db', g).remaining <= Current(db, g).remaining
                || (row.grant == g && row.kind == Compensation && db'.lineage == db.lineage + [row]))
  {
    var r := DoInsertLineage(db, now, row);
    if r.outcome == Accepted && row.grant == g {
      assert Current(r.db, g) == AfterLineage(Current(db, g), row.kind, row.amount, IsCapture(db, row));
    }
  }

  lemma AllocationWanes(db: Db, now: int, row: Allocation, g: nat)
    requires g < |db.grants| && Expired(db.grants[g].expiresAt, now)
    ensures Current(DoInsertAllocation(db, now, row).db, g) == Current(db, g)
  {
  }

  lemma UpdateWanes(db: Db, h: nat, row: Hold, g: nat)
    ensures var db' := DoUpdateHold(db, h, row).db;
            && Current(db', g).reserved <= Current(db, g).reserved
            && Current(db', g).remaining == Current(db, g).remaining
  {
  }

  /** One statement on a lapsed grant. */
  lemma StatementWanes(db: Db, now: int, op: Op, g: nat)
    requires RowOp(op) && g < |db.grants| && Expired(db.grants[g].expiresAt, now)
    ensures var db' := Statement(db, now, op).db;
            && Current(db', g).reserved <= Current(db, g).reserved
            && (Current(db', g).remaining <= Current(db, g).remaining
                || (op.InsertLineage? && op.lineage.grant == g && op.lineage.kind == Compensation
                    && db'.lineage == db.lineage + [op.lineage]))
  {
    match op
    case InsertLineage(row) => LineageWanes(db, now, row, g);
    case InsertAllocation(row) => AllocationWanes(db, now, row, g);
    case UpdateHold(h, row) => UpdateWanes(db, h, row, g);
    case _ =>
  }

  lemma GrantWanes(s: Session, op: Op, g: nat)
    requires RowOp(op) && Grows(s.base, s.cur) && Refs(s.cur) && Waning(s) && Lapsed(s, g)
    ensures var s' := Exec(s, op).0;
            && Current(s'.cur, g).reserved <= Current(s'.base, g).reserved
            && (Current(s'.cur, g).remaining <= Current(s'.base, g).remaining || CompensatedIn(s', g))
  {
    var s' := Exec(s, op).0;
    StatementGrows(s.cur, s.now, op);
    StatementWanes(s.cur, s.now, op, g);
    if CompensatedIn(s, g) {
      var i: nat :| |s.base.lineage| <= i < |s.cur.lineage| && s.cur.lineage[i].grant == g
          && s.cur.lineage[i].kind == Compensation;
      assert s'.cur.lineage[i] == s.cur.lineage[i];
    } else if Current(s'.cur, g).remaining > Current(s.cur, g).remaining {
      assert s'.cur.lineage[|s.cur.lineage|] == op.lineage;
    }
  }

  lemma ExecWanes(s: Session, op: Op)
    requires Open(s) && Waning(s)
    ensures Waning(Exec(s, op).0)
  {
    if RowOp(op) {
      forall g: nat | Lapsed(Exec(s, op).0, g)
        ensures Current(Exec(s, op).0.cur, g).reserved <= Current(s.base, g).reserved
        ensures Current(Exec(s, op).0.cur, g).remaining <= Current(s.base, g).remaining
                || CompensatedIn(Exec(s, op).0, g)
      {
        GrantWanes(s, op, g);
      }
    }
  }

  lemma {:induction false} RunWanes(now: int, ops: seq<Op>)
    ensures Waning(Run(Begin(EMPTY, now), ops))
  {
    if ops != [] {
      RunCommits(now, ops[..|ops| - 1]);
      RunWanes(now, ops[..|ops| - 1]);
      ExecWanes(Run(Begin(EMPTY, now), ops[..|ops| - 1]), ops[|ops| - 1]);
    }
  }

  /** A commit that compensates into or expires a lapsed grant leaves it nothing unreserved. */
  lemma LapsedLineageEmpties(s: Session, g: nat, i: nat)
    requires Open(s) && CommitPasses(s) && Lapsed(s, g)
    requires |s.base.lineage| <= i < |s.cur.lineage|
    requires s.cur.lineage[i].grant == g && s.cur.lineage[i].kind in {Compensation, Expiration}
    ensures Current(s.cur, g).remaining == Current(s.cur, g).reserved
  {
    assert LineageWritten(i) in s.queue;
    assert ExpiredRemoved(s.cur, s.now, i);
  }

  lemma CommitWanes(s: Session, g: nat)
    requires Open(s) && Waning(s) && CommitPasses(s) && Lapsed(s, g)
    ensures Current(s.cur, g).remaining <= Current(s.base, g).remaining
    ensures Current(s.cur, g).reserved <= Current(s.base, g).reserved
    ensures CompensatedIn(s, g) ==> Current(s.cur, g).remaining == Current(s.cur, g).reserved
  {
    CurrentOk(s.base, g);
    if i: nat :| |s.base.lineage| <= i < |s.cur.lineage| && s.cur.lineage[i].grant == g
                 && s.cur.lineage[i].kind == Compensation
    {
      LapsedLineageEmpties(s, g, i);
    }
  }

  /**
   Over every run: a transaction that begins at or after a grant's expiry and commits leaves the
   grant no more remaining and no more reserved than the previous committed state had, even when a
   reversal compensated into it.
   */
  lemma ExpiryMonotone(now: int, ops: seq<Op>, next: int, g: nat)
    requires var s := Run(Begin(EMPTY, now), ops); CommitPasses(s) && Lapsed(s, g)
    ensures var s := Run(Begin(EMPTY, now), ops);
            var s' := Run(Begin(EMPTY, now), ops + [Commit(next)]);
            && Current(s'.base, g).remaining <= Current(s.base, g).remaining
            && Current(s'.base, g).reserved <= Current(s.base, g).reserved
            && (CompensatedIn(s, g) ==> Current(s'.base, g).remaining == Current(s'.base, g).reserved)
  {
    var s := Run(Begin(EMPTY, now), ops);
    RunCommits(now, ops);
    RunWanes(now, ops);
    CommitWanes(s, g);
    CommittedBase(now, ops, next);
  }

  lemma CommittedBase(now: int, ops: seq<Op>, next: int)
    requires CommitPasses(Run(Begin(EMPTY, now), ops))
    ensures Run(Begin(EMPTY, now), ops + [Commit(next)]).base == Run(Begin(EMPTY, now), ops).cur
  {
    assert (ops + [Commit(next)])[..|ops|] == ops;
  }
}
