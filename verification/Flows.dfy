/**
 Commits get through: the transactions that capture a grant hold in part or in full, and the one that
 voids it, are accepted statement by statement and pass every deferred check, from every committed state.
 */
module Flows {
  import opened Sums
  import opened Tables
  import opened Engine
  import opened Invariant
  import opened Preservation
  import opened Commits
  import opened HoldLaws
  import opened Decisions

  // ----- runs in pieces

  lemma {:induction false} RunAppends(s: Session, a: seq<Op>, b: seq<Op>)
    ensures Run(s, a + b) == Run(Run(s, a), b)
    decreases |b|
  {
    if b == [] {
      assert a + b == a;
    } else {
      var init, last := b[..|b| - 1], b[|b| - 1];
      RunAppends(s, a, init);
      assert (a + b)[..|a + b| - 1] == a + init && (a + b)[|a + b| - 1] == last;
    }
  }

  lemma RunOne(s: Session, op: Op)
    ensures Run(s, [op]) == Exec(s, op).0
  {
    assert [op][..0] == [];
  }

  // ----- voiding

  /** The hold as a void leaves it. */
  function VoidedRow(was: Hold, at: int): Hold {
    Hold(Voided, was.original, 0, None, Some(at))
  }

  lemma VoidAccepted(db: Db, now: int, h: nat, at: int)
    requires CommittedInv(db) && LiveGrantHold(db, h) && db.holds[h].state == Held
    ensures var (s, outcome) := Exec(Begin(db, now), UpdateHold(h, VoidedRow(db.holds[h], at)));
            && outcome == Accepted && s.base == db && s.now == now && s.queue == [HoldTouched(h)]
            && s.cur == db.(holds := db.holds[h := VoidedRow(db.holds[h], at)], chains := s.cur.chains)
  {
    UpdateFits(db, h, VoidedRow(db.holds[h], at));
  }

  lemma VoidAgrees(db: Db, h: nat, cur: Db, at: int)
    requires CommittedInv(db) && LiveGrantHold(db, h) && db.holds[h].state == Held && Grows(db, cur)
    requires cur == db.(holds := db.holds[h := VoidedRow(db.holds[h], at)], chains := cur.chains)
    ensures HoldConsistent(cur, h)
  {
    assert HoldConsistent(db, h) && HoldRowOk(db.holds[h]);
    HoldSumsStay(db, cur, h);
    forall a: nat, debit: bool | a < |cur.accounts| ensures InProportion(cur, h, a, debit) {
      ProportionStays(db, cur, h, a, debit);
    }
  }

  /**
   From every committed state, however much of it was captured before, a HELD grant hold can be voided in
   a transaction of its own, and that transaction commits.
   */
  lemma VoidCommits(db: Db, now: int, h: nat, at: int, next: int)
    requires CommittedInv(db) && LiveGrantHold(db, h) && db.holds[h].state == Held
    ensures var row := Hold(Voided, db.holds[h].original, 0, None, Some(at));
            var (s, outcome) := Exec(Begin(db, now), UpdateHold(h, row));
            && outcome == Accepted
            && s.cur.holds == db.holds[h := row]
            && Exec(s, Commit(next)) == (Begin(s.cur, next), Accepted)
  {
    var s := Exec(Begin(db, now), UpdateHold(h, VoidedRow(db.holds[h], at))).0;
    VoidAccepted(db, now, h, at);
    StatementGrows(db, now, UpdateHold(h, VoidedRow(db.holds[h], at)));
    VoidAgrees(db, h, s.cur, at);
  }

  /** So over every run: whatever has been committed, a HELD grant hold can be voided next. */
  lemma VoidOverRuns(now: int, ops: seq<Op>, began: int, h: nat, at: int, next: int)
    requires var db := Run(Begin(EMPTY, now), ops).base; LiveGrantHold(db, h) && db.holds[h].state == Held
    ensures var db := Run(Begin(EMPTY, now), ops).base;
            var row := Hold(Voided, db.holds[h].original, 0, None, Some(at));
            Run(Begin(EMPTY, now), ops + [Rollback(began)] + [UpdateHold(h, row)] + [Commit(next)]).base.holds ==
            db.holds[h := row]
  {
    var s := Run(Begin(EMPTY, now), ops);
    var row := VoidedRow(s.base.holds[h], at);
    RunCommits(now, ops);
    VoidCommits(s.base, began, h, at, next);
    RunAppends(Begin(EMPTY, now), ops, [Rollback(began)]);
    RunOne(s, Rollback(began));
    RunAppends(Begin(EMPTY, now), ops + [Rollback(began)], [UpdateHold(h, row)]);
    RunOne(Begin(s.base, began), UpdateHold(h, row));
    RunAppends(Begin(EMPTY, now), ops + [Rollback(began)] + [UpdateHold(h, row)], [Commit(next)]);
    RunOne(Exec(Begin(s.base, began), UpdateHold(h, row)).0, Commit(next));
  }

  // ----- capturing: the plan

  /** One capture: its transaction, its postings, their attribution, and the hold row it leaves. */
  datatype Plan = Plan(tx: Transaction, postings: seq<Entry>, shares: seq<Lineage>, row: Hold)

  function OnSide(postings: seq<Entry>, debit: bool): nat -> bool {
    (i: nat) => i < |postings| && if debit then postings[i].amount > 0 else postings[i].amount < 0
  }

  function OnAccountSide(postings: seq<Entry>, a: nat, debit: bool): nat -> bool {
    (i: nat) =>
      i < |postings| && (if debit then postings[i].amount > 0 else postings[i].amount < 0) && postings[i].account == a
  }

  function OfGrant(g: nat): Lineage -> bool {
    (l: Lineage) => l.grant == g
  }

  /** What the postings put on one side, and on one account's side. */
  function Put(postings: seq<Entry>, debit: bool): int {
    EntrySum(postings, OnSide(postings, debit))
  }

  function PutOn(postings: seq<Entry>, a: nat, debit: bool): int {
    EntrySum(postings, OnAccountSide(postings, a, debit))
  }

  predicate Ratio(part: int, whole: int, held: int, k: int) {
    part * whole == held * k
  }

  predicate PostingFits(db: Db, e: Entry) {
    e.tx == |db.txs| && e.account < |db.accounts| && e.amount != 0
  }

  /** A share of grant capacity on a posting of the plan, as a CONSUMPTION. */
  predicate ShareFits(db: Db, p: Plan, l: Lineage) {
    && l.kind == Consumption && l.grant < |db.grants| && l.account < |db.accounts|
    && db.grants[l.grant].account == l.account
    && |db.entries| <= l.entry < |db.entries| + |p.postings|
    && var e := p.postings[l.entry - |db.entries|];
    && e.account == l.account && e.asset == db.accounts[l.account].asset && e.asset == p.tx.asset
    && 0 < l.amount <= e.amount
  }

  /** The row that remains after k of the hold are captured. */
  predicate RowLeft(was: Hold, k: int, row: Hold) {
    || (k < was.remaining && row == Hold(Held, was.original, was.remaining - k, None, None))
    || (k == was.remaining && row.appliedAt.Some? && row == Hold(Applied, was.original, 0, row.appliedAt, None))
  }

  ghost predicate PostsPart(db: Db, h: nat, k: int, p: Plan)
    requires h < |db.holds|
  {
    && p.tx.hold == Some(h) && p.tx.related == None && p.tx.relation == None
    && (forall i: nat :: i < |p.postings| ==> PostingFits(db, p.postings[i]))
    && Put(p.postings, true) == k && Put(p.postings, false) == k
    && (forall a: nat, debit: bool :: a < |db.accounts| ==>
          Ratio(PutOn(p.postings, a, debit), db.holds[h].original, HeldFrom(db, h, a, debit), k))
  }

  ghost predicate Shared(db: Db, h: nat, p: Plan) {
    && (forall i: nat :: i < |p.shares| ==> ShareFits(db, p, p.shares[i]))
    && (forall i: nat, j: nat :: i < j < |p.shares| && p.shares[i].entry == p.shares[j].entry ==>
          p.shares[i].grant != p.shares[j].grant)
    && (forall g: nat :: g < |db.grants| ==>
          LineageSum(p.shares, OfGrant(g)) <= AllocatedTo(db, g, h) - ConsumedThrough(db, g, h))
    && (forall i: nat :: i < |p.postings| && GrantEnabled(db, p.postings[i].account) ==>
          LineageSum(p.shares, OnEntry(|db.entries| + i)) == Abs(p.postings[i].amount))
  }

  /**
   k of a HELD grant hold: postings that balance, total k and follow the hold's proportions, attributed in
   full to lots within what they still have set aside, and the row that is left.
   */
  ghost predicate Capture(db: Db, h: nat, k: int, p: Plan) {
    && LiveGrantHold(db, h) && db.holds[h].state == Held && 0 < k <= db.holds[h].remaining
    && PostsPart(db, h, k, p) && Shared(db, h, p) && RowLeft(db.holds[h], k, p.row)
  }

  function Posts(postings: seq<Entry>): seq<Op> {
    if postings == [] then [] else Posts(postings[..|postings| - 1]) + [InsertEntry(postings[|postings| - 1])]
  }

  function Attributes(shares: seq<Lineage>): seq<Op> {
    if shares == [] then [] else Attributes(shares[..|shares| - 1]) + [InsertLineage(shares[|shares| - 1])]
  }

  function CaptureOps(h: nat, p: Plan): seq<Op> {
    [InsertTransaction(p.tx)] + Posts(p.postings) + Attributes(p.shares) + [UpdateHold(h, p.row)]
  }

  // ----- the tables on the way

  /** The tables with the plan's transaction and postings, and the first n shares. */
  ghost predicate Reached(db: Db, p: Plan, n: nat, cur: Db)
    requires n <= |p.shares|
  {
    cur == db.(txs := db.txs + [p.tx], entries := db.entries + p.postings, lineage := db.lineage + p.shares[..n],
    chains := cur.chains)
  }

  /** Only checks on the plan's own rows wait. */
  predicate OwnCheck(db: Db, h: nat, p: Plan, f: Pending) {
    match f
    case EntryPosted(e) => |db.entries| <= e < |db.entries| + |p.postings|
    case LineageWritten(i) => |db.lineage| <= i < |db.lineage| + |p.shares|
    case HoldTouched(q) => q == h
    case _ => false
  }

  ghost predicate OwnChecks(db: Db, h: nat, p: Plan, queue: seq<Pending>) {
    forall i: nat :: i < |queue| ==> OwnCheck(db, h, p, queue[i])
  }

  ghost predicate Under(db: Db, now: int, h: nat, p: Plan, s: Session) {
    s.base == db && s.now == now && OwnChecks(db, h, p, s.queue)
  }

  lemma TransactionStep(db: Db, now: int, h: nat, p: Plan)
    requires h < |db.holds| && p.tx.hold == Some(h) && p.tx.related == None && p.tx.relation == None
    ensures Exec(Begin(db, now), InsertTransaction(p.tx)).0 == Session(db, db.(txs := db.txs + [p.tx]), now, [])
  {
  }

  lemma PostStep(db: Db, now: int, h: nat, p: Plan, s: Session, n: nat)
    requires n < |p.postings| && PostingFits(db, p.postings[n]) && Under(db, now, h, p, s)
    requires s.cur == db.(txs := db.txs + [p.tx], entries := db.entries + p.postings[..n])
    ensures var s' := Exec(s, InsertEntry(p.postings[n])).0;
            Under(db, now, h, p, s')
            && s'.cur == db.(txs := db.txs + [p.tx], entries := db.entries + p.postings[..n + 1])
  {
    assert p.postings[..n + 1] == p.postings[..n] + [p.postings[n]];
    assert db.entries + p.postings[..n] + [p.postings[n]] == db.entries + p.postings[..n + 1];
  }

  lemma {:induction false} PostsRun(db: Db, now: int, h: nat, p: Plan, s: Session, n: nat)
    requires n <= |p.postings| && (forall i: nat :: i < |p.postings| ==> PostingFits(db, p.postings[i]))
    requires s == Session(db, db.(txs := db.txs + [p.tx]), now, [])
    ensures var s' := Run(s, Posts(p.postings[..n]));
            Under(db, now, h, p, s') && s'.cur == db.(txs := db.txs + [p.tx], entries := db.entries + p.postings[..n])
    decreases n
  {
    if n == 0 {
      assert db.entries + [] == db.entries;
    } else {
      PostsRun(db, now, h, p, s, n - 1);
      PostStep(db, now, h, p, Run(s, Posts(p.postings[..n - 1])), n - 1);
      assert p.postings[..n][..n - 1] == p.postings[..n - 1];
      var ops := Posts(p.postings[..n]);
      assert ops[..|ops| - 1] == Posts(p.postings[..n - 1]);
    }
  }

  // ----- each share is accepted

  lemma {:induction false} LineageSumJoined(rows: seq<Lineage>, more: seq<Lineage>, p: Lineage -> bool)
    ensures LineageSum(rows + more, p) == LineageSum(rows, p) + LineageSum(more, p)
    decreases |more|
  {
    if more == [] {
      assert rows + more == rows;
    } else {
      var init, last := more[..|more| - 1], more[|more| - 1];
      LineageSumJoined(rows, init, p);
      LineageSumAppend(rows + init, last, p);
      LineageSumAppend(init, last, p);
      assert rows + more == rows + init + [last] && more == init + [last];
    }
  }

  lemma ConsumedSoFar(db: Db, h: nat, p: Plan, n: nat, cur: Db, g: nat)
    requires Refs(db) && Links(db) && n <= |p.shares| && Reached(db, p, n, cur) && p.tx.hold == Some(h)
    requires forall i: nat :: i < |p.shares| ==> ShareFits(db, p, p.shares[i])
    requires forall i: nat :: i < |p.postings| ==> PostingFits(db, p.postings[i])
    ensures ConsumedThrough(cur, g, h) == ConsumedThrough(db, g, h) + LineageSum(p.shares[..n], OfGrant(g))
    ensures AllocatedTo(cur, g, h) == AllocatedTo(db, g, h)
  {
    LineageSumJoined(db.lineage, p.shares[..n], ThroughHold(cur, g, h));
    forall i: nat | i < |db.lineage|
      ensures ThroughHold(cur, g, h)(db.lineage[i]) == ThroughHold(db, g, h)(db.lineage[i])
    {
      assert Linked(db, db.lineage[i]);
    }
    LineageSumSame(db.lineage, ThroughHold(cur, g, h), ThroughHold(db, g, h));
    forall i: nat | i < n ensures ThroughHold(cur, g, h)(p.shares[i]) == OfGrant(g)(p.shares[i]) {
      assert ShareFits(db, p, p.shares[i]);
      assert HoldOf(cur, p.shares[i].entry) == Some(h);
    }
    LineageSumSame(p.shares[..n], ThroughHold(cur, g, h), OfGrant(g));
    AllocationSumSame(db.allocations, ToHold(cur, g, h), ToHold(db, g, h));
  }

  /** The shares up to one of them are within all of them. */
  lemma WithinAll(shares: seq<Lineage>, n: nat)
    requires n < |shares| && forall i: nat :: i < |shares| ==> shares[i].amount > 0
    ensures LineageSum(shares[..n], OfGrant(shares[n].grant)) + shares[n].amount <=
            LineageSum(shares, OfGrant(shares[n].grant))
  {
    var q := OfGrant(shares[n].grant);
    LineageSumAppend(shares[..n], shares[n], q);
    assert shares[..n] + [shares[n]] + shares[n + 1..] == shares;
    LineageSumJoined(shares[..n] + [shares[n]], shares[n + 1..], q);
    LineageSumPositive(shares[n + 1..], q);
  }

  lemma ShareIsFit(db: Db, h: nat, p: Plan, n: nat, cur: Db)
    requires Refs(db) && Links(db) && n < |p.shares| && Reached(db, p, n, cur) && ShareFits(db, p, p.shares[n])
    requires Shared(db, h, p)
    requires forall i: nat :: i < |p.postings| ==> PostingFits(db, p.postings[i])
    ensures Fits(cur, p.shares[n]) && Unused(cur, p.shares[n])
    ensures cur.txs[cur.entries[p.shares[n].entry].tx] == p.tx && cur.entries[p.shares[n].entry].amount > 0
  {
    var l := p.shares[n];
    assert cur.entries[l.entry] == p.postings[l.entry - |db.entries|];
    assert PostingFits(db, p.postings[l.entry - |db.entries|]);
    forall i: nat | i < |cur.lineage| ensures cur.lineage[i].entry == l.entry ==> cur.lineage[i].grant != l.grant {
      if i < |db.lineage| {
        assert Linked(db, db.lineage[i]);
      } else {
        assert cur.lineage[i] == p.shares[i - |db.lineage|];
      }
    }
  }

  lemma ShareAccepted(db: Db, now: int, h: nat, p: Plan, n: nat, cur: Db)
    requires Inv(db) && Inv(cur) && h < |db.holds| && db.holds[h].state == Held && p.tx.hold == Some(h)
    requires n < |p.shares| && Reached(db, p, n, cur) && Shared(db, h, p)
    requires forall i: nat :: i < |p.postings| ==> PostingFits(db, p.postings[i])
    ensures Inserted(cur, now, p.shares[n])
  {
    var l := p.shares[n];
    assert ShareFits(db, p, l);
    ShareIsFit(db, h, p, n, cur);
    ConsumedSoFar(db, h, p, n, cur, l.grant);
    WithinAll(p.shares, n);
    CaptureDecided(cur, now, l, h);
  }

  lemma RowInserted(cur: Db, now: int, l: Lineage)
    requires Inserted(cur, now, l)
    ensures var r := Statement(cur, now, InsertLineage(l));
            && r.db == cur.(lineage := cur.lineage + [l], chains := r.db.chains)
            && r.queued == [LineageWritten(|cur.lineage|)]
  {
  }

  lemma ShareReached(db: Db, p: Plan, n: nat, cur: Db, cur': Db)
    requires n < |p.shares| && Reached(db, p, n, cur)
    requires cur' == cur.(lineage := cur.lineage + [p.shares[n]], chains := cur'.chains)
    ensures Reached(db, p, n + 1, cur')
  {
    assert db.lineage + p.shares[..n] + [p.shares[n]] == db.lineage + p.shares[..n + 1];
  }

  lemma ShareStep(db: Db, now: int, h: nat, p: Plan, s: Session, n: nat)
    requires Inv(db) && Inv(s.cur) && h < |db.holds| && db.holds[h].state == Held && p.tx.hold == Some(h)
    requires n < |p.shares| && Reached(db, p, n, s.cur) && Shared(db, h, p) && Under(db, now, h, p, s)
    requires forall i: nat :: i < |p.postings| ==> PostingFits(db, p.postings[i])
    ensures var s' := Exec(s, InsertLineage(p.shares[n])).0;
            Under(db, now, h, p, s') && Reached(db, p, n + 1, s'.cur) && Inv(s'.cur)
  {
    var op := InsertLineage(p.shares[n]);
    ShareAccepted(db, now, h, p, n, s.cur);
    StatementKeepsInv(s.cur, now, op);
    RowInserted(s.cur, now, p.shares[n]);
    ExecQueue(s, op);
    ShareReached(db, p, n, s.cur, Statement(s.cur, now, op).db);
  }

  lemma {:induction false} SharesRun(db: Db, now: int, h: nat, p: Plan, s: Session, n: nat)
    requires Inv(db) && Inv(s.cur) && h < |db.holds| && db.holds[h].state == Held && p.tx.hold == Some(h)
    requires n <= |p.shares| && Reached(db, p, 0, s.cur) && Shared(db, h, p) && Under(db, now, h, p, s)
    requires forall i: nat :: i < |p.postings| ==> PostingFits(db, p.postings[i])
    ensures var s' := Run(s, Attributes(p.shares[..n]));
            Under(db, now, h, p, s') && Reached(db, p, n, s'.cur) && Inv(s'.cur)
    decreases n
  {
    if n > 0 {
      SharesRun(db, now, h, p, s, n - 1);
      ShareStep(db, now, h, p, Run(s, Attributes(p.shares[..n - 1])), n - 1);
      assert p.shares[..n][..n - 1] == p.shares[..n - 1];
      var ops := Attributes(p.shares[..n]);
      assert ops[..|ops| - 1] == Attributes(p.shares[..n - 1]);
    }
  }

  // ----- the whole transaction

  lemma PlanInv(db: Db, h: nat, p: Plan, cur: Db)
    requires Inv(db) && h < |db.holds| && p.tx.hold == Some(h) && p.tx.related == None && p.tx.relation == None
    requires forall i: nat :: i < |p.postings| ==> PostingFits(db, p.postings[i])
    requires cur == db.(txs := db.txs + [p.tx], entries := db.entries + p.postings)
    ensures Inv(cur)
  {
    forall i: nat | i < |cur.entries| ensures cur.entries[i].tx < |cur.txs| && cur.entries[i].account < |cur.accounts| {
      if i >= |db.entries| {
        assert PostingFits(db, p.postings[i - |db.entries|]);
      }
    }
    FrameKeepsInv(db, cur);
  }

  /** Before the update: all rows of the plan are in. */
  lemma RowsIn(db: Db, now: int, h: nat, k: int, p: Plan)
    requires CommittedInv(db) && Capture(db, h, k, p)
    ensures var s := Run(Begin(db, now), [InsertTransaction(p.tx)] + Posts(p.postings) + Attributes(p.shares));
            Under(db, now, h, p, s) && Reached(db, p, |p.shares|, s.cur) && Inv(s.cur)
  {
    var s1 := Session(db, db.(txs := db.txs + [p.tx]), now, []);
    TransactionStep(db, now, h, p);
    RunOne(Begin(db, now), InsertTransaction(p.tx));
    RunAppends(Begin(db, now), [InsertTransaction(p.tx)], Posts(p.postings));
    PostsRun(db, now, h, p, s1, |p.postings|);
    assert p.postings[..|p.postings|] == p.postings && p.shares[..|p.shares|] == p.shares;
    var s2 := Run(s1, Posts(p.postings));
    PlanInv(db, h, p, s2.cur);
    assert db.lineage + p.shares[..0] == db.lineage;
    SharesRun(db, now, h, p, s2, |p.shares|);
    RunAppends(Begin(db, now), [InsertTransaction(p.tx)] + Posts(p.postings), Attributes(p.shares));
  }

  /** The tables the whole plan leaves. */
  ghost predicate Leaves(db: Db, h: nat, p: Plan, cur: Db)
    requires h < |db.holds|
  {
    cur == db.(txs := db.txs + [p.tx], entries := db.entries + p.postings, lineage := db.lineage + p.shares,
    holds := db.holds[h := p.row], chains := cur.chains)
  }

  lemma RowStep(db: Db, now: int, h: nat, k: int, p: Plan, s: Session)
    requires h < |db.holds| && db.holds[h].state == Held && 0 < k <= db.holds[h].remaining
    requires RowLeft(db.holds[h], k, p.row) && Under(db, now, h, p, s) && Reached(db, p, |p.shares|, s.cur)
    ensures var (s', outcome) := Exec(s, UpdateHold(h, p.row));
            Under(db, now, h, p, s') && Leaves(db, h, p, s'.cur) && outcome == Accepted
  {
    assert p.shares[..|p.shares|] == p.shares;
  }

  // ----- and commits

  lemma {:induction false} EntrySumJoined(rows: seq<Entry>, more: seq<Entry>, p: nat -> bool, q: nat -> bool,
                                          r: nat -> bool)
    requires forall e: nat :: e < |rows| ==> p(e) == q(e)
    requires forall i: nat :: i < |more| ==> p(|rows| + i) == r(i)
    ensures EntrySum(rows + more, p) == EntrySum(rows, q) + EntrySum(more, r)
    decreases |more|
  {
    var f := Magnitude(rows + more, p);
    if more == [] {
      assert rows + more == rows;
      SumSame(|rows|, f, Magnitude(rows, q));
    } else {
      var init := more[..|more| - 1];
      EntrySumJoined(rows, init, p, q, r);
      SumSame(|rows| + |init|, f, Magnitude(rows + init, p));
      SumSame(|init|, Magnitude(more, r), Magnitude(init, r));
      assert (rows + more)[|rows| + |init|] == more[|init|];
    }
  }

  lemma CapturedMore(db: Db, h: nat, p: Plan, cur: Db, debit: bool)
    requires Refs(db) && h < |db.holds| && Leaves(db, h, p, cur) && p.tx.hold == Some(h)
    requires forall i: nat :: i < |p.postings| ==> PostingFits(db, p.postings[i])
    ensures Captured(cur, h, debit) == Captured(db, h, debit) + Put(p.postings, debit)
  {
    forall e: nat | e < |db.entries| ensures HoldOf(cur, e) == HoldOf(db, e) {
    }
    forall e: nat | |db.entries| <= e < |cur.entries| ensures HoldOf(cur, e) == Some(h) {
      assert PostingFits(db, p.postings[e - |db.entries|]);
    }
    EntrySumJoined(db.entries, p.postings, CapturedBy(cur, h, debit), CapturedBy(db, h, debit),
                   OnSide(p.postings, debit));
  }

  lemma CapturedOnMore(db: Db, h: nat, p: Plan, cur: Db, a: nat, debit: bool)
    requires Refs(db) && h < |db.holds| && Leaves(db, h, p, cur) && p.tx.hold == Some(h)
    requires forall i: nat :: i < |p.postings| ==> PostingFits(db, p.postings[i])
    ensures CapturedFrom(cur, h, a, debit) == CapturedFrom(db, h, a, debit) + PutOn(p.postings, a, debit)
  {
    forall e: nat | e < |db.entries| ensures HoldOf(cur, e) == HoldOf(db, e) {
    }
    forall e: nat | |db.entries| <= e < |cur.entries| ensures HoldOf(cur, e) == Some(h) {
      assert PostingFits(db, p.postings[e - |db.entries|]);
    }
    EntrySumJoined(db.entries, p.postings, CapturedOn(cur, h, a, debit), CapturedOn(db, h, a, debit),
                   OnAccountSide(p.postings, a, debit));
  }

  lemma HeldSame(db: Db, cur: Db, h: nat)
    requires cur.holdEntries == db.holdEntries
    ensures forall debit :: HeldTotal(cur, h, debit) == HeldTotal(db, h, debit)
    ensures forall a: nat, debit :: HeldFrom(cur, h, a, debit) == HeldFrom(db, h, a, debit)
  {
    forall debit ensures HeldTotal(cur, h, debit) == HeldTotal(db, h, debit) {
      HeldSumStays(db.holdEntries, cur.holdEntries, HeldBy(db, h, debit), HeldBy(cur, h, debit));
    }
    forall a: nat, debit ensures HeldFrom(cur, h, a, debit) == HeldFrom(db, h, a, debit) {
      HeldSumStays(db.holdEntries, cur.holdEntries, HeldOn(db, h, a, debit), HeldOn(cur, h, a, debit));
    }
  }

  /** Two amounts in the same proportion add up in it. */
  lemma RatioAdds(was: int, whole: int, held: int, all: int, part: int, original: int, k: int,
                  now: int, total: int, held': int, all': int)
    requires was * whole == held * all && Ratio(part, original, held, k)
    requires original == whole && total == whole && held' == held && now == was + part && all' == all + k
    ensures now * total == held' * all'
  {
    assert now * total == was * whole + part * whole;
    assert held' * all' == held * all + held * k;
  }

  lemma CaptureInProportion(db: Db, h: nat, k: int, p: Plan, cur: Db, a: nat, debit: bool)
    requires Refs(db) && h < |db.holds| && Leaves(db, h, p, cur) && PostsPart(db, h, k, p) && a < |db.accounts|
    requires HeldTotal(db, h, true) == db.holds[h].original && InProportion(db, h, a, debit)
    ensures InProportion(cur, h, a, debit)
  {
    HeldSame(db, cur, h);
    CapturedMore(db, h, p, cur, true);
    CapturedOnMore(db, h, p, cur, a, debit);
    RatioAdds(CapturedFrom(db, h, a, debit), HeldTotal(db, h, true), HeldFrom(db, h, a, debit), Captured(db, h, true),
              PutOn(p.postings, a, debit), db.holds[h].original, k, CapturedFrom(cur, h, a, debit),
              HeldTotal(cur, h, true), HeldFrom(cur, h, a, debit), Captured(cur, h, true));
  }

  lemma CaptureAgrees(db: Db, h: nat, k: int, p: Plan, cur: Db)
    requires CommittedInv(db) && Capture(db, h, k, p) && Leaves(db, h, p, cur)
    ensures HoldConsistent(cur, h)
  {
    assert HoldConsistent(db, h) && HoldRowOk(db.holds[h]);
    HeldSame(db, cur, h);
    CapturedMore(db, h, p, cur, true);
    CapturedMore(db, h, p, cur, false);
    forall a: nat, debit: bool | a < |cur.accounts| ensures InProportion(cur, h, a, debit) {
      assert InProportion(db, h, a, debit);
      CaptureInProportion(db, h, k, p, cur, a, debit);
    }
  }

  lemma PostingAttributed(db: Db, h: nat, p: Plan, cur: Db, e: nat)
    requires Links(db) && h < |db.holds| && Leaves(db, h, p, cur) && Shared(db, h, p) && p.tx.relation == None
    requires |db.entries| <= e < |db.entries| + |p.postings| && PostingFits(db, p.postings[e - |db.entries|])
    ensures EntryAttributed(cur, e)
  {
    var i := e - |db.entries|;
    assert cur.entries[e] == p.postings[i] && cur.txs[cur.entries[e].tx] == p.tx;
    LineageSumJoined(db.lineage, p.shares, OnEntry(e));
    forall j: nat | j < |db.lineage| ensures !OnEntry(e)(db.lineage[j]) {
      assert Linked(db, db.lineage[j]);
    }
    SumZero(|db.lineage|, LineageTerm(db.lineage, OnEntry(e)));
    if GrantEnabled(cur, p.postings[i].account) {
      assert LineageSum(p.shares, OnEntry(|db.entries| + i)) == Abs(p.postings[i].amount);
    }
  }

  lemma OwnCheckPasses(db: Db, now: int, h: nat, k: int, p: Plan, cur: Db, f: Pending)
    requires CommittedInv(db) && Capture(db, h, k, p) && Leaves(db, h, p, cur) && HoldConsistent(cur, h)
    requires OwnCheck(db, h, p, f)
    ensures Passes(cur, now, f)
  {
    match f
    case EntryPosted(e) =>
      assert PostingFits(db, p.postings[e - |db.entries|]);
      PostingAttributed(db, h, p, cur, e);
      assert HoldOf(cur, e) == Some(h);
    case LineageWritten(i) =>
      assert ShareFits(db, p, p.shares[i - |db.lineage|]);
      assert cur.lineage[i] == p.shares[i - |db.lineage|];
    case _ =>
  }

  /**
   Captures get through: from every committed state, a transaction that posts k of a HELD grant hold in its
   proportions, attributed within what its lots have set aside, commits; in part it leaves the hold HELD
   with k less, in full it leaves it APPLIED.
   */
  lemma CaptureCommits(db: Db, now: int, h: nat, k: int, p: Plan, next: int)
    requires CommittedInv(db) && Capture(db, h, k, p)
    ensures var s := Run(Begin(db, now), CaptureOps(h, p));
            && Exec(s, Commit(next)) == (Begin(s.cur, next), Accepted)
            && s.cur.holds == db.holds[h := p.row] && s.cur.txs == db.txs + [p.tx]
            && s.cur.entries == db.entries + p.postings && s.cur.lineage == db.lineage + p.shares
  {
    var ops := [InsertTransaction(p.tx)] + Posts(p.postings) + Attributes(p.shares);
    var s := Run(Begin(db, now), ops);
    RowsIn(db, now, h, k, p);
    RowStep(db, now, h, k, p, s);
    RunAppends(Begin(db, now), ops, [UpdateHold(h, p.row)]);
    RunOne(s, UpdateHold(h, p.row));
    var s' := Run(Begin(db, now), CaptureOps(h, p));
    CaptureAgrees(db, h, k, p, s'.cur);
    forall i: nat | i < |s'.queue| ensures Passes(s'.cur, s'.now, s'.queue[i]) {
      OwnCheckPasses(db, now, h, k, p, s'.cur, s'.queue[i]);
    }
  }

  /** So over every run: whatever has been committed, such a capture may come next. */
  lemma CaptureOverRuns(now: int, ops: seq<Op>, began: int, h: nat, k: int, p: Plan, next: int)
    requires Capture(Run(Begin(EMPTY, now), ops).base, h, k, p)
    ensures var db := Run(Begin(EMPTY, now), ops).base;
            var db' := Run(Begin(EMPTY, now), ops + [Rollback(began)] + CaptureOps(h, p) + [Commit(next)]).base;
            db'.holds == db.holds[h := p.row] && db'.entries == db.entries + p.postings
            && db'.lineage == db.lineage + p.shares
  {
    var s := Run(Begin(EMPTY, now), ops);
    RunCommits(now, ops);
    CaptureCommits(s.base, began, h, k, p, next);
    RunAppends(Begin(EMPTY, now), ops, [Rollback(began)]);
    RunOne(s, Rollback(began));
    RunAppends(Begin(EMPTY, now), ops + [Rollback(began)], CaptureOps(h, p));
    RunAppends(Begin(EMPTY, now), ops + [Rollback(began)] + CaptureOps(h, p), [Commit(next)]);
    RunOne(Run(Begin(s.base, began), CaptureOps(h, p)), Commit(next));
  }
}
