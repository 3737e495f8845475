/**
 What the triggers conserve together: reversals restore each lot, accounts balance their lots, lots
 never outgrow their issuance.
 */
module Conservation {
  import opened Sums
  import opened Tables
  import opened Engine
  import opened Invariant
  import opened Preservation
  import opened Commits
  import opened Attribution

  // ----- capacity never exceeds issuance

  function TxKey(db: Db): nat -> nat {
    (i: nat) =>
      if i < |db.lineage| && db.lineage[i].entry < |db.entries| then db.entries[db.lineage[i].entry].tx else 0
  }

  function PerTx(db: Db, g: nat, k: Kind): nat -> int {
    (t: nat) => TxSum(db, g, k, t)
  }

  /** A grant's total under a kind is the sum over transactions of what each did. */
  lemma KindSumByTx(db: Db, g: nat, k: Kind)
    requires Refs(db) && Links(db)
    ensures KindSum(db, g, k) == SumTo(|db.txs|, PerTx(db, g, k))
  {
    var n, m := |db.txs|, |db.lineage|;
    var key, w := TxKey(db), LineageTerm(db.lineage, OfKind(g, k));
    forall i: nat | i < m
      ensures key(i) < n && TxOf(db, db.lineage[i].entry) == Some(key(i))
    {
      assert Linked(db, db.lineage[i]);
    }
    forall t: nat | t < n ensures PerTx(db, g, k)(t) == SumTo(m, Bucket(key, w, t)) {
      SumSame(m, LineageTerm(db.lineage, OfKindInTx(db, g, k, t)), Bucket(key, w, t));
    }
    SumByKey(n, m, key, w, PerTx(db, g, k));
  }

  function RelatedKey(db: Db): nat -> nat {
    (r: nat) => if r < |db.txs| && db.txs[r].related.Some? then db.txs[r].related.value else 0
  }

  lemma CompensationReverses(db: Db, g: nat, r: nat)
    requires Refs(db) && Links(db) && r < |db.txs| && TxSum(db, g, Compensation, r) != 0
    ensures db.txs[r].related.Some? && db.txs[r].relation == Some(Reverses)
  {
    forall i: nat | i < |db.lineage| ensures Linked(db, db.lineage[i]) {
    }
    LineageSumPositive(db.lineage, OfKindInTx(db, g, Compensation, r));
    var i: nat :| i < |db.lineage| && OfKindInTx(db, g, Compensation, r)(db.lineage[i]);
    assert Linked(db, db.lineage[i]);
  }

  /**
   Compensations never exceed consumptions: each compensating transaction reverses a distinct one,
   and gives a grant back at most what that one took. So remaining capacity never exceeds issuance.
   */
  lemma CompensatedAtMostConsumed(db: Db, g: nat)
    requires Inv(db)
    ensures KindSum(db, g, Compensation) <= KindSum(db, g, Consumption)
    ensures Totals(db, g).remaining <= Totals(db, g).granted
  {
    KindSumByTx(db, g, Compensation);
    KindSumByTx(db, g, Consumption);
    SumsNonNegative(db, g);
    var n, f, w, key := |db.txs|, PerTx(db, g, Compensation), PerTx(db, g, Consumption), RelatedKey(db);
    forall r: nat | r < n
      ensures f(r) == 0
              || (db.txs[r].relation == Some(Reverses) && db.txs[r].related == Some(key(r)) && key(r) < n
                  && f(r) <= w(key(r)))
    {
      if f(r) != 0 {
        CompensationReverses(db, g, r);
      }
    }
    SumInjected(n, n, f, key, w);
  }

  lemma CapacityWithinIssuance(now: int, ops: seq<Op>, g: nat)
    ensures var db := Run(Begin(EMPTY, now), ops).cur;
            g < |db.chains| ==>
              Current(db, g).compensated <= Current(db, g).consumed
                && Current(db, g).remaining <= Current(db, g).granted
  {
    RunKeepsInv(now, ops);
    CompensatedAtMostConsumed(Run(Begin(EMPTY, now), ops).cur, g);
  }

  // ----- account conservation

  function OnAccount(db: Db, a: nat, debit: bool): nat -> bool {
    (e: nat) =>
      && e < |db.entries| && db.entries[e].account == a
      && (if debit then db.entries[e].amount > 0 else db.entries[e].amount < 0)
  }

  function SignedTerm(db: Db, a: nat): nat -> int {
    (e: nat) => if e < |db.entries| && db.entries[e].account == a then db.entries[e].amount else 0
  }

  /** The account's posted signed balance. */
  function Balance(db: Db, a: nat): int {
    SumTo(|db.entries|, SignedTerm(db, a))
  }

  function RemainingOf(db: Db): nat -> int {
    (g: nat) => Current(db, g).remaining
  }

  function ReservedOf(db: Db): nat -> int {
    (g: nat) => Current(db, g).reserved
  }

  lemma BalanceSplits(db: Db, a: nat)
    requires Refs(db)
    ensures Balance(db, a) ==
            EntrySum(db.entries, OnAccount(db, a, true)) - EntrySum(db.entries, OnAccount(db, a, false))
  {
    SumPlus(|db.entries|, SignedTerm(db, a), Magnitude(db.entries, OnAccount(db, a, false)),
            Magnitude(db.entries, OnAccount(db, a, true)));
  }


  /** Rows of grant g up to the i-th, by kind: what they add to remaining. */
  function SignedLineage(rows: seq<Lineage>, g: nat): nat -> int {
    (i: nat) =>
      if i < |rows| && rows[i].grant == g then
        (if rows[i].kind == Issuance || rows[i].kind == Compensation then rows[i].amount else -rows[i].amount)
      else 0
  }

  /** Remaining capacity is the signed sum of the grant's rows, prefix by prefix. */
  lemma {:induction false} RemainingBySign(rows: seq<Lineage>, g: nat, n: nat)
    requires n <= |rows|
    ensures SumTo(n, SignedLineage(rows, g)) ==
            SumTo(n, LineageTerm(rows, OfKind(g, Issuance))) + SumTo(n, LineageTerm(rows, OfKind(g, Compensation)))
            - SumTo(n, LineageTerm(rows, OfKind(g, Reversal))) - SumTo(n, LineageTerm(rows, OfKind(g, Refund)))
            - SumTo(n, LineageTerm(rows, OfKind(g, Consumption))) - SumTo(n, LineageTerm(rows, OfKind(g, Expiration)))
  {
    if n > 0 {
      RemainingBySign(rows, g, n - 1);
    }
  }

  /** Credits to a grant's account raise its remaining capacity and debits lower it, row by row. */
  lemma RemainingIsNet(db: Db, a: nat, g: nat)
    requires Inv(db) && g < |db.grants| && db.grants[g].account == a
    ensures Current(db, g).remaining ==
            LineageOn(db, OnAccount(db, a, false))(g) - LineageOn(db, OnAccount(db, a, true))(g)
  {
    var m := |db.lineage|;
    var credit, debit :=
        LineageTerm(db.lineage, OnEntries(g, OnAccount(db, a, false))),
        LineageTerm(db.lineage, OnEntries(g, OnAccount(db, a, true)));
    var signed := SignedLineage(db.lineage, g);
    forall i: nat | i < m ensures credit(i) == signed(i) + debit(i) {
      assert Linked(db, db.lineage[i]);
    }
    SumPlus(m, signed, debit, credit);
    RemainingBySign(db.lineage, g, m);
    assert Current(db, g) == Totals(db, g);
  }

  /** How far the remaining capacity of an account's lots is from its credit balance. */
  function Gap(db: Db, a: nat): int {
    GrantSum(db, a, RemainingOf(db)) + Balance(db, a)
  }

  /** Lineage written on one side of the account beyond what is posted there. */
  function Excess(db: Db, a: nat, debit: bool): int {
    LineageSum(db.lineage, AllOnEntries(OnAccount(db, a, debit))) - EntrySum(db.entries, OnAccount(db, a, debit))
  }

  lemma RemainingByAccount(db: Db, a: nat)
    requires Inv(db)
    ensures GrantSum(db, a, RemainingOf(db)) ==
            LineageSum(db.lineage, AllOnEntries(OnAccount(db, a, false)))
              - LineageSum(db.lineage, AllOnEntries(OnAccount(db, a, true)))
  {
    AttributionByGrant(db, a, OnAccount(db, a, true));
    AttributionByGrant(db, a, OnAccount(db, a, false));
    forall g: nat | g < |db.grants| && db.grants[g].account == a
      ensures Current(db, g).remaining ==
              LineageOn(db, OnAccount(db, a, false))(g) - LineageOn(db, OnAccount(db, a, true))(g)
    {
      RemainingIsNet(db, a, g);
    }
    SumPlus(|db.grants|, OverGrants(db, a, RemainingOf(db)), OverGrants(db, a, LineageOn(db, OnAccount(db, a, true))),
            OverGrants(db, a, LineageOn(db, OnAccount(db, a, false))));
  }

  lemma ReservedWithinRemaining(db: Db, a: nat)
    requires Chained(db)
    ensures 0 <= GrantSum(db, a, ReservedOf(db)) <= GrantSum(db, a, RemainingOf(db))
  {
    forall g: nat ensures 0 <= Current(db, g).reserved <= Current(db, g).remaining {
      CurrentOk(db, g);
    }
    SumNonNegative(|db.grants|, OverGrants(db, a, ReservedOf(db)));
    SumAtMost(|db.grants|, OverGrants(db, a, ReservedOf(db)), OverGrants(db, a, RemainingOf(db)));
  }

  /**
   The remaining capacity of an account's lots is its credit balance, so that it is never overdrawn
   and its credit covers every reservation, if and only if lineage exceeds the postings by as much on
   the debit side as on the credit side; in general the two excesses are the whole difference.
   */
  lemma AccountConserved(db: Db, a: nat)
    requires Inv(db)
    ensures Gap(db, a) == Excess(db, a, false) - Excess(db, a, true)
    ensures GrantSum(db, a, RemainingOf(db)) == -Balance(db, a) <==> Excess(db, a, true) == Excess(db, a, false)
    ensures 0 <= GrantSum(db, a, ReservedOf(db)) <= -Balance(db, a) + Gap(db, a)
  {
    BalanceSplits(db, a);
    RemainingByAccount(db, a);
    ReservedWithinRemaining(db, a);
  }

  // ----- what one commit does to the difference

  /** Lineage of this transaction on committed entries of the account's one side. */
  function LateTerm(s: Session, a: nat, debit: bool): nat -> int {
    (i: nat) =>
      if |s.base.lineage| <= i < |s.cur.lineage| && s.cur.lineage[i].entry < |s.base.entries|
         && OnAccount(s.base, a, debit)(s.cur.lineage[i].entry) then s.cur.lineage[i].amount else 0
  }

  function Late(s: Session, a: nat, debit: bool): int {
    SumTo(|s.cur.lineage|, LateTerm(s, a, debit))
  }

  /** The account's entries that this transaction posted. */
  function NewOn(s: Session, a: nat, debit: bool): nat -> bool {
    (e: nat) =>
      && |s.base.entries| <= e < |s.cur.entries| && s.cur.entries[e].account == a
      && (if debit then s.cur.entries[e].amount > 0 else s.cur.entries[e].amount < 0)
  }

  lemma PostingsSplit(s: Session, a: nat, debit: bool)
    requires Grows(s.base, s.cur)
    ensures EntrySum(s.cur.entries, OnAccount(s.cur, a, debit)) ==
            EntrySum(s.base.entries, OnAccount(s.base, a, debit)) + EntrySum(s.cur.entries, NewOn(s, a, debit))
  {
    var m := |s.cur.entries|;
    var was := (e: nat) =>
      if e < |s.base.entries| then Magnitude(s.base.entries, OnAccount(s.base, a, debit))(e) else 0;
    SumPadded(|s.base.entries|, m, Magnitude(s.base.entries, OnAccount(s.base, a, debit)), was);
    SumPlus(m, was, Magnitude(s.cur.entries, NewOn(s, a, debit)), Magnitude(s.cur.entries, OnAccount(s.cur, a, debit)));
  }

  lemma SidesStay(s: Session, a: nat, debit: bool, e: nat)
    requires Grows(s.base, s.cur)
    ensures e < |s.base.entries| ==>
              OnAccount(s.cur, a, debit)(e) == OnAccount(s.base, a, debit)(e) && !NewOn(s, a, debit)(e)
    ensures e >= |s.base.entries| ==>
              !OnAccount(s.base, a, debit)(e) && OnAccount(s.cur, a, debit)(e) == NewOn(s, a, debit)(e)
  {
    if e < |s.base.entries| {
      assert s.cur.entries[e] == s.base.entries[e];
    }
  }

  /** A row of the working lineage is a committed one, a late one, or on an entry of this transaction. */
  lemma RowSplits(s: Session, a: nat, debit: bool, i: nat)
    requires Open(s) && i < |s.cur.lineage|
    ensures LineageTerm(s.cur.lineage, AllOnEntries(OnAccount(s.cur, a, debit)))(i) ==
            LineageTerm(s.base.lineage, AllOnEntries(OnAccount(s.base, a, debit)))(i) + LateTerm(s, a, debit)(i)
            + LineageTerm(s.cur.lineage, AllOnEntries(NewOn(s, a, debit)))(i)
  {
    SidesStay(s, a, debit, s.cur.lineage[i].entry);
    if i < |s.base.lineage| {
      assert s.cur.lineage[i] == s.base.lineage[i] && Linked(s.base, s.base.lineage[i]);
    }
  }

  lemma LineageSplits(s: Session, a: nat, debit: bool)
    requires Open(s)
    ensures LineageSum(s.cur.lineage, AllOnEntries(OnAccount(s.cur, a, debit))) ==
            LineageSum(s.base.lineage, AllOnEntries(OnAccount(s.base, a, debit))) + Late(s, a, debit)
            + LineageSum(s.cur.lineage, AllOnEntries(NewOn(s, a, debit)))
  {
    var n, m := |s.base.lineage|, |s.cur.lineage|;
    var before := LineageTerm(s.base.lineage, AllOnEntries(OnAccount(s.base, a, debit)));
    var after := LineageTerm(s.cur.lineage, AllOnEntries(OnAccount(s.cur, a, debit)));
    var added := LineageTerm(s.cur.lineage, AllOnEntries(NewOn(s, a, debit)));
    var known := (i: nat) => before(i) + LateTerm(s, a, debit)(i);
    forall i: nat | i < m ensures after(i) == known(i) + added(i) {
      RowSplits(s, a, debit, i);
    }
    SumPadded(n, m, before, before);
    SumPlus(m, before, LateTerm(s, a, debit), known);
    SumPlus(m, known, added, after);
  }

  /** The commit checked that what it posted is attributed in full, so an excess moves by the late rows alone. */
  lemma ExcessMoves(s: Session, a: nat, debit: bool)
    requires Open(s) && CommitPasses(s) && GrantEnabled(s.cur, a)
    ensures Excess(s.cur, a, debit) == Excess(s.base, a, debit) + Late(s, a, debit)
  {
    PostingsSplit(s, a, debit);
    LineageSplits(s, a, debit);
    forall e: nat | e < |s.cur.entries| && NewOn(s, a, debit)(e)
      ensures Attributed(s.cur, e) == Abs(s.cur.entries[e].amount)
    {
      assert EntryPosted(e) in s.queue;
      assert EntryAttributed(s.cur, e);
    }
    AttributionByEntry(s.cur, NewOn(s, a, debit));
  }

  /**
   What one commit does to an account: its lots drift from its balance by exactly the late lineage on
   its credits less the late lineage on its debits. A balanced account stays so iff the two are equal.
   */
  lemma CommitDrifts(s: Session, a: nat)
    requires Open(s) && CommitPasses(s) && GrantEnabled(s.cur, a)
    ensures Gap(s.cur, a) == Gap(s.base, a) + Late(s, a, false) - Late(s, a, true)
    ensures Gap(s.base, a) == 0 ==>
              (GrantSum(s.cur, a, RemainingOf(s.cur)) == -Balance(s.cur, a) <==> Late(s, a, false) == Late(s, a, true))
  {
    AccountConserved(s.base, a);
    AccountConserved(s.cur, a);
    ExcessMoves(s, a, false);
    ExcessMoves(s, a, true);
  }

  // ----- over whole runs

  function Drift(s: Session, a: nat): int {
    Late(s, a, false) - Late(s, a, true)
  }

  /** The drift of the first n commits together. */
  function TotalDrift(done: seq<Session>, a: nat, n: nat): int
    requires n <= |done|
  {
    if n == 0 then 0 else TotalDrift(done, a, n - 1) + Drift(done[n - 1], a)
  }

  lemma NoAccountNoGap(db: Db, a: nat)
    requires Refs(db) && a >= |db.accounts|
    ensures Gap(db, a) == 0
  {
    SumZero(|db.grants|, OverGrants(db, a, RemainingOf(db)));
    SumZero(|db.entries|, SignedTerm(db, a));
  }

  lemma NoAccountNoDrift(s: Session, a: nat)
    requires Open(s) && a >= |s.base.accounts|
    ensures Late(s, a, false) == 0 && Late(s, a, true) == 0
  {
    assert Refs(s.base);
    assert forall e: nat, debit: bool :: !OnAccount(s.base, a, debit)(e);
    SumZero(|s.cur.lineage|, LateTerm(s, a, false));
    SumZero(|s.cur.lineage|, LateTerm(s, a, true));
  }

  lemma DriftStep(done: seq<Session>, a: nat, n: nat)
    requires 0 < n <= |done| && ChainedCommit(done, n - 1) && GrantEnabled(done[n - 1].cur, a)
    ensures Gap(done[n - 1].cur, a) == Gap(Before(done, n - 1), a) + Drift(done[n - 1], a)
    ensures GrantEnabled(Before(done, n - 1), a) || a >= |Before(done, n - 1).accounts|
    ensures a >= |Before(done, n - 1).accounts| ==> Gap(Before(done, n - 1), a) == 0
  {
    var s := done[n - 1];
    CommitDrifts(s, a);
    if a >= |s.base.accounts| {
      NoAccountNoGap(s.base, a);
    }
  }

  lemma {:induction false} NoDriftBefore(done: seq<Session>, a: nat, n: nat)
    requires n <= |done| && ChainedCommits(done) && a >= |Before(done, n).accounts|
    ensures TotalDrift(done, a, n) == 0
  {
    if n > 0 {
      var s := done[n - 1];
      assert ChainedCommit(done, n - 1);
      NoAccountNoDrift(s, a);
      NoDriftBefore(done, a, n - 1);
    }
  }

  lemma {:induction false} DriftOverCommits(done: seq<Session>, a: nat, n: nat)
    requires n <= |done| && ChainedCommits(done) && GrantEnabled(Before(done, n), a)
    ensures Gap(Before(done, n), a) == TotalDrift(done, a, n)
  {
    if n > 0 {
      assert ChainedCommit(done, n - 1);
      DriftStep(done, a, n);
      if GrantEnabled(Before(done, n - 1), a) {
        DriftOverCommits(done, a, n - 1);
      } else {
        NoDriftBefore(done, a, n - 1);
      }
    }
  }

  /**
   Account conservation over whole runs, whenever lineage is written: in every committed state an account's
   lots differ from its balance by the drift of its commits, so they agree if and only if that is zero.
   */
  lemma ConservedOverRuns(now: int, ops: seq<Op>, a: nat)
    requires GrantEnabled(Run(Begin(EMPTY, now), ops).base, a)
    ensures var db, drift := Run(Begin(EMPTY, now), ops).base, TotalDrift(Passed(now, ops), a, |Passed(now, ops)|);
            && Gap(db, a) == drift
            && (GrantSum(db, a, RemainingOf(db)) == -Balance(db, a) <==> drift == 0)
            && 0 <= GrantSum(db, a, ReservedOf(db)) <= -Balance(db, a) + drift
  {
    PassedChain(now, ops);
    RunCommits(now, ops);
    DriftOverCommits(Passed(now, ops), a, |Passed(now, ops)|);
    AccountConserved(Run(Begin(EMPTY, now), ops).base, a);
  }

  lemma FreshNoDrift(s: Session, a: nat)
    requires Open(s) && LineageFresh(s)
    ensures Drift(s, a) == 0
  {
    SumZero(|s.cur.lineage|, LateTerm(s, a, false));
    SumZero(|s.cur.lineage|, LateTerm(s, a, true));
  }

  lemma {:induction false} AttributedPassed(now: int, ops: seq<Op>, a: nat)
    requires AttributedRun(Begin(EMPTY, now), ops)
    ensures TotalDrift(Passed(now, ops), a, |Passed(now, ops)|) == 0
  {
    if ops != [] {
      var done, s := Passed(now, ops[..|ops| - 1]), Run(Begin(EMPTY, now), ops[..|ops| - 1]);
      AttributedPassed(now, ops[..|ops| - 1], a);
      if ops[|ops| - 1].Commit? && CommitPasses(s) {
        AttributedRunCommits(now, ops[..|ops| - 1]);
        assert Passed(now, ops) == done + [s];
        NoDriftAdded(done, s, a);
      } else {
        assert Passed(now, ops) == done;
      }
    }
  }

  lemma NoDriftAdded(done: seq<Session>, s: Session, a: nat)
    requires TotalDrift(done, a, |done|) == 0 && Open(s) && LineageFresh(s)
    ensures TotalDrift(done + [s], a, |done + [s]|) == 0
  {
    FreshNoDrift(s, a);
    DriftSnoc(done, s, a, |done|);
  }

  lemma {:induction false} DriftSnoc(done: seq<Session>, s: Session, a: nat, n: nat)
    requires n <= |done|
    ensures TotalDrift(done + [s], a, n) == TotalDrift(done, a, n)
    ensures n == |done| ==> TotalDrift(done + [s], a, n + 1) == TotalDrift(done, a, n) + Drift(s, a)
  {
    if n > 0 {
      DriftSnoc(done, s, a, n - 1);
    }
  }

  /** Callers that write lineage in time never drift: the account balances in every committed state. */
  lemma InTimeConserves(now: int, ops: seq<Op>, a: nat)
    requires AttributedRun(Begin(EMPTY, now), ops) && GrantEnabled(Run(Begin(EMPTY, now), ops).base, a)
    ensures var db := Run(Begin(EMPTY, now), ops).base;
            GrantSum(db, a, RemainingOf(db)) == -Balance(db, a)
              && 0 <= GrantSum(db, a, ReservedOf(db)) <= -Balance(db, a)
  {
    ConservedOverRuns(now, ops, a);
    AttributedPassed(now, ops, a);
  }

  // ----- reversals restore each lot

  /** Rows of grant g on debits of transaction t that are not consumptions. */
  function OtherDebitRow(db: Db, g: nat, t: nat): Lineage -> bool {
    (l: Lineage) =>
      && l.grant == g && l.kind != Consumption
      && l.entry < |db.entries| && db.entries[l.entry].tx == t && db.entries[l.entry].amount > 0
  }

  function OtherDebit(db: Db, t: nat): nat -> int {
    (g: nat) => LineageSum(db.lineage, OtherDebitRow(db, g, t))
  }

  function Issued(db: Db, r: nat): nat -> int {
    (g: nat) => TxSum(db, g, Issuance, r)
  }

  /** What reversal r leaves unrestored of what t took: consumption not given back, plus other debits. */
  function Unrestored(db: Db, r: nat, t: nat): nat -> int {
    (g: nat) => TxSum(db, g, Consumption, t) - TxSum(db, g, Compensation, r) + OtherDebit(db, t)(g)
  }

  lemma DebitsSplit(db: Db, a: nat, t: nat, g: nat)
    requires Refs(db) && Links(db) && g < |db.grants| && db.grants[g].account == a
    ensures LineageOn(db, PostedBy(db, t, a, true))(g) == TxSum(db, g, Consumption, t) + OtherDebit(db, t)(g)
  {
    var pe := PostedBy(db, t, a, true);
    var all, used :=
        LineageTerm(db.lineage, OnEntries(g, pe)), LineageTerm(db.lineage, OfKindInTx(db, g, Consumption, t));
    var other := LineageTerm(db.lineage, OtherDebitRow(db, g, t));
    forall i: nat | i < |db.lineage| ensures all(i) == used(i) + other(i) {
      var l := db.lineage[i];
      assert Linked(db, l);
      assert OnEntries(g, pe)(l) <==> l.grant == g && pe(l.entry);
      assert TxOf(db, l.entry) == Some(db.entries[l.entry].tx);
    }
    SumPlus(|db.lineage|, used, other, all);
  }

  lemma CreditsSplit(db: Db, a: nat, r: nat, g: nat)
    requires Refs(db) && Links(db) && g < |db.grants| && db.grants[g].account == a
    ensures LineageOn(db, PostedBy(db, r, a, false))(g) == TxSum(db, g, Compensation, r) + Issued(db, r)(g)
  {
    var pe := PostedBy(db, r, a, false);
    var all, back :=
        LineageTerm(db.lineage, OnEntries(g, pe)), LineageTerm(db.lineage, OfKindInTx(db, g, Compensation, r));
    var issued := LineageTerm(db.lineage, OfKindInTx(db, g, Issuance, r));
    forall i: nat | i < |db.lineage| ensures all(i) == back(i) + issued(i) {
      var l := db.lineage[i];
      assert Linked(db, l);
      assert OnEntries(g, pe)(l) <==> l.grant == g && pe(l.entry);
      assert TxOf(db, l.entry) == Some(db.entries[l.entry].tx);
    }
    SumPlus(|db.lineage|, back, issued, all);
  }

  /** Transaction r reverses t and credits grant-enabled account a; entry e is one of its credits there. */
  ghost predicate ReversesOn(db: Db, r: nat, t: nat, a: nat, e: nat) {
    && r < |db.txs| && db.txs[r].relation == Some(Reverses) && db.txs[r].related == Some(t)
    && GrantEnabled(db, a)
    && e < |db.entries| && PostedBy(db, r, a, false)(e)
  }

  /** The reversal's credits to the account and the original's debits there, regrouped by grant. */
  lemma ReversalBalances(db: Db, r: nat, t: nat, a: nat, e: nat)
    requires Inv(db) && FullyAttributed(db) && ReversesOn(db, r, t, a, e) && EntryAttributed(db, e)
    ensures GrantSum(db, a, Unrestored(db, r, t)) == GrantSum(db, a, Issued(db, r))
  {
    PostedByGrant(db, a, PostedBy(db, r, a, false));
    PostedByGrant(db, a, PostedBy(db, t, a, true));
    forall g: nat | g < |db.grants| && db.grants[g].account == a
      ensures LineageOn(db, PostedBy(db, t, a, true))(g) - LineageOn(db, PostedBy(db, r, a, false))(g) ==
              Unrestored(db, r, t)(g) - Issued(db, r)(g)
    {
      DebitsSplit(db, a, t, g);
      CreditsSplit(db, a, r, g);
    }
    var debits, credits :=
        OverGrants(db, a, LineageOn(db, PostedBy(db, t, a, true))),
        OverGrants(db, a, LineageOn(db, PostedBy(db, r, a, false)));
    var lost, issued := OverGrants(db, a, Unrestored(db, r, t)), OverGrants(db, a, Issued(db, r));
    var both := (g: nat) => debits(g) + issued(g);
    SumPlus(|db.grants|, debits, issued, both);
    SumPlus(|db.grants|, credits, lost, both);
  }

  ghost predicate NothingIssued(db: Db, r: nat, a: nat) {
    forall i: nat :: i < |db.lineage| && db.lineage[i].account == a && TxOf(db, db.lineage[i].entry) == Some(r) ==>
      db.lineage[i].kind != Issuance
  }

  /** Each lot of the account gets back exactly what t took from it, and t took nothing there except by consumption. */
  ghost predicate RestoresEachLot(db: Db, r: nat, t: nat, a: nat) {
    && (forall g: nat :: g < |db.grants| && db.grants[g].account == a ==>
          TxSum(db, g, Compensation, r) == TxSum(db, g, Consumption, t))
    && (forall i: nat ::
          i < |db.lineage| && db.lineage[i].account == a
          && PostedBy(db, t, a, true)(db.lineage[i].entry) ==>
          db.lineage[i].kind == Consumption)
  }

  lemma UnrestoredZero(db: Db, r: nat, t: nat, g: nat, a: nat)
    requires Inv(db) && r < |db.txs| && db.txs[r].related == Some(t) && g < |db.grants| && db.grants[g].account == a
    ensures Unrestored(db, r, t)(g) >= 0
    ensures Unrestored(db, r, t)(g) == 0 <==>
            && TxSum(db, g, Compensation, r) == TxSum(db, g, Consumption, t)
            && forall i: nat :: i < |db.lineage| ==> !OtherDebitRow(db, g, t)(db.lineage[i])
  {
    forall i: nat | i < |db.lineage| ensures Linked(db, db.lineage[i]) {
    }
    LineageSumPositive(db.lineage, OtherDebitRow(db, g, t));
    assert OtherDebit(db, t)(g) == LineageSum(db.lineage, OtherDebitRow(db, g, t));
    assert TxSum(db, g, Compensation, r) <= TxSum(db, g, Consumption, db.txs[r].related.value);
  }

  lemma SumZeroIff(n: nat, f: nat -> int)
    requires forall i: nat :: i < n ==> f(i) >= 0
    ensures SumTo(n, f) == 0 <==> forall i: nat :: i < n ==> f(i) == 0
  {
    var zero := (i: nat) => 0;
    SumZero(n, zero);
    if SumTo(n, f) == 0 {
      SumTight(n, zero, f);
      forall i: nat | i < n ensures f(i) == 0 {
        assert f(i) == zero(i);
      }
    } else if forall i: nat :: i < n ==> f(i) == 0 {
      SumZero(n, f);
    }
  }

  lemma RestoredIff(db: Db, r: nat, t: nat, a: nat)
    requires Inv(db) && r < |db.txs| && db.txs[r].related == Some(t)
    ensures GrantSum(db, a, Unrestored(db, r, t)) == 0 <==> RestoresEachLot(db, r, t, a)
  {
    var f := OverGrants(db, a, Unrestored(db, r, t));
    forall g: nat | g < |db.grants| && db.grants[g].account == a
      ensures Unrestored(db, r, t)(g) >= 0
      ensures Unrestored(db, r, t)(g) == 0 <==>
              && TxSum(db, g, Compensation, r) == TxSum(db, g, Consumption, t)
              && forall i: nat :: i < |db.lineage| ==> !OtherDebitRow(db, g, t)(db.lineage[i])
    {
      UnrestoredZero(db, r, t, g, a);
    }
    SumZeroIff(|db.grants|, f);
    forall i: nat | i < |db.lineage|
      ensures OtherDebitRow(db, db.lineage[i].grant, t)(db.lineage[i]) && db.lineage[i].account == a <==>
              db.lineage[i].account == a && PostedBy(db, t, a, true)(db.lineage[i].entry)
                && db.lineage[i].kind != Consumption
      ensures db.lineage[i].grant < |db.grants| && db.grants[db.lineage[i].grant].account == db.lineage[i].account
    {
      assert Linked(db, db.lineage[i]);
    }
    if SumTo(|db.grants|, f) == 0 {
      forall i: nat | i < |db.lineage| && db.lineage[i].account == a && PostedBy(db, t, a, true)(db.lineage[i].entry)
        ensures db.lineage[i].kind == Consumption
      {
        assert f(db.lineage[i].grant) == 0;
      }
      forall g: nat | g < |db.grants| && db.grants[g].account == a
        ensures TxSum(db, g, Compensation, r) == TxSum(db, g, Consumption, t)
      {
        assert f(g) == 0;
      }
    }
  }

  lemma IssuedIff(db: Db, r: nat, a: nat)
    requires Inv(db)
    ensures GrantSum(db, a, Issued(db, r)) == 0 <==> NothingIssued(db, r, a)
  {
    var f := OverGrants(db, a, Issued(db, r));
    forall i: nat | i < |db.lineage| ensures Linked(db, db.lineage[i]) {
    }
    forall g: nat
      ensures f(g) >= 0
      ensures g < |db.grants| && db.grants[g].account == a ==>
                (f(g) == 0 <==> forall i: nat :: i < |db.lineage| ==> !OfKindInTx(db, g, Issuance, r)(db.lineage[i]))
    {
      LineageSumPositive(db.lineage, OfKindInTx(db, g, Issuance, r));
    }
    SumZeroIff(|db.grants|, f);
    if i: nat :| i < |db.lineage| && db.lineage[i].account == a && TxOf(db, db.lineage[i].entry) == Some(r)
                 && db.lineage[i].kind == Issuance
    {
      assert OfKindInTx(db, db.lineage[i].grant, Issuance, r)(db.lineage[i]);
      assert f(db.lineage[i].grant) != 0;
    }
  }

  /**
   A committed reversal that credits a grant-enabled account restores each lot exactly, and the
   original's debits there were all consumptions, if and only if the reversal issues no grant there.
   */
  lemma ReversalRestores(db: Db, r: nat, t: nat, a: nat, e: nat)
    requires Inv(db) && FullyAttributed(db) && ReversesOn(db, r, t, a, e) && EntryAttributed(db, e)
    ensures RestoresEachLot(db, r, t, a) <==> NothingIssued(db, r, a)
  {
    ReversalBalances(db, r, t, a, e);
    RestoredIff(db, r, t, a);
    IssuedIff(db, r, a);
  }

  /** At the commit that posts the reversing credit, in every run that writes lineage in time. */
  lemma ReversalAtCommit(now: int, ops: seq<Op>, r: nat, t: nat, a: nat, e: nat)
    requires AttributedRun(Begin(EMPTY, now), ops) && CommitPasses(Run(Begin(EMPTY, now), ops))
    requires var s := Run(Begin(EMPTY, now), ops); e >= |s.base.entries| && ReversesOn(s.cur, r, t, a, e)
    ensures var db := Run(Begin(EMPTY, now), ops).cur; RestoresEachLot(db, r, t, a) <==> NothingIssued(db, r, a)
  {
    var s := Run(Begin(EMPTY, now), ops);
    AttributedRunCommits(now, ops);
    AttributionKept(s);
    assert EntryPosted(e) in s.queue;
    ReversalRestores(s.cur, r, t, a, e);
  }

  lemma NoGrantNothingIssued(db: Db, r: nat, a: nat)
    requires Inv(db) && forall g: nat :: g < |db.grants| ==> db.grants[g].source != r
    ensures NothingIssued(db, r, a)
  {
    forall i: nat | i < |db.lineage| && TxOf(db, db.lineage[i].entry) == Some(r)
      ensures db.lineage[i].kind != Issuance
    {
      assert Linked(db, db.lineage[i]);
    }
  }

  // ----- what keeps a reversal exact afterwards

  /** Each lot is rechecked or consumes no more in t, and t's debits on the account gain only consumptions. */
  ghost predicate RestorationKept(s: Session, r: nat, t: nat, a: nat) {
    && (forall g: nat :: g < |s.cur.grants| && s.cur.grants[g].account == a ==> StillCompensated(s, g, r, t))
    && (forall i: nat ::
          (|s.base.lineage| <= i < |s.cur.lineage| && s.cur.lineage[i].account == a
           && PostedBy(s.cur, t, a, true)(s.cur.lineage[i].entry)) ==>
            s.cur.lineage[i].kind == Consumption)
  }

  ghost predicate LotRestored(db: Db, g: nat, r: nat, t: nat) {
    TxSum(db, g, Compensation, r) == TxSum(db, g, Consumption, t)
  }

  lemma LotStep(s: Session, r: nat, t: nat, a: nat, g: nat)
    requires Open(s) && CommitPasses(s) && r < |s.base.txs| && s.base.txs[r].related == Some(t)
    requires RestoresEachLot(s.base, r, t, a) && g < |s.cur.grants| && s.cur.grants[g].account == a
    ensures LotRestored(s.cur, g, r, t) <==> StillCompensated(s, g, r, t)
  {
    if g >= |s.base.grants| {
      forall k: Kind, q: nat ensures TxSum(s.base, g, k, q) == 0 {
        LineageSumPositive(s.base.lineage, OfKindInTx(s.base, g, k, q));
      }
    }
    CompensationStep(s, g, r, t);
  }

  lemma DebitRowsStep(s: Session, t: nat, a: nat, i: nat)
    requires Open(s) && i < |s.base.lineage|
    ensures s.cur.lineage[i] == s.base.lineage[i]
    ensures PostedBy(s.cur, t, a, true)(s.cur.lineage[i].entry) == PostedBy(s.base, t, a, true)(s.base.lineage[i].entry)
  {
    assert Linked(s.base, s.base.lineage[i]);
  }

  /** A commit leaves a restored reversal restored if and only if it disturbs no lot of it. */
  lemma RestorationStays(s: Session, r: nat, t: nat, a: nat)
    requires Open(s) && CommitPasses(s) && r < |s.base.txs| && s.base.txs[r].related == Some(t)
    requires RestoresEachLot(s.base, r, t, a)
    ensures RestoresEachLot(s.cur, r, t, a) <==> RestorationKept(s, r, t, a)
  {
    forall g: nat | g < |s.cur.grants| && s.cur.grants[g].account == a
      ensures LotRestored(s.cur, g, r, t) <==> StillCompensated(s, g, r, t)
    {
      LotStep(s, r, t, a, g);
    }
    forall i: nat | i < |s.base.lineage|
      ensures s.cur.lineage[i] == s.base.lineage[i]
      ensures PostedBy(s.cur, t, a, true)(s.cur.lineage[i].entry) ==
              PostedBy(s.base, t, a, true)(s.base.lineage[i].entry)
    {
      DebitRowsStep(s, t, a, i);
    }
    RestoredBoth(s, r, t, a);
  }

  lemma RestoredBoth(s: Session, r: nat, t: nat, a: nat)
    requires RestoresEachLot(s.base, r, t, a) && s.base.lineage <= s.cur.lineage
    requires forall g: nat :: g < |s.cur.grants| && s.cur.grants[g].account == a ==>
               (LotRestored(s.cur, g, r, t) <==> StillCompensated(s, g, r, t))
    requires forall i: nat :: i < |s.base.lineage| ==>
               PostedBy(s.cur, t, a, true)(s.cur.lineage[i].entry) ==
                 PostedBy(s.base, t, a, true)(s.base.lineage[i].entry)
    ensures RestoresEachLot(s.cur, r, t, a) <==> RestorationKept(s, r, t, a)
  {
    if RestorationKept(s, r, t, a) {
      forall g: nat | g < |s.cur.grants| && s.cur.grants[g].account == a
        ensures TxSum(s.cur, g, Compensation, r) == TxSum(s.cur, g, Consumption, t)
      {
        assert LotRestored(s.cur, g, r, t);
      }
    }
  }

  ghost predicate RestoredFrom(done: seq<Session>, m: nat, n: nat, r: nat, t: nat, a: nat)
    requires m < n <= |done|
    decreases n
  {
    RestoresEachLot(done[n - 1].cur, r, t, a) && (n - 1 == m || RestoredFrom(done, m, n - 1, r, t, a))
  }

  ghost predicate RestorationKeptFrom(done: seq<Session>, m: nat, n: nat, r: nat, t: nat, a: nat)
    requires m < n <= |done|
    decreases n
  {
    n - 1 == m || (RestorationKept(done[n - 1], r, t, a) && RestorationKeptFrom(done, m, n - 1, r, t, a))
  }

  lemma {:induction false} RelatedStays(done: seq<Session>, m: nat, n: nat, r: nat)
    requires m < n <= |done| && ChainedCommits(done) && r < |done[m].cur.txs|
    ensures r < |done[n - 1].cur.txs| && done[n - 1].cur.txs[r] == done[m].cur.txs[r]
    decreases n
  {
    if n - 1 > m {
      RelatedStays(done, m, n - 1, r);
      assert ChainedCommit(done, n - 1);
    }
  }

  lemma RestorationNext(done: seq<Session>, m: nat, n: nat, r: nat, t: nat, a: nat)
    requires m < n < |done| && ChainedCommits(done)
    requires r < |done[m].cur.txs| && done[m].cur.txs[r].related == Some(t) && RestoresEachLot(done[n - 1].cur, r, t, a)
    ensures RestoresEachLot(done[n].cur, r, t, a) <==> RestorationKept(done[n], r, t, a)
  {
    RelatedStays(done, m, n, r);
    assert ChainedCommit(done, n);
    RestorationStays(done[n], r, t, a);
  }

  lemma {:induction false} RestoredStep(done: seq<Session>, m: nat, n: nat, r: nat, t: nat, a: nat)
    requires m < n - 1 < |done| && ChainedCommits(done)
    requires r < |done[m].cur.txs| && done[m].cur.txs[r].related == Some(t)
    requires RestoredFrom(done, m, n - 1, r, t, a) <==> RestorationKeptFrom(done, m, n - 1, r, t, a)
    ensures RestoredFrom(done, m, n, r, t, a) <==> RestorationKeptFrom(done, m, n, r, t, a)
  {
    if RestoredFrom(done, m, n - 1, r, t, a) {
      RestorationNext(done, m, n - 1, r, t, a);
    }
  }

  lemma {:induction false} RestoredOverCommits(done: seq<Session>, m: nat, n: nat, r: nat, t: nat, a: nat)
    requires m < n <= |done| && ChainedCommits(done)
    requires r < |done[m].cur.txs| && done[m].cur.txs[r].related == Some(t) && RestoresEachLot(done[m].cur, r, t, a)
    ensures RestoredFrom(done, m, n, r, t, a) <==> RestorationKeptFrom(done, m, n, r, t, a)
    decreases n
  {
    if n - 1 > m {
      RestoredOverCommits(done, m, n - 1, r, t, a);
      RestoredStep(done, m, n, r, t, a);
    }
  }

  /**
   A reversal over whole runs: at the m-th commit, which posts its credit e, it restores each lot when
   it issues nothing on the account; in every committed state from then on it is exact if and only if
   every later commit disturbed no lot of it.
   */
  lemma ReversalsOverRuns(now: int, ops: seq<Op>, m: nat, r: nat, t: nat, a: nat, e: nat)
    requires AttributedRun(Begin(EMPTY, now), ops) && m < |Passed(now, ops)|
    requires var s := Passed(now, ops)[m];
             e >= |s.base.entries| && ReversesOn(s.cur, r, t, a, e) && NothingIssued(s.cur, r, a)
    ensures var done := Passed(now, ops);
            && RestoresEachLot(done[m].cur, r, t, a)
            && (RestoredFrom(done, m, |done|, r, t, a) <==> RestorationKeptFrom(done, m, |done|, r, t, a))
            && (RestoredFrom(done, m, |done|, r, t, a) ==> RestoresEachLot(Run(Begin(EMPTY, now), ops).base, r, t, a))
  {
    var done := Passed(now, ops);
    PassedChain(now, ops);
    assert ChainedCommit(done, m);
    AttributedCommits(now, ops, m);
    assert EntryPosted(e) in done[m].queue;
    assert EntryAttributed(done[m].cur, e);
    ReversalRestores(done[m].cur, r, t, a, e);
    RestoredOverCommits(done, m, |done|, r, t, a);
  }

  lemma {:induction false} AttributedCommits(now: int, ops: seq<Op>, m: nat)
    requires AttributedRun(Begin(EMPTY, now), ops) && m < |Passed(now, ops)|
    ensures FullyAttributed(Passed(now, ops)[m].cur)
  {
    var init := ops[..|ops| - 1];
    if m < |Passed(now, init)| {
      AttributedCommits(now, init, m);
    } else {
      AttributedRunCommits(now, ops);
    }
  }

  /** For callers that post atomically a reversal that is no grant's source is exact for good. */
  lemma AtomicReversals(now: int, ops: seq<Op>, r: nat, t: nat, a: nat, e: nat)
    requires AtomicRun(Begin(EMPTY, now), ops)
    requires ReversesOn(Run(Begin(EMPTY, now), ops).base, r, t, a, e)
    requires forall g: nat :: g < |Run(Begin(EMPTY, now), ops).base.grants| ==>
               Run(Begin(EMPTY, now), ops).base.grants[g].source != r
    ensures RestoresEachLot(Run(Begin(EMPTY, now), ops).base, r, t, a)
  {
    AtomicRunCommits(now, ops);
    var db := Run(Begin(EMPTY, now), ops).base;
    MirroredIsAttributed(db);
    NoGrantNothingIssued(db, r, a);
    assert EntryAttributed(db, e);
    ReversalRestores(db, r, t, a, e);
  }

  // ----- what a reversal row is linked to

  /**
   A REVERSAL row names the grant's source through its transaction exactly when that transaction has
   a relation at all: with none, the SQL test is NULL and the row passes.
   */
  lemma ReversalLink(db: Db, now: int, row: Lineage)
    requires Refs(db) && LineageValid(db, now, row) && row.kind == Reversal
    ensures var t := db.txs[db.entries[row.entry].tx];
            t.relation == Some(Reverses) && t.related == Some(db.grants[row.grant].source) <==> t.relation.Some?
  {
  }

  /**
   Any debit of the full amount of an untouched grant is accepted as its REVERSAL when its transaction
   has no relation.
   */
  lemma UnlinkedReversalAccepted(db: Db, now: int, row: Lineage)
    requires row.kind == Reversal && InScope(db, row) && LineageKeyFree(db, row)
    requires var t, c := db.txs[db.entries[row.entry].tx], Current(db, row.grant);
             && t.relation.None? && t.related.None?
             && db.entries[row.entry].amount == row.amount == c.granted == c.remaining && c.granted > 0
             && c.reserved == 0 && c.consumed == 0 && c.expired == 0
    ensures LineageValid(db, now, row)
  {
  }
}
