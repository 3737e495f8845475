/** Laws of grant holds in committed states: proportional capture, full drain, release, and lifecycle. */
module HoldLaws {
  import opened Sums
  import opened Tables
  import opened Engine
  import opened Invariant
  import opened Preservation
  import opened Commits
  import opened Attribution

  // ----- what captures took from each grant

  /** Lineage of g on debits posted for h under a kind other than CONSUMPTION. */
  function DivertedRow(db: Db, g: nat, h: nat): Lineage -> bool {
    (l: Lineage) =>
      && l.grant == g && l.kind != Consumption
      && l.entry < |db.entries| && HoldOf(db, l.entry) == Some(h) && db.entries[l.entry].amount > 0
  }

  function Diverted(db: Db, h: nat): nat -> int {
    (g: nat) => LineageSum(db.lineage, DivertedRow(db, g, h))
  }

  function Left(db: Db, h: nat): nat -> int {
    (g: nat) => Unconsumed(db, g, h)
  }

  function LeftLessDiverted(db: Db, h: nat): nat -> int {
    (g: nat) => Left(db, h)(g) - Diverted(db, h)(g)
  }

  ghost predicate LiveGrantHold(db: Db, h: nat) {
    h < |db.holds| && GrantHold(db, h)
  }

  lemma CaptureSplits(db: Db, h: nat, a: nat, g: nat)
    requires Links(db) && Refs(db) && g < |db.grants| && db.grants[g].account == a
    ensures LineageOn(db, CapturedOn(db, h, a, true))(g) == ConsumedThrough(db, g, h) + Diverted(db, h)(g)
  {
    var pe := CapturedOn(db, h, a, true);
    var all, used, off :=
        LineageTerm(db.lineage, OnEntries(g, pe)), LineageTerm(db.lineage, ThroughHold(db, g, h)),
        LineageTerm(db.lineage, DivertedRow(db, g, h));
    forall i: nat | i < |db.lineage| ensures all(i) == used(i) + off(i) {
      var l := db.lineage[i];
      assert Linked(db, l);
      assert OnEntries(g, pe)(l) <==> l.grant == g && pe(l.entry);
    }
    SumPlus(|db.lineage|, used, off, all);
  }

  /** What assert_grant_hold_consistent established about the hold as a whole. */
  lemma HoldAmounts(db: Db, h: nat)
    requires Refs(db) && HoldConsistent(db, h) && LiveGrantHold(db, h)
    ensures db.holds[h].original > 0 && HeldTotal(db, h, true) == db.holds[h].original
    ensures db.holds[h].state == Held ==> Captured(db, h, true) == db.holds[h].original - db.holds[h].remaining
    ensures db.holds[h].state == Applied ==> Captured(db, h, true) == db.holds[h].original
    ensures forall a: nat, debit: bool :: a < |db.accounts| ==> InProportion(db, h, a, debit)
  {
    assert HoldRowOk(db.holds[h]);
  }

  lemma SameFactor(x: int, m: int, y: int, n: int, m': int)
    requires x * m == y * n && m' == m
    ensures x * m' == y * n
  {
  }

  /** For one account and side: captured × original = held × captured in all. */
  lemma HoldFacts(db: Db, h: nat, a: nat, debit: bool)
    requires Refs(db) && HoldConsistent(db, h) && LiveGrantHold(db, h) && a < |db.accounts|
    ensures CapturedFrom(db, h, a, debit) * db.holds[h].original == HeldFrom(db, h, a, debit) * Captured(db, h, true)
  {
    HoldAmounts(db, h);
    assert InProportion(db, h, a, debit);
    SameFactor(CapturedFrom(db, h, a, debit), HeldTotal(db, h, true), HeldFrom(db, h, a, debit), Captured(db, h, true),
               db.holds[h].original);
  }

  lemma CaptureSum(db: Db, h: nat, a: nat)
    requires Links(db) && Refs(db)
    ensures GrantSum(db, a, AllocatedFor(db, h)) - GrantSum(db, a, LineageOn(db, CapturedOn(db, h, a, true))) ==
            GrantSum(db, a, LeftLessDiverted(db, h))
  {
    forall g: nat | g < |db.grants| && db.grants[g].account == a
      ensures LineageOn(db, CapturedOn(db, h, a, true))(g) == ConsumedThrough(db, g, h) + Diverted(db, h)(g)
    {
      CaptureSplits(db, h, a, g);
    }
    SumPlus(|db.grants|, OverGrants(db, a, LineageOn(db, CapturedOn(db, h, a, true))),
            OverGrants(db, a, LeftLessDiverted(db, h)), OverGrants(db, a, AllocatedFor(db, h)));
  }

  /** Captured debits of an account, read as what its grants still owe the hold. */
  lemma CaptureByGrant(db: Db, h: nat, a: nat)
    requires CommittedInv(db) && FullyAttributed(db) && GrantEnabled(db, a)
    ensures HeldFrom(db, h, a, true) - CapturedFrom(db, h, a, true) == GrantSum(db, a, LeftLessDiverted(db, h))
  {
    PostedByGrant(db, a, CapturedOn(db, h, a, true));
    HeldByGrant(db, h, a);
    CaptureSum(db, h, a);
  }

  lemma GrantSumMinus(db: Db, h: nat, a: nat)
    ensures GrantSum(db, a, LeftLessDiverted(db, h)) == GrantSum(db, a, Left(db, h)) - GrantSum(db, a, Diverted(db, h))
  {
    SumPlus(|db.grants|, OverGrants(db, a, LeftLessDiverted(db, h)), OverGrants(db, a, Diverted(db, h)),
            OverGrants(db, a, Left(db, h)));
  }

  /**
   Cross-multiplied: what is uncaptured of an account is to what was held as what is uncaptured overall
   is to the original.
   */
  lemma UncapturedProportion(db: Db, h: nat, a: nat, left: int)
    requires Refs(db) && HoldConsistent(db, h) && LiveGrantHold(db, h) && a < |db.accounts|
    requires left == HeldFrom(db, h, a, true) - CapturedFrom(db, h, a, true)
    ensures left * db.holds[h].original == HeldFrom(db, h, a, true) * (db.holds[h].original - Captured(db, h, true))
  {
    HoldFacts(db, h, a, true);
    Complement(left, db.holds[h].original, HeldFrom(db, h, a, true), CapturedFrom(db, h, a, true),
               Captured(db, h, true));
  }

  lemma Complement(left: int, original: int, held: int, posted: int, captured: int)
    requires left == held - posted && posted * original == held * captured
    ensures left * original == held * (original - captured)
  {
    assert left * original == held * original - posted * original;
    assert held * (original - captured) == held * original - held * captured;
  }

  lemma LeftProportion(db: Db, h: nat, a: nat)
    requires CommittedInv(db) && FullyAttributed(db) && LiveGrantHold(db, h) && GrantEnabled(db, a)
    ensures GrantSum(db, a, LeftLessDiverted(db, h)) * db.holds[h].original ==
            HeldFrom(db, h, a, true) * (db.holds[h].original - Captured(db, h, true))
  {
    CaptureByGrant(db, h, a);
    UncapturedProportion(db, h, a, GrantSum(db, a, LeftLessDiverted(db, h)));
  }

  // ----- proportional outstanding reservation

  /** No captured debit is attributed to a grant of this account except by CONSUMPTION. */
  ghost predicate NothingDivertedOn(db: Db, h: nat, a: nat) {
    forall i: nat :: i < |db.lineage| && db.lineage[i].account == a && CapturedBy(db, h, true)(db.lineage[i].entry) ==>
      db.lineage[i].kind == Consumption
  }

  lemma DivertedZero(db: Db, h: nat, a: nat)
    requires Links(db)
    ensures GrantSum(db, a, Diverted(db, h)) >= 0
    ensures GrantSum(db, a, Diverted(db, h)) == 0 <==> NothingDivertedOn(db, h, a)
  {
    forall i: nat | i < |db.lineage| ensures Linked(db, db.lineage[i]) {
    }
    var f := OverGrants(db, a, Diverted(db, h));
    forall g: nat ensures f(g) >= 0 {
      LineageSumPositive(db.lineage, DivertedRow(db, g, h));
    }
    SumNonNegative(|db.grants|, f);
    if NothingDivertedOn(db, h, a) {
      forall g: nat | g < |db.grants| ensures f(g) == 0 {
        LineageSumPositive(db.lineage, DivertedRow(db, g, h));
      }
      SumZero(|db.grants|, f);
    } else {
      var i: nat :| i < |db.lineage| && db.lineage[i].account == a
                    && CapturedBy(db, h, true)(db.lineage[i].entry) && db.lineage[i].kind != Consumption;
      var g := db.lineage[i].grant;
      LineageSumPositive(db.lineage, DivertedRow(db, g, h));
      TermAtMostSum(|db.grants|, f, g);
    }
  }

  /**
   A HELD hold's lots of one account together keep held × remaining / original reserved, exactly
   when its captures there were attributed by CONSUMPTION only.
   */
  lemma OutstandingProportional(db: Db, h: nat, a: nat)
    requires CommittedInv(db) && FullyAttributed(db) && LiveGrantHold(db, h) && GrantEnabled(db, a)
    requires db.holds[h].state == Held
    ensures GrantSum(db, a, Left(db, h)) * db.holds[h].original == HeldFrom(db, h, a, true) * db.holds[h].remaining
            <==> NothingDivertedOn(db, h, a)
  {
    HeldProportion(db, h, a);
    GrantSumMinus(db, h, a);
    DivertedZero(db, h, a);
    Offset(GrantSum(db, a, Left(db, h)), GrantSum(db, a, Diverted(db, h)), db.holds[h].original,
           HeldFrom(db, h, a, true) * db.holds[h].remaining);
  }

  lemma HeldProportion(db: Db, h: nat, a: nat)
    requires CommittedInv(db) && FullyAttributed(db) && LiveGrantHold(db, h) && GrantEnabled(db, a)
    requires db.holds[h].state == Held
    ensures GrantSum(db, a, LeftLessDiverted(db, h)) * db.holds[h].original ==
            HeldFrom(db, h, a, true) * db.holds[h].remaining
    ensures db.holds[h].original > 0
  {
    LeftProportion(db, h, a);
    HoldAmounts(db, h);
  }

  lemma Offset(left: int, off: int, original: int, product: int)
    requires (left - off) * original == product && off >= 0 && original > 0
    ensures left * original == product <==> off == 0
  {
    assert (left - off) * original == left * original - off * original;
    if off > 0 {
      assert off * original > 0;
    }
  }

  // ----- a finished capture drains every lot

  ghost predicate OnlyConsumption(db: Db, h: nat) {
    forall i: nat :: i < |db.lineage| && HoldOf(db, db.lineage[i].entry) == Some(h) ==>
      db.lineage[i].kind == Consumption
  }

  ghost predicate Drained(db: Db, h: nat) {
    forall g: nat :: AllocatedTo(db, g, h) == ConsumedThrough(db, g, h)
  }

  lemma EntrySumZero(rows: seq<Entry>, pe: nat -> bool)
    requires EntrySum(rows, pe) == 0
    requires forall e: nat :: e < |rows| && pe(e) ==> rows[e].amount != 0
    ensures forall e: nat :: e < |rows| ==> !pe(e)
  {
    forall e: nat | e < |rows| ensures !pe(e) {
      TermAtMostSum(|rows|, Magnitude(rows, pe), e);
    }
  }

  lemma NoHeldCredit(db: Db, h: nat, a: nat)
    requires HoldsBacked(db) && GrantEnabled(db, a)
    ensures HeldFrom(db, h, a, false) == 0
  {
    forall he: nat | he < |db.holdEntries| ensures !HeldOn(db, h, a, false)(he) {
      assert HoldEntryAllocated(db, he);
    }
    SumZero(|db.holdEntries|, HeldMagnitude(db.holdEntries, HeldOn(db, h, a, false)));
  }

  /** Captures of a grant hold never credit a grant-enabled account. */
  lemma NoCapturedCredit(db: Db, h: nat, a: nat)
    requires Refs(db) && HoldsBacked(db) && HoldConsistent(db, h) && LiveGrantHold(db, h) && GrantEnabled(db, a)
    ensures forall e: nat :: e < |db.entries| ==> !CapturedOn(db, h, a, false)(e)
  {
    NoHeldCredit(db, h, a);
    HoldFacts(db, h, a, false);
    HoldAmounts(db, h);
    NothingOfNothing(CapturedFrom(db, h, a, false), db.holds[h].original, HeldFrom(db, h, a, false),
                     Captured(db, h, true));
    EntrySumZero(db.entries, CapturedOn(db, h, a, false));
  }

  lemma OnlyConsumptionByAccount(db: Db, h: nat)
    requires CommittedInv(db) && LiveGrantHold(db, h)
    ensures OnlyConsumption(db, h) <==> forall a: nat :: GrantEnabled(db, a) ==> NothingDivertedOn(db, h, a)
  {
    if forall a: nat :: GrantEnabled(db, a) ==> NothingDivertedOn(db, h, a) {
      forall i: nat | i < |db.lineage| && HoldOf(db, db.lineage[i].entry) == Some(h)
        ensures db.lineage[i].kind == Consumption
      {
        assert Linked(db, db.lineage[i]);
        var a := db.lineage[i].account;
        var e := db.lineage[i].entry;
        assert GrantEnabled(db, a);
        NoCapturedCredit(db, h, a);
        assert !CapturedOn(db, h, a, false)(e);
        assert CapturedBy(db, h, true)(e);
        assert NothingDivertedOn(db, h, a);
      }
    }
  }

  lemma LeftNothing(db: Db, h: nat, a: nat)
    requires HoldsCapped(db)
    ensures GrantSum(db, a, Left(db, h)) == 0 <==>
            forall g: nat :: g < |db.grants| && db.grants[g].account == a ==> Left(db, h)(g) == 0
  {
    var f, zero := OverGrants(db, a, Left(db, h)), (g: nat) => 0;
    forall g: nat ensures f(g) >= 0 {
      assert ConsumedThrough(db, g, h) <= AllocatedTo(db, g, h);
    }
    SumZero(|db.grants|, zero);
    if GrantSum(db, a, Left(db, h)) == 0 {
      SumTight(|db.grants|, zero, f);
      forall g: nat | g < |db.grants| && db.grants[g].account == a ensures Left(db, h)(g) == 0 {
        assert f(g) == zero(g);
      }
    } else if forall g: nat :: g < |db.grants| && db.grants[g].account == a ==> Left(db, h)(g) == 0 {
      SumZero(|db.grants|, f);
    }
  }

  lemma AppliedOffset(db: Db, h: nat, a: nat)
    requires CommittedInv(db) && FullyAttributed(db) && LiveGrantHold(db, h) && GrantEnabled(db, a)
    requires db.holds[h].state == Applied
    ensures GrantSum(db, a, Left(db, h)) == GrantSum(db, a, Diverted(db, h))
  {
    CaptureByGrant(db, h, a);
    GrantSumMinus(db, h, a);
    AppliedInFull(db, h, a);
  }

  lemma AppliedInFull(db: Db, h: nat, a: nat)
    requires Refs(db) && HoldConsistent(db, h) && LiveGrantHold(db, h) && a < |db.accounts|
             && db.holds[h].state == Applied
    ensures CapturedFrom(db, h, a, true) == HeldFrom(db, h, a, true)
  {
    HoldFacts(db, h, a, true);
    HoldAmounts(db, h);
    Cancel(CapturedFrom(db, h, a, true), HeldFrom(db, h, a, true), db.holds[h].original);
  }

  lemma NothingOfNothing(x: int, m: int, y: int, n: int)
    requires x * m == y * n && y == 0 && m > 0
    ensures x == 0
  {
    assert y * n == 0;
    ZeroProduct(x, m);
  }

  lemma ZeroProduct(n: int, factor: int)
    requires n * factor == 0 && factor > 0
    ensures n == 0
  {
  }

  lemma Cancel(x: int, y: int, factor: int)
    requires x * factor == y * factor && factor > 0
    ensures x == y
  {
    assert (x - y) * factor == x * factor - y * factor;
    ZeroProduct(x - y, factor);
  }

  /** The sum over one account's lots closes exactly when nothing was diverted there; each lot is then drained. */
  lemma AccountDrained(db: Db, h: nat, a: nat)
    requires CommittedInv(db) && FullyAttributed(db) && LiveGrantHold(db, h) && GrantEnabled(db, a)
    requires db.holds[h].state == Applied
    ensures NothingDivertedOn(db, h, a) <==>
            forall g: nat :: g < |db.grants| && db.grants[g].account == a ==> Left(db, h)(g) == 0
  {
    AppliedOffset(db, h, a);
    DivertedZero(db, h, a);
    LeftNothing(db, h, a);
  }

  /**
   Capture drains every lot: once a grant hold is APPLIED, each grant has consumed exactly what it
   allocated to the hold, if and only if every capture was attributed by CONSUMPTION.
   */
  lemma CaptureDrains(db: Db, h: nat)
    requires CommittedInv(db) && FullyAttributed(db) && LiveGrantHold(db, h)
    requires db.holds[h].state == Applied
    ensures Drained(db, h) <==> OnlyConsumption(db, h)
  {
    OnlyConsumptionByAccount(db, h);
    forall a: nat | GrantEnabled(db, a)
      ensures NothingDivertedOn(db, h, a) <==>
              forall g: nat :: g < |db.grants| && db.grants[g].account == a ==> Left(db, h)(g) == 0
    {
      AccountDrained(db, h, a);
    }
    if OnlyConsumption(db, h) {
      forall g: nat ensures AllocatedTo(db, g, h) == ConsumedThrough(db, g, h) {
        SumsNonNegative(db, g);
        assert ConsumedThrough(db, g, h) <= AllocatedTo(db, g, h);
        if g < |db.grants| {
          assert GrantEnabled(db, db.grants[g].account) && NothingDivertedOn(db, h, db.grants[g].account);
          assert Left(db, h)(g) == 0;
        }
      }
    }
  }

  /** Drain over whole runs: every APPLIED grant hold of every committed state. */
  lemma DrainedOverRuns(now: int, ops: seq<Op>, h: nat)
    requires AttributedRun(Begin(EMPTY, now), ops)
    ensures var db := Run(Begin(EMPTY, now), ops).base;
            LiveGrantHold(db, h) && db.holds[h].state == Applied ==> (Drained(db, h) <==> OnlyConsumption(db, h))
  {
    AttributedRunCommits(now, ops);
    var db := Run(Begin(EMPTY, now), ops).base;
    if LiveGrantHold(db, h) && db.holds[h].state == Applied {
      CaptureDrains(db, h);
    }
  }

  // ----- voiding

  /**
   Voiding takes from each grant exactly what the hold still reserved of it, and nothing from its
   other counters; afterwards the hold reserves nothing and cannot be updated again.
   */
  lemma VoidReleases(db: Db, h: nat, row: Hold)
    requires Inv(db) && UpdateValid(db, h, row) && row.state == Voided
    ensures var db' := DoUpdateHold(db, h, row).db;
            && (forall g: nat :: g < |db.chains| ==>
                  Current(db', g) == Current(db, g).(reserved := Current(db, g).reserved - Left(db, h)(g)))
            && (forall g: nat :: Outstanding(db', g)(h) == 0)
            && (forall again: Hold :: DoUpdateHold(db', h, again).outcome == Rejected(Invalid))
  {
    UpdateFits(db, h, row);
    forall g: nat | g < |db.chains|
      ensures !Backs(db, g, h) ==> Left(db, h)(g) == 0
      ensures Left(db, h)(g) >= 0
    {
      assert ConsumedThrough(db, g, h) <= AllocatedTo(db, g, h);
      if !Backs(db, g, h) {
        UnbackedNothing(db, g, h);
      }
    }
  }

  function ReservedDrop(db: Db, db': Db): nat -> int {
    (g: nat) => Current(db, g).reserved - Current(db', g).reserved
  }

  lemma VoidDrops(db: Db, h: nat, row: Hold, a: nat)
    requires Inv(db) && UpdateValid(db, h, row) && row.state == Voided
    ensures GrantSum(db, a, ReservedDrop(db, DoUpdateHold(db, h, row).db)) == GrantSum(db, a, Left(db, h))
  {
    VoidReleases(db, h, row);
    var db' := DoUpdateHold(db, h, row).db;
    SumSame(|db.grants|, OverGrants(db, a, ReservedDrop(db, db')), OverGrants(db, a, Left(db, h)));
  }

  /** Voiding a committed hold hands back held × remaining / original on each grant-enabled account. */
  lemma VoidReleasesProportion(db: Db, h: nat, row: Hold, a: nat)
    requires CommittedInv(db) && FullyAttributed(db) && LiveGrantHold(db, h) && GrantEnabled(db, a)
    requires UpdateValid(db, h, row) && row.state == Voided && NothingDivertedOn(db, h, a)
    ensures GrantSum(db, a, ReservedDrop(db, DoUpdateHold(db, h, row).db)) * db.holds[h].original ==
            HeldFrom(db, h, a, true) * db.holds[h].remaining
  {
    OutstandingProportional(db, h, a);
    VoidDrops(db, h, row, a);
  }

  // ----- lifecycle over whole runs

  /** Each row of the history is an accepted update of the one before it. */
  ghost predicate HoldHistory(rows: seq<Hold>) {
    |rows| > 0 && HoldStarts(rows[0]) && forall i: nat :: i + 1 < |rows| ==> HoldAdvances(rows[i], rows[i + 1])
  }

  /** Every accepted update lowers what remains, so a hold takes at most as many updates as its original amount. */
  lemma {:induction false} HistoryBounded(rows: seq<Hold>)
    requires HoldHistory(rows)
    ensures HoldRowOk(rows[|rows| - 1]) && rows[|rows| - 1].original == rows[0].original
    ensures |rows| - 1 <= rows[0].original - rows[|rows| - 1].remaining
    ensures forall i: nat :: i < |rows| - 1 ==> rows[i].state == Held
  {
    if |rows| > 1 {
      HistoryBounded(rows[..|rows| - 1]);
      assert HoldAdvances(rows[|rows| - 2], rows[|rows| - 1]);
    }
  }

  /** How many accepted updates of h the committed and the working tables contain. */
  function Updates(now: int, ops: seq<Op>, h: nat): (n: (nat, nat)) {
    if ops == [] then (0, 0)
    else
      var (committed, working) := Updates(now, ops[..|ops| - 1], h);
      var s, op := Run(Begin(EMPTY, now), ops[..|ops| - 1]), ops[|ops| - 1];
      match op
      case Commit(_) => if CommitPasses(s) then (working, working) else (committed, committed)
      case Rollback(_) => (committed, committed)
      case UpdateHold(id, _) =>
        (committed, if id == h && Exec(s, op).1 == Accepted then working + 1 else working)
      case _ => (committed, working)
  }

  predicate UpdatesFit(db: Db, h: nat, n: nat) {
    if h < |db.holds| then n <= db.holds[h].original - db.holds[h].remaining else n == 0
  }

  lemma StatementUpdates(db: Db, now: int, op: Op, h: nat, n: nat)
    requires RowOp(op) && Refs(db) && UpdatesFit(db, h, n)
    ensures var r := Statement(db, now, op);
            UpdatesFit(r.db, h, if op.UpdateHold? && op.id == h && r.outcome == Accepted then n + 1 else n)
  {
    match op
    case UpdateHold(id, row) =>
      if id < |db.holds| && HoldAdvances(db.holds[id], row) {
        assert HoldRowOk(db.holds[id]);
      }
    case _ =>
  }

  /** Over every run, a hold's updates in force never outnumber what they took off its remaining amount. */
  lemma {:induction false} UpdatesBounded(now: int, ops: seq<Op>, h: nat)
    ensures var s := Run(Begin(EMPTY, now), ops);
            UpdatesFit(s.base, h, Updates(now, ops, h).0) && UpdatesFit(s.cur, h, Updates(now, ops, h).1)
  {
    if ops != [] {
      var s, op := Run(Begin(EMPTY, now), ops[..|ops| - 1]), ops[|ops| - 1];
      UpdatesBounded(now, ops[..|ops| - 1], h);
      RunKeepsInv(now, ops[..|ops| - 1]);
      if RowOp(op) {
        StatementUpdates(s.cur, s.now, op, h, Updates(now, ops[..|ops| - 1], h).1);
      }
    }
  }

  /** Between commits a hold row is unchanged or has moved forward; APPLIED and VOIDED absorb. */
  lemma FinalAbsorbs(s: Session, h: nat)
    requires Open(s) && h < |s.base.holds| && s.base.holds[h].state != Held
    ensures s.cur.holds[h] == s.base.holds[h]
    ensures forall row: Hold :: Statement(s.cur, s.now, UpdateHold(h, row)).outcome == Rejected(Invalid)
  {
    assert Evolves(s.base.holds[h], s.cur.holds[h]);
  }

  lemma HeldGrows(rows: seq<HoldEntry>, more: seq<HoldEntry>, p: nat -> bool, q: nat -> bool, at: nat)
    requires rows <= more && |rows| <= at < |more| && q(at) && more[at].amount != 0
    requires forall e: nat :: e < |rows| ==> p(e) == q(e)
    ensures HeldSum(rows, p) < HeldSum(more, q)
  {
    var g := HeldMagnitude(more, q);
    SumGrows(|rows|, |more|, HeldMagnitude(rows, p), g);
    assert g(at) > 0;
  }

  /** Nothing is added to a committed grant hold: no held entry, and no allocation to its held entries. */
  lemma CommittedHoldFrozen(s: Session, h: nat)
    requires Open(s) && CommitPasses(s) && CommittedInv(s.base) && LiveGrantHold(s.base, h)
    ensures forall he: nat :: |s.base.holdEntries| <= he < |s.cur.holdEntries| ==> s.cur.holdEntries[he].hold != h
    ensures forall i: nat :: |s.base.allocations| <= i < |s.cur.allocations| ==>
              s.cur.allocations[i].holdEntry >= |s.base.holdEntries|
  {
    var base, cur := s.base, s.cur;
    CommitBacks(s);
    CommitAgrees(s);
    forall he: nat | |base.holdEntries| <= he < |cur.holdEntries| ensures cur.holdEntries[he].hold != h {
      FrozenEntries(base, cur, h, he);
    }
    forall i: nat | |base.allocations| <= i < |cur.allocations|
      ensures cur.allocations[i].holdEntry >= |base.holdEntries|
    {
      FrozenAllocations(base, cur, i);
    }
  }

  lemma FrozenEntries(base: Db, cur: Db, h: nat, he: nat)
    requires CommittedInv(base) && CommittedInv(cur) && Solid(cur) && Grows(base, cur) && LiveGrantHold(base, h)
    requires |base.holdEntries| <= he < |cur.holdEntries|
    ensures cur.holdEntries[he].hold != h
  {
    assert GrantHold(cur, h) by {
      var k: nat :| k < |base.holdEntries| && OnGrantAccount(base, h, k);
      assert cur.holdEntries[k] == base.holdEntries[k] && OnGrantAccount(cur, h, k);
    }
    assert HoldConsistent(base, h) && HoldConsistent(cur, h);
    assert Evolves(base.holds[h], cur.holds[h]);
    var debit := cur.holdEntries[he].amount > 0;
    if cur.holdEntries[he].hold == h {
      HeldGrows(base.holdEntries, cur.holdEntries, HeldBy(base, h, debit), HeldBy(cur, h, debit), he);
    }
  }

  lemma FrozenAllocations(base: Db, cur: Db, i: nat)
    requires CommittedInv(base) && CommittedInv(cur) && Grows(base, cur)
    requires |base.allocations| <= i < |cur.allocations|
    ensures cur.allocations[i].holdEntry >= |base.holdEntries|
  {
    var he := cur.allocations[i].holdEntry;
    var f, g := AllocationTerm(base.allocations, ToHoldEntry(he)), AllocationTerm(cur.allocations, ToHoldEntry(he));
    forall j: nat | j < |cur.allocations| ensures AllocationLinked(cur, cur.allocations[j]) {
    }
    SumGrows(|base.allocations|, |cur.allocations|, f, g);
    assert AllocatedToEntry(base, he) + g(i) <= AllocatedToEntry(cur, he);
    assert HoldEntryAllocated(base, he) && HoldEntryAllocated(cur, he);
    if he < |base.holdEntries| {
      assert false;
    }
  }

  /** What is committed of a grant hold, by state, in every committed state. */
  lemma CommittedAmounts(now: int, ops: seq<Op>, h: nat)
    ensures var db := Run(Begin(EMPTY, now), ops).base;
            LiveGrantHold(db, h) ==>
              && HeldTotal(db, h, true) == db.holds[h].original == HeldTotal(db, h, false)
              && Captured(db, h, false) == Captured(db, h, true)
              && match db.holds[h].state
                 case Held => Captured(db, h, true) == db.holds[h].original - db.holds[h].remaining
                 case Applied => Captured(db, h, true) == db.holds[h].original
                 case Voided => Captured(db, h, true) < db.holds[h].original
  {
    RunCommits(now, ops);
    var db := Run(Begin(EMPTY, now), ops).base;
    assert HoldConsistent(db, h);
  }
}
