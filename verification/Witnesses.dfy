/** Short runs of the engine that show why the laws state a condition. */
module Witnesses {
  import opened Sums
  import opened Tables
  import opened Engine
  import opened Commits
  import opened HoldLaws
  import opened Attribution
  import opened Conservation
  import Edits

  // ----- tools

  /** Some run from the empty tables ends in s; if disciplined, with all lineage written in time. */
  ghost predicate Reached(s: Session, disciplined: bool) {
    exists ops: seq<Op> :: Run(Begin(EMPTY, 0), ops) == s && (disciplined ==> AttributedRun(Begin(EMPTY, 0), ops))
  }

  lemma Start()
    ensures Reached(Begin(EMPTY, 0), true)
  {
    assert Run(Begin(EMPTY, 0), []) == Begin(EMPTY, 0) && AttributedRun(Begin(EMPTY, 0), []);
  }

  lemma Step(s: Session, op: Op, s': Session, disciplined: bool)
    requires Reached(s, disciplined) && (disciplined ==> AttributesInTime(s, op)) && Exec(s, op).0 == s'
    ensures Reached(s', disciplined)
  {
    var ops: seq<Op> :| Run(Begin(EMPTY, 0), ops) == s && (disciplined ==> AttributedRun(Begin(EMPTY, 0), ops));
    assert (ops + [op])[..|ops|] == ops;
    assert Run(Begin(EMPTY, 0), ops + [op]) == s';
  }

  /** One accepted statement, given what it did. */
  lemma StepTo(s: Session, op: Op, r: Result, disciplined: bool)
    requires RowOp(op) && Reached(s, disciplined) && (disciplined ==> AttributesInTime(s, op))
    requires Statement(s.cur, s.now, op) == r
    ensures Reached(Session(s.base, r.db, s.now, s.queue + r.queued), disciplined)
  {
    ExecQueue(s, op);
    Step(s, op, Session(s.base, r.db, s.now, s.queue + r.queued), disciplined);
  }

  /** What a statement does, named so that it is looked up and not computed. */
  ghost predicate Leads(db: Db, now: int, op: Op, r: Result)
    requires RowOp(op)
  {
    exists from: Db :: from == db && Statement(from, now, op) == r
  }

  lemma LedTo(s: Session, op: Op, r: Result, disciplined: bool)
    requires RowOp(op) && Reached(s, disciplined) && (disciplined ==> AttributesInTime(s, op))
    requires Leads(s.cur, s.now, op, r)
    ensures Reached(Session(s.base, r.db, s.now, s.queue + r.queued), disciplined)
  {
    StepTo(s, op, r, disciplined);
  }

  lemma Undisciplined(s: Session)
    requires Reached(s, true)
    ensures Reached(s, false)
  {
  }

  lemma SmallSums(f: nat -> int)
    ensures SumTo(0, f) == 0 && SumTo(1, f) == f(0) && SumTo(2, f) == f(0) + f(1)
    ensures SumTo(3, f) == f(0) + f(1) + f(2) && SumTo(4, f) == f(0) + f(1) + f(2) + f(3)
    ensures SumTo(5, f) == f(0) + f(1) + f(2) + f(3) + f(4)
  {
    assert SumTo(1, f) == SumTo(0, f) + f(0);
    assert SumTo(2, f) == SumTo(1, f) + f(1);
    assert SumTo(3, f) == SumTo(2, f) + f(2);
    assert SumTo(4, f) == SumTo(3, f) + f(3);
  }

  lemma PairUpdate(c: seq<Version>, d: seq<Version>, e: seq<Version>)
    ensures [c, d][0 := e] == [e, d] && [c, d][1 := e] == [c, e]
  {
  }

  /** A lineage statement, given its next counters and the tables it leaves. */
  lemma LineageIs(db: Db, now: int, row: Lineage, next: Capacity, db': Db)
    requires LineageValid(db, now, row) && SourceFree(db.chains[row.grant], FromLineage(row.entry)) && CapacityOk(next)
    requires next == AfterLineage(Current(db, row.grant), row.kind, row.amount, IsCapture(db, row))
    requires IsCapture(db, row) ==> row.amount <= Current(db, row.grant).reserved
    requires db' == db.(lineage := db.lineage + [row],
                        chains := db.chains[row.grant := Appended(db.chains[row.grant], FromLineage(row.entry), next)])
    ensures Leads(db, now, InsertLineage(row), Result(db', Accepted, [LineageWritten(|db.lineage|)]))
  {
    assert Statement(db, now, InsertLineage(row)) == Result(db', Accepted, [LineageWritten(|db.lineage|)]);
  }

  // ----- a credit account with two issued grants: 100 that never expires, 20 that expires at 5

  const CREDITS := Account(true, 0, CreditSide, false)
  const FUNDING := Account(false, 0, CreditSide, true)
  const ACCOUNTS := [CREDITS, FUNDING]
  const PLAIN := Transaction(None, None, None, 0, 0)
  const E0 := Entry(0, 0, -100, 0)
  const E1 := Entry(1, 0, -20, 0)
  const G0 := Grant(0, 1, 0, None)
  const G1 := Grant(0, 1, 1, Some(5))
  const L0 := Lineage(0, 0, 0, Issuance, 100)
  const L1 := Lineage(1, 0, 1, Issuance, 20)
  const V0 := Version(1, FromLineage(0), Capacity(100, 0, 0, 0, 0, 100, 0))
  const V1 := Version(1, FromLineage(1), Capacity(20, 0, 0, 0, 0, 20, 0))

  const OPENED := EMPTY.(accounts := ACCOUNTS, txs := [PLAIN, PLAIN])
  const POSTED := OPENED.(entries := [E0, E1])
  const GRANTED := POSTED.(grants := [G0, G1], chains := [[], []])
  const ISSUING := GRANTED.(lineage := [L0], chains := [[V0], []])
  const FUNDED := GRANTED.(lineage := [L0, L1], chains := [[V0], [V1]])
  const Q1: seq<Pending> := [EntryPosted(0)]
  const Q2: seq<Pending> := Q1 + [EntryPosted(1)]
  const Q3: seq<Pending> := Q2 + [LineageWritten(0)]
  const FUNDED_QUEUE: seq<Pending> := Q3 + [LineageWritten(1)]

  lemma Opens()
    ensures Reached(Session(EMPTY, EMPTY.(accounts := ACCOUNTS), 0, []), true)
  {
    Start();
    var d1 := EMPTY.(accounts := [CREDITS]);
    assert EMPTY.accounts + [CREDITS] == d1.accounts;
    Step(Begin(EMPTY, 0), InsertAccount(CREDITS), Session(EMPTY, d1, 0, []), true);
    OpensFunding(d1);
  }

  lemma OpensFunding(d1: Db)
    requires d1 == EMPTY.(accounts := [CREDITS]) && Reached(Session(EMPTY, d1, 0, []), true)
    ensures Reached(Session(EMPTY, EMPTY.(accounts := ACCOUNTS), 0, []), true)
  {
    assert d1.accounts + [FUNDING] == ACCOUNTS;
    Step(Session(EMPTY, d1, 0, []), InsertAccount(FUNDING), Session(EMPTY, EMPTY.(accounts := ACCOUNTS), 0, []), true);
  }

  lemma Transacts()
    ensures Reached(Session(EMPTY, OPENED, 0, []), true)
  {
    Opens();
    var s0 := Session(EMPTY, EMPTY.(accounts := ACCOUNTS), 0, []);
    var s1 := Session(EMPTY, EMPTY.(accounts := ACCOUNTS, txs := [PLAIN]), 0, []);
    Step(s0, InsertTransaction(PLAIN), s1, true);
    Step(s1, InsertTransaction(PLAIN), Session(EMPTY, OPENED, 0, []), true);
  }

  lemma Posting()
    ensures Statement(OPENED, 0, InsertEntry(E0)) == Result(OPENED.(entries := [E0]), Accepted, [EntryPosted(0)])
    ensures Statement(OPENED.(entries := [E0]), 0, InsertEntry(E1)) == Result(POSTED, Accepted, [EntryPosted(1)])
  {
  }

  lemma Posts()
    ensures Reached(Session(EMPTY, POSTED, 0, Q2), true)
  {
    Transacts();
    Posting();
    var none: seq<Pending> := [];
    assert none + [EntryPosted(0)] == Q1;
    StepTo(Session(EMPTY, OPENED, 0, []), InsertEntry(E0),
           Result(OPENED.(entries := [E0]), Accepted, [EntryPosted(0)]), true);
    StepTo(Session(EMPTY, OPENED.(entries := [E0]), 0, Q1), InsertEntry(E1),
           Result(POSTED, Accepted, [EntryPosted(1)]), true);
  }

  lemma FirstGrant()
    ensures Statement(POSTED, 0, InsertGrant(G0)) == Result(POSTED.(grants := [G0], chains := [[]]), Accepted, [])
    ensures Statement(POSTED.(grants := [G0], chains := [[]]), 0, InsertGrant(G1)) == Result(GRANTED, Accepted, [])
  {
  }

  lemma Grants()
    ensures Reached(Session(EMPTY, GRANTED, 0, Q2), true)
  {
    Posts();
    FirstGrant();
    var d1 := POSTED.(grants := [G0], chains := [[]]);
    assert Q2 + [] == Q2;
    StepTo(Session(EMPTY, POSTED, 0, Q2), InsertGrant(G0), Result(d1, Accepted, []), true);
    StepTo(Session(EMPTY, d1, 0, Q2), InsertGrant(G1), Result(GRANTED, Accepted, []), true);
  }

  lemma FirstIssueValid()
    ensures LineageValid(GRANTED, 0, L0)
  {
  }

  lemma NothingGranted()
    ensures GRANTED.chains[0] == [] && Current(GRANTED, 0) == Latest([])
  {
  }

  lemma FirstIssueTerms()
    ensures SourceFree(GRANTED.chains[L0.grant], FromLineage(L0.entry)) && CapacityOk(V0.capacity)
    ensures !IsCapture(GRANTED, L0)
            && V0.capacity == AfterLineage(Current(GRANTED, L0.grant), L0.kind, L0.amount, false)
  {
    NothingGranted();
  }

  lemma FirstIssueAppends()
    ensures ISSUING == GRANTED.(lineage := GRANTED.lineage + [L0],
                        chains := GRANTED.chains[L0.grant :=
                          Appended(GRANTED.chains[L0.grant], FromLineage(L0.entry), V0.capacity)])
  {
    var chain: seq<Version> := [];
    assert Appended(chain, FromLineage(L0.entry), V0.capacity) == [V0];
    PairUpdate([], [], [V0]);
    assert GRANTED.lineage + [L0] == ISSUING.lineage;
  }

  lemma FirstIssue()
    ensures Leads(GRANTED, 0, InsertLineage(L0), Result(ISSUING, Accepted, [LineageWritten(|GRANTED.lineage|)]))
  {
    FirstIssueValid();
    FirstIssueTerms();
    FirstIssueAppends();
    LineageIs(GRANTED, 0, L0, V0.capacity, ISSUING);
  }

  lemma SecondIssueValid()
    ensures LineageValid(ISSUING, 0, L1)
  {
  }

  lemma SecondIssueTerms()
    ensures SourceFree(ISSUING.chains[L1.grant], FromLineage(L1.entry)) && CapacityOk(V1.capacity)
    ensures !IsCapture(ISSUING, L1)
            && V1.capacity == AfterLineage(Current(ISSUING, L1.grant), L1.kind, L1.amount, false)
  {
  }

  lemma SecondIssueAppends()
    ensures FUNDED == ISSUING.(lineage := ISSUING.lineage + [L1],
                        chains := ISSUING.chains[L1.grant :=
                          Appended(ISSUING.chains[L1.grant], FromLineage(L1.entry), V1.capacity)])
  {
    var chain: seq<Version> := [];
    assert Appended(chain, FromLineage(L1.entry), V1.capacity) == [V1];
    PairUpdate([V0], [], [V1]);
    assert ISSUING.lineage + [L1] == FUNDED.lineage;
  }

  lemma SecondIssue()
    ensures Leads(ISSUING, 0, InsertLineage(L1), Result(FUNDED, Accepted, [LineageWritten(|ISSUING.lineage|)]))
  {
    SecondIssueValid();
    SecondIssueTerms();
    SecondIssueAppends();
    LineageIs(ISSUING, 0, L1, V1.capacity, FUNDED);
  }

  lemma Funds()
    ensures Reached(Session(EMPTY, FUNDED, 0, FUNDED_QUEUE), true)
  {
    Grants();
    FirstIssue();
    LedTo(Session(EMPTY, GRANTED, 0, Q2), InsertLineage(L0), Result(ISSUING, Accepted, [LineageWritten(0)]), true);
    SecondIssue();
    LedTo(Session(EMPTY, ISSUING, 0, Q3), InsertLineage(L1), Result(FUNDED, Accepted, [LineageWritten(1)]), true);
  }

  // ----- lineage written after its entry was committed

  const E2 := Entry(2, 0, 10, 0)
  const L2 := Lineage(0, 0, 2, Consumption, 10)
  const V2 := Version(2, FromLineage(2), Capacity(100, 0, 10, 0, 0, 90, 0))
  const SPENDING := FUNDED.(txs := [PLAIN, PLAIN, PLAIN], entries := [E0, E1, E2])
  const SPENT := SPENDING.(lineage := [L0, L1, L2], chains := [[V0, V2], [V1]])
  const SPENDING_QUEUE: seq<Pending> := FUNDED_QUEUE + [EntryPosted(2)]
  const SPENT_QUEUE: seq<Pending> := SPENDING_QUEUE + [LineageWritten(2)]

  const L3 := Lineage(1, 0, 2, Consumption, 10)
  const V3 := Version(2, FromLineage(2), Capacity(20, 0, 10, 0, 0, 10, 0))
  const OVERSPENT := SPENT.(lineage := [L0, L1, L2, L3], chains := [[V0, V2], [V1, V3]])

  lemma ConsumesTerms()
    ensures LineageValid(SPENDING, 0, L2)
    ensures SourceFree(SPENDING.chains[L2.grant], FromLineage(L2.entry)) && CapacityOk(V2.capacity)
    ensures !IsCapture(SPENDING, L2)
            && V2.capacity == AfterLineage(Current(SPENDING, L2.grant), L2.kind, L2.amount, false)
  {
  }

  lemma ConsumesAppends()
    ensures SPENT == SPENDING.(lineage := SPENDING.lineage + [L2],
                        chains := SPENDING.chains[L2.grant :=
                          Appended(SPENDING.chains[L2.grant], FromLineage(L2.entry), V2.capacity)])
  {
    var chain: seq<Version> := [V0];
    assert Appended(chain, FromLineage(L2.entry), V2.capacity) == [V0, V2];
    PairUpdate([V0], [V1], [V0, V2]);
    assert SPENDING.lineage + [L2] == SPENT.lineage;
  }

  lemma Consumes()
    ensures Leads(SPENDING, 0, InsertLineage(L2), Result(SPENT, Accepted, [LineageWritten(|SPENDING.lineage|)]))
  {
    ConsumesTerms();
    ConsumesAppends();
    LineageIs(SPENDING, 0, L2, V2.capacity, SPENT);
  }

  lemma Spending()
    ensures Statement(FUNDED, 0, InsertTransaction(PLAIN)) ==
            Result(FUNDED.(txs := [PLAIN, PLAIN, PLAIN]), Accepted, [])
    ensures Statement(FUNDED.(txs := [PLAIN, PLAIN, PLAIN]), 0, InsertEntry(E2)) ==
            Result(SPENDING, Accepted, [EntryPosted(2)])
  {
  }

  lemma Spends()
    ensures Reached(Session(EMPTY, SPENT, 0, SPENT_QUEUE), true)
  {
    Funds();
    Spending();
    Consumes();
    var s1 := Session(EMPTY, FUNDED.(txs := [PLAIN, PLAIN, PLAIN]), 0, FUNDED_QUEUE);
    assert FUNDED_QUEUE + [] == FUNDED_QUEUE;
    StepTo(Session(EMPTY, FUNDED, 0, FUNDED_QUEUE), InsertTransaction(PLAIN), Result(s1.cur, Accepted, []), true);
    StepTo(s1, InsertEntry(E2), Result(SPENDING, Accepted, [EntryPosted(2)]), true);
    LedTo(Session(EMPTY, SPENDING, 0, SPENDING_QUEUE), InsertLineage(L2),
          Result(SPENT, Accepted, [LineageWritten(2)]), true);
  }

  lemma SpentPasses()
    ensures CommitPasses(Session(EMPTY, SPENT, 0, SPENT_QUEUE))
  {
    forall e: nat | e < 3 ensures Attributed(SPENT, e) == Abs(SPENT.entries[e].amount) {
      SmallSums(LineageTerm(SPENT.lineage, OnEntry(e)));
    }
  }

  // Nothing in the triggers refuses a second attribution of a committed entry.
  lemma LateRowTerms()
    ensures LineageValid(SPENT, 0, L3)
    ensures SourceFree(SPENT.chains[L3.grant], FromLineage(L3.entry)) && CapacityOk(V3.capacity)
    ensures !IsCapture(SPENT, L3) && V3.capacity == AfterLineage(Current(SPENT, L3.grant), L3.kind, L3.amount, false)
  {
  }

  lemma LateRowAppends()
    ensures OVERSPENT == SPENT.(lineage := SPENT.lineage + [L3],
                        chains := SPENT.chains[L3.grant :=
                          Appended(SPENT.chains[L3.grant], FromLineage(L3.entry), V3.capacity)])
  {
    var chain: seq<Version> := [V1];
    assert Appended(chain, FromLineage(L3.entry), V3.capacity) == [V1, V3];
    PairUpdate([V0, V2], [V1], [V1, V3]);
    assert SPENT.lineage + [L3] == OVERSPENT.lineage;
  }

  lemma LateRow()
    ensures Leads(SPENT, 0, InsertLineage(L3), Result(OVERSPENT, Accepted, [LineageWritten(|SPENT.lineage|)]))
  {
    LateRowTerms();
    LateRowAppends();
    LineageIs(SPENT, 0, L3, V3.capacity, OVERSPENT);
  }

  lemma LatePasses()
    ensures CommitPasses(Session(SPENT, OVERSPENT, 0, [LineageWritten(3)]))
  {
  }

  lemma Overspends()
    ensures Reached(Begin(OVERSPENT, 0), false)
  {
    Spends();
    SpentPasses();
    Undisciplined(Session(EMPTY, SPENT, 0, SPENT_QUEUE));
    Step(Session(EMPTY, SPENT, 0, SPENT_QUEUE), Commit(0), Begin(SPENT, 0), false);
    LateRow();
    LedTo(Begin(SPENT, 0), InsertLineage(L3), Result(OVERSPENT, Accepted, [LineageWritten(3)]), false);
    var late: seq<Pending> := [];
    assert late + [LineageWritten(3)] == [LineageWritten(3)];
    LatePasses();
    Step(Session(SPENT, OVERSPENT, 0, [LineageWritten(3)]), Commit(0), Begin(OVERSPENT, 0), false);
  }

  /** A run whose last commit attributes a committed entry again: the account's lots no longer match its balance. */
  lemma LateLineageBreaksConservation()
    ensures exists s: Session ::
              Reached(s, false) && CommittedInv(s.base) && GrantEnabled(s.base, 0)
              && GrantSum(s.base, 0, RemainingOf(s.base)) != -Balance(s.base, 0)
  {
    Overspends();
    OverspentOff();
    ReachedCommitted(Begin(OVERSPENT, 0));
    assert GrantEnabled(Begin(OVERSPENT, 0).base, 0);
  }

  lemma OverspentOff()
    ensures GrantSum(OVERSPENT, 0, RemainingOf(OVERSPENT)) == 100 && Balance(OVERSPENT, 0) == -110
  {
    SmallSums(OverGrants(OVERSPENT, 0, RemainingOf(OVERSPENT)));
    SmallSums(SignedTerm(OVERSPENT, 0));
  }

  lemma ReachedCommitted(s: Session)
    requires Reached(s, false)
    ensures CommittedInv(s.base)
  {
    var ops: seq<Op> :| Run(Begin(EMPTY, 0), ops) == s;
    RunCommits(0, ops);
  }

  // ----- a capture attributed by EXPIRATION

  const HELD := Hold(Held, 20, 20, None, None)
  const TAKEN := Hold(Applied, 20, 0, Some(10), None)
  const HE0 := HoldEntry(0, 0, 20)
  const HE1 := HoldEntry(0, 1, -20)
  const A0 := Allocation(0, 0, 0, 20)
  const V4 := Version(2, FromAllocation(0), Capacity(100, 0, 0, 0, 0, 100, 20))
  const HOLDING := FUNDED.(holds := [HELD], holdEntries := [HE0, HE1])
  const RESERVED := HOLDING.(allocations := [A0], chains := [[V0, V4], [V1]])
  const Q5: seq<Pending> := FUNDED_QUEUE + [HoldTouched(0)]
  const Q6: seq<Pending> := Q5 + [HoldEntryAdded(0)]
  const Q7: seq<Pending> := Q6 + [HoldEntryAdded(1)]
  const HELD_QUEUE: seq<Pending> := Q7 + [AllocationMade(0)]

  const CAPTURE := Transaction(Some(0), None, None, 10, 0)
  const E3 := Entry(2, 0, 20, 0)
  const E4 := Entry(2, 1, -20, 0)
  const L4 := Lineage(1, 0, 2, Expiration, 20)
  const V5 := Version(2, FromLineage(2), Capacity(20, 0, 0, 0, 20, 0, 0))
  const CAPTURING := RESERVED.(txs := [PLAIN, PLAIN, CAPTURE], entries := [E0, E1, E3, E4])
  const DIVERTED := CAPTURING.(lineage := [L0, L1, L4], chains := [[V0, V4], [V1, V5]])
  const CAPTURED := DIVERTED.(holds := [TAKEN])
  const C1: seq<Pending> := [EntryPosted(2)]
  const C2: seq<Pending> := C1 + [EntryPosted(3)]
  const C3: seq<Pending> := C2 + [LineageWritten(2)]
  const CAPTURE_QUEUE: seq<Pending> := C3 + [HoldTouched(0)]

  lemma Holding()
    ensures Statement(FUNDED, 0, InsertHold(HELD)) == Result(FUNDED.(holds := [HELD]), Accepted, [HoldTouched(0)])
    ensures Statement(FUNDED.(holds := [HELD]), 0, InsertHoldEntry(HE0)) ==
            Result(FUNDED.(holds := [HELD], holdEntries := [HE0]), Accepted, [HoldEntryAdded(0)])
    ensures Statement(FUNDED.(holds := [HELD], holdEntries := [HE0]), 0, InsertHoldEntry(HE1)) ==
            Result(HOLDING, Accepted, [HoldEntryAdded(1)])
  {
  }

  lemma Holds()
    ensures Reached(Session(EMPTY, HOLDING, 0, Q7), true)
  {
    Funds();
    Holding();
    var d1, d2 := FUNDED.(holds := [HELD]), FUNDED.(holds := [HELD], holdEntries := [HE0]);
    StepTo(Session(EMPTY, FUNDED, 0, FUNDED_QUEUE), InsertHold(HELD), Result(d1, Accepted, [HoldTouched(0)]), true);
    StepTo(Session(EMPTY, d1, 0, Q5), InsertHoldEntry(HE0), Result(d2, Accepted, [HoldEntryAdded(0)]), true);
    StepTo(Session(EMPTY, d2, 0, Q6), InsertHoldEntry(HE1), Result(HOLDING, Accepted, [HoldEntryAdded(1)]), true);
  }

  lemma AllocatesTerms()
    ensures AllocationValid(HOLDING, 0, A0)
    ensures HOLDING.chains[A0.grant] != []
    ensures SourceFree(HOLDING.chains[A0.grant], FromAllocation(0)) && CapacityOk(V4.capacity)
    ensures V4.capacity == Current(HOLDING, A0.grant).(reserved := Current(HOLDING, A0.grant).reserved + A0.amount)
  {
    assert HOLDING.chains[0] == [V0];
  }

  lemma AllocatesAppends()
    ensures RESERVED == HOLDING.(allocations := HOLDING.allocations + [A0],
                                 chains := HOLDING.chains[A0.grant :=
                                   Appended(HOLDING.chains[A0.grant], FromAllocation(0), V4.capacity)])
  {
    var chain: seq<Version> := [V0];
    assert Appended(chain, FromAllocation(0), V4.capacity) == [V0, V4];
    PairUpdate([V0], [V1], [V0, V4]);
    assert HOLDING.allocations + [A0] == RESERVED.allocations;
  }

  /** An allocation statement, given its next counters and the tables it leaves. */
  lemma AllocationIs(db: Db, now: int, row: Allocation, id: nat, next: Capacity, db': Db)
    requires AllocationValid(db, now, row) && db.chains[row.grant] != [] && id == |db.allocations|
    requires SourceFree(db.chains[row.grant], FromAllocation(id)) && CapacityOk(next)
    requires next == Current(db, row.grant).(reserved := Current(db, row.grant).reserved + row.amount)
    requires db' == db.(allocations := db.allocations + [row],
                        chains := db.chains[row.grant := Appended(db.chains[row.grant], FromAllocation(id), next)])
    ensures Leads(db, now, InsertAllocation(row), Result(db', Accepted, [AllocationMade(id)]))
  {
    assert Statement(db, now, InsertAllocation(row)) == Result(db', Accepted, [AllocationMade(id)]);
  }

  lemma Allocates()
    ensures Leads(HOLDING, 0, InsertAllocation(A0), Result(RESERVED, Accepted, [AllocationMade(0)]))
  {
    AllocatesTerms();
    AllocatesAppends();
    AllocationIs(HOLDING, 0, A0, 0, V4.capacity, RESERVED);
  }

  lemma Reserves()
    ensures Reached(Session(EMPTY, RESERVED, 0, HELD_QUEUE), true)
  {
    Holds();
    Allocates();
    LedTo(Session(EMPTY, HOLDING, 0, Q7), InsertAllocation(A0), Result(RESERVED, Accepted, [AllocationMade(0)]), true);
  }

  /** The hold's own sums in any of the states below. */
  lemma HeldSums(db: Db)
    requires db.holdEntries == [HE0, HE1]
    ensures forall debit: bool :: HeldTotal(db, 0, debit) == 20
    ensures forall a: nat, debit: bool :: a < 2 ==> HeldFrom(db, 0, a, debit) == if (a == 0) == debit then 20 else 0
  {
    forall debit: bool ensures HeldTotal(db, 0, debit) == 20 {
      SmallSums(HeldMagnitude(db.holdEntries, HeldBy(db, 0, debit)));
    }
    forall a: nat, debit: bool | a < 2 ensures HeldFrom(db, 0, a, debit) == if (a == 0) == debit then 20 else 0 {
      SmallSums(HeldMagnitude(db.holdEntries, HeldOn(db, 0, a, debit)));
    }
  }

  lemma UncapturedSums()
    ensures forall debit: bool :: Captured(RESERVED, 0, debit) == 0
    ensures forall a: nat, debit: bool :: CapturedFrom(RESERVED, 0, a, debit) == 0
  {
    assert forall e: nat :: HoldOf(RESERVED, e) == None;
    forall debit: bool ensures Captured(RESERVED, 0, debit) == 0 {
      SumZero(|RESERVED.entries|, Magnitude(RESERVED.entries, CapturedBy(RESERVED, 0, debit)));
    }
    forall a: nat, debit: bool ensures CapturedFrom(RESERVED, 0, a, debit) == 0 {
      SumZero(|RESERVED.entries|, Magnitude(RESERVED.entries, CapturedOn(RESERVED, 0, a, debit)));
    }
  }

  lemma ReservedConsistent()
    ensures HoldConsistent(RESERVED, 0)
  {
    HeldSums(RESERVED);
    UncapturedSums();
    forall a: nat, debit: bool | a < 2 ensures InProportion(RESERVED, 0, a, debit) {
    }
  }

  lemma ReservedPasses()
    ensures CommitPasses(Session(EMPTY, RESERVED, 0, HELD_QUEUE))
  {
    ReservedConsistent();
    forall e: nat | e < 2 ensures EntryAttributed(RESERVED, e) {
      SmallSums(LineageTerm(RESERVED.lineage, OnEntry(e)));
    }
    SmallSums(AllocationTerm(RESERVED.allocations, ToHoldEntry(0)));
    assert AllocatedToEntry(RESERVED, 0) == 20;
    assert HoldOf(RESERVED, 0) == None && HoldOf(RESERVED, 1) == None;
  }

  lemma DivertsValid()
    ensures LineageValid(CAPTURING, 10, L4)
  {
    SmallSums(Magnitude(CAPTURING.entries, PostedBy(CAPTURING, 2, 1, false)));
    assert FundingCredit(CAPTURING, 2, 1) == 20;
  }

  lemma DivertsTerms()
    ensures SourceFree(CAPTURING.chains[L4.grant], FromLineage(L4.entry)) && CapacityOk(V5.capacity)
    ensures !IsCapture(CAPTURING, L4)
            && V5.capacity == AfterLineage(Current(CAPTURING, L4.grant), L4.kind, L4.amount, false)
  {
    assert CAPTURING.chains[1] == [V1];
  }

  lemma DivertsAppends()
    ensures DIVERTED == CAPTURING.(lineage := CAPTURING.lineage + [L4],
                        chains := CAPTURING.chains[L4.grant :=
                          Appended(CAPTURING.chains[L4.grant], FromLineage(L4.entry), V5.capacity)])
  {
    var chain: seq<Version> := [V1];
    assert Appended(chain, FromLineage(L4.entry), V5.capacity) == [V1, V5];
    PairUpdate([V0, V4], [V1], [V1, V5]);
    assert CAPTURING.lineage + [L4] == DIVERTED.lineage;
  }

  lemma Diverts()
    ensures Leads(CAPTURING, 10, InsertLineage(L4), Result(DIVERTED, Accepted, [LineageWritten(|CAPTURING.lineage|)]))
  {
    DivertsValid();
    DivertsTerms();
    DivertsAppends();
    LineageIs(CAPTURING, 10, L4, V5.capacity, DIVERTED);
  }

  lemma CommitsReserve()
    ensures Reached(Begin(RESERVED, 10), true)
  {
    Reserves();
    ReservedPasses();
    Step(Session(EMPTY, RESERVED, 0, HELD_QUEUE), Commit(10), Begin(RESERVED, 10), true);
  }

  const CAPTURABLE := RESERVED.(txs := [PLAIN, PLAIN, CAPTURE])
  const CAPTURE_DEBIT := RESERVED.(txs := [PLAIN, PLAIN, CAPTURE], entries := [E0, E1, E3])

  lemma OpensCapture()
    ensures Statement(RESERVED, 10, InsertTransaction(CAPTURE)) == Result(CAPTURABLE, Accepted, [])
  {
  }

  lemma DebitsCapture()
    ensures Statement(CAPTURABLE, 10, InsertEntry(E3)) == Result(CAPTURE_DEBIT, Accepted, [EntryPosted(2)])
  {
  }

  lemma CreditsCapture()
    ensures Statement(CAPTURE_DEBIT, 10, InsertEntry(E4)) == Result(CAPTURING, Accepted, [EntryPosted(3)])
  {
  }

  lemma PostsCapture()
    ensures Reached(Session(RESERVED, CAPTURING, 10, C2), true)
  {
    CommitsReserve();
    OpensCapture();
    DebitsCapture();
    CreditsCapture();
    assert [] + [EntryPosted(2)] == C1;
    StepTo(Begin(RESERVED, 10), InsertTransaction(CAPTURE), Result(CAPTURABLE, Accepted, []), true);
    StepTo(Session(RESERVED, CAPTURABLE, 10, []), InsertEntry(E3), Result(CAPTURE_DEBIT, Accepted, [EntryPosted(2)]),
           true);
    StepTo(Session(RESERVED, CAPTURE_DEBIT, 10, C1), InsertEntry(E4), Result(CAPTURING, Accepted, [EntryPosted(3)]),
           true);
  }

  lemma Finishes()
    ensures Statement(DIVERTED, 10, UpdateHold(0, TAKEN)) == Result(CAPTURED, Accepted, [HoldTouched(0)])
  {
    assert DIVERTED.holds[0 := TAKEN] == CAPTURED.holds;
  }

  lemma Captures()
    ensures Reached(Session(RESERVED, CAPTURED, 10, CAPTURE_QUEUE), true)
  {
    PostsCapture();
    Diverts();
    LedTo(Session(RESERVED, CAPTURING, 10, C2), InsertLineage(L4), Result(DIVERTED, Accepted, [LineageWritten(2)]),
          true);
    Finishes();
    StepTo(Session(RESERVED, DIVERTED, 10, C3), UpdateHold(0, TAKEN), Result(CAPTURED, Accepted, [HoldTouched(0)]),
           true);
  }

  lemma CapturedSums()
    ensures forall debit: bool :: Captured(CAPTURED, 0, debit) == 20
    ensures forall a: nat, debit: bool :: a < 2 ==>
            CapturedFrom(CAPTURED, 0, a, debit) == if (a == 0) == debit then 20 else 0
  {
    assert HoldOf(CAPTURED, 0) == None && HoldOf(CAPTURED, 1) == None;
    assert HoldOf(CAPTURED, 2) == Some(0) && HoldOf(CAPTURED, 3) == Some(0);
    forall debit: bool ensures Captured(CAPTURED, 0, debit) == 20 {
      SmallSums(Magnitude(CAPTURED.entries, CapturedBy(CAPTURED, 0, debit)));
    }
    forall a: nat, debit: bool | a < 2
      ensures CapturedFrom(CAPTURED, 0, a, debit) == if (a == 0) == debit then 20 else 0
    {
      SmallSums(Magnitude(CAPTURED.entries, CapturedOn(CAPTURED, 0, a, debit)));
    }
  }

  lemma CapturedConsistent()
    ensures HoldConsistent(CAPTURED, 0)
  {
    HeldSums(CAPTURED);
    CapturedSums();
    forall a: nat, debit: bool | a < 2 ensures InProportion(CAPTURED, 0, a, debit) {
    }
  }

  lemma CapturedPasses()
    ensures CommitPasses(Session(RESERVED, CAPTURED, 10, CAPTURE_QUEUE))
  {
    CapturedConsistent();
    SmallSums(LineageTerm(CAPTURED.lineage, OnEntry(2)));
    assert EntryAttributed(CAPTURED, 2) && EntryAttributed(CAPTURED, 3);
    assert HoldOf(CAPTURED, 2) == Some(0) && HoldOf(CAPTURED, 3) == Some(0);
  }

  /** A run that applies a hold by expiring another lot: the lot that was reserved for it stays reserved for good. */
  lemma DivertedCaptureStrandsReserve()
    ensures exists s: Session ::
              Reached(s, true) && LiveGrantHold(s.base, 0) && s.base.holds[0].state == Applied
              && !Drained(s.base, 0) && Current(s.base, 0).reserved == 20
  {
    Captures();
    CapturedPasses();
    Step(Session(RESERVED, CAPTURED, 10, CAPTURE_QUEUE), Commit(10), Begin(CAPTURED, 10), true);
    assert CAPTURED.holdEntries[0].hold == 0;
    assert HoldOfHoldEntry(CAPTURED, 0) == Some(0);
    SmallSums(AllocationTerm(CAPTURED.allocations, ToHold(CAPTURED, 0, 0)));
    SmallSums(LineageTerm(CAPTURED.lineage, ThroughHold(CAPTURED, 0, 0)));
    assert AllocatedTo(CAPTURED, 0, 0) == 20 && ConsumedThrough(CAPTURED, 0, 0) == 0;
    assert OnGrantAccount(CAPTURED, 0, 0);
    assert LiveGrantHold(Begin(CAPTURED, 10).base, 0);
  }

  // ----- an update that nothing checks

  const HE2 := HoldEntry(0, 1, -5)
  const SHRUNK := RESERVED.(holdEntries := [HE0, HE2])

  lemma ShrunkSums()
    ensures HeldTotal(SHRUNK, 0, true) == 20 && HeldTotal(SHRUNK, 0, false) == 5
  {
    SmallSums(HeldMagnitude(SHRUNK.holdEntries, HeldBy(SHRUNK, 0, true)));
    SmallSums(HeldMagnitude(SHRUNK.holdEntries, HeldBy(SHRUNK, 0, false)));
  }

  const SHRINKS := Edits.Change(Edits.UpdateHoldEntry(1, HE2))

  lemma Shrinks()
    ensures Edits.Step(Edits.Start(RESERVED, 10), SHRINKS).0 ==
            Edits.Work(RESERVED, SHRUNK, 10, [Edits.HeldUpdated(1, HE2)])
  {
    assert RESERVED.holdEntries[1 := HE2] == SHRUNK.holdEntries;
    assert !Edits.HasAllocation(RESERVED, 1);
  }

  lemma ShrunkPasses()
    ensures Edits.AllFire(Edits.Work(RESERVED, SHRUNK, 10, [Edits.HeldUpdated(1, HE2)]))
  {
  }

  lemma ShrunkDisagrees()
    ensures LiveGrantHold(SHRUNK, 0) && !HoldConsistent(SHRUNK, 0)
  {
    ShrunkSums();
    assert OnGrantAccount(SHRUNK, 0, 0);
    assert !AmountsAgree(SHRUNK, 0);
  }

  lemma Plays(moves: seq<Edits.Move>, move: Edits.Move)
    ensures Edits.Play(Edits.Start(EMPTY, 0), moves + [move]) ==
            Edits.Step(Edits.Play(Edits.Start(EMPTY, 0), moves), move).0
  {
    assert (moves + [move])[..|moves|] == moves;
  }

  /** Between edits a run of the engine is one of these runs. */
  lemma PlaysReserve() returns (moves: seq<Edits.Move>)
    ensures Edits.Play(Edits.Start(EMPTY, 0), moves) == Edits.Start(RESERVED, 10)
  {
    CommitsReserve();
    var ops: seq<Op> :| Run(Begin(EMPTY, 0), ops) == Begin(RESERVED, 10);
    moves := Edits.Plainly(ops);
    Edits.PlainIsEngine(0, ops);
  }

  /**
   A held entry that no allocation names may be updated, and only its own completeness is checked
   again: a run with one such update commits a hold whose two sides differ.
   */
  lemma CounterEntryUpdateUnchecked()
    ensures exists moves: seq<Edits.Move> ::
              var db := Edits.Play(Edits.Start(EMPTY, 0), moves).base;
              LiveGrantHold(db, 0) && !HoldConsistent(db, 0)
  {
    var moves := PlaysReserve();
    Shrinks();
    ShrunkPasses();
    ShrunkDisagrees();
    Plays(moves, SHRINKS);
    Plays(moves + [SHRINKS], Edits.Plain(Commit(10)));
    assert Edits.Play(Edits.Start(EMPTY, 0), moves + [SHRINKS] + [Edits.Plain(Commit(10))]).base == SHRUNK;
  }
}
