/** Three more runs, all writing their lineage in time: what a reversal can become, and what may pass as one. */
module ReversalWitnesses {
  import opened Tables
  import opened Engine
  import opened Commits
  import opened Conservation
  import opened Witnesses

  // ----- tools

  /** Two firings queued one after the other in a transaction that had none. */
  lemma TwoQueued(p: Pending, q: Pending)
    ensures [] + [p] == [p] && [p] + [q] == [p, q]
  {
  }

  // ----- 10 spent, committed, and reversed

  const UNDO := Transaction(None, Some(2), Some(Reverses), 0, 0)
  const E5 := Entry(3, 0, -10, 0)
  const L5 := Lineage(0, 0, 3, Compensation, 10)
  const V6 := Version(3, FromLineage(3), Capacity(100, 0, 10, 10, 0, 100, 0))
  const UNDOING := SPENT.(txs := [PLAIN, PLAIN, PLAIN, UNDO])
  const CREDITED := UNDOING.(entries := [E0, E1, E2, E5])
  const UNDONE := CREDITED.(lineage := [L0, L1, L2, L5], chains := [[V0, V2, V6], [V1]])
  const UNDO_QUEUE: seq<Pending> := [EntryPosted(3), LineageWritten(3)]

  lemma CommitsSpending()
    ensures Reached(Begin(SPENT, 0), true)
  {
    Spends();
    SpentPasses();
    Step(Session(EMPTY, SPENT, 0, SPENT_QUEUE), Commit(0), Begin(SPENT, 0), true);
  }

  lemma PostsUndo()
    ensures Statement(SPENT, 0, InsertTransaction(UNDO)) == Result(UNDOING, Accepted, [])
    ensures Statement(UNDOING, 0, InsertEntry(E5)) == Result(CREDITED, Accepted, [EntryPosted(3)])
  {
  }

  lemma Undoes()
    ensures Reached(Session(SPENT, CREDITED, 0, [EntryPosted(3)]), true)
  {
    CommitsSpending();
    PostsUndo();
    TwoQueued(EntryPosted(3), LineageWritten(3));
    StepTo(Begin(SPENT, 0), InsertTransaction(UNDO), Result(UNDOING, Accepted, []), true);
    StepTo(Session(SPENT, UNDOING, 0, []), InsertEntry(E5), Result(CREDITED, Accepted, [EntryPosted(3)]), true);
  }

  lemma CreditedSums()
    ensures TxSum(CREDITED, 0, Consumption, 2) == 10 && TxSum(CREDITED, 0, Compensation, 3) == 0
  {
    SmallSums(LineageTerm(CREDITED.lineage, OfKindInTx(CREDITED, 0, Consumption, 2)));
    SmallSums(LineageTerm(CREDITED.lineage, OfKindInTx(CREDITED, 0, Compensation, 3)));
  }

  lemma CompensatesTerms()
    ensures LineageValid(CREDITED, 0, L5)
    ensures SourceFree(CREDITED.chains[L5.grant], FromLineage(L5.entry)) && CapacityOk(V6.capacity)
    ensures !IsCapture(CREDITED, L5)
            && V6.capacity == AfterLineage(Current(CREDITED, L5.grant), L5.kind, L5.amount, false)
  {
    CreditedSums();
  }

  lemma CompensatesAppends()
    ensures UNDONE == CREDITED.(lineage := CREDITED.lineage + [L5],
                        chains := CREDITED.chains[L5.grant :=
                          Appended(CREDITED.chains[L5.grant], FromLineage(L5.entry), V6.capacity)])
  {
    var chain: seq<Version> := [V0, V2];
    assert Appended(chain, FromLineage(L5.entry), V6.capacity) == [V0, V2, V6];
    PairUpdate([V0, V2], [V1], [V0, V2, V6]);
    assert CREDITED.lineage + [L5] == UNDONE.lineage;
  }

  lemma Compensates()
    ensures Leads(CREDITED, 0, InsertLineage(L5), Result(UNDONE, Accepted, [LineageWritten(|CREDITED.lineage|)]))
  {
    CompensatesTerms();
    CompensatesAppends();
    LineageIs(CREDITED, 0, L5, V6.capacity, UNDONE);
  }

  lemma UndoneSums()
    ensures TxSum(UNDONE, 0, Consumption, 2) == 10 && TxSum(UNDONE, 0, Compensation, 3) == 10
    ensures TxSide(UNDONE, 2, 0, true) == 10 && TxSide(UNDONE, 3, 0, false) == 10 && Attributed(UNDONE, 3) == 10
  {
    SmallSums(LineageTerm(UNDONE.lineage, OfKindInTx(UNDONE, 0, Consumption, 2)));
    SmallSums(LineageTerm(UNDONE.lineage, OfKindInTx(UNDONE, 0, Compensation, 3)));
    SmallSums(LineageTerm(UNDONE.lineage, OnEntry(3)));
    SmallSums(Magnitude(UNDONE.entries, PostedBy(UNDONE, 2, 0, true)));
    SmallSums(Magnitude(UNDONE.entries, PostedBy(UNDONE, 3, 0, false)));
  }

  lemma UndonePasses()
    ensures CommitPasses(Session(SPENT, UNDONE, 0, UNDO_QUEUE))
  {
    UndoneSums();
    assert TxOf(UNDONE, 3) == Some(3) && HoldOf(UNDONE, 3) == None;
    assert EntryAttributed(UNDONE, 3) && CompensationComplete(UNDONE, 3) && ExpiredRemoved(UNDONE, 0, 3);
  }

  lemma CommitsUndo()
    ensures Reached(Begin(UNDONE, 0), true)
  {
    Undoes();
    Compensates();
    TwoQueued(EntryPosted(3), LineageWritten(3));
    LedTo(Session(SPENT, CREDITED, 0, [EntryPosted(3)]), InsertLineage(L5),
          Result(UNDONE, Accepted, [LineageWritten(3)]), true);
    UndonePasses();
    Step(Session(SPENT, UNDONE, 0, UNDO_QUEUE), Commit(0), Begin(UNDONE, 0), true);
  }

  // ----- then one more unit is posted to the reversed transaction

  const E6 := Entry(2, 0, 1, 0)
  const L6 := Lineage(0, 0, 4, Consumption, 1)
  const V7 := Version(4, FromLineage(4), Capacity(100, 0, 11, 10, 0, 99, 0))
  const REOPENING := UNDONE.(entries := [E0, E1, E2, E5, E6])
  const REOPENED := REOPENING.(lineage := [L0, L1, L2, L5, L6], chains := [[V0, V2, V6, V7], [V1]])
  const REOPEN_QUEUE: seq<Pending> := [EntryPosted(4), LineageWritten(4)]

  lemma PostsAgain()
    ensures Statement(UNDONE, 0, InsertEntry(E6)) == Result(REOPENING, Accepted, [EntryPosted(4)])
  {
  }

  lemma ConsumesAgainTerms()
    ensures LineageValid(REOPENING, 0, L6)
    ensures SourceFree(REOPENING.chains[L6.grant], FromLineage(L6.entry)) && CapacityOk(V7.capacity)
    ensures !IsCapture(REOPENING, L6)
            && V7.capacity == AfterLineage(Current(REOPENING, L6.grant), L6.kind, L6.amount, false)
  {
  }

  lemma ConsumesAgainAppends()
    ensures REOPENED == REOPENING.(lineage := REOPENING.lineage + [L6],
                        chains := REOPENING.chains[L6.grant :=
                          Appended(REOPENING.chains[L6.grant], FromLineage(L6.entry), V7.capacity)])
  {
    var chain: seq<Version> := [V0, V2, V6];
    assert Appended(chain, FromLineage(L6.entry), V7.capacity) == [V0, V2, V6, V7];
    PairUpdate([V0, V2, V6], [V1], [V0, V2, V6, V7]);
    assert REOPENING.lineage + [L6] == REOPENED.lineage;
  }

  lemma ConsumesAgain()
    ensures Leads(REOPENING, 0, InsertLineage(L6), Result(REOPENED, Accepted, [LineageWritten(|REOPENING.lineage|)]))
  {
    ConsumesAgainTerms();
    ConsumesAgainAppends();
    LineageIs(REOPENING, 0, L6, V7.capacity, REOPENED);
  }

  lemma ReopenedSums()
    ensures TxSum(REOPENED, 0, Consumption, 2) == 11 && TxSum(REOPENED, 0, Compensation, 3) == 10
            && Attributed(REOPENED, 4) == 1
  {
    SmallSums(LineageTerm(REOPENED.lineage, OfKindInTx(REOPENED, 0, Consumption, 2)));
    SmallSums(LineageTerm(REOPENED.lineage, OfKindInTx(REOPENED, 0, Compensation, 3)));
    SmallSums(LineageTerm(REOPENED.lineage, OnEntry(4)));
  }

  lemma ReopenedPasses()
    ensures CommitPasses(Session(UNDONE, REOPENED, 0, REOPEN_QUEUE))
  {
    ReopenedSums();
    assert EntryAttributed(REOPENED, 4) && HoldOf(REOPENED, 4) == None;
  }

  lemma Reopens()
    ensures Reached(Begin(REOPENED, 0), true)
  {
    CommitsUndo();
    PostsAgain();
    ConsumesAgain();
    TwoQueued(EntryPosted(4), LineageWritten(4));
    StepTo(Begin(UNDONE, 0), InsertEntry(E6), Result(REOPENING, Accepted, [EntryPosted(4)]), true);
    LedTo(Session(UNDONE, REOPENING, 0, [EntryPosted(4)]), InsertLineage(L6),
          Result(REOPENED, Accepted, [LineageWritten(4)]), true);
    ReopenedPasses();
    Step(Session(UNDONE, REOPENED, 0, REOPEN_QUEUE), Commit(0), Begin(REOPENED, 0), true);
  }

  /**
   A run with lineage in time in which an exact reversal stops being exact: one more unit is posted to
   the transaction it reversed, and no trigger looks at the reversal again.
   */
  lemma LateEntryBreaksReversal()
    ensures exists s: Session ::
              && Reached(s, true) && ReversesOn(s.base, 3, 2, 0, 3) && NothingIssued(s.base, 3, 0)
              && !RestoresEachLot(s.base, 3, 2, 0) && !Completed(s.base)
  {
    Reopens();
    ReopenedSums();
    var db := REOPENED;
    assert db.grants[0].account == 0;
    assert TxOf(db, 3) == Some(3);
    assert !CompensationComplete(db, 3);
    assert ReversesOn(Begin(db, 0).base, 3, 2, 0, 3);
  }

  // ----- a reversal that issues a grant instead of compensating

  const G2 := Grant(0, 1, 3, None)
  const L7 := Lineage(2, 0, 3, Issuance, 10)
  const V8 := Version(1, FromLineage(3), Capacity(10, 0, 0, 0, 0, 10, 0))
  const REGRANTED := CREDITED.(grants := [G0, G1, G2], chains := [[V0, V2], [V1], []])
  const REISSUED := REGRANTED.(lineage := [L0, L1, L2, L7], chains := [[V0, V2], [V1], [V8]])

  lemma Regrants()
    ensures Statement(CREDITED, 0, InsertGrant(G2)) == Result(REGRANTED, Accepted, [])
  {
  }

  lemma ReissuesTerms()
    ensures LineageValid(REGRANTED, 0, L7)
    ensures SourceFree(REGRANTED.chains[L7.grant], FromLineage(L7.entry)) && CapacityOk(V8.capacity)
    ensures !IsCapture(REGRANTED, L7)
            && V8.capacity == AfterLineage(Current(REGRANTED, L7.grant), L7.kind, L7.amount, false)
  {
  }

  lemma ReissuesAppends()
    ensures REISSUED == REGRANTED.(lineage := REGRANTED.lineage + [L7],
                        chains := REGRANTED.chains[L7.grant :=
                          Appended(REGRANTED.chains[L7.grant], FromLineage(L7.entry), V8.capacity)])
  {
    var chain: seq<Version> := [];
    assert Appended(chain, FromLineage(L7.entry), V8.capacity) == [V8];
    assert REGRANTED.chains[2 := [V8]] == REISSUED.chains;
    assert REGRANTED.lineage + [L7] == REISSUED.lineage;
  }

  lemma Reissues()
    ensures Leads(REGRANTED, 0, InsertLineage(L7), Result(REISSUED, Accepted, [LineageWritten(|REGRANTED.lineage|)]))
  {
    ReissuesTerms();
    ReissuesAppends();
    LineageIs(REGRANTED, 0, L7, V8.capacity, REISSUED);
  }

  lemma ReissuedSums()
    ensures TxSum(REISSUED, 0, Consumption, 2) == 10 && TxSum(REISSUED, 0, Compensation, 3) == 0
    ensures TxSide(REISSUED, 2, 0, true) == 10 && TxSide(REISSUED, 3, 0, false) == 10 && Attributed(REISSUED, 3) == 10
  {
    SmallSums(LineageTerm(REISSUED.lineage, OfKindInTx(REISSUED, 0, Consumption, 2)));
    SmallSums(LineageTerm(REISSUED.lineage, OfKindInTx(REISSUED, 0, Compensation, 3)));
    SmallSums(LineageTerm(REISSUED.lineage, OnEntry(3)));
    SmallSums(Magnitude(REISSUED.entries, PostedBy(REISSUED, 2, 0, true)));
    SmallSums(Magnitude(REISSUED.entries, PostedBy(REISSUED, 3, 0, false)));
  }

  lemma ReissuedPasses()
    ensures CommitPasses(Session(SPENT, REISSUED, 0, UNDO_QUEUE))
  {
    ReissuedSums();
    assert EntryAttributed(REISSUED, 3) && HoldOf(REISSUED, 3) == None;
  }

  lemma CommitsReissue()
    ensures Reached(Begin(REISSUED, 0), true)
  {
    Undoes();
    Regrants();
    Reissues();
    TwoQueued(EntryPosted(3), LineageWritten(3));
    var q: seq<Pending> := [EntryPosted(3)];
    assert q + [] == q;
    StepTo(Session(SPENT, CREDITED, 0, q), InsertGrant(G2), Result(REGRANTED, Accepted, []), true);
    LedTo(Session(SPENT, REGRANTED, 0, q), InsertLineage(L7), Result(REISSUED, Accepted, [LineageWritten(3)]), true);
    ReissuedPasses();
    Step(Session(SPENT, REISSUED, 0, UNDO_QUEUE), Commit(0), Begin(REISSUED, 0), true);
  }

  /** A run whose reversal mirrors the original in amount, and restores nothing: its credit issues a new grant. */
  lemma IssuingReversalRestoresNothing()
    ensures exists s: Session ::
              && Reached(s, true) && FullyAttributed(s.base) && ReversesOn(s.base, 3, 2, 0, 3)
              && !NothingIssued(s.base, 3, 0) && TxSum(s.base, 0, Compensation, 3) == 0
                && TxSum(s.base, 0, Consumption, 2) == 10
  {
    CommitsReissue();
    ReissuedSums();
    ReachedAttributed(Begin(REISSUED, 0));
    assert TxOf(REISSUED, 3) == Some(3) && REISSUED.lineage[3].kind == Issuance;
    assert ReversesOn(Begin(REISSUED, 0).base, 3, 2, 0, 3);
  }

  lemma ReachedAttributed(s: Session)
    requires Reached(s, true)
    ensures FullyAttributed(s.base)
  {
    var ops: seq<Op> :| Run(Begin(EMPTY, 0), ops) == s && AttributedRun(Begin(EMPTY, 0), ops);
    AttributedRunCommits(0, ops);
  }

  // ----- a REVERSAL row on a transaction that reverses nothing

  const E7 := Entry(2, 0, 100, 0)
  const L8 := Lineage(0, 0, 2, Reversal, 100)
  const V9 := Version(2, FromLineage(2), Capacity(100, 100, 0, 0, 0, 0, 0))
  const THREE := FUNDED.(txs := [PLAIN, PLAIN, PLAIN])
  const TAKING := THREE.(entries := [E0, E1, E7])
  const TAKEN_BACK := TAKING.(lineage := [L0, L1, L8], chains := [[V0, V9], [V1]])
  const TAKING_QUEUE: seq<Pending> := FUNDED_QUEUE + [EntryPosted(2)]
  const TAKEN_QUEUE: seq<Pending> := TAKING_QUEUE + [LineageWritten(2)]

  lemma PostsTaking()
    ensures Statement(THREE, 0, InsertEntry(E7)) == Result(TAKING, Accepted, [EntryPosted(2)])
  {
  }

  lemma TakesBackTerms()
    ensures LineageValid(TAKING, 0, L8)
    ensures SourceFree(TAKING.chains[L8.grant], FromLineage(L8.entry)) && CapacityOk(V9.capacity)
    ensures !IsCapture(TAKING, L8) && V9.capacity == AfterLineage(Current(TAKING, L8.grant), L8.kind, L8.amount, false)
  {
    UnlinkedReversalAccepted(TAKING, 0, L8);
  }

  lemma TakesBackAppends()
    ensures TAKEN_BACK == TAKING.(lineage := TAKING.lineage + [L8],
                        chains := TAKING.chains[L8.grant :=
                          Appended(TAKING.chains[L8.grant], FromLineage(L8.entry), V9.capacity)])
  {
    var chain: seq<Version> := [V0];
    assert Appended(chain, FromLineage(L8.entry), V9.capacity) == [V0, V9];
    PairUpdate([V0], [V1], [V0, V9]);
    assert TAKING.lineage + [L8] == TAKEN_BACK.lineage;
  }

  lemma TakesBack()
    ensures Leads(TAKING, 0, InsertLineage(L8), Result(TAKEN_BACK, Accepted, [LineageWritten(|TAKING.lineage|)]))
  {
    TakesBackTerms();
    TakesBackAppends();
    LineageIs(TAKING, 0, L8, V9.capacity, TAKEN_BACK);
  }

  lemma TakenBackPasses()
    ensures CommitPasses(Session(EMPTY, TAKEN_BACK, 0, TAKEN_QUEUE))
  {
    forall e: nat | e < 3 ensures Attributed(TAKEN_BACK, e) == Abs(TAKEN_BACK.entries[e].amount) {
      SmallSums(LineageTerm(TAKEN_BACK.lineage, OnEntry(e)));
    }
  }

  /** A run that commits a REVERSAL row of a grant on a transaction without any relation. */
  lemma UnlinkedReversalCommits()
    ensures exists s: Session ::
              && Reached(s, true) && |s.base.lineage| == 3 && s.base.lineage[2] == L8
              && TxOf(s.base, L8.entry) == Some(2) && s.base.txs[2].relation.None?
              && |s.base.grants| == 2 && s.base.grants[L8.grant].source != 2
  {
    Funds();
    Spending();
    PostsTaking();
    TakesBack();
    assert FUNDED_QUEUE + [] == FUNDED_QUEUE;
    StepTo(Session(EMPTY, FUNDED, 0, FUNDED_QUEUE), InsertTransaction(PLAIN), Result(THREE, Accepted, []), true);
    StepTo(Session(EMPTY, THREE, 0, FUNDED_QUEUE), InsertEntry(E7), Result(TAKING, Accepted, [EntryPosted(2)]), true);
    LedTo(Session(EMPTY, TAKING, 0, TAKING_QUEUE), InsertLineage(L8),
          Result(TAKEN_BACK, Accepted, [LineageWritten(2)]), true);
    TakenBackPasses();
    Step(Session(EMPTY, TAKEN_BACK, 0, TAKEN_QUEUE), Commit(0), Begin(TAKEN_BACK, 0), true);
    assert Begin(TAKEN_BACK, 0).base.txs[2] == PLAIN;
  }
}
