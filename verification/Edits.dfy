/**
 UPDATE and DELETE of postings, held entries and transactions. Triggers refuse them on rows that
 lineage or an allocation names; on any other row they pass, and no check of the hold looks again.
 A run here mixes them with the statements of the engine.
 */
module Edits {
  import opened Sums
  import opened Tables
  import opened Engine
  import opened Invariant
  import opened Preservation
  import opened Commits
  import opened HoldLaws

  datatype Edit =
    | UpdateEntry(entry: nat, posting: Entry)
    | DeleteEntry(entry: nat)
    | UpdateHoldEntry(held: nat, row: HoldEntry)
    | DeleteHoldEntry(held: nat)
    | UpdateTransaction(tx: nat, header: Transaction)

  datatype Move = Plain(op: Op) | Change(edit: Edit)

  /** A deferred trigger firing; those of postings and held entries carry the row as the statement left it. */
  datatype Firing =
    | Noted(p: Pending)
    | Inserted(entry: nat, posting: Entry)
    | HeldInserted(held: nat, row: HoldEntry)
    | HeldUpdated(held: nat, row: HoldEntry)

  datatype Work = Work(base: Db, cur: Db, now: int, queue: seq<Firing>)

  /** What a statement did. */
  datatype Effect = Effect(db: Db, outcome: Outcome, queued: seq<Firing>)

  // ----- the guards

  predicate HasLineage(db: Db, e: nat) {
    exists i: nat :: i < |db.lineage| && db.lineage[i].entry == e
  }

  predicate TxHasLineage(db: Db, t: nat) {
    exists i: nat :: i < |db.lineage| && TxOf(db, db.lineage[i].entry) == Some(t)
  }

  predicate HasAllocation(db: Db, he: nat) {
    exists i: nat :: i < |db.allocations| && db.allocations[i].holdEntry == he
  }

  /** The CHECK, the foreign keys and the unique index on a transaction row, for an update of row t. */
  predicate HeaderValid(db: Db, t: nat, row: Transaction) {
    && RelationPaired(row)
    && (row.hold.Some? ==> row.hold.value < |db.holds|)
    && (row.related.Some? ==> row.related.value < |db.txs|)
    && (row.related.Some? ==>
          forall i: nat :: i < |db.txs| && i != t ==>
            !(db.txs[i].relation == row.relation && db.txs[i].related == row.related))
  }

  function Unchanged(db: Db): Effect {
    Effect(db, Accepted, [])
  }

  function Forbid(db: Db): Effect {
    Effect(db, Rejected(Invalid), [])
  }

  predicate EntryExists(db: Db, e: nat) {
    e < |db.entries| && db.entries[e].amount != 0
  }

  predicate HeldExists(db: Db, he: nat) {
    he < |db.holdEntries| && db.holdEntries[he].amount != 0
  }

  /** One edit. Without a row to change it changes nothing; a deleted row keeps its place with amount 0. */
  function DoEdit(db: Db, edit: Edit): Effect {
    match edit
    case UpdateEntry(e, row) =>
      if !EntryExists(db, e) then Unchanged(db)
      else if HasLineage(db, e) || !EntryValid(db, row) then Forbid(db)
      else Effect(db.(entries := db.entries[e := row]), Accepted, [])
    case DeleteEntry(e) =>
      if !EntryExists(db, e) then Unchanged(db)
      else if HasLineage(db, e) then Forbid(db)
      else Effect(db.(entries := db.entries[e := db.entries[e].(amount := 0)]), Accepted, [])
    case UpdateHoldEntry(he, row) =>
      if !HeldExists(db, he) then Unchanged(db)
      else if HasAllocation(db, he) || !HoldEntryValid(db, row) then Forbid(db)
      else Effect(db.(holdEntries := db.holdEntries[he := row]), Accepted, [HeldUpdated(he, row)])
    case DeleteHoldEntry(he) =>
      if !HeldExists(db, he) then Unchanged(db)
      else if HasAllocation(db, he) then Forbid(db)
      else Effect(db.(holdEntries := db.holdEntries[he := db.holdEntries[he].(amount := 0)]), Accepted, [])
    case UpdateTransaction(t, row) =>
      if t >= |db.txs| then Unchanged(db)
      else if TxHasLineage(db, t) || !HeaderValid(db, t, row) then Forbid(db)
      else Effect(db.(txs := db.txs[t := row]), Accepted, [])
  }

  // ----- runs

  function Stamp(p: Pending, db: Db): Firing {
    match p
    case EntryPosted(e) => if e < |db.entries| then Inserted(e, db.entries[e]) else Noted(p)
    case HoldEntryAdded(he) => if he < |db.holdEntries| then HeldInserted(he, db.holdEntries[he]) else Noted(p)
    case _ => Noted(p)
  }

  function Stamped(ps: seq<Pending>, db: Db): (firings: seq<Firing>)
    ensures |firings| == |ps| && forall i: nat :: i < |ps| ==> firings[i] == Stamp(ps[i], db)
  {
    seq(|ps|, (i: nat) requires i < |ps| => Stamp(ps[i], db))
  }

  /** assert_grant_entry_attributed on the row as it was inserted. */
  predicate AttributedAs(db: Db, e: nat, row: Entry) {
    GrantEnabled(db, row.account) ==>
      && Attributed(db, e) == Abs(row.amount)
      && (row.tx < |db.txs| && db.txs[row.tx].relation == Some(Reverses) ==>
            && db.txs[row.tx].related.Some?
            && var original := TxSide(db, db.txs[row.tx].related.value, row.account, row.amount < 0);
            original != 0 && TxSide(db, row.tx, row.account, row.amount > 0) == original)
  }

  /** assert_grant_hold_allocated on the row as it was written. */
  predicate AllocatedAs(db: Db, he: nat, row: HoldEntry) {
    GrantEnabled(db, row.account) ==> row.amount > 0 && AllocatedToEntry(db, he) == row.amount
  }

  predicate Fires(db: Db, now: int, f: Firing) {
    match f
    case Noted(p) => Passes(db, now, p)
    case Inserted(e, row) =>
      && AttributedAs(db, e, row)
      && (row.tx < |db.txs| && db.txs[row.tx].hold.Some? ==> HoldConsistent(db, db.txs[row.tx].hold.value))
    case HeldInserted(he, row) => AllocatedAs(db, he, row) && HoldConsistent(db, row.hold)
    case HeldUpdated(he, row) => AllocatedAs(db, he, row)
  }

  predicate AllFire(w: Work) {
    forall i: nat :: i < |w.queue| ==> Fires(w.cur, w.now, w.queue[i])
  }

  function Start(db: Db, now: int): Work {
    Work(db, db, now, [])
  }

  function Took(w: Work, f: Effect): (Work, Outcome) {
    (w.(cur := f.db, queue := w.queue + f.queued), f.outcome)
  }

  function Step(w: Work, move: Move): (Work, Outcome) {
    match move
    case Change(edit) => Took(w, DoEdit(w.cur, edit))
    case Plain(op) =>
      match op
      case Commit(next) =>
        if AllFire(w) then (Start(w.cur, next), Accepted) else (Start(w.base, next), Rejected(DeferredFailed))
      case Rollback(next) => (Start(w.base, next), Accepted)
      case _ =>
        var r := Statement(w.cur, w.now, op);
        Took(w, Effect(r.db, r.outcome, Stamped(r.queued, r.db)))
  }

  function Play(w: Work, moves: seq<Move>): Work {
    if moves == [] then w else Step(Play(w, moves[..|moves| - 1]), moves[|moves| - 1]).0
  }

  // ----- without edits it is the engine

  lemma FiresAsInserted(db: Db, now: int, p: Pending)
    requires p.EntryPosted? ==> p.entry < |db.entries|
    requires p.HoldEntryAdded? ==> p.holdEntry < |db.holdEntries| && db.holdEntries[p.holdEntry].amount != 0
    ensures Fires(db, now, Stamp(p, db)) <==> Passes(db, now, p)
  {
  }

  /** Every queued firing names a row that exists. */
  ghost predicate Targeted(s: Session) {
    forall i: nat :: i < |s.queue| ==>
      && (s.queue[i].EntryPosted? ==> s.queue[i].entry < |s.cur.entries|)
      && (s.queue[i].HoldEntryAdded? ==> s.queue[i].holdEntry < |s.cur.holdEntries|)
  }

  /** A piece of work that has seen no edit, beside the engine's session. */
  ghost predicate Same(w: Work, s: Session) {
    w.base == s.base && w.cur == s.cur && w.now == s.now && w.queue == Stamped(s.queue, s.cur) && Targeted(s)
  }

  lemma StampStays(p: Pending, db: Db, db': Db)
    requires db.entries <= db'.entries && db.holdEntries <= db'.holdEntries
    requires p.EntryPosted? ==> p.entry < |db.entries|
    requires p.HoldEntryAdded? ==> p.holdEntry < |db.holdEntries|
    ensures Stamp(p, db') == Stamp(p, db)
  {
  }

  lemma StatementTargets(db: Db, now: int, op: Op)
    requires RowOp(op)
    ensures var r := Statement(db, now, op);
            forall i: nat :: i < |r.queued| ==>
              && (r.queued[i].EntryPosted? ==> r.queued[i].entry < |r.db.entries|)
              && (r.queued[i].HoldEntryAdded? ==> r.queued[i].holdEntry < |r.db.holdEntries|)
  {
  }

  lemma RowsStay(db: Db, now: int, op: Op)
    requires RowOp(op)
    ensures db.entries <= Statement(db, now, op).db.entries && db.holdEntries <= Statement(db, now, op).db.holdEntries
  {
  }

  lemma PlainRow(w: Work, s: Session, op: Op)
    requires Same(w, s) && RowOp(op)
    ensures Same(Step(w, Plain(op)).0, Exec(s, op).0) && Step(w, Plain(op)).1 == Exec(s, op).1
  {
    var r := Statement(s.cur, s.now, op);
    RowsStay(s.cur, s.now, op);
    StatementTargets(s.cur, s.now, op);
    ExecQueue(s, op);
    var all := s.queue + r.queued;
    forall i: nat | i < |all| ensures Stamp(all[i], r.db) == (w.queue + Stamped(r.queued, r.db))[i] {
      if i < |s.queue| {
        StampStays(s.queue[i], s.cur, r.db);
      }
    }
    assert Stamped(all, r.db) == w.queue + Stamped(r.queued, r.db);
  }

  lemma PlainCommit(w: Work, s: Session)
    requires Same(w, s) && Solid(s.cur)
    ensures AllFire(w) <==> CommitPasses(s)
  {
    forall i: nat | i < |s.queue| ensures Fires(w.cur, w.now, w.queue[i]) <==> Passes(s.cur, s.now, s.queue[i]) {
      FiresAsInserted(s.cur, s.now, s.queue[i]);
    }
  }

  function Plainly(ops: seq<Op>): (moves: seq<Move>)
    ensures |moves| == |ops| && forall i: nat :: i < |ops| ==> moves[i] == Plain(ops[i])
  {
    seq(|ops|, (i: nat) requires i < |ops| => Plain(ops[i]))
  }

  lemma PlainStep(w: Work, s: Session, op: Op)
    requires Same(w, s) && Solid(s.cur)
    ensures Same(Step(w, Plain(op)).0, Exec(s, op).0) && Step(w, Plain(op)).1 == Exec(s, op).1
  {
    if RowOp(op) {
      PlainRow(w, s, op);
    } else {
      PlainCommit(w, s);
    }
  }

  lemma SolidRun(now: int, ops: seq<Op>)
    ensures Solid(Run(Begin(EMPTY, now), ops).cur)
  {
    RunCommits(now, ops);
  }

  /** A run without edits is the engine's run, statement by statement and commit by commit. */
  lemma {:induction false} PlainIsEngine(now: int, ops: seq<Op>)
    ensures Same(Play(Start(EMPTY, now), Plainly(ops)), Run(Begin(EMPTY, now), ops))
  {
    if ops != [] {
      var init := ops[..|ops| - 1];
      PlainIsEngine(now, init);
      SolidRun(now, init);
      assert Plainly(ops)[..|ops| - 1] == Plainly(init);
      PlainStep(Play(Start(EMPTY, now), Plainly(init)), Run(Begin(EMPTY, now), init), ops[|ops| - 1]);
    }
  }

  // ----- an edit is refused exactly when it is guarded

  predicate Guards(db: Db, edit: Edit) {
    match edit
    case UpdateEntry(e, _) => EntryExists(db, e) && HasLineage(db, e)
    case DeleteEntry(e) => EntryExists(db, e) && HasLineage(db, e)
    case UpdateHoldEntry(he, _) => HeldExists(db, he) && HasAllocation(db, he)
    case DeleteHoldEntry(he) => HeldExists(db, he) && HasAllocation(db, he)
    case UpdateTransaction(t, _) => t < |db.txs| && TxHasLineage(db, t)
  }

  predicate WellFormed(db: Db, edit: Edit) {
    match edit
    case UpdateEntry(_, row) => EntryValid(db, row)
    case UpdateHoldEntry(_, row) => HoldEntryValid(db, row)
    case UpdateTransaction(t, row) => HeaderValid(db, t, row)
    case _ => true
  }

  // ----- the invariant survives every edit

  /** Rows that lineage and allocations name are the same, and so are all the other tables. */
  ghost predicate Undisturbed(db: Db, db': Db) {
    && db'.accounts == db.accounts && db'.grants == db.grants && db'.lineage == db.lineage
    && db'.holds == db.holds && db'.allocations == db.allocations && db'.chains == db.chains
    && |db'.entries| == |db.entries| && |db'.txs| == |db.txs| && |db'.holdEntries| == |db.holdEntries|
    && (forall e: nat :: e < |db.entries| && HasLineage(db, e) ==> db'.entries[e] == db.entries[e])
    && (forall t: nat :: t < |db.txs| && TxHasLineage(db, t) ==> db'.txs[t] == db.txs[t])
    && (forall he: nat :: he < |db.holdEntries| && HasAllocation(db, he) ==> db'.holdEntries[he] == db.holdEntries[he])
  }

  lemma EditUndisturbed(db: Db, edit: Edit)
    ensures Undisturbed(db, DoEdit(db, edit).db)
  {
  }

  lemma LineageSeesSame(db: Db, db': Db, i: nat)
    requires Refs(db) && Links(db) && Undisturbed(db, db') && i < |db.lineage|
    ensures var l := db.lineage[i];
            && db'.entries[l.entry] == db.entries[l.entry]
            && TxOf(db', l.entry) == TxOf(db, l.entry) && HoldOf(db', l.entry) == HoldOf(db, l.entry)
            && db'.txs[db.entries[l.entry].tx] == db.txs[db.entries[l.entry].tx]
  {
    var l := db.lineage[i];
    assert Linked(db, l);
    assert HasLineage(db, l.entry);
    assert TxOf(db, l.entry) == Some(db.entries[l.entry].tx) && TxHasLineage(db, db.entries[l.entry].tx);
  }

  lemma AllocationSeesSame(db: Db, db': Db, i: nat)
    requires Links(db) && Undisturbed(db, db') && i < |db.allocations|
    ensures db'.holdEntries[db.allocations[i].holdEntry] == db.holdEntries[db.allocations[i].holdEntry]
    ensures HoldOfHoldEntry(db', db.allocations[i].holdEntry) == HoldOfHoldEntry(db, db.allocations[i].holdEntry)
  {
    assert AllocationLinked(db, db.allocations[i]);
    assert HasAllocation(db, db.allocations[i].holdEntry);
  }

  lemma UndisturbedSums(db: Db, db': Db, g: nat)
    requires Refs(db) && Links(db) && Undisturbed(db, db')
    ensures forall k :: KindSum(db', g, k) == KindSum(db, g, k)
    ensures forall k, t: nat :: TxSum(db', g, k, t) == TxSum(db, g, k, t)
    ensures forall h: nat :: ConsumedThrough(db', g, h) == ConsumedThrough(db, g, h)
    ensures forall h: nat :: AllocatedTo(db', g, h) == AllocatedTo(db, g, h)
  {
    forall i: nat | i < |db.lineage|
      ensures TxOf(db', db.lineage[i].entry) == TxOf(db, db.lineage[i].entry)
      ensures HoldOf(db', db.lineage[i].entry) == HoldOf(db, db.lineage[i].entry)
    {
      LineageSeesSame(db, db', i);
    }
    forall i: nat | i < |db.allocations|
      ensures HoldOfHoldEntry(db', db.allocations[i].holdEntry) == HoldOfHoldEntry(db, db.allocations[i].holdEntry)
    {
      AllocationSeesSame(db, db', i);
    }
    forall k, t: nat ensures TxSum(db', g, k, t) == TxSum(db, g, k, t) {
      LineageSumSame(db.lineage, OfKindInTx(db', g, k, t), OfKindInTx(db, g, k, t));
    }
    forall h: nat ensures ConsumedThrough(db', g, h) == ConsumedThrough(db, g, h) {
      LineageSumSame(db.lineage, ThroughHold(db', g, h), ThroughHold(db, g, h));
    }
    forall h: nat ensures AllocatedTo(db', g, h) == AllocatedTo(db, g, h) {
      AllocationSumSame(db.allocations, ToHold(db', g, h), ToHold(db, g, h));
    }
  }

  lemma UndisturbedTotals(db: Db, db': Db, g: nat)
    requires Refs(db) && Links(db) && Undisturbed(db, db')
    ensures Totals(db', g) == Totals(db, g)
  {
    UndisturbedSums(db, db', g);
    SumSame(|db.holds|, Outstanding(db', g), Outstanding(db, g));
  }

  lemma UndisturbedLinks(db: Db, db': Db)
    requires Refs(db) && Links(db) && Undisturbed(db, db')
    ensures Links(db')
  {
    forall i: nat | i < |db'.lineage| ensures Linked(db', db'.lineage[i]) {
      assert Linked(db, db.lineage[i]);
      LineageSeesSame(db, db', i);
    }
    forall i: nat | i < |db'.allocations| ensures AllocationLinked(db', db'.allocations[i]) {
      assert AllocationLinked(db, db.allocations[i]);
      AllocationSeesSame(db, db', i);
    }
  }

  lemma NoLineageNoSum(db: Db, g: nat, k: Kind, t: nat)
    requires Links(db) && !TxHasLineage(db, t)
    ensures TxSum(db, g, k, t) == 0
  {
    forall i: nat | i < |db.lineage| ensures db.lineage[i].amount > 0 {
      assert Linked(db, db.lineage[i]);
    }
    LineageSumPositive(db.lineage, OfKindInTx(db, g, k, t));
  }

  lemma UndisturbedCaps(db: Db, db': Db)
    requires Refs(db) && Links(db) && Undisturbed(db, db') && ReversalsCapped(db)
    ensures ReversalsCapped(db')
  {
    forall g: nat, r: nat | r < |db'.txs| && db'.txs[r].related.Some?
      ensures TxSum(db', g, Compensation, r) <= TxSum(db', g, Consumption, db'.txs[r].related.value)
    {
      UndisturbedSums(db, db', g);
      SumsNonNegative(db, g);
      if TxHasLineage(db, r) {
        assert TxSum(db, g, Compensation, r) <= TxSum(db, g, Consumption, db.txs[r].related.value);
      } else {
        NoLineageNoSum(db, g, Compensation, r);
      }
    }
  }

  lemma UndisturbedKeepsInv(db: Db, db': Db)
    requires Inv(db) && Undisturbed(db, db') && Refs(db') && RelationUnique(db')
    ensures Inv(db')
  {
    UndisturbedLinks(db, db');
    UndisturbedCaps(db, db');
    forall g: nat | g < |db'.chains| ensures Current(db', g) == Totals(db', g) {
      UndisturbedTotals(db, db', g);
      assert Current(db, g) == Totals(db, g);
    }
    forall g: nat, h: nat ensures ConsumedThrough(db', g, h) <= AllocatedTo(db', g, h) {
      UndisturbedSums(db, db', g);
      assert ConsumedThrough(db, g, h) <= AllocatedTo(db, g, h);
    }
    UndisturbedChains(db, db');
  }

  lemma UndisturbedChains(db: Db, db': Db)
    requires Chained(db) && Undisturbed(db, db')
    ensures Chained(db')
  {
    forall g: nat | g < |db'.chains| ensures ChainOk(db'.chains[g]) && ChainKnown(db', g) {
      assert ChainOk(db.chains[g]) && ChainKnown(db, g);
      forall i: nat | i < |db'.chains[g]| ensures SourceKnown(db', g, db'.chains[g][i].source) {
        assert SourceKnown(db, g, db.chains[g][i].source);
      }
    }
  }

  lemma EditRefs(db: Db, edit: Edit)
    requires Refs(db) && RelationUnique(db)
    ensures Refs(DoEdit(db, edit).db) && RelationUnique(DoEdit(db, edit).db)
  {
  }

  /**
   An edit is refused exactly when its row is malformed or guarded, and what it does keeps every
   invariant of the lots.
   */
  lemma EditKeepsInv(db: Db, edit: Edit)
    requires Inv(db)
    ensures DoEdit(db, edit).outcome == Rejected(Invalid) <==>
            Guards(db, edit) || (!WellFormed(db, edit) && Targets(db, edit))
    ensures DoEdit(db, edit).outcome != Rejected(Invalid) ==> DoEdit(db, edit).outcome == Accepted
    ensures Inv(DoEdit(db, edit).db)
  {
    EditUndisturbed(db, edit);
    EditRefs(db, edit);
    UndisturbedKeepsInv(db, DoEdit(db, edit).db);
  }

  predicate Targets(db: Db, edit: Edit) {
    match edit
    case UpdateEntry(e, _) => EntryExists(db, e)
    case DeleteEntry(e) => EntryExists(db, e)
    case UpdateHoldEntry(he, _) => HeldExists(db, he)
    case DeleteHoldEntry(he) => HeldExists(db, he)
    case UpdateTransaction(t, _) => t < |db.txs|
  }

  lemma StepKeepsInv(w: Work, move: Move)
    requires Inv(w.base) && Inv(w.cur)
    ensures Inv(Step(w, move).0.base) && Inv(Step(w, move).0.cur)
  {
    match move
    case Change(edit) => EditKeepsInv(w.cur, edit);
    case Plain(op) => if RowOp(op) { StatementKeepsInv(w.cur, w.now, op); }
  }

  /** Every law of reachable tables that the invariant carries holds of runs with edits too. */
  lemma {:induction false} PlayKeepsInv(now: int, moves: seq<Move>)
    ensures Inv(Play(Start(EMPTY, now), moves).base) && Inv(Play(Start(EMPTY, now), moves).cur)
  {
    if moves == [] {
      EmptyHoldsInv();
    } else {
      PlayKeepsInv(now, moves[..|moves| - 1]);
      StepKeepsInv(Play(Start(EMPTY, now), moves[..|moves| - 1]), moves[|moves| - 1]);
    }
  }

  // ----- what a transaction with edits leaves of the committed tables

  /** Tables only grow, holds only advance, and rows that lineage or an allocation names stay as they are. */
  ghost predicate Follows(base: Db, cur: Db) {
    && base.accounts <= cur.accounts && base.grants <= cur.grants
    && base.lineage <= cur.lineage && base.allocations <= cur.allocations
    && |base.txs| <= |cur.txs| && |base.entries| <= |cur.entries| && |base.holdEntries| <= |cur.holdEntries|
    && |base.holds| <= |cur.holds| && (forall h: nat :: h < |base.holds| ==> Evolves(base.holds[h], cur.holds[h]))
    && (forall e: nat :: e < |base.entries| && HasLineage(base, e) ==> cur.entries[e] == base.entries[e])
    && (forall t: nat :: t < |base.txs| && TxHasLineage(base, t) ==> cur.txs[t] == base.txs[t])
    && (forall he: nat :: he < |base.holdEntries| && HasAllocation(base, he) ==>
          cur.holdEntries[he] == base.holdEntries[he])
  }

  lemma GrowsFollows(db: Db, db': Db)
    requires Grows(db, db')
    ensures Follows(db, db')
  {
  }

  lemma EditFollows(db: Db, edit: Edit)
    ensures Follows(db, DoEdit(db, edit).db)
  {
    EditUndisturbed(db, edit);
  }

  lemma NamedStays(a: Db, b: Db)
    requires Refs(a) && Links(a) && Follows(a, b)
    ensures forall e: nat :: HasLineage(a, e) ==> HasLineage(b, e)
    ensures forall he: nat :: HasAllocation(a, he) ==> HasAllocation(b, he)
    ensures forall t: nat :: TxHasLineage(a, t) ==> TxHasLineage(b, t)
  {
    forall e: nat | HasLineage(a, e) ensures HasLineage(b, e) {
      var i: nat :| i < |a.lineage| && a.lineage[i].entry == e;
      assert b.lineage[i] == a.lineage[i];
    }
    forall he: nat | HasAllocation(a, he) ensures HasAllocation(b, he) {
      var i: nat :| i < |a.allocations| && a.allocations[i].holdEntry == he;
      assert b.allocations[i] == a.allocations[i];
    }
    forall t: nat | TxHasLineage(a, t) ensures TxHasLineage(b, t) {
      var i: nat :| i < |a.lineage| && TxOf(a, a.lineage[i].entry) == Some(t);
      assert b.lineage[i] == a.lineage[i] && Linked(a, a.lineage[i]);
      assert HasLineage(a, a.lineage[i].entry);
    }
  }

  lemma FollowsTransitive(a: Db, b: Db, c: Db)
    requires Refs(a) && Links(a) && Follows(a, b) && Follows(b, c)
    ensures Follows(a, c)
  {
    NamedStays(a, b);
    forall h: nat | h < |a.holds| ensures Evolves(a.holds[h], c.holds[h]) {
      assert Evolves(a.holds[h], b.holds[h]) && Evolves(b.holds[h], c.holds[h]);
    }
  }

  /** Every row that was inserted or updated and still exists has its firing queued. */
  ghost predicate FiringsQueued(w: Work) {
    && (forall a: nat :: |w.base.allocations| <= a < |w.cur.allocations| ==> Noted(AllocationMade(a)) in w.queue)
    && (forall h: nat :: h < |w.cur.holds| && (h >= |w.base.holds| || w.cur.holds[h] != w.base.holds[h]) ==>
          Noted(HoldTouched(h)) in w.queue)
    && (forall he: nat :: he < |w.cur.holdEntries| ==> HeldNoted(w, he))
  }

  ghost predicate HeldNoted(w: Work, he: nat)
    requires he < |w.cur.holdEntries|
  {
    var row := w.cur.holdEntries[he];
    || row.amount == 0 || (he < |w.base.holdEntries| && row == w.base.holdEntries[he])
    || HeldInserted(he, row) in w.queue || HeldUpdated(he, row) in w.queue
  }

  ghost predicate WorkOpen(w: Work) {
    Inv(w.base) && Inv(w.cur) && Follows(w.base, w.cur) && FiringsQueued(w)
  }

  lemma HeldNotedStays(w: Work, w': Work, he: nat)
    requires he < |w.cur.holdEntries| && HeldNoted(w, he) && he < |w'.cur.holdEntries|
    requires w'.base == w.base && w'.cur.holdEntries[he] == w.cur.holdEntries[he] && w.queue <= w'.queue
    ensures HeldNoted(w', he)
  {
  }

  lemma EditQueues(w: Work, edit: Edit)
    requires FiringsQueued(w)
    ensures FiringsQueued(Step(w, Change(edit)).0)
  {
    var w' := Step(w, Change(edit)).0;
    assert w.queue <= w'.queue;
    forall he: nat | he < |w'.cur.holdEntries| ensures HeldNoted(w', he) {
      assert HeldNoted(w, he);
      if w'.cur.holdEntries[he] == w.cur.holdEntries[he] {
        HeldNotedStays(w, w', he);
      } else if edit.UpdateHoldEntry? {
        assert w'.queue[|w.queue|] == HeldUpdated(he, edit.row);
      }
    }
  }

  /** What the engine's own queue says, read as firings. */
  lemma StatementNotes(w: Work, op: Op)
    requires RowOp(op) && FiringsQueued(w) && Inv(w.cur) && Follows(w.base, w.cur)
    ensures FiringsQueued(Step(w, Plain(op)).0)
  {
    var w' := Step(w, Plain(op)).0;
    var r := Statement(w.cur, w.now, op);
    var one := Session(w.cur, w.cur, w.now, []);
    assert Queued(one);
    StatementGrows(w.cur, w.now, op);
    GrowsSelf(w.cur);
    StatementQueues(one, op);
    ExecQueue(one, op);
    assert Exec(one, op).0.queue == r.queued;
    QueuedAsFirings(w, w', r);
  }

  lemma GrowsSelf(db: Db)
    ensures Grows(db, db)
  {
  }

  lemma StampedIn(p: Pending, ps: seq<Pending>, db: Db)
    requires p in ps
    ensures Stamp(p, db) in Stamped(ps, db)
  {
    var i :| 0 <= i < |ps| && ps[i] == p;
    assert Stamped(ps, db)[i] == Stamp(p, db);
  }

  lemma QueuedAsFirings(w: Work, w': Work, r: Result)
    requires FiringsQueued(w) && Grows(w.cur, r.db) && Queued(Session(w.cur, r.db, w.now, r.queued))
    requires w' == w.(cur := r.db, queue := w.queue + Stamped(r.queued, r.db))
    requires |w.base.holds| <= |w.cur.holds|
    ensures FiringsQueued(w')
  {
    forall a: nat | |w.base.allocations| <= a < |w'.cur.allocations| ensures Noted(AllocationMade(a)) in w'.queue {
      if a >= |w.cur.allocations| {
        StampedIn(AllocationMade(a), r.queued, r.db);
      }
    }
    forall h: nat | h < |w'.cur.holds| && (h >= |w.base.holds| || w'.cur.holds[h] != w.base.holds[h])
      ensures Noted(HoldTouched(h)) in w'.queue
    {
      if h >= |w.cur.holds| || w'.cur.holds[h] != w.cur.holds[h] {
        StampedIn(HoldTouched(h), r.queued, r.db);
      }
    }
    forall he: nat | he < |w'.cur.holdEntries| ensures HeldNoted(w', he) {
      if he < |w.cur.holdEntries| {
        assert HeldNoted(w, he);
        HeldNotedStays(w, w', he);
      } else {
        StampedIn(HoldEntryAdded(he), r.queued, r.db);
      }
    }
  }

  lemma StepKeepsOpen(w: Work, move: Move)
    requires WorkOpen(w)
    ensures WorkOpen(Step(w, move).0)
  {
    match move
    case Change(edit) =>
      EditKeepsInv(w.cur, edit);
      EditFollows(w.cur, edit);
      FollowsTransitive(w.base, w.cur, Step(w, move).0.cur);
      EditQueues(w, edit);
    case Plain(op) =>
      if RowOp(op) {
        StatementKeepsInv(w.cur, w.now, op);
        StatementGrows(w.cur, w.now, op);
        GrowsFollows(w.cur, Step(w, move).0.cur);
        FollowsTransitive(w.base, w.cur, Step(w, move).0.cur);
        StatementNotes(w, op);
      } else {
        StartOpen(w, op);
      }
  }

  lemma StartOpen(w: Work, op: Op)
    requires Inv(w.base) && Inv(w.cur) && !RowOp(op)
    ensures WorkOpen(Step(w, Plain(op)).0)
  {
    var w' := Step(w, Plain(op)).0;
    assert w'.base == w'.cur && w'.queue == [];
    FollowsSelf(w'.base);
  }

  lemma FollowsSelf(db: Db)
    ensures Follows(db, db)
  {
  }

  // ----- held entries of grant accounts stay covered

  lemma HeldStaysBacked(w: Work, he: nat)
    requires WorkOpen(w) && AllFire(w) && HoldEntryAllocated(w.base, he)
    ensures HoldEntryAllocated(w.cur, he)
  {
    var base, cur := w.base, w.cur;
    if he < |cur.holdEntries| && cur.holdEntries[he].amount != 0 {
      assert HeldNoted(w, he);
      if he < |base.holdEntries| && cur.holdEntries[he] == base.holdEntries[he] {
        if a: nat :| |base.allocations| <= a < |cur.allocations| && cur.allocations[a].holdEntry == he {
          assert Noted(AllocationMade(a)) in w.queue;
          assert AllocationTotal(cur, a);
          assert AllocationLinked(cur, cur.allocations[a]);
        } else {
          AllocatedToEntryStays(base, cur, he);
        }
      } else if HeldInserted(he, cur.holdEntries[he]) in w.queue {
        assert Fires(cur, w.now, HeldInserted(he, cur.holdEntries[he]));
      } else {
        assert Fires(cur, w.now, HeldUpdated(he, cur.holdEntries[he]));
      }
    }
  }

  lemma CommitStaysBacked(w: Work)
    requires WorkOpen(w) && AllFire(w) && HoldsBacked(w.base)
    ensures HoldsBacked(w.cur)
  {
    forall he: nat ensures HoldEntryAllocated(w.cur, he) {
      assert HoldEntryAllocated(w.base, he);
      HeldStaysBacked(w, he);
    }
  }

  /** In every committed state, edits or not, allocations cover each held entry of a grant-enabled account exactly. */
  lemma {:induction false} PlayBacked(now: int, moves: seq<Move>)
    ensures WorkOpen(Play(Start(EMPTY, now), moves)) && HoldsBacked(Play(Start(EMPTY, now), moves).base)
  {
    if moves == [] {
      EmptyHoldsInv();
      assert Start(EMPTY, now).queue == [];
    } else {
      var w, move := Play(Start(EMPTY, now), moves[..|moves| - 1]), moves[|moves| - 1];
      PlayBacked(now, moves[..|moves| - 1]);
      StepKeepsOpen(w, move);
      if move.Plain? && move.op.Commit? && AllFire(w) {
        CommitStaysBacked(w);
      }
    }
  }

  // ----- whether a hold still agrees: the exact condition

  /** The firing re-examines hold h. */
  predicate Checks(db: Db, f: Firing, h: nat) {
    match f
    case Noted(p) => p == HoldTouched(h)
    case Inserted(_, row) => row.tx < |db.txs| && db.txs[row.tx].hold == Some(h)
    case HeldInserted(_, row) => row.hold == h
    case HeldUpdated(_, _) => false
  }

  predicate Checked(w: Work, h: nat) {
    exists i: nat :: i < |w.queue| && Checks(w.cur, w.queue[i], h)
  }

  predicate Cross(x: int, m: int, y: int, n: int) {
    x * m == y * n
  }

  function CapturedShift(base: Db, cur: Db, h: nat, a: nat, debit: bool): int {
    CapturedFrom(cur, h, a, debit) - CapturedFrom(base, h, a, debit)
  }

  function HeldShift(base: Db, cur: Db, h: nat, a: nat, debit: bool): int {
    HeldFrom(cur, h, a, debit) - HeldFrom(base, h, a, debit)
  }

  /**
   How far one account's side has moved: what is captured of it, and what is held, cross-multiplied as
   the check does.
   */
  predicate MovedTogether(base: Db, cur: Db, h: nat, a: nat, debit: bool) {
    Cross(CapturedShift(base, cur, h, a, debit), HeldTotal(base, h, true),
          HeldShift(base, cur, h, a, debit), Captured(base, h, true))
  }

  /** The four totals are the same, and each account's side moved, if at all, in the hold's own proportion. */
  ghost predicate KeptInProportion(base: Db, cur: Db, h: nat) {
    && (forall debit :: HeldTotal(cur, h, debit) == HeldTotal(base, h, debit))
    && (forall debit :: Captured(cur, h, debit) == Captured(base, h, debit))
    && (forall a: nat, debit :: a < |cur.accounts| ==> MovedTogether(base, cur, h, a, debit))
  }

  /**
   Some lots of the hold are as they were: an account with a held debit whose held and captured debits
   did not move.
   */
  ghost predicate Pinned(base: Db, cur: Db, h: nat) {
    exists a: nat :: a < |base.accounts| && PinnedAt(base, cur, h, a)
  }

  predicate PinnedAt(base: Db, cur: Db, h: nat, a: nat) {
    && HeldFrom(base, h, a, true) > 0 && HeldFrom(cur, h, a, true) == HeldFrom(base, h, a, true)
    && CapturedFrom(cur, h, a, true) == CapturedFrom(base, h, a, true)
  }

  lemma SameDifference(captured: int, total: int, held: int, all: int, captured': int, total': int, held': int,
                       all': int,
                       moved: int, movedHeld: int)
    requires Cross(captured, total, held, all) && total' == total && all' == all
    requires moved == captured' - captured && movedHeld == held' - held
    ensures Cross(captured', total', held', all') <==> Cross(moved, total, movedHeld, all)
  {
    assert moved * total == captured' * total - captured * total;
    assert movedHeld * all == held' * all - held * all;
  }

  lemma FromNothing(captured: int, total: int, held: int, all: int)
    requires captured == 0 && held == 0
    ensures captured * total == held * all
  {
  }

  lemma NewAccountInProportion(db: Db, h: nat, a: nat, debit: bool)
    requires Refs(db) && a >= |db.accounts|
    ensures InProportion(db, h, a, debit)
  {
    NoRowsNoSums(db, h, a, debit);
    FromNothing(CapturedFrom(db, h, a, debit), HeldTotal(db, h, true), HeldFrom(db, h, a, debit),
                Captured(db, h, true));
  }

  lemma ProportionIsCross(db: Db, h: nat, a: nat, debit: bool)
    ensures InProportion(db, h, a, debit) <==>
            Cross(CapturedFrom(db, h, a, debit), HeldTotal(db, h, true), HeldFrom(db, h, a, debit),
                  Captured(db, h, true))
  {
  }

  lemma SideKept(base: Db, cur: Db, h: nat, a: nat, debit: bool)
    requires InProportion(base, h, a, debit)
    requires HeldTotal(cur, h, true) == HeldTotal(base, h, true) && Captured(cur, h, true) == Captured(base, h, true)
    ensures InProportion(cur, h, a, debit) <==> MovedTogether(base, cur, h, a, debit)
  {
    ProportionIsCross(base, h, a, debit);
    ProportionIsCross(cur, h, a, debit);
    SameDifference(CapturedFrom(base, h, a, debit), HeldTotal(base, h, true), HeldFrom(base, h, a, debit),
                   Captured(base, h, true), CapturedFrom(cur, h, a, debit), HeldTotal(cur, h, true),
                   HeldFrom(cur, h, a, debit), Captured(cur, h, true), CapturedShift(base, cur, h, a, debit),
                   HeldShift(base, cur, h, a, debit));
  }

  lemma SameShare(captured: int, total: int, held: int, all: int, all': int)
    requires captured * total == held * all && captured * total == held * all' && held > 0
    ensures all' == all
  {
    Cancel(all', all, held) by {
      assert all' * held == held * all' && all * held == held * all;
    }
  }

  lemma SameTotal(x: int, total: int, total': int, y: int)
    requires total' == total && x * total' == y
    ensures x * total == y
  {
  }

  /** A pinned account fixes the share of the whole that is captured. */
  lemma PinnedShare(base: Db, cur: Db, h: nat, a: nat)
    requires PinnedAt(base, cur, h, a) && InProportion(base, h, a, true) && InProportion(cur, h, a, true)
    requires HeldTotal(cur, h, true) == HeldTotal(base, h, true)
    ensures Captured(cur, h, true) == Captured(base, h, true)
  {
    SameTotal(CapturedFrom(cur, h, a, true), HeldTotal(base, h, true), HeldTotal(cur, h, true),
              HeldFrom(cur, h, a, true) * Captured(cur, h, true));
    SameShare(CapturedFrom(base, h, a, true), HeldTotal(base, h, true), HeldFrom(base, h, a, true),
              Captured(base, h, true), Captured(cur, h, true));
  }

  lemma AgreeKeepsTotals(base: Db, cur: Db, h: nat)
    requires h < |base.holds| && h < |cur.holds| && cur.holds[h] == base.holds[h] && |base.accounts| <= |cur.accounts|
    requires AmountsAgree(base, h) && AmountsAgree(cur, h) && Proportional(base, h) && Proportional(cur, h)
    requires base.holds[h].state == Voided ==> Pinned(base, cur, h)
    ensures forall debit :: HeldTotal(cur, h, debit) == HeldTotal(base, h, debit)
    ensures forall debit :: Captured(cur, h, debit) == Captured(base, h, debit)
  {
    if base.holds[h].state == Voided {
      var a: nat :| a < |base.accounts| && PinnedAt(base, cur, h, a);
      assert InProportion(base, h, a, true) && InProportion(cur, h, a, true);
      PinnedShare(base, cur, h, a);
    }
  }

  /**
   Where nothing re-examined it, a hold that agreed still agrees if and only if its totals stand and
   each account's side moved in proportion. For a VOIDED hold some lot must be as it was, which the
   guards on lineage and allocations see to.
   */
  lemma AgreesIff(base: Db, cur: Db, h: nat)
    requires Refs(base) && h < |base.holds| && h < |cur.holds| && cur.holds[h] == base.holds[h]
    requires |base.accounts| <= |cur.accounts| && AmountsAgree(base, h) && Proportional(base, h)
    requires base.holds[h].state == Voided ==> Pinned(base, cur, h)
    ensures AmountsAgree(cur, h) && Proportional(cur, h) <==> KeptInProportion(base, cur, h)
  {
    if AmountsAgree(cur, h) && Proportional(cur, h) {
      AgreeKeepsTotals(base, cur, h);
    }
    if HeldTotal(cur, h, true) == HeldTotal(base, h, true) && Captured(cur, h, true) == Captured(base, h, true) {
      forall a: nat, debit | a < |cur.accounts|
        ensures InProportion(cur, h, a, debit) <==> MovedTogether(base, cur, h, a, debit)
      {
        if a >= |base.accounts| {
          NewAccountInProportion(base, h, a, debit);
        }
        SideKept(base, cur, h, a, debit);
      }
    }
  }

  lemma CoveredIsNamed(db: Db, h: nat, he: nat)
    requires Links(db) && HoldsBacked(db) && he < |db.holdEntries| && OnGrantAccount(db, h, he)
    ensures HasAllocation(db, he)
  {
    assert HoldEntryAllocated(db, he);
    forall i: nat | i < |db.allocations| ensures db.allocations[i].amount > 0 {
      assert AllocationLinked(db, db.allocations[i]);
    }
    AllocationSumPositive(db.allocations, ToHoldEntry(he));
    var i: nat :| i < |db.allocations| && ToHoldEntry(he)(db.allocations[i]);
    assert db.allocations[i].holdEntry == he;
  }

  /** A committed grant hold stays one, for its covered entries cannot be touched. */
  lemma GrantHoldStays(base: Db, cur: Db, h: nat)
    requires Links(base) && HoldsBacked(base) && Follows(base, cur) && GrantHold(base, h)
    ensures GrantHold(cur, h)
  {
    var he: nat :| he < |base.holdEntries| && OnGrantAccount(base, h, he);
    CoveredIsNamed(base, h, he);
    assert OnGrantAccount(cur, h, he);
  }

  lemma CheckedAgrees(w: Work, h: nat)
    requires AllFire(w) && Checked(w, h)
    ensures HoldConsistent(w.cur, h)
  {
    var i: nat :| i < |w.queue| && Checks(w.cur, w.queue[i], h);
    assert Fires(w.cur, w.now, w.queue[i]);
  }

  lemma UncheckedSameRow(w: Work, h: nat)
    requires WorkOpen(w) && !Checked(w, h) && h < |w.base.holds|
    ensures w.cur.holds[h] == w.base.holds[h]
  {
    forall i: nat | i < |w.queue| ensures w.queue[i] != Noted(HoldTouched(h)) {
      assert !Checks(w.cur, w.queue[i], h);
    }
  }

  /**
   At a commit: a committed grant hold that agreed still agrees if and only if some firing of the
   transaction re-examined it, or its totals stand and every account's side moved in proportion.
   */
  lemma HoldKeptAtCommit(w: Work, h: nat)
    requires WorkOpen(w) && AllFire(w) && HoldsBacked(w.base) && LiveGrantHold(w.base, h) && HoldConsistent(w.base, h)
    requires w.base.holds[h].state == Voided && !Checked(w, h) ==> Pinned(w.base, w.cur, h)
    ensures LiveGrantHold(w.cur, h)
    ensures HoldConsistent(w.cur, h) <==> Checked(w, h) || KeptInProportion(w.base, w.cur, h)
  {
    GrantHoldStays(w.base, w.cur, h);
    if Checked(w, h) {
      CheckedAgrees(w, h);
    } else {
      UncheckedSameRow(w, h);
      AgreesIff(w.base, w.cur, h);
    }
  }

  // ----- edits of one kind

  lemma NoProduct(x: int, y: int)
    ensures x * y == 0 <==> x == 0 || y == 0
  {
    if x > 0 && y > 0 {
      assert x * y > 0;
    } else if x > 0 && y < 0 {
      assert x * y < 0;
    } else if x < 0 && y > 0 {
      assert x * y < 0;
    } else if x < 0 && y < 0 {
      assert x * y > 0;
    }
  }

  lemma OnlyHeldMoved(moved: int, total: int, movedHeld: int, all: int)
    requires moved == 0
    ensures Cross(moved, total, movedHeld, all) <==> movedHeld == 0 || all == 0
  {
    NoProduct(movedHeld, all);
    assert moved * total == 0;
  }

  lemma OnlyCapturedMoved(moved: int, total: int, movedHeld: int, all: int)
    requires movedHeld == 0 && total != 0
    ensures Cross(moved, total, movedHeld, all) <==> moved == 0
  {
    NoProduct(moved, total);
    assert movedHeld * all == 0;
  }

  lemma SideOfHeldEdit(base: Db, cur: Db, h: nat, a: nat, debit: bool)
    requires CapturedShift(base, cur, h, a, debit) == 0
    ensures MovedTogether(base, cur, h, a, debit) <==>
            HeldShift(base, cur, h, a, debit) == 0 || Captured(base, h, true) == 0
  {
    OnlyHeldMoved(CapturedShift(base, cur, h, a, debit), HeldTotal(base, h, true), HeldShift(base, cur, h, a, debit),
                  Captured(base, h, true));
  }

  /**
   Edits of held entries only: both totals must stand and, once anything is captured, what is held on
   every account.
   */
  lemma HeldEditsKept(base: Db, cur: Db, h: nat)
    requires forall debit :: Captured(cur, h, debit) == Captured(base, h, debit)
    requires forall a: nat, debit :: CapturedFrom(cur, h, a, debit) == CapturedFrom(base, h, a, debit)
    ensures KeptInProportion(base, cur, h) <==>
            && (forall debit :: HeldTotal(cur, h, debit) == HeldTotal(base, h, debit))
            && (Captured(base, h, true) != 0 ==>
                  forall a: nat, debit :: a < |cur.accounts| ==>
                    HeldFrom(cur, h, a, debit) == HeldFrom(base, h, a, debit))
  {
    forall a: nat, debit
      ensures MovedTogether(base, cur, h, a, debit) <==>
              HeldFrom(cur, h, a, debit) == HeldFrom(base, h, a, debit) || Captured(base, h, true) == 0
    {
      SideOfHeldEdit(base, cur, h, a, debit);
    }
  }

  lemma SideOfPostingEdit(base: Db, cur: Db, h: nat, a: nat, debit: bool)
    requires HeldShift(base, cur, h, a, debit) == 0 && HeldTotal(base, h, true) != 0
    ensures MovedTogether(base, cur, h, a, debit) <==> CapturedShift(base, cur, h, a, debit) == 0
  {
    OnlyCapturedMoved(CapturedShift(base, cur, h, a, debit), HeldTotal(base, h, true),
                      HeldShift(base, cur, h, a, debit), Captured(base, h, true));
  }

  /** Edits of postings only: both captured totals and what is captured of every account must stand. */
  lemma PostingEditsKept(base: Db, cur: Db, h: nat)
    requires HeldTotal(base, h, true) != 0
    requires forall debit :: HeldTotal(cur, h, debit) == HeldTotal(base, h, debit)
    requires forall a: nat, debit :: HeldFrom(cur, h, a, debit) == HeldFrom(base, h, a, debit)
    ensures KeptInProportion(base, cur, h) <==>
            && (forall debit :: Captured(cur, h, debit) == Captured(base, h, debit))
            && (forall a: nat, debit :: a < |cur.accounts| ==>
                  CapturedFrom(cur, h, a, debit) == CapturedFrom(base, h, a, debit))
  {
    forall a: nat, debit
      ensures MovedTogether(base, cur, h, a, debit) <==>
              CapturedFrom(cur, h, a, debit) == CapturedFrom(base, h, a, debit)
    {
      SideOfPostingEdit(base, cur, h, a, debit);
    }
  }

  // ----- at a commit, in terms of the rows

  /** The postings that count for hold h are as they were, on every account. */
  ghost predicate SamePostings(base: Db, cur: Db, h: nat) {
    && (forall debit :: Captured(cur, h, debit) == Captured(base, h, debit))
    && (forall a: nat, debit :: CapturedFrom(cur, h, a, debit) == CapturedFrom(base, h, a, debit))
  }

  ghost predicate SameHeld(base: Db, cur: Db, h: nat) {
    && (forall debit :: HeldTotal(cur, h, debit) == HeldTotal(base, h, debit))
    && (forall a: nat, debit :: HeldFrom(cur, h, a, debit) == HeldFrom(base, h, a, debit))
  }

  /**
   A transaction that only edits held entries: an unchecked hold still agrees if and only if both held
   totals stand and, once anything is captured, so does what is held on every account and side.
   */
  lemma HeldEditsAtCommit(w: Work, h: nat)
    requires WorkOpen(w) && AllFire(w) && HoldsBacked(w.base) && LiveGrantHold(w.base, h) && HoldConsistent(w.base, h)
    requires !Checked(w, h) && SamePostings(w.base, w.cur, h)
    ensures HoldConsistent(w.cur, h) <==>
            && (forall debit :: HeldTotal(w.cur, h, debit) == HeldTotal(w.base, h, debit))
            && (Captured(w.base, h, true) != 0 ==>
                  forall a: nat, debit :: a < |w.cur.accounts| ==>
                    HeldFrom(w.cur, h, a, debit) == HeldFrom(w.base, h, a, debit))
  {
    HeldEditsKept(w.base, w.cur, h);
    GrantHoldStays(w.base, w.cur, h);
    UncheckedSameRow(w, h);
    AgreesIffCapturedStands(w.base, w.cur, h);
  }

  /** When what is captured stands, no lot has to be pinned, VOIDED or not. */
  lemma AgreesIffCapturedStands(base: Db, cur: Db, h: nat)
    requires Refs(base) && h < |base.holds| && h < |cur.holds| && cur.holds[h] == base.holds[h]
    requires |base.accounts| <= |cur.accounts| && AmountsAgree(base, h) && Proportional(base, h)
    requires forall debit :: Captured(cur, h, debit) == Captured(base, h, debit)
    ensures AmountsAgree(cur, h) && Proportional(cur, h) <==> KeptInProportion(base, cur, h)
  {
    if HeldTotal(cur, h, true) == HeldTotal(base, h, true) {
      forall a: nat, debit | a < |cur.accounts|
        ensures InProportion(cur, h, a, debit) <==> MovedTogether(base, cur, h, a, debit)
      {
        if a >= |base.accounts| {
          NewAccountInProportion(base, h, a, debit);
        }
        SideKept(base, cur, h, a, debit);
      }
    }
  }

  /**
   A transaction that only edits postings or their transactions: an unchecked hold still agrees if and
   only if both captured totals stand and so does what is captured of every account and side.
   */
  lemma PostingEditsAtCommit(w: Work, h: nat)
    requires WorkOpen(w) && AllFire(w) && HoldsBacked(w.base) && LiveGrantHold(w.base, h) && HoldConsistent(w.base, h)
    requires !Checked(w, h) && SameHeld(w.base, w.cur, h)
    requires w.base.holds[h].state == Voided ==> Pinned(w.base, w.cur, h)
    ensures HoldConsistent(w.cur, h) <==>
            && (forall debit :: Captured(w.cur, h, debit) == Captured(w.base, h, debit))
            && (forall a: nat, debit :: a < |w.cur.accounts| ==>
                  CapturedFrom(w.cur, h, a, debit) == CapturedFrom(w.base, h, a, debit))
  {
    HoldAmounts(w.base, h);
    PostingEditsKept(w.base, w.cur, h);
    HoldKeptAtCommit(w, h);
  }

  // ----- when a lot is pinned

  /** Nothing that was added, changed or taken away is a posting or a held entry of a grant-enabled account. */
  ghost predicate OffGrantAccounts(base: Db, cur: Db) {
    && (forall e: nat :: e < |cur.entries| && GrantEnabled(cur, cur.entries[e].account) ==> SamePosting(base, cur, e))
    && (forall e: nat :: e < |base.entries| && GrantEnabled(base, base.entries[e].account) ==>
          SamePosting(base, cur, e))
    && (forall he: nat :: he < |cur.holdEntries| && GrantEnabled(cur, cur.holdEntries[he].account) ==>
          he < |base.holdEntries| && cur.holdEntries[he] == base.holdEntries[he])
  }

  predicate SamePosting(base: Db, cur: Db, e: nat) {
    && e < |base.entries| && e < |cur.entries|
    && cur.entries[e] == base.entries[e] && HoldOf(cur, e) == HoldOf(base, e)
  }

  lemma PostingCounts(base: Db, cur: Db, h: nat, a: nat, e: nat)
    requires OffGrantAccounts(base, cur) && base.accounts <= cur.accounts && GrantEnabled(base, a)
    requires e < |base.entries| && e < |cur.entries|
    ensures CapturedOn(cur, h, a, true)(e) == CapturedOn(base, h, a, true)(e)
    ensures CapturedOn(cur, h, a, true)(e) ==> cur.entries[e] == base.entries[e]
  {
    assert GrantEnabled(base, base.entries[e].account) ==> SamePosting(base, cur, e);
    assert GrantEnabled(cur, cur.entries[e].account) ==> SamePosting(base, cur, e);
  }

  lemma CapturedStays(base: Db, cur: Db, h: nat, a: nat)
    requires Follows(base, cur) && OffGrantAccounts(base, cur) && GrantEnabled(base, a)
    ensures CapturedFrom(cur, h, a, true) == CapturedFrom(base, h, a, true)
  {
    var f, f' :=
        Magnitude(base.entries, CapturedOn(base, h, a, true)), Magnitude(cur.entries, CapturedOn(cur, h, a, true));
    forall e: nat | e < |base.entries| ensures f(e) == f'(e) {
      PostingCounts(base, cur, h, a, e);
    }
    SumPadded(|base.entries|, |cur.entries|, f, f');
  }

  lemma HeldStays(base: Db, cur: Db, h: nat, a: nat)
    requires Links(base) && HoldsBacked(base) && Follows(base, cur) && OffGrantAccounts(base, cur)
             && GrantEnabled(base, a)
    ensures HeldFrom(cur, h, a, true) == HeldFrom(base, h, a, true)
  {
    var f, f' :=
        HeldMagnitude(base.holdEntries, HeldOn(base, h, a, true)),
        HeldMagnitude(cur.holdEntries, HeldOn(cur, h, a, true));
    forall he: nat | he < |base.holdEntries| ensures f(he) == f'(he) {
      if HeldOn(base, h, a, true)(he) {
        assert OnGrantAccount(base, h, he);
        CoveredIsNamed(base, h, he);
      }
    }
    SumPadded(|base.holdEntries|, |cur.holdEntries|, f, f');
  }

  lemma HeldPositive(db: Db, h: nat, he: nat)
    requires he < |db.holdEntries| && OnGrantAccount(db, h, he) && HoldEntryAllocated(db, he)
    ensures HeldFrom(db, h, db.holdEntries[he].account, true) > 0
  {
    var a := db.holdEntries[he].account;
    TermAtMostSum(|db.holdEntries|, HeldMagnitude(db.holdEntries, HeldOn(db, h, a, true)), he);
  }

  /** Edits that stay off grant-enabled accounts leave every grant hold a lot that did not move. */
  lemma LotsPinned(base: Db, cur: Db, h: nat)
    requires Links(base) && HoldsBacked(base) && GrantHold(base, h) && Follows(base, cur) && OffGrantAccounts(base, cur)
    ensures Pinned(base, cur, h)
  {
    var he: nat :| he < |base.holdEntries| && OnGrantAccount(base, h, he);
    var a := base.holdEntries[he].account;
    assert HoldEntryAllocated(base, he);
    HeldPositive(base, h, he);
    CapturedStays(base, cur, h, a);
    HeldStays(base, cur, h, a);
    assert PinnedAt(base, cur, h, a);
  }

  /** So for edits of other postings the condition of PostingEditsAtCommit is exact for VOIDED holds too. */
  lemma CounterPostingsAtCommit(w: Work, h: nat)
    requires WorkOpen(w) && AllFire(w) && HoldsBacked(w.base) && LiveGrantHold(w.base, h) && HoldConsistent(w.base, h)
    requires !Checked(w, h) && SameHeld(w.base, w.cur, h) && OffGrantAccounts(w.base, w.cur)
    ensures HoldConsistent(w.cur, h) <==>
            && (forall debit :: Captured(w.cur, h, debit) == Captured(w.base, h, debit))
            && (forall a: nat, debit :: a < |w.cur.accounts| ==>
                  CapturedFrom(w.cur, h, a, debit) == CapturedFrom(w.base, h, a, debit))
  {
    LotsPinned(w.base, w.cur, h);
    PostingEditsAtCommit(w, h);
  }

  // ----- what stays frozen

  predicate EditsHeld(edit: Edit, he: nat) {
    (edit.UpdateHoldEntry? && edit.held == he) || (edit.DeleteHoldEntry? && edit.held == he)
  }

  lemma NoSecondAllocation(w: Work, h: nat, he: nat, i: nat)
    requires WorkOpen(w) && AllFire(w) && HoldsBacked(w.base)
    requires he < |w.base.holdEntries| && OnGrantAccount(w.base, h, he)
    requires |w.base.allocations| <= i < |w.cur.allocations|
    ensures w.cur.allocations[i].holdEntry != he
  {
    var base, cur := w.base, w.cur;
    CoveredIsNamed(base, h, he);
    var f, f' := AllocationTerm(base.allocations, ToHoldEntry(he)), AllocationTerm(cur.allocations, ToHoldEntry(he));
    forall j: nat | j < |cur.allocations| ensures cur.allocations[j].amount > 0 {
      assert AllocationLinked(cur, cur.allocations[j]);
    }
    SumGrows(|base.allocations|, |cur.allocations|, f, f');
    assert AllocatedToEntry(base, he) + f'(i) <= AllocatedToEntry(cur, he);
    assert HoldEntryAllocated(base, he);
    assert Noted(AllocationMade(i)) in w.queue;
    assert AllocationTotal(cur, i);
  }

  /**
   The held entries of a committed grant hold on grant-enabled accounts, and their allocations, are
   frozen: in every run, with any edits, the row stays, every edit of it is refused, and no commit adds
   an allocation to it.
   */
  lemma CoveredFrozen(now: int, moves: seq<Move>, h: nat, he: nat)
    requires var w := Play(Start(EMPTY, now), moves); he < |w.base.holdEntries| && OnGrantAccount(w.base, h, he)
    ensures var w := Play(Start(EMPTY, now), moves);
            && he < |w.cur.holdEntries| && w.cur.holdEntries[he] == w.base.holdEntries[he]
            && w.base.allocations <= w.cur.allocations
            && (forall edit: Edit :: EditsHeld(edit, he) ==> Step(w, Change(edit)).1 == Rejected(Invalid))
            && (AllFire(w) ==>
                  forall i: nat :: |w.base.allocations| <= i < |w.cur.allocations| ==>
                    w.cur.allocations[i].holdEntry != he)
  {
    var w := Play(Start(EMPTY, now), moves);
    PlayBacked(now, moves);
    CoveredIsNamed(w.base, h, he);
    NamedStays(w.base, w.cur);
    if AllFire(w) {
      forall i: nat | |w.base.allocations| <= i < |w.cur.allocations| ensures w.cur.allocations[i].holdEntry != he {
        NoSecondAllocation(w, h, he, i);
      }
    }
  }

  predicate EditsPosting(edit: Edit, e: nat) {
    (edit.UpdateEntry? && edit.entry == e) || (edit.DeleteEntry? && edit.entry == e)
  }

  lemma NamedPosting(db: Db, e: nat)
    requires Refs(db) && Links(db) && HasLineage(db, e)
    ensures e < |db.entries| && db.entries[e].amount != 0 && db.entries[e].tx < |db.txs|
            && TxHasLineage(db, db.entries[e].tx)
  {
    var i: nat :| i < |db.lineage| && db.lineage[i].entry == e;
    assert Linked(db, db.lineage[i]);
    assert TxOf(db, e) == Some(db.entries[e].tx);
  }

  ghost predicate PostingFrozen(w: Work, e: nat) {
    && e < |w.base.entries| && e < |w.cur.entries| && w.cur.entries[e] == w.base.entries[e]
    && w.base.entries[e].tx < |w.base.txs| && w.base.entries[e].tx < |w.cur.txs|
    && w.cur.txs[w.base.entries[e].tx] == w.base.txs[w.base.entries[e].tx]
  }

  lemma NamedFrozen(w: Work, e: nat)
    requires WorkOpen(w) && HasLineage(w.base, e)
    ensures PostingFrozen(w, e) && EntryExists(w.cur, e)
    ensures HasLineage(w.cur, e) && TxHasLineage(w.cur, w.base.entries[e].tx)
  {
    NamedPosting(w.base, e);
    NamedStays(w.base, w.cur);
  }

  predicate EditsRecorded(edit: Edit, e: nat, t: nat) {
    EditsPosting(edit, e) || (edit.UpdateTransaction? && edit.tx == t)
  }

  lemma GuardedRefused(db: Db, edit: Edit)
    requires Guards(db, edit)
    ensures DoEdit(db, edit).outcome == Rejected(Invalid)
  {
  }

  /** A committed posting that lineage names, and its transaction, are frozen in every run: no edit of either passes. */
  lemma AttributedFrozen(now: int, moves: seq<Move>, e: nat)
    requires HasLineage(Play(Start(EMPTY, now), moves).base, e)
    ensures var w := Play(Start(EMPTY, now), moves);
            && PostingFrozen(w, e)
            && forall edit: Edit :: EditsRecorded(edit, e, w.base.entries[e].tx) ==>
                 Step(w, Change(edit)).1 == Rejected(Invalid)
  {
    var w := Play(Start(EMPTY, now), moves);
    PlayBacked(now, moves);
    NamedFrozen(w, e);
    forall edit: Edit | EditsRecorded(edit, e, w.base.entries[e].tx)
      ensures Step(w, Change(edit)).1 == Rejected(Invalid)
    {
      assert Guards(w.cur, edit);
      GuardedRefused(w.cur, edit);
    }
  }

  // ----- attribution

  predicate Complete(db: Db, e: nat)
    requires e < |db.entries|
  {
    GrantEnabled(db, db.entries[e].account) ==> Attributed(db, e) == Abs(db.entries[e].amount)
  }

  /** The edit puts a posting on a grant-enabled account, where no lineage can have been written for it. */
  predicate MovesOnto(db: Db, edit: Edit) {
    edit.UpdateEntry? && EntryExists(db, edit.entry) && GrantEnabled(db, edit.posting.account)
  }

  lemma NoneAttributed(db: Db, e: nat)
    requires !HasLineage(db, e)
    ensures Attributed(db, e) == 0
  {
    SumZero(|db.lineage|, LineageTerm(db.lineage, OnEntry(e)));
  }

  lemma EditCompletes(db: Db, edit: Edit, e: nat)
    requires DoEdit(db, edit).outcome == Accepted && e < |db.entries|
    ensures Complete(DoEdit(db, edit).db, e) <==>
            if EditsPosting(edit, e) && EntryExists(db, e) then !MovesOnto(db, edit) else Complete(db, e)
  {
    if EditsPosting(edit, e) && EntryExists(db, e) {
      NoneAttributed(db, e);
      assert Attributed(DoEdit(db, edit).db, e) == 0;
    }
  }

  /**
   An edit leaves its posting attributed in full exactly unless it puts it on a grant-enabled account,
   and the attribution of the others as it was; so it breaks complete attribution exactly then.
   */
  lemma EditKeepsAttribution(db: Db, edit: Edit)
    requires DoEdit(db, edit).outcome == Accepted
    ensures var db' := DoEdit(db, edit).db;
            && (forall e: nat :: e < |db.entries| ==>
                  (Complete(db', e) <==>
                   if EditsPosting(edit, e) && EntryExists(db, e) then !MovesOnto(db, edit) else Complete(db, e)))
            && (FullyAttributed(db) ==> (FullyAttributed(db') <==> !MovesOnto(db, edit)))
  {
    var db' := DoEdit(db, edit).db;
    forall e: nat | e < |db.entries|
      ensures Complete(db', e) <==>
              if EditsPosting(edit, e) && EntryExists(db, e) then !MovesOnto(db, edit) else Complete(db, e)
    {
      EditCompletes(db, edit, e);
    }
    CompleteIsFull(db);
    CompleteIsFull(db');
  }

  lemma CompleteIsFull(db: Db)
    ensures FullyAttributed(db) <==> forall e: nat :: e < |db.entries| ==> Complete(db, e)
  {
    forall e: nat | e < |db.entries|
      ensures Complete(db, e) <==>
              (GrantEnabled(db, db.entries[e].account) ==> Attributed(db, e) == Abs(db.entries[e].amount))
    {
    }
  }

  // ----- agreement over whole runs

  /** The transactions that committed, each as it stood at its commit. */
  function Kept(now: int, moves: seq<Move>): seq<Work> {
    if moves == [] then []
    else
      var w, move := Play(Start(EMPTY, now), moves[..|moves| - 1]), moves[|moves| - 1];
      Kept(now, moves[..|moves| - 1]) + if move.Plain? && move.op.Commit? && AllFire(w) then [w] else []
  }

  function CommittedBefore(done: seq<Work>, i: nat): Db
    requires i <= |done|
  {
    if i == 0 then EMPTY else done[i - 1].cur
  }

  ghost predicate LinkedCommit(done: seq<Work>, i: nat)
    requires i < |done|
  {
    WorkOpen(done[i]) && AllFire(done[i]) && HoldsBacked(done[i].base) && done[i].base == CommittedBefore(done, i)
  }

  ghost predicate LinkedCommits(done: seq<Work>) {
    forall i: nat :: i < |done| ==> LinkedCommit(done, i)
  }

  lemma {:induction false} LinkMore(done: seq<Work>, w: Work)
    requires LinkedCommits(done) && WorkOpen(w) && AllFire(w) && HoldsBacked(w.base)
    requires w.base == CommittedBefore(done, |done|)
    ensures LinkedCommits(done + [w])
  {
    forall i: nat | i < |done + [w]| ensures LinkedCommit(done + [w], i) {
      if i < |done| {
        assert LinkedCommit(done, i);
      }
      assert CommittedBefore(done + [w], i) == CommittedBefore(done, i);
    }
  }

  lemma SameBase(w: Work, move: Move)
    requires !(move.Plain? && move.op.Commit? && AllFire(w))
    ensures Step(w, move).0.base == w.base
  {
  }

  lemma {:induction false} KeptChain(now: int, moves: seq<Move>)
    ensures LinkedCommits(Kept(now, moves))
    ensures Play(Start(EMPTY, now), moves).base == CommittedBefore(Kept(now, moves), |Kept(now, moves)|)
  {
    if moves != [] {
      var init, move := moves[..|moves| - 1], moves[|moves| - 1];
      var done, w := Kept(now, init), Play(Start(EMPTY, now), init);
      KeptChain(now, init);
      if move.Plain? && move.op.Commit? && AllFire(w) {
        PlayBacked(now, init);
        LinkMore(done, w);
      } else {
        assert Kept(now, moves) == done;
        SameBase(w, move);
      }
    }
  }

  /** The commit re-examined the hold, or left its totals and proportions. */
  ghost predicate CommitKeeps(w: Work, h: nat) {
    Checked(w, h) || KeptInProportion(w.base, w.cur, h)
  }

  ghost predicate PinnedIfVoided(w: Work, h: nat) {
    h < |w.base.holds| && w.base.holds[h].state == Voided && !Checked(w, h) ==> Pinned(w.base, w.cur, h)
  }

  ghost predicate AgreesFrom(done: seq<Work>, m: nat, n: nat, h: nat)
    requires m < n <= |done|
    decreases n
  {
    n - 1 == m || (HoldConsistent(done[n - 1].cur, h) && AgreesFrom(done, m, n - 1, h))
  }

  ghost predicate KeptFrom(done: seq<Work>, m: nat, n: nat, h: nat)
    requires m < n <= |done|
    decreases n
  {
    n - 1 == m || (CommitKeeps(done[n - 1], h) && KeptFrom(done, m, n - 1, h))
  }

  lemma {:induction false} GrantHoldLasts(done: seq<Work>, m: nat, n: nat, h: nat)
    requires m < n <= |done| && LinkedCommits(done) && LiveGrantHold(done[m].cur, h)
    ensures LiveGrantHold(done[n - 1].cur, h)
    decreases n
  {
    if n - 1 > m {
      GrantHoldLasts(done, m, n - 1, h);
      assert LinkedCommit(done, n - 1);
      GrantHoldStays(done[n - 1].base, done[n - 1].cur, h);
    }
  }

  lemma AgreesNext(done: seq<Work>, m: nat, n: nat, h: nat)
    requires m < n < |done| && LinkedCommits(done) && LiveGrantHold(done[m].cur, h)
    requires HoldConsistent(done[n - 1].cur, h) && PinnedIfVoided(done[n], h)
    ensures HoldConsistent(done[n].cur, h) <==> CommitKeeps(done[n], h)
  {
    GrantHoldLasts(done, m, n, h);
    assert LinkedCommit(done, n);
    HoldKeptAtCommit(done[n], h);
  }

  lemma {:induction false} AgreesStep(done: seq<Work>, m: nat, n: nat, h: nat)
    requires m < n - 1 < |done| && LinkedCommits(done) && LiveGrantHold(done[m].cur, h)
             && HoldConsistent(done[m].cur, h)
    requires PinnedIfVoided(done[n - 1], h)
    requires AgreesFrom(done, m, n - 1, h) <==> KeptFrom(done, m, n - 1, h)
    ensures AgreesFrom(done, m, n, h) <==> KeptFrom(done, m, n, h)
  {
    if AgreesFrom(done, m, n - 1, h) {
      AgreesNext(done, m, n - 1, h);
    }
  }

  lemma {:induction false} AgreesOverCommits(done: seq<Work>, m: nat, n: nat, h: nat)
    requires m < n <= |done| && LinkedCommits(done) && LiveGrantHold(done[m].cur, h) && HoldConsistent(done[m].cur, h)
    requires forall i: nat :: m < i < n ==> PinnedIfVoided(done[i], h)
    ensures AgreesFrom(done, m, n, h) <==> KeptFrom(done, m, n, h)
    decreases n
  {
    if n - 1 > m {
      AgreesOverCommits(done, m, n - 1, h);
      AgreesStep(done, m, n, h);
    }
  }

  /**
   Over every run with edits: a grant hold that agrees at the m-th commit agrees in every committed
   state after it if and only if each later commit re-examined it or left its totals and proportions.
   */
  lemma AgreesOverRuns(now: int, moves: seq<Move>, m: nat, h: nat)
    requires m < |Kept(now, moves)|
    requires LiveGrantHold(Kept(now, moves)[m].cur, h) && HoldConsistent(Kept(now, moves)[m].cur, h)
    requires forall i: nat :: m < i < |Kept(now, moves)| ==> PinnedIfVoided(Kept(now, moves)[i], h)
    ensures var done := Kept(now, moves); AgreesFrom(done, m, |done|, h) <==> KeptFrom(done, m, |done|, h)
  {
    KeptChain(now, moves);
    AgreesOverCommits(Kept(now, moves), m, |Kept(now, moves)|, h);
  }
}
