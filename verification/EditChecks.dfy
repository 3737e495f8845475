/**
 Which updates and deletes pass, and what a commit asks of a transaction that made some, told from the rows
 themselves: both ways, for every state and over every run with edits.
 */
module EditChecks {
  import opened Tables
  import opened Engine
  import opened Invariant
  import opened Deferred
  import Edits

  // ----- what each waiting firing asks for

  /** Attributed in full as it was inserted; in a reversal, mirroring the reversed transaction. */
  predicate AsInserted(db: Db, e: nat, row: Entry) {
    Capable(db, row.account) ==>
      && (Attributed(db, e) == row.amount || Attributed(db, e) == -row.amount) && Attributed(db, e) >= 0
      && (row.tx < |db.txs| && db.txs[row.tx].relation == Some(Reverses) && db.txs[row.tx].related.Some? ==>
            var original := db.txs[row.tx].related.value;
            && TxSide(db, row.tx, row.account, row.amount > 0) == TxSide(db, original, row.account, row.amount < 0)
            && TxSide(db, original, row.account, row.amount < 0) != 0)
  }

  /** A debit that is set aside in full, unless its account takes no grants. */
  predicate Backed(db: Db, he: nat, row: HoldEntry) {
    Capable(db, row.account) ==> row.amount > 0 && AllocatedToEntry(db, he) == row.amount
  }

  /** Of an inserted posting its own row and its hold are looked at, of an updated held entry its own row alone. */
  ghost predicate Answered(db: Db, now: int, f: Edits.Firing)
    requires Refs(db) && Links(db)
  {
    match f
    case Inserted(e, row) =>
      && AsInserted(db, e, row)
      && (row.tx < |db.txs| && db.txs[row.tx].hold.Some? ==> HoldSettled(db, db.txs[row.tx].hold.value))
    case HeldInserted(he, row) => Backed(db, he, row) && (row.hold < |db.holds| ==> HoldSettled(db, row.hold))
    case HeldUpdated(he, row) => Backed(db, he, row)
    case Noted(LineageWritten(i)) =>
      i < |db.lineage| ==> Linked(db, db.lineage[i]) && LineageSettled(db, now, i)
    case Noted(AllocationMade(a)) =>
      a < |db.allocations| ==>
        && AllocationLinked(db, db.allocations[a])
        && AllocatedToEntry(db, db.allocations[a].holdEntry) == db.holdEntries[db.allocations[a].holdEntry].amount
    case Noted(HoldTouched(h)) => h < |db.holds| ==> HoldSettled(db, h)
    case Noted(_) => true
  }

  /** Firings of inserted rows carry the row. */
  predicate Carries(f: Edits.Firing) {
    f.Noted? ==> !f.p.EntryPosted? && !f.p.HoldEntryAdded?
  }

  lemma FiringChecked(db: Db, now: int, f: Edits.Firing)
    requires Inv(db) && Carries(f)
    ensures Edits.Fires(db, now, f) <==> Answered(db, now, f)
  {
    match f
    case Inserted(e, row) =>
      if row.tx < |db.txs| {
        assert RelationPaired(db.txs[row.tx]);
        if db.txs[row.tx].hold.Some? {
          HoldChecked(db, db.txs[row.tx].hold.value);
        }
      }
    case HeldInserted(he, row) => if row.hold < |db.holds| { HoldChecked(db, row.hold); }
    case HeldUpdated(he, row) =>
    case Noted(LineageWritten(i)) => if i < |db.lineage| { LineageChecked(db, now, i); }
    case Noted(AllocationMade(a)) => if a < |db.allocations| { assert AllocationLinked(db, db.allocations[a]); }
    case Noted(HoldTouched(h)) => if h < |db.holds| { HoldChecked(db, h); }
    case Noted(_) =>
  }

  ghost predicate AllCarry(w: Edits.Work) {
    forall i: nat :: i < |w.queue| ==> Carries(w.queue[i])
  }

  lemma StampsCarry(db: Db, now: int, op: Op)
    requires RowOp(op)
    ensures var r := Statement(db, now, op);
            forall i: nat :: i < |r.queued| ==> Carries(Edits.Stamp(r.queued[i], r.db))
  {
  }

  lemma {:induction false} PlayCarries(now: int, moves: seq<Edits.Move>)
    ensures AllCarry(Edits.Play(Edits.Start(EMPTY, now), moves))
    decreases |moves|
  {
    if moves != [] {
      var w, move := Edits.Play(Edits.Start(EMPTY, now), moves[..|moves| - 1]), moves[|moves| - 1];
      PlayCarries(now, moves[..|moves| - 1]);
      if move.Plain? && RowOp(move.op) {
        StampsCarry(w.cur, w.now, move.op);
      }
    }
  }

  /** Over every run with edits: a commit succeeds if and only if every firing that waits is answered. */
  lemma EditedCommitDecided(now: int, moves: seq<Edits.Move>, next: int)
    ensures var w := Edits.Play(Edits.Start(EMPTY, now), moves);
            && Refs(w.cur) && Links(w.cur)
            && Edits.Step(w, Edits.Plain(Commit(next))) ==
               if forall i: nat :: i < |w.queue| ==> Answered(w.cur, w.now, w.queue[i])
               then (Edits.Start(w.cur, next), Accepted)
               else (Edits.Start(w.base, next), Rejected(DeferredFailed))
  {
    var w := Edits.Play(Edits.Start(EMPTY, now), moves);
    Edits.PlayKeepsInv(now, moves);
    PlayCarries(now, moves);
    forall i: nat | i < |w.queue|
      ensures Edits.Fires(w.cur, w.now, w.queue[i]) <==> Answered(w.cur, w.now, w.queue[i])
    {
      FiringChecked(w.cur, w.now, w.queue[i]);
    }
  }

  // ----- which edits pass

  /**
   Editing a posting: of a row that is not there it passes and does nothing; of one that is there it passes
   if and only if no lineage names it and the new row is sound, and replaces that row alone or leaves 0 of it.
   Nothing waits for the commit.
   */
  lemma PostingEditDecided(db: Db, e: nat, row: Entry)
    ensures var free := forall i: nat :: i < |db.lineage| ==> db.lineage[i].entry != e;
            var update, delete := Edits.DoEdit(db, Edits.UpdateEntry(e, row)), Edits.DoEdit(db, Edits.DeleteEntry(e));
            var refused := Edits.Effect(db, Rejected(Invalid), []);
            if e >= |db.entries| || db.entries[e].amount == 0 then
              update == delete == Edits.Effect(db, Accepted, [])
            else
              var changed, gone := db.entries[e := row], db.entries[e := db.entries[e].(amount := 0)];
              && (update == if free && row.amount != 0 && row.tx < |db.txs| && row.account < |db.accounts|
                            then Edits.Effect(db.(entries := changed), Accepted, []) else refused)
              && (delete == if free then Edits.Effect(db.(entries := gone), Accepted, []) else refused)
  {
  }

  /** Editing a held entry: the same with allocations, and the updated row waits for the commit. */
  lemma HeldEditDecided(db: Db, he: nat, row: HoldEntry)
    ensures var free := forall i: nat :: i < |db.allocations| ==> db.allocations[i].holdEntry != he;
            var update := Edits.DoEdit(db, Edits.UpdateHoldEntry(he, row));
            var delete := Edits.DoEdit(db, Edits.DeleteHoldEntry(he));
            var refused := Edits.Effect(db, Rejected(Invalid), []);
            if he >= |db.holdEntries| || db.holdEntries[he].amount == 0 then
              update == delete == Edits.Effect(db, Accepted, [])
            else
              var changed, gone := db.holdEntries[he := row], db.holdEntries[he := db.holdEntries[he].(amount := 0)];
              && (update ==
                  if free && row.amount != 0 && row.hold < |db.holds| && row.account < |db.accounts|
                  then Edits.Effect(db.(holdEntries := changed), Accepted, [Edits.HeldUpdated(he, row)]) else refused)
              && (delete == if free then Edits.Effect(db.(holdEntries := gone), Accepted, []) else refused)
  {
  }

  /** Editing a transaction: refused when lineage names a posting of it, or when it could not be inserted so. */
  lemma HeaderEditDecided(db: Db, t: nat, row: Transaction)
    ensures var effect := Edits.DoEdit(db, Edits.UpdateTransaction(t, row));
            if t >= |db.txs| then effect == Edits.Effect(db, Accepted, [])
            else effect == if (forall i: nat :: i < |db.lineage| && db.lineage[i].entry < |db.entries| ==>
                                 db.entries[db.lineage[i].entry].tx != t)
                              && (row.hold == None || row.hold.value < |db.holds|)
                              && (|| (row.related == None && row.relation == None)
                                  || (row.related.Some? && row.relation.Some? && row.related.value < |db.txs| &&
                                      forall i: nat :: i < |db.txs| && i != t && db.txs[i].related == row.related ==>
                                        db.txs[i].relation != row.relation))
                           then Edits.Effect(db.(txs := db.txs[t := row]), Accepted, [])
                           else Edits.Effect(db, Rejected(Invalid), [])
  {
  }
}
