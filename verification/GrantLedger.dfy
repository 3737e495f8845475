/**
 The grant tables as one object. Each method is a trigger-guarded statement, written as the trigger
 procedures are: rows selected into variables, counters assigned step by step, a loop over the grants
 a void releases and a loop over the firings a commit runs.
 */
module GrantLedger {
  import opened Tables
  import opened Engine
  import Edits

  /** SQL truth: a comparison with NULL is Unknown, and IF takes only True. */
  datatype Truth = True | False | Unknown

  function And(x: Truth, y: Truth): Truth {
    if x == False || y == False then False else if x == True && y == True then True else Unknown
  }

  function Not(x: Truth): Truth {
    match x
    case True => False
    case False => True
    case Unknown => Unknown
  }

  function Sql(b: bool): Truth {
    if b then True else False
  }

  function Equals<T(==)>(column: Option<T>, value: T): Truth {
    if column.None? then Unknown else Sql(column.value == value)
  }

  /** The loop of a void has released the backing grants that are not in todo, and met no raise. */
  ghost predicate ReleasedSoFar(before: Db, h: nat, todo: set<nat>, chains: seq<seq<Version>>) {
    && |chains| == |before.chains|
    && (forall g: nat :: g < |chains| ==>
          chains[g] == if g in todo then before.chains[g] else Released(before, g, h))
    && (forall g: nat :: g < |chains| && Backs(before, g, h) && g !in todo ==> ReleaseOk(before, g, h))
  }

  lemma NothingReleased(before: Db, h: nat, todo: set<nat>)
    requires forall g: nat :: g in todo <==> g < |before.chains| && Backs(before, g, h)
    ensures ReleasedSoFar(before, h, todo, before.chains)
  {
  }

  lemma OneReleased(before: Db, h: nat, todo: set<nat>, g: nat, chains: seq<seq<Version>>)
    requires ReleasedSoFar(before, h, todo, chains) && g in todo && g < |chains| && ReleaseOk(before, g, h)
    ensures ReleasedSoFar(before, h, todo - {g}, chains[g := Released(before, g, h)])
  {
  }

  lemma ReleasedByGrant(before: Db, h: nat, chains: seq<seq<Version>>)
    requires |chains| == |before.chains|
    requires forall g: nat :: g < |chains| ==> chains[g] == Released(before, g, h)
    ensures chains == AllReleased(before, h)
  {
  }

  class Ledger {
    var accounts: seq<Account>
    var txs: seq<Transaction>
    var entries: seq<Entry>
    var grants: seq<Grant>
    var lineage: seq<Lineage>
    var holds: seq<Hold>
    var holdEntries: seq<HoldEntry>
    var allocations: seq<Allocation>
    var chains: seq<seq<Version>>
    var base: Db
    var now: int
    var queue: seq<Pending>

    function Rows(): Db
      reads this
    {
      Db(accounts, txs, entries, grants, lineage, holds, holdEntries, allocations, chains)
    }

    function View(): Session
      reads this
    {
      Session(base, Rows(), now, queue)
    }

    constructor (now: int)
      ensures View() == Begin(EMPTY, now)
    {
      accounts, txs, entries, grants, lineage := [], [], [], [], [];
      holds, holdEntries, allocations, chains := [], [], [], [];
      this.base, this.now, this.queue := EMPTY, now, [];
    }

    // ----- plain inserts

    method InsertAccount(row: Account) returns (outcome: Outcome)
      modifies this
      ensures (View(), outcome) == Exec(old(View()), Op.InsertAccount(row))
    {
      if row.grantEnabled && (row.side != CreditSide || row.mayOverdraw) {
        return Rejected(Invalid);
      }
      accounts := accounts + [row];
      outcome := Accepted;
    }

    method InsertTransaction(row: Transaction) returns (outcome: Outcome)
      modifies this
      ensures (View(), outcome) == Exec(old(View()), Op.InsertTransaction(row))
    {
      if row.related.None? != row.relation.None? {
        return Rejected(Invalid);
      }
      if row.hold.Some? && row.hold.value >= |holds| {
        return Rejected(Invalid);
      }
      if row.related.Some? {
        if row.related.value > |txs| {
          return Rejected(Invalid);
        }
        for i := 0 to |txs|
          invariant forall j: nat :: j < i ==> !(txs[j].relation == row.relation && txs[j].related == row.related)
        {
          if txs[i].relation == row.relation && txs[i].related == row.related {
            return Rejected(Invalid);
          }
        }
      }
      txs := txs + [row];
      outcome := Accepted;
    }

    method InsertEntry(row: Entry) returns (outcome: Outcome)
      modifies this
      ensures (View(), outcome) == Exec(old(View()), Op.InsertEntry(row))
    {
      if row.amount == 0 || row.tx >= |txs| || row.account >= |accounts| {
        return Rejected(Invalid);
      }
      queue := queue + [EntryPosted(|entries|)];
      entries := entries + [row];
      outcome := Accepted;
    }

    method InsertGrant(row: Grant) returns (outcome: Outcome)
      modifies this
      ensures (View(), outcome) == Exec(old(View()), Op.InsertGrant(row))
    {
      if row.account >= |accounts| || row.funding >= |accounts| || row.source >= |txs| {
        return Rejected(Invalid);
      }
      if row.account == row.funding || !accounts[row.account].grantEnabled {
        return Rejected(Invalid);
      }
      var sourceTaken, fundingIsGrantAccount := false, false;
      for i := 0 to |grants|
        invariant sourceTaken <==> exists j: nat :: j < i && grants[j].source == row.source
        invariant fundingIsGrantAccount <==> exists j: nat :: j < i && grants[j].account == row.funding
      {
        sourceTaken := sourceTaken || grants[i].source == row.source;
        fundingIsGrantAccount := fundingIsGrantAccount || grants[i].account == row.funding;
      }
      if sourceTaken || (row.expiresAt.Some? && fundingIsGrantAccount) {
        return Rejected(Invalid);
      }
      grants := grants + [row];
      chains := chains + [[]];
      outcome := Accepted;
    }

    method InsertHold(row: Hold) returns (outcome: Outcome)
      modifies this
      ensures (View(), outcome) == Exec(old(View()), Op.InsertHold(row))
    {
      if row.state != Held || row.original <= 0 || row.remaining != row.original
         || row.appliedAt.Some? || row.voidedAt.Some? {
        return Rejected(Invalid);
      }
      queue := queue + [HoldTouched(|holds|)];
      holds := holds + [row];
      outcome := Accepted;
    }

    method InsertHoldEntry(row: HoldEntry) returns (outcome: Outcome)
      modifies this
      ensures (View(), outcome) == Exec(old(View()), Op.InsertHoldEntry(row))
    {
      if row.amount == 0 || row.hold >= |holds| || row.account >= |accounts| {
        return Rejected(Invalid);
      }
      queue := queue + [HoldEntryAdded(|holdEntries|)];
      holdEntries := holdEntries + [row];
      outcome := Accepted;
    }

    // ----- lineage

    /** The branches of validate_credit_grant_entry after its scope check. */
    method ValidateKind(row: Lineage) returns (raised: bool)
      requires InScope(Rows(), row)
      ensures raised == !KindValid(Rows(), now, row)
    {
      var grant, entry := grants[row.grant], entries[row.entry];
      var linked := txs[entry.tx];
      var entryAmount := if entry.amount < 0 then -entry.amount else entry.amount;
      var available, issuance, consumed, expired, reserved := 0, 0, 0, 0, 0;
      if row.kind in {Reversal, Consumption, Expiration, Refund} {
        var latest := Latest(chains[row.grant]);
        available, issuance, consumed, expired := latest.remaining, latest.granted, latest.consumed, latest.expired;
        reserved := latest.reserved;
      }
      raised := false;
      match row.kind {
        case Issuance =>
          raised := !(entry.tx == grant.source && entry.amount < 0 && row.amount == entryAmount
                      && (grant.expiresAt.None? || grant.expiresAt.value > now));
        case Reversal =>
          var link := And(Equals(linked.relation, Reverses), Equals(linked.related, grant.source));
          var amounts := entry.amount > 0 && row.amount == entryAmount && issuance > 0 && row.amount == issuance
                         && available == issuance && reserved == 0 && consumed == 0 && expired == 0;
          raised := Not(And(link, Sql(amounts))) == True;
        case Consumption =>
          if linked.hold.None? {
            raised := entry.amount <= 0 || row.amount > available - reserved
                      || (grant.expiresAt.Some?
                          && (grant.expiresAt.value <= linked.effectiveAt || grant.expiresAt.value <= now));
          } else {
            var holdAllocation := HeldAllocation(Rows(), row.grant, linked.hold.value);
            var holdConsumed := ConsumedThrough(Rows(), row.grant, linked.hold.value);
            raised := entry.amount <= 0 || row.amount > available || holdConsumed + row.amount > holdAllocation;
          }
        case Compensation =>
          var sourceAllocation := 0;
          if linked.related.Some? {
            sourceAllocation := TxSum(Rows(), row.grant, Consumption, linked.related.value);
          }
          var compensated := TxSum(Rows(), row.grant, Compensation, entry.tx);
          raised := entry.amount >= 0 || Not(Equals(linked.relation, Reverses)) == True || linked.related.None?
                    || sourceAllocation == 0 || compensated + row.amount > sourceAllocation;
        case Expiration =>
          var fundingCredit := FundingCredit(Rows(), entry.tx, grant.funding);
          raised := grant.expiresAt.None? || grant.expiresAt.value > linked.effectiveAt || grant.expiresAt.value > now
                    || entry.amount <= 0 || row.amount != entryAmount || row.amount > available - reserved
                    || fundingCredit != row.amount;
        case Refund =>
          var fundingCredit := FundingCredit(Rows(), entry.tx, grant.funding);
          raised := linked.hold.Some? || linked.relation.Some? || linked.related.Some?
                    || entry.amount <= 0 || row.amount != entryAmount || row.amount > available - reserved
                    || (grant.expiresAt.Some?
                        && (grant.expiresAt.value <= linked.effectiveAt || grant.expiresAt.value <= now))
                    || fundingCredit != row.amount;
      }
    }

    /** The counters append_credit_grant_capacity_version assigns, and the reserve the baseline guard writes. */
    method NextCapacity(row: Lineage) returns (next: Capacity, short: bool)
      requires row.grant < |chains|
      ensures next == AfterLineage(Current(Rows(), row.grant), row.kind, row.amount, IsCapture(Rows(), row))
      ensures short == (IsCapture(Rows(), row) && Current(Rows(), row.grant).reserved < row.amount)
    {
      var latest := Latest(chains[row.grant]);
      var granted, reversed, consumed := latest.granted, latest.reversed, latest.consumed;
      var compensated, expired, remaining := latest.compensated, latest.expired, latest.remaining;
      match row.kind {
        case Issuance => granted, remaining := granted + row.amount, remaining + row.amount;
        case Reversal => reversed, remaining := reversed + row.amount, remaining - row.amount;
        case Refund => reversed, remaining := reversed + row.amount, remaining - row.amount;
        case Consumption => consumed, remaining := consumed + row.amount, remaining - row.amount;
        case Compensation => compensated, remaining := compensated + row.amount, remaining + row.amount;
        case Expiration => expired, remaining := expired + row.amount, remaining - row.amount;
      }
      var reserved := latest.reserved;
      short := false;
      if row.kind == Consumption {
        var linkedHold := HoldOf(Rows(), row.entry);
        if linkedHold.Some? {
          short := reserved < row.amount;
          reserved := reserved - row.amount;
        }
      }
      next := Capacity(granted, reversed, consumed, compensated, expired, remaining, reserved);
    }

    method InsertLineage(row: Lineage) returns (outcome: Outcome)
      modifies this
      ensures (View(), outcome) == Exec(old(View()), Op.InsertLineage(row))
    {
      if row.amount <= 0 || !InScope(Rows(), row) || !LineageKeyFree(Rows(), row) {
        return Rejected(Invalid);
      }
      var raised := ValidateKind(row);
      if raised {
        return Rejected(Invalid);
      }
      var next, short := NextCapacity(row);
      if short || !VersionOk(chains[row.grant], FromLineage(row.entry), next) {
        return Rejected(Guarded);
      }
      queue := queue + [LineageWritten(|lineage|)];
      lineage := lineage + [row];
      chains := chains[row.grant := Appended(chains[row.grant], FromLineage(row.entry), next)];
      outcome := Accepted;
    }

    // ----- allocations

    /** validate_credit_grant_hold_allocation, and the unique index on (grant, held entry). */
    method ValidateAllocation(row: Allocation) returns (raised: bool)
      ensures raised == !AllocationValid(Rows(), now, row)
    {
      if row.amount <= 0 || row.grant >= |grants| || row.grant >= |chains| || grants[row.grant].account != row.account {
        return true;
      }
      var expiration := grants[row.grant].expiresAt;
      if row.holdEntry >= |holdEntries| || holdEntries[row.holdEntry].account != row.account {
        return true;
      }
      var held := holdEntries[row.holdEntry];
      if held.hold >= |holds| {
        return true;
      }
      var heldState := holds[held.hold].state;
      if held.amount <= 0 || heldState != Held || (expiration.Some? && expiration.value <= now) {
        return true;
      }
      var latest := Latest(chains[row.grant]);
      if latest.remaining - latest.reserved < row.amount {
        return true;
      }
      for i := 0 to |allocations|
        invariant forall j: nat :: j < i ==>
                  !(allocations[j].grant == row.grant && allocations[j].holdEntry == row.holdEntry)
      {
        if allocations[i].grant == row.grant && allocations[i].holdEntry == row.holdEntry {
          return true;
        }
      }
      raised := false;
    }

    method InsertAllocation(row: Allocation) returns (outcome: Outcome)
      modifies this
      ensures (View(), outcome) == Exec(old(View()), Op.InsertAllocation(row))
    {
      var raised := ValidateAllocation(row);
      if raised {
        return Rejected(Invalid);
      }
      var chain := chains[row.grant];
      if chain == [] {
        return Rejected(Guarded);
      }
      var latest := Latest(chain);
      var next := latest.(reserved := latest.reserved + row.amount);
      var source := FromAllocation(|allocations|);
      if !VersionOk(chain, source, next) {
        return Rejected(Guarded);
      }
      queue := queue + [AllocationMade(|allocations|)];
      allocations := allocations + [row];
      chains := chains[row.grant := Appended(chain, source, next)];
      outcome := Accepted;
    }

    // ----- hold updates

    /** One turn of the loop below: either a raise, or the grant's release version if it has one. */
    method ReleaseGrant(before: Db, g: nat, h: nat) returns (raised: bool)
      requires g < |chains| && g < |before.chains| && chains[g] == before.chains[g] && Backs(before, g, h)
      modifies this`chains
      ensures raised == !ReleaseOk(before, g, h)
      ensures chains == if raised then old(chains) else old(chains)[g := Released(before, g, h)]
    {
      var setAside := AllocatedTo(before, g, h);
      var consumed := ConsumedThrough(before, g, h);
      if setAside < consumed {
        return true;
      }
      if setAside > consumed {
        var latest := Latest(chains[g]);
        var next := latest.(reserved := latest.reserved + (consumed - setAside));
        if chains[g] == [] || !VersionOk(chains[g], FromVoid(h), next) {
          return true;
        }
        chains := chains[g := Appended(chains[g], FromVoid(h), next)];
      }
      raised := false;
    }

    /** release_grant_hold_reservations: one pass over the grants that back the hold, in any order. */
    method ReleaseReservations(h: nat) returns (raised: bool)
      modifies this`chains
      ensures raised == !ReleasesOk(old(Rows()), h)
      ensures chains == if raised then old(chains) else AllReleased(old(Rows()), h)
    {
      var before := Rows();
      var todo: set<nat> := set g: nat | g < |before.chains| && Backs(before, g, h);
      NothingReleased(before, h, todo);
      while todo != {}
        invariant ReleasedSoFar(before, h, todo, chains)
        invariant forall g :: g in todo ==> g < |before.chains| && Backs(before, g, h)
        decreases |todo|
      {
        var g :| g in todo;
        ghost var was := chains;
        raised := ReleaseGrant(before, g, h);
        if raised {
          chains := before.chains;
          return;
        }
        OneReleased(before, h, todo, g, was);
        todo := todo - {g};
      }
      raised := false;
      ReleasedByGrant(before, h, chains);
    }

    method UpdateHold(h: nat, row: Hold) returns (outcome: Outcome)
      modifies this
      ensures (View(), outcome) == Exec(old(View()), Op.UpdateHold(h, row))
    {
      if h >= |holds| || !HoldAdvances(holds[h], row) {
        return Rejected(Invalid);
      }
      if row.state == Voided {
        var raised := ReleaseReservations(h);
        if raised {
          return Rejected(Guarded);
        }
      }
      holds := holds[h := row];
      queue := queue + [HoldTouched(h)];
      outcome := Accepted;
    }

    // ----- UPDATE and DELETE of rows that history names

    /** protect_credit_grant_history on a posting. */
    method ProtectPosting(entry: nat) returns (raised: bool)
      ensures raised == Edits.HasLineage(Rows(), entry)
    {
      for i := 0 to |lineage|
        invariant forall j: nat :: j < i ==> lineage[j].entry != entry
      {
        if lineage[i].entry == entry {
          return true;
        }
      }
      raised := false;
    }

    /** protect_credit_grant_history on a transaction: the join of postings and lineage. */
    method ProtectTransaction(tx: nat) returns (raised: bool)
      requires tx < |txs|
      ensures raised == Edits.TxHasLineage(Rows(), tx)
    {
      for i := 0 to |lineage|
        invariant forall j: nat :: j < i ==> TxOf(Rows(), lineage[j].entry) != Some(tx)
      {
        var entry := lineage[i].entry;
        if entry < |entries| && entries[entry].tx == tx {
          return true;
        }
      }
      raised := false;
    }

    /** protect_allocated_hold_entry. */
    method ProtectHeldEntry(held: nat) returns (raised: bool)
      ensures raised == Edits.HasAllocation(Rows(), held)
    {
      for i := 0 to |allocations|
        invariant forall j: nat :: j < i ==> allocations[j].holdEntry != held
      {
        if allocations[i].holdEntry == held {
          return true;
        }
      }
      raised := false;
    }

    /** What an edit leaves of the session; the firing it queues carries its row and is handed to the caller. */
    ghost predicate Edited(was: Session, edit: Edits.Edit, outcome: Outcome, queued: seq<Edits.Firing>)
      reads this
    {
      var effect := Edits.DoEdit(was.cur, edit);
      View() == was.(cur := effect.db) && outcome == effect.outcome && queued == effect.queued
    }

    method UpdateEntry(entry: nat, row: Entry) returns (outcome: Outcome, queued: seq<Edits.Firing>)
      modifies this`entries
      ensures Edited(old(View()), Edits.UpdateEntry(entry, row), outcome, queued)
    {
      if entry >= |entries| || entries[entry].amount == 0 {
        return Accepted, [];
      }
      var raised := ProtectPosting(entry);
      if raised || row.amount == 0 || row.tx >= |txs| || row.account >= |accounts| {
        return Rejected(Invalid), [];
      }
      entries := entries[entry := row];
      return Accepted, [];
    }

    method DeleteEntry(entry: nat) returns (outcome: Outcome, queued: seq<Edits.Firing>)
      modifies this`entries
      ensures Edited(old(View()), Edits.DeleteEntry(entry), outcome, queued)
    {
      if entry >= |entries| || entries[entry].amount == 0 {
        return Accepted, [];
      }
      var raised := ProtectPosting(entry);
      if raised {
        return Rejected(Invalid), [];
      }
      entries := entries[entry := entries[entry].(amount := 0)];
      return Accepted, [];
    }

    method UpdateHoldEntry(held: nat, row: HoldEntry) returns (outcome: Outcome, queued: seq<Edits.Firing>)
      modifies this`holdEntries
      ensures Edited(old(View()), Edits.UpdateHoldEntry(held, row), outcome, queued)
    {
      if held >= |holdEntries| || holdEntries[held].amount == 0 {
        return Accepted, [];
      }
      var raised := ProtectHeldEntry(held);
      if raised || row.amount == 0 || row.hold >= |holds| || row.account >= |accounts| {
        return Rejected(Invalid), [];
      }
      holdEntries := holdEntries[held := row];
      return Accepted, [Edits.HeldUpdated(held, row)];
    }

    method DeleteHoldEntry(held: nat) returns (outcome: Outcome, queued: seq<Edits.Firing>)
      modifies this`holdEntries
      ensures Edited(old(View()), Edits.DeleteHoldEntry(held), outcome, queued)
    {
      if held >= |holdEntries| || holdEntries[held].amount == 0 {
        return Accepted, [];
      }
      var raised := ProtectHeldEntry(held);
      if raised {
        return Rejected(Invalid), [];
      }
      holdEntries := holdEntries[held := holdEntries[held].(amount := 0)];
      return Accepted, [];
    }

    method UpdateTransaction(tx: nat, row: Transaction) returns (outcome: Outcome, queued: seq<Edits.Firing>)
      modifies this`txs
      ensures Edited(old(View()), Edits.UpdateTransaction(tx, row), outcome, queued)
    {
      if tx >= |txs| {
        return Accepted, [];
      }
      var raised := ProtectTransaction(tx);
      if raised || row.related.None? != row.relation.None? || (row.hold.Some? && row.hold.value >= |holds|) {
        return Rejected(Invalid), [];
      }
      if row.related.Some? {
        if row.related.value >= |txs| {
          return Rejected(Invalid), [];
        }
        for i := 0 to |txs|
          invariant forall j: nat :: j < i && j != tx ==>
                      !(txs[j].relation == row.relation && txs[j].related == row.related)
        {
          if i != tx && txs[i].relation == row.relation && txs[i].related == row.related {
            return Rejected(Invalid), [];
          }
        }
      }
      txs := txs[tx := row];
      return Accepted, [];
    }

    // ----- the end of a transaction

    method Rollback(next: int) returns (outcome: Outcome)
      modifies this
      ensures (View(), outcome) == Exec(old(View()), Op.Rollback(next))
    {
      Restore();
      now, queue := next, [];
      outcome := Accepted;
    }

    method Restore()
      modifies this
      ensures Rows() == old(base) && base == old(base)
    {
      accounts, txs, entries, grants, lineage := base.accounts, base.txs, base.entries, base.grants, base.lineage;
      holds, holdEntries, allocations, chains := base.holds, base.holdEntries, base.allocations, base.chains;
    }

    /** Runs every queued deferred trigger against the final state; one failure undoes the transaction. */
    method Commit(next: int) returns (outcome: Outcome)
      modifies this
      ensures (View(), outcome) == Exec(old(View()), Op.Commit(next))
    {
      var i := 0;
      while i < |queue|
        invariant 0 <= i <= |queue|
        invariant forall j: nat :: j < i ==> Passes(Rows(), now, queue[j])
      {
        if !Passes(Rows(), now, queue[i]) {
          outcome := Rollback(next);
          return Rejected(DeferredFailed);
        }
        i := i + 1;
      }
      base := Rows();
      now, queue := next, [];
      outcome := Accepted;
    }

    // ----- runs

    method Execute(op: Op) returns (outcome: Outcome)
      modifies this
      ensures (View(), outcome) == Exec(old(View()), op)
    {
      match op {
        case InsertAccount(row) => outcome := InsertAccount(row);
        case InsertTransaction(row) => outcome := InsertTransaction(row);
        case InsertEntry(row) => outcome := InsertEntry(row);
        case InsertGrant(row) => outcome := InsertGrant(row);
        case InsertLineage(row) => outcome := InsertLineage(row);
        case InsertHold(row) => outcome := InsertHold(row);
        case InsertHoldEntry(row) => outcome := InsertHoldEntry(row);
        case InsertAllocation(row) => outcome := InsertAllocation(row);
        case UpdateHold(h, row) => outcome := UpdateHold(h, row);
        case Commit(next) => outcome := Commit(next);
        case Rollback(next) => outcome := Rollback(next);
      }
    }

    method ExecuteAll(ops: seq<Op>)
      modifies this
      ensures View() == Run(old(View()), ops)
    {
      for i := 0 to |ops|
        invariant View() == Run(old(View()), ops[..i])
      {
        var outcome := Execute(ops[i]);
        assert ops[..i + 1][..i] == ops[..i];
      }
      assert ops[..|ops|] == ops;
    }
  }
}
