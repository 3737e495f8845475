/**
 The triggers as state transitions: one row-level step per guarded INSERT or UPDATE, and the
 deferred constraint triggers that run at COMMIT. A statement that raises leaves the tables as
 they were. A run is one database transaction after another: what deferred checks of concurrent
 transactions see of each other is not part of it.
 */
module Engine {
  import opened Tables

  datatype Reason =
    | Invalid         // a validating trigger, a key or a foreign key refused the row
    | Guarded         // a defensive raise, or a CHECK or unique index on the appended version
    | DeferredFailed  // a deferred constraint trigger refused the commit

  datatype Outcome = Accepted | Rejected(reason: Reason)

  /** A deferred trigger firing that waits for the commit. */
  datatype Pending =
    | EntryPosted(entry: nat)
    | LineageWritten(lineage: nat)
    | AllocationMade(allocation: nat)
    | HoldTouched(hold: nat)
    | HoldEntryAdded(holdEntry: nat)

  /** One database transaction: the committed state, the working state, the time it began, what waits. */
  datatype Session = Session(base: Db, cur: Db, now: int, queue: seq<Pending>)

  datatype Op =
    | InsertAccount(account: Account)
    | InsertTransaction(tx: Transaction)
    | InsertEntry(entry: Entry)
    | InsertGrant(grant: Grant)
    | InsertLineage(lineage: Lineage)
    | InsertHold(hold: Hold)
    | InsertHoldEntry(holdEntry: HoldEntry)
    | InsertAllocation(allocation: Allocation)
    | UpdateHold(id: nat, row: Hold)
    | Commit(next: int)
    | Rollback(next: int)

  /** What a statement did: the new tables, its outcome, and the trigger firings it queued. */
  datatype Result = Result(db: Db, outcome: Outcome, queued: seq<Pending>)

  function Refuse(db: Db, reason: Reason): Result {
    Result(db, Rejected(reason), [])
  }

  // ----- plain inserts

  /** A grant-enabled account is a credit account that may not be overdrawn. */
  predicate AccountValid(a: Account) {
    a.grantEnabled ==> a.side == CreditSide && !a.mayOverdraw
  }

  predicate RelationPaired(t: Transaction) {
    t.related.None? <==> t.relation.None?
  }

  /** The pair CHECK, the foreign keys, and transactions_relation_uq. */
  predicate TransactionValid(db: Db, t: Transaction) {
    && RelationPaired(t)
    && (t.hold.Some? ==> t.hold.value < |db.holds|)
    && (t.related.Some? ==> t.related.value <= |db.txs|)
    && (t.related.Some? ==>
          forall i: nat :: i < |db.txs| ==> !(db.txs[i].relation == t.relation && db.txs[i].related == t.related))
  }

  predicate EntryValid(db: Db, e: Entry) {
    e.amount != 0 && e.tx < |db.txs| && e.account < |db.accounts|
  }

  /** Capability, distinct accounts, one grant per source transaction, and the expiring-funding guard. */
  predicate GrantValid(db: Db, g: Grant) {
    && g.account < |db.accounts| && g.funding < |db.accounts| && g.source < |db.txs|
    && g.account != g.funding
    && db.accounts[g.account].grantEnabled
    && (forall i: nat :: i < |db.grants| ==> db.grants[i].source != g.source)
    && (g.expiresAt.Some? ==> forall i: nat :: i < |db.grants| ==> db.grants[i].account != g.funding)
  }

  /** The INSERT branch of guard_hold_lifecycle. */
  predicate HoldStarts(h: Hold) {
    h.state == Held && h.original > 0 && h.remaining == h.original && h.appliedAt.None? && h.voidedAt.None?
  }

  predicate HoldEntryValid(db: Db, he: HoldEntry) {
    he.amount != 0 && he.hold < |db.holds| && he.account < |db.accounts|
  }

  // ----- lineage

  /** The joins of validate_credit_grant_entry find their rows, and assets and amount agree. */
  predicate InScope(db: Db, row: Lineage) {
    && row.grant < |db.grants| && row.grant < |db.chains| && db.grants[row.grant].account == row.account
    && row.entry < |db.entries| && db.entries[row.entry].account == row.account
    && db.entries[row.entry].tx < |db.txs|
    && row.account < |db.accounts|
    && db.entries[row.entry].asset == db.accounts[row.account].asset
    && db.txs[db.entries[row.entry].tx].asset == db.accounts[row.account].asset
    && row.amount <= Abs(db.entries[row.entry].amount)
  }

  /** SQL `a = b` over a nullable left side is not false when that side is null. */
  predicate NotFalse<T(==)>(a: Option<T>, b: T) {
    a.None? || a.value == b
  }

  /** What grant g has set aside for h, counted only while h is HELD. */
  function HeldAllocation(db: Db, g: nat, h: nat): int {
    if h < |db.holds| && db.holds[h].state == Held then AllocatedTo(db, g, h) else 0
  }

  predicate KindValid(db: Db, now: int, row: Lineage)
    requires InScope(db, row)
  {
    var g, e := db.grants[row.grant], db.entries[row.entry];
    var t, c := db.txs[e.tx], Current(db, row.grant);
    match row.kind
    case Issuance =>
      e.tx == g.source && e.amount < 0 && row.amount == -e.amount && !Expired(g.expiresAt, now)
    case Reversal =>
      && NotFalse(t.relation, Reverses) && NotFalse(t.related, g.source)
      && e.amount > 0 && row.amount == e.amount && row.amount == c.granted && c.granted > 0
      && c.remaining == c.granted && c.reserved == 0 && c.consumed == 0 && c.expired == 0
    case Consumption =>
      && e.amount > 0
      && (match t.hold
          case None =>
            row.amount <= c.remaining - c.reserved && !Expired(g.expiresAt, t.effectiveAt) && !Expired(g.expiresAt, now)
          case Some(h) =>
            && row.amount <= c.remaining
            && ConsumedThrough(db, row.grant, h) + row.amount <= HeldAllocation(db, row.grant, h))
    case Compensation =>
      && e.amount < 0 && NotFalse(t.relation, Reverses) && t.related.Some?
      && TxSum(db, row.grant, Consumption, t.related.value) != 0
      && TxSum(db, row.grant, Compensation, e.tx) + row.amount <= TxSum(db, row.grant, Consumption, t.related.value)
    case Expiration =>
      && g.expiresAt.Some? && Expired(g.expiresAt, t.effectiveAt) && Expired(g.expiresAt, now)
      && e.amount > 0 && row.amount == e.amount && row.amount <= c.remaining - c.reserved
      && FundingCredit(db, e.tx, g.funding) == row.amount
    case Refund =>
      && t.hold.None? && t.relation.None? && t.related.None?
      && e.amount > 0 && row.amount == e.amount && row.amount <= c.remaining - c.reserved
      && !Expired(g.expiresAt, t.effectiveAt) && !Expired(g.expiresAt, now)
      && FundingCredit(db, e.tx, g.funding) == row.amount
  }

  /** Primary key (grant, entry); at most one issuance and one reversal per grant. */
  predicate LineageKeyFree(db: Db, row: Lineage) {
    forall i: nat :: i < |db.lineage| && db.lineage[i].grant == row.grant ==>
      && db.lineage[i].entry != row.entry
      && !(row.kind in {Issuance, Reversal} && db.lineage[i].kind == row.kind)
  }

  predicate LineageValid(db: Db, now: int, row: Lineage) {
    row.amount > 0 && InScope(db, row) && KindValid(db, now, row) && LineageKeyFree(db, row)
  }

  /** The counters after one lineage row; a capture also releases what it consumes. */
  function AfterLineage(c: Capacity, kind: Kind, amount: int, capture: bool): Capacity {
    match kind
    case Issuance => c.(granted := c.granted + amount, remaining := c.remaining + amount)
    case Reversal => c.(reversed := c.reversed + amount, remaining := c.remaining - amount)
    case Refund => c.(reversed := c.reversed + amount, remaining := c.remaining - amount)
    case Consumption =>
      c.(consumed := c.consumed + amount, remaining := c.remaining - amount,
      reserved := if capture then c.reserved - amount else c.reserved)
    case Compensation => c.(compensated := c.compensated + amount, remaining := c.remaining + amount)
    case Expiration => c.(expired := c.expired + amount, remaining := c.remaining - amount)
  }

  function NextNumber(chain: seq<Version>): int {
    if chain == [] then 1 else chain[|chain| - 1].number + 1
  }

  /** The unique indexes on the source columns of a version. */
  predicate SourceFree(chain: seq<Version>, source: Source) {
    forall i: nat :: i < |chain| ==> chain[i].source != source
  }

  predicate VersionOk(chain: seq<Version>, source: Source, c: Capacity) {
    CapacityOk(c) && SourceFree(chain, source)
  }

  function Appended(chain: seq<Version>, source: Source, c: Capacity): seq<Version> {
    chain + [Version(NextNumber(chain), source, c)]
  }

  predicate IsCapture(db: Db, row: Lineage) {
    row.kind == Consumption && HoldOf(db, row.entry).Some?
  }

  function DoInsertLineage(db: Db, now: int, row: Lineage): Result {
    if !LineageValid(db, now, row) then Refuse(db, Invalid)
    else
      var c, capture := Current(db, row.grant), IsCapture(db, row);
      var next := AfterLineage(c, row.kind, row.amount, capture);
      if (capture && c.reserved < row.amount) || !VersionOk(db.chains[row.grant], FromLineage(row.entry), next) then
        Refuse(db, Guarded)
      else
        Result(
          db.(lineage := db.lineage + [row],
          chains := db.chains[row.grant := Appended(db.chains[row.grant], FromLineage(row.entry), next)]),
          Accepted, [LineageWritten(|db.lineage|)])
  }

  // ----- allocations

  predicate AllocationValid(db: Db, now: int, row: Allocation) {
    && row.amount > 0
    && row.grant < |db.grants| && row.grant < |db.chains| && db.grants[row.grant].account == row.account
    && row.holdEntry < |db.holdEntries| && db.holdEntries[row.holdEntry].account == row.account
    && db.holdEntries[row.holdEntry].hold < |db.holds|
    && db.holdEntries[row.holdEntry].amount > 0
    && db.holds[db.holdEntries[row.holdEntry].hold].state == Held
    && !Expired(db.grants[row.grant].expiresAt, now)
    && row.amount <= Current(db, row.grant).remaining - Current(db, row.grant).reserved
    && (forall i: nat :: i < |db.allocations| ==>
          !(db.allocations[i].grant == row.grant && db.allocations[i].holdEntry == row.holdEntry))
  }

  function DoInsertAllocation(db: Db, now: int, row: Allocation): Result {
    if !AllocationValid(db, now, row) then Refuse(db, Invalid)
    else if db.chains[row.grant] == [] then Refuse(db, Guarded)
    else
      var c := Current(db, row.grant);
      var next := c.(reserved := c.reserved + row.amount);
      var source := FromAllocation(|db.allocations|);
      if !VersionOk(db.chains[row.grant], source, next) then Refuse(db, Guarded)
      else
        Result(
          db.(allocations := db.allocations + [row],
          chains := db.chains[row.grant := Appended(db.chains[row.grant], source, next)]),
          Accepted, [AllocationMade(|db.allocations|)])
  }

  // ----- hold updates

  /** The UPDATE branch of guard_hold_lifecycle: exactly one forward transition. */
  predicate HoldAdvances(was: Hold, row: Hold) {
    && row.original == was.original
    && was.state == Held
    && match row.state
       case Held => 0 < row.remaining < was.remaining && row.appliedAt.None? && row.voidedAt.None?
       case Applied => row.remaining == 0 && row.appliedAt.Some? && row.voidedAt.None?
       case Voided => row.remaining == 0 && row.appliedAt.None? && row.voidedAt.Some?
  }

  /** What voiding h gives back to grant g. */
  function Unconsumed(db: Db, g: nat, h: nat): int {
    AllocatedTo(db, g, h) - ConsumedThrough(db, g, h)
  }

  /** Some row of grant g is allocated to hold h. */
  predicate Backs(db: Db, g: nat, h: nat) {
    exists i: nat :: i < |db.allocations| && ToHold(db, g, h)(db.allocations[i])
  }

  function ReleasedCapacity(db: Db, g: nat, h: nat): Capacity {
    var c := Current(db, g);
    c.(reserved := c.reserved - Unconsumed(db, g, h))
  }

  /** The chain of g after h is voided: one release version exactly when something is left to release. */
  function Released(db: Db, g: nat, h: nat): seq<Version>
    requires g < |db.chains|
  {
    if Backs(db, g, h) && Unconsumed(db, g, h) > 0 then
      Appended(db.chains[g], FromVoid(h), ReleasedCapacity(db, g, h))
    else db.chains[g]
  }

  /** Releasing one grant meets neither the defensive raise nor a constraint on the appended version. */
  predicate ReleaseOk(db: Db, g: nat, h: nat) {
    && Unconsumed(db, g, h) >= 0
    && (Unconsumed(db, g, h) > 0 && g < |db.chains| ==>
          db.chains[g] != [] && VersionOk(db.chains[g], FromVoid(h), ReleasedCapacity(db, g, h)))
  }

  predicate ReleasesOk(db: Db, h: nat) {
    forall g: nat :: g < |db.chains| && Backs(db, g, h) ==> ReleaseOk(db, g, h)
  }

  function AllReleased(db: Db, h: nat): seq<seq<Version>> {
    seq(|db.chains|, (g: nat) requires g < |db.chains| => Released(db, g, h))
  }

  function DoUpdateHold(db: Db, h: nat, row: Hold): Result {
    if h >= |db.holds| || !HoldAdvances(db.holds[h], row) then Refuse(db, Invalid)
    else if row.state != Voided then
      Result(db.(holds := db.holds[h := row]), Accepted, [HoldTouched(h)])
    else if !ReleasesOk(db, h) then Refuse(db, Guarded)
    else Result(db.(holds := db.holds[h := row], chains := AllReleased(db, h)), Accepted, [HoldTouched(h)])
  }

  // ----- one statement

  predicate RowOp(op: Op) {
    !op.Commit? && !op.Rollback?
  }

  function Statement(db: Db, now: int, op: Op): Result
    requires RowOp(op)
  {
    match op
    case InsertAccount(a) =>
      if AccountValid(a) then Result(db.(accounts := db.accounts + [a]), Accepted, []) else Refuse(db, Invalid)
    case InsertTransaction(t) =>
      if TransactionValid(db, t) then Result(db.(txs := db.txs + [t]), Accepted, []) else Refuse(db, Invalid)
    case InsertEntry(e) =>
      if EntryValid(db, e) then Result(db.(entries := db.entries + [e]), Accepted, [EntryPosted(|db.entries|)])
      else Refuse(db, Invalid)
    case InsertGrant(g) =>
      if GrantValid(db, g) then Result(db.(grants := db.grants + [g], chains := db.chains + [[]]), Accepted, [])
      else Refuse(db, Invalid)
    case InsertLineage(row) => DoInsertLineage(db, now, row)
    case InsertHold(h) =>
      if HoldStarts(h) then Result(db.(holds := db.holds + [h]), Accepted, [HoldTouched(|db.holds|)])
      else Refuse(db, Invalid)
    case InsertHoldEntry(he) =>
      if HoldEntryValid(db, he) then
        Result(db.(holdEntries := db.holdEntries + [he]), Accepted, [HoldEntryAdded(|db.holdEntries|)])
      else Refuse(db, Invalid)
    case InsertAllocation(row) => DoInsertAllocation(db, now, row)
    case UpdateHold(h, row) => DoUpdateHold(db, h, row)
  }

  // ----- deferred checks

  /** assert_grant_entry_attributed, as migration 0002 leaves it. */
  predicate EntryAttributed(db: Db, e: nat) {
    e < |db.entries| && GrantEnabled(db, db.entries[e].account) ==>
      var row := db.entries[e];
      && Attributed(db, e) == Abs(row.amount)
      && (row.tx < |db.txs| && db.txs[row.tx].relation == Some(Reverses) ==>
            && db.txs[row.tx].related.Some?
            && var original := TxSide(db, db.txs[row.tx].related.value, row.account, row.amount < 0);
            original != 0 && TxSide(db, row.tx, row.account, row.amount > 0) == original)
  }

  /** assert_grant_compensation_complete. */
  predicate CompensationComplete(db: Db, i: nat) {
    i < |db.lineage| && db.lineage[i].kind == Compensation ==>
      var l := db.lineage[i];
      match TxOf(db, l.entry)
      case None => false
      case Some(t) =>
        && db.txs[t].related.Some?
        && TxSum(db, l.grant, Consumption, db.txs[t].related.value) != 0
        && TxSum(db, l.grant, Compensation, t) == TxSum(db, l.grant, Consumption, db.txs[t].related.value)
  }

  /** assert_expired_grant_capacity_removed. */
  predicate ExpiredRemoved(db: Db, now: int, i: nat) {
    i < |db.lineage| && db.lineage[i].kind in {Compensation, Expiration} ==>
      var l := db.lineage[i];
      l.grant < |db.grants| && Expired(db.grants[l.grant].expiresAt, now) ==>
        Current(db, l.grant).remaining == Current(db, l.grant).reserved
  }

  /** assert_grant_hold_allocated. */
  predicate HoldEntryAllocated(db: Db, he: nat) {
    he < |db.holdEntries| && db.holdEntries[he].amount != 0 && GrantEnabled(db, db.holdEntries[he].account) ==>
      db.holdEntries[he].amount > 0 && AllocatedToEntry(db, he) == db.holdEntries[he].amount
  }

  /** assert_grant_allocation_total. */
  predicate AllocationTotal(db: Db, a: nat) {
    a < |db.allocations| && db.allocations[a].holdEntry < |db.holdEntries| ==>
      AllocatedToEntry(db, db.allocations[a].holdEntry) == db.holdEntries[db.allocations[a].holdEntry].amount
  }

  predicate OnGrantAccount(db: Db, h: nat, he: nat)
    requires he < |db.holdEntries|
  {
    var row := db.holdEntries[he];
    row.hold == h && row.amount != 0 && GrantEnabled(db, row.account)
  }

  predicate GrantHold(db: Db, h: nat) {
    exists he: nat :: he < |db.holdEntries| && OnGrantAccount(db, h, he)
  }

  /** One row of the FULL JOIN: captured × initial = held × committed, for an account and side. */
  predicate InProportion(db: Db, h: nat, a: nat, debit: bool) {
    CapturedFrom(db, h, a, debit) * HeldTotal(db, h, true) == HeldFrom(db, h, a, debit) * Captured(db, h, true)
  }

  predicate Proportional(db: Db, h: nat) {
    forall a: nat, debit: bool :: a < |db.accounts| ==> InProportion(db, h, a, debit)
  }

  predicate AmountsAgree(db: Db, h: nat)
    requires h < |db.holds|
  {
    var row, initial, committed := db.holds[h], HeldTotal(db, h, true), Captured(db, h, true);
    && initial == row.original && HeldTotal(db, h, false) == initial
    && Captured(db, h, false) == committed && committed <= initial
    && match row.state
       case Held => row.remaining == initial - committed
       case Applied => committed == initial
       case Voided => committed < initial
  }

  /** assert_grant_hold_consistent. */
  predicate HoldConsistent(db: Db, h: nat) {
    h < |db.holds| && GrantHold(db, h) ==> AmountsAgree(db, h) && Proportional(db, h)
  }

  predicate Passes(db: Db, now: int, p: Pending) {
    match p
    case EntryPosted(e) =>
      EntryAttributed(db, e) && (HoldOf(db, e).Some? ==> HoldConsistent(db, HoldOf(db, e).value))
    case LineageWritten(i) => CompensationComplete(db, i) && ExpiredRemoved(db, now, i)
    case AllocationMade(a) => AllocationTotal(db, a)
    case HoldTouched(h) => HoldConsistent(db, h)
    case HoldEntryAdded(he) =>
      && HoldEntryAllocated(db, he)
      && (he < |db.holdEntries| ==> HoldConsistent(db, db.holdEntries[he].hold))
  }

  predicate CommitPasses(s: Session) {
    forall i: nat :: i < |s.queue| ==> Passes(s.cur, s.now, s.queue[i])
  }

  // ----- runs

  function Begin(db: Db, now: int): Session {
    Session(db, db, now, [])
  }

  function Exec(s: Session, op: Op): (Session, Outcome) {
    match op
    case Commit(next) =>
      if CommitPasses(s) then (Begin(s.cur, next), Accepted) else (Begin(s.base, next), Rejected(DeferredFailed))
    case Rollback(next) => (Begin(s.base, next), Accepted)
    case _ =>
      var r := Statement(s.cur, s.now, op);
      (s.(cur := r.db, queue := if r.queued == [] then s.queue else s.queue + r.queued), r.outcome)
  }

  function Run(s: Session, ops: seq<Op>): Session {
    if ops == [] then s else Exec(Run(s, ops[..|ops| - 1]), ops[|ops| - 1]).0
  }
}
