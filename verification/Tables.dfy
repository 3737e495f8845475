/**
 The rows of one tenant's grant tables and the aggregate queries the triggers run on them.
 A row's id is its position in its table, so "the row exists" is "the id is below the length",
 and inserting a row never renames another.
 */
module Tables {
  import opened Sums

  datatype Option<+T> = None | Some(value: T)

  /** transaction_relation_type: REVERSAL and CORRECTION. */
  datatype Relation = Reverses | Corrects

  datatype HoldState = Held | Applied | Voided

  /** credit_grant_entry_kind, with the REFUND value that migration 0006 adds. */
  datatype Kind = Issuance | Reversal | Consumption | Compensation | Expiration | Refund

  datatype Side = DebitSide | CreditSide

  datatype Account = Account(grantEnabled: bool, asset: nat, side: Side, mayOverdraw: bool)

  datatype Transaction = Transaction(
    hold: Option<nat>, related: Option<nat>, relation: Option<Relation>, effectiveAt: int, asset: nat)

  /** A posting: a positive amount is a debit, a negative one a credit, and 0 is left of a deleted row. */
  datatype Entry = Entry(tx: nat, account: nat, amount: int, asset: nat)

  datatype Grant = Grant(account: nat, funding: nat, source: nat, expiresAt: Option<int>)

  /** credit_grant_entries: how much of an entry is attributed to a grant, and why. */
  datatype Lineage = Lineage(grant: nat, account: nat, entry: nat, kind: Kind, amount: int)

  datatype Hold = Hold(state: HoldState, original: int, remaining: int, appliedAt: Option<int>, voidedAt: Option<int>)

  /** A held entry, with the same reading of its amount. */
  datatype HoldEntry = HoldEntry(hold: nat, account: nat, amount: int)

  datatype Allocation = Allocation(grant: nat, account: nat, holdEntry: nat, amount: int)

  /** The counters of one capacity version. */
  datatype Capacity = Capacity(
    granted: int, reversed: int, consumed: int, compensated: int, expired: int, remaining: int, reserved: int)

  /** The event a version was appended for: exactly one of the three source columns is set. */
  datatype Source = FromLineage(entry: nat) | FromAllocation(allocation: nat) | FromVoid(hold: nat)

  datatype Version = Version(number: int, source: Source, capacity: Capacity)

  const NO_CAPACITY := Capacity(0, 0, 0, 0, 0, 0, 0)

  datatype Db = Db(
    accounts: seq<Account>,
    txs: seq<Transaction>,
    entries: seq<Entry>,
    grants: seq<Grant>,
    lineage: seq<Lineage>,
    holds: seq<Hold>,
    holdEntries: seq<HoldEntry>,
    allocations: seq<Allocation>,
    chains: seq<seq<Version>>)

  const EMPTY := Db([], [], [], [], [], [], [], [], [])

  /** The CHECK constraints on a version row. */
  predicate CapacityOk(c: Capacity) {
    && c.granted >= 0 && c.reversed >= 0 && c.consumed >= 0
    && c.compensated >= 0 && c.expired >= 0 && c.remaining >= 0
    && c.remaining == c.granted + c.compensated - c.reversed - c.consumed - c.expired
    && 0 <= c.reserved <= c.remaining
  }

  function Abs(x: int): nat {
    if x < 0 then -x else x
  }

  predicate Expired(expiresAt: Option<int>, at: int) {
    expiresAt.Some? && expiresAt.value <= at
  }

  /** The newest version of a grant's chain, or zeros when it has none. */
  function Latest(chain: seq<Version>): Capacity {
    if chain == [] then NO_CAPACITY else chain[|chain| - 1].capacity
  }

  function Current(db: Db, g: nat): Capacity {
    if g < |db.chains| then Latest(db.chains[g]) else NO_CAPACITY
  }

  // ----- joins

  function TxOf(db: Db, e: nat): Option<nat> {
    if e < |db.entries| && db.entries[e].tx < |db.txs| then Some(db.entries[e].tx) else None
  }

  function HoldOf(db: Db, e: nat): Option<nat> {
    match TxOf(db, e)
    case Some(t) => db.txs[t].hold
    case None => None
  }

  function HoldOfHoldEntry(db: Db, he: nat): Option<nat> {
    if he < |db.holdEntries| then Some(db.holdEntries[he].hold) else None
  }

  predicate GrantEnabled(db: Db, a: nat) {
    a < |db.accounts| && db.accounts[a].grantEnabled
  }

  // ----- sums over lineage rows

  function LineageTerm(rows: seq<Lineage>, p: Lineage -> bool): nat -> int {
    (i: nat) => if i < |rows| && p(rows[i]) then rows[i].amount else 0
  }

  function LineageSum(rows: seq<Lineage>, p: Lineage -> bool): int {
    SumTo(|rows|, LineageTerm(rows, p))
  }

  function OfKind(g: nat, k: Kind): Lineage -> bool {
    (l: Lineage) => l.grant == g && l.kind == k
  }

  function OfKindInTx(db: Db, g: nat, k: Kind, t: nat): Lineage -> bool {
    (l: Lineage) => l.grant == g && l.kind == k && TxOf(db, l.entry) == Some(t)
  }

  function ThroughHold(db: Db, g: nat, h: nat): Lineage -> bool {
    (l: Lineage) => l.grant == g && l.kind == Consumption && HoldOf(db, l.entry) == Some(h)
  }

  function OnEntry(e: nat): Lineage -> bool {
    (l: Lineage) => l.entry == e
  }

  /** Lineage of grant g on the entries that satisfy pe. */
  function OnEntries(g: nat, pe: nat -> bool): Lineage -> bool {
    (l: Lineage) => l.grant == g && pe(l.entry)
  }

  function KindSum(db: Db, g: nat, k: Kind): int {
    LineageSum(db.lineage, OfKind(g, k))
  }

  /** What transaction t did to grant g under one kind. */
  function TxSum(db: Db, g: nat, k: Kind, t: nat): int {
    LineageSum(db.lineage, OfKindInTx(db, g, k, t))
  }

  /** What captures of hold h consumed from grant g. */
  function ConsumedThrough(db: Db, g: nat, h: nat): int {
    LineageSum(db.lineage, ThroughHold(db, g, h))
  }

  function Attributed(db: Db, e: nat): int {
    LineageSum(db.lineage, OnEntry(e))
  }

  // ----- sums over allocations

  function AllocationTerm(rows: seq<Allocation>, p: Allocation -> bool): nat -> int {
    (i: nat) => if i < |rows| && p(rows[i]) then rows[i].amount else 0
  }

  function AllocationSum(rows: seq<Allocation>, p: Allocation -> bool): int {
    SumTo(|rows|, AllocationTerm(rows, p))
  }

  function ToHold(db: Db, g: nat, h: nat): Allocation -> bool {
    (a: Allocation) => a.grant == g && HoldOfHoldEntry(db, a.holdEntry) == Some(h)
  }

  function ToHoldEntry(he: nat): Allocation -> bool {
    (a: Allocation) => a.holdEntry == he
  }

  /** What grant g has set aside for hold h. */
  function AllocatedTo(db: Db, g: nat, h: nat): int {
    AllocationSum(db.allocations, ToHold(db, g, h))
  }

  function AllocatedToEntry(db: Db, he: nat): int {
    AllocationSum(db.allocations, ToHoldEntry(he))
  }

  // ----- sums over postings and held entries

  function Magnitude(entries: seq<Entry>, pe: nat -> bool): nat -> int {
    (e: nat) =>
      if e < |entries| && pe(e) then (if entries[e].amount < 0 then -entries[e].amount else entries[e].amount) else 0
  }

  function EntrySum(entries: seq<Entry>, pe: nat -> bool): int {
    SumTo(|entries|, Magnitude(entries, pe))
  }

  function HeldMagnitude(rows: seq<HoldEntry>, pe: nat -> bool): nat -> int {
    (e: nat) =>
      if e < |rows| && pe(e) then (if rows[e].amount < 0 then -rows[e].amount else rows[e].amount) else 0
  }

  function HeldSum(rows: seq<HoldEntry>, pe: nat -> bool): int {
    SumTo(|rows|, HeldMagnitude(rows, pe))
  }

  /** Entries of transaction t on account a and one side. */
  function PostedBy(db: Db, t: nat, a: nat, debit: bool): nat -> bool {
    (e: nat) =>
      && e < |db.entries| && db.entries[e].tx == t && db.entries[e].account == a
      && (if debit then db.entries[e].amount > 0 else db.entries[e].amount < 0)
  }

  /** Entries of any transaction that captures hold h, on one side. */
  function CapturedBy(db: Db, h: nat, debit: bool): nat -> bool {
    (e: nat) =>
      && e < |db.entries| && HoldOf(db, e) == Some(h)
      && (if debit then db.entries[e].amount > 0 else db.entries[e].amount < 0)
  }

  function CapturedOn(db: Db, h: nat, a: nat, debit: bool): nat -> bool {
    (e: nat) =>
      && e < |db.entries| && HoldOf(db, e) == Some(h)
      && (if debit then db.entries[e].amount > 0 else db.entries[e].amount < 0) && db.entries[e].account == a
  }

  function HeldBy(db: Db, h: nat, debit: bool): nat -> bool {
    (e: nat) =>
      && e < |db.holdEntries| && db.holdEntries[e].hold == h
      && (if debit then db.holdEntries[e].amount > 0 else db.holdEntries[e].amount < 0)
  }

  function HeldOn(db: Db, h: nat, a: nat, debit: bool): nat -> bool {
    (e: nat) =>
      && e < |db.holdEntries| && db.holdEntries[e].hold == h
      && (if debit then db.holdEntries[e].amount > 0 else db.holdEntries[e].amount < 0)
        && db.holdEntries[e].account == a
  }

  /** sum(-signed_amount_minor) of a transaction's credits to an account. */
  function FundingCredit(db: Db, t: nat, a: nat): int {
    EntrySum(db.entries, PostedBy(db, t, a, false))
  }

  function TxSide(db: Db, t: nat, a: nat, debit: bool): int {
    EntrySum(db.entries, PostedBy(db, t, a, debit))
  }

  function Captured(db: Db, h: nat, debit: bool): int {
    EntrySum(db.entries, CapturedBy(db, h, debit))
  }

  function CapturedFrom(db: Db, h: nat, a: nat, debit: bool): int {
    EntrySum(db.entries, CapturedOn(db, h, a, debit))
  }

  function HeldTotal(db: Db, h: nat, debit: bool): int {
    HeldSum(db.holdEntries, HeldBy(db, h, debit))
  }

  function HeldFrom(db: Db, h: nat, a: nat, debit: bool): int {
    HeldSum(db.holdEntries, HeldOn(db, h, a, debit))
  }

  // ----- the declarative reading of a grant: one sum per counter

  /** What hold h still reserves of grant g: nothing once it is voided. */
  function Outstanding(db: Db, g: nat): nat -> int {
    (h: nat) =>
      if h < |db.holds| && db.holds[h].state != Voided then AllocatedTo(db, g, h) - ConsumedThrough(db, g, h) else 0
  }

  function Reserved(db: Db, g: nat): int {
    SumTo(|db.holds|, Outstanding(db, g))
  }

  /** The capacity of a grant as per-kind sums of its lineage and per-hold sums of its reservations. */
  function Totals(db: Db, g: nat): Capacity {
    var issued := KindSum(db, g, Issuance);
    var reversed := KindSum(db, g, Reversal) + KindSum(db, g, Refund);
    var consumed := KindSum(db, g, Consumption);
    var compensated := KindSum(db, g, Compensation);
    var expired := KindSum(db, g, Expiration);
    Capacity(issued, reversed, consumed, compensated, expired,
             issued + compensated - reversed - consumed - expired, Reserved(db, g))
  }
}
