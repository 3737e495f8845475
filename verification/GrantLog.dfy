/**
 The rows written under one grant's lock, in order, and the triggers read over them alone: the
 per-grant part of the lineage and allocation validators, of the void, and of the version appended.
 On the log of a grant they decide exactly as the engine does on all the tables.
 */
module GrantLog {
  import opened Tables
  import opened Invariant
  import opened Preservation
  import Engine

  /** What happened to the grant. A void marks the grants that back its hold, whether or not it releases anything. */
  datatype Event =
    | Attributed(row: Lineage, tx: nat, hold: Option<nat>)
    | SetAside(id: nat, allocation: Allocation, heldFor: nat)
    | Released(voided: nat)

  /** An event and the version appended for it, if any. */
  datatype Row = Row(event: Event, version: Option<Version>)

  /**
   What a validator reads that is not written under the grant's lock. The grant, the entry, its
   transaction and the account's asset never change; the clock is the transaction's; the funding credit
   of the transaction is taken as the session read it, and so is open: that the hold was neither APPLIED
   nor voided while it had no lot of this grant, which nothing in the grant's log can tell.
   */
  datatype Facts = Facts(grant: Grant, entry: Entry, tx: Transaction, asset: nat, now: int, funding: int, open: bool)

  datatype Append =
    | Attribute(row: Lineage, facts: Facts)
    | Reserve(id: nat, allocation: Allocation, held: HoldEntry, grant: Grant, now: int, open: bool)
    | Release(lot: nat, voided: nat, open: bool)

  function GrantOf(a: Append): nat {
    match a
    case Attribute(row, _) => row.grant
    case Reserve(_, allocation, _, _, _, _) => allocation.grant
    case Release(lot, _, _) => lot
  }

  function EventOf(a: Append): Event {
    match a
    case Attribute(row, facts) => Attributed(row, facts.entry.tx, facts.tx.hold)
    case Reserve(id, allocation, held, _, _, _) => SetAside(id, allocation, held.hold)
    case Release(_, voided, _) => Released(voided)
  }

  // ----- the aggregate queries, over the log

  function Chain(rows: seq<Row>): seq<Version> {
    if rows == [] then []
    else Chain(rows[..|rows| - 1]) + match rows[|rows| - 1].version case None => [] case Some(v) => [v]
  }

  function AllocatedIn(rows: seq<Row>, h: nat): int {
    if rows == [] then 0
    else
      var last := rows[|rows| - 1].event;
      AllocatedIn(rows[..|rows| - 1], h) + if last.SetAside? && last.heldFor == h then last.allocation.amount else 0
  }

  function ConsumedIn(rows: seq<Row>, h: nat): int {
    if rows == [] then 0
    else
      var last := rows[|rows| - 1].event;
      ConsumedIn(rows[..|rows| - 1], h)
      + if last.Attributed? && last.row.kind == Consumption && last.hold == Some(h) then last.row.amount else 0
  }

  function KindIn(rows: seq<Row>, k: Kind, t: nat): int {
    if rows == [] then 0
    else
      var last := rows[|rows| - 1].event;
      KindIn(rows[..|rows| - 1], k, t)
        + if last.Attributed? && last.row.kind == k && last.tx == t then last.row.amount else 0
  }

  predicate VoidedIn(rows: seq<Row>, h: nat) {
    exists i: nat :: i < |rows| && rows[i].event == Released(h)
  }

  predicate HasEntry(rows: seq<Row>, e: nat) {
    exists i: nat :: i < |rows| && rows[i].event.Attributed? && rows[i].event.row.entry == e
  }

  predicate HasKind(rows: seq<Row>, k: Kind) {
    exists i: nat :: i < |rows| && rows[i].event.Attributed? && rows[i].event.row.kind == k
  }

  predicate HasHeld(rows: seq<Row>, he: nat) {
    exists i: nat :: i < |rows| && rows[i].event.SetAside? && rows[i].event.allocation.holdEntry == he
  }

  function Unreleased(rows: seq<Row>, h: nat): int {
    AllocatedIn(rows, h) - ConsumedIn(rows, h)
  }

  // ----- the validators, over the log

  predicate Scoped(row: Lineage, f: Facts) {
    && f.grant.account == row.account && f.entry.account == row.account
    && f.entry.asset == f.asset && f.tx.asset == f.asset
    && row.amount <= Abs(f.entry.amount)
  }

  /** What the grant has set aside for h, counted while h is HELD. */
  function HeldIn(rows: seq<Row>, h: nat, open: bool): int {
    if open && !VoidedIn(rows, h) then AllocatedIn(rows, h) else 0
  }

  predicate KindTest(rows: seq<Row>, row: Lineage, f: Facts) {
    var c := Latest(Chain(rows));
    match row.kind
    case Issuance =>
      f.entry.tx == f.grant.source && f.entry.amount < 0 && row.amount == -f.entry.amount
        && !Expired(f.grant.expiresAt, f.now)
    case Reversal =>
      && Engine.NotFalse(f.tx.relation, Reverses) && Engine.NotFalse(f.tx.related, f.grant.source)
      && f.entry.amount > 0 && row.amount == f.entry.amount && row.amount == c.granted && c.granted > 0
      && c.remaining == c.granted && c.reserved == 0 && c.consumed == 0 && c.expired == 0
    case Consumption =>
      && f.entry.amount > 0
      && (match f.tx.hold
          case None =>
            && row.amount <= c.remaining - c.reserved
            && !Expired(f.grant.expiresAt, f.tx.effectiveAt) && !Expired(f.grant.expiresAt, f.now)
          case Some(h) =>
            row.amount <= c.remaining && ConsumedIn(rows, h) + row.amount <= HeldIn(rows, h, f.open))
    case Compensation =>
      && f.entry.amount < 0 && Engine.NotFalse(f.tx.relation, Reverses) && f.tx.related.Some?
      && KindIn(rows, Consumption, f.tx.related.value) != 0
      && KindIn(rows, Compensation, f.entry.tx) + row.amount <= KindIn(rows, Consumption, f.tx.related.value)
    case Expiration =>
      && f.grant.expiresAt.Some? && Expired(f.grant.expiresAt, f.tx.effectiveAt) && Expired(f.grant.expiresAt, f.now)
      && f.entry.amount > 0 && row.amount == f.entry.amount && row.amount <= c.remaining - c.reserved
      && f.funding == row.amount
    case Refund =>
      && f.tx.hold.None? && f.tx.relation.None? && f.tx.related.None?
      && f.entry.amount > 0 && row.amount == f.entry.amount && row.amount <= c.remaining - c.reserved
      && !Expired(f.grant.expiresAt, f.tx.effectiveAt) && !Expired(f.grant.expiresAt, f.now)
      && f.funding == row.amount
  }

  predicate Validates(rows: seq<Row>, a: Append) {
    match a
    case Attribute(row, f) =>
      && row.amount > 0 && Scoped(row, f) && KindTest(rows, row, f)
      && !HasEntry(rows, row.entry) && (row.kind in {Issuance, Reversal} ==> !HasKind(rows, row.kind))
    case Reserve(_, allocation, held, grant, now, open) =>
      && allocation.amount > 0 && grant.account == allocation.account && held.account == allocation.account
      && held.amount > 0 && open && !VoidedIn(rows, held.hold) && !Expired(grant.expiresAt, now)
      && allocation.amount <= Latest(Chain(rows)).remaining - Latest(Chain(rows)).reserved
      && !HasHeld(rows, allocation.holdEntry)
    case Release(_, voided, open) =>
      open && !VoidedIn(rows, voided) && Unreleased(rows, voided) >= 0
  }

  // ----- what is appended

  function VersionFor(rows: seq<Row>, event: Event): Option<Version> {
    var c, number := Latest(Chain(rows)), Engine.NextNumber(Chain(rows));
    match event
    case Attributed(row, _, hold) =>
      Some(Version(number, FromLineage(row.entry),
                   Engine.AfterLineage(c, row.kind, row.amount, row.kind == Consumption && hold.Some?)))
    case SetAside(id, allocation, _) =>
      Some(Version(number, FromAllocation(id), c.(reserved := c.reserved + allocation.amount)))
    case Released(h) =>
      if Unreleased(rows, h) > 0 then
        Some(Version(number, FromVoid(h), c.(reserved := c.reserved - Unreleased(rows, h))))
      else None
  }

  /**
   The appended version meets its constraints; a reservation needs a version to copy, a capture a
   reserve to draw on.
   */
  predicate Fits(rows: seq<Row>, event: Event) {
    match VersionFor(rows, event)
    case None => true
    case Some(v) =>
      && Engine.VersionOk(Chain(rows), v.source, v.capacity)
      && (match event
          case Attributed(row, _, hold) =>
            row.kind == Consumption && hold.Some? ==> row.amount <= Latest(Chain(rows)).reserved
          case _ => Chain(rows) != [])
  }

  predicate Accepts(rows: seq<Row>, a: Append) {
    Validates(rows, a) && Fits(rows, EventOf(a))
  }

  function Made(rows: seq<Row>, event: Event): Row {
    Row(event, VersionFor(rows, event))
  }

  /** The log after one attempt. */
  function Grown(rows: seq<Row>, a: Append): seq<Row> {
    if Accepts(rows, a) then rows + [Made(rows, EventOf(a))] else rows
  }

  // ----- the log of a grant decides as the tables do

  ghost predicate TellsSums(db: Db, g: nat, rows: seq<Row>) {
    && (forall h: nat :: AllocatedIn(rows, h) == AllocatedTo(db, g, h))
    && (forall h: nat :: ConsumedIn(rows, h) == ConsumedThrough(db, g, h))
    && (forall k: Kind, t: nat :: KindIn(rows, k, t) == TxSum(db, g, k, t))
  }

  ghost predicate TellsKeys(db: Db, g: nat, rows: seq<Row>) {
    && (forall e: nat :: HasEntry(rows, e) <==>
          exists i: nat :: i < |db.lineage| && db.lineage[i].grant == g && db.lineage[i].entry == e)
    && (forall k: Kind :: HasKind(rows, k) <==>
          exists i: nat :: i < |db.lineage| && db.lineage[i].grant == g && db.lineage[i].kind == k)
    && (forall he: nat :: HasHeld(rows, he) <==>
          exists i: nat :: i < |db.allocations| && db.allocations[i].grant == g && db.allocations[i].holdEntry == he)
  }

  /** A hold that the grant backs is marked exactly when it is VOIDED; others hold nothing of the grant. */
  ghost predicate TellsVoids(db: Db, g: nat, rows: seq<Row>) {
    && (forall h: nat :: VoidedIn(rows, h) ==> h < |db.holds| && db.holds[h].state == Voided)
    && (forall h: nat :: h < |db.holds| && db.holds[h].state == Voided ==>
          VoidedIn(rows, h) || AllocatedTo(db, g, h) == 0)
  }

  /** rows is the log of grant g in these tables. */
  ghost predicate Tells(db: Db, g: nat, rows: seq<Row>) {
    && g < |db.chains| && Chain(rows) == db.chains[g]
    && TellsSums(db, g, rows) && TellsKeys(db, g, rows) && TellsVoids(db, g, rows)
  }

  /** HELD, as far as the log of g does not show it. */
  predicate OpenFor(db: Db, g: nat, h: nat) {
    h < |db.holds| && (db.holds[h].state == Held || (db.holds[h].state == Voided && AllocatedTo(db, g, h) != 0))
  }

  function FactsOf(db: Db, now: int, row: Lineage): Facts
    requires Engine.InScope(db, row)
  {
    var e := db.entries[row.entry];
    var t, g := db.txs[e.tx], db.grants[row.grant];
    Facts(g, e, t, db.accounts[row.account].asset, now, FundingCredit(db, e.tx, g.funding),
          t.hold.Some? && OpenFor(db, row.grant, t.hold.value))
  }

  lemma HeldAgrees(db: Db, g: nat, rows: seq<Row>, h: nat)
    requires TellsSums(db, g, rows) && TellsVoids(db, g, rows)
    ensures OpenFor(db, g, h) && !VoidedIn(rows, h) <==> h < |db.holds| && db.holds[h].state == Held
    ensures HeldIn(rows, h, OpenFor(db, g, h)) == Engine.HeldAllocation(db, g, h)
  {
    assert AllocatedIn(rows, h) == AllocatedTo(db, g, h);
  }

  lemma KindsAgree(db: Db, now: int, row: Lineage, rows: seq<Row>)
    requires Engine.InScope(db, row) && Tells(db, row.grant, rows)
    ensures KindTest(rows, row, FactsOf(db, now, row)) <==> Engine.KindValid(db, now, row)
  {
    var t := db.txs[db.entries[row.entry].tx];
    if t.hold.Some? {
      HeldAgrees(db, row.grant, rows, t.hold.value);
    }
  }

  lemma KeysAgree(db: Db, row: Lineage, rows: seq<Row>)
    requires TellsKeys(db, row.grant, rows)
    ensures !HasEntry(rows, row.entry) && (row.kind in {Issuance, Reversal} ==> !HasKind(rows, row.kind)) <==>
            Engine.LineageKeyFree(db, row)
  {
  }

  /** A lineage row: the decision over the log, both validator and version, is the engine's. */
  lemma AttributionDecided(db: Db, now: int, row: Lineage, rows: seq<Row>)
    requires Engine.InScope(db, row) && Tells(db, row.grant, rows)
    ensures Accepts(rows, Attribute(row, FactsOf(db, now, row))) <==>
            Engine.DoInsertLineage(db, now, row).outcome == Engine.Accepted
  {
    KindsAgree(db, now, row, rows);
    KeysAgree(db, row, rows);
  }

  /** The append an allocation row makes, when the rows it names exist. */
  function ReserveOf(db: Db, now: int, row: Allocation): Append
    requires row.grant < |db.grants| && row.holdEntry < |db.holdEntries|
  {
    var he := db.holdEntries[row.holdEntry];
    Reserve(|db.allocations|, row, he, db.grants[row.grant], now, OpenFor(db, row.grant, he.hold))
  }

  /** An allocation: the same. */
  lemma ReservationDecided(db: Db, now: int, row: Allocation, rows: seq<Row>)
    requires row.grant < |db.grants| && row.holdEntry < |db.holdEntries| && Tells(db, row.grant, rows)
    ensures Accepts(rows, ReserveOf(db, now, row)) <==>
            Engine.DoInsertAllocation(db, now, row).outcome == Engine.Accepted
  {
    HeldAgrees(db, row.grant, rows, db.holdEntries[row.holdEntry].hold);
  }

  /** A void of a hold that is HELD, for a grant that backs it: the same. */
  lemma ReleaseDecided(db: Db, g: nat, h: nat, rows: seq<Row>)
    requires Tells(db, g, rows) && h < |db.holds| && db.holds[h].state == Held
    ensures Accepts(rows, Release(g, h, OpenFor(db, g, h))) <==> Engine.ReleaseOk(db, g, h)
  {
    HeldAgrees(db, g, rows, h);
    assert Unreleased(rows, h) == Engine.Unconsumed(db, g, h);
  }

  // ----- and stays the log of the grant

  lemma SnocSums(rows: seq<Row>, r: Row)
    ensures Chain(rows + [r]) == Chain(rows) + match r.version case None => [] case Some(v) => [v]
    ensures forall h: nat :: AllocatedIn(rows + [r], h) ==
              AllocatedIn(rows, h) + if r.event.SetAside? && r.event.heldFor == h then r.event.allocation.amount else 0
    ensures forall h: nat :: ConsumedIn(rows + [r], h) == ConsumedIn(rows, h)
              + if r.event.Attributed? && r.event.row.kind == Consumption && r.event.hold == Some(h)
                then r.event.row.amount else 0
    ensures forall k: Kind, t: nat :: KindIn(rows + [r], k, t) == KindIn(rows, k, t)
              + if r.event.Attributed? && r.event.row.kind == k && r.event.tx == t then r.event.row.amount else 0
  {
    assert (rows + [r])[..|rows|] == rows;
  }

  lemma SnocKeys(rows: seq<Row>, r: Row)
    ensures forall h: nat :: VoidedIn(rows + [r], h) <==> VoidedIn(rows, h) || r.event == Released(h)
    ensures forall e: nat :: HasEntry(rows + [r], e) <==>
            HasEntry(rows, e) || (r.event.Attributed? && r.event.row.entry == e)
    ensures forall k: Kind :: HasKind(rows + [r], k) <==>
            HasKind(rows, k) || (r.event.Attributed? && r.event.row.kind == k)
    ensures forall he: nat :: HasHeld(rows + [r], he) <==>
            HasHeld(rows, he) || (r.event.SetAside? && r.event.allocation.holdEntry == he)
  {
    var more := rows + [r];
    assert more[|rows|] == r;
    forall h: nat ensures VoidedIn(more, h) <==> VoidedIn(rows, h) || r.event == Released(h) {
      if i: nat :| i < |rows| && rows[i].event == Released(h) { assert more[i] == rows[i]; }
    }
    forall e: nat ensures HasEntry(more, e) <==> HasEntry(rows, e) || (r.event.Attributed? && r.event.row.entry == e) {
      if i: nat :| i < |rows| && rows[i].event.Attributed? && rows[i].event.row.entry == e {
        assert more[i] == rows[i];
      }
    }
    forall k: Kind ensures HasKind(more, k) <==> HasKind(rows, k) || (r.event.Attributed? && r.event.row.kind == k) {
      if i: nat :| i < |rows| && rows[i].event.Attributed? && rows[i].event.row.kind == k { assert more[i] == rows[i]; }
    }
    forall he: nat
      ensures HasHeld(more, he) <==> HasHeld(rows, he) || (r.event.SetAside? && r.event.allocation.holdEntry == he)
    {
      if i: nat :| i < |rows| && rows[i].event.SetAside? && rows[i].event.allocation.holdEntry == he {
        assert more[i] == rows[i];
      }
    }
  }

  lemma LineageKeysAdded(db: Db, db': Db, row: Lineage, g: nat, rows: seq<Row>, more: seq<Row>)
    requires TellsKeys(db, g, rows) && db'.lineage == db.lineage + [row] && db'.allocations == db.allocations
    requires forall e: nat :: HasEntry(more, e) <==> HasEntry(rows, e) || (g == row.grant && row.entry == e)
    requires forall k: Kind :: HasKind(more, k) <==> HasKind(rows, k) || (g == row.grant && row.kind == k)
    requires forall he: nat :: HasHeld(more, he) <==> HasHeld(rows, he)
    ensures TellsKeys(db', g, more)
  {
    var n := |db.lineage|;
    assert db'.lineage[n] == row && forall i: nat :: i < n ==> db'.lineage[i] == db.lineage[i];
  }

  lemma AttributionSums(db: Db, db': Db, row: Lineage, rows: seq<Row>, r: Row)
    requires row.grant < |db.chains| && row.entry < |db.entries| && db.entries[row.entry].tx < |db.txs|
    requires AddsLineage(db, db', row) && TellsSums(db, row.grant, rows)
    requires r.event == Attributed(row, db.entries[row.entry].tx, db.txs[db.entries[row.entry].tx].hold)
    ensures TellsSums(db', row.grant, rows + [r])
  {
    LineageAddedSums(db, db', row, row.grant);
    SnocSums(rows, r);
    assert TxOf(db, row.entry) == Some(db.entries[row.entry].tx);
  }

  lemma AttributionVoids(db: Db, db': Db, row: Lineage, g: nat, rows: seq<Row>, more: seq<Row>)
    requires AddsLineage(db, db', row) && TellsVoids(db, g, rows)
    requires forall h: nat :: VoidedIn(more, h) <==> VoidedIn(rows, h)
    ensures TellsVoids(db', g, more)
  {
    LineageAddedSums(db, db', row, g);
  }

  /** After an accepted lineage row, the grown log is the grant's log in the new tables. */
  lemma AttributionLogged(db: Db, now: int, row: Lineage, rows: seq<Row>)
    requires Engine.InScope(db, row) && Tells(db, row.grant, rows)
    requires Engine.DoInsertLineage(db, now, row).outcome == Engine.Accepted
    ensures Tells(Engine.DoInsertLineage(db, now, row).db, row.grant,
                  Grown(rows, Attribute(row, FactsOf(db, now, row))))
  {
    var db' := Engine.DoInsertLineage(db, now, row).db;
    var a := Attribute(row, FactsOf(db, now, row));
    AttributionDecided(db, now, row, rows);
    var r := Made(rows, EventOf(a));
    SnocSums(rows, r);
    SnocKeys(rows, r);
    AttributionSums(db, db', row, rows, r);
    LineageKeysAdded(db, db', row, row.grant, rows, rows + [r]);
    AttributionVoids(db, db', row, row.grant, rows, rows + [r]);
  }

  /** And the logs of the other grants are still theirs. */
  lemma AttributionElsewhere(db: Db, now: int, row: Lineage, g: nat, rows: seq<Row>)
    requires g != row.grant && Tells(db, g, rows)
    ensures Tells(Engine.DoInsertLineage(db, now, row).db, g, rows)
  {
    var db' := Engine.DoInsertLineage(db, now, row).db;
    if db' != db {
      LineageAddedSums(db, db', row, g);
      LineageKeysAdded(db, db', row, g, rows, rows);
      AttributionVoids(db, db', row, g, rows, rows);
    }
  }

  lemma AllocationKeysAdded(db: Db, db': Db, row: Allocation, g: nat, rows: seq<Row>, more: seq<Row>)
    requires TellsKeys(db, g, rows) && db'.allocations == db.allocations + [row] && db'.lineage == db.lineage
    requires forall e: nat :: HasEntry(more, e) <==> HasEntry(rows, e)
    requires forall k: Kind :: HasKind(more, k) <==> HasKind(rows, k)
    requires forall he: nat :: HasHeld(more, he) <==> HasHeld(rows, he) || (g == row.grant && row.holdEntry == he)
    ensures TellsKeys(db', g, more)
  {
    var n := |db.allocations|;
    assert db'.allocations[n] == row && forall i: nat :: i < n ==> db'.allocations[i] == db.allocations[i];
  }

  lemma ReservationSums(db: Db, db': Db, row: Allocation, g: nat, rows: seq<Row>, r: Row)
    requires row.holdEntry < |db.holdEntries| && TellsSums(db, g, rows)
    requires db' == db.(allocations := db.allocations + [row], chains := db'.chains)
    requires r.event.SetAside? && r.event.allocation == row && r.event.heldFor == db.holdEntries[row.holdEntry].hold
    ensures row.grant == g ==> TellsSums(db', g, rows + [r])
    ensures row.grant != g ==> TellsSums(db', g, rows)
  {
    AllocationAddedSums(db, db', row, g);
    SnocSums(rows, r);
  }

  /** The hold of an accepted allocation is HELD, so no void is missed. */
  lemma ReservationVoids(db: Db, db': Db, row: Allocation, g: nat, rows: seq<Row>, more: seq<Row>)
    requires row.holdEntry < |db.holdEntries| && TellsVoids(db, g, rows)
    requires db' == db.(allocations := db.allocations + [row], chains := db'.chains)
    requires db.holdEntries[row.holdEntry].hold < |db.holds|
             && db.holds[db.holdEntries[row.holdEntry].hold].state == Held
    requires forall h: nat :: VoidedIn(more, h) <==> VoidedIn(rows, h)
    ensures TellsVoids(db', g, more)
  {
    AllocationAddedSums(db, db', row, g);
  }

  lemma ReservationLogged(db: Db, now: int, row: Allocation, rows: seq<Row>)
    requires row.grant < |db.grants| && row.holdEntry < |db.holdEntries| && Tells(db, row.grant, rows)
    requires Engine.DoInsertAllocation(db, now, row).outcome == Engine.Accepted
    ensures Tells(Engine.DoInsertAllocation(db, now, row).db, row.grant, Grown(rows, ReserveOf(db, now, row)))
  {
    var db' := Engine.DoInsertAllocation(db, now, row).db;
    ReservationDecided(db, now, row, rows);
    var r := Made(rows, EventOf(ReserveOf(db, now, row)));
    SnocSums(rows, r);
    SnocKeys(rows, r);
    ReservationSums(db, db', row, row.grant, rows, r);
    AllocationKeysAdded(db, db', row, row.grant, rows, rows + [r]);
    ReservationVoids(db, db', row, row.grant, rows, rows + [r]);
  }

  lemma ReservationElsewhere(db: Db, now: int, row: Allocation, g: nat, rows: seq<Row>)
    requires g != row.grant && Tells(db, g, rows)
    ensures Tells(Engine.DoInsertAllocation(db, now, row).db, g, rows)
  {
    var db' := Engine.DoInsertAllocation(db, now, row).db;
    if db' != db {
      var r := Row(SetAside(0, row, db.holdEntries[row.holdEntry].hold), None);
      ReservationSums(db, db', row, g, rows, r);
      AllocationKeysAdded(db, db', row, g, rows, rows);
      ReservationVoids(db, db', row, g, rows, rows);
    }
  }

  /** The log of a grant after a hold is voided: marked if the grant backs it. */
  function AfterVoid(db: Db, g: nat, h: nat, rows: seq<Row>): seq<Row> {
    if Engine.Backs(db, g, h) then Grown(rows, Release(g, h, OpenFor(db, g, h))) else rows
  }

  lemma VoidSums(db: Db, db': Db, g: nat, rows: seq<Row>, h: nat, row: Hold)
    requires TellsSums(db, g, rows) && TellsKeys(db, g, rows) && h < |db.holds|
    requires db' == db.(holds := db.holds[h := row], chains := db'.chains)
    ensures TellsSums(db', g, rows) && TellsKeys(db', g, rows)
  {
    HoldUpdateSums(db, db', g);
  }

  lemma VoidMarks(db: Db, db': Db, g: nat, rows: seq<Row>, more: seq<Row>, h: nat, row: Hold)
    requires Links(db) && TellsVoids(db, g, rows) && h < |db.holds| && db.holds[h].state == Held && row.state == Voided
    requires db' == db.(holds := db.holds[h := row], chains := db'.chains)
    requires forall q: nat :: VoidedIn(more, q) <==> VoidedIn(rows, q) || (q == h && Engine.Backs(db, g, h))
    ensures TellsVoids(db', g, more)
  {
    HoldUpdateSums(db, db', g);
    if !Engine.Backs(db, g, h) {
      forall i: nat | i < |db.allocations| ensures db.allocations[i].amount > 0 {
        assert AllocationLinked(db, db.allocations[i]);
      }
      AllocationSumPositive(db.allocations, ToHold(db, g, h));
    }
  }

  /** After an accepted void, every grant's log is its log in the new tables. */
  lemma ReleaseLogged(db: Db, h: nat, row: Hold, g: nat, rows: seq<Row>)
    requires Links(db) && Tells(db, g, rows) && row.state == Voided
    requires Engine.DoUpdateHold(db, h, row).outcome == Engine.Accepted
    ensures Tells(Engine.DoUpdateHold(db, h, row).db, g, AfterVoid(db, g, h, rows))
  {
    var db' := Engine.DoUpdateHold(db, h, row).db;
    VoidSums(db, db', g, rows, h, row);
    if Engine.Backs(db, g, h) {
      ReleaseDecided(db, g, h, rows);
      var r := Made(rows, Released(h));
      SnocSums(rows, r);
      SnocKeys(rows, r);
      MarkedSums(db', g, rows, r);
      assert Unreleased(rows, h) == Engine.Unconsumed(db, g, h);
      VoidMarks(db, db', g, rows, rows + [r], h, row);
    } else {
      VoidMarks(db, db', g, rows, rows, h, row);
    }
  }

  lemma MarkedSums(db: Db, g: nat, rows: seq<Row>, r: Row)
    requires TellsSums(db, g, rows) && TellsKeys(db, g, rows) && r.event.Released?
    ensures TellsSums(db, g, rows + [r]) && TellsKeys(db, g, rows + [r])
  {
    SnocSums(rows, r);
    SnocKeys(rows, r);
  }

  // ----- statements that leave the log alone

  lemma FrameTells(db: Db, db': Db, g: nat, rows: seq<Row>)
    requires Refs(db) && Links(db) && Frames(db, db') && Tells(db, g, rows)
    ensures Tells(db', g, rows)
  {
    FramedSums(db, db', g);
    NothingAhead(db, g);
  }

  lemma NoRowsOf(db: Db, g: nat)
    requires Links(db) && g >= |db.grants|
    ensures TellsSums(db, g, []) && TellsKeys(db, g, []) && TellsVoids(db, g, [])
  {
    forall i: nat | i < |db.lineage| ensures db.lineage[i].amount > 0 && db.lineage[i].grant != g {
      assert Linked(db, db.lineage[i]);
    }
    forall i: nat | i < |db.allocations| ensures db.allocations[i].amount > 0 && db.allocations[i].grant != g {
      assert AllocationLinked(db, db.allocations[i]);
    }
    forall h: nat ensures AllocatedTo(db, g, h) == 0 && ConsumedThrough(db, g, h) == 0 {
      AllocationSumPositive(db.allocations, ToHold(db, g, h));
      LineageSumPositive(db.lineage, ThroughHold(db, g, h));
    }
    forall k: Kind, t: nat ensures TxSum(db, g, k, t) == 0 {
      LineageSumPositive(db.lineage, OfKindInTx(db, g, k, t));
    }
  }

  lemma AdvanceTells(db: Db, h: nat, row: Hold, g: nat, rows: seq<Row>)
    requires Tells(db, g, rows) && row.state != Voided
    ensures Tells(Engine.DoUpdateHold(db, h, row).db, g, rows)
  {
    var db' := Engine.DoUpdateHold(db, h, row).db;
    if db' != db {
      VoidSums(db, db', g, rows, h, row);
      HoldUpdateSums(db, db', g);
    }
  }

  lemma FreshTells(db: Db, db': Db, g: nat)
    requires Refs(db) && Links(db) && Frames(db, db') && |db.chains| <= g < |db'.chains|
    requires TellsSums(db, g, []) && TellsKeys(db, g, []) && TellsVoids(db, g, [])
    ensures Tells(db', g, [])
  {
    FramedSums(db, db', g);
  }
}
