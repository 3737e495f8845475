/**
 Migration 0002: postings change from a direction and a positive amount to one signed amount. The
 lineage validator and the attribution check are written here once over each shape. The validators
 agree on all states over some postings exactly when none of these is negative, the attribution
 checks on every state whose amounts are positive.
 */
module Migration {
  import opened Sums
  import opened Tables
  import opened Engine
  import opened Invariant

  datatype Direction = Debit | Credit

  datatype DirectedEntry = DirectedEntry(tx: nat, account: nat, direction: Direction, amount: int, asset: nat)

  /** The tables before the migration; no holds on grants exist yet. */
  datatype DirectedDb = DirectedDb(
    accounts: seq<Account>,
    txs: seq<Transaction>,
    entries: seq<DirectedEntry>,
    grants: seq<Grant>,
    lineage: seq<Lineage>,
    chains: seq<seq<Version>>)

  // ----- the data rewrite

  function Signed(e: DirectedEntry): Entry {
    Entry(e.tx, e.account, if e.direction == Credit then -e.amount else e.amount, e.asset)
  }

  function SignedRows(rows: seq<DirectedEntry>): (signed: seq<Entry>)
    ensures |signed| == |rows| && forall i: nat :: i < |rows| ==> signed[i] == Signed(rows[i])
  {
    seq(|rows|, (i: nat) requires i < |rows| => Signed(rows[i]))
  }

  function Migrate(db: DirectedDb): Db {
    Db(db.accounts, db.txs, SignedRows(db.entries), db.grants, db.lineage, [], [], [], db.chains)
  }

  /** UPDATE entries SET signed_amount_minor = -signed_amount_minor WHERE direction = 'CREDIT', in place. */
  method RewriteAmounts(amounts: array<int>, rows: seq<DirectedEntry>)
    requires amounts.Length == |rows| && forall i: nat :: i < |rows| ==> amounts[i] == rows[i].amount
    modifies amounts
    ensures amounts[..] == seq(|rows|, (i: nat) requires i < |rows| => Signed(rows[i]).amount)
  {
    for i := 0 to amounts.Length
      invariant forall j: nat :: j < i ==> amounts[j] == Signed(rows[j]).amount
      invariant forall j: nat :: i <= j < |rows| ==> amounts[j] == rows[j].amount
    {
      if rows[i].direction == Credit {
        amounts[i] := -amounts[i];
      }
    }
  }

  /** The sign carries the direction and the magnitude exactly when the amount was positive. */
  lemma SignIsFaithful(e: DirectedEntry)
    ensures e.amount > 0 <==>
            && (e.direction == Debit <==> Signed(e).amount > 0) && (e.direction == Credit <==> Signed(e).amount < 0)
            && Abs(Signed(e).amount) == e.amount
  {
  }

  // ----- the validator of the initial schema, by direction

  function DirectedTx(db: DirectedDb, e: nat): Option<nat> {
    if e < |db.entries| && db.entries[e].tx < |db.txs| then Some(db.entries[e].tx) else None
  }

  function DirectedKindInTx(db: DirectedDb, g: nat, k: Kind, t: nat): Lineage -> bool {
    (l: Lineage) => l.grant == g && l.kind == k && DirectedTx(db, l.entry) == Some(t)
  }

  function DirectedTerm(db: DirectedDb, t: nat, a: nat, direction: Direction): nat -> int {
    (e: nat) =>
      if e < |db.entries| && db.entries[e].tx == t && db.entries[e].account == a && db.entries[e].direction == direction
      then db.entries[e].amount else 0
  }

  function DirectedSide(db: DirectedDb, t: nat, a: nat, direction: Direction): int {
    SumTo(|db.entries|, DirectedTerm(db, t, a, direction))
  }

  predicate DirectedScope(db: DirectedDb, row: Lineage) {
    && row.grant < |db.grants| && row.grant < |db.chains| && db.grants[row.grant].account == row.account
    && row.entry < |db.entries| && db.entries[row.entry].account == row.account
    && db.entries[row.entry].tx < |db.txs|
    && row.account < |db.accounts|
    && db.entries[row.entry].asset == db.accounts[row.account].asset
    && db.txs[db.entries[row.entry].tx].asset == db.accounts[row.account].asset
    && row.amount <= db.entries[row.entry].amount
  }

  predicate DirectedValid(db: DirectedDb, now: int, row: Lineage) {
    DirectedScope(db, row) &&
    var g, e, c := db.grants[row.grant], db.entries[row.entry], Latest(db.chains[row.grant]);
    var t := db.txs[e.tx];
    match row.kind
    case Issuance =>
      e.tx == g.source && e.direction == Credit && row.amount == e.amount && !Expired(g.expiresAt, now)
    case Reversal =>
      && NotFalse(t.relation, Reverses) && NotFalse(t.related, g.source) && e.direction == Debit
        && row.amount == e.amount
      && c.granted > 0 && row.amount == c.granted && c.remaining == c.granted && c.consumed == 0 && c.expired == 0
    case Consumption =>
      && e.direction == Debit && row.amount <= c.remaining
      && !Expired(g.expiresAt, t.effectiveAt) && !Expired(g.expiresAt, now)
    case Compensation =>
      && e.direction == Credit && NotFalse(t.relation, Reverses) && t.related.Some?
      && var source := LineageSum(db.lineage, DirectedKindInTx(db, row.grant, Consumption, t.related.value));
      && source != 0
      && LineageSum(db.lineage, DirectedKindInTx(db, row.grant, Compensation, e.tx)) + row.amount <= source
    case Expiration =>
      && Expired(g.expiresAt, t.effectiveAt) && Expired(g.expiresAt, now) && e.direction == Debit
      && row.amount == e.amount && row.amount <= c.remaining
      && DirectedSide(db, e.tx, g.funding, Credit) == row.amount
    case Refund => true // a kind added later: the ELSIF chain tests none of its own for it
  }

  /** assert_grant_entry_attributed as migration 0001 leaves it. */
  predicate DirectedAttributed(db: DirectedDb, e: nat) {
    e < |db.entries| && db.entries[e].account < |db.accounts| && db.accounts[db.entries[e].account].grantEnabled ==>
      var row := db.entries[e];
      && LineageSum(db.lineage, OnEntry(e)) == row.amount
      && (row.tx < |db.txs| && db.txs[row.tx].relation == Some(Reverses) ==>
            && db.txs[row.tx].related.Some?
            && var original :=
              DirectedSide(db, db.txs[row.tx].related.value, row.account,
                           if row.direction == Credit then Debit else Credit);
            original != 0 && DirectedSide(db, row.tx, row.account, row.direction) == original)
  }

  // ----- the validator of migration 0002, by sign

  predicate SignedValid(db: Db, now: int, row: Lineage) {
    InScope(db, row) &&
    var g, e, c := db.grants[row.grant], db.entries[row.entry], Current(db, row.grant);
    var t := db.txs[e.tx];
    match row.kind
    case Issuance =>
      e.tx == g.source && e.amount < 0 && row.amount == Abs(e.amount) && !Expired(g.expiresAt, now)
    case Reversal =>
      && NotFalse(t.relation, Reverses) && NotFalse(t.related, g.source) && e.amount > 0 && row.amount == Abs(e.amount)
      && c.granted > 0 && row.amount == c.granted && c.remaining == c.granted && c.consumed == 0 && c.expired == 0
    case Consumption =>
      && e.amount > 0 && row.amount <= c.remaining
      && !Expired(g.expiresAt, t.effectiveAt) && !Expired(g.expiresAt, now)
    case Compensation =>
      && e.amount < 0 && NotFalse(t.relation, Reverses) && t.related.Some?
      && TxSum(db, row.grant, Consumption, t.related.value) != 0
      && TxSum(db, row.grant, Compensation, e.tx) + row.amount <= TxSum(db, row.grant, Consumption, t.related.value)
    case Expiration =>
      && Expired(g.expiresAt, t.effectiveAt) && Expired(g.expiresAt, now) && e.amount > 0
      && row.amount == Abs(e.amount) && row.amount <= c.remaining
      && FundingCredit(db, e.tx, g.funding) == row.amount
    case Refund => true
  }

  // ----- the two shapes agree

  ghost predicate PositiveAmounts(db: DirectedDb) {
    forall e: nat :: e < |db.entries| ==> db.entries[e].amount > 0
  }

  ghost predicate NoneNegative(es: seq<DirectedEntry>) {
    forall e: nat :: e < |es| ==> es[e].amount >= 0
  }

  lemma SidesAgree(db: DirectedDb, t: nat, a: nat)
    requires NoneNegative(db.entries)
    ensures DirectedSide(db, t, a, Credit) == TxSide(Migrate(db), t, a, false) == FundingCredit(Migrate(db), t, a)
    ensures DirectedSide(db, t, a, Debit) == TxSide(Migrate(db), t, a, true)
  {
    var n, db' := |db.entries|, Migrate(db);
    SumSame(n, DirectedTerm(db, t, a, Credit), Magnitude(db'.entries, PostedBy(db', t, a, false)));
    SumSame(n, DirectedTerm(db, t, a, Debit), Magnitude(db'.entries, PostedBy(db', t, a, true)));
  }

  lemma TxSumsAgree(db: DirectedDb, g: nat, k: Kind, t: nat)
    ensures LineageSum(db.lineage, DirectedKindInTx(db, g, k, t)) == TxSum(Migrate(db), g, k, t)
  {
    var p, q := DirectedKindInTx(db, g, k, t), OfKindInTx(Migrate(db), g, k, t);
    forall i: nat | i < |db.lineage|
      ensures DirectedTx(db, db.lineage[i].entry) == TxOf(Migrate(db), db.lineage[i].entry)
    {
    }
    SumSame(|db.lineage|, LineageTerm(db.lineage, p), LineageTerm(db.lineage, q));
  }

  predicate JudgedAlike(db: DirectedDb, now: int, row: Lineage) {
    DirectedValid(db, now, row) <==> SignedValid(Migrate(db), now, row)
  }

  /** Every state over these postings, whatever its other tables hold, judges every row that meets its CHECK alike. */
  ghost predicate AllJudgedAlike(es: seq<DirectedEntry>) {
    forall db: DirectedDb, now: int, row: Lineage :: db.entries == es && row.amount > 0 ==> JudgedAlike(db, now, row)
  }

  lemma RowJudgedAlike(db: DirectedDb, now: int, row: Lineage)
    requires NoneNegative(db.entries) && row.amount > 0
    ensures JudgedAlike(db, now, row)
  {
    if DirectedScope(db, row) {
      var e := db.entries[row.entry];
      SidesAgree(db, e.tx, db.grants[row.grant].funding);
      TxSumsAgree(db, row.grant, Compensation, e.tx);
      if db.txs[e.tx].related.Some? {
        TxSumsAgree(db, row.grant, Consumption, db.txs[e.tx].related.value);
      }
    }
  }

  /** One grant of n on the account of posting e, issued by its transaction and untouched. */
  function Around(es: seq<DirectedEntry>, e: nat, n: nat): DirectedDb
    requires e < |es|
  {
    var p := es[e];
    DirectedDb(
      seq(p.account + 1, _ => Account(true, p.asset, CreditSide, false)),
      seq(p.tx + 1, _ => Transaction(None, None, None, 0, p.asset)),
      es, [Grant(p.account, p.account + 1, p.tx, None)], [],
      [[Version(1, FromLineage(e), Capacity(n, 0, 0, 0, 0, n, 0))]])
  }

  /**
   A credit of -n has become a debit, which a consumption may draw on, a debit of -n a credit, which an
   issuance may.
   */
  lemma NegativeSeparates(es: seq<DirectedEntry>, e: nat)
    requires e < |es| && es[e].amount < 0
    ensures var p := es[e];
            var row := Lineage(0, p.account, e, if p.direction == Credit then Consumption else Issuance, -p.amount);
            !JudgedAlike(Around(es, e, -p.amount), 0, row)
  {
    var p := es[e];
    var db := Around(es, e, -p.amount);
    assert Migrate(db).entries[e] == Signed(p);
    assert Current(Migrate(db), 0).remaining == -p.amount;
  }

  /** The two validators judge all states over some postings alike if and only if none of these is negative. */
  lemma ValidatorsAgree(es: seq<DirectedEntry>)
    ensures AllJudgedAlike(es) <==> NoneNegative(es)
  {
    if NoneNegative(es) {
      forall db: DirectedDb, now: int, row: Lineage | db.entries == es && row.amount > 0
        ensures JudgedAlike(db, now, row)
      {
        RowJudgedAlike(db, now, row);
      }
    } else {
      var e: nat :| e < |es| && es[e].amount < 0;
      NegativeSeparates(es, e);
    }
  }

  /** Later migrations extend this validator: while there is no hold they change it for no kind it knows. */
  lemma ExtendedLater(db: Db, now: int, row: Lineage)
    requires Inv(db) && db.holds == [] && row.kind != Refund
    ensures SignedValid(db, now, row) <==> InScope(db, row) && KindValid(db, now, row)
  {
    if row.grant < |db.chains| {
      assert Current(db, row.grant) == Totals(db, row.grant);
    }
    if InScope(db, row) {
      assert db.txs[db.entries[row.entry].tx].hold == None;
    }
  }

  /** Every entry passes the attribution check before the migration exactly when it passes it after. */
  lemma AttributionAgrees(db: DirectedDb, e: nat)
    requires PositiveAmounts(db)
    ensures DirectedAttributed(db, e) <==> EntryAttributed(Migrate(db), e)
  {
    if e < |db.entries| && db.entries[e].tx < |db.txs| {
      var row := db.entries[e];
      SidesAgree(db, row.tx, row.account);
      if db.txs[row.tx].related.Some? {
        SidesAgree(db, db.txs[row.tx].related.value, row.account);
      }
    }
  }

  // ----- with a negative amount

  /** The CHECKs, keys and foreign keys of the initial schema and of migration 0001, on these tables. */
  ghost predicate SchemaHolds(db: DirectedDb) {
    && (forall i: nat :: i < |db.accounts| ==> AccountValid(db.accounts[i]))
    && (forall i: nat :: i < |db.txs| ==> RelationPaired(db.txs[i]))
    && (forall i: nat :: i < |db.entries| ==> db.entries[i].tx < |db.txs| && db.entries[i].account < |db.accounts|)
    && (forall i: nat :: i < |db.grants| ==>
          && db.grants[i].account < |db.accounts| && db.grants[i].funding < |db.accounts|
            && db.grants[i].source < |db.txs|
          && db.grants[i].account != db.grants[i].funding)
    && (forall i: nat, j: nat :: i < j < |db.grants| ==> db.grants[i].source != db.grants[j].source)
    && (forall i: nat, j: nat :: i < j < |db.lineage| && db.lineage[i].grant == db.lineage[j].grant ==>
          db.lineage[i].entry != db.lineage[j].entry)
    && (forall i: nat :: i < |db.lineage| ==> db.lineage[i].amount > 0 && DirectedScope(db, db.lineage[i]))
    && |db.chains| == |db.grants|
    && (forall g: nat, i: nat :: g < |db.chains| && i < |db.chains[g]| ==>
          && db.chains[g][i].number == i + 1 && CapacityOk(db.chains[g][i].capacity)
          && VersionOfLineage(db, g, db.chains[g][i].source))
  }

  ghost predicate VersionOfLineage(db: DirectedDb, g: nat, source: Source) {
    exists i: nat :: i < |db.lineage| && db.lineage[i].grant == g && source == FromLineage(db.lineage[i].entry)
  }

  /**
   A credit account takes a CREDIT of -5 before it has any grant, when nothing checks it, and then a
   grant of 5; migration 0001 leaves such an account without the capability.
   */
  const EARLY := DirectedDb(
    [Account(false, 0, CreditSide, false), Account(false, 0, DebitSide, true)],
    [Transaction(None, None, None, 0, 0), Transaction(None, None, None, 0, 0)],
    [DirectedEntry(0, 0, Credit, -5, 0), DirectedEntry(0, 1, Debit, -5, 0),
     DirectedEntry(1, 0, Credit, 5, 0), DirectedEntry(1, 1, Debit, 5, 0)],
    [Grant(0, 1, 1, None)], [Lineage(0, 0, 2, Issuance, 5)],
    [[Version(1, FromLineage(2), Capacity(5, 0, 0, 0, 0, 5, 0))]])

  lemma EarlyHolds()
    ensures SchemaHolds(EARLY) && DirectedValid(EARLY.(lineage := [], chains := [[]]), 0, EARLY.lineage[0])
    ensures forall e: nat :: DirectedAttributed(EARLY, e)
  {
    forall g: nat, i: nat | g < |EARLY.chains| && i < |EARLY.chains[g]|
      ensures VersionOfLineage(EARLY, g, EARLY.chains[g][i].source)
    {
      assert EARLY.lineage[0].grant == g && EARLY.chains[g][i].source == FromLineage(EARLY.lineage[0].entry);
    }
  }

  /**
   One input, on tables the schema holds: a CREDIT of -5 becomes a
   debit of 5, and a consumption of it starts to pass.
   */
  lemma NegativeAmountDisagrees()
    ensures exists db: DirectedDb, row: Lineage ::
              && SchemaHolds(db) && (forall e: nat :: DirectedAttributed(db, e)) && LineageKeyFree(Migrate(db), row)
              && !DirectedValid(db, 0, row) && SignedValid(Migrate(db), 0, row)
  {
    EarlyHolds();
    var row := Lineage(0, 0, 0, Consumption, 5);
    assert Migrate(EARLY).entries[0] == Entry(0, 0, 5, 0);
    assert Current(Migrate(EARLY), 0) == Capacity(5, 0, 0, 0, 0, 5, 0);
    assert SignedValid(Migrate(EARLY), 0, row);
    assert !DirectedValid(EARLY, 0, row);
    assert LineageKeyFree(Migrate(EARLY), row);
  }
}
