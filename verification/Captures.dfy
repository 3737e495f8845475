/**
 What is left of a hold can always be captured: whatever part of it is posted in its proportions, the lots
 that back it still have enough set aside, and giving each posting what is left lot by lot attributes it.
 */
module Captures {
  import opened Sums
  import opened Tables
  import opened Engine
  import opened Invariant
  import opened Commits
  import opened Attribution
  import opened HoldLaws
  import opened Flows

  // ----- one posting, lot by lot

  /** What grant g gives when rest is still needed on account a. */
  function Portion(db: Db, h: nat, a: nat, rest: int, g: nat): int {
    if g < |db.grants| && db.grants[g].account == a then
      if Left(db, h)(g) < rest then Left(db, h)(g) else rest
    else 0
  }

  /** What the first n grants give of need. */
  function Given(db: Db, h: nat, a: nat, need: int, n: nat): int {
    if n == 0 then 0
    else Given(db, h, a, need, n - 1) + Portion(db, h, a, need - Given(db, h, a, need, n - 1), n - 1)
  }

  ghost predicate Solvent(db: Db, h: nat) {
    forall g: nat :: Left(db, h)(g) >= 0
  }

  lemma {:induction false} GivenIs(db: Db, h: nat, a: nat, need: int, n: nat)
    requires Solvent(db, h) && need >= 0
    ensures var lots := SumTo(n, OverGrants(db, a, Left(db, h)));
            Given(db, h, a, need, n) == if lots < need then lots else need
    decreases n
  {
    if n > 0 {
      GivenIs(db, h, a, need, n - 1);
      assert OverGrants(db, a, Left(db, h))(n - 1) >= 0;
    }
  }

  /** The shares of posting e among the first n grants. */
  function SharesOf(db: Db, h: nat, a: nat, need: int, e: nat, n: nat): seq<Lineage> {
    if n == 0 then []
    else
      var x := Portion(db, h, a, need - Given(db, h, a, need, n - 1), n - 1);
      SharesOf(db, h, a, need, e, n - 1) + if x > 0 then [Lineage(n - 1, a, e, Consumption, x)] else []
  }

  predicate ShareOf(db: Db, h: nat, a: nat, need: int, e: nat, n: nat, l: Lineage) {
    && l.kind == Consumption && l.account == a && l.entry == e && l.grant < n && l.grant < |db.grants|
    && db.grants[l.grant].account == a && 0 < l.amount <= need && l.amount <= Left(db, h)(l.grant)
  }

  ghost predicate SharesFine(db: Db, h: nat, a: nat, need: int, e: nat, n: nat, shares: seq<Lineage>) {
    forall i: nat :: i < |shares| ==> ShareOf(db, h, a, need, e, n, shares[i])
  }

  lemma NextShare(db: Db, h: nat, a: nat, need: int, e: nat, n: nat)
    ensures var x := Portion(db, h, a, need - Given(db, h, a, need, n), n);
            && Given(db, h, a, need, n + 1) == Given(db, h, a, need, n) + x
            && SharesOf(db, h, a, need, e, n + 1) ==
               if x > 0 then SharesOf(db, h, a, need, e, n) + [Lineage(n, a, e, Consumption, x)]
               else SharesOf(db, h, a, need, e, n)
  {
  }

  /** What is given next is what the lot has or what is still needed, and neither is negative. */
  lemma NextPortion(db: Db, h: nat, a: nat, need: int, n: nat)
    requires Solvent(db, h) && need >= 0
    ensures var x := Portion(db, h, a, need - Given(db, h, a, need, n), n);
            && 0 <= x <= need && x <= Left(db, h)(n) && (x > 0 ==> n < |db.grants| && db.grants[n].account == a)
  {
    GivenIs(db, h, a, need, n);
    SumNonNegative(n, OverGrants(db, a, Left(db, h)));
  }

  lemma FineMore(db: Db, h: nat, a: nat, need: int, e: nat, n: nat, shares: seq<Lineage>, x: int)
    requires SharesFine(db, h, a, need, e, n, shares)
    ensures SharesFine(db, h, a, need, e, n + 1, shares)
    ensures 0 < x <= need && x <= Left(db, h)(n) && n < |db.grants| && db.grants[n].account == a ==>
              SharesFine(db, h, a, need, e, n + 1, shares + [Lineage(n, a, e, Consumption, x)])
  {
  }

  lemma FineNext(db: Db, h: nat, a: nat, need: int, e: nat, n: nat, shares: seq<Lineage>, more: seq<Lineage>)
    requires Solvent(db, h) && need >= 0 && SharesFine(db, h, a, need, e, n, shares)
    requires shares == SharesOf(db, h, a, need, e, n) && more == SharesOf(db, h, a, need, e, n + 1)
    ensures SharesFine(db, h, a, need, e, n + 1, more)
  {
    NextShare(db, h, a, need, e, n);
    NextPortion(db, h, a, need, n);
    FineMore(db, h, a, need, e, n, shares, Portion(db, h, a, need - Given(db, h, a, need, n), n));
  }

  lemma {:induction false} SharesAreFine(db: Db, h: nat, a: nat, need: int, e: nat, n: nat)
    requires Solvent(db, h) && need >= 0
    ensures SharesFine(db, h, a, need, e, n, SharesOf(db, h, a, need, e, n))
    decreases n
  {
    if n > 0 {
      SharesAreFine(db, h, a, need, e, n - 1);
      FineNext(db, h, a, need, e, n - 1, SharesOf(db, h, a, need, e, n - 1), SharesOf(db, h, a, need, e, n));
    }
  }

  lemma SumNext(db: Db, h: nat, a: nat, need: int, e: nat, n: nat)
    requires Solvent(db, h) && need >= 0
    ensures LineageSum(SharesOf(db, h, a, need, e, n + 1), OnEntry(e)) - Given(db, h, a, need, n + 1) ==
            LineageSum(SharesOf(db, h, a, need, e, n), OnEntry(e)) - Given(db, h, a, need, n)
  {
    var x := Portion(db, h, a, need - Given(db, h, a, need, n), n);
    NextShare(db, h, a, need, e, n);
    NextPortion(db, h, a, need, n);
    LineageSumAppend(SharesOf(db, h, a, need, e, n), Lineage(n, a, e, Consumption, x), OnEntry(e));
  }

  lemma {:induction false} SharesSum(db: Db, h: nat, a: nat, need: int, e: nat, n: nat)
    requires Solvent(db, h) && need >= 0
    ensures LineageSum(SharesOf(db, h, a, need, e, n), OnEntry(e)) == Given(db, h, a, need, n)
    decreases n
  {
    if n > 0 {
      SharesSum(db, h, a, need, e, n - 1);
      SumNext(db, h, a, need, e, n - 1);
    }
  }

  /** What the shares take from lot g is in it, and is nothing from a lot not yet asked or of another account. */
  ghost predicate Takes(db: Db, h: nat, a: nat, n: nat, g: nat, shares: seq<Lineage>) {
    var taken := LineageSum(shares, OfGrant(g));
    0 <= taken <= Left(db, h)(g) && (n <= g || (g < |db.grants| && db.grants[g].account != a) ==> taken == 0)
  }

  lemma TakesMore(db: Db, h: nat, a: nat, e: nat, n: nat, g: nat, shares: seq<Lineage>, x: int)
    requires Takes(db, h, a, n, g, shares)
    requires 0 < x <= Left(db, h)(n) && n < |db.grants| && db.grants[n].account == a
    ensures Takes(db, h, a, n + 1, g, shares + [Lineage(n, a, e, Consumption, x)])
  {
    LineageSumAppend(shares, Lineage(n, a, e, Consumption, x), OfGrant(g));
  }

  lemma TakesNext(db: Db, h: nat, a: nat, need: int, e: nat, n: nat, g: nat, shares: seq<Lineage>, more: seq<Lineage>)
    requires Solvent(db, h) && need >= 0 && Takes(db, h, a, n, g, shares)
    requires shares == SharesOf(db, h, a, need, e, n) && more == SharesOf(db, h, a, need, e, n + 1)
    ensures Takes(db, h, a, n + 1, g, more)
  {
    var x := Portion(db, h, a, need - Given(db, h, a, need, n), n);
    NextShare(db, h, a, need, e, n);
    NextPortion(db, h, a, need, n);
    if x > 0 {
      TakesMore(db, h, a, e, n, g, shares, x);
    }
  }

  lemma {:induction false} GrantTaken(db: Db, h: nat, a: nat, need: int, e: nat, n: nat, g: nat)
    requires Solvent(db, h) && need >= 0
    ensures Takes(db, h, a, n, g, SharesOf(db, h, a, need, e, n))
    decreases n
  {
    if n == 0 {
      assert Left(db, h)(g) >= 0;
    } else {
      GrantTaken(db, h, a, need, e, n - 1, g);
      TakesNext(db, h, a, need, e, n - 1, g, SharesOf(db, h, a, need, e, n - 1), SharesOf(db, h, a, need, e, n));
    }
  }

  // ----- all postings

  /** The shares of one posting, on the entry it becomes; none on an account without lots. */
  function Added(db: Db, h: nat, e: Entry, at: nat): seq<Lineage> {
    if GrantEnabled(db, e.account) then SharesOf(db, h, e.account, e.amount, at, |db.grants|) else []
  }

  /** f(0) to f(n - 1), one after the other. */
  function Joined(n: nat, f: nat -> seq<Lineage>): seq<Lineage> {
    if n == 0 then [] else Joined(n - 1, f) + f(n - 1)
  }

  function AddedAt(db: Db, h: nat, postings: seq<Entry>, k: nat): seq<Lineage> {
    if k < |postings| then Added(db, h, postings[k], |db.entries| + k) else []
  }

  function EachAdded(db: Db, h: nat, postings: seq<Entry>): nat -> seq<Lineage> {
    (k: nat) => AddedAt(db, h, postings, k)
  }

  /** The shares of all postings, each on its own entry. */
  function Shares(db: Db, h: nat, postings: seq<Entry>): seq<Lineage> {
    Joined(|postings|, EachAdded(db, h, postings))
  }

  /** On grant-enabled accounts: debits of the transaction's asset, one for each account, within what its lots have. */
  ghost predicate Coverable(db: Db, h: nat, asset: nat, postings: seq<Entry>) {
    && (forall i: nat :: i < |postings| && GrantEnabled(db, postings[i].account) ==>
          && postings[i].amount > 0 && postings[i].asset == asset && db.accounts[postings[i].account].asset == asset
          && postings[i].amount <= GrantSum(db, postings[i].account, Left(db, h)))
    && (forall i: nat, j: nat :: i < j < |postings| && GrantEnabled(db, postings[i].account) ==>
          postings[i].account != postings[j].account)
  }

  lemma {:induction false} Origin(n: nat, f: nat -> seq<Lineage>, l: Lineage) returns (k: nat)
    requires l in Joined(n, f)
    ensures k < n && l in f(k)
    decreases n
  {
    if n == 0 {
      assert false;
    } else if l in Joined(n - 1, f) {
      k := Origin(n - 1, f, l);
    } else {
      k := n - 1;
    }
  }

  lemma ShareOfPosting(db: Db, h: nat, p: Plan, k: nat, l: Lineage)
    requires Solvent(db, h) && Coverable(db, h, p.tx.asset, p.postings)
    requires k < |p.postings| && l in Added(db, h, p.postings[k], |db.entries| + k)
    ensures ShareFits(db, p, l)
  {
    var e := p.postings[k];
    var more := SharesOf(db, h, e.account, e.amount, |db.entries| + k, |db.grants|);
    SharesAreFine(db, h, e.account, e.amount, |db.entries| + k, |db.grants|);
    var i: nat :| i < |more| && more[i] == l;
    assert ShareOf(db, h, e.account, e.amount, |db.entries| + k, |db.grants|, more[i]);
  }

  lemma EachFits(db: Db, h: nat, p: Plan, l: Lineage)
    requires Solvent(db, h) && Coverable(db, h, p.tx.asset, p.postings)
    requires l in Shares(db, h, p.postings)
    ensures ShareFits(db, p, l)
  {
    var k := Origin(|p.postings|, EachAdded(db, h, p.postings), l);
    ShareOfPosting(db, h, p, k, l);
  }

  /** Entries below top, and no lot gives to an entry twice. */
  predicate NoneTwice(shares: seq<Lineage>, top: nat) {
    && (forall i: nat :: i < |shares| ==> shares[i].entry < top)
    && (forall i: nat, j: nat :: i < j < |shares| && shares[i].entry == shares[j].entry ==>
          shares[i].grant != shares[j].grant)
  }

  /** All on one entry, with rising grants. */
  predicate Rising(shares: seq<Lineage>, e: nat, n: nat) {
    && (forall i: nat :: i < |shares| ==> shares[i].entry == e && shares[i].grant < n)
    && (forall i: nat, j: nat :: i < j < |shares| ==> shares[i].grant < shares[j].grant)
  }

  lemma RisingMore(shares: seq<Lineage>, e: nat, n: nat, l: Lineage)
    requires Rising(shares, e, n) && l.entry == e && l.grant == n
    ensures Rising(shares + [l], e, n + 1) && Rising(shares, e, n + 1)
  {
  }

  lemma {:induction false} SharesRise(db: Db, h: nat, a: nat, need: int, e: nat, n: nat)
    ensures Rising(SharesOf(db, h, a, need, e, n), e, n)
    decreases n
  {
    if n > 0 {
      var x := Portion(db, h, a, need - Given(db, h, a, need, n - 1), n - 1);
      SharesRise(db, h, a, need, e, n - 1);
      RisingMore(SharesOf(db, h, a, need, e, n - 1), e, n - 1, Lineage(n - 1, a, e, Consumption, x));
    }
  }

  lemma NoneTwiceMore(shares: seq<Lineage>, e: nat, n: nat, more: seq<Lineage>)
    requires NoneTwice(shares, e) && Rising(more, e, n)
    ensures NoneTwice(shares + more, e + 1)
  {
    var all := shares + more;
    forall i: nat, j: nat | i < j < |all| && all[i].entry == all[j].entry ensures all[i].grant != all[j].grant {
      if i >= |shares| {
        assert all[i] == more[i - |shares|] && all[j] == more[j - |shares|];
      }
    }
  }

  lemma {:induction false} JoinedApart(n: nat, f: nat -> seq<Lineage>, first: nat, grants: nat)
    requires forall k: nat :: k < n ==> Rising(f(k), first + k, grants)
    ensures NoneTwice(Joined(n, f), first + n)
    decreases n
  {
    if n > 0 {
      JoinedApart(n - 1, f, first, grants);
      NoneTwiceMore(Joined(n - 1, f), first + (n - 1), grants, f(n - 1));
    }
  }

  lemma SharesApart(db: Db, h: nat, postings: seq<Entry>)
    ensures NoneTwice(Shares(db, h, postings), |db.entries| + |postings|)
  {
    forall k: nat | k < |postings| ensures Rising(EachAdded(db, h, postings)(k), |db.entries| + k, |db.grants|) {
      SharesRise(db, h, postings[k].account, postings[k].amount, |db.entries| + k, |db.grants|);
    }
    JoinedApart(|postings|, EachAdded(db, h, postings), |db.entries|, |db.grants|);
  }

  // ----- sums over all postings, posting by posting

  function Parts(f: nat -> seq<Lineage>, of: Lineage -> bool): nat -> int {
    (k: nat) => LineageSum(f(k), of)
  }

  lemma {:induction false} SumOfParts(n: nat, f: nat -> seq<Lineage>, of: Lineage -> bool)
    ensures LineageSum(Joined(n, f), of) == SumTo(n, Parts(f, of))
    decreases n
  {
    if n > 0 {
      SumOfParts(n - 1, f, of);
      LineageSumJoined(Joined(n - 1, f), f(n - 1), of);
    }
  }

  lemma {:induction false} OneTerm(n: nat, f: nat -> int, at: nat)
    requires at < n && forall i: nat :: i < n && i != at ==> f(i) == 0
    ensures SumTo(n, f) == f(at)
    decreases n
  {
    if at == n - 1 {
      SumZero(n - 1, f);
    } else {
      OneTerm(n - 1, f, at);
    }
  }

  /** When one of the parts alone counts, it is the sum. */
  lemma OnePart(n: nat, f: nat -> seq<Lineage>, of: Lineage -> bool, at: nat)
    requires at < n && forall k: nat :: k < n && k != at ==> LineageSum(f(k), of) == 0
    ensures LineageSum(Joined(n, f), of) == LineageSum(f(at), of)
  {
    SumOfParts(n, f, of);
    OneTerm(n, Parts(f, of), at);
  }

  lemma NoPart(n: nat, f: nat -> seq<Lineage>, of: Lineage -> bool)
    requires forall k: nat :: k < n ==> LineageSum(f(k), of) == 0
    ensures LineageSum(Joined(n, f), of) == 0
  {
    SumOfParts(n, f, of);
    SumZero(n, Parts(f, of));
  }

  /** One posting takes what the lot has at most, and nothing from a lot of another account. */
  lemma AddedDraws(db: Db, h: nat, e: Entry, at: nat, g: nat)
    requires Solvent(db, h) && g < |db.grants| && (GrantEnabled(db, e.account) ==> e.amount > 0)
    ensures var taken := LineageSum(Added(db, h, e, at), OfGrant(g));
            && 0 <= taken <= Left(db, h)(g)
            && (!GrantEnabled(db, e.account) || e.account != db.grants[g].account ==> taken == 0)
  {
    if GrantEnabled(db, e.account) {
      GrantTaken(db, h, e.account, e.amount, at, |db.grants|, g);
    } else {
      assert Left(db, h)(g) >= 0;
    }
  }

  /** Posting k is the one on the account of lot g. */
  predicate Meets(db: Db, postings: seq<Entry>, g: nat, k: nat)
    requires g < |db.grants|
  {
    k < |postings| && GrantEnabled(db, postings[k].account) && postings[k].account == db.grants[g].account
  }

  lemma PartDraws(db: Db, h: nat, p: Plan, g: nat, k: nat)
    requires Solvent(db, h) && Coverable(db, h, p.tx.asset, p.postings) && g < |db.grants| && k < |p.postings|
    ensures var part := LineageSum(EachAdded(db, h, p.postings)(k), OfGrant(g));
            part <= Left(db, h)(g) && (!Meets(db, p.postings, g, k) ==> part == 0)
  {
    AddedDraws(db, h, p.postings[k], |db.entries| + k, g);
  }

  /** A lot gives only to the posting of its account. */
  lemma WithinLots(db: Db, h: nat, p: Plan, g: nat)
    requires Solvent(db, h) && Coverable(db, h, p.tx.asset, p.postings) && g < |db.grants|
    ensures LineageSum(Shares(db, h, p.postings), OfGrant(g)) <= Left(db, h)(g)
  {
    var n, f := |p.postings|, EachAdded(db, h, p.postings);
    forall k: nat | k < n
      ensures LineageSum(f(k), OfGrant(g)) <= Left(db, h)(g)
      ensures !Meets(db, p.postings, g, k) ==> LineageSum(f(k), OfGrant(g)) == 0
    {
      PartDraws(db, h, p, g, k);
    }
    assert Left(db, h)(g) >= 0;
    if at: nat :| at < n && Meets(db, p.postings, g, at) {
      assert forall k: nat :: k < n && k != at ==> !Meets(db, p.postings, g, k);
      OnePart(n, f, OfGrant(g), at);
    } else {
      NoPart(n, f, OfGrant(g));
    }
  }

  lemma NothingElsewhere(db: Db, h: nat, a: nat, need: int, e: nat, other: nat)
    requires Solvent(db, h) && need >= 0 && other != e
    ensures LineageSum(SharesOf(db, h, a, need, e, |db.grants|), OnEntry(other)) == 0
  {
    var more := SharesOf(db, h, a, need, e, |db.grants|);
    SharesAreFine(db, h, a, need, e, |db.grants|);
    forall i: nat | i < |more| ensures !OnEntry(other)(more[i]) {
      assert ShareOf(db, h, a, need, e, |db.grants|, more[i]);
    }
    SumZero(|more|, LineageTerm(more, OnEntry(other)));
  }

  /** The shares of one posting add up to its amount, and are all on the entry it becomes. */
  lemma AddedGets(db: Db, h: nat, e: Entry, at: nat, entry: nat)
    requires Solvent(db, h)
    requires GrantEnabled(db, e.account) ==> 0 < e.amount <= GrantSum(db, e.account, Left(db, h))
    ensures LineageSum(Added(db, h, e, at), OnEntry(entry)) ==
            if entry == at && GrantEnabled(db, e.account) then e.amount else 0
  {
    if GrantEnabled(db, e.account) {
      if entry == at {
        SharesSum(db, h, e.account, e.amount, at, |db.grants|);
        GivenIs(db, h, e.account, e.amount, |db.grants|);
      } else {
        NothingElsewhere(db, h, e.account, e.amount, at, entry);
      }
    }
  }

  lemma PartGets(db: Db, h: nat, p: Plan, entry: nat, k: nat)
    requires Solvent(db, h) && Coverable(db, h, p.tx.asset, p.postings) && k < |p.postings|
    ensures LineageSum(EachAdded(db, h, p.postings)(k), OnEntry(entry)) ==
            if entry == |db.entries| + k && GrantEnabled(db, p.postings[k].account) then p.postings[k].amount else 0
  {
    AddedGets(db, h, p.postings[k], |db.entries| + k, entry);
  }

  /** Each posting on a grant-enabled account gets its full amount. */
  lemma InFull(db: Db, h: nat, p: Plan, k: nat)
    requires Solvent(db, h) && Coverable(db, h, p.tx.asset, p.postings) && k < |p.postings|
    requires GrantEnabled(db, p.postings[k].account)
    ensures LineageSum(Shares(db, h, p.postings), OnEntry(|db.entries| + k)) == p.postings[k].amount
  {
    var n, f, entry := |p.postings|, EachAdded(db, h, p.postings), |db.entries| + k;
    forall i: nat | i < n ensures LineageSum(f(i), OnEntry(entry)) == if i == k then p.postings[k].amount else 0 {
      PartGets(db, h, p, entry, i);
    }
    OnePart(n, f, OnEntry(entry), k);
  }

  // ----- there is enough

  lemma NegativeProduct(x: int, factor: int)
    requires factor > 0
    ensures x < 0 <==> x * factor < 0
  {
  }

  lemma AtMost(x: int, y: int, original: int, held: int, k: int, remaining: int)
    requires x * original == held * k && held * remaining <= y * original && held >= 0 && k <= remaining && original > 0
    ensures x <= y
  {
    assert held * (remaining - k) >= 0;
    assert held * (remaining - k) == held * remaining - held * k;
    assert (y - x) * original == y * original - x * original;
    NegativeProduct(y - x, original);
  }

  lemma WithDiverted(left: int, off: int, original: int, product: int)
    requires (left - off) * original == product && off >= 0 && original > 0
    ensures product <= left * original
  {
    assert (left - off) * original == left * original - off * original;
    assert off * original >= 0;
  }

  /** The lots of an account have at least the account's part of what remains. */
  lemma LotsEnough(db: Db, h: nat, k: int, a: nat, part: int)
    requires CommittedInv(db) && FullyAttributed(db) && LiveGrantHold(db, h) && db.holds[h].state == Held
    requires GrantEnabled(db, a) && k <= db.holds[h].remaining
    requires Ratio(part, db.holds[h].original, HeldFrom(db, h, a, true), k)
    ensures part <= GrantSum(db, a, Left(db, h))
  {
    HeldProportion(db, h, a);
    GrantSumMinus(db, h, a);
    DivertedZero(db, h, a);
    WithDiverted(GrantSum(db, a, Left(db, h)), GrantSum(db, a, Diverted(db, h)), db.holds[h].original,
                 HeldFrom(db, h, a, true) * db.holds[h].remaining);
    SumNonNegative(|db.holdEntries|, HeldMagnitude(db.holdEntries, HeldOn(db, h, a, true)));
    AtMost(part, GrantSum(db, a, Left(db, h)), db.holds[h].original, HeldFrom(db, h, a, true), k,
           db.holds[h].remaining);
  }

  /** One posting is at most what all postings put on its account and side. */
  lemma PostingWithin(postings: seq<Entry>, i: nat)
    requires i < |postings|
    ensures postings[i].amount > 0 ==> postings[i].amount <= PutOn(postings, postings[i].account, true)
    ensures postings[i].amount < 0 ==> -postings[i].amount <= PutOn(postings, postings[i].account, false)
  {
    var f := Magnitude(postings, OnAccountSide(postings, postings[i].account, true));
    var g := Magnitude(postings, OnAccountSide(postings, postings[i].account, false));
    TermAtMostSum(|postings|, f, i);
    TermAtMostSum(|postings|, g, i);
  }

  /** Postings in proportion, one for each grant-enabled account, are debits there and within the lots. */
  lemma ProportionCovers(db: Db, h: nat, k: int, p: Plan, i: nat)
    requires CommittedInv(db) && FullyAttributed(db) && LiveGrantHold(db, h) && db.holds[h].state == Held
    requires 0 < k <= db.holds[h].remaining && PostsPart(db, h, k, p)
    requires i < |p.postings| && GrantEnabled(db, p.postings[i].account)
    ensures p.postings[i].amount > 0 && p.postings[i].amount <= GrantSum(db, p.postings[i].account, Left(db, h))
  {
    var a := p.postings[i].account;
    assert PostingFits(db, p.postings[i]) && HoldRowOk(db.holds[h]);
    PostingWithin(p.postings, i);
    NoHeldCredit(db, h, a);
    NothingOfNothing(PutOn(p.postings, a, false), db.holds[h].original, HeldFrom(db, h, a, false), k);
    LotsEnough(db, h, k, a, PutOn(p.postings, a, true));
  }

  /** Each grant-enabled account is posted to once, in the one asset of the transaction. */
  predicate OncePerAccount(db: Db, p: Plan) {
    && (forall i: nat :: i < |p.postings| && GrantEnabled(db, p.postings[i].account) ==>
          p.postings[i].asset == p.tx.asset && db.accounts[p.postings[i].account].asset == p.tx.asset)
    && (forall i: nat, j: nat :: i < j < |p.postings| && GrantEnabled(db, p.postings[i].account) ==>
          p.postings[i].account != p.postings[j].account)
  }

  lemma HoldSolvent(db: Db, h: nat)
    requires HoldsCapped(db)
    ensures Solvent(db, h)
  {
    forall g: nat ensures Left(db, h)(g) >= 0 {
      assert ConsumedThrough(db, g, h) <= AllocatedTo(db, g, h);
    }
  }

  /**
   From every committed state that is fully attributed: any part of what remains of a HELD grant hold, up
   to all of it, that is posted in the hold's proportions can be attributed to the lots that back it, and
   the transaction that does so commits.
   */
  lemma AlwaysCapturable(db: Db, now: int, h: nat, k: int, p: Plan, next: int)
    requires CommittedInv(db) && FullyAttributed(db) && LiveGrantHold(db, h) && db.holds[h].state == Held
    requires 0 < k <= db.holds[h].remaining && RowLeft(db.holds[h], k, p.row)
    requires PostsPart(db, h, k, p) && OncePerAccount(db, p)
    ensures exists shares: seq<Lineage> ::
              var q := p.(shares := shares);
              var s := Run(Begin(db, now), CaptureOps(h, q));
              && Exec(s, Commit(next)) == (Begin(s.cur, next), Accepted)
              && s.cur.holds == db.holds[h := p.row] && s.cur.entries == db.entries + p.postings
              && s.cur.lineage == db.lineage + shares
  {
    var q := p.(shares := Shares(db, h, p.postings));
    SharesPlanned(db, h, k, p);
    CaptureCommits(db, now, h, k, q, next);
  }

  lemma SharesPlanned(db: Db, h: nat, k: int, p: Plan)
    requires CommittedInv(db) && FullyAttributed(db) && LiveGrantHold(db, h) && db.holds[h].state == Held
    requires 0 < k <= db.holds[h].remaining && RowLeft(db.holds[h], k, p.row)
    requires PostsPart(db, h, k, p) && OncePerAccount(db, p)
    ensures Capture(db, h, k, p.(shares := Shares(db, h, p.postings)))
  {
    var n := |p.postings|;
    var q := p.(shares := Shares(db, h, p.postings));
    HoldSolvent(db, h);
    forall i: nat | i < n && GrantEnabled(db, p.postings[i].account)
      ensures p.postings[i].amount > 0 && p.postings[i].amount <= GrantSum(db, p.postings[i].account, Left(db, h))
    {
      ProportionCovers(db, h, k, p, i);
    }
    assert Coverable(db, h, p.tx.asset, p.postings);
    SharesShared(db, h, q);
  }

  lemma SharesShared(db: Db, h: nat, q: Plan)
    requires Solvent(db, h) && Coverable(db, h, q.tx.asset, q.postings)
    requires q.shares == Shares(db, h, q.postings)
    ensures Shared(db, h, q)
  {
    forall i: nat | i < |q.shares| ensures ShareFits(db, q, q.shares[i]) {
      EachFits(db, h, q, q.shares[i]);
    }
    SharesApart(db, h, q.postings);
    forall g: nat | g < |db.grants|
      ensures LineageSum(q.shares, OfGrant(g)) <= AllocatedTo(db, g, h) - ConsumedThrough(db, g, h)
    {
      WithinLots(db, h, q, g);
    }
    forall i: nat | i < |q.postings| && GrantEnabled(db, q.postings[i].account)
      ensures LineageSum(q.shares, OnEntry(|db.entries| + i)) == Abs(q.postings[i].amount)
    {
      InFull(db, h, q, i);
    }
  }
}
