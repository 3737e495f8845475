/** Regrouping: what is posted to an account, entry by entry, is what its grants' lineage says, grant by grant. */
module Attribution {
  import opened Sums
  import opened Tables
  import opened Engine
  import opened Invariant

  /** Terms of a sum over the grants of one account. */
  function OverGrants(db: Db, a: nat, f: nat -> int): nat -> int {
    (g: nat) => if g < |db.grants| && db.grants[g].account == a then f(g) else 0
  }

  /** Sum of f over the grants of account a. */
  function GrantSum(db: Db, a: nat, f: nat -> int): int {
    SumTo(|db.grants|, OverGrants(db, a, f))
  }

  function LineageOn(db: Db, pe: nat -> bool): nat -> int {
    (g: nat) => LineageSum(db.lineage, OnEntries(g, pe))
  }

  function AllOnEntries(pe: nat -> bool): Lineage -> bool {
    (l: Lineage) => pe(l.entry)
  }

  function EntryKey(rows: seq<Lineage>): nat -> nat {
    (i: nat) => if i < |rows| then rows[i].entry else 0
  }

  function GrantKey(rows: seq<Lineage>): nat -> nat {
    (i: nat) => if i < |rows| then rows[i].grant else 0
  }

  /** Entry by entry. */
  lemma AttributionByEntry(db: Db, pe: nat -> bool)
    requires Links(db)
    requires forall e: nat :: e < |db.entries| && pe(e) ==> Attributed(db, e) == Abs(db.entries[e].amount)
    ensures EntrySum(db.entries, pe) == LineageSum(db.lineage, AllOnEntries(pe))
  {
    var n, m := |db.entries|, |db.lineage|;
    var key, w, b := EntryKey(db.lineage), LineageTerm(db.lineage, AllOnEntries(pe)), Magnitude(db.entries, pe);
    forall i: nat | i < m ensures key(i) < n {
      assert Linked(db, db.lineage[i]);
    }
    forall e: nat | e < n ensures b(e) == SumTo(m, Bucket(key, w, e)) {
      if pe(e) {
        SumSame(m, LineageTerm(db.lineage, OnEntry(e)), Bucket(key, w, e));
      } else {
        SumZero(m, Bucket(key, w, e));
      }
    }
    SumByKey(n, m, key, w, b);
  }

  /** Grant by grant. */
  lemma AttributionByGrant(db: Db, a: nat, pe: nat -> bool)
    requires Links(db)
    requires forall e: nat :: e < |db.entries| && pe(e) ==> db.entries[e].account == a
    ensures GrantSum(db, a, LineageOn(db, pe)) == LineageSum(db.lineage, AllOnEntries(pe))
  {
    var n, m := |db.grants|, |db.lineage|;
    var key, w, b :=
        GrantKey(db.lineage), LineageTerm(db.lineage, AllOnEntries(pe)), OverGrants(db, a, LineageOn(db, pe));
    forall i: nat | i < m
      ensures key(i) < n && db.lineage[i].entry < |db.entries|
      ensures w(i) != 0 ==> db.grants[key(i)].account == a
    {
      assert Linked(db, db.lineage[i]);
    }
    forall g: nat | g < n ensures b(g) == SumTo(m, Bucket(key, w, g)) {
      if db.grants[g].account == a {
        SumSame(m, LineageTerm(db.lineage, OnEntries(g, pe)), Bucket(key, w, g));
      } else {
        SumZero(m, Bucket(key, w, g));
      }
    }
    SumByKey(n, m, key, w, b);
  }

  /** Fully attributed entries of one account add up to the lineage of the account's grants on them. */
  lemma PostedByGrant(db: Db, a: nat, pe: nat -> bool)
    requires Links(db)
    requires forall e: nat :: e < |db.entries| && pe(e) ==>
               db.entries[e].account == a && Attributed(db, e) == Abs(db.entries[e].amount)
    ensures EntrySum(db.entries, pe) == GrantSum(db, a, LineageOn(db, pe))
  {
    AttributionByEntry(db, pe);
    AttributionByGrant(db, a, pe);
  }

  // ----- the same for held entries and allocations

  function HeldDebits(db: Db, h: nat, a: nat): Allocation -> bool {
    (l: Allocation) => HeldOn(db, h, a, true)(l.holdEntry)
  }

  function HoldEntryKey(rows: seq<Allocation>): nat -> nat {
    (i: nat) => if i < |rows| then rows[i].holdEntry else 0
  }

  function AllocationGrantKey(rows: seq<Allocation>): nat -> nat {
    (i: nat) => if i < |rows| then rows[i].grant else 0
  }

  function AllocatedFor(db: Db, h: nat): nat -> int {
    (g: nat) => AllocatedTo(db, g, h)
  }

  lemma HeldByEntry(db: Db, h: nat, a: nat)
    requires Links(db)
    requires GrantEnabled(db, a) && forall he: nat :: HoldEntryAllocated(db, he)
    ensures HeldFrom(db, h, a, true) == AllocationSum(db.allocations, HeldDebits(db, h, a))
  {
    var n, m := |db.holdEntries|, |db.allocations|;
    var key, w := HoldEntryKey(db.allocations), AllocationTerm(db.allocations, HeldDebits(db, h, a));
    var b := HeldMagnitude(db.holdEntries, HeldOn(db, h, a, true));
    forall i: nat | i < m ensures key(i) < n {
      assert AllocationLinked(db, db.allocations[i]);
    }
    forall he: nat | he < n ensures b(he) == SumTo(m, Bucket(key, w, he)) {
      if HeldOn(db, h, a, true)(he) {
        assert HoldEntryAllocated(db, he);
        SumSame(m, AllocationTerm(db.allocations, ToHoldEntry(he)), Bucket(key, w, he));
      } else {
        SumZero(m, Bucket(key, w, he));
      }
    }
    SumByKey(n, m, key, w, b);
  }

  /** What a hold reserves on a grant-enabled account is what its allocations take from the account's grants. */
  lemma HeldByGrant(db: Db, h: nat, a: nat)
    requires Links(db)
    requires GrantEnabled(db, a) && forall he: nat :: HoldEntryAllocated(db, he)
    ensures HeldFrom(db, h, a, true) == GrantSum(db, a, AllocatedFor(db, h))
  {
    HeldByEntry(db, h, a);
    var n, m := |db.grants|, |db.allocations|;
    var key, w := AllocationGrantKey(db.allocations), AllocationTerm(db.allocations, HeldDebits(db, h, a));
    var b := OverGrants(db, a, AllocatedFor(db, h));
    forall i: nat | i < m
      ensures key(i) < n && db.grants[key(i)].account == db.holdEntries[db.allocations[i].holdEntry].account
    {
      assert AllocationLinked(db, db.allocations[i]);
    }
    forall g: nat | g < n ensures b(g) == SumTo(m, Bucket(key, w, g)) {
      if db.grants[g].account == a {
        forall i: nat | i < m ensures AllocationTerm(db.allocations, ToHold(db, g, h))(i) == Bucket(key, w, g)(i) {
          if db.allocations[i].grant == g {
            assert AllocationLinked(db, db.allocations[i]);
            assert HoldEntryAllocated(db, db.allocations[i].holdEntry);
          }
        }
        SumSame(m, AllocationTerm(db.allocations, ToHold(db, g, h)), Bucket(key, w, g));
      } else {
        SumZero(m, Bucket(key, w, g));
      }
    }
    SumByKey(n, m, key, w, b);
  }
}
