/** The life of a hold, reached: every falling sequence of remainders is some run, and may end either way. */
module Histories {
  import opened Tables
  import opened Engine
  import opened HoldLaws

  /** Positive remainders below n, each less than the one before. */
  predicate Falls(n: int, rs: seq<int>) {
    && (forall i: nat :: i < |rs| ==> 0 < rs[i] < n)
    && (forall i: nat, j: nat :: i < j < |rs| ==> rs[j] < rs[i])
  }

  function Last(n: int, rs: seq<int>): int {
    if rs == [] then n else rs[|rs| - 1]
  }

  function Partly(n: int, remaining: int): Hold {
    Hold(Held, n, remaining, None, None)
  }

  /** A hold of n, then one capture in part for every remainder. */
  function Captures(n: int, rs: seq<int>): (ops: seq<Op>)
    ensures |ops| == |rs| + 1
  {
    if rs == [] then [InsertHold(Partly(n, n))]
    else Captures(n, rs[..|rs| - 1]) + [UpdateHold(0, Partly(n, rs[|rs| - 1]))]
  }

  /** Nothing but this hold, with its own checks waiting. */
  ghost predicate OnlyHold(s: Session, now: int, row: Hold) {
    && s.base == EMPTY && s.cur == EMPTY.(holds := [row]) && s.now == now
    && forall i: nat :: i < |s.queue| ==> s.queue[i] == HoldTouched(0)
  }

  lemma Opened(now: int, n: int)
    requires n > 0
    ensures var (s, outcome) := Exec(Begin(EMPTY, now), InsertHold(Partly(n, n)));
            OnlyHold(s, now, Partly(n, n)) && outcome == Accepted
  {
  }

  lemma Advanced(s: Session, now: int, was: Hold, row: Hold)
    requires OnlyHold(s, now, was)
    requires was.state == Held && row.original == was.original
    requires || (row.state == Held && 0 < row.remaining < was.remaining && row.appliedAt == None &&
                 row.voidedAt == None)
             || (row.state == Applied && row.remaining == 0 && row.appliedAt.Some? && row.voidedAt == None)
             || (row.state == Voided && row.remaining == 0 && row.appliedAt == None && row.voidedAt.Some?)
    ensures OnlyHold(Exec(s, UpdateHold(0, row)).0, now, row) && Exec(s, UpdateHold(0, row)).1 == Accepted
  {
    assert [was][0 := row] == [row];
    assert Statement(s.cur, s.now, UpdateHold(0, row)).db == EMPTY.(holds := [row]);
  }

  lemma Snoc(now: int, ops: seq<Op>, op: Op)
    ensures Run(Begin(EMPTY, now), ops + [op]) == Exec(Run(Begin(EMPTY, now), ops), op).0
    ensures var (committed, working) := Updates(now, ops, 0);
            op.UpdateHold? && op.id == 0 && Exec(Run(Begin(EMPTY, now), ops), op).1 == Accepted ==>
              Updates(now, ops + [op], 0) == (committed, working + 1)
  {
    assert (ops + [op])[..|ops|] == ops;
  }

  lemma {:induction false} CapturesRun(now: int, n: int, rs: seq<int>)
    requires n > 0 && Falls(n, rs)
    ensures OnlyHold(Run(Begin(EMPTY, now), Captures(n, rs)), now, Partly(n, Last(n, rs)))
    ensures Updates(now, Captures(n, rs), 0) == (0, |rs|)
    decreases |rs|
  {
    if rs == [] {
      assert [] + [InsertHold(Partly(n, n))] == Captures(n, []);
      Snoc(now, [], InsertHold(Partly(n, n)));
      Opened(now, n);
    } else {
      var init, op := rs[..|rs| - 1], UpdateHold(0, Partly(n, rs[|rs| - 1]));
      CapturesRun(now, n, init);
      Advanced(Run(Begin(EMPTY, now), Captures(n, init)), now, Partly(n, Last(n, init)), Partly(n, Last(n, rs)));
      Snoc(now, Captures(n, init), op);
    }
  }

  /** What remains of hold 0 after each statement. */
  function Trace(now: int, ops: seq<Op>): seq<int> {
    if ops == [] then []
    else
      var holds := Run(Begin(EMPTY, now), ops).cur.holds;
      Trace(now, ops[..|ops| - 1]) + if holds == [] then [] else [holds[0].remaining]
  }

  lemma TraceSnoc(now: int, ops: seq<Op>, op: Op)
    requires Run(Begin(EMPTY, now), ops + [op]).cur.holds != []
    ensures Trace(now, ops + [op]) == Trace(now, ops) + [Run(Begin(EMPTY, now), ops + [op]).cur.holds[0].remaining]
  {
    assert (ops + [op])[..|ops|] == ops;
  }

  /**
   Every history is reached: for each original amount and each falling sequence of remainders, a run
   leaves exactly these remainders one after another, every statement accepted.
   */
  lemma {:induction false} HistoryReached(now: int, n: int, rs: seq<int>)
    requires n > 0 && Falls(n, rs)
    ensures Trace(now, Captures(n, rs)) == [n] + rs && Updates(now, Captures(n, rs), 0).1 == |rs|
    decreases |rs|
  {
    CapturesRun(now, n, rs);
    if rs == [] {
      assert [] + [InsertHold(Partly(n, n))] == Captures(n, []);
      TraceSnoc(now, [], InsertHold(Partly(n, n)));
    } else {
      var init := rs[..|rs| - 1];
      HistoryReached(now, n, init);
      TraceSnoc(now, Captures(n, init), UpdateHold(0, Partly(n, rs[|rs| - 1])));
      assert [n] + rs == [n] + init + [rs[|rs| - 1]];
    }
  }

  lemma OnlyHoldCommits(s: Session, now: int, row: Hold, next: int)
    requires OnlyHold(s, now, row)
    ensures Exec(s, Commit(next)) == (Begin(EMPTY.(holds := [row]), next), Accepted)
  {
    assert !GrantHold(s.cur, 0);
    forall i: nat | i < |s.queue| ensures Passes(s.cur, s.now, s.queue[i]) {
      assert HoldConsistent(s.cur, 0);
    }
  }

  function Ending(n: int, applied: bool, at: int): Hold {
    if applied then Hold(Applied, n, 0, Some(at), None) else Hold(Voided, n, 0, None, Some(at))
  }

  /** From any remainder it may be applied or voided, with one more accepted update, and is committed so. */
  lemma HistoryEnds(now: int, n: int, rs: seq<int>, applied: bool, at: int, next: int)
    requires n > 0 && Falls(n, rs)
    ensures var ops := Captures(n, rs) + [UpdateHold(0, Ending(n, applied, at))];
            && Updates(now, ops, 0).1 == |rs| + 1
            && Exec(Run(Begin(EMPTY, now), ops), Commit(next)).1 == Accepted
            && Run(Begin(EMPTY, now), ops + [Commit(next)]).base.holds == [Ending(n, applied, at)]
  {
    var op := UpdateHold(0, Ending(n, applied, at));
    CapturesRun(now, n, rs);
    Advanced(Run(Begin(EMPTY, now), Captures(n, rs)), now, Partly(n, Last(n, rs)), Ending(n, applied, at));
    Snoc(now, Captures(n, rs), op);
    OnlyHoldCommits(Run(Begin(EMPTY, now), Captures(n, rs) + [op]), now, Ending(n, applied, at), next);
    Snoc(now, Captures(n, rs) + [op], Commit(next));
  }

  function Down(k: nat): (rs: seq<int>)
    ensures |rs| == k && forall i: nat :: i < k ==> rs[i] == k - i
  {
    seq(k, (i: nat) => k - i)
  }

  /** So the bound on updates is exact: a hold of n can take n of them. */
  lemma UpdatesReach(now: int, n: nat)
    requires n > 0
    ensures exists ops: seq<Op> ::
              Updates(now, ops, 0).1 == n && Run(Begin(EMPTY, now), ops).cur.holds == [Ending(n, true, now)]
  {
    var rs := Down(n - 1);
    var op := UpdateHold(0, Ending(n, true, now));
    CapturesRun(now, n, rs);
    Advanced(Run(Begin(EMPTY, now), Captures(n, rs)), now, Partly(n, Last(n, rs)), Ending(n, true, now));
    Snoc(now, Captures(n, rs), op);
    assert Updates(now, Captures(n, rs) + [op], 0).1 == n;
  }
}
