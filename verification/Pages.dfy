/** Keyset pages of holds, followed by their cursors while other sessions keep inserting rows. */
module Pages {
  /** Where the next page starts: not asked yet, after an id, or there is none. */
  datatype Cursor = Begin | After(id: int) | Done

  datatype Page = Page(data: seq<int>, next: Cursor)

  datatype Progress = Progress(data: seq<int>, cursor: Cursor)

  /** The rows each request sees, as ids in index order. */
  type History = nat -> seq<int>

  predicate Sorted(s: seq<int>) {
    forall i: nat, j: nat :: i < j < |s| ==> s[i] < s[j]
  }

  predicate Beyond(id: int, cursor: Cursor) {
    match cursor
    case Begin => true
    case After(last) => id > last
    case Done => false
  }

  function Above(rows: seq<int>, cursor: Cursor): seq<int> {
    if rows == [] then []
    else (if Beyond(rows[0], cursor) then [rows[0]] else []) + Above(rows[1..], cursor)
  }

  function Limited(rows: seq<int>, n: nat): (r: seq<int>)
    ensures r <= rows && |r| == if |rows| < n then |rows| else n
  {
    if |rows| < n then rows else rows[..n]
  }

  /** One request: a row more than the page shows whether another page follows. */
  function Fetch(rows: seq<int>, cursor: Cursor, limit: nat): Page
    requires limit >= 1
  {
    var found := Limited(Above(rows, cursor), limit + 1);
    Page(Limited(found, limit), if |found| > limit then After(found[limit - 1]) else Done)
  }

  function Advance(rows: seq<int>, limit: nat, p: Progress): Progress
    requires limit >= 1
  {
    if p.cursor.Done? then p
    else
      var page := Fetch(rows, p.cursor, limit);
      Progress(p.data + page.data, page.next)
  }

  /** What has been collected after k requests. */
  function Collect(history: History, limit: nat, k: nat): Progress
    requires limit >= 1
  {
    if k == 0 then Progress([], Begin)
    else Advance(history(k - 1), limit, Collect(history, limit, k - 1))
  }

  predicate Within(a: seq<int>, b: seq<int>) {
    forall i: nat :: i < |a| ==> a[i] in b
  }

  /** From request j to request k rows were inserted anywhere, and none was deleted. */
  predicate Grows(history: History, j: nat, k: nat) {
    Sorted(history(j)) && (j <= k ==> Within(history(j), history(k)))
  }

  ghost predicate Growing(history: History) {
    forall j: nat, k: nat :: Grows(history, j, k)
  }

  // ----- one page

  lemma {:induction false} AboveExact(rows: seq<int>, cursor: Cursor)
    requires Sorted(rows)
    ensures Sorted(Above(rows, cursor))
    ensures forall id :: id in Above(rows, cursor) <==> id in rows && Beyond(id, cursor)
  {
    if rows != [] {
      AboveExact(rows[1..], cursor);
      var rest := Above(rows[1..], cursor);
      assert rows == [rows[0]] + rows[1..];
      forall x, y | x in [rows[0]] && y in rest ensures x < y {
        assert y in rows[1..];
      }
      Joined([rows[0]], rest);
    }
  }

  lemma {:induction false} LimitedExact(rows: seq<int>, n: nat)
    requires Sorted(rows) && n >= 1
    ensures Sorted(Limited(rows, n))
    ensures |rows| > n ==> forall id :: id in Limited(rows, n) <==> id in rows && id <= rows[n - 1]
  {
    if |rows| > n {
      forall id | id in rows && id <= rows[n - 1] ensures id in Limited(rows, n) {
        var i :| 0 <= i < |rows| && rows[i] == id;
        assert rows[..n][i] == id;
      }
    }
  }

  predicate UpTo(id: int, next: Cursor) {
    next.Done? || !Beyond(id, next)
  }

  /** A page is, in order, exactly the rows after its cursor up to the one it hands out. */
  lemma {:induction false} PageExact(rows: seq<int>, cursor: Cursor, limit: nat)
    requires limit >= 1 && Sorted(rows) && !cursor.Done?
    ensures var page := Fetch(rows, cursor, limit);
            && Sorted(page.data) && !page.next.Begin?
            && (forall id :: id in page.data <==> id in rows && Beyond(id, cursor) && UpTo(id, page.next))
            && (page.next.After? ==> page.data != [] && page.next.id in rows && Beyond(page.next.id, cursor))
  {
    var above := Above(rows, cursor);
    AboveExact(rows, cursor);
    LimitedExact(above, limit);
    if |above| > limit {
      assert Limited(Limited(above, limit + 1), limit) == Limited(above, limit);
      assert Limited(above, limit + 1)[limit - 1] == above[limit - 1];
    } else {
      assert Limited(Limited(above, limit + 1), limit) == above;
    }
  }

  // ----- following the cursors

  /** Some request has shown the row. */
  predicate Seen(history: History, k: nat, id: int) {
    k > 0 && id in history(k - 1)
  }

  ghost predicate Collected(history: History, k: nat, data: seq<int>, cursor: Cursor) {
    forall id :: id in data ==> Seen(history, k, id) && UpTo(id, cursor)
  }

  ghost predicate NoneLost(first: seq<int>, data: seq<int>, cursor: Cursor) {
    forall id :: id in first && UpTo(id, cursor) ==> id in data
  }

  /** Everything up to the cursor that was there from the start has been collected, once and in order. */
  ghost predicate Complete(history: History, k: nat, p: Progress) {
    && Sorted(p.data) && Collected(history, k, p.data, p.cursor) && NoneLost(history(0), p.data, p.cursor)
    && (p.cursor.Begin? ==> p.data == [])
  }

  lemma {:induction false} Joined(a: seq<int>, b: seq<int>)
    requires Sorted(a) && Sorted(b) && forall x, y :: x in a && y in b ==> x < y
    ensures Sorted(a + b)
  {
    forall i: nat, j: nat | i < j < |a + b| ensures (a + b)[i] < (a + b)[j] {
      if i < |a| <= j {
        assert a[i] in a && b[j - |a|] in b;
      }
    }
  }

  lemma {:induction false} PageInOrder(history: History, limit: nat, k: nat, p: Progress)
    requires limit >= 1 && Sorted(history(k)) && Complete(history, k, p) && !p.cursor.Done?
    ensures Sorted(p.data + Fetch(history(k), p.cursor, limit).data)
  {
    var page := Fetch(history(k), p.cursor, limit);
    PageExact(history(k), p.cursor, limit);
    forall x, y | x in p.data && y in page.data ensures x < y {
      assert UpTo(x, p.cursor) && Beyond(y, p.cursor);
    }
    Joined(p.data, page.data);
  }

  lemma {:induction false} PageCollected(history: History, limit: nat, k: nat, p: Progress)
    requires limit >= 1 && Growing(history) && Complete(history, k, p) && !p.cursor.Done?
    ensures var page := Fetch(history(k), p.cursor, limit); Collected(history, k + 1, p.data + page.data, page.next)
  {
    var page := Fetch(history(k), p.cursor, limit);
    assert Grows(history, k, k);
    PageExact(history(k), p.cursor, limit);
    forall id | id in p.data + page.data ensures Seen(history, k + 1, id) && UpTo(id, page.next) {
      if id in p.data {
        assert Seen(history, k, id) && Grows(history, k - 1, k);
      }
    }
  }

  lemma {:induction false} PageLosesNone(history: History, limit: nat, k: nat, p: Progress)
    requires limit >= 1 && Growing(history) && Complete(history, k, p) && !p.cursor.Done?
    ensures var page := Fetch(history(k), p.cursor, limit); NoneLost(history(0), p.data + page.data, page.next)
  {
    var page := Fetch(history(k), p.cursor, limit);
    assert Grows(history, 0, k) && Grows(history, k, k);
    PageExact(history(k), p.cursor, limit);
    forall id | id in history(0) && UpTo(id, page.next) ensures id in p.data + page.data {
      assert id in history(k);
    }
  }

  lemma {:induction false} StepComplete(history: History, limit: nat, k: nat, p: Progress)
    requires limit >= 1 && Growing(history) && Complete(history, k, p)
    ensures Complete(history, k + 1, Advance(history(k), limit, p))
  {
    if p.cursor.Done? {
      assert k > 0 ==> Grows(history, k - 1, k);
    } else {
      assert Grows(history, k, k);
      PageInOrder(history, limit, k, p);
      PageCollected(history, limit, k, p);
      PageLosesNone(history, limit, k, p);
      PageExact(history(k), p.cursor, limit);
    }
  }

  lemma NothingYet(history: History)
    ensures Complete(history, 0, Progress([], Begin))
  {
  }

  lemma CompleteNext(history: History, limit: nat, k: nat)
    requires limit >= 1 && Growing(history)
    requires k > 0 ==> Complete(history, k - 1, Collect(history, limit, k - 1))
    ensures Complete(history, k, Collect(history, limit, k))
  {
    if k > 0 {
      StepComplete(history, limit, k - 1, Collect(history, limit, k - 1));
    } else {
      NothingYet(history);
    }
  }

  /**
   No row is lost or repeated: whatever is inserted between the requests, after any number of them the
   collected ids are strictly increasing, and once the cursors end every id that was there at the
   start is among them.
   */
  lemma {:induction false} PagesComplete(history: History, limit: nat, k: nat)
    requires limit >= 1 && Growing(history)
    ensures Complete(history, k, Collect(history, limit, k))
    decreases k
  {
    if k > 0 {
      PagesComplete(history, limit, k - 1);
    }
    CompleteNext(history, limit, k);
  }

  // ----- how much is left

  lemma {:induction false} AllAbove(rows: seq<int>, cursor: Cursor)
    requires forall id :: id in rows ==> Beyond(id, cursor)
    ensures Above(rows, cursor) == rows
  {
    if rows != [] {
      AllAbove(rows[1..], cursor);
    }
  }

  lemma {:induction false} AboveAt(rows: seq<int>, i: nat)
    requires Sorted(rows) && i < |rows|
    ensures Above(rows, After(rows[i])) == rows[i + 1..]
  {
    if i == 0 {
      AllAbove(rows[1..], After(rows[0]));
    } else {
      AboveAt(rows[1..], i - 1);
      assert rows[0] < rows[i];
    }
  }

  lemma {:induction false} AboveSuffix(rows: seq<int>, cursor: Cursor)
    requires Sorted(rows)
    ensures |Above(rows, cursor)| <= |rows| && Above(rows, cursor) == rows[|rows| - |Above(rows, cursor)|..]
  {
    if rows != [] {
      if Beyond(rows[0], cursor) {
        AllAbove(rows, cursor);
      } else {
        AboveSuffix(rows[1..], cursor);
      }
    }
  }

  /** A full page takes exactly limit rows off what is left. */
  lemma {:induction false} PageTakes(rows: seq<int>, cursor: Cursor, limit: nat)
    requires limit >= 1 && Sorted(rows)
    ensures var next := Fetch(rows, cursor, limit).next;
            && (next.Done? <==> |Above(rows, cursor)| <= limit)
            && (!next.Done? ==> |Above(rows, next)| == |Above(rows, cursor)| - limit)
  {
    var above := Above(rows, cursor);
    AboveSuffix(rows, cursor);
    if |above| > limit {
      var at := |rows| - |above| + limit - 1;
      assert Limited(above, limit + 1)[limit - 1] == above[limit - 1] == rows[at];
      AboveAt(rows, at);
    }
  }

  /** The rows inserted beyond the cursor. */
  function Arrivals(before: seq<int>, rows: seq<int>, cursor: Cursor): set<int> {
    set id | id in rows && id !in before && Beyond(id, cursor)
  }

  function SetOf(rows: seq<int>): set<int> {
    set id | id in rows
  }

  lemma {:induction false} SortedSize(rows: seq<int>)
    requires Sorted(rows)
    ensures |SetOf(rows)| == |rows|
  {
    if rows != [] {
      var rest := rows[1..];
      SortedSize(rest);
      assert SetOf(rows) == SetOf(rest) + {rows[0]};
    }
  }

  lemma UnionSize(all: set<int>, a: set<int>, b: set<int>)
    requires all == a + b && a !! b
    ensures |all| == |a| + |b|
  {
  }

  lemma AboveIsOldAndNew(before: seq<int>, rows: seq<int>, cursor: Cursor)
    requires Sorted(before) && Sorted(rows) && Within(before, rows)
    ensures SetOf(Above(rows, cursor)) == SetOf(Above(before, cursor)) + Arrivals(before, rows, cursor)
    ensures SetOf(Above(before, cursor)) !! Arrivals(before, rows, cursor)
  {
    AboveExact(before, cursor);
    AboveExact(rows, cursor);
    forall id ensures id in before ==> id in rows {
      if id in before {
        var i :| 0 <= i < |before| && before[i] == id;
      }
    }
  }

  lemma AboveSize(rows: seq<int>, cursor: Cursor)
    requires Sorted(rows)
    ensures |SetOf(Above(rows, cursor))| == |Above(rows, cursor)|
  {
    AboveExact(rows, cursor);
    SortedSize(Above(rows, cursor));
  }

  lemma ArrivalsCount(before: seq<int>, rows: seq<int>, cursor: Cursor)
    requires Sorted(before) && Sorted(rows) && Within(before, rows)
    ensures |Above(rows, cursor)| == |Above(before, cursor)| + |Arrivals(before, rows, cursor)|
  {
    AboveSize(before, cursor);
    AboveSize(rows, cursor);
    AboveIsOldAndNew(before, rows, cursor);
    UnionSize(SetOf(Above(rows, cursor)), SetOf(Above(before, cursor)), Arrivals(before, rows, cursor));
  }

  /** A request takes its page off what is left, and the arrivals are added. */
  lemma PageLeaves(before: seq<int>, rows: seq<int>, cursor: Cursor, limit: nat)
    requires limit >= 1 && Sorted(before) && Sorted(rows) && Within(before, rows)
    ensures var next := Fetch(before, cursor, limit).next;
            && (next.Done? <==> |Above(before, cursor)| <= limit)
            && (!next.Done? ==>
                  |Above(rows, next)| == |Above(before, cursor)| - limit + |Arrivals(before, rows, next)|)
  {
    PageTakes(before, cursor, limit);
    ArrivalsCount(before, rows, Fetch(before, cursor, limit).next);
  }

  // ----- the account of a loop: what is left, whether it has ended, what arrives

  /** The rows that k requests and the next have to get through: the first ones, and all arrivals so far. */
  function Total(first: nat, ahead: nat -> nat, k: nat): nat {
    if k == 0 then first else Total(first, ahead, k - 1) + ahead(k - 1)
  }

  predicate Exceeds(first: nat, ahead: nat -> nat, limit: nat, j: nat) {
    Total(first, ahead, j) > limit * (j + 1)
  }

  /** By each of the first k requests more rows had arrived than it and those before it could return. */
  ghost predicate Outrun(first: nat, ahead: nat -> nat, limit: nat, k: nat) {
    forall j: nat :: j < k ==> Exceeds(first, ahead, limit, j)
  }

  /** One request takes limit rows off what is left; it is the last exactly if that is all. */
  predicate Served(left: nat -> nat, ended: nat -> bool, ahead: nat -> nat, limit: nat, k: nat) {
    && (ended(k) ==> ended(k + 1))
    && (!ended(k) ==> (ended(k + 1) <==> left(k) <= limit))
    && (!ended(k + 1) ==> left(k + 1) == left(k) - limit + ahead(k))
  }

  predicate Balanced(left: nat -> nat, ended: nat -> bool, ahead: nat -> nat, limit: nat, k: nat) {
    !ended(k) ==> left(k) == Total(left(0), ahead, k) - limit * k
  }

  lemma NextShare(limit: nat, k: nat)
    ensures limit * (k + 1) == limit * k + limit
  {
  }

  lemma BalancedNext(left: nat -> nat, ended: nat -> bool, ahead: nat -> nat, limit: nat, k: nat)
    requires Served(left, ended, ahead, limit, k) && Balanced(left, ended, ahead, limit, k)
    ensures Balanced(left, ended, ahead, limit, k + 1)
    ensures !ended(k + 1) <==> !ended(k) && Exceeds(left(0), ahead, limit, k)
  {
    NextShare(limit, k);
  }

  lemma OutrunMore(first: nat, ahead: nat -> nat, limit: nat, k: nat)
    ensures Outrun(first, ahead, limit, k + 1) <==> Outrun(first, ahead, limit, k) && Exceeds(first, ahead, limit, k)
  {
  }

  lemma {:induction false} Account(left: nat -> nat, ended: nat -> bool, ahead: nat -> nat, limit: nat, k: nat)
    requires !ended(0) && forall j: nat :: Served(left, ended, ahead, limit, j)
    ensures Balanced(left, ended, ahead, limit, k)
    ensures !ended(k) <==> Outrun(left(0), ahead, limit, k)
    decreases k
  {
    if k > 0 {
      Account(left, ended, ahead, limit, k - 1);
      assert Served(left, ended, ahead, limit, k - 1);
      BalancedNext(left, ended, ahead, limit, k - 1);
      OutrunMore(left(0), ahead, limit, k - 1);
    }
  }

  // ----- exactly when the loop goes on

  /** How many rows the next request has beyond its cursor. */
  function Left(history: History, limit: nat, k: nat): nat
    requires limit >= 1
  {
    |Above(history(k), Collect(history, limit, k).cursor)|
  }

  predicate Ended(history: History, limit: nat, k: nat)
    requires limit >= 1
  {
    Collect(history, limit, k).cursor.Done?
  }

  /** How many rows are inserted beyond the cursor between requests j and j + 1. */
  function Ahead(history: History, limit: nat, j: nat): nat
    requires limit >= 1
  {
    |Arrivals(history(j), history(j + 1), Collect(history, limit, j + 1).cursor)|
  }

  function Lefts(history: History, limit: nat): nat -> nat
    requires limit >= 1
  {
    (k: nat) => Left(history, limit, k)
  }

  function Ends(history: History, limit: nat): nat -> bool
    requires limit >= 1
  {
    (k: nat) => Ended(history, limit, k)
  }

  function Aheads(history: History, limit: nat): nat -> nat
    requires limit >= 1
  {
    (j: nat) => Ahead(history, limit, j)
  }

  lemma NextCursor(history: History, limit: nat, k: nat)
    requires limit >= 1
    ensures var cursor := Collect(history, limit, k).cursor;
            Collect(history, limit, k + 1).cursor ==
              if cursor.Done? then Done else Fetch(history(k), cursor, limit).next
  {
  }

  lemma RequestServed(history: History, limit: nat, k: nat)
    requires limit >= 1 && Growing(history)
    ensures Ended(history, limit, k) ==> Ended(history, limit, k + 1)
    ensures !Ended(history, limit, k) ==> (Ended(history, limit, k + 1) <==> Left(history, limit, k) <= limit)
    ensures !Ended(history, limit, k + 1) ==>
              Left(history, limit, k + 1) == Left(history, limit, k) - limit + Ahead(history, limit, k)
  {
    NextCursor(history, limit, k);
    assert Grows(history, k, k + 1) && Grows(history, k + 1, k + 1);
    PageLeaves(history(k), history(k + 1), Collect(history, limit, k).cursor, limit);
  }

  lemma AllServed(history: History, limit: nat)
    requires limit >= 1 && Growing(history)
    ensures forall k: nat :: Served(Lefts(history, limit), Ends(history, limit), Aheads(history, limit), limit, k)
    ensures Left(history, limit, 0) == |history(0)| && !Ended(history, limit, 0)
  {
    forall k: nat ensures Served(Lefts(history, limit), Ends(history, limit), Aheads(history, limit), limit, k) {
      RequestServed(history, limit, k);
    }
    AllAbove(history(0), Begin);
  }

  /**
   After k requests there is a next cursor if and only if by each of them more rows had arrived ahead of
   the cursor than the requests could return; what is left is then what had arrived less what was returned.
   */
  lemma {:induction false} GoesOn(history: History, limit: nat, k: nat)
    requires limit >= 1 && Growing(history)
    ensures !Ended(history, limit, k) <==> Outrun(|history(0)|, Aheads(history, limit), limit, k)
    ensures !Ended(history, limit, k) ==>
              Left(history, limit, k) == Total(|history(0)|, Aheads(history, limit), k) - limit * k
  {
    AllServed(history, limit);
    Account(Lefts(history, limit), Ends(history, limit), Aheads(history, limit), limit, k);
  }

  /** Some request catches up with the arrivals. */
  predicate CaughtUp(history: History, limit: nat, last: nat)
    requires limit >= 1
  {
    !Exceeds(|history(0)|, Aheads(history, limit), limit, last)
  }

  lemma NotYet(history: History, limit: nat, k: nat, last: nat)
    requires limit >= 1 && Growing(history) && CaughtUp(history, limit, last)
    ensures !Ended(history, limit, k) ==> k <= last
  {
    GoesOn(history, limit, k);
  }

  lemma {:induction false} DoneStays(history: History, limit: nat, k: nat, n: nat)
    requires limit >= 1 && k <= n && Collect(history, limit, k).cursor.Done?
    ensures Collect(history, limit, n) == Collect(history, limit, k)
    decreases n
  {
    if k < n {
      DoneStays(history, limit, k, n - 1);
    }
  }

  lemma AllCollected(history: History, limit: nat, n: nat)
    requires limit >= 1 && Growing(history) && Collect(history, limit, n).cursor.Done?
    ensures var data := Collect(history, limit, n).data;
            && Sorted(data) && (forall id :: id in history(0) ==> id in data)
            && (forall id :: id in data ==> Seen(history, n, id))
  {
    PagesComplete(history, limit, n);
  }

  lemma LoopEnded(history: History, limit: nat, k: nat, last: nat, data: seq<int>)
    requires limit >= 1 && Growing(history) && CaughtUp(history, limit, last)
    requires Collect(history, limit, k) == Progress(data, Done) && k <= last + 1
    ensures Progress(data, Done) == Collect(history, limit, last + 1)
    ensures Sorted(data)
    ensures forall id :: id in history(0) ==> id in data
    ensures forall id :: id in data ==> id in history(last)
  {
    DoneStays(history, limit, k, last + 1);
    AllCollected(history, limit, last + 1);
  }

  /** The cursor loop. It ends, by GoesOn, exactly if some request catches up, and then by the first that does. */
  method AllPages(history: History, limit: nat, ghost last: nat) returns (data: seq<int>)
    requires limit >= 1 && Growing(history) && CaughtUp(history, limit, last)
    ensures Progress(data, Done) == Collect(history, limit, last + 1)
    ensures Sorted(data)
    ensures forall id :: id in history(0) ==> id in data
    ensures forall id :: id in data ==> id in history(last)
  {
    data := [];
    var cursor := Begin;
    var k := 0;
    while !cursor.Done?
      invariant Progress(data, cursor) == Collect(history, limit, k)
      invariant k <= last + 1 && (k <= last || cursor.Done?)
      decreases last + 1 - k
    {
      var page := Fetch(history(k), cursor, limit);
      data := data + page.data;
      cursor := page.next;
      k := k + 1;
      NotYet(history, limit, k, last);
    }
    LoopEnded(history, limit, k, last, data);
  }

  // ----- when the inserts stop

  /** Nothing is inserted after the request numbered quiet. */
  ghost predicate QuietFrom(history: History, quiet: nat) {
    forall k: nat :: k >= quiet ==> history(k) == history(quiet)
  }

  lemma NothingArrives(history: History, limit: nat, k: nat)
    requires limit >= 1 && history(k + 1) == history(k)
    ensures Ahead(history, limit, k) == 0
  {
    assert Arrivals(history(k), history(k + 1), Collect(history, limit, k + 1).cursor) == {};
  }

  lemma {:induction false} NoMore(first: nat, ahead: nat -> nat, quiet: nat, k: nat)
    requires quiet <= k && forall j: nat :: j >= quiet ==> ahead(j) == 0
    ensures Total(first, ahead, k) == Total(first, ahead, quiet)
    decreases k
  {
    if k > quiet {
      NoMore(first, ahead, quiet, k - 1);
    }
  }

  lemma ShareGrows(limit: nat, k: nat)
    requires limit >= 1
    ensures limit * (k + 1) >= k + 1
  {
    assert (limit - 1) * (k + 1) >= 0;
  }

  /** So the loop ends whenever the inserts do, however late that is. */
  lemma QuietEnds(history: History, limit: nat, quiet: nat)
    requires limit >= 1 && QuietFrom(history, quiet)
    ensures exists last: nat :: CaughtUp(history, limit, last)
  {
    var ahead := Aheads(history, limit);
    forall j: nat | j >= quiet ensures ahead(j) == 0 {
      NothingArrives(history, limit, j);
      assert ahead(j) == Ahead(history, limit, j);
    }
    var last := quiet + Total(|history(0)|, ahead, quiet);
    NoMore(|history(0)|, ahead, quiet, last);
    ShareGrows(limit, last);
    assert CaughtUp(history, limit, last);
  }

  // ----- when rows arrive at the end

  /** New rows come after all others. */
  ghost predicate Appending(history: History) {
    forall k: nat :: Appends(history, k)
  }

  predicate Appends(history: History, k: nat) {
    history(k) <= history(k + 1)
  }

  lemma InBefore(before: seq<int>, rows: seq<int>, i: nat)
    requires before <= rows && i < |rows| && rows[i] !in before
    ensures i >= |before|
  {
    assert forall j: nat :: j < |before| ==> before[j] == rows[j];
  }

  lemma AfterAllBefore(before: seq<int>, rows: seq<int>, cursor: Cursor, i: nat)
    requires Sorted(rows) && before <= rows && |before| <= i < |rows|
    requires !cursor.Done? && (cursor.After? ==> cursor.id in before)
    ensures rows[i] !in before && Beyond(rows[i], cursor)
  {
    forall j: nat | j < |before| ensures before[j] < rows[i] {
      assert before[j] == rows[j];
    }
  }

  lemma {:induction false} ArrivalsAtEnd(before: seq<int>, rows: seq<int>, cursor: Cursor)
    requires Sorted(rows) && before <= rows && !cursor.Done? && (cursor.After? ==> cursor.id in before)
    ensures |Arrivals(before, rows, cursor)| == |rows| - |before|
  {
    var more := rows[|before|..];
    SortedSize(more);
    forall id | id in more ensures id in Arrivals(before, rows, cursor) {
      var i :| 0 <= i < |more| && more[i] == id;
      assert rows[|before| + i] == id;
      AfterAllBefore(before, rows, cursor, |before| + i);
    }
    forall id | id in Arrivals(before, rows, cursor) ensures id in more {
      var i :| 0 <= i < |rows| && rows[i] == id;
      InBefore(before, rows, i);
      assert more[i - |before|] == id;
    }
    assert SetOf(more) == Arrivals(before, rows, cursor);
  }

  lemma CursorSeen(history: History, limit: nat, k: nat)
    requires limit >= 1 && Growing(history)
    ensures var cursor := Collect(history, limit, k + 1).cursor;
            !cursor.Begin? && (cursor.After? ==> cursor.id in history(k))
  {
    assert Grows(history, k, k);
    NextCursor(history, limit, k);
    if !Ended(history, limit, k) {
      PageExact(history(k), Collect(history, limit, k).cursor, limit);
    }
  }

  lemma AppendedAhead(history: History, limit: nat, k: nat)
    requires limit >= 1 && Growing(history) && Appending(history) && !Ended(history, limit, k + 1)
    ensures Ahead(history, limit, k) == |history(k + 1)| - |history(k)|
  {
    CursorSeen(history, limit, k);
    assert Grows(history, k + 1, k + 1) && Appends(history, k);
    ArrivalsAtEnd(history(k), history(k + 1), Collect(history, limit, k + 1).cursor);
  }

  lemma AppendedNext(history: History, limit: nat, k: nat)
    requires limit >= 1 && Growing(history) && Appending(history)
    requires Ended(history, limit, k) || Total(|history(0)|, Aheads(history, limit), k) == |history(k)|
    ensures Ended(history, limit, k + 1) || Total(|history(0)|, Aheads(history, limit), k + 1) == |history(k + 1)|
  {
    if !Ended(history, limit, k + 1) {
      NextCursor(history, limit, k);
      AppendedAhead(history, limit, k);
      assert Aheads(history, limit)(k) == Ahead(history, limit, k);
    }
  }

  lemma {:induction false} AppendedTotal(history: History, limit: nat, k: nat)
    requires limit >= 1 && Growing(history) && Appending(history)
    ensures Ended(history, limit, k) || Total(|history(0)|, Aheads(history, limit), k) == |history(k)|
    decreases k
  {
    if k > 0 {
      AppendedTotal(history, limit, k - 1);
      AppendedNext(history, limit, k - 1);
    }
  }

  /** Each of the first k requests found more rows than all of them could return. */
  ghost predicate Overfull(history: History, limit: nat, k: nat) {
    forall j: nat :: j < k ==> |history(j)| > limit * (j + 1)
  }

  lemma OverfullMore(history: History, limit: nat, k: nat)
    ensures Overfull(history, limit, k + 1) <==> Overfull(history, limit, k) && |history(k)| > limit * (k + 1)
  {
  }

  lemma EndsNext(history: History, limit: nat, k: nat)
    requires limit >= 1 && Growing(history)
    ensures !Ended(history, limit, k + 1) <==>
            !Ended(history, limit, k) && Exceeds(|history(0)|, Aheads(history, limit), limit, k)
  {
    GoesOn(history, limit, k);
    GoesOn(history, limit, k + 1);
    OutrunMore(|history(0)|, Aheads(history, limit), limit, k);
  }

  lemma AppendedMore(history: History, limit: nat, k: nat)
    requires limit >= 1 && Growing(history) && Appending(history)
    requires !Ended(history, limit, k) <==> Overfull(history, limit, k)
    ensures !Ended(history, limit, k + 1) <==> Overfull(history, limit, k + 1)
  {
    OverfullMore(history, limit, k);
    EndsNext(history, limit, k);
    AppendedTotal(history, limit, k);
  }

  /** Then the loop goes on exactly as long as the table outgrows the pages. */
  lemma {:induction false} AppendedGoesOn(history: History, limit: nat, k: nat)
    requires limit >= 1 && Growing(history) && Appending(history)
    ensures !Ended(history, limit, k) <==> Overfull(history, limit, k)
    decreases k
  {
    if k > 0 {
      AppendedGoesOn(history, limit, k - 1);
      AppendedMore(history, limit, k - 1);
    }
  }

  /** A history in which one more row is inserted at the end before every request. */
  function Endless(k: nat): (rows: seq<int>)
    ensures |rows| == k + 2 && forall i: nat :: i < |rows| ==> rows[i] == i
  {
    seq(k + 2, i => i)
  }

  lemma {:induction false} EndlessGrows()
    ensures Growing(Endless) && Appending(Endless)
  {
    forall j: nat, k: nat ensures Grows(Endless, j, k) {
      forall i: nat | j <= k && i < |Endless(j)| ensures Endless(j)[i] in Endless(k) {
        assert Endless(k)[i] == i;
      }
    }
  }

  /** So the loop need not end: one insert a request keeps it going for ever. */
  lemma {:induction false} NeedNotEnd(k: nat)
    ensures Growing(Endless) && !Ended(Endless, 1, k)
  {
    EndlessGrows();
    AppendedGoesOn(Endless, 1, k);
  }
}
