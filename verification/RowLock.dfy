/**
 Concurrent sessions writing to grants. Each attempt locks the grant row, validates in a later
 statement, and appends in a still later one; locks are held to the end of the transaction, and every
 statement sees what is committed when it starts plus the session's own rows. Every interleaving ends
 as the committed sessions would have ended one after another in commit order, and every one of their
 decisions is the one that serial execution takes.
 */
module RowLock {
  import opened GrantLog
  import Engine

  /** One attempt to write to a grant, and whether it was accepted. */
  datatype Attempt = Attempt(append: Append, accepted: bool)

  /** Where a session is inside its current attempt: waiting to validate, or validated with this verdict. */
  datatype Phase = Ready | Locked(a: Append) | Judged(a: Append, passed: bool)

  /** A session's uncommitted rows, by grant; script lists its attempts so far. */
  datatype Work = Work(own: nat -> seq<Row>, phase: Phase, script: seq<Attempt>)

  /** locks maps a grant to the session that holds its row; log lists the committed scripts. */
  datatype State = State(committed: nat -> seq<Row>, locks: map<nat, nat>, work: nat -> Work, log: seq<seq<Attempt>>)

  datatype Step =
    | Lock(sid: nat, append: Append)
    | Validate(sid: nat)
    | Write(sid: nat)
    | Commit(sid: nat)
    | Abort(sid: nat)

  const IDLE := Work((g: nat) => [], Ready, [])
  const INITIAL := State((g: nat) => [], map[], (s: nat) => IDLE, [])

  function Visible(s: State, sid: nat, g: nat): seq<Row> {
    s.committed(g) + s.work(sid).own(g)
  }

  function Put<T>(f: nat -> T, at: nat, value: T): nat -> T {
    (i: nat) => if i == at then value else f(i)
  }

  function Unlocked(locks: map<nat, nat>, sid: nat): map<nat, nat> {
    map g | g in locks && locks[g] != sid :: locks[g]
  }

  /** The second read: the row is made from it when the verdict was good and the version fits. */
  function Written(w: Work, seen: seq<Row>): Work
    requires w.phase.Judged?
  {
    var a := w.phase.a;
    if w.phase.passed && Fits(seen, EventOf(a)) then
      Work(Put(w.own, GrantOf(a), w.own(GrantOf(a)) + [Made(seen, EventOf(a))]), Ready, w.script + [Attempt(a, true)])
    else Work(w.own, Ready, w.script + [Attempt(a, false)])
  }

  /** One step of one session. A blocked or out-of-turn step changes nothing. */
  function Next(s: State, step: Step): State {
    var w := s.work(step.sid);
    match step
    case Lock(sid, a) =>
      if w.phase == Ready && (GrantOf(a) !in s.locks || s.locks[GrantOf(a)] == sid) then
        s.(locks := s.locks[GrantOf(a) := sid], work := Put(s.work, sid, w.(phase := Locked(a))))
      else s
    case Validate(sid) =>
      if w.phase.Locked? then
        var a := w.phase.a;
        s.(work := Put(s.work, sid, w.(phase := Judged(a, Validates(Visible(s, sid, GrantOf(a)), a)))))
      else s
    case Write(sid) =>
      if w.phase.Judged? then
        s.(work := Put(s.work, sid, Written(w, Visible(s, sid, GrantOf(w.phase.a)))))
      else s
    case Commit(sid) =>
      if w.phase == Ready then
        s.(committed := (g: nat) => s.committed(g) + w.own(g), locks := Unlocked(s.locks, sid),
        work := Put(s.work, sid, IDLE), log := s.log + [w.script])
      else s
    case Abort(sid) =>
      s.(locks := Unlocked(s.locks, sid), work := Put(s.work, sid, IDLE))
  }

  function Interleaved(steps: seq<Step>): State {
    if steps == [] then INITIAL else Next(Interleaved(steps[..|steps| - 1]), steps[|steps| - 1])
  }

  // ----- the serial reading

  /** One transaction alone: its attempts on g in order, each deciding on the rows before it. */
  function Alone(rows: seq<Row>, script: seq<Attempt>, g: nat): seq<Row> {
    if script == [] then rows
    else
      var before, a := Alone(rows, script[..|script| - 1], g), script[|script| - 1].append;
      if GrantOf(a) == g then Grown(before, a) else before
  }

  /** The committed transactions one after another. */
  function Serial(log: seq<seq<Attempt>>, g: nat): seq<Row> {
    if log == [] then [] else Alone(Serial(log[..|log| - 1], g), log[|log| - 1], g)
  }

  /** Every attempt on g in the script was decided as the transaction alone decides it. */
  predicate Faithful(rows: seq<Row>, script: seq<Attempt>, g: nat) {
    script == [] ||
    var earlier, last := script[..|script| - 1], script[|script| - 1];
    && Faithful(rows, earlier, g)
    && (GrantOf(last.append) == g ==> last.accepted == Accepts(Alone(rows, earlier, g), last.append))
  }

  predicate FaithfulLog(log: seq<seq<Attempt>>, g: nat) {
    log == [] || (FaithfulLog(log[..|log| - 1], g) && Faithful(Serial(log[..|log| - 1], g), log[|log| - 1], g))
  }

  // ----- the invariant

  ghost predicate Holds(s: State, sid: nat, g: nat) {
    g in s.locks && s.locks[g] == sid
  }

  ghost predicate Mentions(script: seq<Attempt>, g: nat) {
    exists i: nat :: i < |script| && GrantOf(script[i].append) == g
  }

  /** A session's rows are its script run alone on the committed log, and it holds what it touched. */
  ghost predicate SessionOk(s: State, sid: nat, g: nat) {
    var w := s.work(sid);
    && Visible(s, sid, g) == Alone(s.committed(g), w.script, g)
    && Faithful(s.committed(g), w.script, g)
    && (w.own(g) != [] || Mentions(w.script, g) ==> Holds(s, sid, g))
    && (w.phase != Ready && GrantOf(w.phase.a) == g ==> Holds(s, sid, g))
    && (w.phase.Judged? && GrantOf(w.phase.a) == g ==> w.phase.passed == Validates(Visible(s, sid, g), w.phase.a))
  }

  ghost predicate Coherent(s: State) {
    && (forall g: nat :: s.committed(g) == Serial(s.log, g) && FaithfulLog(s.log, g))
    && (forall sid: nat, g: nat :: SessionOk(s, sid, g))
  }

  /** A script that never names g leaves g alone. */
  lemma {:induction false} AloneElsewhere(rows: seq<Row>, script: seq<Attempt>, g: nat)
    requires !Mentions(script, g)
    ensures Alone(rows, script, g) == rows && Faithful(rows, script, g)
  {
    if script != [] {
      var earlier := script[..|script| - 1];
      assert GrantOf(script[|script| - 1].append) != g;
      forall i: nat | i < |earlier| ensures GrantOf(earlier[i].append) != g {
        assert script[i] == earlier[i];
      }
      AloneElsewhere(rows, earlier, g);
    }
  }

  lemma ScriptSnoc(rows: seq<Row>, script: seq<Attempt>, t: Attempt, g: nat)
    ensures Alone(rows, script + [t], g) ==
            if GrantOf(t.append) == g then Grown(Alone(rows, script, g), t.append) else Alone(rows, script, g)
    ensures Faithful(rows, script + [t], g) <==>
            Faithful(rows, script, g)
              && (GrantOf(t.append) == g ==> t.accepted == Accepts(Alone(rows, script, g), t.append))
    ensures Mentions(script + [t], g) <==> Mentions(script, g) || GrantOf(t.append) == g
  {
    var more := script + [t];
    assert more[..|script|] == script && more[|script|] == t;
    if i: nat :| i < |script| && GrantOf(script[i].append) == g { assert more[i] == script[i]; }
  }

  lemma LockKeeps(s: State, sid: nat, a: Append)
    requires Coherent(s)
    ensures Coherent(Next(s, Lock(sid, a)))
  {
    var s' := Next(s, Lock(sid, a));
    forall q: nat, g: nat ensures SessionOk(s', q, g) {
      assert SessionOk(s, q, g);
    }
  }

  lemma ValidateKeeps(s: State, sid: nat)
    requires Coherent(s)
    ensures Coherent(Next(s, Validate(sid)))
  {
    var s' := Next(s, Validate(sid));
    forall q: nat, g: nat ensures SessionOk(s', q, g) {
      assert SessionOk(s, q, g);
    }
  }

  /** What the write leaves of a session. */
  lemma WriteLeaves(s: State, sid: nat, g: nat)
    requires s.work(sid).phase.Judged?
    ensures var s', w, a := Next(s, Write(sid)), s.work(sid), s.work(sid).phase.a;
            var seen := Visible(s, sid, GrantOf(a));
            var accepted := w.phase.passed && Fits(seen, EventOf(a));
            && s'.committed == s.committed && s'.locks == s.locks && s'.work(sid).phase == Ready
            && s'.work(sid).script == w.script + [Attempt(a, accepted)]
            && s'.work(sid).own(g) ==
               if accepted && GrantOf(a) == g then w.own(g) + [Made(seen, EventOf(a))] else w.own(g)
  {
  }

  lemma RowsAdded(committed: seq<Row>, own: seq<Row>, r: Row)
    ensures committed + (own + [r]) == committed + own + [r]
  {
  }

  /** The write reads the rows again, and what it reads is what the validator read. */
  lemma WriteOk(s: State, sid: nat, g: nat)
    requires SessionOk(s, sid, g) && s.work(sid).phase.Judged?
    ensures SessionOk(Next(s, Write(sid)), sid, g)
  {
    var w := s.work(sid);
    var a, seen := w.phase.a, Visible(s, sid, GrantOf(w.phase.a));
    WriteLeaves(s, sid, g);
    ScriptSnoc(s.committed(g), w.script, Attempt(a, w.phase.passed && Fits(seen, EventOf(a))), g);
    RowsAdded(s.committed(g), w.own(g), Made(seen, EventOf(a)));
  }

  lemma WriteKeeps(s: State, sid: nat)
    requires Coherent(s)
    ensures Coherent(Next(s, Write(sid)))
  {
    var s' := Next(s, Write(sid));
    forall q: nat, g: nat ensures SessionOk(s', q, g) {
      assert SessionOk(s, q, g);
      if q == sid && s.work(sid).phase.Judged? {
        WriteOk(s, sid, g);
      }
    }
  }

  /** Another session's commit or abort cannot touch a grant this session holds. */
  lemma OthersKept(s: State, s': State, sid: nat, q: nat, g: nat)
    requires SessionOk(s, sid, g) && SessionOk(s, q, g) && q != sid
    requires s'.work(q) == s.work(q) && s'.locks == Unlocked(s.locks, sid)
    requires s'.committed(g) == s.committed(g) || (s'.committed(g) == s.committed(g) + s.work(sid).own(g))
    ensures SessionOk(s', q, g)
  {
    if Holds(s, q, g) {
      assert s.work(sid).own(g) == [];
      assert s.committed(g) + [] == s.committed(g);
    } else {
      AloneElsewhere(s'.committed(g), s.work(q).script, g);
      assert s'.committed(g) + [] == s'.committed(g);
    }
  }

  lemma CommitKeeps(s: State, sid: nat)
    requires Coherent(s)
    ensures Coherent(Next(s, Commit(sid)))
  {
    var s' := Next(s, Commit(sid));
    if s.work(sid).phase == Ready {
      forall g: nat ensures s'.committed(g) == Serial(s'.log, g) && FaithfulLog(s'.log, g) {
        assert SessionOk(s, sid, g);
        assert s'.log[..|s.log|] == s.log;
      }
      forall q: nat, g: nat ensures SessionOk(s', q, g) {
        assert SessionOk(s, sid, g) && SessionOk(s, q, g);
        if q == sid {
          assert s'.committed(g) + [] == s'.committed(g);
        } else {
          OthersKept(s, s', sid, q, g);
        }
      }
    }
  }

  lemma AbortKeeps(s: State, sid: nat)
    requires Coherent(s)
    ensures Coherent(Next(s, Abort(sid)))
  {
    var s' := Next(s, Abort(sid));
    forall q: nat, g: nat ensures SessionOk(s', q, g) {
      assert SessionOk(s, sid, g) && SessionOk(s, q, g);
      if q == sid {
        assert s'.committed(g) + [] == s'.committed(g);
      } else {
        OthersKept(s, s', sid, q, g);
      }
    }
  }

  lemma {:induction false} RunKeeps(steps: seq<Step>)
    ensures Coherent(Interleaved(steps))
  {
    if steps == [] {
      forall sid: nat, g: nat ensures SessionOk(INITIAL, sid, g) {
      }
    } else {
      var s := Interleaved(steps[..|steps| - 1]);
      RunKeeps(steps[..|steps| - 1]);
      match steps[|steps| - 1]
      case Lock(sid, a) => LockKeeps(s, sid, a);
      case Validate(sid) => ValidateKeeps(s, sid);
      case Write(sid) => WriteKeeps(s, sid);
      case Commit(sid) => CommitKeeps(s, sid);
      case Abort(sid) => AbortKeeps(s, sid);
    }
  }

  // ----- locks end with the transaction

  /** Whoever holds a lock has an attempt on that grant behind it in its transaction, or in hand. */
  ghost predicate LocksEarned(s: State) {
    forall g: nat :: g in s.locks ==> Earned(s, g)
  }

  ghost predicate Earned(s: State, g: nat)
    requires g in s.locks
  {
    var w := s.work(s.locks[g]);
    Mentions(w.script, g) || (w.phase != Ready && GrantOf(w.phase.a) == g)
  }

  lemma MentionsMore(script: seq<Attempt>, t: Attempt, g: nat)
    ensures Mentions(script + [t], g) <==> Mentions(script, g) || GrantOf(t.append) == g
  {
    ScriptSnoc([], script, t, g);
  }

  lemma NextEarned(s: State, step: Step)
    requires LocksEarned(s)
    ensures LocksEarned(Next(s, step))
  {
    var s' := Next(s, step);
    forall g: nat | g in s'.locks ensures Earned(s', g) {
      if g in s.locks {
        assert Earned(s, g);
      }
      if step.Write? && s.work(step.sid).phase.Judged? {
        MentionsMore(s.work(step.sid).script, Attempt(s.work(step.sid).phase.a, true), g);
        MentionsMore(s.work(step.sid).script, Attempt(s.work(step.sid).phase.a, false), g);
      }
    }
  }

  lemma {:induction false} LocksEnd(steps: seq<Step>)
    ensures LocksEarned(Interleaved(steps))
    decreases |steps|
  {
    if steps != [] {
      LocksEnd(steps[..|steps| - 1]);
      NextEarned(Interleaved(steps[..|steps| - 1]), steps[|steps| - 1]);
    }
  }

  /** The session has not attempted, and does not attempt, to write to g in its transaction. */
  ghost predicate Absent(s: State, q: nat, g: nat) {
    !Mentions(s.work(q).script, g) && (s.work(q).phase != Ready ==> GrantOf(s.work(q).phase.a) != g)
  }

  /**
   Over every interleaving a session gets the lock of a grant exactly unless another session is in the
   middle of a transaction that attempted, or attempts, to write to it: commit and abort free what they held.
   */
  lemma LockDecided(steps: seq<Step>, sid: nat, a: Append)
    requires Interleaved(steps).work(sid).phase == Ready
    ensures var s, g := Interleaved(steps), GrantOf(a);
            Next(s, Lock(sid, a)).work(sid).phase == Locked(a) <==>
            forall q: nat :: q != sid ==> Absent(s, q, g)
  {
    var s, g := Interleaved(steps), GrantOf(a);
    RunKeeps(steps);
    LocksEnd(steps);
    if g in s.locks && s.locks[g] != sid {
      assert Earned(s, g) && !Absent(s, s.locks[g], g);
    } else {
      forall q: nat | q != sid ensures Absent(s, q, g) {
        assert SessionOk(s, q, g);
      }
    }
  }

  /** An abort forgets the session's rows and decisions and frees its locks, and touches nothing else. */
  lemma AbortLeaves(s: State, sid: nat, q: nat, g: nat)
    ensures var s' := Next(s, Abort(sid));
            && s'.log == s.log && s'.committed == s.committed
            && s'.work(sid).own(g) == [] && s'.work(sid).script == [] && s'.work(sid).phase == Ready
            && (q != sid ==> s'.work(q) == s.work(q))
            && (g in s'.locks <==> g in s.locks && s.locks[g] != sid)
            && (g in s'.locks ==> s'.locks[g] == s.locks[g])
  {
  }

  // ----- what the lock buys

  /** Each row is what its event makes of the rows before it, and versions are numbered 1, 2, 3 and on. */
  ghost predicate Derived(rows: seq<Row>) {
    && (forall i: nat :: i < |rows| ==> rows[i] == Made(rows[..i], rows[i].event))
    && (forall i: nat :: i < |Chain(rows)| ==> Chain(rows)[i].number == i + 1)
  }

  lemma GrownDerived(rows: seq<Row>, a: Append)
    requires Derived(rows)
    ensures Derived(Grown(rows, a))
  {
    var grown := Grown(rows, a);
    if Accepts(rows, a) {
      var r := Made(rows, EventOf(a));
      SnocSums(rows, r);
      forall i: nat | i < |grown| ensures grown[i] == Made(grown[..i], grown[i].event) {
        if i < |rows| {
          assert grown[..i] == rows[..i];
        } else {
          assert grown[..i] == rows;
        }
      }
      forall i: nat | i < |Chain(grown)| ensures Chain(grown)[i].number == i + 1 {
        if i < |Chain(rows)| {
          assert Chain(grown)[i] == Chain(rows)[i];
        }
      }
    }
  }

  lemma {:induction false} AloneDerived(rows: seq<Row>, script: seq<Attempt>, g: nat)
    requires Derived(rows)
    ensures Derived(Alone(rows, script, g))
  {
    if script != [] {
      AloneDerived(rows, script[..|script| - 1], g);
      GrownDerived(Alone(rows, script[..|script| - 1], g), script[|script| - 1].append);
    }
  }

  lemma {:induction false} SerialDerived(log: seq<seq<Attempt>>, g: nat)
    ensures Derived(Serial(log, g))
  {
    if log != [] {
      SerialDerived(log[..|log| - 1], g);
      AloneDerived(Serial(log[..|log| - 1], g), log[|log| - 1], g);
    }
  }

  /**
   Any interleaving serialises: the rows committed on each grant are those of the committed
   transactions run one after another in commit order, versions are contiguous, and each row derives
   from the rows before it.
   */
  lemma Serialises(steps: seq<Step>, g: nat)
    ensures Interleaved(steps).committed(g) == Serial(Interleaved(steps).log, g)
    ensures Derived(Interleaved(steps).committed(g))
  {
    RunKeeps(steps);
    SerialDerived(Interleaved(steps).log, g);
  }

  lemma {:induction false} FaithfulAt(rows: seq<Row>, script: seq<Attempt>, g: nat, j: nat)
    requires Faithful(rows, script, g) && j < |script| && GrantOf(script[j].append) == g
    ensures script[j].accepted == Accepts(Alone(rows, script[..j], g), script[j].append)
  {
    if j < |script| - 1 {
      var earlier := script[..|script| - 1];
      FaithfulAt(rows, earlier, g, j);
      assert earlier[..j] == script[..j] && earlier[j] == script[j];
    }
  }

  lemma {:induction false} FaithfulLogAt(log: seq<seq<Attempt>>, g: nat, n: nat)
    requires FaithfulLog(log, g) && n < |log|
    ensures Faithful(Serial(log[..n], g), log[n], g)
  {
    if n < |log| - 1 {
      var earlier := log[..|log| - 1];
      FaithfulLogAt(earlier, g, n);
      assert earlier[..n] == log[..n] && earlier[n] == log[n];
    }
  }

  predicate IsAttempt(log: seq<seq<Attempt>>, n: nat, j: nat) {
    n < |log| && j < |log[n]|
  }

  /**
   Attempt j of transaction n was decided on the rows of the n transactions before it and of its own
   first j attempts.
   */
  predicate DecidedSerially(log: seq<seq<Attempt>>, n: nat, j: nat)
    requires IsAttempt(log, n, j)
  {
    var a := log[n][j].append;
    log[n][j].accepted == Accepts(Alone(Serial(log[..n], GrantOf(a)), log[n][..j], GrantOf(a)), a)
  }

  lemma LogDecided(log: seq<seq<Attempt>>, n: nat, j: nat)
    requires IsAttempt(log, n, j) && FaithfulLog(log, GrantOf(log[n][j].append))
    ensures DecidedSerially(log, n, j)
  {
    var g := GrantOf(log[n][j].append);
    FaithfulLogAt(log, g, n);
    FaithfulAt(Serial(log[..n], g), log[n], g, j);
  }

  /**
   So do the decisions: each attempt of each committed transaction was accepted or refused exactly as
   the validator and the appender decide it in the serial run.
   */
  lemma DecisionsSerialise(steps: seq<Step>, n: nat, j: nat)
    requires IsAttempt(Interleaved(steps).log, n, j)
    ensures DecidedSerially(Interleaved(steps).log, n, j)
  {
    RunKeeps(steps);
    LogDecided(Interleaved(steps).log, n, j);
  }

  /**
   A verdict still holds of what the write will read, the next number is free, and nobody else has rows
   of the grant.
   */
  ghost predicate Settled(s: State, sid: nat)
    requires s.work(sid).phase.Judged?
  {
    var a, passed := s.work(sid).phase.a, s.work(sid).phase.passed;
    && passed == Validates(Visible(s, sid, GrantOf(a)), a)
    && Engine.NextNumber(Chain(Visible(s, sid, GrantOf(a)))) == |Chain(Visible(s, sid, GrantOf(a)))| + 1
    && forall q: nat :: q != sid ==> s.work(q).own(GrantOf(a)) == []
  }

  /** Between validating and writing nothing moves, so the unique index on (grant, version) never fires. */
  lemma NumberNeverTaken(steps: seq<Step>, sid: nat)
    requires Interleaved(steps).work(sid).phase.Judged?
    ensures Settled(Interleaved(steps), sid)
  {
    RunKeeps(steps);
    var s := Interleaved(steps);
    var g := GrantOf(s.work(sid).phase.a);
    assert SessionOk(s, sid, g);
    SerialDerived(s.log, g);
    AloneDerived(s.committed(g), s.work(sid).script, g);
    forall q: nat | q != sid ensures s.work(q).own(g) == [] {
      assert SessionOk(s, q, g);
    }
  }
}
