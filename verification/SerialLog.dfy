/**
 The engine's runs as logs: each statement is the attempts it makes under grant locks, and the tables a
 run commits are, grant by grant, the serial log of the transactions it committed. Interleaved sessions
 that commit the same transactions leave the same rows.
 */
module SerialLog {
  import opened Tables
  import opened Invariant
  import opened Preservation
  import opened GrantLog
  import opened RowLock
  import Engine

  // ----- the attempts a statement makes

  /** Voiding a hold makes one attempt on each of the first n grants that back it. */
  function Releases(db: Db, h: nat, n: nat): seq<Attempt> {
    if n == 0 then []
    else
      Releases(db, h, n - 1)
      + if Engine.Backs(db, n - 1, h) then [Attempt(Release(n - 1, h, OpenFor(db, n - 1, h)), true)] else []
  }

  function Attempts(db: Db, now: int, op: Engine.Op): seq<Attempt>
    requires Engine.RowOp(op)
  {
    match op
    case InsertLineage(row) =>
      if Engine.InScope(db, row) then
        [Attempt(Attribute(row, FactsOf(db, now, row)),
                 Engine.DoInsertLineage(db, now, row).outcome == Engine.Accepted)]
      else []
    case InsertAllocation(row) =>
      if row.grant < |db.grants| && row.holdEntry < |db.holdEntries| then
        [Attempt(ReserveOf(db, now, row), Engine.DoInsertAllocation(db, now, row).outcome == Engine.Accepted)]
      else []
    case UpdateHold(h, row) =>
      if row.state == Voided && Engine.DoUpdateHold(db, h, row).outcome == Engine.Accepted then
        Releases(db, h, |db.chains|)
      else []
    case _ => []
  }

  /** The scripts of the committed transactions, and the open one's so far. */
  datatype Scripts = Scripts(log: seq<seq<Attempt>>, begun: seq<Attempt>)

  function ScriptsOf(now: int, ops: seq<Engine.Op>): Scripts {
    if ops == [] then Scripts([], [])
    else
      var init, op := ops[..|ops| - 1], ops[|ops| - 1];
      var s, p := Engine.Run(Engine.Begin(EMPTY, now), init), ScriptsOf(now, init);
      if op.Commit? then Scripts(if Engine.CommitPasses(s) then p.log + [p.begun] else p.log, [])
      else if op.Rollback? then Scripts(p.log, [])
      else Scripts(p.log, p.begun + Attempts(s.cur, s.now, op))
  }

  // ----- one statement

  /** rows is the log of g, which is empty before the grant exists. */
  ghost predicate LogHere(db: Db, g: nat, rows: seq<Row>) {
    if g < |db.chains| then Tells(db, g, rows) else rows == []
  }

  lemma OneAttempt(rows: seq<Row>, t: Attempt, g: nat)
    ensures Alone(rows, [t], g) == if GrantOf(t.append) == g then Grown(rows, t.append) else rows
    ensures Faithful(rows, [t], g) <==> (GrantOf(t.append) == g ==> t.accepted == Accepts(rows, t.append))
  {
    assert [] + [t] == [t];
    ScriptSnoc(rows, [], t, g);
  }

  lemma AttributionTells(db: Db, now: int, row: Lineage, g: nat, rows: seq<Row>)
    requires Engine.InScope(db, row) && LogHere(db, g, rows)
    ensures var script := Attempts(db, now, Engine.InsertLineage(row));
            && LogHere(Engine.DoInsertLineage(db, now, row).db, g, Alone(rows, script, g))
            && Faithful(rows, script, g)
  {
    OneAttempt(rows, Attempts(db, now, Engine.InsertLineage(row))[0], g);
    if g == row.grant {
      AttributionDecided(db, now, row, rows);
      if Engine.DoInsertLineage(db, now, row).outcome == Engine.Accepted {
        AttributionLogged(db, now, row, rows);
      }
    } else if g < |db.chains| {
      AttributionElsewhere(db, now, row, g, rows);
    }
  }

  lemma ReservationTells(db: Db, now: int, row: Allocation, g: nat, rows: seq<Row>)
    requires Refs(db) && row.grant < |db.grants| && row.holdEntry < |db.holdEntries| && LogHere(db, g, rows)
    ensures var script := Attempts(db, now, Engine.InsertAllocation(row));
            && LogHere(Engine.DoInsertAllocation(db, now, row).db, g, Alone(rows, script, g))
            && Faithful(rows, script, g)
  {
    OneAttempt(rows, Attempts(db, now, Engine.InsertAllocation(row))[0], g);
    if g == row.grant {
      ReservationDecided(db, now, row, rows);
      if Engine.DoInsertAllocation(db, now, row).outcome == Engine.Accepted {
        ReservationLogged(db, now, row, rows);
      }
    } else if g < |db.chains| {
      ReservationElsewhere(db, now, row, g, rows);
    }
  }

  /** What the first n releases of a void do to the log of g. */
  ghost predicate ReleasesDo(db: Db, h: nat, n: nat, g: nat, rows: seq<Row>) {
    && Alone(rows, Releases(db, h, n), g) == (if g < n then AfterVoid(db, g, h, rows) else rows)
    && Faithful(rows, Releases(db, h, n), g)
  }

  lemma NoRelease(db: Db, h: nat, n: nat)
    requires !Engine.Backs(db, n, h)
    ensures Releases(db, h, n + 1) == Releases(db, h, n)
  {
  }

  lemma OneRelease(db: Db, h: nat, n: nat)
    requires Engine.Backs(db, n, h)
    ensures Releases(db, h, n + 1) == Releases(db, h, n) + [Attempt(Release(n, h, OpenFor(db, n, h)), true)]
  {
  }

  lemma NextRelease(db: Db, h: nat, n: nat, g: nat, rows: seq<Row>)
    requires ReleasesDo(db, h, n, g, rows)
    requires Engine.Backs(db, g, h) ==> Accepts(rows, Release(g, h, OpenFor(db, g, h)))
    ensures ReleasesDo(db, h, n + 1, g, rows)
  {
    if Engine.Backs(db, n, h) {
      OneRelease(db, h, n);
      ScriptSnoc(rows, Releases(db, h, n), Attempt(Release(n, h, OpenFor(db, n, h)), true), g);
    } else {
      NoRelease(db, h, n);
    }
  }

  lemma {:induction false} ReleasesAlone(db: Db, h: nat, n: nat, g: nat, rows: seq<Row>)
    requires Engine.Backs(db, g, h) ==> Accepts(rows, Release(g, h, OpenFor(db, g, h)))
    ensures ReleasesDo(db, h, n, g, rows)
    decreases n
  {
    if n > 0 {
      ReleasesAlone(db, h, n - 1, g, rows);
      NextRelease(db, h, n - 1, g, rows);
    }
  }

  lemma VoidTells(db: Db, h: nat, row: Hold, g: nat, rows: seq<Row>)
    requires Refs(db) && Links(db) && LogHere(db, g, rows) && row.state == Voided
    requires Engine.DoUpdateHold(db, h, row).outcome == Engine.Accepted
    ensures LogHere(Engine.DoUpdateHold(db, h, row).db, g, Alone(rows, Releases(db, h, |db.chains|), g))
    ensures Faithful(rows, Releases(db, h, |db.chains|), g)
  {
    if g < |db.chains| {
      ReleaseDecided(db, g, h, rows);
      ReleaseLogged(db, h, row, g, rows);
    } else {
      BacksKnown(db, g, h);
    }
    ReleasesAlone(db, h, |db.chains|, g, rows);
  }

  lemma BacksKnown(db: Db, g: nat, h: nat)
    requires Refs(db) && Links(db) && g >= |db.chains|
    ensures !Engine.Backs(db, g, h)
  {
    forall i: nat | i < |db.allocations| ensures db.allocations[i].grant != g {
      assert AllocationLinked(db, db.allocations[i]);
    }
  }

  lemma InsertTells(db: Db, now: int, op: Engine.Op, g: nat, rows: seq<Row>)
    requires Inv(db) && LogHere(db, g, rows)
    requires Engine.RowOp(op) && !op.InsertLineage? && !op.InsertAllocation? && !op.UpdateHold?
    ensures LogHere(Engine.Statement(db, now, op).db, g, rows)
  {
    var db' := Engine.Statement(db, now, op).db;
    InsertFrames(db, now, op);
    if g < |db.chains| {
      FrameTells(db, db', g, rows);
    } else if g < |db'.chains| {
      NoRowsOf(db, g);
      FreshTells(db, db', g);
    }
  }

  lemma RefusedTells(db: Db, now: int, op: Engine.Op, g: nat, rows: seq<Row>)
    requires Engine.RowOp(op) && LogHere(db, g, rows) && Engine.Statement(db, now, op).db == db
    requires Attempts(db, now, op) == []
    ensures LogHere(Engine.Statement(db, now, op).db, g, Alone(rows, Attempts(db, now, op), g))
    ensures Faithful(rows, Attempts(db, now, op), g)
  {
  }

  lemma AdvanceReads(db: Db, h: nat, row: Hold, g: nat, rows: seq<Row>)
    requires LogHere(db, g, rows) && row.state != Voided
    ensures LogHere(Engine.DoUpdateHold(db, h, row).db, g, rows)
  {
    if g < |db.chains| {
      AdvanceTells(db, h, row, g, rows);
    }
  }

  lemma UpdateTells(db: Db, now: int, h: nat, row: Hold, g: nat, rows: seq<Row>)
    requires Refs(db) && Links(db) && LogHere(db, g, rows)
    ensures var script := Attempts(db, now, Engine.UpdateHold(h, row));
            && LogHere(Engine.DoUpdateHold(db, h, row).db, g, Alone(rows, script, g))
            && Faithful(rows, script, g)
  {
    if row.state != Voided {
      AdvanceReads(db, h, row, g, rows);
    } else if Engine.DoUpdateHold(db, h, row).outcome == Engine.Accepted {
      VoidTells(db, h, row, g, rows);
    } else {
      RefusedTells(db, now, Engine.UpdateHold(h, row), g, rows);
    }
  }

  /**
   The log after a statement is the log before it, grown by the statement's attempts, each decided as
   the engine did.
   */
  lemma StatementTells(db: Db, now: int, op: Engine.Op, g: nat, rows: seq<Row>)
    requires Inv(db) && Engine.RowOp(op) && LogHere(db, g, rows)
    ensures LogHere(Engine.Statement(db, now, op).db, g, Alone(rows, Attempts(db, now, op), g))
    ensures Faithful(rows, Attempts(db, now, op), g)
  {
    match op
    case InsertLineage(row) =>
      if Engine.InScope(db, row) {
        AttributionTells(db, now, row, g, rows);
      } else {
        RefusedTells(db, now, op, g, rows);
      }
    case InsertAllocation(row) =>
      if row.grant < |db.grants| && row.holdEntry < |db.holdEntries| {
        ReservationTells(db, now, row, g, rows);
      } else {
        RefusedTells(db, now, op, g, rows);
      }
    case UpdateHold(h, row) => UpdateTells(db, now, h, row, g, rows);
    case _ => InsertTells(db, now, op, g, rows);
  }

  // ----- whole runs

  lemma {:induction false} AloneAppends(rows: seq<Row>, script: seq<Attempt>, more: seq<Attempt>, g: nat)
    ensures Alone(rows, script + more, g) == Alone(Alone(rows, script, g), more, g)
    ensures Faithful(rows, script + more, g) <==> Faithful(rows, script, g) && Faithful(Alone(rows, script, g), more, g)
    decreases |more|
  {
    if more == [] {
      assert script + more == script;
    } else {
      var init, last := more[..|more| - 1], more[|more| - 1];
      AloneAppends(rows, script, init, g);
      assert script + more == (script + init) + [last] && more == init + [last];
      ScriptSnoc(rows, script + init, last, g);
      ScriptSnoc(Alone(rows, script, g), init, last, g);
    }
  }

  /** The committed tables and the working ones, read as logs of the scripts. */
  ghost predicate ReadsAs(s: Engine.Session, p: Scripts, g: nat) {
    && LogHere(s.base, g, Serial(p.log, g)) && FaithfulLog(p.log, g)
    && LogHere(s.cur, g, Alone(Serial(p.log, g), p.begun, g)) && Faithful(Serial(p.log, g), p.begun, g)
  }

  lemma SerialSnoc(log: seq<seq<Attempt>>, script: seq<Attempt>, g: nat)
    ensures Serial(log + [script], g) == Alone(Serial(log, g), script, g)
    ensures FaithfulLog(log + [script], g) <==> FaithfulLog(log, g) && Faithful(Serial(log, g), script, g)
  {
    assert (log + [script])[..|log|] == log;
  }

  lemma StatementReads(s: Engine.Session, p: Scripts, op: Engine.Op, g: nat)
    requires ReadsAs(s, p, g) && Engine.RowOp(op) && Inv(s.cur)
    ensures ReadsAs(Engine.Exec(s, op).0, Scripts(p.log, p.begun + Attempts(s.cur, s.now, op)), g)
  {
    var rows := Alone(Serial(p.log, g), p.begun, g);
    StatementTells(s.cur, s.now, op, g, rows);
    AloneAppends(Serial(p.log, g), p.begun, Attempts(s.cur, s.now, op), g);
  }

  lemma BeginReads(db: Db, now: int, log: seq<seq<Attempt>>, g: nat)
    requires LogHere(db, g, Serial(log, g)) && FaithfulLog(log, g)
    ensures ReadsAs(Engine.Begin(db, now), Scripts(log, []), g)
  {
  }

  lemma PassReads(s: Engine.Session, p: Scripts, op: Engine.Op, g: nat)
    requires ReadsAs(s, p, g) && op.Commit? && Engine.CommitPasses(s)
    ensures ReadsAs(Engine.Exec(s, op).0, Scripts(p.log + [p.begun], []), g)
  {
    SerialSnoc(p.log, p.begun, g);
    BeginReads(s.cur, op.next, p.log + [p.begun], g);
  }

  lemma UndoReads(s: Engine.Session, p: Scripts, op: Engine.Op, g: nat)
    requires ReadsAs(s, p, g) && (op.Rollback? || (op.Commit? && !Engine.CommitPasses(s)))
    ensures ReadsAs(Engine.Exec(s, op).0, Scripts(p.log, []), g)
  {
    BeginReads(s.base, op.next, p.log, g);
  }

  /**
   In every run of the engine the log of every grant is the serial log of the scripts its statements
   make, in the committed and in the working tables, and each attempt was decided as that log decides it.
   */
  lemma {:induction false} RunIsSerial(now: int, ops: seq<Engine.Op>, g: nat)
    ensures ReadsAs(Engine.Run(Engine.Begin(EMPTY, now), ops), ScriptsOf(now, ops), g)
    decreases |ops|
  {
    if ops == [] {
      BeginReads(EMPTY, now, [], g);
    } else {
      var init, op := ops[..|ops| - 1], ops[|ops| - 1];
      var s, p := Engine.Run(Engine.Begin(EMPTY, now), init), ScriptsOf(now, init);
      RunIsSerial(now, init, g);
      RunKeepsInv(now, init);
      if Engine.RowOp(op) {
        StatementReads(s, p, op, g);
      } else if op.Commit? && Engine.CommitPasses(s) {
        PassReads(s, p, op, g);
      } else {
        UndoReads(s, p, op, g);
      }
    }
  }

  /** In every reachable state each grant has a log; it derives from its events, and versions count 1, 2, 3 and on. */
  lemma RunHasLogs(now: int, ops: seq<Engine.Op>, g: nat)
    ensures var s, p := Engine.Run(Engine.Begin(EMPTY, now), ops), ScriptsOf(now, ops);
            && (g < |s.base.chains| ==> Tells(s.base, g, Serial(p.log, g)))
            && (g < |s.cur.chains| ==> Tells(s.cur, g, Alone(Serial(p.log, g), p.begun, g)))
            && Derived(Serial(p.log, g)) && Derived(Alone(Serial(p.log, g), p.begun, g))
  {
    var p := ScriptsOf(now, ops);
    RunIsSerial(now, ops, g);
    SerialDerived(p.log, g);
    AloneDerived(Serial(p.log, g), p.begun, g);
  }

  // ----- sessions that make the attempts one after another

  function Drive(sid: nat, script: seq<Attempt>): seq<Step> {
    if script == [] then []
    else Drive(sid, script[..|script| - 1]) + [Lock(sid, script[|script| - 1].append), Validate(sid), Write(sid)]
  }

  /** Each transaction in a session of its own. */
  function DriveAll(log: seq<seq<Attempt>>): seq<Step> {
    if log == [] then []
    else DriveAll(log[..|log| - 1]) + Drive(|log| - 1, log[|log| - 1]) + [Commit(|log| - 1)]
  }

  /** Only session sid holds locks, and it is between attempts; the others have not begun, or are done. */
  ghost predicate OneSession(s: State, sid: nat) {
    && (forall g: nat :: g in s.locks ==> s.locks[g] == sid)
    && (forall q: nat :: s.work(q).phase == Ready && (q != sid ==> s.work(q).script == []))
  }

  lemma Then(steps: seq<Step>, step: Step)
    ensures Interleaved(steps + [step]) == Next(Interleaved(steps), step)
  {
    assert (steps + [step])[..|steps|] == steps;
  }

  lemma ThenAttempt(steps: seq<Step>, sid: nat, a: Append)
    ensures Interleaved(steps + [Lock(sid, a), Validate(sid), Write(sid)]) ==
            Next(Next(Next(Interleaved(steps), Lock(sid, a)), Validate(sid)), Write(sid))
  {
    Then(steps, Lock(sid, a));
    Then(steps + [Lock(sid, a)], Validate(sid));
    Then(steps + [Lock(sid, a)] + [Validate(sid)], Write(sid));
    assert steps + [Lock(sid, a), Validate(sid), Write(sid)] == steps + [Lock(sid, a)] + [Validate(sid)] + [Write(sid)];
  }

  lemma AttemptDone(s: State, sid: nat, t: Attempt)
    requires OneSession(s, sid) && t.accepted == Accepts(Visible(s, sid, GrantOf(t.append)), t.append)
    ensures var s' := Next(Next(Next(s, Lock(sid, t.append)), Validate(sid)), Write(sid));
            && OneSession(s', sid) && s'.committed == s.committed && s'.log == s.log
            && s'.work(sid).script == s.work(sid).script + [t]
  {
  }

  /** The session has made these attempts since the commit before. */
  ghost predicate HasMade(steps: seq<Step>, from: seq<Step>, sid: nat, script: seq<Attempt>) {
    var s, was := Interleaved(steps), Interleaved(from);
    OneSession(s, sid) && s.committed == was.committed && s.log == was.log && s.work(sid).script == script
  }

  lemma MadeMore(steps: seq<Step>, from: seq<Step>, sid: nat, script: seq<Attempt>, t: Attempt)
    requires HasMade(steps, from, sid, script)
    requires Faithful(Interleaved(from).committed(GrantOf(t.append)), script + [t], GrantOf(t.append))
    ensures HasMade(steps + [Lock(sid, t.append), Validate(sid), Write(sid)], from, sid, script + [t])
  {
    var s, g := Interleaved(steps), GrantOf(t.append);
    RunKeeps(steps);
    assert SessionOk(s, sid, g);
    ScriptSnoc(Interleaved(from).committed(g), script, t, g);
    AttemptDone(s, sid, t);
    ThenAttempt(steps, sid, t.append);
  }

  lemma {:induction false} Driven(from: seq<Step>, sid: nat, script: seq<Attempt>)
    requires HasMade(from, from, sid, []) && forall g: nat :: Faithful(Interleaved(from).committed(g), script, g)
    ensures HasMade(from + Drive(sid, script), from, sid, script)
    decreases |script|
  {
    if script == [] {
      assert from + Drive(sid, script) == from;
    } else {
      var init, t := script[..|script| - 1], script[|script| - 1];
      assert script == init + [t];
      forall g: nat ensures Faithful(Interleaved(from).committed(g), init, g) {
        ScriptSnoc(Interleaved(from).committed(g), init, t, g);
      }
      Driven(from, sid, init);
      MadeMore(from + Drive(sid, init), from, sid, init, t);
      assert from + Drive(sid, script) ==
             from + Drive(sid, init) + [Lock(sid, t.append), Validate(sid), Write(sid)];
    }
  }

  /** The commit frees every lock, so that any other session may begin. */
  lemma Committed(steps: seq<Step>, from: seq<Step>, sid: nat, script: seq<Attempt>, next: nat)
    requires HasMade(steps, from, sid, script)
    ensures HasMade(steps + [Commit(sid)], steps + [Commit(sid)], next, [])
    ensures Interleaved(steps + [Commit(sid)]).log == Interleaved(from).log + [script]
  {
    Then(steps, Commit(sid));
  }

  /** Whatever log is decided as its serial run decides it, sessions of one transaction each commit it. */
  lemma {:induction false} LogReached(log: seq<seq<Attempt>>)
    requires forall g: nat :: FaithfulLog(log, g)
    ensures Interleaved(DriveAll(log)).log == log && HasMade(DriveAll(log), DriveAll(log), |log|, [])
    decreases |log|
  {
    if log == [] {
      assert Interleaved([]) == INITIAL;
    } else {
      var init, script := log[..|log| - 1], log[|log| - 1];
      forall g: nat ensures FaithfulLog(init, g) && Faithful(Serial(init, g), script, g) {
        assert FaithfulLog(log, g);
      }
      LogReached(init);
      forall g: nat ensures Faithful(Interleaved(DriveAll(init)).committed(g), script, g) {
        Serialises(DriveAll(init), g);
      }
      Driven(DriveAll(init), |init|, script);
      Committed(DriveAll(init) + Drive(|init|, script), DriveAll(init), |init|, script, |log|);
      assert init + [script] == log;
    }
  }

  /**
   Sessions that interleave under the grant locks and commit the transactions of an engine run leave on
   every grant exactly the rows of that run: its chain, its sums, its keys and its voids.
   */
  lemma InterleavingIsRun(now: int, ops: seq<Engine.Op>, steps: seq<Step>, g: nat)
    requires Interleaved(steps).log == ScriptsOf(now, ops).log
    requires g < |Engine.Run(Engine.Begin(EMPTY, now), ops).base.chains|
    ensures Tells(Engine.Run(Engine.Begin(EMPTY, now), ops).base, g, Interleaved(steps).committed(g))
  {
    RunIsSerial(now, ops, g);
    Serialises(steps, g);
  }

  /** And there are such sessions for every run, one for each transaction. */
  lemma RunIsInterleaved(now: int, ops: seq<Engine.Op>)
    ensures exists steps: seq<Step> :: Interleaved(steps).log == ScriptsOf(now, ops).log
  {
    var log := ScriptsOf(now, ops).log;
    forall g: nat ensures FaithfulLog(log, g) {
      RunIsSerial(now, ops, g);
    }
    LogReached(log);
  }
}
