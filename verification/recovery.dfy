/** Crash recovery: no migration stays running, or owned, by someone who has gone silent. */
module Recovery {
  import opened Options
  import opened Statements
  import opened Migrations
  import opened Lifecycle
  import opened LifecycleInvariants
  import opened Ownership

  const STALE_SECONDS := 60 * STALE_MINUTES

  /** A running migration is owned. */
  predicate RunningIsOwned(db: Db) {
    forall id :: id in db.rows && db.rows[id].status == Running ==> db.rows[id].token != NoToken
  }

  /**
   Within the stale window of its ownership, the row a direct applier holds waits for it, or a human
   has completed it.
   */
  predicate Waits(db: Db, serial: nat, id: nat, since: int) {
    && id in db.rows && since <= db.now
    && db.rows[id].strategy == Direct
    && (db.now <= since + STALE_SECONDS ==>
          || db.rows[id].status == Complete
          || (db.rows[id].status == Ready && db.rows[id].token == Unique(serial)
              && db.rows[id].livenessAt == Some(since)))
  }

  predicate AppliersWait(s: System) {
    forall n :: n in s.appliers && s.appliers[n].Holding? ==> Waits(s.db, n, s.appliers[n].id, s.appliers[n].since)
  }

  predicate RecoveryInv(s: System) {
    && RunningIsOwned(s.db) && AppliersWait(s)
    && forall n :: n in s.appliers ==> n < s.nextSerial
  }

  /**
   Each status handler reads and writes as one step, so that a write it lands still finds the token
   it read; and a direct applier starts its migration within the stale window.
   */
  predicate Prompt(s: System, step: Step) {
    match step
    case DoWrite(StatusWrite(id, from, to, _, seenToken)) =>
      seenToken != NoToken && id in s.db.rows && s.db.rows[id].status == from ==> s.db.rows[id].token == seenToken
    case ApplierStart(n) =>
      n in s.appliers && s.appliers[n].Holding? ==> s.db.now <= s.appliers[n].since + STALE_SECONDS
    case _ => true
  }

  /** A handler that reads and writes without anyone coming in between is prompt. */
  lemma UndisturbedReportIsPrompt(s: System, id: nat, host: string, to: Status)
    requires Enabled(s, ReportRead(id, host, to))
    ensures var write := StatusWrite(id, s.db.rows[id].status, to, s.db.rows[id].strategy, Host(host));
            var t := Next(s, ReportRead(id, host, to));
            Enabled(t, DoWrite(write)) && Prompt(t, DoWrite(write))
  {
    RowsAreMapped(s.db, Nothing, id);
  }

  /** Whether a statement would make this row running. */
  predicate Starts(sql: Sql, id: nat, r: Migration) {
    sql.SetStatus? && sql.id == id && sql.to == Running && r.status == sql.from && r.strategy == sql.strategy
  }

  lemma RunningBefore(db: Db, sql: Sql, id: nat)
    requires id in db.rows && RowOk(db.rows[id]) && Lawful(db, sql)
    requires RowAfter(sql, db.now, id, db.rows[id]).status == Running
    ensures Starts(sql, id, db.rows[id]) ||
            (db.rows[id].status == Running &&
             (db.rows[id].token != NoToken ==> RowAfter(sql, db.now, id, db.rows[id]).token != NoToken))
    ensures Starts(sql, id, db.rows[id]) ==> RowAfter(sql, db.now, id, db.rows[id]).token == db.rows[id].token
  {
  }

  lemma StatementKeepsRunningOwned(db: Db, sql: Sql)
    requires RowsOk(db) && Lawful(db, sql) && RunningIsOwned(db)
    requires forall id :: id in db.rows && Starts(sql, id, db.rows[id]) ==> db.rows[id].token != NoToken
    ensures RunningIsOwned(Exec(db, sql))
  {
    hide RowAfter, RowsAfter, Exec, RowOk, Lawful;
    var after := Exec(db, sql);
    forall id | id in after.rows && after.rows[id].status == Running ensures after.rows[id].token != NoToken {
      if id in db.rows {
        RowsAreMapped(db, sql, id);
        RunningBefore(db, sql, id);
      } else {
        NewRowIsProposed(db, sql, id);
      }
    }
  }

  lemma NewRowIsProposed(db: Db, sql: Sql, id: nat)
    requires Lawful(db, sql) && id in Exec(db, sql).rows && id !in db.rows
    ensures Exec(db, sql).rows[id].status == Proposed
  {
    NewRows(db, sql, id);
  }

  lemma StartsAreOwned(s: System, step: Step)
    requires Inv(s) && RecoveryInv(s) && Enabled(s, step) && Prompt(s, step)
    ensures forall id :: id in s.db.rows && Starts(Statement(s, step), id, s.db.rows[id]) ==>
              s.db.rows[id].token != NoToken
  {
    hide Inv, RowAfter, Enabled, Statement, RunningIsOwned, Waits, WriteOk, Starts;
    forall id | id in s.db.rows && Starts(Statement(s, step), id, s.db.rows[id])
      ensures s.db.rows[id].token != NoToken
    {
      OnlyTheseStart(s, step, id);
      if step.DoWrite? {
        WriteIsOk(s, step.write);
        WriteStartsOwned(s, step.write, id);
      } else {
        ApplierStartsOwned(s, step.serial, id);
      }
    }
  }

  lemma OnlyTheseStart(s: System, step: Step, id: nat)
    requires Enabled(s, step) && id in s.db.rows && Starts(Statement(s, step), id, s.db.rows[id])
    ensures (step.DoWrite? && step.write in s.writes) || (step.ApplierStart? && step.serial in s.appliers)
    ensures step.ApplierStart? ==> s.appliers[step.serial].Holding?
  {
    hide Eligible, GhostReadyFor, HasToken, FreshRow, WorthAnalysing;
  }

  lemma WriteIsOk(s: System, w: Write)
    requires Inv(s) && w in s.writes
    ensures WriteOk(w)
  {
  }

  lemma WriteStartsOwned(s: System, w: Write, id: nat)
    requires Enabled(s, DoWrite(w)) && WriteOk(w) && Prompt(s, DoWrite(w)) && id in s.db.rows
    requires Starts(Statement(s, DoWrite(w)), id, s.db.rows[id])
    ensures s.db.rows[id].token != NoToken
  {
    hide WriteOk;
    ReportsKnowTheOwner(w);
  }

  lemma ApplierStartsOwned(s: System, serial: nat, id: nat)
    requires RecoveryInv(s) && Enabled(s, ApplierStart(serial)) && Prompt(s, ApplierStart(serial)) && id in s.db.rows
    requires Starts(Statement(s, ApplierStart(serial)), id, s.db.rows[id])
    ensures s.db.rows[id].token != NoToken
  {
    hide Waits, RunningIsOwned;
    StartedIsOwned(s.db, serial, s.appliers[serial].id, s.appliers[serial].since);
  }

  lemma ReportsKnowTheOwner(w: Write)
    requires WriteOk(w)
    ensures w.StatusWrite? && w.to == Running ==> w.seenToken != NoToken
  {
  }

  lemma StartedIsOwned(db: Db, serial: nat, id: nat, since: int)
    requires Waits(db, serial, id, since) && db.now <= since + STALE_SECONDS
    ensures id in db.rows && db.rows[id].status == Ready ==> db.rows[id].token != NoToken
  {
  }

  /** Statements that leave a waiting applier's row alone, within the window. */
  predicate Spares(db: Db, sql: Sql, id: nat) {
    && (sql.SetStatus? && sql.id == id && sql.from == Ready && sql.strategy == Direct ==> sql.to == Complete)
    && (sql.Expire? ==> sql.minutes == STALE_MINUTES)
  }

  lemma RowStillWaits(db: Db, sql: Sql, serial: nat, id: nat, since: int)
    requires Waits(db, serial, id, since) && RowOk(db.rows[id]) && Lawful(db, sql)
    requires db.now <= since + STALE_SECONDS ==> Spares(db, sql, id) || db.rows[id].status != Ready
    ensures Waits(Exec(db, sql), serial, id, since)
  {
    hide RowsAfter;
    RowsAreMapped(db, sql, id);
    RowAfterIsLegal(db, sql, id);
  }

  lemma StepSparesWaiting(s: System, step: Step, n: nat)
    requires Inv(s) && RecoveryInv(s) && Enabled(s, step) && Prompt(s, step)
    requires n in s.appliers && s.appliers[n].Holding? && step != ApplierStart(n)
    requires s.db.now <= s.appliers[n].since + STALE_SECONDS
    ensures Spares(s.db, Statement(s, step), s.appliers[n].id) || s.db.rows[s.appliers[n].id].status != Ready
  {
    hide RowsOk, PrsKnown, ProbeOk, OnlyApproved, HostOk, RunningIsOwned, Eligible, GhostReadyFor, HasToken;
    if step.ApplierStart? {
      OneApplierWaits(s.db, step.serial, s.appliers[step.serial].since, n, s.appliers[n].since, s.appliers[n].id);
    } else if step.DoWrite? {
      assert WriteOk(step.write);
    }
  }

  /** Two appliers do not both have a ready row waiting for them. */
  lemma OneApplierWaits(db: Db, m: nat, sinceM: int, n: nat, sinceN: int, id: nat)
    requires m != n && Waits(db, n, id, sinceN)
    requires db.now <= sinceM + STALE_SECONDS && db.now <= sinceN + STALE_SECONDS
    ensures Waits(db, m, id, sinceM) ==> db.rows[id].status != Ready
  {
  }

  lemma NewHolderWaits(s: System, id: nat)
    requires Inv(s) && Enabled(s, ApplierOwn(id))
    ensures Waits(Next(s, ApplierOwn(id)).db, s.nextSerial, id, s.db.now)
  {
    hide RowsAfter, Inv;
    RowsAreMapped(s.db, Statement(s, ApplierOwn(id)), id);
  }

  lemma StepKeepsWaiting(s: System, step: Step)
    requires Inv(s) && RecoveryInv(s) && Enabled(s, step) && Prompt(s, step)
    ensures AppliersWait(Next(s, step))
  {
    hide Exec, RowOk, Waits, PrsKnown, ProbeOk, OnlyApproved, HostOk, RowAfter, Prompt, RunningIsOwned, Lawful;
    hide HostsAfter, WritesAfter, ProbeAfter, Spares;
    var sql := Statement(s, step);
    StatementIsLawful(s, step);
    forall n | n in Next(s, step).appliers && Next(s, step).appliers[n].Holding?
      ensures Waits(Next(s, step).db, n, Next(s, step).appliers[n].id, Next(s, step).appliers[n].since)
    {
      if step.ApplierOwn? && n == s.nextSerial {
        NewHolderWaits(s, step.id);
      } else {
        var id, since := s.appliers[n].id, s.appliers[n].since;
        WaitingRowIsThere(s.db, n, id, since);
        if s.db.now <= since + STALE_SECONDS {
          StepSparesWaiting(s, step, n);
        }
        RowStillWaits(s.db, sql, n, id, since);
      }
    }
  }

  lemma WaitingRowIsThere(db: Db, n: nat, id: nat, since: int)
    requires Waits(db, n, id, since)
    ensures id in db.rows
  {
  }

  lemma StepKeepsRecovery(s: System, step: Step)
    requires Inv(s) && RecoveryInv(s) && Enabled(s, step) && Prompt(s, step)
    ensures RecoveryInv(Next(s, step))
  {
    hide Exec, RowsOk, PrsKnown, ProbeOk, OnlyApproved, HostOk, RunningIsOwned, AppliersWait, Lawful, Prompt, Starts;
    StatementIsLawful(s, step);
    StartsAreOwned(s, step);
    StatementKeepsRunningOwned(s.db, Statement(s, step));
    StepKeepsWaiting(s, step);
  }

  ghost predicate IsPromptRun(run: seq<System>, steps: seq<Step>) {
    IsRun(run, steps) && forall i :: 0 <= i < |steps| ==> Prompt(run[i], steps[i])
  }

  /** On every prompt run, every running migration is owned. */
  lemma {:induction false} RunningAlwaysOwned(run: seq<System>, steps: seq<Step>, n: nat)
    requires IsPromptRun(run, steps) && n < |run|
    ensures RecoveryInv(run[n]) && RunningIsOwned(run[n].db)
  {
    if n > 0 {
      hide Inv, Next, Enabled, RecoveryInv, Prompt;
      RunningAlwaysOwned(run, steps, n - 1);
      StepOfRun(run, steps, n);
      AlwaysInv(run, steps, n - 1);
      StepKeepsRecovery(run[n - 1], steps[n - 1]);
    }
    hide RunningIsOwned;
  }

  /** So after a sweep of running migrations none of them has been silent for more than 10 minutes. */
  lemma SweepLeavesNothingStale(run: seq<System>, steps: seq<Step>, n: nat, id: nat)
    requires IsPromptRun(run, steps) && n < |steps| && steps[n] == SweepRunning
    requires id in run[n + 1].db.rows && run[n + 1].db.rows[id].status == Running
    ensures run[n + 1].db.rows[id].livenessAt.Some?
    ensures run[n + 1].db.now - run[n + 1].db.rows[id].livenessAt.value <= STALE_SECONDS
  {
    hide RowsAfter, WritesAfter, HostsAfter, AppliersAfter, ProbeAfter;
    StepOfRun(run, steps, n + 1);
    RunningAlwaysOwned(run, steps, n);
    AlwaysInv(run, steps, n);
    assert run[n + 1].db == Exec(run[n].db, Expire(Running, Failed, STALE_MINUTES));
    SweptRow(run[n].db, id);
  }

  /** The sweep takes exactly the silent: whoever gave a sign of life within 10 minutes keeps the migration. */
  lemma SweepTakesExactlyTheSilent(run: seq<System>, steps: seq<Step>, n: nat, id: nat)
    requires IsPromptRun(run, steps) && n < |steps| && steps[n] == SweepRunning
    requires id in run[n].db.rows && run[n].db.rows[id].status == Running
    ensures id in run[n + 1].db.rows && run[n].db.rows[id].livenessAt.Some?
    ensures var a, b := run[n].db.rows[id], run[n + 1].db.rows[id];
            b == if run[n].db.now - a.livenessAt.value > 600 then a.(status := Failed, token := NoToken) else a
  {
    hide RowsAfter, WritesAfter, HostsAfter, AppliersAfter, ProbeAfter;
    StepOfRun(run, steps, n + 1);
    RunningAlwaysOwned(run, steps, n);
    AlwaysInv(run, steps, n);
    RowsAreMapped(run[n].db, Expire(Running, Failed, STALE_MINUTES), id);
    assert RowOk(run[n].db.rows[id]);
  }

  /** The other sweeps take the token of whoever has been silent, and leave everything else as it is. */
  lemma OtherSweepsRelease(s: System, id: nat)
    requires id in s.db.rows
    ensures SweptBy(s, SweepReady, Ready, id) && SweptBy(s, SweepComplete, Complete, id)
    ensures SweptBy(s, SweepFailed, Failed, id)
  {
    hide RowsAfter;
    RowsAreMapped(s.db, Expire(Ready, Ready, STALE_MINUTES), id);
    RowsAreMapped(s.db, Expire(Complete, Complete, STALE_MINUTES), id);
    RowsAreMapped(s.db, Expire(Failed, Failed, STALE_MINUTES), id);
  }

  ghost predicate SweptBy(s: System, step: Step, status: Status, id: nat)
    requires id in s.db.rows
  {
    && Enabled(s, step) && id in Next(s, step).db.rows
    && var a, b := s.db.rows[id], Next(s, step).db.rows[id];
       b == if a.status == status && a.livenessAt.Some? && s.db.now - a.livenessAt.value > 600
            then a.(token := NoToken) else a
  }

  lemma SweptRow(db: Db, id: nat)
    requires RowsOk(db) && RunningIsOwned(db)
    requires var after := Exec(db, Expire(Running, Failed, STALE_MINUTES));
             id in after.rows && after.rows[id].status == Running
    ensures var r := Exec(db, Expire(Running, Failed, STALE_MINUTES)).rows[id];
      r.livenessAt.Some? && db.now - r.livenessAt.value <= STALE_SECONDS
  {
    assert RowOk(db.rows[id]);
  }

  /** Nobody owns the migration, it has been on offer for 300 seconds, and `host` is looking for work. */
  predicate Unclaimed(s: System, id: nat, host: string)
    requires id in s.db.rows && s.db.rows[id].readyAt.Some?
  {
    && s.db.rows[id].token == NoToken && s.db.now >= s.db.rows[id].readyAt.value + ANY_SITE_SECONDS
    && host in s.hosts && s.hosts[host] == Checked
  }

  /** And a gh-ost migration on offer that nobody owns can be taken at any site once 300 seconds have passed. */
  lemma AnySiteCanTakeOver(run: seq<System>, steps: seq<Step>, n: nat, id: nat, host: string, site: string)
    requires IsRun(run, steps) && n < |run| && Live(run[n].db, id)
    requires run[n].db.rows[id].status == Ready && run[n].db.rows[id].strategy == Ghost
    ensures run[n].db.rows[id].readyAt.Some?
    ensures Unclaimed(run[n], id, host) ==> Enabled(run[n], HostPick(host, id, site))
  {
    AlwaysInv(run, steps, n);
    assert RowOk(run[n].db.rows[id]);
  }

  /**
   Exactly when a write makes a migration running without an owner: it lands on a row that is still
   in the status it read, but whose token has been cleared since.
   */
  lemma OrphanedExactlyIfTokenCleared(db: Db, sql: Sql, id: nat)
    requires id in db.rows && sql.SetStatus? && sql.to == Running && sql.id == id && db.rows[id].status != Running
    ensures var r := Exec(db, sql).rows[id];
            (r.status == Running && r.token == NoToken) <==>
              (Starts(sql, id, db.rows[id]) && db.rows[id].token == NoToken)
  {
    RowsAreMapped(db, sql, id);
  }

  predicate Orphan(db: Db, id: nat) {
    id in db.rows && db.rows[id].status == Running && db.rows[id].token == NoToken
  }

  /** The statement grants this running migration to someone, or writes another status. */
  predicate Rescues(db: Db, sql: Sql, id: nat)
    requires id in db.rows
  {
    || (sql.OwnById? && sql.id == id)
    || (sql.SetStatus? && sql.id == id && sql.from == Running && sql.to != Running
        && sql.strategy == db.rows[id].strategy)
  }

  /** Exactly what ends it. A sweep is none of these. */
  lemma OrphanEndsExactlyBy(db: Db, sql: Sql, id: nat)
    requires Orphan(db, id) && Lawful(db, sql)
    ensures Orphan(Exec(db, sql), id) <==> !Rescues(db, sql, id)
  {
    hide RowsAfter, Exec;
    RowsAreMapped(db, sql, id);
  }

  /**
   On every run a running migration without an owner stays so, through any number of sweeps and any
   time, until someone is granted it or reports another status.
   */
  lemma {:induction false} OrphanStays(run: seq<System>, steps: seq<Step>, i: nat, j: nat, id: nat)
    requires IsRun(run, steps) && i <= j < |run| && Orphan(run[i].db, id)
    requires forall k :: i <= k < j && id in run[k].db.rows ==> !Rescues(run[k].db, Statement(run[k], steps[k]), id)
    ensures Orphan(run[j].db, id)
    decreases j - i
  {
    hide Rescues, Orphan, Statement, Next, Enabled;
    if i < j {
      OrphanStays(run, steps, i, j - 1, id);
      StepOfRun(run, steps, j);
      assert id in run[j - 1].db.rows by { OrphanIsThere(run[j - 1].db, id); }
      AlwaysInv(run, steps, j - 1);
      OrphanStaysOneStep(run[j - 1], steps[j - 1], id);
    }
  }

  lemma OrphanIsThere(db: Db, id: nat)
    requires Orphan(db, id)
    ensures id in db.rows
  {
  }

  lemma OrphanStaysOneStep(s: System, step: Step, id: nat)
    requires Inv(s) && Enabled(s, step) && Orphan(s.db, id)
    requires id in s.db.rows && !Rescues(s.db, Statement(s, step), id)
    ensures Orphan(Next(s, step).db, id)
  {
    hide Inv, Enabled, Rescues, Orphan, Exec, Statement, Lawful;
    StatementIsLawful(s, step);
    OrphanEndsExactlyBy(s.db, Statement(s, step), id);
  }

  /** A host that had picked the migration earlier may still own it, and then the sweep applies again. */
  lemma PickedOrphanIsRecovered(s: System, id: nat, host: string)
    requires Orphan(s.db, id) && host in s.hosts && s.hosts[host] == Picked(id)
    ensures Enabled(s, HostOwn(host))
    ensures var t := Next(Next(Next(s, HostOwn(host)), Tick(STALE_SECONDS + 1)), SweepRunning);
            id in t.db.rows && t.db.rows[id].status == Failed && t.db.rows[id].token == NoToken
  {
    hide RowsAfter, HostsAfter, AppliersAfter, WritesAfter, ProbeAfter;
    RowsAreMapped(s.db, Statement(s, HostOwn(host)), id);
    var a := Next(s, HostOwn(host));
    RowsAreMapped(a.db, Wait(STALE_SECONDS + 1), id);
    var b := Next(a, Tick(STALE_SECONDS + 1));
    RowsAreMapped(b.db, Expire(Running, Failed, STALE_MINUTES), id);
  }

  /**
   How the case arises: a host owns a migration and reads it for its start report; the sweep takes a
   stale ownership away; the report then lands.
   */
  lemma LateReportOrphans(s: System, w: Write)
    requires w in s.writes && w.StatusWrite? && w.from == Ready && w.to == Running && w.id in s.db.rows
    requires var r := s.db.rows[w.id];
             r.status == Ready && r.strategy == w.strategy && Stale(r, s.db.now, STALE_MINUTES)
    ensures Enabled(s, SweepReady) && Enabled(Next(s, SweepReady), DoWrite(w))
    ensures var r := Next(Next(s, SweepReady), DoWrite(w)).db.rows[w.id]; r.status == Running && r.token == NoToken
  {
    hide RowAfter, Exec, Stale;
    SweptThenStarted(s.db, w.id, w.strategy);
  }

  lemma SweptThenStarted(db: Db, id: nat, strategy: Strategy)
    requires id in db.rows && db.rows[id].status == Ready && db.rows[id].strategy == strategy
    requires Stale(db.rows[id], db.now, STALE_MINUTES)
    ensures var after := Exec(Exec(db, Expire(Ready, Ready, STALE_MINUTES)), SetStatus(id, Ready, Running, strategy));
            id in after.rows && after.rows[id].status == Running && after.rows[id].token == NoToken
  {
    hide RowsAfter, Exec;
    var swept := Exec(db, Expire(Ready, Ready, STALE_MINUTES));
    RowsAreMapped(db, Expire(Ready, Ready, STALE_MINUTES), id);
    RowsAreMapped(swept, SetStatus(id, Ready, Running, strategy), id);
  }
}
