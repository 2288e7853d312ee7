/** What every interleaving of the lifecycle keeps. */
module LifecycleInvariants {
  import opened Statements
  import opened Migrations
  import opened Lifecycle

  // ---------- the common invariant ----------

  predicate WriteOk(w: Write) {
    match w
    case StatusWrite(_, from, to, strategy, seenToken) =>
      && LegalStatus(from, to) && to != Ready && (to == Queued ==> from == Failed)
      && (to == Running || to == Failed ==> seenToken.Host?)
      && (seenToken.Host? ==> strategy == Ghost)
    case StrategyWrite(_, _) => true
  }

  predicate HostOk(db: Db, phase: HostPhase) {
    match phase
    case Picked(id) => id in db.rows && db.rows[id].strategy == Ghost
    case _ => true
  }

  predicate ProbeOk(db: Db, probe: Probe) {
    match probe
    case Listed(known) => known.Keys <= db.prs.Keys
    case Looking(pr, _, _, known) => pr in db.prs && known.Keys <= db.prs.Keys
    case Inserting(pr, known) => pr in db.prs && known.Keys <= db.prs.Keys
    case _ => true
  }

  predicate PrsKnown(db: Db) {
    forall id :: id in db.rows ==> db.rows[id].pr in db.prs
  }

  /** Queued or later, and not finished. */
  predicate Committed(status: Status) {
    status == Queued || status == Ready || status == Running || status == Failed
  }

  predicate OnlyApproved(db: Db, approved: set<nat>) {
    forall id :: id in db.rows && Committed(db.rows[id].status) ==> db.rows[id].pr in approved
  }

  predicate Inv(s: System) {
    && RowsOk(s.db) && PrsKnown(s.db) && ProbeOk(s.db, s.probe)
    && (forall w :: w in s.writes ==> WriteOk(w))
    && (forall host :: host in s.hosts ==> HostOk(s.db, s.hosts[host]))
    && OnlyApproved(s.db, s.approvedQueued)
  }

  lemma StatementIsLawful(s: System, step: Step)
    requires Inv(s) && Enabled(s, step)
    ensures Lawful(s.db, Statement(s, step))
  {
  }

  lemma PrsOnlyGrow(db: Db, sql: Sql)
    ensures db.prs.Keys <= Exec(db, sql).prs.Keys
  {
  }

  lemma WritesStayOk(s: System, step: Step)
    requires Inv(s) && Enabled(s, step)
    ensures forall w :: w in WritesAfter(s, step) ==> WriteOk(w)
  {
    if step.ReportRead? {
      assert RowOk(s.db.rows[step.id]);
    }
  }

  lemma HostsStayOk(s: System, step: Step)
    requires Inv(s) && Enabled(s, step)
    ensures forall host :: host in Next(s, step).hosts ==> HostOk(Next(s, step).db, Next(s, step).hosts[host])
  {
    hide Exec, RowsAfter, RowAfter, RowOk, WritesAfter, ProbeAfter, AppliersAfter;
    StatementIsLawful(s, step);
    StatementKeepsRows(s.db, Statement(s, step));
    var t := Next(s, step);
    assert forall id :: id in s.db.rows ==> id in t.db.rows && LegalMove(s.db.rows[id], t.db.rows[id]);
  }

  lemma ProbeStaysOk(s: System, step: Step)
    requires Inv(s) && Enabled(s, step)
    ensures ProbeOk(Next(s, step).db, Next(s, step).probe)
  {
    hide RowsAfter, RowAfter, WritesAfter, HostsAfter, AppliersAfter;
    PrsOnlyGrow(s.db, Statement(s, step));
  }

  /** A row becomes queued, or otherwise committed, only from such a status or by the queueing of its pull request. */
  lemma CommittedBefore(db: Db, sql: Sql, id: nat)
    requires id in db.rows && Lawful(db, sql)
    requires Committed(RowAfter(sql, db.now, id, db.rows[id]).status)
    ensures Committed(db.rows[id].status) || sql == QueuePr(db.rows[id].pr)
  {
  }

  lemma StatementKeepsPrsKnown(db: Db, sql: Sql)
    requires PrsKnown(db) && RowsOk(db) && Lawful(db, sql) && (sql.InsertRow? ==> sql.row.pr in db.prs)
    ensures PrsKnown(Exec(db, sql))
  {
    hide RowAfter, RowsAfter, Exec, RowOk;
    StatementKeepsRows(db, sql);
    PrsOnlyGrow(db, sql);
    forall id | id in Exec(db, sql).rows ensures Exec(db, sql).rows[id].pr in Exec(db, sql).prs {
      if id in db.rows {
        assert LegalMove(db.rows[id], Exec(db, sql).rows[id]);
      } else {
        NewRows(db, sql, id);
      }
    }
  }

  lemma StatementKeepsOnlyApproved(db: Db, sql: Sql, approved: set<nat>)
    requires OnlyApproved(db, approved) && RowsOk(db) && Lawful(db, sql)
    ensures OnlyApproved(Exec(db, sql), if sql.QueuePr? then approved + {sql.pr} else approved)
  {
    hide RowAfter, RowsAfter, Exec, RowOk;
    StatementKeepsRows(db, sql);
    var after := Exec(db, sql);
    forall id | id in after.rows && Committed(after.rows[id].status)
      ensures after.rows[id].pr in approved || sql == QueuePr(after.rows[id].pr)
    {
      if id in db.rows {
        RowsAreMapped(db, sql, id);
        CommittedBefore(db, sql, id);
        assert LegalMove(db.rows[id], after.rows[id]);
      } else {
        NewRows(db, sql, id);
      }
    }
  }

  lemma StepKeepsInv(s: System, step: Step)
    requires Inv(s) && Enabled(s, step)
    ensures Inv(Next(s, step)) && RowsMoved(s.db, Next(s, step).db)
  {
    hide RowsOk, RowsMoved, PrsKnown, OnlyApproved, Exec, Lawful, WriteOk, HostOk;
    StatementIsLawful(s, step);
    StatementKeepsRows(s.db, Statement(s, step));
    StatementKeepsPrsKnown(s.db, Statement(s, step));
    StatementKeepsOnlyApproved(s.db, Statement(s, step), s.approvedQueued);
    WritesStayOk(s, step);
    HostsStayOk(s, step);
    ProbeStaysOk(s, step);
  }

  lemma {:induction false} AlwaysInv(run: seq<System>, steps: seq<Step>, n: nat)
    requires IsRun(run, steps) && n < |run|
    ensures Inv(run[n])
  {
    if n > 0 {
      hide Inv, Next, Enabled;
      AlwaysInv(run, steps, n - 1);
      StepOfRun(run, steps, n);
      StepKeepsInv(run[n - 1], steps[n - 1]);
    }
  }

  lemma StepOfRun(run: seq<System>, steps: seq<Step>, n: nat)
    requires IsRun(run, steps) && 0 < n < |run|
    ensures Enabled(run[n - 1], steps[n - 1]) && run[n] == Next(run[n - 1], steps[n - 1])
  {
    assert run[n] == run[(n - 1) + 1];
  }

  // ---------- lifecycle ----------

  lemma OneMove(run: seq<System>, steps: seq<Step>, n: nat, id: nat)
    requires IsRun(run, steps) && 0 < n < |run| && id in run[n - 1].db.rows
    ensures id in run[n].db.rows && LegalMove(run[n - 1].db.rows[id], run[n].db.rows[id])
  {
    hide Inv, Next, Enabled, LegalMove;
    StepOfRun(run, steps, n);
    AlwaysInv(run, steps, n - 1);
    StepKeepsInv(run[n - 1], steps[n - 1]);
  }

  /**
   On every run: rows never disappear, they move only along the legal status graph, what is
   complete or cancelled stays so, and the time of the first start is kept.
   */
  lemma {:induction false} FinishedForEver(run: seq<System>, steps: seq<Step>, i: nat, j: nat, id: nat)
    requires IsRun(run, steps) && i <= j < |run| && id in run[i].db.rows
    ensures id in run[j].db.rows
    ensures i + 1 == j ==> LegalMove(run[i].db.rows[id], run[j].db.rows[id])
    ensures Finished(run[i].db.rows[id].status) ==> run[j].db.rows[id].status == run[i].db.rows[id].status
    ensures run[i].db.rows[id].startedAt.Some? ==> run[j].db.rows[id].startedAt == run[i].db.rows[id].startedAt
    decreases j - i
  {
    hide IsRun, LegalMove, Finished;
    if i < j {
      FinishedForEver(run, steps, i, j - 1, id);
      OneMove(run, steps, j, id);
      MoveKeeps(run[j - 1].db.rows[id], run[j].db.rows[id]);
    } else {
      StayingIsLegal(run[i].db.rows[id]);
    }
  }

  lemma MoveKeeps(a: Migration, b: Migration)
    requires LegalMove(a, b)
    ensures Finished(a.status) ==> b.status == a.status
    ensures a.startedAt.Some? ==> b.startedAt == a.startedAt
  {
  }

  lemma StayingIsLegal(r: Migration)
    ensures LegalMove(r, r)
  {
  }

  /** At step `m` the prober queues a pull request that is open, labelled, and approved by the database team. */
  ghost predicate QueuedWhenApproved(run: seq<System>, steps: seq<Step>, m: nat, pr: nat)
    requires m < |run| && m < |steps|
  {
    && steps[m] == ProbeQueue && run[m].probe.Looking? && run[m].probe.pr == pr
    && run[m].probe.seen.approved && run[m].probe.seen.isOpen && run[m].probe.seen.diff
    && run[m].probe.seen.forReview && run[m].probe.seen.detected
    && (run[m].probe.status == PrDetected || run[m].probe.status == PrQueued)
  }

  lemma {:induction false} ApprovedBefore(run: seq<System>, steps: seq<Step>, n: nat, pr: nat) returns (m: nat)
    requires IsRun(run, steps) && n < |run| && pr in run[n].approvedQueued
    ensures m < n && QueuedWhenApproved(run, steps, m, pr)
  {
    if n == 0 {
      assert false;
    } else {
      hide Init, Statement, HostsAfter, AppliersAfter, WritesAfter, ProbeAfter, DiscoveredAfter, ChoicesAfter, Exec;
      hide Eligible, HasToken, GhostReadyFor;
      StepOfRun(run, steps, n);
      if pr in run[n - 1].approvedQueued {
        m := ApprovedBefore(run, steps, n - 1, pr);
      } else {
        m := n - 1;
      }
    }
  }

  /** What the prober has seen of a pull request, it has submitted so at an earlier step. */
  lemma {:induction false} SeenBefore(run: seq<System>, steps: seq<Step>, n: nat) returns (m: nat)
    requires IsRun(run, steps) && n < |run| && run[n].probe.Looking?
    ensures m < n && steps[m] == ProbeSubmit(run[n].probe.pr, run[n].probe.seen)
  {
    if n == 0 {
      assert false;
    } else {
      hide Init, Statement, HostsAfter, AppliersAfter, WritesAfter, DiscoveredAfter, ChoicesAfter, Exec;
      hide Eligible, HasToken, GhostReadyFor, AllDone;
      StepOfRun(run, steps, n);
      if steps[n - 1] == ProbeSubmit(run[n].probe.pr, run[n].probe.seen) {
        m := n - 1;
      } else {
        m := SeenBefore(run, steps, n - 1);
      }
    }
  }

  /**
   On every run: a migration is queued, ready, running or failed only if its pull request was queued
   at some step `m`, having been found open, labelled, and approved by the database team at a step `p`
   before.
   */
  lemma CommittedOnlyIfApproved(run: seq<System>, steps: seq<Step>, n: nat, id: nat) returns (p: nat, m: nat)
    requires IsRun(run, steps) && n < |run| && id in run[n].db.rows && Committed(run[n].db.rows[id].status)
    ensures run[n].db.rows[id].pr in run[n].approvedQueued
    ensures p < m < n && QueuedWhenApproved(run, steps, m, run[n].db.rows[id].pr)
    ensures steps[p].ProbeSubmit? && steps[p].pr == run[n].db.rows[id].pr && steps[p].seen.approved
  {
    AlwaysInv(run, steps, n);
    m := ApprovedBefore(run, steps, n, run[n].db.rows[id].pr);
    p := SeenBefore(run, steps, m);
  }
}
