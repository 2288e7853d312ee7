/** At most one gh-ost migration per cluster and shard is ready or running. */
module GhostExclusion {
  import opened Options
  import opened Statements
  import opened Migrations
  import opened Lifecycle
  import opened LifecycleInvariants

  predicate GhostActive(r: Migration) { r.strategy == Ghost && Active(r) }

  predicate Excluded(db: Db) {
    forall i, j :: i in db.rows && j in db.rows && i != j && GhostActive(db.rows[i]) && GhostActive(db.rows[j])
      ==> !SamePlace(db.rows[i], db.rows[j])
  }

  /** No gh-ost migration other than `id` is active where `id` would run. */
  predicate PlaceFree(db: Db, id: nat) {
    && id in db.rows && db.rows[id].strategy == Ghost
    && forall j :: j in db.rows && j != id && GhostActive(db.rows[j]) ==> !SamePlace(db.rows[j], db.rows[id])
  }

  predicate ExclusionInv(s: System) {
    Excluded(s.db) && forall id :: id in s.ghostChoices ==> PlaceFree(s.db, id)
  }

  /** The scheduler reads open pull requests only: while a gh-ost migration is active its own must be open. */
  predicate ActivePrsOpen(db: Db) {
    forall id :: id in db.rows && GhostActive(db.rows[id]) ==> InOpenPr(db, id)
  }

  /**
   No two passes of the scheduler have chosen different migrations for the same place. With one pass
   in flight at a time there is no more than one choice.
   */
  predicate ChoicesApart(s: System) {
    forall i, j :: i in s.ghostChoices && j in s.ghostChoices && i != j && i in s.db.rows && j in s.db.rows ==>
      !SamePlace(s.db.rows[i], s.db.rows[j])
  }

  /** Only the gh-ost scheduler's own write makes a gh-ost migration active. */
  lemma ActiveBefore(db: Db, sql: Sql, id: nat)
    requires id in db.rows && Lawful(db, sql) && RowOk(db.rows[id])
    requires GhostActive(RowAfter(sql, db.now, id, db.rows[id]))
    ensures GhostActive(db.rows[id]) || sql == SetStatus(id, Queued, Ready, Ghost)
  {
  }

  lemma StatementKeepsPlaces(db: Db, sql: Sql, id: nat)
    requires RowsOk(db) && Lawful(db, sql)
    requires id in Exec(db, sql).rows && GhostActive(Exec(db, sql).rows[id])
    ensures id in db.rows && SamePlace(Exec(db, sql).rows[id], db.rows[id])
    ensures GhostActive(db.rows[id]) || sql == SetStatus(id, Queued, Ready, Ghost)
  {
    hide RowAfter, RowsAfter, Exec, RowOk;
    StatementKeepsRows(db, sql);
    if id in db.rows {
      assert LegalMove(db.rows[id], Exec(db, sql).rows[id]);
      RowsAreMapped(db, sql, id);
      ActiveBefore(db, sql, id);
    } else {
      NewRows(db, sql, id);
    }
  }

  lemma StatementKeepsExcluded(db: Db, sql: Sql)
    requires RowsOk(db) && Lawful(db, sql) && Excluded(db)
    requires sql.SetStatus? && sql.to == Ready ==> PlaceFree(db, sql.id)
    ensures Excluded(Exec(db, sql))
  {
    hide RowAfter, RowsAfter, Exec, RowOk, GhostActive, Lawful;
    var after := Exec(db, sql);
    forall i, j | i in after.rows && j in after.rows && i != j
                  && GhostActive(after.rows[i]) && GhostActive(after.rows[j])
      ensures !SamePlace(after.rows[i], after.rows[j])
    {
      StatementKeepsPlaces(db, sql, i);
      StatementKeepsPlaces(db, sql, j);
    }
  }

  lemma StatementKeepsPlaceFree(db: Db, sql: Sql, id: nat)
    requires RowsOk(db) && Lawful(db, sql) && PlaceFree(db, id)
    requires sql.SetStatus? && sql.to == Ready && sql.id != id ==>
               sql.id !in db.rows || !SamePlace(db.rows[sql.id], db.rows[id])
    ensures PlaceFree(Exec(db, sql), id)
  {
    hide RowAfter, RowsAfter, Exec, RowOk, GhostActive, Lawful;
    var after := Exec(db, sql);
    StatementKeepsRows(db, sql);
    assert LegalMove(db.rows[id], after.rows[id]);
    forall j | j in after.rows && j != id && GhostActive(after.rows[j])
      ensures !SamePlace(after.rows[j], after.rows[id])
    {
      StatementKeepsPlaces(db, sql, j);
    }
  }

  /** The scheduler's choice is safe when made. */
  lemma EligibleIsFree(db: Db, id: nat)
    requires Eligible(db, id) && ActivePrsOpen(db)
    ensures PlaceFree(db, id)
  {
    forall j | j in db.rows && j != id && GhostActive(db.rows[j]) ensures !SamePlace(db.rows[j], db.rows[id]) {
      assert InOpenPr(db, j);
      assert !Beside(db, j, id);
    }
  }

  /** Only the scheduler's commit makes a row ready by a status write of its own. */
  lemma ReadyOnlyByCommit(s: System, step: Step)
    requires Inv(s) && Enabled(s, step)
    ensures Statement(s, step).SetStatus? && Statement(s, step).to == Ready ==>
      step.GhostCommit? && Statement(s, step).id in s.ghostChoices
  {
  }

  lemma StepKeepsExclusion(s: System, step: Step)
    requires Inv(s) && ExclusionInv(s) && ActivePrsOpen(s.db) && ChoicesApart(s) && Enabled(s, step)
    ensures ExclusionInv(Next(s, step))
  {
    hide Inv, RowsOk, Lawful, Excluded, PlaceFree, Exec, ActivePrsOpen, Eligible, Statement;
    var sql := Statement(s, step);
    assert RowsOk(s.db) by { RowsAreOk(s); }
    StatementIsLawful(s, step);
    ReadyOnlyByCommit(s, step);
    StatementKeepsExcluded(s.db, sql);
    forall id | id in ChoicesAfter(s, step) ensures PlaceFree(Exec(s.db, sql), id) {
      if step == GhostRead(id) {
        EligibleIsFree(s.db, id);
      }
      FreeIsThere(s.db, id);
      StatementKeepsPlaceFree(s.db, sql, id);
    }
  }

  lemma RowsAreOk(s: System)
    requires Inv(s)
    ensures RowsOk(s.db)
  {
  }

  lemma FreeIsThere(db: Db, id: nat)
    requires PlaceFree(db, id)
    ensures id in db.rows
  {
  }

  /**
   On every run on which the pull request of an active gh-ost migration is open, and overlapping
   passes choose for different places, no two gh-ost migrations are ever ready or running on one
   cluster and shard.
   */
  lemma {:induction false} MutualExclusion(run: seq<System>, steps: seq<Step>, n: nat)
    requires IsRun(run, steps) && n < |run|
    requires forall i :: 0 <= i < |run| ==> ActivePrsOpen(run[i].db) && ChoicesApart(run[i])
    ensures ExclusionInv(run[n]) && Excluded(run[n].db)
  {
    if n > 0 {
      hide Inv, Next, Enabled, ActivePrsOpen, ChoicesApart, ExclusionInv, Excluded, PlaceFree;
      MutualExclusion(run, steps, n - 1);
      StepOfRun(run, steps, n);
      AlwaysInv(run, steps, n - 1);
      StepKeepsExclusion(run[n - 1], steps[n - 1]);
    }
  }

  /**
   The assumption is needed: if a gh-ost migration is active and its pull request has been closed,
   the scheduler may start a second one beside it.
   */
  lemma OpenPullRequestIsNeeded(s: System, active: nat, queued: nat)
    requires active in s.db.rows && GhostActive(s.db.rows[active]) && !InOpenPr(s.db, active)
    requires InOpenPr(s.db, queued) && s.db.rows[queued].strategy == Ghost && s.db.rows[queued].status == Queued
    requires SamePlace(s.db.rows[active], s.db.rows[queued])
    requires forall other :: Beside(s.db, other, queued) ==> !Active(s.db.rows[other])
    ensures Enabled(s, GhostRead(queued))
    ensures Enabled(Next(s, GhostRead(queued)), GhostCommit(queued))
    ensures !Excluded(Next(Next(s, GhostRead(queued)), GhostCommit(queued)).db)
  {
    var s1 := Next(s, GhostRead(queued));
    var s2 := Next(s1, GhostCommit(queued));
    RowsAreMapped(s.db, Nothing, active);
    RowsAreMapped(s.db, Nothing, queued);
    RowsAreMapped(s1.db, Statement(s1, GhostCommit(queued)), active);
    RowsAreMapped(s1.db, Statement(s1, GhostCommit(queued)), queued);
    assert GhostActive(s2.db.rows[active]) && GhostActive(s2.db.rows[queued]);
  }

  /**
   So is the other one: two overlapping passes that have chosen different migrations for one place
   start both.
   */
  lemma ChoicesMustBeApart(s: System, i: nat, j: nat)
    requires i in s.ghostChoices && j in s.ghostChoices && i != j && i in s.db.rows && j in s.db.rows
    requires s.db.rows[i].strategy == Ghost && s.db.rows[i].status == Queued
    requires s.db.rows[j].strategy == Ghost && s.db.rows[j].status == Queued
    requires SamePlace(s.db.rows[i], s.db.rows[j])
    ensures Enabled(s, GhostCommit(i)) && Enabled(Next(s, GhostCommit(i)), GhostCommit(j))
    ensures !Excluded(Next(Next(s, GhostCommit(i)), GhostCommit(j)).db)
  {
    var s1 := Next(s, GhostCommit(i));
    var s2 := Next(s1, GhostCommit(j));
    RowsAreMapped(s.db, Statement(s, GhostCommit(i)), i);
    RowsAreMapped(s.db, Statement(s, GhostCommit(i)), j);
    RowsAreMapped(s1.db, Statement(s1, GhostCommit(j)), i);
    RowsAreMapped(s1.db, Statement(s1, GhostCommit(j)), j);
    assert GhostActive(s2.db.rows[i]) && GhostActive(s2.db.rows[j]);
  }
}
