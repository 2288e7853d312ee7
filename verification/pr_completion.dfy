/** A completed pull request: all its migrations are done, and it stays completed unless discovery reopens it. */
module PrCompletion {
  import opened Statements
  import opened Migrations
  import opened Lifecycle
  import opened LifecycleInvariants

  /** The table says complete only if the prober's note does, and what is noted as complete is done. */
  predicate KnownIsRight(db: Db, known: map<nat, PrStatus>) {
    forall pr :: pr in known ==>
      && pr in db.prs
      && if known[pr] == PrComplete then AllDone(db, pr) else db.prs[pr].status != PrComplete
  }

  predicate ProbeIsRight(db: Db, probe: Probe) {
    match probe
    case NoPass => true
    case Listed(known) => KnownIsRight(db, known)
    case Looking(pr, status, _, known) =>
      && pr in db.prs && (status != PrComplete ==> db.prs[pr].status != PrComplete)
      && pr !in known && KnownIsRight(db, known)
    case Inserting(pr, known) =>
      pr in db.prs && db.prs[pr].status != PrComplete && pr !in known && KnownIsRight(db, known)
    case Marking(done) => forall pr :: pr in done ==> AllDone(db, pr)
  }

  predicate CompleteIsDone(db: Db) {
    forall pr :: pr in db.prs && db.prs[pr].status == PrComplete ==> AllDone(db, pr)
  }

  predicate CompletionInv(s: System) {
    && CompleteIsDone(s.db) && ProbeIsRight(s.db, s.probe)
    && forall noted :: noted in s.discovered ==> noted.status != PrComplete
  }

  predicate IsComplete(db: Db, pr: nat) { pr in db.prs && db.prs[pr].status == PrComplete }

  lemma AllDoneStays(db: Db, sql: Sql, pr: nat)
    requires RowsOk(db) && Lawful(db, sql) && AllDone(db, pr)
    requires !(sql.InsertRow? && sql.row.pr == pr)
    ensures AllDone(Exec(db, sql), pr)
  {
    hide RowAfter, RowsAfter, Exec, RowOk, Lawful;
    StatementKeepsRows(db, sql);
    var after := Exec(db, sql);
    var first :| first in db.rows && db.rows[first].pr == pr;
    assert first in after.rows && LegalMove(db.rows[first], after.rows[first]);
    forall id | id in after.rows && after.rows[id].pr == pr ensures Finished(after.rows[id].status) {
      if id in db.rows {
        assert LegalMove(db.rows[id], after.rows[id]);
      } else {
        NewRows(db, sql, id);
      }
    }
  }

  /** Migrations are inserted only for the pull request that the prober is evaluating. */
  lemma DoneStaysDone(s: System, step: Step, pr: nat)
    requires Inv(s) && Enabled(s, step) && AllDone(s.db, pr)
    requires !(s.probe.Inserting? && s.probe.pr == pr)
    ensures AllDone(Next(s, step).db, pr)
  {
    hide AllDone, Exec, RowsOk, PrsKnown, OnlyApproved, WriteOk, HostOk, Lawful, Eligible, HasToken, GhostReadyFor;
    StatementIsLawful(s, step);
    AllDoneStays(s.db, Statement(s, step), pr);
  }

  /** What may complete a pull request: marking it, or a probe that had read it as complete. */
  lemma CompletedBy(s: System, step: Step, pr: nat)
    requires Enabled(s, step) && CompletionInv(s) && IsComplete(Next(s, step).db, pr)
    ensures IsComplete(s.db, pr) || step == MarkPr(pr)
         || (step.ProbeSubmit? && step.pr == pr && s.probe.known[pr] == PrComplete)
  {
    hide RowsAfter, HostsAfter, AppliersAfter, WritesAfter, ProbeAfter, Eligible, AllDone, HasToken, GhostReadyFor;
  }

  /**
   Exactly when a step reopens a complete pull request: discovery, which had read it before it was
   completed, writes back what it had read.
   */
  lemma ReopenedExactlyByDiscovery(s: System, step: Step, pr: nat)
    requires Enabled(s, step) && CompletionInv(s) && IsComplete(s.db, pr)
    ensures !IsComplete(Next(s, step).db, pr) <==> step.DiscoverSubmit? && step.noted.pr == pr
  {
    hide RowsAfter, HostsAfter, AppliersAfter, WritesAfter, ProbeAfter, Eligible, AllDone, HasToken, GhostReadyFor;
  }

  lemma PrsStay(s: System, step: Step, pr: nat)
    requires Enabled(s, step) && pr in s.db.prs
    ensures pr in Next(s, step).db.prs
  {
    hide RowsAfter, HostsAfter, AppliersAfter, WritesAfter, ProbeAfter, Eligible, AllDone, HasToken, GhostReadyFor;
  }

  lemma StepKeepsCompleteIsDone(s: System, step: Step)
    requires Inv(s) && CompletionInv(s) && Enabled(s, step)
    ensures CompleteIsDone(Next(s, step).db)
  {
    hide AllDone, Exec, Inv, Eligible, HasToken, GhostReadyFor, Statement;
    hide HostsAfter, AppliersAfter, WritesAfter, ProbeAfter;
    var after := Next(s, step).db;
    forall pr | IsComplete(after, pr) ensures AllDone(after, pr) {
      CompletedBy(s, step, pr);
      assert AllDone(s.db, pr);
      DoneStaysDone(s, step, pr);
    }
  }

  lemma KnownStaysRight(s: System, step: Step, known: map<nat, PrStatus>)
    requires Inv(s) && CompletionInv(s) && Enabled(s, step) && KnownIsRight(s.db, known)
    requires !step.MarkPr? && (step.ProbeSubmit? ==> step.pr !in known)
    requires s.probe.Inserting? ==> s.probe.pr !in known
    ensures KnownIsRight(Next(s, step).db, known)
  {
    hide Next, Enabled, Inv, CompletionInv, AllDone;
    forall pr | pr in known
      ensures pr in Next(s, step).db.prs
      ensures if known[pr] == PrComplete then AllDone(Next(s, step).db, pr) else !IsComplete(Next(s, step).db, pr)
    {
      PrsStay(s, step, pr);
      if known[pr] == PrComplete {
        DoneStaysDone(s, step, pr);
      } else if IsComplete(Next(s, step).db, pr) {
        CompletedBy(s, step, pr);
      }
    }
  }

  lemma OpenStaysOpen(s: System, step: Step, pr: nat)
    requires Enabled(s, step) && CompletionInv(s) && pr in s.db.prs && !IsComplete(s.db, pr)
    requires !step.MarkPr? && !(step.ProbeSubmit? && step.pr == pr)
    ensures pr in Next(s, step).db.prs && !IsComplete(Next(s, step).db, pr)
  {
    hide Next, Enabled, CompletionInv;
    PrsStay(s, step, pr);
    if IsComplete(Next(s, step).db, pr) {
      CompletedBy(s, step, pr);
    }
  }

  /** A step that begins, ends or goes on with a pass of the prober. */
  predicate IsPassStep(step: Step) {
    || step.ProbeList? || step.ProbeSubmit? || step.ProbePass? || step.ProbeForget? || step.ProbeQueue?
    || step.MarkList? || step.MarkPr? || step.ProbeEnd?
  }

  lemma OthersLeaveProbe(s: System, step: Step)
    requires Enabled(s, step) && !IsPassStep(step)
    ensures Next(s, step).probe == s.probe
  {
    hide RowsAfter, HostsAfter, AppliersAfter, WritesAfter, Eligible, AllDone, HasToken, GhostReadyFor;
  }

  lemma OtherStepsKeepProbeRight(s: System, step: Step)
    requires Inv(s) && CompletionInv(s) && Enabled(s, step) && !IsPassStep(step)
    ensures ProbeIsRight(Next(s, step).db, Next(s, step).probe)
  {
    hide AllDone, Next, Inv, Enabled, CompleteIsDone, KnownIsRight;
    OthersLeaveProbe(s, step);
    if s.probe.Marking? {
      forall pr | pr in s.probe.done ensures AllDone(Next(s, step).db, pr) {
        DoneStaysDone(s, step, pr);
      }
    } else if !s.probe.NoPass? {
      KnownStaysRight(s, step, s.probe.known);
      if !s.probe.Listed? {
        PrsStay(s, step, s.probe.pr);
        if !IsComplete(s.db, s.probe.pr) {
          OpenStaysOpen(s, step, s.probe.pr);
        }
      }
    }
  }

  lemma MarkingStepsKeepProbeRight(s: System, step: Step)
    requires Inv(s) && CompletionInv(s) && Enabled(s, step) && (step.MarkPr? || step.MarkList?)
    ensures ProbeIsRight(Next(s, step).db, Next(s, step).probe)
  {
    hide AllDone, RowsAfter, Inv, CompleteIsDone, HostsAfter, AppliersAfter, WritesAfter;
    hide Eligible, HasToken, GhostReadyFor;
    if step.MarkPr? {
      forall pr | pr in s.probe.done ensures AllDone(Next(s, step).db, pr) {
        DoneStaysDone(s, step, pr);
      }
    } else {
      NothingChanges(s.db);
    }
  }

  lemma NothingChanges(db: Db)
    ensures Exec(db, Nothing) == db
  {
    assert RowsAfter(Nothing, db.now, db.rows) == db.rows;
  }

  /** The list is right when it is read. */
  lemma ListIsRight(s: System)
    requires CompletionInv(s) && Enabled(s, ProbeList)
    ensures ProbeIsRight(Next(s, ProbeList).db, Next(s, ProbeList).probe)
  {
    hide AllDone, RowsAfter, HostsAfter, AppliersAfter, WritesAfter, Eligible, HasToken, GhostReadyFor;
    NothingChanges(s.db);
    assert Next(s, ProbeList).db == s.db;
  }

  lemma SubmittedIsRight(s: System, pr: nat, seen: Seen)
    requires Inv(s) && CompletionInv(s) && Enabled(s, ProbeSubmit(pr, seen))
    ensures ProbeIsRight(Next(s, ProbeSubmit(pr, seen)).db, Next(s, ProbeSubmit(pr, seen)).probe)
  {
    hide AllDone, RowsAfter, HostsAfter, AppliersAfter, WritesAfter, Eligible, HasToken, GhostReadyFor, Inv;
    var rest := s.probe.known - {pr};
    assert KnownIsRight(s.db, rest);
    KnownStaysRight(s, ProbeSubmit(pr, seen), rest);
    hide KnownIsRight;
  }

  lemma GoingOnKeepsProbeRight(s: System, step: Step)
    requires Inv(s) && CompletionInv(s) && Enabled(s, step)
    requires step.ProbePass? || step.ProbeForget? || step.ProbeQueue?
    ensures ProbeIsRight(Next(s, step).db, Next(s, step).probe)
  {
    hide AllDone, RowsAfter, CompleteIsDone, HostsAfter, AppliersAfter, WritesAfter, Eligible, HasToken, GhostReadyFor;
    hide Inv, KnownIsRight, FreshRow;
    KnownStaysRight(s, step, s.probe.known);
    if step.ProbeForget? {
      OpenStaysOpen(s, step, s.probe.pr);
    }
  }

  lemma NotesStayOpen(s: System, step: Step)
    requires CompletionInv(s) && Enabled(s, step)
    ensures forall noted :: noted in Next(s, step).discovered ==> noted.status != PrComplete
  {
    hide Exec, HostsAfter, AppliersAfter, WritesAfter, ProbeAfter, Eligible, HasToken, GhostReadyFor, Statement;
    hide CompleteIsDone, ProbeIsRight;
  }

  lemma StepKeepsCompletion(s: System, step: Step)
    requires Inv(s) && CompletionInv(s) && Enabled(s, step)
    ensures CompletionInv(Next(s, step))
  {
    hide CompleteIsDone, ProbeIsRight, Next, Enabled, Inv;
    StepKeepsCompleteIsDone(s, step);
    NotesStayOpen(s, step);
    if step.MarkPr? || step.MarkList? {
      MarkingStepsKeepProbeRight(s, step);
    } else if step.ProbeList? {
      ListIsRight(s);
    } else if step.ProbeSubmit? {
      SubmittedIsRight(s, step.pr, step.seen);
    } else if step.ProbeEnd? {
      EndIsRight(s);
    } else if IsPassStep(step) {
      GoingOnKeepsProbeRight(s, step);
    } else {
      OtherStepsKeepProbeRight(s, step);
    }
  }

  lemma EndIsRight(s: System)
    requires Enabled(s, ProbeEnd)
    ensures ProbeIsRight(Next(s, ProbeEnd).db, Next(s, ProbeEnd).probe)
  {
    hide Exec;
  }

  /** On every run, a complete pull request has migrations, and all of them are complete or cancelled. */
  lemma {:induction false} AlwaysCompletionInv(run: seq<System>, steps: seq<Step>, n: nat)
    requires IsRun(run, steps) && n < |run|
    ensures CompletionInv(run[n]) && CompleteIsDone(run[n].db)
  {
    if n > 0 {
      hide Inv, Next, Enabled, CompletionInv, CompleteIsDone;
      AlwaysCompletionInv(run, steps, n - 1);
      StepOfRun(run, steps, n);
      AlwaysInv(run, steps, n - 1);
      StepKeepsCompletion(run[n - 1], steps[n - 1]);
    }
    assert CompletionInv(run[n]) ==> CompleteIsDone(run[n].db);
  }

  /** Discovery writes this pull request's status back. */
  predicate Rewrites(step: Step, pr: nat) { step.DiscoverSubmit? && step.noted.pr == pr }

  /**
   On every run, once a pull request is complete, it is complete and its migrations are done at
   every later moment, unless discovery has written an old status back in between.
   */
  lemma {:induction false} CompletePrStaysComplete(run: seq<System>, steps: seq<Step>, i: nat, j: nat, pr: nat)
    requires IsRun(run, steps) && i <= j < |run| && IsComplete(run[i].db, pr)
    requires forall k :: i <= k < j ==> !Rewrites(steps[k], pr)
    ensures IsComplete(run[j].db, pr) && AllDone(run[j].db, pr)
    decreases j - i
  {
    hide AllDone, Next, Enabled;
    AlwaysCompletionInv(run, steps, j);
    if i < j {
      CompletePrStaysComplete(run, steps, i, j - 1, pr);
      AlwaysCompletionInv(run, steps, j - 1);
      StepOfRun(run, steps, j);
      ReopenedExactlyByDiscovery(run[j - 1], steps[j - 1], pr);
    }
  }
}
