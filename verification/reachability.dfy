/** States that runs reach, step by step. */
module Reachability {
  import opened Options
  import opened Statements
  import opened Migrations
  import opened Lifecycle
  import opened LifecycleInvariants

  /** Some run ends here. */
  ghost predicate Reachable(s: System) {
    exists run: seq<System>, steps: seq<Step> :: IsRun(run, steps) && run[|steps|] == s
  }

  ghost predicate Leads(s: System, steps: seq<Step>, t: System)
    decreases |steps|
  {
    if steps == [] then s == t else Enabled(s, steps[0]) && Leads(Next(s, steps[0]), steps[1..], t)
  }

  lemma StartIsReachable(s: System)
    requires Init(s)
    ensures Reachable(s)
  {
    assert IsRun([s], []);
  }

  lemma StepIsReachable(s: System, step: Step)
    requires Reachable(s) && Enabled(s, step)
    ensures Reachable(Next(s, step))
  {
    hide Init, Enabled, Next;
    var run: seq<System>, steps: seq<Step> :| IsRun(run, steps) && run[|steps|] == s;
    var longer, more := run + [Next(s, step)], steps + [step];
    assert IsRun(longer, more) && longer[|more|] == Next(s, step);
  }

  /** What a reachable state leads to is reachable. */
  lemma {:induction false} LeadsOn(s: System, steps: seq<Step>, t: System)
    requires Reachable(s) && Leads(s, steps, t)
    ensures Reachable(t)
    decreases |steps|
  {
    hide Reachable, Enabled, Next;
    if steps != [] {
      StepIsReachable(s, steps[0]);
      LeadsOn(Next(s, steps[0]), steps[1..], t);
    }
  }

  lemma ReachableInv(s: System)
    requires Reachable(s)
    ensures Inv(s)
  {
    hide Inv, Init, Enabled, Next;
    var run: seq<System>, steps: seq<Step> :| IsRun(run, steps) && run[|steps|] == s;
    AlwaysInv(run, steps, |steps|);
  }

  /** One step to a state that is written out. */
  lemma Go(s: System, step: Step, t: System)
    requires Reachable(s) && Enabled(s, step) && t == Next(s, step)
    ensures Reachable(t)
  {
    hide Reachable, Enabled, Next;
    StepIsReachable(s, step);
  }

  // ---------- what single statements make of the tables ----------

  lemma NothingRuns(db: Db)
    ensures Exec(db, Nothing) == db
  {
    assert RowsAfter(Nothing, db.now, db.rows) == db.rows;
  }

  lemma OnlyRow(db: Db, sql: Sql, id: nat)
    requires id in db.rows && !sql.InsertRow? && !sql.Wait? && PrsAfter(sql, db.prs) == db.prs
    requires forall other :: other in db.rows && other != id ==>
               RowAfter(sql, db.now, other, db.rows[other]) == db.rows[other]
    ensures Exec(db, sql) == db.(rows := db.rows[id := RowAfter(sql, db.now, id, db.rows[id])])
  {
    hide RowAfter;
    assert RowsAfter(sql, db.now, db.rows) == db.rows[id := RowAfter(sql, db.now, id, db.rows[id])];
  }

  lemma StatusWritten(db: Db, id: nat, from: Status, to: Status, strategy: Strategy)
    requires id in db.rows && db.rows[id].status == from && db.rows[id].strategy == strategy
    ensures Exec(db, SetStatus(id, from, to, strategy))
         == db.(rows := db.rows[id := WithStatus(db.rows[id], to, db.now)])
  {
    hide WithStatus;
    OnlyRow(db, SetStatus(id, from, to, strategy), id);
  }

  lemma NoRow(db: Db, sql: Sql)
    requires !sql.InsertRow? && !sql.Wait?
    requires forall id :: id in db.rows ==> RowAfter(sql, db.now, id, db.rows[id]) == db.rows[id]
    ensures Exec(db, sql) == db.(prs := PrsAfter(sql, db.prs))
  {
    hide RowAfter, PrsAfter;
    assert RowsAfter(sql, db.now, db.rows) == db.rows;
  }

  lemma Submitted(db: Db, pr: nat, status: PrStatus, isOpen: bool, approved: bool)
    ensures Exec(db, SubmitPr(pr, status, isOpen, approved))
         == WithPr(db, pr, status, isOpen, approved)
  {
    NoRow(db, SubmitPr(pr, status, isOpen, approved));
  }

  lemma Inserted(db: Db, id: nat, row: Migration)
    requires id !in db.rows
    ensures Exec(db, InsertRow(id, row)) == db.(rows := db.rows[id := row])
  {
    assert RowsAfter(InsertRow(id, row), db.now, db.rows) == db.rows[id := row];
  }

  lemma Waited(db: Db, seconds: nat)
    ensures Exec(db, Wait(seconds)) == db.(now := db.now + seconds)
  {
    assert RowsAfter(Wait(seconds), db.now, db.rows) == db.rows;
  }

  // ---------- a pull request and its migration ----------

  const UNLABELLED := Seen(true, false, true, true, false)
  const DETECTED_APPROVED := Seen(true, true, true, true, true)
  const CLOSED := Seen(false, true, true, true, true)

  /** A gh-ost migration as it is proposed. */
  function Proposal(pr: nat): Migration {
    Migration(pr, "cluster", "shard", "table", AlterTable, Ghost, Proposed, NoToken, "", None, None, None, None, None)
  }

  function WithPr(db: Db, pr: nat, status: PrStatus, isOpen: bool, approved: bool): Db {
    db.(prs := db.prs[pr := PullRequest(status, isOpen, approved, if pr in db.prs then db.prs[pr].priority else 0)])
  }

  /** No pass of the prober, no discovery: what the lemmas below start from and end in. */
  predicate Quiet(s: System) { s.probe == NoPass && s.discovered == {} }

  /** Discovery finds a new pull request. */
  lemma Discovered(s: System, pr: nat) returns (t: System)
    requires Reachable(s) && Quiet(s) && pr !in s.db.prs
    ensures Reachable(t) && t == s.(db := WithPr(s.db, pr, PrDetected, true, false))
  {
    hide Reachable, Exec, RowAfter;
    var noted := Noted(pr, PrDetected);
    Read(s, pr, PrDetected);
    var a := s.(discovered := {noted});
    Submitted(a.db, pr, PrDetected, true, false);
    var b := a.(db := WithPr(s.db, pr, PrDetected, true, false));
    Go(a, DiscoverSubmit(noted, UNLABELLED), b);
    t := b.(discovered := {});
    Dropped(b, noted);
  }

  /** Discovery reads a pull request that is not complete. */
  lemma Read(s: System, pr: nat, status: PrStatus)
    requires Reachable(s) && s.discovered == {} && status != PrComplete
    requires status == if pr in s.db.prs then s.db.prs[pr].status else PrDetected
    ensures Reachable(s.(discovered := {Noted(pr, status)}))
  {
    hide Reachable, Exec;
    NothingRuns(s.db);
    Go(s, DiscoverRead(pr), s.(discovered := {Noted(pr, status)}));
  }

  lemma Dropped(s: System, noted: Noted)
    requires Reachable(s) && s.discovered == {noted}
    ensures Reachable(s.(discovered := {}))
  {
    hide Reachable, Exec;
    NothingRuns(s.db);
    Go(s, DiscoverEnd(noted), s.(discovered := {}));
  }

  function Known(db: Db): map<nat, PrStatus> {
    map pr | pr in db.prs && db.prs[pr].isOpen :: db.prs[pr].status
  }

  /** The prober looks at an open pull request. */
  lemma Probed(s: System, pr: nat, seen: Seen) returns (t: System)
    requires Reachable(s) && s.probe == NoPass && pr in s.db.prs && s.db.prs[pr].isOpen
    ensures Reachable(t)
    ensures t == s.(db := WithPr(s.db, pr, s.db.prs[pr].status, seen.isOpen, seen.approved),
                    probe := Looking(pr, s.db.prs[pr].status, seen, Known(s.db) - {pr}))
  {
    hide Reachable, Exec, RowAfter;
    var a := s.(probe := Listed(Known(s.db)));
    ListRead(s);
    Submitted(a.db, pr, s.db.prs[pr].status, seen.isOpen, seen.approved);
    t := a.(db := WithPr(s.db, pr, s.db.prs[pr].status, seen.isOpen, seen.approved),
            probe := Looking(pr, s.db.prs[pr].status, seen, Known(s.db) - {pr}));
    Go(a, ProbeSubmit(pr, seen), t);
  }

  lemma ListRead(s: System)
    requires Reachable(s) && s.probe == NoPass
    ensures Reachable(s.(probe := Listed(Known(s.db))))
  {
    hide Reachable, Exec;
    NothingRuns(s.db);
    Go(s, ProbeList, s.(probe := Listed(Known(s.db))));
  }

  lemma Ended(s: System)
    requires Reachable(s)
    ensures Reachable(s.(probe := NoPass))
  {
    hide Reachable, Exec;
    NothingRuns(s.db);
    Go(s, ProbeEnd, s.(probe := NoPass));
  }

  /** And proposes a migration for it, cancelling what was proposed before. */
  lemma Evaluated(s: System, pr: nat, id: nat, row: Migration) returns (t: System)
    requires Reachable(s) && s.probe.Looking? && s.probe.pr == pr && s.probe.seen == UNLABELLED
    requires s.probe.status == PrDetected || s.probe.status == PrQueued
    requires id !in s.db.rows && FreshRow(row) && row.pr == pr
    requires forall i :: i in s.db.rows && s.db.rows[i].pr == pr ==> Finished(s.db.rows[i].status)
    ensures Reachable(t)
    ensures t == s.(db := s.db.(rows := s.db.rows[id := row]), probe := NoPass)
  {
    hide Reachable, Exec;
    var a := s.(probe := Inserting(pr, s.probe.known));
    Forgotten(s, pr);
    Inserted(a.db, id, row);
    var b := a.(db := s.db.(rows := s.db.rows[id := row]));
    Go(a, ProbeInsert(id, row), b);
    t := b.(probe := NoPass);
    Ended(b);
  }

  lemma Forgotten(s: System, pr: nat)
    requires Reachable(s) && s.probe.Looking? && s.probe.pr == pr && s.probe.seen == UNLABELLED
    requires s.probe.status == PrDetected || s.probe.status == PrQueued
    requires forall i :: i in s.db.rows && s.db.rows[i].pr == pr ==> Finished(s.db.rows[i].status)
    ensures Reachable(s.(probe := Inserting(pr, s.probe.known)))
  {
    hide Reachable, Exec;
    NoRow(s.db, CancelPrRows(pr));
    Go(s, ProbeForget, s.(probe := Inserting(pr, s.probe.known)));
  }

  lemma ProposalIsFresh(pr: nat)
    ensures FreshRow(Proposal(pr)) && Proposal(pr).pr == pr
  {
    assert Proposal(pr).strategy == StrategyFor(AlterTable, true);
  }

  /** The database team has approved: its one migration is queued. */
  lemma Approved(s: System, pr: nat, id: nat, row: Migration) returns (t: System)
    requires Reachable(s) && s.probe == NoPass && pr in s.db.prs
    requires s.db.prs[pr] == PullRequest(PrDetected, true, false, 0)
    requires id in s.db.rows && s.db.rows[id] == row && row.pr == pr && row.status == Proposed
    requires forall i :: i in s.db.rows && s.db.rows[i].pr == pr ==> i == id
    ensures Reachable(t)
    ensures t == s.(db := WithPr(s.db, pr, PrQueued, true, true)
                            .(rows := s.db.rows[id := row.(status := Queued)]),
                    approvedQueued := s.approvedQueued + {pr})
  {
    hide Reachable, Exec, RowAfter;
    var a := Probed(s, pr, DETECTED_APPROVED);
    QueuedRows(a.db, pr, id);
    var db := WithPr(s.db, pr, PrQueued, true, true).(rows := s.db.rows[id := row.(status := Queued)]);
    assert a.db.prs[pr := PullRequest(PrQueued, true, true, 0)] == db.prs;
    var b := a.(db := db, probe := Listed(a.probe.known), approvedQueued := s.approvedQueued + {pr});
    Go(a, ProbeQueue, b);
    t := b.(probe := NoPass);
    Ended(b);
  }

  lemma QueuedRows(db: Db, pr: nat, id: nat)
    requires pr in db.prs && db.prs[pr].status == PrDetected
    requires id in db.rows && db.rows[id].pr == pr && db.rows[id].status == Proposed
    requires forall i :: i in db.rows && db.rows[i].pr == pr ==> i == id
    ensures Exec(db, QueuePr(pr)) == db.(prs := db.prs[pr := db.prs[pr].(status := PrQueued)],
                                         rows := db.rows[id := db.rows[id].(status := Queued)])
  {
    assert RowsAfter(QueuePr(pr), db.now, db.rows) == db.rows[id := db.rows[id].(status := Queued)];
  }

  function QueuedRow(pr: nat): Migration { Proposal(pr).(status := Queued) }

  /** From nothing to a queued migration of an open, approved pull request. */
  lemma BecomesQueued(s: System, pr: nat, id: nat, row: Migration) returns (t: System)
    requires Reachable(s) && Quiet(s) && pr !in s.db.prs && id !in s.db.rows && FreshRow(row) && row.pr == pr
    ensures Reachable(t)
    ensures t == s.(db := s.db.(prs := s.db.prs[pr := PullRequest(PrQueued, true, true, 0)],
                                rows := s.db.rows[id := row.(status := Queued)]),
                    approvedQueued := s.approvedQueued + {pr})
  {
    hide Reachable, FreshRow;
    NewPrHasNoRows(s, pr);
    FreshIsProposed(row);
    var a := Discovered(s, pr);
    var b := Probed(a, pr, UNLABELLED);
    var c := Evaluated(b, pr, id, row);
    assert a.db.prs[pr := PullRequest(PrDetected, true, false, 0)] == a.db.prs;
    var d := Approved(c, pr, id, row);
    t := d;
    assert a.db.prs[pr := PullRequest(PrQueued, true, true, 0)]
        == s.db.prs[pr := PullRequest(PrQueued, true, true, 0)];
    assert s.db.rows[id := row][id := row.(status := Queued)] == s.db.rows[id := row.(status := Queued)];
  }

  lemma FreshIsProposed(row: Migration)
    requires FreshRow(row)
    ensures row.status == Proposed
  {
  }

  lemma NewPrHasNoRows(s: System, pr: nat)
    requires Reachable(s) && pr !in s.db.prs
    ensures forall i :: i in s.db.rows ==> s.db.rows[i].pr != pr
  {
    hide Reachable;
    ReachableInv(s);
  }
}
