/** Runs from the very start on which something goes wrong: the failures proved possible do arise. */
module ReachedFailures {
  import opened Options
  import opened Statements
  import opened Migrations
  import opened Lifecycle
  import opened LifecycleInvariants
  import opened Reachability
  import opened GhostExclusion
  import opened Ownership
  import opened Recovery
  import opened PrCompletion
  import opened ReachedOutcomes

  // ---------- gh-ost exclusion ----------

  /** Two overlapping passes start two migrations on one place, all pull requests being open. */
  lemma OverlappingPassesStartTwo() returns (s: System)
    ensures Reachable(s) && ActivePrsOpen(s.db) && !Excluded(s.db)
  {
    hide Reachable;
    TwoAreQueued();
    var a := TwoQueued();
    Chosen(a, 1);
    var b := a.(ghostChoices := {1});
    assert a.ghostChoices + {1} == {1};
    Chosen(b, 2);
    var c := b.(ghostChoices := {1, 2});
    assert b.ghostChoices + {2} == {1, 2};
    MadeReady(c, 1);
    var d := WithRow(c, 1, WithStatus(QueuedRow(1), Ready, 0));
    MadeReady(d, 2);
    s := WithRow(d, 2, WithStatus(QueuedRow(2), Ready, 0));
    assert GhostActive(s.db.rows[1]) && GhostActive(s.db.rows[2]);
  }

  /** A pull request is closed while its migration is ready: a single pass then starts a second one. */
  lemma ClosedPullRequestStartsTwo() returns (s: System)
    ensures Reachable(s) && !ActivePrsOpen(s.db) && s.ghostChoices == {} && s.probe == NoPass
    ensures Enabled(s, GhostRead(2)) && Enabled(Next(s, GhostRead(2)), GhostCommit(2))
    ensures Reachable(Next(Next(s, GhostRead(2)), GhostCommit(2)))
    ensures !Excluded(Next(Next(s, GhostRead(2)), GhostCommit(2)).db)
  {
    hide Reachable;
    TwoAreQueued();
    OneIsMadeReady(TwoQueued());
    var a := OneReady(TwoQueued());
    var b := Probed(a, 1, CLOSED);
    Ended(b);
    s := b.(probe := NoPass);
    OpenPullRequestIsNeeded(s, 1, 2);
    assert GhostActive(s.db.rows[1]) && !InOpenPr(s.db, 1);
    StepIsReachable(s, GhostRead(2));
    StepIsReachable(Next(s, GhostRead(2)), GhostCommit(2));
  }

  // ---------- ownership and recovery ----------

  /** The host has picked migration 1, which is on offer. */
  function PickedOne(): System {
    OneReady(OneQueued()).(hosts := map[HOST := Picked(1)])
  }

  lemma OneIsPicked()
    ensures Reachable(PickedOne())
  {
    hide Reachable;
    OneIsQueued();
    OneIsMadeReady(OneQueued());
    HostPicks(OneReady(OneQueued()), "");
  }

  /**
   A host picks a migration that is hinted to its site; then an overlapping pass writes another hint;
   the host is granted a migration that is now hinted elsewhere, within 300 seconds.
   */
  lemma HintChangesAfterPick() returns (s: System)
    ensures Reachable(s) && Enabled(s, HostOwn(HOST)) && s.hosts[HOST] == Picked(1)
    ensures 1 in s.db.rows && s.db.rows[1].tokenHint == "ac4" && s.db.rows[1].readyAt == Some(s.db.now)
    ensures HasToken(Next(s, HostOwn(HOST)).db, 1, Host(HOST))
  {
    hide Reachable;
    OneIsQueued();
    var a := OneQueued();
    Chosen(a, 1);
    var b := a.(ghostChoices := {1});
    assert a.ghostChoices + {1} == {1};
    Hinted(b, 1, "va3");
    var b' := WithRow(b, 1, QueuedRow(1).(tokenHint := "va3"));
    MadeReady(b', 1);
    var c := OneReady(b');
    HostPicks(c, "va3");
    var d := c.(hosts := map[HOST := Picked(1)]);
    Hinted(d, 1, "ac4");
    s := WithRow(d, 1, d.db.rows[1].(tokenHint := "ac4"));
    RowsAreMapped(s.db, OwnById(1, Host(HOST)), 1);
  }

  /** A host is given a migration that a human has completed meanwhile. */
  lemma CompletedMigrationIsHandedOut() returns (s: System)
    ensures Reachable(s) && Enabled(s, HostOwn(HOST)) && s.hosts[HOST] == Picked(1)
    ensures var t := Next(s, HostOwn(HOST));
            Reachable(t) && HasToken(t.db, 1, Host(HOST)) && t.db.rows[1].status == Complete
  {
    hide Reachable;
    OneIsPicked();
    var a := PickedOne();
    var write := StatusWrite(1, Ready, Complete, Ghost, NoToken);
    WriteIsPrepared(a, write);
    var b := a.(writes := {write});
    s := WithRow(b, 1, WithStatus(a.db.rows[1], Complete, 0));
    WriteLands(b, write);
    StepIsReachable(s, HostOwn(HOST));
    RowsAreMapped(s.db, OwnById(1, Host(HOST)), 1);
  }

  lemma WriteIsPrepared(s: System, write: Write)
    requires Reachable(s) && s.writes == {} && Live(s.db, 1)
    requires write == StatusWrite(1, s.db.rows[1].status, Complete, s.db.rows[1].strategy, NoToken)
    requires s.db.rows[1].status != Complete
    ensures Reachable(s.(writes := {write}))
  {
    hide Reachable, Exec;
    NothingRuns(s.db);
    Go(s, MarkCompleteRead(1), s.(writes := {write}));
  }

  /** The host has owned migration 1 and read it for its start report, and has then been silent. */
  function SilentOwner(): System {
    var r := QueuedRow(1).(status := Ready, readyAt := Some(0), token := Host(HOST),
                           assignedAt := Some(0), livenessAt := Some(0));
    OneQueued().(db := Db(STALE_SECONDS + 1, map[1 := OpenPr()], map[1 := r]), hosts := map[HOST := Owned(1)],
                 writes := {StatusWrite(1, Ready, Running, Ghost, Host(HOST))})
  }

  lemma OwnerFallsSilent()
    ensures Reachable(SilentOwner())
  {
    hide Reachable, Exec;
    OneIsPicked();
    var a := PickedOne();
    var t := SilentOwner();
    OnlyRow(a.db, OwnById(1, Host(HOST)), 1);
    var b := a.(db := Db(0, t.db.prs, t.db.rows), hosts := t.hosts);
    assert a.db.rows[1 := t.db.rows[1]] == t.db.rows;
    Go(a, HostOwn(HOST), b);
    NothingRuns(b.db);
    var c := b.(writes := t.writes);
    Go(b, ReportRead(1, HOST, Running), c);
    Waited(c.db, STALE_SECONDS + 1);
    Go(c, Tick(STALE_SECONDS + 1), t);
  }

  /** The sweep releases the migration, the report lands: it is running, and nobody owns it. */
  lemma LateReportMakesAnOrphan() returns (s: System)
    ensures Reachable(s) && Orphan(s.db, 1)
  {
    hide Reachable;
    OwnerFallsSilent();
    var a := SilentOwner();
    var write := StatusWrite(1, Ready, Running, Ghost, Host(HOST));
    LateReportOrphans(a, write);
    StepIsReachable(a, SweepReady);
    StepIsReachable(Next(a, SweepReady), DoWrite(write));
    s := Next(Next(a, SweepReady), DoWrite(write));
    RowsAreMapped(a.db, Statement(a, SweepReady), 1);
    RowsAreMapped(Next(a, SweepReady).db, Statement(Next(a, SweepReady), DoWrite(write)), 1);
  }

  // ---------- completion ----------

  /** Pull request 1 is complete, as is its migration, and discovery has read it before that. */
  function CompleteAndNoted(): System {
    var r := WithStatus(Proposal(1), Complete, 0);
    Start().(db := Db(0, map[1 := PullRequest(PrComplete, true, false, 0)], map[1 := r]),
             writes := {StatusWrite(1, Proposed, Complete, Ghost, NoToken)}, discovered := {Noted(1, PrDetected)})
  }

  lemma ProposalIsCompleted() returns (s: System)
    ensures Reachable(s)
    ensures s == CompleteAndNoted().(
                   db := CompleteAndNoted().db.(prs := map[1 := PullRequest(PrDetected, true, false, 0)]),
                   discovered := {})
  {
    hide Reachable;
    StartIsThere();
    var a := Discovered(Start(), 1);
    var b := Probed(a, 1, UNLABELLED);
    ProposalIsFresh(1);
    var c := Evaluated(b, 1, 1, Proposal(1));
    var write := StatusWrite(1, Proposed, Complete, Ghost, NoToken);
    assert c.db.rows[1] == Proposal(1);
    WriteIsPrepared(c, write);
    var d := c.(writes := {write});
    WriteLands(d, write);
    s := WithRow(d, 1, WithStatus(Proposal(1), Complete, 0));
    assert s.db.prs == map[1 := PullRequest(PrDetected, true, false, 0)];
    assert s.db.rows == CompleteAndNoted().db.rows;
  }

  lemma NotedIsCompleted()
    ensures Reachable(CompleteAndNoted())
  {
    hide Reachable;
    var a := ProposalIsCompleted();
    Read(a, 1, PrDetected);
    var b := a.(discovered := {Noted(1, PrDetected)});
    assert b.db.prs.Keys == {1};
    assert AllDone(b.db, 1) by { assert 1 in b.db.rows && b.db.rows[1].pr == 1; }
    DonePrIsMarked(b, 1);
    assert b.db.prs[1 := b.db.prs[1].(status := PrComplete)] == CompleteAndNoted().db.prs;
  }

  /** Discovery, which runs beside the prober, writes the old status over a complete pull request. */
  lemma CompletePrIsReopened() returns (t: System)
    ensures var s := CompleteAndNoted();
            Reachable(s) && IsComplete(s.db, 1) && AllDone(s.db, 1)
            && Leads(s, [DiscoverSubmit(Noted(1, PrDetected), UNLABELLED)], t)
    ensures Reachable(t) && !IsComplete(t.db, 1)
    ensures exists u :: Leads(t, AnewSteps(1, 2), u) && Reachable(u) && 1 in u.db.prs && !AllDone(u.db, 1)
  {
    hide Reachable, Leads;
    NotedIsCompleted();
    var s, noted := CompleteAndNoted(), Noted(1, PrDetected);
    assert 1 in s.db.rows && s.db.rows[1].pr == 1;
    t := s.(db := s.db.(prs := map[1 := PullRequest(PrDetected, true, false, 0)]));
    WrittenBack(s, t);
    var u := ReopenedIsEvaluatedAnew(t, 1, 2);
    LeadsOn(t, AnewSteps(1, 2), u);
  }

  lemma WrittenBack(s: System, t: System)
    requires Reachable(s) && Noted(1, PrDetected) in s.discovered && 1 in s.db.prs && s.db.prs[1].priority == 0
    requires t == s.(db := s.db.(prs := s.db.prs[1 := PullRequest(PrDetected, true, false, 0)]))
    ensures Reachable(t) && Leads(s, [DiscoverSubmit(Noted(1, PrDetected), UNLABELLED)], t)
  {
    hide Reachable, Exec;
    Submitted(s.db, 1, PrDetected, true, false);
    Go(s, DiscoverSubmit(Noted(1, PrDetected), UNLABELLED), t);
    assert Leads(t, [], t);
  }

  /** A probe of a pull request that is not labelled as detected, and its evaluation. */
  function AnewSteps(pr: nat, id: nat): seq<Step> {
    [ProbeList, ProbeSubmit(pr, UNLABELLED), ProbeForget, ProbeInsert(id, Proposal(pr))]
  }

  /**
   Whatever its migrations are, an open pull request that is not complete can be evaluated, and then
   it is not done.
   */
  lemma ReopenedIsEvaluatedAnew(s: System, pr: nat, id: nat) returns (t: System)
    requires s.probe == NoPass && pr in s.db.prs && s.db.prs[pr].isOpen && id !in s.db.rows
    requires s.db.prs[pr].status == PrDetected || s.db.prs[pr].status == PrQueued
    ensures Leads(s, AnewSteps(pr, id), t) && pr in t.db.prs && !AllDone(t.db, pr)
  {
    hide Exec, Enabled, Next, Leads, AllDone, Proposal, FreshRow;
    var a := s.(probe := Listed(Known(s.db)));
    var status := s.db.prs[pr].status;
    var b := a.(db := WithPr(s.db, pr, status, true, false),
                probe := Looking(pr, status, UNLABELLED, Known(s.db) - {pr}));
    var c := b.(db := Exec(b.db, CancelPrRows(pr)), probe := Inserting(pr, b.probe.known));
    t := c.(db := Exec(c.db, InsertRow(id, Proposal(pr))));
    ListedFrom(s);
    SubmittedFrom(a, pr);
    ForgottenFrom(b, pr);
    InsertedFrom(c, pr, id);
    FourSteps(s, ProbeList, a, ProbeSubmit(pr, UNLABELLED), b, ProbeForget, c, ProbeInsert(id, Proposal(pr)), t);
  }

  lemma ListedFrom(s: System)
    requires s.probe == NoPass
    ensures Enabled(s, ProbeList) && Next(s, ProbeList) == s.(probe := Listed(Known(s.db)))
  {
    hide Exec;
    NothingRuns(s.db);
  }

  lemma SubmittedFrom(s: System, pr: nat)
    requires s.probe.Listed? && pr in s.probe.known && pr in s.db.prs
    ensures Enabled(s, ProbeSubmit(pr, UNLABELLED))
    ensures Next(s, ProbeSubmit(pr, UNLABELLED))
         == s.(db := WithPr(s.db, pr, s.probe.known[pr], true, false),
               probe := Looking(pr, s.probe.known[pr], UNLABELLED, s.probe.known - {pr}))
  {
    hide Exec;
    Submitted(s.db, pr, s.probe.known[pr], true, false);
  }

  lemma ForgottenFrom(s: System, pr: nat)
    requires s.probe.Looking? && s.probe.pr == pr && s.probe.seen == UNLABELLED && pr in s.db.prs
    requires s.probe.status == PrDetected || s.probe.status == PrQueued
    ensures Enabled(s, ProbeForget)
    ensures Next(s, ProbeForget) == s.(db := Exec(s.db, CancelPrRows(pr)), probe := Inserting(pr, s.probe.known))
    ensures Exec(s.db, CancelPrRows(pr)).rows.Keys == s.db.rows.Keys && Exec(s.db, CancelPrRows(pr)).prs == s.db.prs
  {
    hide RowAfter;
  }

  lemma InsertedFrom(s: System, pr: nat, id: nat)
    requires s.probe.Inserting? && s.probe.pr == pr && id !in s.db.rows && pr in s.db.prs
    ensures Enabled(s, ProbeInsert(id, Proposal(pr)))
    ensures Next(s, ProbeInsert(id, Proposal(pr))) == s.(db := Exec(s.db, InsertRow(id, Proposal(pr))))
    ensures pr in Exec(s.db, InsertRow(id, Proposal(pr))).prs && !AllDone(Exec(s.db, InsertRow(id, Proposal(pr))), pr)
  {
    hide Exec;
    ProposalIsFresh(pr);
    Inserted(s.db, id, Proposal(pr));
    assert id in Exec(s.db, InsertRow(id, Proposal(pr))).rows;
  }

  lemma FourSteps(s: System, one: Step, a: System, two: Step, b: System, three: Step, c: System, four: Step, t: System)
    requires Enabled(s, one) && Next(s, one) == a && Enabled(a, two) && Next(a, two) == b
    requires Enabled(b, three) && Next(b, three) == c && Enabled(c, four) && Next(c, four) == t
    ensures Leads(s, [one, two, three, four], t)
  {
    hide Enabled, Next;
    assert Leads(t, [], t);
    assert [four][1..] == [] && [three, four][1..] == [four];
    assert Leads(c, [four], t) && Leads(b, [three, four], t);
    assert [two, three, four][1..] == [three, four] && [one, two, three, four][1..] == [two, three, four];
    assert Leads(a, [two, three, four], t);
  }
}
