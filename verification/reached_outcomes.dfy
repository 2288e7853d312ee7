/** Runs from the very start on which migrations go all the way: what is asked for does happen. */
module ReachedOutcomes {
  import opened Options
  import opened Statements
  import opened Migrations
  import opened Lifecycle
  import opened LifecycleInvariants
  import opened Reachability

  const HOST := "host"

  /** Empty tables and one utility host. */
  function Start(): System {
    System(Db(0, map[], map[]), map[HOST := Idle], map[], 0, {}, {}, {}, NoPass, {}, {})
  }

  function OpenPr(): PullRequest { PullRequest(PrQueued, true, true, 0) }

  lemma StartIsThere()
    ensures Reachable(Start())
  {
    hide Reachable;
    StartIsReachable(Start());
  }

  function OneQueued(): System {
    Start().(db := Db(0, map[1 := OpenPr()], map[1 := QueuedRow(1)]), approvedQueued := {1})
  }

  lemma OneIsQueued()
    ensures Reachable(OneQueued())
  {
    hide Reachable;
    StartIsThere();
    ProposalIsFresh(1);
    var s := BecomesQueued(Start(), 1, 1, Proposal(1));
    assert s == OneQueued();
  }

  /** Two queued gh-ost migrations for one place, of two pull requests. */
  function TwoQueued(): System {
    Start().(db := Db(0, map[1 := OpenPr(), 2 := OpenPr()], map[1 := QueuedRow(1), 2 := QueuedRow(2)]),
             approvedQueued := {1, 2})
  }

  lemma TwoAreQueued()
    ensures Reachable(TwoQueued())
  {
    hide Reachable;
    OneIsQueued();
    ProposalIsFresh(2);
    var s := BecomesQueued(OneQueued(), 2, 2, Proposal(2));
    assert s.approvedQueued == {1, 2};
    assert s.db.rows == TwoQueued().db.rows && s.db.prs == TwoQueued().db.prs;
  }

  /** A pass of the scheduler chooses migration `id`. */
  lemma Chosen(s: System, id: nat)
    requires Reachable(s) && Eligible(s.db, id)
    ensures Reachable(s.(ghostChoices := s.ghostChoices + {id}))
  {
    hide Reachable, Exec, Eligible;
    NothingRuns(s.db);
    Go(s, GhostRead(id), s.(ghostChoices := s.ghostChoices + {id}));
  }

  function WithRow(s: System, id: nat, r: Migration): System {
    s.(db := s.db.(rows := s.db.rows[id := r]))
  }

  lemma MadeReady(s: System, id: nat)
    requires Reachable(s) && id in s.ghostChoices && id in s.db.rows
    requires s.db.rows[id].status == Queued && s.db.rows[id].strategy == Ghost
    ensures Reachable(WithRow(s, id, WithStatus(s.db.rows[id], Ready, s.db.now)))
  {
    hide Reachable, Exec, WithStatus;
    StatusWritten(s.db, id, Queued, Ready, Ghost);
    Go(s, GhostCommit(id), WithRow(s, id, WithStatus(s.db.rows[id], Ready, s.db.now)));
  }

  lemma PassEnds(s: System, id: nat)
    requires Reachable(s) && id in s.ghostChoices
    ensures Reachable(s.(ghostChoices := s.ghostChoices - {id}))
  {
    hide Reachable, Exec;
    NothingRuns(s.db);
    Go(s, GhostEnd(id), s.(ghostChoices := s.ghostChoices - {id}));
  }

  /** One migration is ready, and the pass is over. */
  function OneReady(s: System): System
    requires 1 in s.db.rows
  {
    WithRow(s, 1, s.db.rows[1].(status := Ready, readyAt := Some(s.db.now)))
  }

  lemma OneIsMadeReady(s: System)
    requires Reachable(s) && s.ghostChoices == {} && 1 in s.db.rows && s.db.rows[1] == QueuedRow(1)
    requires Eligible(s.db, 1)
    ensures Reachable(OneReady(s))
  {
    hide Reachable, Eligible;
    Chosen(s, 1);
    var a := s.(ghostChoices := {1});
    assert s.ghostChoices + {1} == {1};
    MadeReady(a, 1);
    var b := OneReady(a);
    PassEnds(b, 1);
    assert b.(ghostChoices := b.ghostChoices - {1}) == OneReady(s);
  }

  lemma Hinted(s: System, id: nat, site: string)
    requires Reachable(s) && id in s.ghostChoices && id in s.db.rows
    ensures Reachable(WithRow(s, id, s.db.rows[id].(tokenHint := site)))
  {
    hide Reachable, Exec;
    OnlyRow(s.db, SetHint(id, site), id);
    Go(s, GhostHint(id, site), WithRow(s, id, s.db.rows[id].(tokenHint := site)));
  }

  lemma Later(s: System, seconds: nat)
    requires Reachable(s)
    ensures Reachable(s.(db := s.db.(now := s.db.now + seconds)))
  {
    hide Reachable, Exec;
    Waited(s.db, seconds);
    Go(s, Tick(seconds), s.(db := s.db.(now := s.db.now + seconds)));
  }

  function TakenBy(r: Migration, token: Token, now: int): Migration {
    r.(token := token, assignedAt := Some(now), livenessAt := Some(now))
  }

  /** The host, which owns nothing, picks the one migration, which is on offer at its site. */
  lemma HostPicks(s: System, site: string)
    requires Reachable(s) && s.hosts == map[HOST := Idle] && s.db.rows.Keys == {1} && GhostReadyFor(s.db, 1, site)
    ensures Reachable(s.(hosts := map[HOST := Picked(1)]))
  {
    hide Reachable, Exec, GhostReadyFor;
    assert s.db.rows[1].token == NoToken by { OfferedIsFree(s.db, site); }
    NothingRuns(s.db);
    var a := s.(hosts := map[HOST := Checked]);
    Go(s, HostCheck(HOST), a);
    Go(a, HostPick(HOST, 1, site), s.(hosts := map[HOST := Picked(1)]));
  }

  lemma HostOwns(s: System)
    requires Reachable(s) && s.hosts == map[HOST := Picked(1)] && 1 in s.db.rows && s.db.rows[1].token == NoToken
    ensures Reachable(WithRow(s, 1, TakenBy(s.db.rows[1], Host(HOST), s.db.now)).(hosts := map[HOST := Owned(1)]))
  {
    hide Reachable, Exec;
    OnlyRow(s.db, OwnById(1, Host(HOST)), 1);
    Go(s, HostOwn(HOST), WithRow(s, 1, TakenBy(s.db.rows[1], Host(HOST), s.db.now)).(hosts := map[HOST := Owned(1)]));
  }

  lemma OfferedIsFree(db: Db, site: string)
    requires GhostReadyFor(db, 1, site)
    ensures db.rows[1].token == NoToken
  {
  }

  lemma WriteLands(s: System, write: Write)
    requires Reachable(s) && write in s.writes && write.StatusWrite? && write.id in s.db.rows
    requires s.db.rows[write.id].status == write.from && s.db.rows[write.id].strategy == write.strategy
    ensures Reachable(WithRow(s, write.id, WithStatus(s.db.rows[write.id], write.to, s.db.now)))
  {
    hide Reachable, Exec, WithStatus;
    StatusWritten(s.db, write.id, write.from, write.to, write.strategy);
    Go(s, DoWrite(write), WithRow(s, write.id, WithStatus(s.db.rows[write.id], write.to, s.db.now)));
  }

  /** The owner reports a status, and the report lands. */
  lemma Reported(s: System, to: Status) returns (t: System)
    requires Reachable(s) && HasToken(s.db, 1, Host(HOST)) && s.db.rows[1].status in ReportedFrom(to)
    ensures Reachable(t)
    ensures t == WithRow(s, 1, WithStatus(s.db.rows[1], to, s.db.now)).(writes := t.writes)
  {
    hide Reachable, Exec;
    var r := s.db.rows[1];
    var write := StatusWrite(1, r.status, to, r.strategy, Host(HOST));
    NothingRuns(s.db);
    var a := s.(writes := s.writes + {write});
    Go(s, ReportRead(1, HOST, to), a);
    WriteLands(a, write);
    t := WithRow(a, 1, WithStatus(r, to, s.db.now));
  }

  /** What the migration is while it is running: made ready at 0, owned at 10, started at 30. */
  function RunningRow(): Migration {
    Proposal(1).(status := Running, tokenHint := "ac4", token := Host(HOST), readyAt := Some(0), assignedAt := Some(10),
                 startedAt := Some(30), livenessAt := Some(30))
  }

  lemma MigrationIsOffered() returns (s: System)
    ensures Reachable(s) && s.hosts == map[HOST := Idle] && s.writes == {} && s.ghostChoices == {} && s.probe == NoPass
    ensures s.db == Db(0, map[1 := OpenPr()],
                       map[1 := QueuedRow(1).(status := Ready, tokenHint := "ac4", readyAt := Some(0))])
  {
    hide Reachable;
    OneIsQueued();
    var a := OneQueued();
    Chosen(a, 1);
    var b := a.(ghostChoices := {1});
    assert a.ghostChoices + {1} == {1};
    Hinted(b, 1, "ac4");
    var c := WithRow(b, 1, QueuedRow(1).(tokenHint := "ac4"));
    MadeReady(c, 1);
    var d := WithRow(c, 1, c.db.rows[1].(status := Ready, readyAt := Some(0)));
    PassEnds(d, 1);
    s := d.(ghostChoices := {});
    assert d.ghostChoices - {1} == {};
  }

  lemma MigrationIsRunning() returns (s: System)
    ensures Reachable(s) && s.probe == NoPass && s.db == Db(30, map[1 := OpenPr()], map[1 := RunningRow()])
  {
    hide Reachable;
    var a := MigrationIsOffered();
    Later(a, 10);
    var b := a.(db := a.db.(now := 10));
    HostPicks(b, "ac4");
    HostOwns(b.(hosts := map[HOST := Picked(1)]));
    var c := WithRow(b, 1, TakenBy(b.db.rows[1], Host(HOST), 10)).(hosts := map[HOST := Owned(1)]);
    Later(c, 20);
    var d := c.(db := c.db.(now := 30));
    s := Reported(d, Running);
    assert s.db.rows == map[1 := RunningRow()];
  }

  /**
   From empty tables: proposed, queued, chosen for a site, owned by a host of that site, started and
   completed, each at its time; then its pull request is marked complete.
   */
  lemma GhostMigrationCompletes() returns (s: System)
    ensures Reachable(s)
    ensures s.db.rows == map[1 := Proposal(1).(
              status := Complete, tokenHint := "ac4", token := NoToken, readyAt := Some(0), assignedAt := Some(10),
              startedAt := Some(30), livenessAt := Some(60), completedAt := Some(60))]
    ensures s.db.prs == map[1 := PullRequest(PrComplete, true, true, 0)]
  {
    hide Reachable;
    var a := MigrationIsRunning();
    Later(a, 30);
    var b := a.(db := a.db.(now := 60));
    var c := Reported(b, Complete);
    assert c.db.rows.Keys == {1} && c.db.prs.Keys == {1};
    assert AllDone(c.db, 1) by { assert c.db.rows[1].pr == 1; }
    DonePrIsMarked(c, 1);
    s := c.(db := c.db.(prs := c.db.prs[1 := c.db.prs[1].(status := PrComplete)]));
  }

  /** A running migration fails, loses its owner, and is queued again by a human: it may run once more. */
  lemma FailedMigrationIsRetried() returns (s: System)
    ensures Reachable(s) && Eligible(s.db, 1)
    ensures s.db.rows == map[1 := RunningRow().(status := Queued, token := NoToken)]
  {
    hide Reachable, Eligible;
    var a := MigrationIsRunning();
    var b := Reported(a, Failed);
    var write := StatusWrite(1, Failed, Queued, Ghost, NoToken);
    var c := b.(writes := b.writes + {write});
    RetryIsPrepared(b, write);
    WriteLands(c, write);
    s := WithRow(c, 1, WithStatus(b.db.rows[1], Queued, 30));
    assert s.db.rows == map[1 := RunningRow().(status := Queued, token := NoToken)];
    OnlyQueuedIsEligible(s.db);
  }

  lemma RetryIsPrepared(s: System, write: Write)
    requires Reachable(s) && Live(s.db, 1) && s.db.rows[1].status == Failed
    requires write == StatusWrite(1, Failed, Queued, s.db.rows[1].strategy, NoToken)
    ensures Reachable(s.(writes := s.writes + {write}))
  {
    hide Reachable, Exec;
    NothingRuns(s.db);
    Go(s, RetryRead(1), s.(writes := s.writes + {write}));
  }

  lemma OnlyQueuedIsEligible(db: Db)
    requires db.rows.Keys == {1} && InOpenPr(db, 1) && db.rows[1].strategy == Ghost && db.rows[1].status == Queued
    ensures Eligible(db, 1)
  {
  }

  // ---------- a manual migration ----------

  function ManualProposal(pr: nat): Migration { Proposal(pr).(strategy := Manual) }

  lemma ManualProposalIsFresh()
    ensures FreshRow(ManualProposal(1))
  {
    assert ManualProposal(1).strategy == StrategyFor(AlterTable, false);
  }

  /** A human approves a manual ALTER TABLE for autorun: it is now for gh-ost, and eligible. */
  lemma ManualMigrationIsHandedOver() returns (s: System)
    ensures Reachable(s) && s.db.rows == map[1 := QueuedRow(1)] && Eligible(s.db, 1)
  {
    hide Reachable, Exec, Eligible;
    StartIsThere();
    ManualProposalIsFresh();
    var a := BecomesQueued(Start(), 1, 1, ManualProposal(1));
    var write := StrategyWrite(1, Ghost);
    NothingRuns(a.db);
    var b := a.(writes := {write});
    Go(a, ApproveAutorunRead(1), b);
    OnlyRow(b.db, SetStrategy(1, Manual, Ghost), 1);
    s := WithRow(b, 1, QueuedRow(1));
    Go(b, DoWrite(write), s);
    OnlyQueuedIsEligible(s.db);
  }

  // ---------- a direct migration ----------

  function DirectProposal(pr: nat): Migration { Proposal(pr).(kind := CreateTable, strategy := Direct) }

  lemma DirectProposalIsFresh()
    ensures FreshRow(DirectProposal(1))
  {
    assert DirectProposal(1).strategy == StrategyFor(CreateTable, true);
  }

  lemma DirectIsReady() returns (s: System)
    ensures Reachable(s) && s.appliers == map[] && s.nextSerial == 0
    ensures s.db == Db(0, map[1 := OpenPr()], map[1 := DirectProposal(1).(status := Ready)])
  {
    hide Reachable, Exec;
    StartIsThere();
    DirectProposalIsFresh();
    var a := BecomesQueued(Start(), 1, 1, DirectProposal(1));
    NothingRuns(a.db);
    var b := a.(directPlans := {1});
    Go(a, DirectRead(1), b);
    OnlyRow(b.db, SetPrRows(1, Queued, Ready, Direct), 1);
    s := WithRow(b, 1, DirectProposal(1).(status := Ready));
    Go(b, DirectCommit(1), s);
  }

  /** From empty tables: queued, made ready with its pull request, owned, started and completed by the applier. */
  lemma DirectMigrationCompletes() returns (s: System)
    ensures Reachable(s) && s.appliers == map[]
    ensures s.db.rows == map[1 := DirectProposal(1).(
              status := Complete, token := NoToken, assignedAt := Some(0), startedAt := Some(0), livenessAt := Some(0),
              completedAt := Some(0))]
  {
    hide Reachable, Exec;
    var a := DirectIsReady();
    var b := ApplierTakes(a);
    var c := ApplierRuns(b);
    StatusWritten(c.db, 1, Running, Complete, Direct);
    s := WithRow(c, 1, WithStatus(c.db.rows[1], Complete, 0)).(appliers := map[]);
    assert c.appliers - {0} == map[];
    Go(c, ApplierFinish(0, true), s);
  }

  lemma ApplierTakes(s: System) returns (t: System)
    requires Reachable(s) && s.appliers == map[] && s.nextSerial == 0 && 1 in s.db.rows
    requires s.db.rows[1].token == NoToken && s.db.rows[1].status == Ready && s.db.rows[1].strategy == Direct
    ensures Reachable(t)
    ensures t == WithRow(s, 1, TakenBy(s.db.rows[1], Unique(0), s.db.now))
                   .(appliers := map[0 := Holding(1, s.db.now)], nextSerial := 1)
  {
    hide Reachable, Exec;
    OnlyRow(s.db, OwnReadyRow(1, Direct, Unique(0)), 1);
    t := WithRow(s, 1, TakenBy(s.db.rows[1], Unique(0), s.db.now))
           .(appliers := map[0 := Holding(1, s.db.now)], nextSerial := 1);
    Go(s, ApplierOwn(1), t);
  }

  lemma ApplierRuns(s: System) returns (t: System)
    requires Reachable(s) && s.appliers == map[0 := Holding(1, 0)] && 1 in s.db.rows
    requires s.db.rows[1].status == Ready && s.db.rows[1].strategy == Direct
    ensures Reachable(t)
    ensures t == WithRow(s, 1, WithStatus(s.db.rows[1], Running, s.db.now)).(appliers := map[0 := Started(1)])
  {
    hide Reachable, Exec;
    StatusWritten(s.db, 1, Ready, Running, Direct);
    t := WithRow(s, 1, WithStatus(s.db.rows[1], Running, s.db.now)).(appliers := map[0 := Started(1)]);
    Go(s, ApplierStart(0), t);
  }

  // ---------- a pull request ----------

  /** The prober finds the one pull request done and marks it complete. */
  lemma DonePrIsMarked(s: System, pr: nat)
    requires Reachable(s) && s.probe == NoPass && s.db.prs.Keys == {pr} && AllDone(s.db, pr)
    requires s.db.prs[pr].isOpen && s.db.prs[pr].status != PrComplete
    ensures Reachable(s.(db := s.db.(prs := s.db.prs[pr := s.db.prs[pr].(status := PrComplete)])))
  {
    hide Reachable, AllDone;
    ListRead(s);
    var a := s.(probe := Listed(Known(s.db)));
    DoneIsListed(a, pr);
    var b := a.(probe := Marking({pr}));
    Marked(b, pr);
    var c := b.(db := s.db.(prs := s.db.prs[pr := s.db.prs[pr].(status := PrComplete)]), probe := Marking({}));
    Ended(c);
    assert c.(probe := NoPass) == s.(db := c.db);
  }

  lemma DoneIsListed(s: System, pr: nat)
    requires Reachable(s) && s.probe.Listed? && s.db.prs.Keys == {pr} && AllDone(s.db, pr)
    requires s.db.prs[pr].isOpen && s.db.prs[pr].status != PrComplete
    ensures Reachable(s.(probe := Marking({pr})))
  {
    hide Reachable, Exec, AllDone;
    NothingRuns(s.db);
    var done := set p | p in s.db.prs && s.db.prs[p].isOpen && s.db.prs[p].status != PrComplete && AllDone(s.db, p);
    assert done == {pr};
    Go(s, MarkList, s.(probe := Marking({pr})));
  }

  lemma Marked(s: System, pr: nat)
    requires Reachable(s) && s.probe == Marking({pr}) && pr in s.db.prs
    ensures Reachable(s.(db := s.db.(prs := s.db.prs[pr := s.db.prs[pr].(status := PrComplete)]), probe := Marking({})))
  {
    hide Reachable, Exec;
    NoRow(s.db, SetPrStatus(pr, PrComplete));
    assert {pr} - {pr} == {};
    var prs := s.db.prs[pr := s.db.prs[pr].(status := PrComplete)];
    Go(s, MarkPr(pr), s.(db := s.db.(prs := prs), probe := Marking({})));
  }
}
