/**
 Everyone who works on the migrations table, interleaved: the gh-ost scheduler, the direct
 scheduler, utility hosts, direct appliers, the expiry sweeps, the pull request prober and humans in
 chat. Each SQL statement is one step; what a handler has read before is its own, possibly stale,
 note in the system state.

 A write prepared by a status handler or a chat command stays in `writes` and may run at any later
 time, any number of times, so any number of handlers are covered. So do the choices that passes of
 the gh-ost scheduler have made, until they end, and the pull requests that discovery has read: both
 run beside everything else, and beside themselves. One pass of the prober is in flight at a time.
 */
module Lifecycle {
  import opened Options
  import opened Statements
  import opened Migrations

  datatype Write =
    | StatusWrite(id: nat, from: Status, to: Status, strategy: Strategy, seenToken: Token)
    | StrategyWrite(id: nat, toStrategy: Strategy)

  datatype HostPhase = Idle | Checked | Picked(id: nat) | Owned(id: nat)

  datatype ApplierPhase = Holding(id: nat, since: int) | Started(id: nat)

  /** What a probe learns from GitHub. */
  datatype Seen = Seen(isOpen: bool, approved: bool, diff: bool, forReview: bool, detected: bool)

  datatype Probe =
    | NoPass
    | Listed(known: map<nat, PrStatus>)
    | Looking(pr: nat, status: PrStatus, seen: Seen, known: map<nat, PrStatus>)
    | Inserting(pr: nat, known: map<nat, PrStatus>)
    | Marking(done: set<nat>)

  /** A pull request as discovery has read it: the status is the one it will write back. */
  datatype Noted = Noted(pr: nat, status: PrStatus)

  datatype System = System(
    db: Db,
    hosts: map<string, HostPhase>,
    appliers: map<nat, ApplierPhase>,
    nextSerial: nat,
    ghostChoices: set<nat>,
    directPlans: set<nat>,
    writes: set<Write>,
    probe: Probe,
    discovered: set<Noted>,
    approvedQueued: set<nat>)  // pull requests that were queued when approved by the database team

  datatype Step =
    | Tick(seconds: nat)
    // gh-ost scheduler
    | GhostRead(id: nat)
    | GhostHint(id: nat, site: string)
    | GhostCommit(id: nat)
    | GhostEnd(id: nat)
    // direct scheduler
    | DirectRead(pr: nat)
    | DirectCommit(pr: nat)
    // expiry sweeps
    | SweepReady | SweepRunning | SweepComplete | SweepFailed
    // utility hosts: migration-own
    | HostCheck(host: string)
    | HostPick(host: string, id: nat, site: string)
    | HostOwn(host: string)
    | HostEnd(host: string)
    // status handlers and chat commands
    | ReportRead(id: nat, host: string, to: Status)
    | RetryRead(id: nat)
    | MarkCompleteRead(id: nat)
    | ApproveAutorunRead(id: nat)
    | DoWrite(write: Write)
    // direct appliers
    | ApplierOwn(id: nat)
    | ApplierStart(serial: nat)
    | ApplierFinish(serial: nat, ok: bool)
    | ApplierGiveUp(serial: nat)
    // prober
    | ProbeList
    | ProbeSubmit(pr: nat, seen: Seen)
    | ProbePass
    | ProbeForget
    | ProbeInsert(id: nat, row: Migration)
    | ProbeQueue
    | MarkList
    | MarkPr(pr: nat)
    | ProbeEnd
    // discovery of new pull requests
    | DiscoverRead(pr: nat)
    | DiscoverSubmit(noted: Noted, seen: Seen)
    | DiscoverEnd(noted: Noted)

  /** The statuses from which a utility host may report the given one. */
  function ReportedFrom(to: Status): set<Status> {
    match to
    case Running => {Ready, Running}
    case Complete => {Running}
    case Failed => {Ready, Running}
    case _ => {}
  }

  predicate WorthAnalysing(status: PrStatus, seen: Seen) {
    seen.isOpen && seen.diff && seen.forReview && (status == PrDetected || status == PrQueued)
  }

  predicate FreshRow(row: Migration) {
    && row.status == Proposed && row.token == NoToken
    && (exists auto :: row.strategy == StrategyFor(row.kind, auto))
    && row.readyAt == None && row.livenessAt == None && row.startedAt == None && row.completedAt == None
  }

  ghost predicate Enabled(s: System, step: Step) {
    match step
    case Tick(_) => true
    case GhostRead(id) => Eligible(s.db, id)
    case GhostHint(id, _) => id in s.ghostChoices
    case GhostCommit(id) => id in s.ghostChoices
    case GhostEnd(id) => id in s.ghostChoices
    case DirectRead(pr) => pr in s.db.prs
    case DirectCommit(pr) => pr in s.directPlans
    case SweepReady => true
    case SweepRunning => true
    case SweepComplete => true
    case SweepFailed => true
    case HostCheck(host) =>
      host in s.hosts && s.hosts[host] == Idle && forall id :: id in s.db.rows ==> !HasToken(s.db, id, Host(host))
    case HostPick(host, id, site) => host in s.hosts && s.hosts[host] == Checked && GhostReadyFor(s.db, id, site)
    case HostOwn(host) => host in s.hosts && s.hosts[host].Picked?
    case HostEnd(host) => host in s.hosts
    case ReportRead(id, host, to) => HasToken(s.db, id, Host(host)) && s.db.rows[id].status in ReportedFrom(to)
    case RetryRead(id) => Live(s.db, id) && s.db.rows[id].status == Failed
    case MarkCompleteRead(id) => Live(s.db, id) && s.db.rows[id].status != Complete
    case ApproveAutorunRead(id) => Live(s.db, id) && s.db.rows[id].strategy == Manual
    case DoWrite(write) => write in s.writes
    case ApplierOwn(id) =>
      && id in s.db.rows && s.db.rows[id].token == NoToken
      && s.db.rows[id].status == Ready && s.db.rows[id].strategy == Direct
    case ApplierStart(n) => n in s.appliers && s.appliers[n].Holding?
    case ApplierFinish(n, _) => n in s.appliers && s.appliers[n].Started?
    case ApplierGiveUp(n) => n in s.appliers
    case ProbeList => s.probe.NoPass?
    case ProbeSubmit(pr, _) => s.probe.Listed? && pr in s.probe.known
    case ProbePass => s.probe.Looking? || s.probe.Inserting?
    case ProbeForget => s.probe.Looking? && WorthAnalysing(s.probe.status, s.probe.seen) && !s.probe.seen.detected
    case ProbeInsert(id, row) => s.probe.Inserting? && id !in s.db.rows && FreshRow(row) && row.pr == s.probe.pr
    case ProbeQueue =>
      s.probe.Looking? && WorthAnalysing(s.probe.status, s.probe.seen) && s.probe.seen.detected && s.probe.seen.approved
    case MarkList => s.probe.Listed?
    case MarkPr(pr) => s.probe.Marking? && pr in s.probe.done
    case ProbeEnd => true
    case DiscoverRead(pr) => pr in s.db.prs ==> s.db.prs[pr].status != PrComplete
    case DiscoverSubmit(noted, _) => noted in s.discovered
    case DiscoverEnd(noted) => noted in s.discovered
  }

  /** The statement a step runs. */
  function Statement(s: System, step: Step): Sql
    requires Enabled(s, step)
  {
    match step
    case Tick(seconds) => Wait(seconds)
    case GhostHint(id, site) => SetHint(id, site)
    case GhostCommit(id) => SetStatus(id, Queued, Ready, Ghost)
    case DirectCommit(pr) => SetPrRows(pr, Queued, Ready, Direct)
    case SweepReady => Expire(Ready, Ready, STALE_MINUTES)
    case SweepRunning => Expire(Running, Failed, STALE_MINUTES)
    case SweepComplete => Expire(Complete, Complete, STALE_MINUTES)
    case SweepFailed => Expire(Failed, Failed, STALE_MINUTES)
    case HostOwn(host) => OwnById(s.hosts[host].id, Host(host))
    case DoWrite(StatusWrite(id, from, to, strategy, _)) => SetStatus(id, from, to, strategy)
    case DoWrite(StrategyWrite(id, to)) => SetStrategy(id, Manual, to)
    case ApplierOwn(id) => OwnReadyRow(id, Direct, Unique(s.nextSerial))
    case ApplierStart(n) => SetStatus(s.appliers[n].id, Ready, Running, Direct)
    case ApplierFinish(n, ok) => SetStatus(s.appliers[n].id, Running, if ok then Complete else Failed, Direct)
    case ProbeSubmit(pr, seen) => SubmitPr(pr, s.probe.known[pr], seen.isOpen, seen.approved)
    case ProbeForget => CancelPrRows(s.probe.pr)
    case ProbeInsert(id, row) => InsertRow(id, row)
    case ProbeQueue => QueuePr(s.probe.pr)
    case DiscoverSubmit(noted, seen) => SubmitPr(noted.pr, noted.status, seen.isOpen, seen.approved)
    case MarkPr(pr) => SetPrStatus(pr, PrComplete)
    case _ => Nothing
  }

  function HostsAfter(s: System, step: Step): map<string, HostPhase>
    requires Enabled(s, step)
  {
    match step
    case HostCheck(host) => s.hosts[host := Checked]
    case HostPick(host, id, _) => s.hosts[host := Picked(id)]
    case HostOwn(host) => s.hosts[host := Owned(s.hosts[host].id)]
    case HostEnd(host) => s.hosts[host := Idle]
    case _ => s.hosts
  }

  function AppliersAfter(s: System, step: Step): map<nat, ApplierPhase>
    requires Enabled(s, step)
  {
    match step
    case ApplierOwn(id) => s.appliers[s.nextSerial := Holding(id, s.db.now)]
    case ApplierStart(n) => s.appliers[n := Started(s.appliers[n].id)]
    case ApplierFinish(n, _) => s.appliers - {n}
    case ApplierGiveUp(n) => s.appliers - {n}
    case _ => s.appliers
  }

  function WritesAfter(s: System, step: Step): set<Write>
    requires Enabled(s, step)
  {
    match step
    case ReportRead(id, host, to) =>
      s.writes + {StatusWrite(id, s.db.rows[id].status, to, s.db.rows[id].strategy, Host(host))}
    case RetryRead(id) => s.writes + {StatusWrite(id, Failed, Queued, s.db.rows[id].strategy, NoToken)}
    case MarkCompleteRead(id) =>
      s.writes + {StatusWrite(id, s.db.rows[id].status, Complete, s.db.rows[id].strategy, NoToken)}
    case ApproveAutorunRead(id) => s.writes + {StrategyWrite(id, StrategyFor(s.db.rows[id].kind, true))}
    case _ => s.writes
  }

  function ProbeAfter(s: System, step: Step): Probe
    requires Enabled(s, step)
  {
    match step
    case ProbeList => Listed(map pr | pr in s.db.prs && s.db.prs[pr].isOpen :: s.db.prs[pr].status)
    case ProbeSubmit(pr, seen) => Looking(pr, s.probe.known[pr], seen, s.probe.known - {pr})
    case ProbePass => Listed(s.probe.known)
    case ProbeForget => Inserting(s.probe.pr, s.probe.known)
    case ProbeQueue => Listed(s.probe.known)
    case MarkList =>
      Marking(set pr | pr in s.db.prs && s.db.prs[pr].isOpen && s.db.prs[pr].status != PrComplete && AllDone(s.db, pr))
    case MarkPr(pr) => Marking(s.probe.done - {pr})
    case ProbeEnd => NoPass
    case _ => s.probe
  }

  function DiscoveredAfter(s: System, step: Step): set<Noted>
    requires Enabled(s, step)
  {
    match step
    case DiscoverRead(pr) => s.discovered + {Noted(pr, if pr in s.db.prs then s.db.prs[pr].status else PrDetected)}
    case DiscoverEnd(noted) => s.discovered - {noted}
    case _ => s.discovered
  }

  function ChoicesAfter(s: System, step: Step): set<nat>
    requires Enabled(s, step)
  {
    match step
    case GhostRead(id) => s.ghostChoices + {id}
    case GhostEnd(id) => s.ghostChoices - {id}
    case _ => s.ghostChoices
  }

  function Next(s: System, step: Step): System
    requires Enabled(s, step)
  {
    System(
      Exec(s.db, Statement(s, step)),
      HostsAfter(s, step),
      AppliersAfter(s, step),
      if step.ApplierOwn? then s.nextSerial + 1 else s.nextSerial,
      ChoicesAfter(s, step),
      if step.DirectRead? then s.directPlans + {step.pr} else s.directPlans,
      WritesAfter(s, step),
      ProbeAfter(s, step),
      DiscoveredAfter(s, step),
      if step.ProbeQueue? then s.approvedQueued + {s.probe.pr} else s.approvedQueued)
  }

  predicate Init(s: System) {
    && s.db.rows == map[] && s.db.prs == map[]
    && (forall host :: host in s.hosts ==> s.hosts[host] == Idle)
    && s.appliers == map[] && s.ghostChoices == {} && s.directPlans == {} && s.writes == {}
    && s.probe == NoPass && s.discovered == {} && s.approvedQueued == {}
  }

  ghost predicate IsRun(run: seq<System>, steps: seq<Step>) {
    && |run| == |steps| + 1
    && Init(run[0])
    && forall i :: 0 <= i < |steps| ==> Enabled(run[i], steps[i]) && run[i + 1] == Next(run[i], steps[i])
  }

  // ---------- one row at a time ----------

  /** The legal status changes. */
  predicate LegalStatus(a: Status, b: Status) {
    || a == b
    || (a == Proposed && (b == Queued || b == Cancelled))
    || (a == Queued && (b == Ready || b == Cancelled))
    || (a == Ready && (b == Running || b == Failed))
    || (a == Running && b == Failed)
    || (a == Failed && b == Queued)
    || (!Finished(a) && b == Complete)
  }

  /** What one step may do to a row: what completes or fails is released, and a start is dated once. */
  predicate LegalMove(a: Migration, b: Migration) {
    && b.pr == a.pr && b.cluster == a.cluster && b.shard == a.shard && b.table == a.table && b.kind == a.kind
    && LegalStatus(a.status, b.status)
    && (a.strategy != Manual ==> b.strategy == a.strategy)
    && (a.token != NoToken ==> b.token == a.token || b.token == NoToken)
    && (b.status != a.status && (b.status == Complete || b.status == Failed) ==> b.token == NoToken)
    && (a.startedAt.Some? ==> b.startedAt == a.startedAt)
  }

  /**
   A token is always dated, `manual` rows are never handed out, gh-ost rows on offer are dated, and
   so is every start and every completion.
   */
  predicate RowOk(r: Migration) {
    && (r.token != NoToken ==> r.livenessAt.Some?)
    && (r.strategy == Manual ==> r.status != Ready && r.status != Running && r.status != Failed)
    && (r.status == Ready && r.strategy == Ghost ==> r.readyAt.Some?)
    && (r.token.Host? ==> r.strategy == Ghost)
    && (r.status == Running ==> r.startedAt.Some?)
    && (r.completedAt.Some? <==> r.status == Complete)
  }

  /** The statements that the actors ever run. */
  predicate Lawful(db: Db, sql: Sql) {
    match sql
    case OwnById(id, token) => token.Host? && id in db.rows && db.rows[id].strategy == Ghost
    case OwnReadyRow(_, strategy, token) => strategy == Direct && token.Unique?
    case SetStatus(_, from, to, strategy) =>
      && LegalStatus(from, to)
      && (to == Ready ==> from == Queued && strategy == Ghost)
      && (to == Queued ==> from == Failed)
    case SetStrategy(_, from, _) => from == Manual
    case SetPrRows(_, from, to, strategy) => from == Queued && to == Ready && strategy == Direct
    case Expire(from, to, _) => to == if from == Running then Failed else from
    case InsertRow(id, row) => id !in db.rows && FreshRow(row)
    case _ => true
  }

  predicate RowsOk(db: Db) {
    forall id :: id in db.rows ==> RowOk(db.rows[id])
  }

  predicate RowsMoved(a: Db, b: Db) {
    forall id :: id in a.rows ==> id in b.rows && LegalMove(a.rows[id], b.rows[id])
  }

  lemma RowAfterIsLegal(db: Db, sql: Sql, id: nat)
    requires Lawful(db, sql) && id in db.rows && RowOk(db.rows[id])
    ensures var r := RowAfter(sql, db.now, id, db.rows[id]); RowOk(r) && LegalMove(db.rows[id], r)
  {
  }

  /** Every row that was there before a statement is changed by that statement alone. */
  lemma RowsAreMapped(db: Db, sql: Sql, id: nat)
    requires id in db.rows
    ensures id in Exec(db, sql).rows && Exec(db, sql).rows[id] == RowAfter(sql, db.now, id, db.rows[id])
  {
  }

  lemma NewRows(db: Db, sql: Sql, id: nat)
    requires id in Exec(db, sql).rows && id !in db.rows
    ensures sql.InsertRow? && id == sql.id && Exec(db, sql).rows[id] == sql.row
  {
  }

  lemma StatementKeepsRows(db: Db, sql: Sql)
    requires RowsOk(db) && Lawful(db, sql)
    ensures RowsOk(Exec(db, sql)) && RowsMoved(db, Exec(db, sql))
  {
    hide RowOk, LegalMove, RowAfter, Exec, RowsAfter;
    var after := Exec(db, sql);
    forall id | id in after.rows ensures RowOk(after.rows[id]) {
      if id in db.rows {
        RowAfterIsLegal(db, sql, id);
        RowsAreMapped(db, sql, id);
      } else {
        NewRows(db, sql, id);
        FreshRowIsOk(sql.row);
      }
    }
    forall id | id in db.rows ensures id in after.rows && LegalMove(db.rows[id], after.rows[id]) {
      RowAfterIsLegal(db, sql, id);
      RowsAreMapped(db, sql, id);
    }
  }

  lemma FreshRowIsOk(row: Migration)
    requires FreshRow(row)
    ensures RowOk(row)
  {
  }
}
