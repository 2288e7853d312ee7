/**
 The shared tables of pull requests and migrations, and the SQL statements that change them. Each
 statement (or transaction) is one atomic step; it treats every row on its own.
 */
module Migrations {
  import opened Options
  import opened Statements

  datatype Status = Proposed | Queued | Ready | Cancelled | Running | Failed | Complete

  /** Host names are the gh-ost tokens; a direct applier makes a fresh token for each attempt. */
  datatype Token = NoToken | Host(name: string) | Unique(serial: nat)

  datatype Migration = Migration(
    pr: nat, cluster: string, shard: string, table: string, kind: MigrationType,
    strategy: Strategy, status: Status, token: Token, tokenHint: string,
    readyAt: Option<int>, assignedAt: Option<int>, startedAt: Option<int>,
    livenessAt: Option<int>, completedAt: Option<int>)

  datatype PrStatus = PrDetected | PrQueued | PrCancelled | PrComplete

  datatype PullRequest = PullRequest(status: PrStatus, isOpen: bool, approvedByDBInfra: bool, priority: int)

  datatype Db = Db(now: int, prs: map<nat, PullRequest>, rows: map<nat, Migration>)

  const STALE_MINUTES := 10
  const ANY_SITE_SECONDS := 300

  datatype Sql =
    | Nothing
    | Wait(seconds: nat)
    | OwnById(id: nat, token: Token)
    | OwnReadyRow(id: nat, strategy: Strategy, token: Token)
    | SetHint(id: nat, hint: string)
    | SetStatus(id: nat, from: Status, to: Status, strategy: Strategy)
    | SetStrategy(id: nat, fromStrategy: Strategy, toStrategy: Strategy)
    | SetPrRows(pr: nat, from: Status, to: Status, strategy: Strategy)
    | Expire(from: Status, to: Status, minutes: int)
    | QueuePr(pr: nat)
    | CancelPrRows(pr: nat)
    | InsertRow(id: nat, row: Migration)
    | SetPrStatus(pr: nat, prStatus: PrStatus)
    | SubmitPr(pr: nat, prStatus: PrStatus, isOpen: bool, approved: bool)

  /** The columns an `update ... set status=to` of a single migration writes besides the status. */
  function WithStatus(r: Migration, to: Status, now: int): Migration {
    match to
    case Ready => r.(status := Ready, readyAt := Some(now))
    case Running =>
      r.(status := Running, livenessAt := Some(now), startedAt := if r.startedAt.None? then Some(now) else r.startedAt)
    case Complete => r.(status := Complete, livenessAt := Some(now), completedAt := Some(now), token := NoToken)
    case Failed => r.(status := Failed, token := NoToken)
    case _ => r.(status := to)
  }

  predicate Stale(r: Migration, now: int, minutes: int) {
    r.token != NoToken && r.livenessAt.Some? && r.livenessAt.value < now - 60 * minutes
  }

  /** What a statement makes of row `id`. */
  function RowAfter(sql: Sql, now: int, id: nat, r: Migration): Migration {
    match sql
    case OwnById(i, token) =>
      if id == i && r.token == NoToken
      then r.(token := token, assignedAt := Some(now), livenessAt := Some(now)) else r
    case OwnReadyRow(i, strategy, token) =>
      if id == i && r.token == NoToken && r.status == Ready && r.strategy == strategy
      then r.(token := token, assignedAt := Some(now), livenessAt := Some(now)) else r
    case SetHint(i, hint) => if id == i then r.(tokenHint := hint) else r
    case SetStatus(i, from, to, strategy) =>
      if id == i && r.status == from && r.strategy == strategy then WithStatus(r, to, now) else r
    case SetStrategy(i, from, to) => if id == i && r.strategy == from then r.(strategy := to) else r
    case SetPrRows(pr, from, to, strategy) =>
      if r.pr == pr && r.status == from && r.strategy == strategy then r.(status := to) else r
    case Expire(from, to, minutes) =>
      if r.status == from && Stale(r, now, minutes) then r.(token := NoToken, status := to) else r
    case QueuePr(pr) => if r.pr == pr && r.status == Proposed then r.(status := Queued) else r
    case CancelPrRows(pr) =>
      if r.pr == pr && (r.status == Proposed || r.status == Queued) then r.(status := Cancelled) else r
    case _ => r
  }

  function PrsAfter(sql: Sql, prs: map<nat, PullRequest>): map<nat, PullRequest> {
    match sql
    case QueuePr(pr) =>
      if pr in prs && prs[pr].status == PrDetected then prs[pr := prs[pr].(status := PrQueued)] else prs
    case SetPrStatus(pr, status) => if pr in prs then prs[pr := prs[pr].(status := status)] else prs
    case SubmitPr(pr, status, isOpen, approved) =>
      prs[pr := PullRequest(status, isOpen, approved, if pr in prs then prs[pr].priority else 0)]
    case _ => prs
  }

  function RowsAfter(sql: Sql, now: int, rows: map<nat, Migration>): map<nat, Migration> {
    var updated := map id | id in rows :: RowAfter(sql, now, id, rows[id]);
    if sql.InsertRow? && sql.id !in rows then updated[sql.id := sql.row] else updated
  }

  function Exec(db: Db, sql: Sql): Db {
    Db(if sql.Wait? then db.now + sql.seconds else db.now,
       PrsAfter(sql, db.prs),
       RowsAfter(sql, db.now, db.rows))
  }

  // ---------- what the queries see ----------

  predicate Live(db: Db, id: nat) {
    id in db.rows && db.rows[id].status != Cancelled && db.rows[id].pr in db.prs
  }

  predicate InOpenPr(db: Db, id: nat) {
    Live(db, id) && db.prs[db.rows[id].pr].isOpen
  }

  predicate HasToken(db: Db, id: nat, token: Token) {
    Live(db, id) && db.rows[id].token == token
  }

  /** The rows offered to a utility host at `site`. */
  predicate GhostReadyFor(db: Db, id: nat, site: string) {
    && Live(db, id)
    && db.rows[id].token == NoToken && db.rows[id].strategy == Ghost && db.rows[id].status == Ready
    && (db.rows[id].tokenHint == site ||
        (db.rows[id].readyAt.Some? && db.now - db.rows[id].readyAt.value >= ANY_SITE_SECONDS))
  }

  predicate Active(r: Migration) { r.status == Ready || r.status == Running }

  predicate SamePlace(a: Migration, b: Migration) { a.cluster == b.cluster && a.shard == b.shard }

  /** Another migration of an open pull request, on the same cluster and shard. */
  predicate Beside(db: Db, other: nat, id: nat)
    requires id in db.rows
  {
    other != id && InOpenPr(db, other) && SamePlace(db.rows[other], db.rows[id])
  }

  /** A queued gh-ost migration of an open pull request with nothing ready or running beside it. */
  ghost predicate Eligible(db: Db, id: nat) {
    && InOpenPr(db, id) && db.rows[id].strategy == Ghost && db.rows[id].status == Queued
    && forall other :: Beside(db, other, id) ==> !Active(db.rows[other])
  }

  /** All of a pull request's migrations are complete or cancelled, and it has some. */
  predicate AllDone(db: Db, pr: nat) {
    && (exists id :: id in db.rows && db.rows[id].pr == pr)
    && forall id :: id in db.rows && db.rows[id].pr == pr ==> Finished(db.rows[id].status)
  }

  predicate Finished(status: Status) { status == Complete || status == Cancelled }
}
