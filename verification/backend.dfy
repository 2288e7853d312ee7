/** The database access layer and the handlers built on it, each run without interference. */
module Backends {
  import opened Options
  import opened Statements
  import opened Migrations
  import opened Lifecycle
  import opened Effects

  datatype Result<+T> = Ok(value: T) | EmptyArgument

  /** What a status handler answers. */
  datatype Report = Updated(id: nat) | UnknownToken | WrongStatus(status: Status) | NoRowsAffected

  datatype OwnOutcome = AlreadyOwns(id: nat) | NothingToPick | Owns(id: nat) | NotOwned

  datatype ApplyOutcome = NothingOwned | GivenUp(id: nat) | ApplyFailed(id: nat) | Applied(id: nat)

  ghost function Changed(db: Db, sql: Sql): set<nat> {
    set id | id in db.rows && RowAfter(sql, db.now, id, db.rows[id]) != db.rows[id]
  }

  class Backend {
    var db: Db

    constructor (db: Db)
      ensures this.db == db
    {
      this.db := db;
    }

    /**
     Runs one update statement, row by row in whatever order. As the MySQL driver does by default,
     it counts the rows whose values change, not the rows that match.
     */
    method Run(sql: Sql) returns (affected: nat)
      requires !sql.InsertRow? && !sql.Wait?
      modifies this
      ensures db == Exec(old(db), sql)
      ensures affected == |Changed(old(db), sql)|
    {
      hide RowAfter, Exec, Changed;
      var now, before := db.now, db.rows;
      var rows, todo := before, before.Keys;
      affected := 0;
      ghost var changed: set<nat> := {};
      while todo != {}
        invariant todo <= rows.Keys == before.Keys
        invariant forall id :: id in todo ==> rows[id] == before[id]
        invariant forall id :: id in rows && id !in todo ==> rows[id] == RowAfter(sql, now, id, before[id])
        invariant |changed| == affected
        invariant forall id :: id in changed <==> id in rows && rows[id] != before[id]
      {
        var id :| id in todo;
        var r := RowAfter(sql, now, id, rows[id]);
        if r != rows[id] {
          affected := affected + 1;
          changed := changed + {id};
        }
        rows := rows[id := r];
        todo := todo - {id};
      }
      AllRowsVisited(db, sql, rows, changed);
      db := Db(db.now, PrsAfter(sql, db.prs), rows);
    }

    method UpdateMigrationStatus(id: nat, from: Status, to: Status, strategy: Strategy) returns (r: Result<nat>)
      modifies this
      ensures r.Ok? <==> id != 0
      ensures db == if id == 0 then old(db) else Exec(old(db), SetStatus(id, from, to, strategy))
      ensures id != 0 ==> r.value == |Changed(old(db), SetStatus(id, from, to, strategy))|
      ensures id != 0 ==> OnlyRowDiffers(old(db), db, id)
      ensures id != 0 && id in db.rows ==>
        if old(db).rows[id].status == from && old(db).rows[id].strategy == strategy
        then StatusWritten(old(db).rows[id], db.rows[id], to, db.now)
        else db.rows[id] == old(db).rows[id]
    {
      hide Exec, Changed, StatusWritten;
      if id == 0 {
        return EmptyArgument;
      }
      StatusWriteEffect(db, id, from, to, strategy);
      var affected := Run(SetStatus(id, from, to, strategy));
      r := Ok(affected);
    }

    method UpdatePRMigrationsStatus(pr: nat, from: Status, to: Status, strategy: Strategy) returns (r: Result<nat>)
      modifies this
      ensures r.Ok? <==> pr != 0
      ensures db == if pr == 0 then old(db) else Exec(old(db), SetPrRows(pr, from, to, strategy))
      ensures pr != 0 ==> r.value == |Changed(old(db), SetPrRows(pr, from, to, strategy))|
      ensures pr != 0 ==> OnlyRowsDiffer(old(db), db)
      ensures pr != 0 ==> forall i :: i in db.rows ==>
        var a := old(db).rows[i];
        db.rows[i] == if a.pr == pr && a.status == from && a.strategy == strategy then a.(status := to) else a
    {
      hide Exec, Changed;
      if pr == 0 {
        return EmptyArgument;
      }
      PrRowsEffect(db, pr, from, to, strategy);
      var affected := Run(SetPrRows(pr, from, to, strategy));
      r := Ok(affected);
    }

    method UpdateMigrationTokenHint(id: nat, hint: string) returns (ok: bool)
      modifies this
      ensures ok <==> id != 0
      ensures db == if id == 0 then old(db) else Exec(old(db), SetHint(id, hint))
      ensures id != 0 ==> OnlyRowDiffers(old(db), db, id)
      ensures id != 0 && id in db.rows ==> db.rows[id] == old(db).rows[id].(tokenHint := hint)
    {
      hide Exec;
      if id == 0 {
        return false;
      }
      HintEffect(db, id, hint);
      var _ := Run(SetHint(id, hint));
      ok := true;
    }

    method UpdateMigrationStrategy(id: nat, from: Strategy, to: Strategy) returns (r: Result<nat>)
      modifies this
      ensures r.Ok? <==> id != 0
      ensures db == if id == 0 then old(db) else Exec(old(db), SetStrategy(id, from, to))
      ensures id != 0 ==> OnlyRowDiffers(old(db), db, id)
      ensures id != 0 && id in db.rows ==>
        var a := old(db).rows[id];
        db.rows[id] == if a.strategy == from then a.(strategy := to) else a
    {
      hide Exec;
      if id == 0 {
        return EmptyArgument;
      }
      StrategyEffect(db, id, from, to);
      var affected := Run(SetStrategy(id, from, to));
      r := Ok(affected);
    }

    /** Queueing takes what is proposed, and nothing else, of this pull request, and nothing of others. */
    method QueuePRMigrations(pr: nat) returns (affected: nat)
      modifies this
      ensures db.now == old(db.now) && db.rows.Keys == old(db.rows.Keys) && db.prs.Keys == old(db.prs.Keys)
      ensures forall i :: i in db.rows ==>
        var a := old(db).rows[i];
        db.rows[i] == if a.pr == pr && a.status == Proposed then a.(status := Queued) else a
      ensures forall p :: p in db.prs ==>
        var a := old(db).prs[p];
        db.prs[p] == if p == pr && a.status == PrDetected then a.(status := PrQueued) else a
    {
      hide Exec, Changed;
      QueueEffect(db, pr);
      affected := Run(QueuePr(pr));
    }

    /** What has not been started of this pull request is cancelled; nothing else is touched. */
    method ForgetPRStatementsAndMigrations(pr: nat) returns (ok: bool)
      modifies this
      ensures ok <==> pr != 0
      ensures pr == 0 ==> db == old(db)
      ensures pr != 0 ==> OnlyRowsDiffer(old(db), db)
      ensures pr != 0 ==> forall i :: i in db.rows ==>
        var a := old(db).rows[i];
        db.rows[i] == if a.pr == pr && (a.status == Proposed || a.status == Queued) then a.(status := Cancelled) else a
    {
      hide Exec, Changed;
      if pr == 0 {
        return false;
      }
      ForgetEffect(db, pr);
      var _ := Run(CancelPrRows(pr));
      ok := true;
    }

    method UpdatePRStatus(pr: nat, to: PrStatus) returns (ok: bool)
      modifies this
      ensures ok <==> pr != 0
      ensures db.now == old(db.now) && db.rows == old(db.rows) && db.prs.Keys == old(db.prs.Keys)
      ensures forall p :: p in db.prs ==>
        var a := old(db).prs[p];
        db.prs[p] == if pr != 0 && p == pr then a.(status := to) else a
    {
      hide Exec, Changed;
      if pr == 0 {
        return false;
      }
      PrStatusEffect(db, pr, to);
      var _ := Run(SetPrStatus(pr, to));
      ok := true;
    }

    /** A pull request is updated if it is known and inserted if it is not; its priority is kept. */
    method SubmitPR(pr: nat, status: PrStatus, isOpen: bool, approved: bool)
      modifies this
      ensures db.now == old(db.now) && db.rows == old(db.rows) && db.prs.Keys == old(db.prs.Keys) + {pr}
      ensures forall p :: p in old(db).prs && p != pr ==> db.prs[p] == old(db).prs[p]
      ensures var b := db.prs[pr]; b.status == status && b.isOpen == isOpen && b.approvedByDBInfra == approved
      ensures pr in old(db).prs ==> db.prs[pr].priority == old(db).prs[pr].priority
    {
      hide Exec, Changed;
      SubmitEffect(db, pr, status, isOpen, approved);
      var _ := Run(SubmitPr(pr, status, isOpen, approved));
    }

    method ReadMigrationByToken(token: Token) returns (r: Result<Option<nat>>)
      ensures r.Ok? <==> token != NoToken
      ensures r.Ok? && r.value.Some? ==> HasToken(db, r.value.value, token)
      ensures r.Ok? && r.value.None? ==> forall id :: id in db.rows ==> !HasToken(db, id, token)
      ensures r.Ok? && r.value.Some? ==>
        var id := r.value.value;
        id in db.rows && db.rows[id].token == token && db.rows[id].status != Cancelled && db.rows[id].pr in db.prs
      ensures r.Ok? && r.value.None? ==>
        forall id :: id in db.rows && db.rows[id].token == token ==>
          db.rows[id].status == Cancelled || db.rows[id].pr !in db.prs
    {
      if token == NoToken {
        return EmptyArgument;
      }
      var todo := db.rows.Keys;
      while todo != {}
        invariant todo <= db.rows.Keys
        invariant forall id :: id in db.rows && id !in todo ==> !HasToken(db, id, token)
      {
        var id :| id in todo;
        if HasToken(db, id, token) {
          return Ok(Some(id));
        }
        todo := todo - {id};
      }
      r := Ok(None);
    }

    method OwnMigration(id: nat, token: Token) returns (r: Result<Option<nat>>)
      modifies this
      ensures db == Exec(old(db), OwnById(id, token))
      ensures r.Ok? <==> token != NoToken
      ensures r.Ok? && r.value.Some? ==> HasToken(db, r.value.value, token)
      ensures r.Ok? && r.value.None? ==> forall i :: i in db.rows ==> !HasToken(db, i, token)
      ensures OnlyRowDiffers(old(db), db, id)
      ensures id in db.rows ==>
        if old(db).rows[id].token == NoToken then TakenBy(old(db).rows[id], db.rows[id], token, db.now)
        else db.rows[id] == old(db).rows[id]
    {
      hide Exec, HasToken, Changed;
      OwnEffect(db, id, token);
      var _ := Run(OwnById(id, token));
      r := ReadMigrationByToken(token);
    }

    /** The statement takes any one row that matches, if there is one. */
    method OwnReadyMigration(strategy: Strategy, token: Token) returns (r: Result<Option<nat>>)
      requires token != NoToken
      modifies this
      ensures r.Ok?
      ensures (exists id :: Takes(old(db), db, id, strategy, token)) ||
              (db == old(db) && forall id :: id in db.rows ==> !Free(db.rows[id], strategy))
      ensures r.value.Some? ==> HasToken(db, r.value.value, token)
      ensures r.value.None? ==> forall id :: id in db.rows ==> !HasToken(db, id, token)
    {
      var free := set id | id in db.rows && Free(db.rows[id], strategy);
      if free == {} {
        assert forall id :: id in db.rows && Free(db.rows[id], strategy) ==> id in free;
      } else {
        var id :| id in free;
        OwnReadyEffect(db, id, strategy, token);
        var _ := Run(OwnReadyRow(id, strategy, token));
        assert Takes(old(db), db, id, strategy, token);
      }
      r := ReadMigrationByToken(token);
    }

    /** One sweep releases exactly what is owned in its status and has been silent for too long. */
    method ExpireStaleMigrations(from: Status, to: Status, minutes: int)
      modifies this
      ensures db == Exec(old(db), Expire(from, to, minutes)) && OnlyRowsDiffer(old(db), db)
      ensures forall id :: id in db.rows && db.rows[id].status == from ==> !Silent(db.rows[id], db.now, 60 * minutes)
      ensures forall id :: id in db.rows ==>
        var a := old(db).rows[id];
        db.rows[id] == SweptFrom(a, from, to, db.now, minutes)
    {
      hide Exec, Changed;
      ExpireEffect(db, from, to, minutes);
      var _ := Run(Expire(from, to, minutes));
    }

    /**
     The four sweeps of one scheduler tick. Whoever has been silent for more than 10 minutes loses what
     was ready, running, complete or failed, and what was running has failed; nobody else loses anything.
     */
    method Sweep()
      modifies this
      ensures OnlyRowsDiffer(old(db), db)
      ensures forall id :: id in db.rows ==> AfterSweeps(old(db).rows[id], db.rows[id], db.now)
    {
      hide Exec, SweptFrom, AfterSweeps;
      ExpireStaleMigrations(Ready, Ready, STALE_MINUTES);
      ghost var a := db.rows;
      ExpireStaleMigrations(Running, Failed, STALE_MINUTES);
      ghost var b := db.rows;
      ExpireStaleMigrations(Complete, Complete, STALE_MINUTES);
      ghost var c := db.rows;
      ExpireStaleMigrations(Failed, Failed, STALE_MINUTES);
      forall id | id in db.rows ensures AfterSweeps(old(db).rows[id], db.rows[id], db.now) {
        FourSweeps(old(db).rows[id], a[id], b[id], c[id], db.rows[id], db.now);
      }
    }

    // ---------- handlers of the command line ----------

    /** The common part of the started, running, complete and failed commands. */
    method ReportStatus(token: Token, to: Status, fromStatuses: set<Status>) returns (r: Result<Report>)
      requires forall id :: id in db.rows ==> id != 0
      modifies this
      ensures r.Ok? <==> token != NoToken
      ensures r.Ok? && (r.value.Updated? || r.value.NoRowsAffected?) ==>
        exists id :: HasToken(old(db), id, token) && old(db).rows[id].status in fromStatuses &&
          db == Exec(old(db), SetStatus(id, old(db).rows[id].status, to, old(db).rows[id].strategy)) &&
          (r.value == Updated(id) || (r.value.NoRowsAffected? && SaysNothingNew(old(db).rows[id], to, db.now)))
      ensures r.Ok? && r.value.Updated? ==>
        var id := r.value.id;
        && id in old(db).rows && old(db).rows[id].token == token && old(db).rows[id].status in fromStatuses
        && OnlyRowDiffers(old(db), db, id) && StatusWritten(old(db).rows[id], db.rows[id], to, db.now)
      ensures r.Ok? && r.value.UnknownToken? <==>
        token != NoToken && forall id :: id in old(db).rows ==> !HasToken(old(db), id, token)
      ensures r.Ok? && r.value.WrongStatus? ==>
        r.value.status !in fromStatuses &&
        exists id :: HasToken(old(db), id, token) && old(db).rows[id].status == r.value.status
      ensures !(r.Ok? && (r.value.Updated? || r.value.NoRowsAffected?)) ==> db == old(db)
    {
      var found := ReadMigrationByToken(token);
      if found.EmptyArgument? {
        return EmptyArgument;
      }
      if found.value.None? {
        return Ok(UnknownToken);
      }
      var id := found.value.value;
      var status, strategy := db.rows[id].status, db.rows[id].strategy;
      if status !in fromStatuses {
        return Ok(WrongStatus(status));
      }
      var update := UpdateMigrationStatus(id, status, to, strategy);
      OneRowChanges(old(db), id, to);
      if update.value == 0 {
        return Ok(NoRowsAffected);
      }
      r := Ok(Updated(id));
    }

    /** Both migration-started and migration-running: the first start is kept, later ones are signs of life. */
    method HandleMigrationRunning(token: Token) returns (r: Result<Report>)
      requires forall id :: id in db.rows ==> id != 0
      modifies this
      ensures r.Ok? <==> token != NoToken
      ensures r.Ok? && r.value.Updated? ==> r.value.id in old(db).rows && OnlyRowDiffers(old(db), db, r.value.id)
      ensures r.Ok? && r.value.Updated? ==>
        var a, b, now := old(db).rows[r.value.id], db.rows[r.value.id], Some(db.now);
        && a.token == token && (a.status == Ready || a.status == Running)
        && b == a.(status := Running, livenessAt := now, startedAt := if a.startedAt == None then now else a.startedAt)
      ensures r.Ok? && r.value.WrongStatus? ==> r.value.status != Ready && r.value.status != Running
    {
      hide Exec;
      r := ReportStatus(token, Running, ReportedFrom(Running));
    }

    /** migration-complete: only what is running completes, and it is released. */
    method HandleMigrationComplete(token: Token) returns (r: Result<Report>)
      requires forall id :: id in db.rows ==> id != 0
      modifies this
      ensures r.Ok? <==> token != NoToken
      ensures r.Ok? && r.value.Updated? ==> r.value.id in old(db).rows && OnlyRowDiffers(old(db), db, r.value.id)
      ensures r.Ok? && r.value.Updated? ==>
        var a, b, now := old(db).rows[r.value.id], db.rows[r.value.id], Some(db.now);
        && a.token == token && a.status == Running
        && b == a.(status := Complete, token := NoToken, livenessAt := now, completedAt := now)
      ensures r.Ok? && r.value.WrongStatus? ==> r.value.status != Running
    {
      hide Exec;
      r := ReportStatus(token, Complete, ReportedFrom(Complete));
    }

    /** migration-failed: what is on offer or running fails, and it is released. */
    method HandleMigrationFailed(token: Token) returns (r: Result<Report>)
      requires forall id :: id in db.rows ==> id != 0
      modifies this
      ensures r.Ok? <==> token != NoToken
      ensures r.Ok? && r.value.Updated? ==> r.value.id in old(db).rows && OnlyRowDiffers(old(db), db, r.value.id)
      ensures r.Ok? && r.value.Updated? ==>
        var a, b := old(db).rows[r.value.id], db.rows[r.value.id];
        && a.token == token && (a.status == Ready || a.status == Running)
        && b == a.(status := Failed, token := NoToken)
      ensures r.Ok? && r.value.WrongStatus? ==> r.value.status != Ready && r.value.status != Running
    {
      hide Exec;
      r := ReportStatus(token, Failed, ReportedFrom(Failed));
    }

    /** migration-own, for a utility host at a site. */
    method HandleMigrationOwn(host: string, site: string) returns (r: OwnOutcome)
      modifies this
      ensures r.AlreadyOwns? <==> exists id :: id in old(db).rows && HasToken(old(db), id, Host(host))
      ensures r.NothingToPick? <==>
        !r.AlreadyOwns? && forall id :: id in old(db).rows ==> !GhostReadyFor(old(db), id, site)
      ensures r.Owns? ==> GhostReadyFor(old(db), r.id, site) && db == Exec(old(db), OwnById(r.id, Host(host)))
      ensures !r.NotOwned?
      ensures !r.Owns? ==> db == old(db)
      ensures r.AlreadyOwns? <==>
        exists id :: id in old(db).rows && old(db).rows[id].token == Host(host)
                     && old(db).rows[id].status != Cancelled && old(db).rows[id].pr in old(db).prs
      ensures r.Owns? ==> r.id in old(db).rows && OnlyRowDiffers(old(db), db, r.id)
      ensures r.Owns? ==>
        var a := old(db).rows[r.id];
        && a.status == Ready && a.strategy == Ghost && a.token == NoToken && a.pr in db.prs
        && (a.tokenHint == site || (a.readyAt.Some? && db.now - a.readyAt.value >= 300))
        && TakenBy(a, db.rows[r.id], Host(host), db.now)
      ensures r.NothingToPick? ==>
        forall id :: id in db.rows ==>
          var a := db.rows[id];
          !(&& a.status == Ready && a.strategy == Ghost && a.token == NoToken && a.pr in db.prs
            && (a.tokenHint == site || (a.readyAt.Some? && db.now - a.readyAt.value >= 300)))
    {
      hide Exec;
      var mine := ReadMigrationByToken(Host(host));
      if mine.value.Some? {
        return AlreadyOwns(mine.value.value);
      }
      var offered := set id | id in db.rows && GhostReadyFor(db, id, site);
      if offered == {} {
        assert forall id :: id in db.rows && GhostReadyFor(db, id, site) ==> id in offered;
        return NothingToPick;
      }
      var picked :| picked in offered;
      var owned := OwnMigration(picked, Host(host));
      OwnedIsPicked(old(db), picked, Host(host));
      if owned.value.None? {
        return NotOwned;
      }
      r := Owns(owned.value.value);
    }

    // ---------- the direct applier ----------

    /**
     One attempt: own, start, run the statement, finish. Cluster lookup, connection, ping or a
     read-only host (`unable`) make it give up and leave the migration running.
     */
    method ApplyNextMigration(serial: nat, unable: bool, statementFails: bool) returns (r: ApplyOutcome)
      requires forall id :: id in db.rows ==> id != 0 && db.rows[id].token != Unique(serial) && db.rows[id].pr in db.prs
      modifies this
      ensures r.NothingOwned? <==> forall id :: id in old(db).rows ==> !Free(old(db).rows[id], Direct)
      ensures r.NothingOwned? ==> db == old(db)
      ensures !r.NothingOwned? ==> r.id in old(db).rows && Free(old(db).rows[r.id], Direct)
      ensures !r.NothingOwned? ==>
        var owned := Exec(old(db), OwnReadyRow(r.id, Direct, Unique(serial)));
        var started := Exec(owned, SetStatus(r.id, Ready, Running, Direct));
        match r
        case GivenUp(_) => unable && db == started
        case ApplyFailed(_) =>
          !unable && statementFails && db == Exec(started, SetStatus(r.id, Running, Failed, Direct))
        case Applied(_) => !unable && !statementFails && db == Exec(started, SetStatus(r.id, Running, Complete, Direct))
      ensures !r.NothingOwned? ==> OnlyRowDiffers(old(db), db, r.id)
      ensures !r.NothingOwned? ==>
        var a, b, now := old(db).rows[r.id], db.rows[r.id], Some(db.now);
        && a.token == NoToken && a.status == Ready && a.strategy == Direct
        && b == a.(assignedAt := now, livenessAt := now, startedAt := if a.startedAt == None then now else a.startedAt,
                   token := if r.GivenUp? then Unique(serial) else NoToken,
                   status := if r.GivenUp? then Running else if r.ApplyFailed? then Failed else Complete,
                   completedAt := if r.Applied? then now else a.completedAt)
    {
      hide Exec, Changed;
      var owned := OwnReadyMigration(Direct, Unique(serial));
      TakenIsReturned(old(db), db, Direct, Unique(serial));
      if owned.value.None? {
        return NothingOwned;
      }
      var id := owned.value.value;
      var _ := UpdateMigrationStatus(id, Ready, Running, Direct);
      if unable {
        return GivenUp(id);
      }
      if statementFails {
        var _ := UpdateMigrationStatus(id, Running, Failed, Direct);
        return ApplyFailed(id);
      }
      var _ := UpdateMigrationStatus(id, Running, Complete, Direct);
      r := Applied(id);
    }
  }

  lemma AllRowsVisited(db: Db, sql: Sql, rows: map<nat, Migration>, changed: set<nat>)
    requires !sql.InsertRow? && !sql.Wait? && rows.Keys == db.rows.Keys
    requires forall id :: id in rows ==> rows[id] == RowAfter(sql, db.now, id, db.rows[id])
    requires forall id :: id in changed <==> id in rows && rows[id] != db.rows[id]
    ensures changed == Changed(db, sql) && Exec(db, sql) == Db(db.now, PrsAfter(sql, db.prs), rows)
  {
    hide RowAfter;
    assert rows == RowsAfter(sql, db.now, db.rows);
  }

  function SweptFrom(r: Migration, from: Status, to: Status, now: int, minutes: int): Migration {
    if r.status == from && Silent(r, now, 60 * minutes) then r.(token := NoToken, status := to) else r
  }

  /** What a tick's sweeps make of a migration: 600 seconds of silence cost it its owner. */
  predicate AfterSweeps(a: Migration, b: Migration, now: int) {
    b == if a.status != Ready && a.status != Running && a.status != Complete && a.status != Failed then a
         else if !Silent(a, now, 600) then a
         else a.(token := NoToken, status := if a.status == Running then Failed else a.status)
  }

  lemma FourSweeps(r: Migration, a: Migration, b: Migration, c: Migration, d: Migration, now: int)
    requires a == SweptFrom(r, Ready, Ready, now, STALE_MINUTES)
    requires b == SweptFrom(a, Running, Failed, now, STALE_MINUTES)
    requires c == SweptFrom(b, Complete, Complete, now, STALE_MINUTES)
    requires d == SweptFrom(c, Failed, Failed, now, STALE_MINUTES)
    ensures AfterSweeps(r, d, now)
  {
  }

  predicate Free(r: Migration, strategy: Strategy) {
    r.token == NoToken && r.status == Ready && r.strategy == strategy
  }

  ghost predicate Takes(before: Db, after: Db, id: nat, strategy: Strategy, token: Token) {
    && id in before.rows && Free(before.rows[id], strategy)
    && after == Exec(before, OwnReadyRow(id, strategy, token))
    && OnlyRowDiffers(before, after, id) && TakenBy(before.rows[id], after.rows[id], token, before.now)
  }

  /** A report that changes no column: a sign of life in the same second as the last one. */
  predicate SaysNothingNew(r: Migration, to: Status, now: int) {
    WithStatus(r, to, now) == r
  }

  lemma OneRowChanges(db: Db, id: nat, to: Status)
    requires id in db.rows
    ensures var changed := Changed(db, SetStatus(id, db.rows[id].status, to, db.rows[id].strategy));
            changed == if SaysNothingNew(db.rows[id], to, db.now) then {} else {id}
  {
  }

  /**
   Exactly when a status write affects no row, which the handlers answer with an error: the row has
   moved on since it was read, or the write says nothing new.
   */
  lemma WriteIsLostExactlyIf(db: Db, id: nat, from: Status, to: Status, strategy: Strategy)
    requires id in db.rows
    ensures Changed(db, SetStatus(id, from, to, strategy)) == {} <==>
      db.rows[id].status != from || db.rows[id].strategy != strategy || SaysNothingNew(db.rows[id], to, db.now)
  {
    var r := db.rows[id];
    if r.status == from && r.strategy == strategy && !SaysNothingNew(r, to, db.now) {
      assert id in Changed(db, SetStatus(id, from, to, strategy));
    }
  }

  /** Only signs of life can say nothing new, and only within one second. */
  lemma NothingNewExactlyIfSameSecond(r: Migration, to: Status, now: int)
    requires to == Running || (to == Complete && r.status == Running) || (to == Failed && r.status != Failed)
    ensures SaysNothingNew(r, to, now) <==>
            to == Running && r.status == Running && r.livenessAt == Some(now) && r.startedAt.Some?
  {
  }

  lemma OwnedIsPicked(db: Db, id: nat, token: Token)
    requires id in db.rows && Live(db, id) && db.rows[id].token == NoToken && token != NoToken
    requires forall i :: i in db.rows ==> !HasToken(db, i, token)
    ensures forall i :: i in db.rows ==> (HasToken(Exec(db, OwnById(id, token)), i, token) <==> i == id)
  {
  }

  lemma TakenIsReturned(before: Db, after: Db, strategy: Strategy, token: Token)
    requires token != NoToken
    requires forall id :: id in before.rows ==> before.rows[id].token != token && before.rows[id].pr in before.prs
    ensures forall id :: Takes(before, after, id, strategy, token) ==>
      HasToken(after, id, token) && forall i :: i in after.rows && HasToken(after, i, token) ==> i == id
  {
  }
}
