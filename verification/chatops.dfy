/** The chat commands that act on one migration of a pull request, named by its table. */
module Chatops {
  import opened Options
  import opened Statements
  import opened Migrations
  import opened Effects
  import opened Backends

  datatype Answer = NoMigration | Refused(id: nat) | Accepted(id: nat)

  /** The rows that a command reads: every live migration of the pull request, once, in some order. */
  ghost predicate IsPrRead(db: Db, pr: nat, ids: seq<nat>) {
    && (forall k :: 0 <= k < |ids| ==>
          ids[k] in db.rows && db.rows[ids[k]].pr == pr && pr in db.prs && db.rows[ids[k]].status != Cancelled)
    && (forall id :: id in db.rows && db.rows[id].pr == pr && pr in db.prs && db.rows[id].status != Cancelled ==>
          id in ids)
  }

  /** This is the first of the rows read that is about the table. */
  ghost predicate IsNamed(db: Db, ids: seq<nat>, table: string, id: nat)
    requires forall k :: 0 <= k < |ids| ==> ids[k] in db.rows
  {
    exists k :: 0 <= k < |ids| && ids[k] == id && db.rows[id].table == table
                && forall j :: 0 <= j < k ==> db.rows[ids[j]].table != table
  }

  method FindMigration(backend: Backend, ids: seq<nat>, table: string) returns (found: Option<nat>)
    requires forall k :: 0 <= k < |ids| ==> ids[k] in backend.db.rows
    ensures found.None? <==> forall k :: 0 <= k < |ids| ==> backend.db.rows[ids[k]].table != table
    ensures found.Some? ==> IsNamed(backend.db, ids, table, found.value)
  {
    for i := 0 to |ids|
      invariant forall j :: 0 <= j < i ==> backend.db.rows[ids[j]].table != table
    {
      if backend.db.rows[ids[i]].table == table {
        return Some(ids[i]);
      }
    }
    found := None;
  }

  /** The strategy that a human's approval gives to a kind of migration. */
  function ApprovedStrategy(kind: MigrationType): Strategy { StrategyFor(kind, true) }

  /**
   approve-autorun: a manual migration is handed over, to run directly or by gh-ost according to its
   kind. One that cannot be run automatically stays manual.
   */
  method ApproveAutorun(backend: Backend, pr: nat, ids: seq<nat>, table: string) returns (r: Answer)
    requires IsPrRead(backend.db, pr, ids) && 0 !in backend.db.rows
    modifies backend
    ensures r.NoMigration? <==> forall k :: 0 <= k < |ids| ==> old(backend.db).rows[ids[k]].table != table
    ensures !r.NoMigration? ==> IsNamed(old(backend.db), ids, table, r.id)
    ensures !r.Accepted? ==> backend.db == old(backend.db)
    ensures r.Refused? ==> backend.db.rows[r.id].strategy != Manual
    ensures r.Accepted? ==> OnlyRowDiffers(old(backend.db), backend.db, r.id)
    ensures r.Accepted? ==>
      var a := old(backend.db).rows[r.id];
      && a.strategy == Manual
      && (a.kind == CreateTable || a.kind == DropTable ==> backend.db.rows[r.id] == a.(strategy := Direct))
      && (a.kind == AlterTable ==> backend.db.rows[r.id] == a.(strategy := Ghost))
      && (a.kind == AlterDatabase || a.kind == Unsupported ==> backend.db.rows[r.id] == a)
  {
    hide Exec;
    var found := FindMigration(backend, ids, table);
    if found.None? {
      return NoMigration;
    }
    var migration := backend.db.rows[found.value];
    if migration.strategy != Manual {
      return Refused(found.value);
    }
    var _ := backend.UpdateMigrationStrategy(found.value, Manual, ApprovedStrategy(migration.kind));
    r := Accepted(found.value);
  }

  /** retry-migration: what has failed is queued again, and nothing else is. */
  method RetryMigration(backend: Backend, pr: nat, ids: seq<nat>, table: string) returns (r: Answer)
    requires IsPrRead(backend.db, pr, ids) && 0 !in backend.db.rows
    modifies backend
    ensures r.NoMigration? <==> forall k :: 0 <= k < |ids| ==> old(backend.db).rows[ids[k]].table != table
    ensures !r.NoMigration? ==> IsNamed(old(backend.db), ids, table, r.id)
    ensures !r.Accepted? ==> backend.db == old(backend.db)
    ensures r.Refused? ==> backend.db.rows[r.id].status != Failed
    ensures r.Accepted? ==> OnlyRowDiffers(old(backend.db), backend.db, r.id)
    ensures r.Accepted? ==>
      var a := old(backend.db).rows[r.id];
      a.status == Failed && backend.db.rows[r.id] == a.(status := Queued)
  {
    hide Exec;
    var found := FindMigration(backend, ids, table);
    if found.None? {
      return NoMigration;
    }
    var migration := backend.db.rows[found.value];
    if migration.status != Failed {
      return Refused(found.value);
    }
    var _ := backend.UpdateMigrationStatus(found.value, migration.status, Queued, migration.strategy);
    r := Accepted(found.value);
  }

  /** mark-complete: whatever is not complete yet is, and loses its owner. */
  method MarkComplete(backend: Backend, pr: nat, ids: seq<nat>, table: string) returns (r: Answer)
    requires IsPrRead(backend.db, pr, ids) && 0 !in backend.db.rows
    modifies backend
    ensures r.NoMigration? <==> forall k :: 0 <= k < |ids| ==> old(backend.db).rows[ids[k]].table != table
    ensures !r.NoMigration? ==> IsNamed(old(backend.db), ids, table, r.id)
    ensures !r.Accepted? ==> backend.db == old(backend.db)
    ensures r.Refused? ==> backend.db.rows[r.id].status == Complete
    ensures r.Accepted? ==> OnlyRowDiffers(old(backend.db), backend.db, r.id)
    ensures r.Accepted? ==>
      var a, now := old(backend.db).rows[r.id], Some(backend.db.now);
      && a.status != Complete
      && backend.db.rows[r.id] == a.(status := Complete, token := NoToken, livenessAt := now, completedAt := now)
  {
    hide Exec;
    var found := FindMigration(backend, ids, table);
    if found.None? {
      return NoMigration;
    }
    var migration := backend.db.rows[found.value];
    if migration.status == Complete {
      return Refused(found.value);
    }
    var _ := backend.UpdateMigrationStatus(found.value, migration.status, Complete, migration.strategy);
    r := Accepted(found.value);
  }
}
