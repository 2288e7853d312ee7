/** Tokens: who owns which migration. */
module Ownership {
  import opened Options
  import opened Statements
  import opened Migrations
  import opened Lifecycle
  import opened LifecycleInvariants

  predicate Unheld(db: Db, token: Token) {
    forall id :: id in db.rows ==> !HasToken(db, id, token)
  }

  predicate HeldOnlyBy(db: Db, token: Token, id: nat) {
    forall j :: j in db.rows && HasToken(db, j, token) ==> j == id
  }

  /** Each token is on at most one live row. */
  ghost predicate SingleOwner(db: Db) {
    forall i, token :: i in db.rows && token != NoToken && HasToken(db, i, token) ==> HeldOnlyBy(db, token, i)
  }

  predicate SerialsUsed(db: Db, next: nat) {
    forall id :: id in db.rows && db.rows[id].token.Unique? ==> db.rows[id].token.serial < next
  }

  predicate HostHolds(db: Db, host: string, phase: HostPhase) {
    match phase
    case Idle => true
    case Checked => Unheld(db, Host(host))
    case Picked(_) => Unheld(db, Host(host))
    case Owned(id) => HeldOnlyBy(db, Host(host), id)
  }

  ghost predicate OwnershipInv(s: System) {
    && SingleOwner(s.db) && SerialsUsed(s.db, s.nextSerial)
    && forall host :: host in s.hosts ==> HostHolds(s.db, host, s.hosts[host])
  }

  /** The statement puts this token on this row, if it is free. */
  predicate Grants(sql: Sql, id: nat, token: Token) {
    (sql.OwnById? && sql.id == id && sql.token == token) || (sql.OwnReadyRow? && sql.id == id && sql.token == token)
  }

  lemma TokenBefore(db: Db, sql: Sql, id: nat, token: Token)
    requires id in db.rows && RowOk(db.rows[id]) && Lawful(db, sql) && token != NoToken
    requires RowAfter(sql, db.now, id, db.rows[id]).token == token
    ensures db.rows[id].token == token || Grants(sql, id, token)
  {
  }

  /** Whoever holds a token after a statement held it before, or has just been granted it. */
  lemma HolderBefore(db: Db, sql: Sql, id: nat, token: Token)
    requires RowsOk(db) && PrsKnown(db) && Lawful(db, sql) && token != NoToken
    requires HasToken(Exec(db, sql), id, token)
    ensures id in db.rows && (HasToken(db, id, token) || Grants(sql, id, token))
  {
    hide RowAfter, RowsAfter, Exec, RowOk;
    StatementKeepsRows(db, sql);
    if id in db.rows {
      assert LegalMove(db.rows[id], Exec(db, sql).rows[id]);
      RowsAreMapped(db, sql, id);
      TokenBefore(db, sql, id, token);
    } else {
      NewRows(db, sql, id);
    }
  }

  lemma StaysUnheld(db: Db, sql: Sql, token: Token)
    requires RowsOk(db) && PrsKnown(db) && Lawful(db, sql) && token != NoToken && Unheld(db, token)
    requires !(sql.OwnById? && sql.token == token) && !(sql.OwnReadyRow? && sql.token == token)
    ensures Unheld(Exec(db, sql), token)
  {
    hide RowsOk, PrsKnown, Lawful, Exec, HasToken;
    forall id | id in Exec(db, sql).rows ensures !HasToken(Exec(db, sql), id, token) {
      if HasToken(Exec(db, sql), id, token) {
        HolderBefore(db, sql, id, token);
      }
    }
  }

  /** A grant of a token nobody holds leaves it on that row alone; other statements leave it where it is. */
  lemma StaysHeldOnlyBy(db: Db, sql: Sql, token: Token, id: nat)
    requires RowsOk(db) && PrsKnown(db) && Lawful(db, sql) && token != NoToken && HeldOnlyBy(db, token, id)
    requires forall j :: Grants(sql, j, token) ==> j == id
    ensures HeldOnlyBy(Exec(db, sql), token, id)
  {
    hide RowsOk, PrsKnown, Lawful, Exec, HasToken;
    forall j | j in Exec(db, sql).rows && HasToken(Exec(db, sql), j, token) ensures j == id {
      HolderBefore(db, sql, j, token);
    }
  }

  lemma StatementKeepsSingleOwner(db: Db, sql: Sql)
    requires RowsOk(db) && PrsKnown(db) && Lawful(db, sql) && SingleOwner(db)
    requires (sql.OwnById? || sql.OwnReadyRow?) ==> Unheld(db, sql.token)
    ensures SingleOwner(Exec(db, sql))
  {
    hide RowsOk, PrsKnown, Lawful, Exec, HasToken;
    forall i, token | i in Exec(db, sql).rows && token != NoToken && HasToken(Exec(db, sql), i, token)
      ensures HeldOnlyBy(Exec(db, sql), token, i)
    {
      HolderBefore(db, sql, i, token);
      assert HeldOnlyBy(db, token, i);
      forall j | Grants(sql, j, token) ensures j == i {
        assert Unheld(db, token);
      }
      StaysHeldOnlyBy(db, sql, token, i);
    }
  }

  lemma StatementKeepsSerials(db: Db, sql: Sql, next: nat)
    requires RowsOk(db) && Lawful(db, sql) && SerialsUsed(db, next)
    ensures SerialsUsed(Exec(db, sql),
                        if sql.OwnReadyRow? && sql.token.serial >= next then sql.token.serial + 1 else next)
  {
    hide RowAfter, RowsAfter, Exec, RowOk, LegalMove;
    var after := Exec(db, sql);
    forall id | id in after.rows && after.rows[id].token.Unique?
      ensures after.rows[id].token.serial < next || (sql.OwnReadyRow? && sql.token == after.rows[id].token)
    {
      if id in db.rows {
        RowsAreMapped(db, sql, id);
        TokenBefore(db, sql, id, after.rows[id].token);
      } else {
        NewRows(db, sql, id);
      }
    }
  }

  /** A token is granted only to a host that has checked it is free, or to an applier that has just made it. */
  lemma GrantIsFresh(s: System, step: Step)
    requires Inv(s) && OwnershipInv(s) && Enabled(s, step)
    ensures var sql := Statement(s, step); (sql.OwnById? || sql.OwnReadyRow?) ==> Unheld(s.db, sql.token)
  {
    hide Inv, RowAfter, Eligible, GhostReadyFor, FreshRow, WorthAnalysing, Unheld, SerialsUsed, SingleOwner, HasToken;
    NewSerialIsUnheld(s.db, s.nextSerial);
    if step.HostOwn? {
      assert HostHolds(s.db, step.host, s.hosts[step.host]);
    }
  }

  lemma NewSerialIsUnheld(db: Db, next: nat)
    requires SerialsUsed(db, next)
    ensures Unheld(db, Unique(next))
  {
  }

  lemma StepKeepsHosts(s: System, step: Step, host: string)
    requires Inv(s) && OwnershipInv(s) && Enabled(s, step) && host in Next(s, step).hosts
    ensures HostHolds(Next(s, step).db, host, Next(s, step).hosts[host])
  {
    hide RowsOk, PrsKnown, Lawful, Exec, HasToken, SingleOwner, SerialsUsed, ProbeAfter, WritesAfter, AppliersAfter;
    hide Unheld, HeldOnlyBy, ProbeOk, WriteOk, OnlyApproved;
    var sql := Statement(s, step);
    StatementIsLawful(s, step);
    match Next(s, step).hosts[host]
    case Idle =>
    case Checked =>
      CheckedIsUnheld(s, step, host);
      StaysUnheld(s.db, sql, Host(host));
    case Picked(_) =>
      StaysUnheld(s.db, sql, Host(host));
    case Owned(id) =>
      UnheldIsHeldOnlyBy(s.db, Host(host), id);
      StaysHeldOnlyBy(s.db, sql, Host(host), id);
  }

  lemma CheckedIsUnheld(s: System, step: Step, host: string)
    requires OwnershipInv(s) && Enabled(s, step) && host in HostsAfter(s, step) && HostsAfter(s, step)[host] == Checked
    ensures Unheld(s.db, Host(host))
  {
    hide SingleOwner, SerialsUsed, RowAfter, Eligible, GhostReadyFor, HasToken;
  }

  lemma UnheldIsHeldOnlyBy(db: Db, token: Token, id: nat)
    ensures Unheld(db, token) ==> HeldOnlyBy(db, token, id)
  {
  }

  lemma StepKeepsOwnership(s: System, step: Step)
    requires Inv(s) && OwnershipInv(s) && Enabled(s, step)
    ensures OwnershipInv(Next(s, step))
  {
    hide RowsOk, PrsKnown, Lawful, Exec, HasToken, SingleOwner, SerialsUsed, HostHolds, Enabled;
    hide HostsAfter, AppliersAfter, WritesAfter, ProbeAfter, DiscoveredAfter, ChoicesAfter;
    var sql := Statement(s, step);
    StatementIsLawful(s, step);
    GrantIsFresh(s, step);
    StatementKeepsSingleOwner(s.db, sql);
    StatementKeepsSerials(s.db, sql, s.nextSerial);
    forall host | host in Next(s, step).hosts
      ensures HostHolds(Next(s, step).db, host, Next(s, step).hosts[host])
    {
      StepKeepsHosts(s, step, host);
    }
  }

  /** On every run each token is on at most one live migration. */
  lemma {:induction false} OneOwnerPerToken(run: seq<System>, steps: seq<Step>, n: nat)
    requires IsRun(run, steps) && n < |run|
    ensures OwnershipInv(run[n]) && SingleOwner(run[n].db)
  {
    hide Inv, Init, Next, Enabled, OwnershipInv, SingleOwner;
    if n == 0 {
      NobodyOwnsAtFirst(run[0]);
    } else {
      OneOwnerPerToken(run, steps, n - 1);
      StepOfRun(run, steps, n);
      AlwaysInv(run, steps, n - 1);
      StepKeepsOwnership(run[n - 1], steps[n - 1]);
    }
    OwnersAreSingle(run[n]);
  }

  lemma NobodyOwnsAtFirst(s: System)
    requires Init(s)
    ensures OwnershipInv(s)
  {
  }

  lemma OwnersAreSingle(s: System)
    requires OwnershipInv(s)
    ensures SingleOwner(s.db)
  {
  }

  /** A host whose own statement has run is given back the migration it asked for, or nothing. */
  lemma ReturnedIsAskedFor(run: seq<System>, steps: seq<Step>, n: nat, host: string, id: nat, returned: nat)
    requires IsRun(run, steps) && n < |run| && host in run[n].hosts && run[n].hosts[host] == Owned(id)
    requires HasToken(run[n].db, returned, Host(host))
    ensures returned == id
  {
    OneOwnerPerToken(run, steps, n);
  }

  /** Between two different owners of a migration there is a moment without one. */
  lemma {:induction false} ClearedBetweenOwners(run: seq<System>, steps: seq<Step>, i: nat, j: nat, id: nat)
    returns (k: nat)
    requires IsRun(run, steps) && i <= j < |run| && id in run[i].db.rows && id in run[j].db.rows
    requires run[i].db.rows[id].token != NoToken && run[j].db.rows[id].token != NoToken
    requires run[i].db.rows[id].token != run[j].db.rows[id].token
    ensures i < k < j && id in run[k].db.rows && run[k].db.rows[id].token == NoToken
    decreases j - i
  {
    hide IsRun;
    OneMove(run, steps, i + 1, id);
    if run[i + 1].db.rows[id].token == NoToken {
      k := i + 1;
    } else {
      k := ClearedBetweenOwners(run, steps, i + 1, j, id);
    }
  }

  /**
   The statement that owns a migration does not look at its status. Exactly when a host is given a
   migration that is no longer ready: nobody owns it, and since the host picked it it has moved on
   without being cancelled.
   */
  lemma OwnedNotReadyExactlyIf(s: System, host: string)
    requires Inv(s) && OwnershipInv(s) && Enabled(s, HostOwn(host))
    ensures var id := s.hosts[host].id;
            var t := Next(s, HostOwn(host));
            && id in s.db.rows
            && (HasToken(t.db, id, Host(host)) && t.db.rows[id].status != Ready <==>
                  s.db.rows[id].token == NoToken && s.db.rows[id].status != Ready && s.db.rows[id].status != Cancelled)
  {
    hide RowsAfter, SingleOwner, SerialsUsed, RowsOk, OnlyApproved, ProbeOk, WriteOk, HostsAfter;
    assert HostOk(s.db, s.hosts[host]) && HostHolds(s.db, host, s.hosts[host]);
    RowsAreMapped(s.db, Statement(s, HostOwn(host)), s.hosts[host].id);
  }

  // ---------- which site gets a migration ----------

  lemma {:induction false} TimeGoesOn(run: seq<System>, steps: seq<Step>, i: nat, j: nat)
    requires IsRun(run, steps) && i <= j < |run|
    ensures run[i].db.now <= run[j].db.now
    decreases j - i
  {
    if i < j {
      hide Enabled, Init;
      TimeGoesOn(run, steps, i, j - 1);
      StepOfRun(run, steps, j);
      TimeNeverBack(run[j - 1].db, Statement(run[j - 1], steps[j - 1]));
    }
  }

  lemma TimeNeverBack(db: Db, sql: Sql)
    ensures db.now <= Exec(db, sql).now
  {
    hide RowsAfter, PrsAfter;
  }

  /** A picked migration was picked at some earlier step. */
  lemma {:induction false} PickedBefore(run: seq<System>, steps: seq<Step>, n: nat, host: string) returns (m: nat)
    requires IsRun(run, steps) && n < |run| && host in run[n].hosts && run[n].hosts[host].Picked?
    ensures m < n && steps[m].HostPick? && steps[m].host == host && steps[m].id == run[n].hosts[host].id
  {
    if n == 0 {
      assert false;
    } else {
      hide Init, Statement, AppliersAfter, WritesAfter, ProbeAfter, DiscoveredAfter, ChoicesAfter, Exec;
      StepOfRun(run, steps, n);
      PickStays(run[n - 1], steps[n - 1], host);
      var step := steps[n - 1];
      if step.HostPick? && step.host == host && step.id == run[n].hosts[host].id {
        m := n - 1;
      } else {
        m := PickedBefore(run, steps, n - 1, host);
      }
    }
  }

  lemma PickStays(s: System, step: Step, host: string)
    requires Enabled(s, step) && host in Next(s, step).hosts && Next(s, step).hosts[host].Picked?
    ensures (step.HostPick? && step.host == host && step.id == Next(s, step).hosts[host].id)
         || (host in s.hosts && s.hosts[host] == Next(s, step).hosts[host])
  {
    hide Statement, AppliersAfter, WritesAfter, ProbeAfter, DiscoveredAfter, ChoicesAfter, Exec;
    hide GhostReadyFor, HasToken, Eligible;
  }

  /** When it was picked it was free, ready, for gh-ost, and hinted to that site or 300 seconds old. */
  lemma PickedWhereOffered(run: seq<System>, steps: seq<Step>, m: nat)
    requires IsRun(run, steps) && m < |steps| && steps[m].HostPick?
    ensures steps[m].id in run[m].db.rows
    ensures var a := run[m].db.rows[steps[m].id];
            && a.status == Ready && a.strategy == Ghost && a.token == NoToken
            && (a.tokenHint == steps[m].site || (a.readyAt.Some? && run[m].db.now - a.readyAt.value >= 300))
  {
    StepOfRun(run, steps, m + 1);
  }

  /**
   On every run: a host is granted only what it had picked, at some step `m` and some site. If hint
   and ready time are still the same, then the migration is hinted to that site, or 300 seconds
   have passed since it was made ready.
   */
  lemma GrantedToHintedSiteOrLate(run: seq<System>, steps: seq<Step>, n: nat, host: string) returns (m: nat)
    requires IsRun(run, steps) && n < |steps| && steps[n] == HostOwn(host)
    ensures host in run[n].hosts && run[n].hosts[host].Picked?
    ensures m < n && steps[m].HostPick? && steps[m].host == host && steps[m].id == run[n].hosts[host].id
    ensures steps[m].id in run[m].db.rows && steps[m].id in run[n].db.rows
    ensures var a, b := run[m].db.rows[steps[m].id], run[n].db.rows[steps[m].id];
            && (a.tokenHint == steps[m].site || (a.readyAt.Some? && run[m].db.now - a.readyAt.value >= 300))
            && (b.tokenHint == a.tokenHint && b.readyAt == a.readyAt && b.tokenHint != steps[m].site ==>
                  b.readyAt.Some? && run[n].db.now - b.readyAt.value >= 300)
  {
    hide Init, LegalMove, GhostReadyFor;
    StepOfRun(run, steps, n + 1);
    m := PickedBefore(run, steps, n, host);
    PickedWhereOffered(run, steps, m);
    FinishedForEver(run, steps, m, n, steps[m].id);
    TimeGoesOn(run, steps, m, n);
  }
}
