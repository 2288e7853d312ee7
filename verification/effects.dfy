/** What each statement does to the tables, row by row and column by column. */
module Effects {
  import opened Options
  import opened Statements
  import opened Migrations

  /** The migrations are the same ones, and nothing else differs. */
  ghost predicate OnlyRowsDiffer(a: Db, b: Db) {
    b.now == a.now && b.prs == a.prs && b.rows.Keys == a.rows.Keys
  }

  ghost predicate OnlyRowDiffers(a: Db, b: Db, id: nat) {
    OnlyRowsDiffer(a, b) && forall i :: i in a.rows && i != id ==> b.rows[i] == a.rows[i]
  }

  /** Migration `a` as it is once its status has been written: each column on its own. */
  predicate StatusWritten(a: Migration, b: Migration, to: Status, now: int) {
    && b == a.(status := to, readyAt := b.readyAt, startedAt := b.startedAt, livenessAt := b.livenessAt,
               completedAt := b.completedAt, token := b.token)
    && b.readyAt == (if to == Ready then Some(now) else a.readyAt)
    && b.startedAt == (if to == Running && a.startedAt == None then Some(now) else a.startedAt)
    && b.livenessAt == (if to == Running || to == Complete then Some(now) else a.livenessAt)
    && b.completedAt == (if to == Complete then Some(now) else a.completedAt)
    && b.token == (if to == Complete || to == Failed then NoToken else a.token)
  }

  predicate TakenBy(a: Migration, b: Migration, token: Token, now: int) {
    b == a.(token := token, assignedAt := Some(now), livenessAt := Some(now))
  }

  lemma StatusWriteEffect(db: Db, id: nat, from: Status, to: Status, strategy: Strategy)
    ensures var after := Exec(db, SetStatus(id, from, to, strategy));
            && OnlyRowDiffers(db, after, id)
            && (id in db.rows ==>
                  if db.rows[id].status == from && db.rows[id].strategy == strategy
                  then StatusWritten(db.rows[id], after.rows[id], to, db.now)
                  else after.rows[id] == db.rows[id])
  {
  }

  lemma PrRowsEffect(db: Db, pr: nat, from: Status, to: Status, strategy: Strategy)
    ensures var after := Exec(db, SetPrRows(pr, from, to, strategy));
            && OnlyRowsDiffer(db, after)
            && forall i :: i in db.rows ==>
                 if db.rows[i].pr == pr && db.rows[i].status == from && db.rows[i].strategy == strategy
                 then after.rows[i] == db.rows[i].(status := to)
                 else after.rows[i] == db.rows[i]
  {
  }

  lemma HintEffect(db: Db, id: nat, hint: string)
    ensures var after := Exec(db, SetHint(id, hint));
            && OnlyRowDiffers(db, after, id)
            && (id in db.rows ==> after.rows[id] == db.rows[id].(tokenHint := hint))
  {
  }

  lemma StrategyEffect(db: Db, id: nat, from: Strategy, to: Strategy)
    ensures var after := Exec(db, SetStrategy(id, from, to));
            && OnlyRowDiffers(db, after, id)
            && (id in db.rows ==>
                  after.rows[id] == if db.rows[id].strategy == from then db.rows[id].(strategy := to) else db.rows[id])
  {
  }

  lemma OwnEffect(db: Db, id: nat, token: Token)
    ensures var after := Exec(db, OwnById(id, token));
            && OnlyRowDiffers(db, after, id)
            && (id in db.rows ==>
                  if db.rows[id].token == NoToken then TakenBy(db.rows[id], after.rows[id], token, db.now)
                  else after.rows[id] == db.rows[id])
  {
  }

  lemma OwnReadyEffect(db: Db, id: nat, strategy: Strategy, token: Token)
    ensures var after := Exec(db, OwnReadyRow(id, strategy, token));
            && OnlyRowDiffers(db, after, id)
            && (id in db.rows ==>
                  if db.rows[id].token == NoToken && db.rows[id].status == Ready && db.rows[id].strategy == strategy
                  then TakenBy(db.rows[id], after.rows[id], token, db.now)
                  else after.rows[id] == db.rows[id])
  {
  }

  /** The owner has given no sign of life for longer than this. */
  predicate Silent(r: Migration, now: int, seconds: int) {
    r.token != NoToken && r.livenessAt.Some? && now - r.livenessAt.value > seconds
  }

  lemma ExpireEffect(db: Db, from: Status, to: Status, minutes: int)
    ensures var after := Exec(db, Expire(from, to, minutes));
            && OnlyRowsDiffer(db, after)
            && forall i :: i in db.rows ==>
                 if db.rows[i].status == from && Silent(db.rows[i], db.now, 60 * minutes)
                 then after.rows[i] == db.rows[i].(token := NoToken, status := to)
                 else after.rows[i] == db.rows[i]
  {
  }

  lemma QueueEffect(db: Db, pr: nat)
    ensures var after := Exec(db, QueuePr(pr));
            && after.now == db.now && after.rows.Keys == db.rows.Keys && after.prs.Keys == db.prs.Keys
            && (forall i :: i in db.rows ==>
                  if db.rows[i].pr == pr && db.rows[i].status == Proposed
                  then after.rows[i] == db.rows[i].(status := Queued)
                  else after.rows[i] == db.rows[i])
            && (forall p :: p in db.prs ==>
                  if p == pr && db.prs[p].status == PrDetected
                  then after.prs[p] == db.prs[p].(status := PrQueued)
                  else after.prs[p] == db.prs[p])
  {
  }

  lemma ForgetEffect(db: Db, pr: nat)
    ensures var after := Exec(db, CancelPrRows(pr));
            && OnlyRowsDiffer(db, after)
            && forall i :: i in db.rows ==>
                 if db.rows[i].pr == pr && (db.rows[i].status == Proposed || db.rows[i].status == Queued)
                 then after.rows[i] == db.rows[i].(status := Cancelled)
                 else after.rows[i] == db.rows[i]
  {
  }

  lemma PrStatusEffect(db: Db, pr: nat, to: PrStatus)
    ensures var after := Exec(db, SetPrStatus(pr, to));
            && after.now == db.now && after.rows == db.rows && after.prs.Keys == db.prs.Keys
            && forall p :: p in db.prs ==>
                 after.prs[p] == if p == pr then db.prs[p].(status := to) else db.prs[p]
  {
    assert RowsAfter(SetPrStatus(pr, to), db.now, db.rows) == db.rows;
  }

  lemma SubmitEffect(db: Db, pr: nat, status: PrStatus, isOpen: bool, approved: bool)
    ensures var after := Exec(db, SubmitPr(pr, status, isOpen, approved));
            && after.now == db.now && after.rows == db.rows && after.prs.Keys == db.prs.Keys + {pr}
            && (forall p :: p in db.prs && p != pr ==> after.prs[p] == db.prs[p])
            && after.prs[pr].status == status && after.prs[pr].isOpen == isOpen
            && after.prs[pr].approvedByDBInfra == approved
            && (pr in db.prs ==> after.prs[pr].priority == db.prs[pr].priority)
  {
    assert RowsAfter(SubmitPr(pr, status, isOpen, approved), db.now, db.rows) == db.rows;
  }

  lemma InsertEffect(db: Db, id: nat, row: Migration)
    ensures var after := Exec(db, InsertRow(id, row));
            && after.now == db.now && after.prs == db.prs && after.rows.Keys == db.rows.Keys + {id}
            && (forall i :: i in db.rows ==> after.rows[i] == db.rows[i])
            && (id !in db.rows ==> after.rows[id] == row)
  {
  }
}
