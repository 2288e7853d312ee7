/** Which migrations run next. */
module Schedulers {
  import opened Options
  import opened Statements
  import opened Migrations
  import opened Effects
  import opened Backends

  /** One row of the list the schedulers read. */
  datatype Item = Item(id: nat, row: Migration)

  /** By priority, highest first, then by age. */
  predicate Precedes(db: Db, a: nat, b: nat) {
    && a in db.prs && b in db.prs
    && (db.prs[a].priority > db.prs[b].priority || (db.prs[a].priority == db.prs[b].priority && a <= b))
  }

  /** The query's answer: every live migration of an open pull request, once, by priority and then by age. */
  ghost predicate IsRead(db: Db, items: seq<Item>) {
    && (forall k :: 0 <= k < |items| ==> InOpenPr(db, items[k].id) && items[k].row == db.rows[items[k].id])
    && (forall id :: InOpenPr(db, id) ==> exists k :: 0 <= k < |items| && items[k].id == id)
    && (forall j, k :: 0 <= j < k < |items| ==> items[j].id != items[k].id)
    && (forall j, k :: 0 <= j < k < |items| ==> Precedes(db, items[j].row.pr, items[k].row.pr))
  }

  // ---------- direct migrations ----------

  predicate DirectIn(r: Migration, status: Status) { r.strategy == Direct && r.status == status }

  /** A pull request with a queued direct migration, all the rest being queued or ready to run directly, or complete. */
  ghost predicate Fulfillable(items: seq<Item>, pr: nat) {
    && (exists k :: 0 <= k < |items| && items[k].row.pr == pr && DirectIn(items[k].row, Queued))
    && (forall k :: 0 <= k < |items| && items[k].row.pr == pr ==>
          DirectIn(items[k].row, Queued) || DirectIn(items[k].row, Ready) || items[k].row.status == Complete)
  }

  /** Where a pull request is first seen. */
  ghost function First(items: seq<Item>, pr: nat): nat {
    if items == [] || items[0].row.pr == pr then 0 else 1 + First(items[1..], pr)
  }

  lemma {:induction false} FirstIs(items: seq<Item>, pr: nat, k: nat)
    requires k < |items| && items[k].row.pr == pr && forall j :: 0 <= j < k ==> items[j].row.pr != pr
    ensures First(items, pr) == k
  {
    if k > 0 {
      FirstIs(items[1..], pr, k - 1);
    }
  }

  datatype Count = Count(directQueued: nat, directReady: nat, complete: nat, total: nat) {
    function Plus(r: Migration): Count {
      Count(directQueued + (if DirectIn(r, Queued) then 1 else 0),
            directReady + (if DirectIn(r, Ready) then 1 else 0),
            complete + (if r.status == Complete then 1 else 0),
            total + 1)
    }

    predicate Fulfils() {
      directQueued != 0 && directQueued + directReady + complete == total
    }
  }

  ghost function CountOf(items: seq<Item>, pr: nat): (c: Count)
    ensures c.directQueued + c.directReady + c.complete <= c.total
  {
    if items == [] then Count(0, 0, 0, 0)
    else
      var last := items[|items| - 1].row;
      var c := CountOf(items[..|items| - 1], pr);
      if last.pr == pr then c.Plus(last) else c
  }

  /** Counting decides: the counters add up exactly for the pull requests that can be fulfilled. */
  lemma {:induction false} CountingDecides(items: seq<Item>, pr: nat)
    ensures CountOf(items, pr).directQueued != 0 <==>
      exists k :: 0 <= k < |items| && items[k].row.pr == pr && DirectIn(items[k].row, Queued)
    ensures var c := CountOf(items, pr);
            c.directQueued + c.directReady + c.complete == c.total <==>
              forall k :: 0 <= k < |items| && items[k].row.pr == pr ==>
                DirectIn(items[k].row, Queued) || DirectIn(items[k].row, Ready) || items[k].row.status == Complete
    ensures CountOf(items, pr).Fulfils() <==> Fulfillable(items, pr)
  {
    if items != [] {
      var n := |items| - 1;
      CountingDecides(items[..n], pr);
      assert items == items[..n] + [items[n]];
      assert forall k :: 0 <= k < n ==> items[k] == items[..n][k];
    }
  }

  lemma CountOfNone(items: seq<Item>)
    ensures forall pr :: CountOf(items[..0], pr) == Count(0, 0, 0, 0)
  {
  }

  lemma CountOfNext(items: seq<Item>, i: nat)
    requires i < |items|
    ensures forall pr :: CountOf(items[..i + 1], pr) ==
              if items[i].row.pr == pr then CountOf(items[..i], pr).Plus(items[i].row) else CountOf(items[..i], pr)
  {
    assert items[..i + 1][..i] == items[..i];
  }

  lemma NoneFulfilsNothing()
    ensures !Count(0, 0, 0, 0).Fulfils()
  {
  }

  method KeepFulfilled(ghost items: seq<Item>, ordered: seq<nat>, counts: map<nat, Count>) returns (prs: seq<nat>)
    requires forall pr :: pr in ordered ==> pr in counts
    requires forall a, b :: 0 <= a < b < |ordered| ==> First(items, ordered[a]) < First(items, ordered[b])
    ensures forall pr :: pr in prs <==> pr in ordered && counts[pr].Fulfils()
    ensures forall a, b :: 0 <= a < b < |prs| ==> First(items, prs[a]) < First(items, prs[b])
  {
    hide First, Count.Fulfils;
    prs := [];
    for i := 0 to |ordered|
      invariant forall pr :: pr in prs <==> pr in ordered[..i] && counts[pr].Fulfils()
      invariant forall a, b :: 0 <= a < b < |prs| ==> First(items, prs[a]) < First(items, prs[b])
      invariant i < |ordered| ==> forall a :: 0 <= a < |prs| ==> First(items, prs[a]) < First(items, ordered[i])
    {
      if counts[ordered[i]].Fulfils() {
        prs := prs + [ordered[i]];
      }
    }
  }

  method FindPRsFulfillableByDirectMigrations(items: seq<Item>) returns (prs: seq<nat>)
    ensures forall pr :: pr in prs <==> Fulfillable(items, pr)
    ensures forall a, b :: 0 <= a < b < |prs| ==> First(items, prs[a]) < First(items, prs[b])
  {
    hide CountOf, First, Fulfillable, Count.Fulfils, Count.Plus;
    var counts: map<nat, Count>, ordered: seq<nat> := map[], [];
    CountOfNone(items);
    for i := 0 to |items|
      invariant forall pr :: pr in counts <==> pr in ordered
      invariant forall pr :: CountOf(items[..i], pr) == if pr in counts then counts[pr] else Count(0, 0, 0, 0)
      invariant forall k :: 0 <= k < i ==> items[k].row.pr in counts
      invariant forall a :: 0 <= a < |ordered| ==> First(items, ordered[a]) < i
      invariant forall a, b :: 0 <= a < b < |ordered| ==> First(items, ordered[a]) < First(items, ordered[b])
    {
      var r := items[i].row;
      CountOfNext(items, i);
      if r.pr !in counts {
        FirstIs(items, r.pr, i);
        counts := counts[r.pr := Count(0, 0, 0, 0)];
        ordered := ordered + [r.pr];
      }
      counts := counts[r.pr := counts[r.pr].Plus(r)];
    }
    assert items[..|items|] == items;
    prs := KeepFulfilled(items, ordered, counts);
    forall pr ensures pr in prs <==> Fulfillable(items, pr) {
      CountingDecides(items, pr);
      NoneFulfilsNothing();
    }
  }

  /** After the status update all live migrations of the chosen pull request are ready to run directly, or complete. */
  lemma FulfillableIsFulfilled(db: Db, items: seq<Item>, pr: nat, id: nat)
    requires IsRead(db, items) && Fulfillable(items, pr)
    requires id in Exec(db, SetPrRows(pr, Queued, Ready, Direct)).rows
    requires InOpenPr(Exec(db, SetPrRows(pr, Queued, Ready, Direct)), id)
    requires Exec(db, SetPrRows(pr, Queued, Ready, Direct)).rows[id].pr == pr
    ensures var r := Exec(db, SetPrRows(pr, Queued, Ready, Direct)).rows[id]; DirectIn(r, Ready) || r.status == Complete
  {
    assert id in db.rows;
    assert InOpenPr(db, id);
    var k :| 0 <= k < |items| && items[k].id == id;
  }

  method ScheduleNextDirectMigrations(backend: Backend, items: seq<Item>)
    requires IsRead(backend.db, items) && 0 !in backend.db.prs
    modifies backend
    ensures (forall pr :: !Fulfillable(items, pr)) ==> backend.db == old(backend.db)
    ensures (exists pr :: Fulfillable(items, pr)) ==>
      exists pr :: Fulfillable(items, pr) && backend.db == Exec(old(backend.db), SetPrRows(pr, Queued, Ready, Direct))
        && (forall other :: Fulfillable(items, other) ==> Precedes(old(backend.db), pr, other))
        && (forall other :: Fulfillable(items, other) ==>
              var mine, theirs := old(backend.db).prs[pr].priority, old(backend.db).prs[other].priority;
              mine > theirs || (mine == theirs && pr <= other))
        && OnlyRowsDiffer(old(backend.db), backend.db)
        && forall i :: i in backend.db.rows ==>
             var a := old(backend.db).rows[i];
             backend.db.rows[i] ==
               if a.pr == pr && a.status == Queued && a.strategy == Direct then a.(status := Ready) else a
  {
    hide Exec;
    var prs := FindPRsFulfillableByDirectMigrations(items);
    if prs == [] {
      return;
    }
    var pr := prs[0];
    assert Fulfillable(items, pr);
    FirstFulfillablePrecedes(backend.db, items, prs);
    var _ := backend.UpdatePRMigrationsStatus(pr, Queued, Ready, Direct);
  }

  lemma {:induction false} FirstIsThere(items: seq<Item>, pr: nat, k: nat)
    requires k < |items| && items[k].row.pr == pr
    ensures First(items, pr) <= k && items[First(items, pr)].row.pr == pr
  {
    if items[0].row.pr != pr {
      FirstIsThere(items[1..], pr, k - 1);
    }
  }

  lemma FirstFulfillablePrecedes(db: Db, items: seq<Item>, prs: seq<nat>)
    requires IsRead(db, items) && prs != []
    requires forall pr :: pr in prs <==> Fulfillable(items, pr)
    requires forall a, b :: 0 <= a < b < |prs| ==> First(items, prs[a]) < First(items, prs[b])
    ensures forall other :: Fulfillable(items, other) ==> Precedes(db, prs[0], other)
  {
    forall pr | Fulfillable(items, pr) ensures Precedes(db, prs[0], pr) {
      assert Fulfillable(items, prs[0]);
      var k :| 0 <= k < |items| && items[k].row.pr == pr;
      var j :| 0 <= j < |items| && items[j].row.pr == prs[0];
      FirstIsThere(items, pr, k);
      FirstIsThere(items, prs[0], j);
      assert InOpenPr(db, items[First(items, pr)].id) && InOpenPr(db, items[First(items, prs[0])].id);
    }
  }

  // ---------- gh-ost migrations ----------

  ghost predicate ConflictsIn(items: seq<Item>, item: Item) {
    exists k :: 0 <= k < |items| && items[k].id != item.id && SamePlace(items[k].row, item.row) && Active(items[k].row)
  }

  predicate Waiting(item: Item) { item.row.strategy == Ghost && item.row.status == Queued }

  method GhostMigrationConflicts(item: Item, items: seq<Item>) returns (conflicts: bool)
    ensures conflicts <==> ConflictsIn(items, item)
  {
    for i := 0 to |items|
      invariant forall k :: 0 <= k < i ==>
        !(items[k].id != item.id && SamePlace(items[k].row, item.row) && Active(items[k].row))
    {
      if items[i].id == item.id || items[i].row.cluster != item.row.cluster || items[i].row.shard != item.row.shard {
        continue;
      }
      if items[i].row.status == Ready || items[i].row.status == Running {
        return true;
      }
    }
    return false;
  }

  /** The first queued gh-ost migration that conflicts with nothing. */
  method ChooseGhostMigration(items: seq<Item>) returns (choice: Option<nat>)
    ensures choice.Some? ==>
      choice.value < |items| && Waiting(items[choice.value]) && !ConflictsIn(items, items[choice.value])
    ensures forall k :: 0 <= k < (if choice.Some? then choice.value else |items|) ==>
      !Waiting(items[k]) || ConflictsIn(items, items[k])
  {
    for i := 0 to |items|
      invariant forall k :: 0 <= k < i ==> !Waiting(items[k]) || ConflictsIn(items, items[k])
    {
      if items[i].row.strategy != Ghost || items[i].row.status != Queued {
        continue;
      }
      var conflicts := GhostMigrationConflicts(items[i], items);
      if conflicts {
        continue;
      }
      return Some(i);
    }
    return None;
  }

  /** On a list as read, to be waiting without a conflict is to be eligible. */
  lemma WaitingFreeIsEligible(db: Db, items: seq<Item>, k: nat)
    requires IsRead(db, items) && k < |items|
    ensures Waiting(items[k]) && !ConflictsIn(items, items[k]) <==> Eligible(db, items[k].id)
  {
    var id := items[k].id;
    if Waiting(items[k]) && !ConflictsIn(items, items[k]) {
      forall other | Beside(db, other, id) ensures !Active(db.rows[other]) {
        var j :| 0 <= j < |items| && items[j].id == other;
        assert items[j].row == db.rows[other];
      }
    }
    if Eligible(db, id) && ConflictsIn(items, items[k]) {
      var j :| 0 <= j < |items| && items[j].id != id && SamePlace(items[j].row, items[k].row) && Active(items[j].row);
      assert Beside(db, items[j].id, id);
      assert false;
    }
  }

  /**
   The pass picks an eligible migration that no other eligible one precedes; it picks none exactly
   when nothing is eligible. So an idle place with queued gh-ost work always advances.
   */
  method ScheduleNextGhostMigration(backend: Backend, items: seq<Item>, site: Option<string>)
    returns (choice: Option<nat>)
    requires IsRead(backend.db, items) && 0 !in backend.db.rows
    modifies backend
    ensures choice.None? <==> forall id :: !Eligible(old(backend.db), id)
    ensures choice.Some? ==> Eligible(old(backend.db), choice.value)
    ensures choice.Some? ==> forall id :: Eligible(old(backend.db), id) ==>
      Precedes(old(backend.db), old(backend.db).rows[choice.value].pr, old(backend.db).rows[id].pr)
    ensures choice.Some? ==> forall id :: Eligible(old(backend.db), id) ==>
      var a, b := old(backend.db).rows[choice.value].pr, old(backend.db).rows[id].pr;
      var mine, theirs := old(backend.db).prs[a].priority, old(backend.db).prs[b].priority;
      mine > theirs || (mine == theirs && a <= b)
    ensures backend.db ==
      if choice.None? || site.None? then old(backend.db)
      else Exec(Exec(old(backend.db), SetHint(choice.value, site.value)), SetStatus(choice.value, Queued, Ready, Ghost))
    ensures choice.Some? && site.Some? ==>
      && choice.value in old(backend.db).rows && OnlyRowDiffers(old(backend.db), backend.db, choice.value)
      && backend.db.rows[choice.value] ==
           old(backend.db).rows[choice.value]
             .(tokenHint := site.value, status := Ready, readyAt := Some(backend.db.now))
    ensures choice.Some? && site.Some? && old(backend.db).rows[choice.value].token == NoToken ==>
      GhostReadyFor(backend.db, choice.value, site.value)
  {
    hide Exec, ConflictsIn;
    var k := ChooseGhostMigration(items);
    ChoiceIsRight(backend.db, items, k);
    if k.None? {
      return None;
    }
    choice := Some(items[k.value].id);
    if site.None? {
      return;  // the master's site could not be found out
    }
    EligibleIsOpen(backend.db, choice.value);
    var _ := backend.UpdateMigrationTokenHint(choice.value, site.value);
    var _ := backend.UpdateMigrationStatus(choice.value, Queued, Ready, Ghost);
  }

  lemma ChoiceIsRight(db: Db, items: seq<Item>, k: Option<nat>)
    requires IsRead(db, items)
    requires k.Some? ==> k.value < |items| && Waiting(items[k.value]) && !ConflictsIn(items, items[k.value])
    requires forall j :: 0 <= j < (if k.Some? then k.value else |items|) ==>
               !Waiting(items[j]) || ConflictsIn(items, items[j])
    ensures k.None? <==> forall id :: !Eligible(db, id)
    ensures k.Some? ==> Eligible(db, items[k.value].id)
    ensures k.Some? ==> forall id :: Eligible(db, id) ==> Precedes(db, items[k.value].row.pr, db.rows[id].pr)
  {
    hide Eligible, Waiting, ConflictsIn;
    forall j | 0 <= j < |items|
      ensures Waiting(items[j]) && !ConflictsIn(items, items[j]) <==> Eligible(db, items[j].id)
    {
      WaitingFreeIsEligible(db, items, j);
    }
    forall id | Eligible(db, id)
      ensures k.Some? && InOpenPr(db, id) && Precedes(db, items[k.value].row.pr, db.rows[id].pr)
    {
      EligibleIsOpen(db, id);
      var j :| 0 <= j < |items| && items[j].id == id;
    }
  }

  lemma EligibleIsOpen(db: Db, id: nat)
    requires Eligible(db, id)
    ensures InOpenPr(db, id) && db.rows[id].status == Queued && db.rows[id].strategy == Ghost
  {
  }
}
