# Verified models of rewind and skeefree

Two programs of this repository, modelled in Dafny and proved to do what they are for.

**rewind** (`rewind/gh-mysql-rewind`) takes a MySQL server that has transactions its master does not
have, undoes them with binary log flashback, and lets it replicate again.

* `gtid_sets.dfy` models GTID sets as the script sees them: text, compared as text. `Subtract` is the
  server's `gtid_subtract`; a canonical text is determined by its set, so string comparisons decide
  equality, emptiness and disjointness.
* `row_events.dfy` has row events with full images, replay (an event that does not fit is skipped) and
  flashback. Undoing a clean run restores the data, and clean runs of the same transactions end in the
  same data whatever their order.
* `rewind.dfy` has the server: a class with table contents, binary log files, `gtid_executed`,
  `gtid_purged`, and as ghosts the data before the oldest file and the GTIDs of lost files. It proves
  the backward search, the undo loop (which logs itself into the file it started with empty, and
  rotates), the bookkeeping, and convergence: after undo, reset, purge and replication, contents and
  executed set equal the master's.

**skeefree** finds schema changes in pull requests, turns them into migrations and runs them.

* `election.dfy` is the leader lease, as classes and as a transition system of all nodes.
* `migrations.dfy` holds the tables and what each SQL statement does to a row. `lifecycle.dfy` is the
  transition system of everyone who writes to them, one statement a step, every earlier read a stale
  note. `lifecycle_invariants.dfy`, `ghost_exclusion.dfy`, `ownership.dfy`, `recovery.dfy` and
  `pr_completion.dfy` prove what holds on every run. `reachability.dfy`, `reached_outcomes.dfy` and
  `reached_failures.dfy` show runs, from empty tables on, of what is meant to happen and of what can go
  wrong.
* `effects.dfy` says what each statement does to the tables, row by row and column by column.
  `backend.dfy`, `scheduler.dfy` and `chatops.dfy` are the imperative handlers, with the loops of the
  source; their contracts are about columns.
* `text.dfy`, `skeema_diff.dfy`, `dissect.dfy`, `shell.dfy`, `suggestions.dfy`, `evaluation.dfy` and
  `evaluation_properties.dfy` are about text: the magic comment, statements, suggested commands, the
  rewriting of `DROP TABLE`. `statements.dfy` classifies statements, `options.dfy` is the option type.

## Assumptions

Each is a named predicate or a `requires`.

* `Election.Renewing`: a node that believes it leads has run its lease statement within 5 seconds.
  Without it a second leader is three steps away (`RenewalIsNeeded`), and such states are reached
  (`StaleLeaderRun`).
* `GhostExclusion.ActivePrsOpen`: while a gh-ost migration is ready or running its pull request is
  open; the scheduler does not see closed ones (`OpenPullRequestIsNeeded`, and on a run
  `ReachedFailures.ClosedPullRequestStartsTwo`).
* `GhostExclusion.ChoicesApart`: passes of the gh-ost scheduler that overlap have not chosen different
  migrations for one cluster and shard. One pass in flight at a time is enough. Without it two are
  started (`ChoicesMustBeApart`, and on a run `ReachedFailures.OverlappingPassesStartTwo`).
* `Recovery.Prompt`, used for crash recovery only: a status report lands before its owner loses the
  token, and a direct applier starts within 10 minutes. A handler that nobody interrupts is prompt
  (`UndisturbedReportIsPrompt`); without it there are orphans (below).
* One probing pass is in flight at a time. Discovery of new pull requests is not part of it and runs
  beside it, and beside itself, as in the code.
* Rewind: a GTID names one transaction, and what the logs hold applied cleanly. From every file before
  which nothing errant had been executed, resumed replication meets no apply error;
  `RewindAndResumeInOrder` does without that for servers that had executed the master's first
  transactions, in its order, before each such file.

## Where the code differs from what it promises

Each with the exact condition, and an input or a run.

* The check for shared GTIDs subtracts the local set from the master's. It turns away servers that
  share everything and lets through servers that share nothing (`Rewind.SharedCheckIsNotSharing`);
  `Rewind.SharedCheckIsRightExactlyIf` says when it is right.
* Discovery writes back the status it had read. A pull request that was completed in between is thereby
  reopened, and may be evaluated anew. That is the only way in which a complete pull request stops being
  complete (`PrCompletion.ReopenedExactlyByDiscovery`), and it happens
  (`ReachedFailures.CompletePrIsReopened`).
* A status report that lands after its owner's token was cleared leaves a running migration without an
  owner (`Recovery.OrphanedExactlyIfTokenCleared`, on a run `ReachedFailures.LateReportMakesAnOrphan`).
  Sweeps pass it by, for any length of time, until someone is granted it or reports another status
  (`Recovery.OrphanEndsExactlyBy`, `Recovery.OrphanStays`).
* Owning a migration checks only that its token is empty. A host can be given one that is no longer ready
  (`Ownership.OwnedNotReadyExactlyIf`, on a run `ReachedFailures.CompletedMigrationIsHandedOut`).
* A migration hinted to one site can be granted at another within 300 seconds: a host owns what it had
  picked, although the hint, or the time at which the migration was made ready, has changed since
  (`Ownership.GrantedToHintedSiteOrLate`, on a run `ReachedFailures.HintChangesAfterPick`).
* The chat commands name a migration by its table. Where there is one per shard, they reach the first one
  read only (`Chatops.FindMigration`).
* A second sign of life within one second changes no column and is answered as an error, like a report
  on a row that has moved on: `Backends.WriteIsLostExactlyIf`, `Backends.NothingNewExactlyIfSameSecond`.
* Names are printed between double quotes. A name with `$`, a backtick, a double quote or certain
  backslashes does not come back from a shell: `Shell.DoubleQuotesKeep` and
  `EvaluationProperties.TableIsReadBackExactlyIfQuotable` are exact,
  `EvaluationProperties.DollarInANameIsLost` is about tables that MySQL allows. The ALTER always comes
  back.
* Two tables that agree in their first 44 bytes and are dropped within the same second are renamed to
  the same name: `EvaluationProperties.NamesCollideExactlyIfTheyStartAlike`.

## Model

| member | source | states |
|---|---|---|
| GtidSets.Subtract | rewind/gh-mysql-rewind:165-168 | subtraction of printed sets is set difference, and its result is in canonical form |
| GtidSets.Add | rewind/gh-mysql-rewind:165-168 | merging one range into a canonical text is union and stays canonical |
| GtidSets.Remove | rewind/gh-mysql-rewind:165-168 | cutting one range out of a canonical text is difference and stays canonical |
| GtidSets.SameTextIffSameSet | rewind/gh-mysql-rewind:165-168 | canonical texts are equal exactly when their sets are |
| GtidSets.UnchangedIffDisjoint | rewind/gh-mysql-rewind:265 | the test "subtracting left it unchanged" decides disjointness |
| GtidSets.EmptyIffSubset | rewind/gh-mysql-rewind:252 | the test "nothing is left" decides inclusion |
| GtidSets.GtidSubtract | rewind/gh-mysql-rewind:165-168 | the script's helper returns the canonical text of the difference |
| RowEvents.FlashbackEvents | rewind/gh-mysql-rewind:288-308 | the flashback of a file is its events, reversed and inverted |
| RowEvents.InvertAllUndoes | rewind/gh-mysql-rewind:288-308 | applied after a clean run, the inverted events fit and restore the data exactly |
| RowEvents.CleanOrdersAgree | rewind/gh-mysql-rewind:313-328 | two clean runs of the same transactions, in any orders, end in the same data |
| Rewind.FindBinlogs | rewind/gh-mysql-rewind:232-274 | from headers alone, the search stops at the newest header free of errant GTIDs, lists exactly the files from there on, newest first, and reverted is the newest header minus that one; both failures are characterised exactly |
| Rewind.FoundIsRight | rewind/gh-mysql-rewind:232-277 | on success reverted is exactly what the listed files hold, it contains everything errant, no shorter list would, and the projected set is what was executed before them, all of it known to the master |
| Rewind.SearchIsRight | rewind/gh-mysql-rewind:232-277 | once the newest header holds all errant GTIDs, the search fails exactly when one of them is in the oldest header |
| Rewind.FlashbackFits | rewind/gh-mysql-rewind:288-308 | with everything up to a file applied, its flashback meets no misfit and takes off exactly that file |
| Rewind.Server.Flush | rewind/gh-mysql-rewind:215-226 | a new empty file whose header names all that was logged |
| Rewind.Server.Commit | rewind/gh-mysql-rewind:288-308 | a logged transaction keeps data, files and GTID sets coherent, also when the file is rotated |
| Rewind.Server.ApplyFlashback | rewind/gh-mysql-rewind:288-308 | applying one file's flashback, itself logged, leaves all older files alone and does nothing for an empty file |
| Rewind.Server.RevertBinlogs | rewind/gh-mysql-rewind:288-308 | undoing file by file, newest first, leaves exactly the contents from before the oldest listed file; no undo is undone |
| Rewind.Server.ResetMaster | rewind/gh-mysql-rewind:313-328 | history is forgotten, the data stays |
| Rewind.Server.SetPurged | rewind/gh-mysql-rewind:313-328 | on an empty history, executed and purged become the projected set |
| Rewind.Server.Rewind | rewind/gh-mysql-rewind:201-328 | which way the program ends, decided by what the files hold; after a full run data and sets are those from before the oldest undone file, otherwise only a flush has happened |
| Rewind.Server.Replicate | rewind/gh-mysql-rewind:313-328 | resumed replication applies the master's missing transactions in order |
| Rewind.Server.RewindAndResume | rewind/gh-mysql-rewind:201-328 | end to end: which way it ends is decided by what the files hold; if it succeeds, contents and executed set equal the master's, whatever errant transactions conflict with the master's; what was executed before errant-free files may have been applied in any order |
| Rewind.Server.RewindAndResumeInOrder | rewind/gh-mysql-rewind:201-328 | the same, with no assumption about apply errors, if what was executed before each errant-free file is a prefix of the master's history |
| Rewind.SplitBrain | rewind/gh-mysql-rewind:201-328 | an example: both servers have inserted the same row, and the rewind succeeds and ends with the master's |
| Rewind.KeptPlusMissing | rewind/gh-mysql-rewind:313-328 | what was kept and what replication sends are the master's history, each transaction once |
| Rewind.ReplicationConverges | rewind/gh-mysql-rewind:313-328 | applying the missing transactions after the kept ones gives the master's data, in whatever order the kept ones had run |
| Rewind.InOrderNeverFails | rewind/gh-mysql-rewind:313-328 | if the kept transactions are the master's first ones, replication meets no misfit |
| Rewind.SharedCheckIsNotSharing | rewind/gh-mysql-rewind:210-213 | an input on which the check turns away servers that share something, and one on which it lets through servers that share nothing |
| Rewind.SharedCheckIsRightExactlyIf | rewind/gh-mysql-rewind:210-213 | the check agrees with a test for sharing exactly if the master has executed nothing, or the two share something and the master has more |
| Election.Backend.AttemptLeadership | skeefree/go/db/backend.go:827-839 | the upsert's two assignments, left to right, refine the one-step lease function |
| Election.Backend.ReadLeadership | skeefree/go/db/backend.go:861-873 | nobody leads while there is no lease, given non-empty ids; a node that reads itself cannot be replaced by any attempt until the lease expires |
| Election.Backend.ElectionRound | skeefree/go/db/backend.go:72-92 | a failed read leaves the leader note as it was and clears the health note |
| Election.StepKeepsInv | skeefree/go/db/backend.go:827-839 | the row always carries its owner's latest attempt, and only the owner leads or is about to |
| Election.LeaderExclusion | skeefree/go/db/backend.go:72-92 | on every run in which believed leaders renew in time there is never a second leader |
| Election.LeaseHolds | skeefree/go/db/backend.go:827-839 | a lease just taken survives another node's attempt exactly for 5 seconds |
| Election.OrderOfAssignmentsMatters | skeefree/go/db/backend.go:827-839 | with the assignments swapped two nodes take the lease in one second |
| Election.RenewalIsNeeded | skeefree/go/db/backend.go:72-92 | from every state with a leader late by more than 5 seconds, three steps make a second leader |
| Election.StaleLeaderRun | skeefree/go/db/backend.go:72-92 | a run that reaches such a state |
| Lifecycle.StatementKeepsRows | skeefree/go/db/backend.go:593-795 | every statement the actors run keeps each row consistent (owned, on offer, started and completed rows are dated, manual rows never handed out) and moves it along the legal status graph, releasing what completes or fails |
| Effects.StatusWriteEffect | skeefree/go/db/backend.go:665-691 | compare and swap: no other row differs; each column of the row is the one the new status calls for |
| Effects.PrRowsEffect | skeefree/go/db/backend.go:637-652 | rows of other pull requests, statuses and strategies are as they were, the others differ in status alone |
| Effects.HintEffect | skeefree/go/db/backend.go:654-663 | the hint of that row, and nothing else |
| Effects.StrategyEffect | skeefree/go/db/backend.go:693-708 | the strategy of that row if it was the given one, and nothing else |
| Effects.OwnEffect | skeefree/go/db/backend.go:741-758 | a free row gets the token and both times; others are as they were |
| Effects.OwnReadyEffect | skeefree/go/db/backend.go:760-779 | the same, only for a ready row of the strategy |
| Effects.ExpireEffect | skeefree/go/db/backend.go:781-795 | exactly the owned rows of the status that have been silent for too long are released |
| Effects.QueueEffect | skeefree/go/db/backend.go:593-618 | exactly the proposed rows of that pull request are queued, and it is if it was detected |
| Effects.ForgetEffect | skeefree/go/db/backend.go:323-342 | exactly its proposed and queued rows are cancelled |
| Effects.PrStatusEffect | skeefree/go/db/backend.go:620-635 | the status of that pull request, and nothing else |
| Effects.SubmitEffect | skeefree/go/db/backend.go:196-256 | that pull request is updated or inserted, its priority kept |
| Effects.InsertEffect | skeefree/go/db/backend.go:422-478 | a new row is added, an existing one left as it is |
| LifecycleInvariants.StepKeepsInv | skeefree/go/app/logic.go:281-302 | every step of every actor keeps the common invariant |
| LifecycleInvariants.FinishedForEver | skeefree/go/db/backend.go:665-691 | on every run rows follow the legal status graph, complete and cancelled are never left, and the first start is kept |
| LifecycleInvariants.CommittedOnlyIfApproved | skeefree/go/app/logic.go:281-302 | what is queued, ready, running or failed belongs to a pull request that was queued at an earlier step, when it had been probed as open, labelled, and approved by the database team |
| LifecycleInvariants.CommittedBefore | skeefree/go/db/backend.go:593-618 | a row gets there only from there, or by the queueing of its pull request |
| GhostExclusion.MutualExclusion | skeefree/go/app/scheduler.go:101-187 | in every interleaving of any number of passes whose choices are apart, at most one gh-ost migration per cluster and shard is ready or running |
| GhostExclusion.StepKeepsExclusion | skeefree/go/app/scheduler.go:150-187 | a migration that a pass has chosen stays free to run until the pass ends |
| GhostExclusion.EligibleIsFree | skeefree/go/app/scheduler.go:104-131 | the scheduler's choice is safe when made |
| GhostExclusion.ActiveBefore | skeefree/go/db/backend.go:665-708 | no statement but the gh-ost scheduler's makes a gh-ost migration active |
| GhostExclusion.OpenPullRequestIsNeeded | skeefree/go/db/backend.go:574-591 | with the pull request of an active migration closed the scheduler starts a second one |
| GhostExclusion.ChoicesMustBeApart | skeefree/go/app/logic.go:70-81 | two overlapping passes that chose different migrations for one place start both |
| ReachedFailures.ClosedPullRequestStartsTwo | skeefree/go/db/backend.go:574-591 | a run on which that happens with a single pass |
| ReachedFailures.OverlappingPassesStartTwo | skeefree/go/app/logic.go:70-81 | a run on which that happens with all pull requests open |
| Ownership.OneOwnerPerToken | skeefree/go/db/backend.go:741-779 | in every interleaving each token is on at most one live migration |
| Ownership.StepKeepsOwnership | skeefree/go/app/cli.go:64-103 | between a host's check and its own statement nobody else can give it a migration |
| Ownership.ReturnedIsAskedFor | skeefree/go/app/cli.go:64-103 | a host is given back the migration it asked for, or none |
| Ownership.ClearedBetweenOwners | skeefree/go/db/backend.go:741-795 | a migration has no two owners without a moment of having none |
| Ownership.PickedWhereOffered | skeefree/go/db/backend.go:586-591 | on every run a host picks only what is free, ready, for gh-ost, and hinted to its site or ready for 300 seconds |
| Ownership.GrantedToHintedSiteOrLate | skeefree/go/db/backend.go:586-591 | on every run a host is granted only what it had picked so; if neither hint nor ready time has changed since, a migration hinted elsewhere is granted after 300 seconds only |
| ReachedFailures.HintChangesAfterPick | skeefree/go/app/scheduler.go:175-181 | a run on which the hint changes in between, and a migration hinted elsewhere is granted at once |
| Ownership.OwnedNotReadyExactlyIf | skeefree/go/db/backend.go:741-758 | a host is given a migration that is no longer ready exactly if it is unowned and has moved on, other than to cancelled |
| ReachedFailures.CompletedMigrationIsHandedOut | skeefree/go/db/backend.go:741-758 | a run on which a host is given a completed migration |
| Recovery.RunningAlwaysOwned | skeefree/go/app/direct_applier.go:35-80 | on prompt runs a running migration is always owned |
| Recovery.SweepLeavesNothingStale | skeefree/go/app/logic.go:82-97 | right after the sweep no running migration has been silent for more than 10 minutes |
| Recovery.SweepTakesExactlyTheSilent | skeefree/go/app/logic.go:82-97 | the sweep fails and releases exactly those; a live running migration is left as it is |
| Recovery.OtherSweepsRelease | skeefree/go/app/logic.go:82-97 | the other three sweeps release exactly the silent, and keep the status |
| Recovery.AnySiteCanTakeOver | skeefree/go/db/backend.go:586-591 | a gh-ost migration on offer is dated, and unowned it can be taken at any site after 300 seconds |
| Recovery.UndisturbedReportIsPrompt | skeefree/go/app/cli.go:177-200 | a status handler that nobody interrupts is prompt |
| Recovery.OrphanedExactlyIfTokenCleared | skeefree/go/db/backend.go:665-691 | exactly when a status write leaves a running migration without an owner |
| Recovery.OrphanEndsExactlyBy | skeefree/go/db/backend.go:781-795 | a running migration without an owner stays so under a statement exactly if it neither grants the migration nor reports another status; sweeps do neither |
| Recovery.OrphanStays | skeefree/go/db/backend.go:781-795 | on every run it stays so, through all sweeps, until such a statement |
| Recovery.PickedOrphanIsRecovered | skeefree/go/app/cli.go:64-103 | a host that had picked it before may own it, and the sweep then fails it 10 minutes later |
| Recovery.LateReportOrphans | skeefree/go/app/cli.go:125-139 | a sweep between the read and the write of a start report makes one |
| ReachedFailures.LateReportMakesAnOrphan | skeefree/go/app/cli.go:125-139 | a run on which it does |
| PrCompletion.AlwaysCompletionInv | skeefree/go/app/logic.go:490-525 | in every interleaving, with discovery beside the prober, a complete pull request has migrations, all complete or cancelled |
| PrCompletion.CompletePrStaysComplete | skeefree/go/app/logic.go:490-525 | and it stays complete, and its migrations done, unless discovery writes its status back |
| PrCompletion.StepKeepsCompletion | skeefree/go/app/logic.go:50-66 | every step keeps completed pull requests done, and what the prober has noted as not complete not complete |
| PrCompletion.AllDoneStays | skeefree/go/db/backend.go:387-408 | done migrations stay done under every statement that inserts none beside them |
| ReachedOutcomes.GhostMigrationCompletes | skeefree/go/app/cli.go:64-164 | a run on which a gh-ost migration is proposed, queued, made ready for a site, owned there, started and completed, with every time in its column, and its pull request is marked complete |
| ReachedOutcomes.FailedMigrationIsRetried | skeefree/go/app/chatops.go:503-526 | a run on which it fails, is released, is queued again and is eligible again |
| ReachedOutcomes.ManualMigrationIsHandedOver | skeefree/go/app/chatops.go:469-500 | a run on which a manual ALTER TABLE is approved for autorun and becomes eligible for gh-ost |
| ReachedOutcomes.DirectMigrationCompletes | skeefree/go/app/direct_applier.go:35-80 | a run on which a direct migration is made ready with its pull request, owned, started and completed |
| PrCompletion.ReopenedExactlyByDiscovery | skeefree/go/app/logic.go:176-207 | a step takes a pull request out of complete exactly if it is discovery writing back what it had read |
| ReachedFailures.CompletePrIsReopened | skeefree/go/app/logic.go:50-66 | a run on which a complete pull request is reopened, evaluated anew and no longer done |
| ReachedFailures.ReopenedIsEvaluatedAnew | skeefree/go/app/logic.go:327-418 | whatever its migrations are, four steps give an open pull request that is not complete a migration that is not done |
| Backends.Backend.Run | skeefree/go/db/backend.go:593-795 | row by row in any order, an update is the one-step statement, and the count is of the rows that change |
| Backends.Backend.UpdateMigrationStatus | skeefree/go/db/backend.go:665-691 | compare and swap of the status with its count, in columns; an empty id is refused |
| Backends.Backend.UpdatePRMigrationsStatus | skeefree/go/db/backend.go:637-652 | only rows of that pull request, status and strategy change, in status alone; with the number of rows that changed |
| Backends.Backend.UpdateMigrationTokenHint | skeefree/go/db/backend.go:654-663 | the hint of that row, and nothing else |
| Backends.Backend.UpdateMigrationStrategy | skeefree/go/db/backend.go:693-708 | compare and swap of the strategy |
| Backends.Backend.QueuePRMigrations | skeefree/go/db/backend.go:593-618 | takes what is proposed, of this pull request, and nothing else |
| Backends.Backend.ForgetPRStatementsAndMigrations | skeefree/go/db/backend.go:323-342 | cancels what is proposed or queued, of this pull request, and nothing else |
| Backends.Backend.UpdatePRStatus | skeefree/go/db/backend.go:620-635 | the status of that pull request, and nothing else |
| Backends.Backend.SubmitPR | skeefree/go/db/backend.go:196-256 | updates or inserts that pull request, and keeps its priority |
| Backends.Backend.ReadMigrationByToken | skeefree/go/db/backend.go:710-722 | a row with that token that is not cancelled if there is one |
| Backends.Backend.OwnMigration | skeefree/go/db/backend.go:741-758 | takes the row exactly if it is free, dated, and answers with a row that holds the token |
| Backends.Backend.OwnReadyMigration | skeefree/go/db/backend.go:760-779 | takes some free ready row, or there is none |
| Backends.Backend.ExpireStaleMigrations | skeefree/go/db/backend.go:781-795 | a sweep releases exactly the owned rows of the status that have been silent for too long |
| Backends.Backend.Sweep | skeefree/go/app/logic.go:82-97 | after a tick exactly those silent for more than 600 seconds have lost what was ready, running, complete or failed, and what was running has failed |
| Backends.Backend.ReportStatus | skeefree/go/app/cli.go:177-200 | the owner's row moves from an allowed status to the reported one; unknown tokens and wrong statuses change nothing |
| Backends.WriteIsLostExactlyIf | skeefree/go/app/cli.go:177-200 | a status write affects no row, which is answered with an error, exactly if the row has moved on since it was read or the write says nothing new |
| Backends.NothingNewExactlyIfSameSecond | skeefree/go/app/cli.go:177-200 | undisturbed, a report says nothing new exactly if it is a second sign of life in one second |
| Backends.Backend.HandleMigrationOwn | skeefree/go/app/cli.go:64-123 | undisturbed, a host that owns nothing gets a free, ready gh-ost migration that is hinted to its site or has been ready for 300 seconds; it gets none exactly if there is none |
| Backends.Backend.HandleMigrationRunning | skeefree/go/app/cli.go:125-139 | what is ready or running of this owner is running, with a sign of life; the first start is kept |
| Backends.Backend.HandleMigrationComplete | skeefree/go/app/cli.go:155-164 | only what is running completes, dated and released |
| Backends.Backend.HandleMigrationFailed | skeefree/go/app/cli.go:166-175 | what is ready or running fails and is released |
| Backends.Backend.ApplyNextMigration | skeefree/go/app/direct_applier.go:35-80 | takes one free ready direct migration and leaves it running, failed or complete, with every column stated, and no other row touched; none is touched if none is free |
| Schedulers.FindPRsFulfillableByDirectMigrations | skeefree/go/app/scheduler.go:53-79 | exactly the pull requests that direct migrations can fulfil, once each, in first-seen order |
| Schedulers.CountingDecides | skeefree/go/app/scheduler.go:23-31 | the counters add up exactly for those |
| Schedulers.FulfillableIsFulfilled | skeefree/go/app/scheduler.go:81-99 | after the update every live migration of the chosen one is ready to run directly, or complete |
| Schedulers.ScheduleNextDirectMigrations | skeefree/go/app/scheduler.go:81-99 | the queued direct rows of one fulfillable pull request of highest priority become ready, and no other row differs; or there is none |
| Schedulers.GhostMigrationConflicts | skeefree/go/app/scheduler.go:104-131 | true exactly if another one is ready or running on the same cluster and shard |
| Schedulers.ChooseGhostMigration | skeefree/go/app/scheduler.go:150-187 | the first waiting one without conflict |
| Schedulers.ChoiceIsRight | skeefree/go/app/scheduler.go:150-187 | none is chosen exactly if none is eligible, and no eligible one precedes the chosen one |
| Schedulers.ScheduleNextGhostMigration | skeefree/go/app/scheduler.go:150-187 | the chosen row is ready as of now and hinted to the site, whose hosts are offered it at once; every other row is as it was |
| Chatops.FindMigration | skeefree/go/app/chatops.go:481-486 | the first row read that is about the table, if there is one |
| Chatops.ApproveAutorun | skeefree/go/app/chatops.go:469-500 | a manual migration becomes direct or gh-ost by its kind; others are refused, nothing else differs |
| Chatops.RetryMigration | skeefree/go/app/chatops.go:503-526 | a failed migration is queued again; others are refused, nothing else differs |
| Chatops.MarkComplete | skeefree/go/app/chatops.go:529-552 | whatever is not complete is, dated and released; nothing else differs |
| SkeemaDiff.ParseSkeemaDiffStatements | skeefree/go/core/parse.go:47-79 | the parser's loop computes the parse function |
| SkeemaDiff.LastMagicCommentCounts | skeefree/go/core/parse.go:50-57 | of several magic comments the last one counts |
| SkeemaDiff.OldMarkerCounts | skeefree/go/core/parse.go:50-57 | without a magic comment the last old marker counts |
| SkeemaDiff.NothingWithoutMarker | skeefree/go/core/parse.go:50-57 | without either nothing is read |
| SkeemaDiff.FileIsRead | skeefree/go/core/parse.go:59-61 | the first file line names the file, trimmed |
| SkeemaDiff.NoFileIsRead | skeefree/go/core/parse.go:59-61 | without one there is no file |
| SkeemaDiff.QualifiedSchemaIsRead | skeefree/go/core/parse.go:62-74 | of a qualified schema name, quoted or not, with or without semicolons, what follows the last colon is read |
| SkeemaDiff.ParseInvertsPrint | skeefree/go/core/parse.go:47-79 | the statements and the schema printed come back, in order, exactly if each is trimmed and holds no end marker |
| SkeemaDiff.BlocksOfPrinted | skeefree/.github/workflows/skeema-diff.yml:114 | left-to-right shortest matching finds the printed statements |
| SkeemaDiff.OnlyDelimitedComeBack | skeefree/go/core/parse.go:10 | any other list of statements is cut |
| SkeemaDiff.ClauseOfPrinted | skeefree/.github/workflows/skeema-diff.yml:212 | what follows the magic comment is what was printed |
| SkeemaDiff.SchemaOfPrinted | skeefree/go/core/parse.go:12 | the first line that names a schema is the printed one |
| SkeemaDiff.LineIsRead | skeefree/go/core/parse.go:11-12 | the first line with a prefix is read up to its end |
| SkeemaDiff.QualifiedNameIsCleaned | skeefree/go/core/parse.go:63-72 | every qualifier is dropped |
| SkeemaDiff.CleanSchemaOfPrinted | skeefree/go/core/parse.go:65-73 | the quoted name is taken out of it |
| Dissect.NameWasQuoted | skeefree/go/core/parse.go:81-95 | a dissected name stands in backticks after its keyword, has no backtick and no line break |
| Dissect.QuotedNameIsFound | skeefree/go/core/parse.go:89-95 | a quoted name comes back |
| Dissect.QuotedAlterIsFound | skeefree/go/core/parse.go:97-116 | a quoted name and a one-line ALTER come back |
| Dissect.NameIsLeftmost | skeefree/go/core/parse.go:81-95 | the leftmost match is found, or there is none |
| Dissect.NameAndAlterIsLeftmost | skeefree/go/core/parse.go:97-116 | the same for a name and an ALTER |
| Dissect.AlterIsOneLine | skeefree/go/core/parse.go:97-116 | a dissected ALTER ends the statement, is not empty and has no line break |
| Dissect.GetSafeTableNameWithSuffix | skeefree/go/core/parse.go:118-125 | the suffix behind the beginning of the base name: all of it if that fits 64 bytes, else exactly 64 bytes |
| Shell.SingleQuotesKeep | skeefree/go/core/migration.go:187 | whatever is escaped and quoted comes back from the shell |
| Shell.DoubleQuotesKeep | skeefree/go/core/migration.go:188-192 | a name printed between double quotes comes back exactly if it is quotable |
| Suggestions.AlterSurvives | skeefree/go/core/migration.go:108-113 | tidying up leaves the -d option alone, whatever the other parts |
| Suggestions.CommandIsALine | skeefree/go/core/migration.go:108-113 | with one-line parts the pretty suggestion is two comment lines and the command |
| Suggestions.CommandIsRead | skeefree/go/core/migration.go:188-192 | with quotable names a shell reads the nine words that were meant |
| Suggestions.ShellSuggestionIsPretty | skeefree/go/core/migration.go:130-135 | the other pretty suggestion is a comment line, the command, an empty line and the statement |
| Suggestions.ShellCommandIsRead | skeefree/go/core/migration.go:130-135 | with quotable names a shell reads host, port and schema as they were meant |
| EvaluationProperties.AlterIsReadBack | skeefree/go/core/migration.go:174-194 | for every dissectable ALTER, the -d argument unquotes to the migration's ALTER |
| EvaluationProperties.CommandIsReadBack | skeefree/go/core/migration.go:174-194 | and the whole command to cluster, schema, table and ALTER, below a note exactly if a column is dropped |
| EvaluationProperties.ShellCommandIsReadBack | skeefree/go/core/migration.go:130-170 | every other evaluated statement stands below a command that a shell reads as the cluster's writer, its port and the repository's schema |
| EvaluationProperties.TableIsReadBackExactlyIfQuotable | skeefree/go/core/migration.go:174-194 | the table in the pretty suggestion is read back exactly if double quotes keep it |
| EvaluationProperties.DollarInANameIsLost | skeefree/go/core/migration.go:188-192 | every dissectable table with a dollar sign in its name is evaluated, and is not read back |
| EvaluationProperties.DroppedNameIsSafe | skeefree/go/core/migration.go:155-172 | the new name starts with the time, fits and ends in _DRP |
| EvaluationProperties.DropIsRenamed | skeefree/go/core/migration.go:155-172 | a dissectable DROP becomes a RENAME that is still a drop and gets the same strategy |
| EvaluationProperties.RenamingIsADrop | skeefree/go/core/pull_request_migration_statement.go:40-57 | a renaming to such a name is classified as a drop |
| EvaluationProperties.RenamingIsNotEvaluatedAgain | skeefree/go/core/migration.go:57-68 | evaluating the rewritten statement fails, so every migration needs its own copy |
| EvaluationProperties.NamesCollideExactlyIfTheyStartAlike | skeefree/go/core/parse.go:118-125 | when two drops in one second get the same new name |
| EvaluationProperties.PlanCovers | skeefree/go/app/logic.go:24-29 | DROP TABLE and ALTER TABLE are planned for every cluster shard, CREATE TABLE and ALTER DATABASE once |
| EvaluationProperties.ShardsHaveClustersOfTheirOwn | skeefree/go/core/migration.go:84-92 | migrations of different shards are for different clusters, named after their shard |
| Statements.EvaluatedStrategyFits | skeefree/go/core/utils.go:17-27 | nothing runs by itself unless that is allowed; then tables are made and dropped directly, altered by gh-ost, and databases left to humans |
| Evaluation.Migration.constructor | skeefree/go/core/migration.go:57-68 | a new migration has a statement of its own |
| EvaluationProperties.OwnSchemaOnly | skeefree/go/core/migration.go:119-137 | an ALTER DATABASE is accepted exactly for the repository's own schema, kept as it is, and never automatic |
| EvaluationProperties.CreateIsKept | skeefree/go/core/migration.go:139-153 | a quoted CREATE TABLE is accepted and kept as it is, and its suggestion ends in it |
| EvaluationProperties.AlterIsTidy | skeefree/go/core/migration.go:174-194 | an evaluated ALTER has one line and no trailing semicolon; with the semicolons back it ends the statement, which is kept |
| EvaluationProperties.TypeIsKept | skeefree/go/core/utils.go:17-27 | whatever evaluates has the same type and strategy when evaluated again |
| Evaluation.Migration.EvaluateByType | skeefree/go/core/migration.go:94-106 | setting fields in place, by type, yields the specified outcome; an error leaves the migration as it was |
| Evaluation.EvaluateMigrations | skeefree/go/app/logic.go:431-457 | one migration per statement and shard, in order, each made from a copy of the statement as submitted, which is left unchanged; every strategy fits how its statement begins and whether the repository allows autorun; none shares an object with another; it stops at the first error |

## Left out

* MySQL, `mysqlbinlog`, MariaDB flashback and orchestrator: they are specified, not modelled. A header
  names all GTIDs logged before; flashback is the reversed, inverted event list.
* DDL, JSON and POINT columns in binary logs, which rewind does not support (rewind/README.md:102-105).
* The text processing that gets headers and dummy GTIDs in and out of `mysqlbinlog` output, and the
  purging of binary logs by the server while the undo runs.
* The comparison of versions, of hosts and of replication state before a rewind.
* The way the Action's shell and `sed` treat percent signs, backslashes and lines outside the markers
  before a comment is posted; `SkeemaDiff.Print` is the comment that results.
* GitHub, Sites and discovery clients, comments, labels, chat formatting, HTTP, configuration, logs.
  What they answer is an arbitrary input; a failed call is a step not taken.
* `ForceLeadership` and `Reelect`, which would break the lease and are not called.
* `ForgetPR`: rows are never deleted in the model.
* The table `pull_request_migration_statements`: a migration is inserted with its type.
* Overlapping probing passes: a second pass could insert migrations while the first marks the pull
  request complete.
* Priorities are fixed: a probe writes back the priority it had read, so that a change by chat in
  between can be lost, and neither is modelled.
* A gh-ost runner that has lost its lease: ownership is about rows, since tokens are host names.
* Conflicts between direct and gh-ost migrations: the direct scheduler does not check for any.
* Character encoding: lengths and cuts count characters of the model, which stand for bytes in
  `dissect.dfy` and `evaluation.dfy`; that a cut may split a character is not modelled.
* Cancelling a pull request by chat (skeefree/docs/migrations.md:32) is documented but has no code.
- Dissect.GetSafeTableNameWithSuffix: suffixes of 64 bytes or more are excluded, because the code panics for them.
- Rewind.Server.RewindAndResume: assumes that replication from errant-free files meets no apply error, because the script leaves that to the server.
