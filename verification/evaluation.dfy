/** From statements to migrations: one migration per statement and shard, each evaluated on its own. */
module Evaluation {
  import opened Options
  import opened Text
  import opened Statements
  import Dissect
  import Shell
  import Suggestions

  datatype Repository = Repository(cluster: string, schema: string, autoRun: bool)

  datatype Cluster = Cluster(name: string, rwName: string, port: string)

  /** What a migration is before it is evaluated. */
  datatype Job = Job(cluster: Cluster, shard: string, repo: Repository, text: string, alter: string)

  /** What evaluation fills in. */
  datatype Evaluated = Evaluated(text: string, tableName: string, alter: string, canonical: string, suggestion: string)

  // ---------- evaluating one migration ----------

  function ClusterName(job: Job): string {
    if job.shard != "" then job.repo.cluster + "-" + job.shard
    else if job.cluster.name != "" then job.cluster.name
    else job.repo.cluster
  }

  function ShellSuggestion(job: Job, text: string): string {
    Suggestions.ShellSuggestion(job.cluster.rwName, job.cluster.port, job.repo.schema, text)
  }

  function DroppedName(table: string, stamp: string): string {
    Dissect.GetSafeTableNameWithSuffix("_" + stamp + "_" + table, "DRP")
  }

  function Renaming(table: string, stamp: string): string {
    "RENAME TABLE " + table + " TO " + DroppedName(table, stamp)
  }

  function Notes(alter: string): string {
    if Contains(alter, "DROP COLUMN") then "### NOTE: found DROP COLUMN" else ""
  }

  /** The outcome for one migration; None is an error. `stamp` is the time, to the second. */
  function Evaluate(job: Job, stamp: string): Option<Evaluated> {
    match GetMigrationType(job.text)
    case AlterDatabase =>
      var parts := Dissect.AlterDatabase(job.text);
      if parts.None? || parts.value.0 != job.repo.schema then None
      else Some(Evaluated(job.text, "", parts.value.1, "ALTER DATABASE " + parts.value.0,
                          ShellSuggestion(job, job.text)))
    case CreateTable =>
      var table := Dissect.CreateTable(job.text);
      if table.None? then None
      else Some(Evaluated(job.text, table.value, job.alter, "CREATE TABLE " + table.value,
                          ShellSuggestion(job, job.text)))
    case DropTable =>
      var table := Dissect.DropTable(job.text);
      if table.None? then None else
      var text := Renaming(table.value, stamp);
      Some(Evaluated(text, table.value, job.alter, "DROP TABLE " + table.value, ShellSuggestion(job, text)))
    case AlterTable =>
      var parts := Dissect.AlterTable(job.text);
      if parts.None? then None else
      var (table, alter) := (parts.value.0, TrimRight(parts.value.1, IsSemicolon));
      Some(Evaluated(job.text, table, alter, "ALTER TABLE " + table,
                     Suggestions.AlterSuggestion(
                       Notes(parts.value.1), ClusterName(job), job.repo.schema, table, alter)))
    case Unsupported => None
  }

  class Statement {
    var text: string

    constructor (text: string)
      ensures this.text == text
    {
      this.text := text;
    }
  }

  class Migration {
    const cluster: Cluster
    const shard: string
    const repo: Repository
    const statement: Statement
    var strategy: Strategy
    var tableName: string
    var alter: string
    var canonical: string
    var suggestion: string

    /** The statement is copied: the migration has one of its own. */
    constructor (cluster: Cluster, shard: string, repo: Repository, text: string, strategy: Strategy)
      ensures TheJob() == Job(cluster, shard, repo, text, "") && this.strategy == strategy
      ensures fresh(statement) && State() == Evaluated(text, "", "", "", "")
    {
      this.cluster, this.shard, this.repo, this.strategy := cluster, shard, repo, strategy;
      tableName, alter, canonical, suggestion := "", "", "", "";
      statement := new Statement(text);
    }

    function TheJob(): Job
      reads this, statement
    {
      Job(cluster, shard, repo, statement.text, alter)
    }

    ghost function State(): Evaluated
      reads this, statement
    {
      Evaluated(statement.text, tableName, alter, canonical, suggestion)
    }

    method EvalAlterDatabase(stamp: string) returns (ok: bool)
      requires GetMigrationType(statement.text) == AlterDatabase
      modifies this, statement
      ensures ok == old(Evaluate(TheJob(), stamp)).Some? && strategy == old(strategy)
      ensures State() == if ok then old(Evaluate(TheJob(), stamp)).value else old(State())
    {
      var parts := Dissect.AlterDatabase(statement.text);
      if parts.None? || parts.value.0 != repo.schema {
        return false;
      }
      tableName := "";
      alter := parts.value.1;
      canonical := "ALTER DATABASE " + parts.value.0;
      suggestion := ShellSuggestion(TheJob(), statement.text);
      ok := true;
    }

    method EvalCreateTable(stamp: string) returns (ok: bool)
      requires GetMigrationType(statement.text) == CreateTable
      modifies this, statement
      ensures ok == old(Evaluate(TheJob(), stamp)).Some? && strategy == old(strategy)
      ensures State() == if ok then old(Evaluate(TheJob(), stamp)).value else old(State())
    {
      var table := Dissect.CreateTable(statement.text);
      if table.None? {
        return false;
      }
      tableName := table.value;
      canonical := "CREATE TABLE " + table.value;
      suggestion := ShellSuggestion(TheJob(), statement.text);
      ok := true;
    }

    /** The statement itself is rewritten: the table is renamed, to be dropped some time later. */
    method EvalDropTable(stamp: string) returns (ok: bool)
      requires GetMigrationType(statement.text) == DropTable
      modifies this, statement
      ensures ok == old(Evaluate(TheJob(), stamp)).Some? && strategy == old(strategy)
      ensures State() == if ok then old(Evaluate(TheJob(), stamp)).value else old(State())
    {
      var table := Dissect.DropTable(statement.text);
      if table.None? {
        return false;
      }
      statement.text := Renaming(table.value, stamp);
      tableName := table.value;
      canonical := "DROP TABLE " + table.value;
      suggestion := ShellSuggestion(TheJob(), statement.text);
      ok := true;
    }

    method EvalAlterTable(stamp: string) returns (ok: bool)
      requires GetMigrationType(statement.text) == AlterTable
      modifies this, statement
      ensures ok == old(Evaluate(TheJob(), stamp)).Some? && strategy == old(strategy)
      ensures State() == if ok then old(Evaluate(TheJob(), stamp)).value else old(State())
    {
      var parts := Dissect.AlterTable(statement.text);
      if parts.None? {
        return false;
      }
      tableName := parts.value.0;
      alter := TrimRight(parts.value.1, IsSemicolon);
      canonical := "ALTER TABLE " + tableName;
      suggestion := Suggestions.AlterSuggestion(
        Notes(parts.value.1), ClusterName(TheJob()), repo.schema, tableName, alter);
      ok := true;
    }

    /** By the type of the statement; an error leaves the migration as it was. */
    method EvaluateByType(stamp: string) returns (ok: bool)
      modifies this, statement
      ensures ok == old(Evaluate(TheJob(), stamp)).Some? && strategy == old(strategy)
      ensures State() == if ok then old(Evaluate(TheJob(), stamp)).value else old(State())
    {
      hide Evaluate;
      var kind := GetMigrationType(statement.text);
      if kind.AlterDatabase? {
        ok := EvalAlterDatabase(stamp);
      } else if kind.CreateTable? {
        ok := EvalCreateTable(stamp);
      } else if kind.DropTable? {
        ok := EvalDropTable(stamp);
      } else if kind.AlterTable? {
        ok := EvalAlterTable(stamp);
      } else {
        UnsupportedIsAnError(TheJob(), stamp);
        ok := false;
      }
    }
  }

  lemma UnsupportedIsAnError(job: Job, stamp: string)
    requires GetMigrationType(job.text) == Unsupported
    ensures Evaluate(job, stamp).None?
  {
  }

  // ---------- one migration per statement and shard ----------

  predicate PerShard(kind: MigrationType) { kind.DropTable? || kind.AlterTable? }

  function ShardsFor(text: string, clusterShards: seq<string>): seq<string> {
    if PerShard(GetMigrationType(text)) then clusterShards else [""]
  }

  /** A statement with each of its shards. */
  function Pairs(text: string, shards: seq<string>): seq<(string, string)> {
    if shards == [] then [] else [(text, shards[0])] + Pairs(text, shards[1..])
  }

  /** All statements, in order, each with its shards. */
  function Plan(statements: seq<string>, clusterShards: seq<string>): seq<(string, string)> {
    if statements == [] then []
    else Pairs(statements[0], ShardsFor(statements[0], clusterShards)) + Plan(statements[1..], clusterShards)
  }

  function JobFor(cluster: Cluster, repo: Repository, pair: (string, string)): Job {
    Job(cluster, pair.1, repo, pair.0, "")
  }

  /** This migration is what becomes of its own statement on its own shard. */
  ghost predicate Made(m: Migration, cluster: Cluster, repo: Repository, pair: (string, string), stamp: string)
    reads m, m.statement
  {
    && Evaluate(JobFor(cluster, repo, pair), stamp) == Some(m.State())
    && m.cluster == cluster && m.repo == repo && m.shard == pair.1
    && m.strategy == EvaluateStrategy(pair.0, repo.autoRun)
  }

  /** No two migrations share anything that is written to. */
  ghost predicate Apart(migrations: seq<Migration>) {
    forall i, j :: 0 <= i < j < |migrations| ==>
      migrations[i] != migrations[j] && migrations[i].statement != migrations[j].statement
  }

  ghost function Texts(statements: seq<Statement>): (texts: seq<string>)
    reads statements
    ensures |texts| == |statements| && forall i :: 0 <= i < |statements| ==> texts[i] == statements[i].text
  {
    if statements == [] then [] else [statements[0].text] + Texts(statements[1..])
  }

  method MakeMigration(cluster: Cluster, repo: Repository, text: string, shard: string, stamp: string)
    returns (migration: Migration, ok: bool)
    ensures fresh(migration) && fresh(migration.statement)
    ensures ok == Evaluate(JobFor(cluster, repo, (text, shard)), stamp).Some?
    ensures ok ==> Made(migration, cluster, repo, (text, shard), stamp)
    ensures StrategyFits(text, repo.autoRun, migration.strategy)
  {
    hide Evaluate, GetMigrationType, StrategyFits;
    EvaluatedStrategyFits(text, repo.autoRun);
    var strategy := EvaluateStrategy(text, repo.autoRun);
    migration := new Migration(cluster, shard, repo, text, strategy);
    ok := migration.EvaluateByType(stamp);
  }

  /** The statements as submitted are left as they are: it is their copies that are evaluated. */
  method EvaluateMigrations(cluster: Cluster, repo: Repository, clusterShards: seq<string>, submitted: seq<Statement>,
                            clock: nat -> string)
    returns (migrations: seq<Migration>, ok: bool)
    ensures Texts(submitted) == old(Texts(submitted))
    ensures |migrations| <= |Plan(Texts(submitted), clusterShards)|
    ensures forall k :: 0 <= k < |migrations| ==> fresh(migrations[k]) && fresh(migrations[k].statement)
    ensures forall k :: 0 <= k < |migrations| ==>
              Made(migrations[k], cluster, repo, Plan(Texts(submitted), clusterShards)[k], clock(k))
    ensures Apart(migrations)
    ensures forall k :: 0 <= k < |migrations| ==>
              StrategyFits(Plan(Texts(submitted), clusterShards)[k].0, repo.autoRun, migrations[k].strategy)
    ensures ok ==> |migrations| == |Plan(Texts(submitted), clusterShards)|
    ensures !ok ==> |migrations| < |Plan(Texts(submitted), clusterShards)|
                    && Evaluate(JobFor(cluster, repo, Plan(Texts(submitted), clusterShards)[|migrations|]),
                                clock(|migrations|)).None?
  {
    hide Texts, Made, Apart, StrategyFits;
    hide Evaluate, Plan, Pairs, GetMigrationType, EvaluateStrategy, PerShard;
    migrations := [];
    NoneApart();
    ghost var statements := Texts(submitted);
    ghost var plan := Plan(statements, clusterShards);
    var i := 0;
    PlanStart(statements, clusterShards);
    while i < |submitted|
      invariant 0 <= i <= |submitted|
      invariant forall k :: 0 <= k < |migrations| ==> fresh(migrations[k]) && fresh(migrations[k].statement)
      invariant Apart(migrations)
      invariant |migrations| <= |plan| && plan[|migrations|..] == Plan(statements[i..], clusterShards)
      invariant forall k :: 0 <= k < |migrations| ==> Made(migrations[k], cluster, repo, plan[k], clock(k))
      invariant forall k :: 0 <= k < |migrations| ==> StrategyFits(plan[k].0, repo.autoRun, migrations[k].strategy)
    {
      var text := submitted[i].text;
      var shards := if PerShard(GetMigrationType(text)) then clusterShards else [""];
      var j := 0;
      PlanStep(statements, clusterShards, i);
      while j < |shards|
        invariant 0 <= j <= |shards|
        invariant forall k :: 0 <= k < |migrations| ==> fresh(migrations[k]) && fresh(migrations[k].statement)
        invariant Apart(migrations)
        invariant |migrations| <= |plan|
        invariant plan[|migrations|..] == Pairs(text, shards[j..]) + Plan(statements[i + 1..], clusterShards)
        invariant forall k :: 0 <= k < |migrations| ==> Made(migrations[k], cluster, repo, plan[k], clock(k))
        invariant forall k :: 0 <= k < |migrations| ==> StrategyFits(plan[k].0, repo.autoRun, migrations[k].strategy)
      {
        PairsStep(plan, |migrations|, text, shards, j, Plan(statements[i + 1..], clusterShards));
        var migration;
        migration, ok := MakeMigration(cluster, repo, text, shards[j], clock(|migrations|));
        if !ok {
          return;
        }
        AppendApart(migrations, migration);
        migrations := migrations + [migration];
        j := j + 1;
      }
      PlanNext(text, shards, statements[i + 1..], clusterShards);
      i := i + 1;
    }
    PlanEnd(statements, clusterShards);
    ok := true;
  }

  lemma NoneApart()
    ensures Apart([])
  {
  }

  lemma AppendApart(migrations: seq<Migration>, m: Migration)
    requires Apart(migrations)
    requires forall k :: 0 <= k < |migrations| ==> migrations[k] != m && migrations[k].statement != m.statement
    ensures Apart(migrations + [m])
  {
  }

  lemma PlanStart(statements: seq<string>, clusterShards: seq<string>)
    ensures Plan(statements, clusterShards)[0..] == Plan(statements[0..], clusterShards)
  {
    assert statements[0..] == statements;
  }

  lemma PlanEnd(statements: seq<string>, clusterShards: seq<string>)
    ensures Plan(statements[|statements|..], clusterShards) == []
  {
  }

  lemma PlanStep(statements: seq<string>, clusterShards: seq<string>, i: nat)
    requires i < |statements|
    ensures var shards := ShardsFor(statements[i], clusterShards);
            Plan(statements[i..], clusterShards)
            == Pairs(statements[i], shards[0..]) + Plan(statements[i + 1..], clusterShards)
  {
    var shards := ShardsFor(statements[i], clusterShards);
    assert shards[0..] == shards && statements[i..][1..] == statements[i + 1..];
  }

  lemma PairsStep(plan: seq<(string, string)>, n: nat, text: string, shards: seq<string>, j: nat,
                  rest: seq<(string, string)>)
    requires j < |shards| && n <= |plan| && plan[n..] == Pairs(text, shards[j..]) + rest
    ensures n < |plan| && plan[n] == (text, shards[j]) && plan[n + 1..] == Pairs(text, shards[j + 1..]) + rest
  {
    assert shards[j..][1..] == shards[j + 1..];
    assert plan[n..][0] == (text, shards[j]);
    assert plan[n..][1..] == plan[n + 1..];
  }

  lemma PlanNext(text: string, shards: seq<string>, statements: seq<string>, clusterShards: seq<string>)
    ensures Pairs(text, shards[|shards|..]) + Plan(statements, clusterShards) == Plan(statements, clusterShards)
  {
  }
}
