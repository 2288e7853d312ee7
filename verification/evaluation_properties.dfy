/** What the rewriting of DROP TABLE keeps, and what a shell gets from an evaluated ALTER TABLE. */
module EvaluationProperties {
  import opened Options
  import opened Text
  import opened Statements
  import opened Evaluation
  import Dissect
  import Shell
  import Suggestions

  const STAMP_LENGTH := 14
  const LONGEST_KEPT := 44

  // ---------- every statement and shard gets its migration ----------

  lemma {:induction false} PairsCover(text: string, shards: seq<string>, pair: (string, string))
    ensures pair in Pairs(text, shards) <==> pair.0 == text && pair.1 in shards
  {
    if shards != [] {
      PairsCover(text, shards[1..], pair);
      assert shards == [shards[0]] + shards[1..];
    }
  }

  /** Every statement is planned for every cluster shard, or just once, according to its type. */
  lemma {:induction false} PlanCovers(statements: seq<string>, clusterShards: seq<string>, pair: (string, string))
    ensures pair in Plan(statements, clusterShards)
       <==> pair.0 in statements && pair.1 in ShardsFor(pair.0, clusterShards)
    ensures "DROP TABLE" <= pair.0 || "ALTER TABLE" <= pair.0 ==>
      (pair in Plan(statements, clusterShards) <==> pair.0 in statements && pair.1 in clusterShards)
    ensures "CREATE TABLE" <= pair.0 || "ALTER DATABASE" <= pair.0 ==>
      (pair in Plan(statements, clusterShards) <==> pair.0 in statements && pair.1 == "")
  {
    ShardsByBeginning(pair.0, clusterShards);
    hide ShardsFor, Pairs;
    if statements != [] {
      PairsCover(statements[0], ShardsFor(statements[0], clusterShards), pair);
      PlanCovers(statements[1..], clusterShards, pair);
      assert statements == [statements[0]] + statements[1..];
    }
  }

  lemma ShardsByBeginning(text: string, clusterShards: seq<string>)
    ensures "DROP TABLE" <= text || "ALTER TABLE" <= text ==> ShardsFor(text, clusterShards) == clusterShards
    ensures "CREATE TABLE" <= text || "ALTER DATABASE" <= text ==> ShardsFor(text, clusterShards) == [""]
  {
    if |text| > 6 {
      assert "CREATE TABLE" <= text ==> text[0] == 'C';
      assert "DROP TABLE" <= text ==> text[0] == 'D';
      assert "ALTER TABLE" <= text ==> text[0] == 'A' && text[6] == 'T';
      assert "ALTER DATABASE" <= text ==> text[0] == 'A' && text[6] == 'D';
    }
  }

  /** A shard's migrations are for a cluster of its own, named after it; without shards it is the one discovered. */
  lemma ShardsHaveClustersOfTheirOwn(one: Job, other: Job)
    requires one.repo.cluster == other.repo.cluster
    ensures one.shard != "" ==> ClusterName(one) == one.repo.cluster + ("-" + one.shard)
    ensures one.shard != "" && other.shard != "" ==>
              (ClusterName(one) == ClusterName(other) <==> one.shard == other.shard)
    ensures one.shard == "" && one.cluster.name != "" ==> ClusterName(one) == one.cluster.name
    ensures one.shard == "" && one.cluster.name == "" ==> ClusterName(one) == one.repo.cluster
  {
    var n := |one.repo.cluster| + 1;
    assert one.shard != "" ==> ClusterName(one)[n..] == one.shard;
    assert other.shard != "" ==> ClusterName(other)[n..] == other.shard;
  }

  // ---------- what evaluation keeps ----------

  /** Whatever is evaluated is of the same type afterwards, so that it gets the same strategy again. */
  lemma TypeIsKept(job: Job, stamp: string)
    requires |stamp| == STAMP_LENGTH && Evaluate(job, stamp).Some?
    ensures var text := Evaluate(job, stamp).value.text;
            GetMigrationType(text) == GetMigrationType(job.text)
            && forall auto :: EvaluateStrategy(text, auto) == EvaluateStrategy(job.text, auto)
  {
    hide Dissect.DropTable, Dissect.CreateTable, Dissect.AlterTable, Dissect.AlterDatabase, DroppedName;
    if GetMigrationType(job.text).DropTable? {
      var table := Dissect.DropTable(job.text).value;
      DroppedNameIsSafe(table, stamp);
      RenamingIsADrop(table, DroppedName(table, stamp));
    }
  }

  /** A quoted ALTER DATABASE is accepted exactly for the schema of the repository, and is left to humans. */
  lemma OwnSchemaOnly(job: Job, stamp: string, name: string, alter: string)
    requires job.text == Dissect.ALTER_DATABASE + name + (Dissect.END_NAME + alter)
    requires OneLine(name) && '`' !in name && OneLine(alter) && alter != ""
    ensures Evaluate(job, stamp).Some? <==> name == job.repo.schema
    ensures Evaluate(job, stamp).Some? ==>
      var m := Evaluate(job, stamp).value;
      m.alter == alter && m.text == job.text && m.tableName == "" && m.canonical == "ALTER DATABASE " + name
    ensures forall auto :: EvaluateStrategy(job.text, auto) == Manual
  {
    hide Dissect.NameAndAlter;
    AlterTypes(job.text);
    assert "ALTER DATABASE" <= Dissect.ALTER_DATABASE;
    Dissect.QuotedAlterIsFound(Dissect.ALTER_DATABASE, name, alter);
  }

  lemma AlterTypes(text: string)
    ensures "ALTER TABLE" <= text ==> GetMigrationType(text) == AlterTable
    ensures "ALTER DATABASE" <= text ==> GetMigrationType(text) == AlterDatabase
  {
    if "ALTER TABLE" <= text {
      assert text[0] == 'A';
    }
    if "ALTER DATABASE" <= text {
      assert text[0] == 'A' && text[6] == 'D';
    }
  }

  /** A quoted CREATE TABLE is kept as it is, is run directly if at all, and ends the suggestion. */
  lemma CreateIsKept(job: Job, stamp: string, name: string, rest: string)
    requires job.text == Dissect.CREATE_TABLE + name + ("`" + rest) && OneLine(name) && '`' !in name
    ensures Evaluate(job, stamp).Some?
    ensures var m := Evaluate(job, stamp).value;
            && m.text == job.text && m.tableName == name && m.alter == job.alter
            && m.canonical == "CREATE TABLE " + name
            && HasSuffix(m.suggestion, job.text + "\n\t")
    ensures EvaluateStrategy(job.text, true) == Direct
  {
    hide Dissect.Name;
    assert "CREATE TABLE" <= Dissect.CREATE_TABLE;
    Dissect.QuotedNameIsFound(Dissect.CREATE_TABLE, name, rest);
    EndsInText(job, job.text);
  }

  lemma EndsInText(job: Job, text: string)
    ensures HasSuffix(ShellSuggestion(job, text), text + "\n\t")
  {
    var s := ShellSuggestion(job, text);
    assert s[|s| - |text| - 2..] == text + "\n\t";
  }

  /** An evaluated ALTER is the end of the statement, on one line, without the semicolons behind it. */
  lemma AlterIsTidy(job: Job, stamp: string)
    requires GetMigrationType(job.text) == AlterTable && Evaluate(job, stamp).Some?
    ensures var m := Evaluate(job, stamp).value;
            && m.text == job.text && m.canonical == "ALTER TABLE " + m.tableName
            && OneLine(m.alter) && (m.alter == "" || m.alter[|m.alter| - 1] != ';')
            && exists semicolons: string ::
                 && (forall c :: c in semicolons ==> c == ';')
                 && HasSuffix(job.text, m.tableName + (Dissect.END_NAME + (m.alter + semicolons)))
  {
    hide Dissect.NameAndAlter, Suggestions.AlterSuggestion, TrimRight, HasSuffix;
    var (table, alter) := Dissect.AlterTable(job.text).value;
    Dissect.AlterIsOneLine(job.text, Dissect.ALTER_TABLE);
    TrimRightIsOneLine(alter, IsSemicolon);
    TrimRightSplits(alter, IsSemicolon);
    var m := Evaluate(job, stamp).value;
    var semicolons := alter[|m.alter|..];
    assert alter == m.alter + semicolons;
  }

  // ---------- DROP TABLE becomes RENAME TABLE ----------

  /** The new name says when the table was dropped, fits, and is recognised by its ending. */
  lemma DroppedNameIsSafe(table: string, stamp: string)
    requires |stamp| == STAMP_LENGTH
    ensures var name := DroppedName(table, stamp);
            |name| <= Dissect.MAX_TABLE_NAME_LENGTH && "_" + stamp + "_" <= name && HasSuffix(name, "_DRP")
  {
    assert "_" + "DRP" == "_DRP";
    var base := "_" + stamp + "_" + table;
    assert base[..16] == "_" + stamp + "_";
  }

  /**
   * A dissectable DROP TABLE becomes a statement that is still a drop, so that it gets the same
   * strategy whenever it is evaluated again.
   */
  lemma DropIsRenamed(job: Job, stamp: string)
    requires "DROP TABLE" <= job.text && Dissect.DropTable(job.text).Some? && |stamp| == STAMP_LENGTH
    ensures var table := Dissect.DropTable(job.text).value;
            Evaluate(job, stamp).Some? && Evaluate(job, stamp).value.tableName == table
            && Evaluate(job, stamp).value.text == "RENAME TABLE " + table + " TO " + DroppedName(table, stamp)
            && Evaluate(job, stamp).value.canonical == "DROP TABLE " + table
            && Evaluate(job, stamp).value.alter == job.alter
    ensures var text := Evaluate(job, stamp).value.text;
            GetMigrationType(text) == GetMigrationType(job.text) == DropTable
            && forall auto :: EvaluateStrategy(text, auto) == EvaluateStrategy(job.text, auto)
  {
    hide Dissect.DropTable, DroppedName;
    var table := Dissect.DropTable(job.text).value;
    assert job.text[0] == 'D';
    DroppedNameIsSafe(table, stamp);
    RenamingIsADrop(table, DroppedName(table, stamp));
  }

  lemma RenamingIsADrop(table: string, name: string)
    requires HasSuffix(name, "_DRP")
    ensures GetMigrationType("RENAME TABLE " + table + " TO " + name) == DropTable
  {
    var text := "RENAME TABLE " + table + " TO " + name;
    assert text[|text| - 4..] == name[|name| - 4..];
    assert text[0] == 'R';
  }

  /**
   * The renaming cannot be evaluated in its turn, so the statement of one shard must not reach
   * the next: each migration evaluates a copy of its own.
   */
  lemma RenamingIsNotEvaluatedAgain(job: Job, stamp: string, later: string)
    requires "DROP TABLE" <= job.text && Dissect.DropTable(job.text).Some?
    requires |stamp| == STAMP_LENGTH && '`' !in stamp
    ensures Evaluate(job, stamp).Some? && Evaluate(job.(text := Evaluate(job, stamp).value.text), later).None?
  {
    hide Dissect.Name, DroppedName, Find;
    DropIsRenamed(job, stamp);
    var table := Dissect.DropTable(job.text).value;
    var text := "RENAME TABLE " + table + " TO " + DroppedName(table, stamp);
    Dissect.NameWasQuoted(job.text, Dissect.DROP_TABLE);
    NoBacktickInName(table, stamp);
    assert '`' !in text;
    NotSpread(text, Dissect.DROP_TABLE, 11);
    NoKeywordNoName(text, Dissect.DROP_TABLE);
  }

  lemma NoBacktickInName(table: string, stamp: string)
    requires '`' !in table && '`' !in stamp
    ensures '`' !in DroppedName(table, stamp)
  {
    var base := "_" + stamp + "_" + table;
    assert '`' !in base && '`' !in "_" + "DRP";
  }

  lemma NoKeywordNoName(text: string, keyword: string)
    requires keyword != "" && !Contains(text, keyword)
    ensures Dissect.Name(text, keyword).None?
  {
  }

  /**
   * Within one second, two drops get the same new name exactly if their tables agree in the first
   * 44 bytes: the second renaming would then meet a table that is already there.
   */
  lemma NamesCollideExactlyIfTheyStartAlike(one: string, other: string, stamp: string)
    requires |stamp| == STAMP_LENGTH
    ensures DroppedName(one, stamp) == DroppedName(other, stamp) <==> Kept(one) == Kept(other)
  {
    NameOfKept(one, stamp);
    NameOfKept(other, stamp);
    hide DroppedName, Kept;
    var n, m := "_" + stamp + "_" + Kept(one) + "_DRP", "_" + stamp + "_" + Kept(other) + "_DRP";
    if n == m {
      assert Kept(one) == n[16..|n| - 4] && Kept(other) == m[16..|m| - 4];
    }
  }

  function Kept(table: string): string {
    if |table| <= LONGEST_KEPT then table else table[..LONGEST_KEPT]
  }

  lemma NameOfKept(table: string, stamp: string)
    requires |stamp| == STAMP_LENGTH
    ensures DroppedName(table, stamp) == "_" + stamp + "_" + Kept(table) + "_DRP"
  {
    assert "_" + "DRP" == "_DRP";
    var base := "_" + stamp + "_" + table;
    if |table| > LONGEST_KEPT {
      assert base[..60] == "_" + stamp + "_" + table[..LONGEST_KEPT];
    }
  }

  // ---------- ALTER TABLE becomes a command ----------

  /**
   * For every ALTER that can be dissected, the text behind -d in the pretty suggestion is a word,
   * and that word is the migration's ALTER.
   */
  lemma AlterIsReadBack(job: Job, stamp: string)
    requires GetMigrationType(job.text) == AlterTable && Evaluate(job, stamp).Some?
    ensures var m := Evaluate(job, stamp).value;
            exists before, after ::
              && Suggestions.Beautify(m.suggestion) == before + "-d " + after
              && Shell.Word(after) == Some((m.alter, " \"$@\"\n```\n"))
  {
    hide Dissect.NameAndAlter, Suggestions.AlterSuggestion, Suggestions.Beautify, Shell.Word, TrimRight, OneLine;
    var (table, alter) := Dissect.AlterTable(job.text).value;
    Dissect.AlterIsOneLine(job.text, Dissect.ALTER_TABLE);
    TrimRightIsOneLine(alter, IsSemicolon);
    var m := Evaluate(job, stamp).value;
    var head := Suggestions.Collapse(Suggestions.Head(Notes(alter), ClusterName(job), job.repo.schema, table));
    var after := "'" + Shell.Escape(m.alter) + ("'" + " \"$@\"\n```\n");
    Suggestions.AlterSurvives(Notes(alter), ClusterName(job), job.repo.schema, table, m.alter);
    var before := "\n```\n" + head;
    assert Suggestions.Beautify(m.suggestion) == before + "-d " + after;
  }

  lemma {:induction false} TrimRightIsOneLine(s: string, cut: char -> bool)
    requires OneLine(s)
    ensures OneLine(TrimRight(s, cut))
  {
    if s != "" {
      TrimRightIsOneLine(s[..|s| - 1], cut);
    }
  }

  /** With names that double quotes keep, the third line of the suggestion is the whole command. */
  lemma CommandIsReadBack(job: Job, stamp: string)
    requires GetMigrationType(job.text) == AlterTable && Evaluate(job, stamp).Some?
    requires OneLine(ClusterName(job)) && OneLine(job.repo.schema)
    requires Shell.DoubleQuotable(ClusterName(job)) && Shell.DoubleQuotable(job.repo.schema)
    requires Shell.DoubleQuotable(Evaluate(job, stamp).value.tableName)
    ensures var m := Evaluate(job, stamp).value;
            var drops := Contains(Dissect.AlterTable(job.text).value.1, "DROP COLUMN");
            var comments := "\n```\n# " + if drops then "### NOTE: found DROP COLUMN" else "";
            exists command ::
              && Suggestions.Beautify(m.suggestion) == comments + "\n# Run on utility box:\n" + command + "\n```\n"
              && Shell.Words(command, 9) == Some((
                   [Suggestions.COMMAND, "-c", ClusterName(job), "-s", job.repo.schema, "-t", m.tableName,
                    "-d", m.alter], " \"$@\""))
  {
    hide Dissect.NameAndAlter, Suggestions.AlterSuggestion, Suggestions.Beautify, Shell.Words, TrimRight, OneLine;
    hide Shell.DoubleQuotable, Suggestions.Command;
    var (table, alter) := Dissect.AlterTable(job.text).value;
    Dissect.AlterIsOneLine(job.text, Dissect.ALTER_TABLE);
    TrimRightIsOneLine(alter, IsSemicolon);
    NotesAreOneLine(alter);
    var m := Evaluate(job, stamp).value;
    Suggestions.CommandIsALine(Notes(alter), ClusterName(job), job.repo.schema, table, m.alter);
    Suggestions.CommandIsRead(ClusterName(job), job.repo.schema, table, m.alter, "");
    var command := Suggestions.Command(ClusterName(job), job.repo.schema, table, m.alter);
    assert command + "" == command && " \"$@\"" + "" == " \"$@\"";
    var comments := "\n```\n# " + Notes(alter);
    assert Suggestions.Beautify(m.suggestion) == comments + "\n# Run on utility box:\n" + command + "\n```\n";
  }

  lemma NotesAreOneLine(alter: string)
    ensures OneLine(Notes(alter))
  {
  }

  /** The table's name is read back from the suggestion exactly if double quotes keep it. */
  lemma TableIsReadBackExactlyIfQuotable(job: Job, stamp: string) returns (before: string, rest: string)
    requires GetMigrationType(job.text) == AlterTable && Evaluate(job, stamp).Some?
    requires OneLine(ClusterName(job)) && OneLine(job.repo.schema)
    ensures var m := Evaluate(job, stamp).value;
            var argument := "\"" + m.tableName + ("\"" + rest);
            && Suggestions.Beautify(m.suggestion) == before + " -t " + argument
            && (Shell.Word(argument) == Some((m.tableName, rest)) <==> Shell.DoubleQuotable(m.tableName))
  {
    hide Dissect.NameAndAlter, Suggestions.AlterSuggestion, Suggestions.Beautify, Shell.Word, TrimRight, OneLine;
    hide Shell.DoubleQuotable, Suggestions.AlterOption;
    var (table, alter) := Dissect.AlterTable(job.text).value;
    Dissect.AlterIsOneLine(job.text, Dissect.ALTER_TABLE);
    TrimRightIsOneLine(alter, IsSemicolon);
    NotesAreOneLine(alter);
    var m := Evaluate(job, stamp).value;
    Suggestions.CommandIsALine(Notes(alter), ClusterName(job), job.repo.schema, table, m.alter);
    var start := "\n```\n# " + Notes(alter) + "\n# Run on utility box:\n";
    rest := " " + Suggestions.AlterOption(m.alter) + "\n```\n";
    before := start + (Suggestions.COMMAND + Suggestions.NameOption('c', ClusterName(job))
                       + Suggestions.NameOption('s', job.repo.schema));
    TableOption(start, ClusterName(job), job.repo.schema, table, m.alter);
    Shell.DoubleQuotesKeep(table, rest);
  }

  lemma TableOption(start: string, cluster: string, schema: string, table: string, alter: string)
    ensures start + Suggestions.Command(cluster, schema, table, alter) + "\n```\n"
         == start + (Suggestions.COMMAND + Suggestions.NameOption('c', cluster) + Suggestions.NameOption('s', schema))
            + " -t " + ("\"" + table + ("\"" + (" " + Suggestions.AlterOption(alter) + "\n```\n")))
  {
    hide Suggestions.AlterOption;
    var head := Suggestions.COMMAND + Suggestions.NameOption('c', cluster) + Suggestions.NameOption('s', schema);
    assert Suggestions.NameOption('t', table) == " -t " + ("\"" + table + "\"");
    hide Suggestions.NameOption;
    assert Suggestions.Command(cluster, schema, table, alter)
        == head + Suggestions.NameOption('t', table) + " " + Suggestions.AlterOption(alter);
  }

  /**
   MySQL allows a dollar sign in a name; between double quotes the shell expands it, so that the
   command suggested for such a table names another one.
   */
  lemma DollarInANameIsLost(job: Job, stamp: string, name: string, alter: string) returns (before: string, rest: string)
    requires job.text == Dissect.ALTER_TABLE + name + (Dissect.END_NAME + alter)
    requires OneLine(name) && '`' !in name && '$' in name && OneLine(alter) && alter != ""
    requires OneLine(ClusterName(job)) && OneLine(job.repo.schema)
    ensures Evaluate(job, stamp).Some? && Evaluate(job, stamp).value.tableName == name
    ensures Suggestions.Beautify(Evaluate(job, stamp).value.suggestion)
         == before + " -t " + ("\"" + name + ("\"" + rest))
    ensures Shell.Word("\"" + name + ("\"" + rest)) != Some((name, rest))
  {
    hide Dissect.NameAndAlter, Suggestions.AlterSuggestion, Suggestions.Beautify, Shell.Word, TrimRight, OneLine;
    AlterTypes(job.text);
    assert "ALTER TABLE" <= Dissect.ALTER_TABLE;
    Dissect.QuotedAlterIsFound(Dissect.ALTER_TABLE, name, alter);
    before, rest := TableIsReadBackExactlyIfQuotable(job, stamp);
    Shell.DollarIsNotQuotable(name);
  }

  // ---------- the other statements become a command and the statement ----------

  /** The command connects to the cluster's writer with the repository's schema; below it stands the statement. */
  lemma ShellCommandIsReadBack(job: Job, stamp: string)
    requires GetMigrationType(job.text) != AlterTable && Evaluate(job, stamp).Some?
    requires var text := Evaluate(job, stamp).value.text;
             text != "" && !IsSpace(text[0]) && !IsSpace(text[|text| - 1])
    requires OneLine(job.cluster.rwName) && OneLine(job.cluster.port) && OneLine(job.repo.schema)
    requires Shell.DoubleQuotable(job.cluster.rwName) && Shell.DoubleQuotable(job.cluster.port)
    requires Shell.DoubleQuotable(job.repo.schema)
    ensures var m := Evaluate(job, stamp).value;
            exists command ::
              && Suggestions.Beautify(m.suggestion)
                 == "\n```\n" + ("# Run in shell:\n" + command + "\n\n" + Suggestions.Collapse(m.text)) + "\n```\n"
              && Shell.Words(command, 6) == Some((
                   [Suggestions.MYSQL, "-h", job.cluster.rwName, "-P", job.cluster.port, job.repo.schema], ""))
  {
    hide Dissect.Name, Dissect.NameAndAlter, Suggestions.ShellCommand, Suggestions.ShellSuggestion, Shell.Words;
    hide Suggestions.Beautify, Suggestions.Collapse, Shell.DoubleQuotable, OneLine, IsSpace, DroppedName;
    var m := Evaluate(job, stamp).value;
    var command := Suggestions.ShellCommand(job.cluster.rwName, job.cluster.port, job.repo.schema);
    Suggestions.ShellSuggestionIsPretty(job.cluster.rwName, job.cluster.port, job.repo.schema, m.text);
    Suggestions.ShellCommandIsRead(job.cluster.rwName, job.cluster.port, job.repo.schema, "");
    assert command + "" == command;
  }
}
