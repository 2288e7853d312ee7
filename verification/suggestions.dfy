/** The suggested commands: how they are printed, and what a shell reads back from them. */
module Suggestions {
  import opened Options
  import opened Text
  import opened Shell

  // ---------- tidying a suggestion up ----------

  /** Blanks at the start of a line are dropped. */
  function Collapse(s: string): string
    decreases |s|
  {
    if s == "" then ""
    else if s[0] == '\n' then
      TrimLeftIsShort(s[1..]);
      "\n" + Collapse(TrimLeft(s[1..], IsBlank))
    else [s[0]] + Collapse(s[1..])
  }

  lemma TrimLeftIsShort(s: string)
    ensures |TrimLeft(s, IsBlank)| <= |s|
  {
    TrimShortens(s, IsBlank);
  }

  function Beautify(suggestion: string): string {
    "\n```\n" + Collapse(TrimSpace(suggestion)) + "\n```\n"
  }

  lemma {:induction false} CollapseKeepsLine(line: string)
    requires OneLine(line)
    ensures Collapse(line) == line
  {
    if line != "" {
      assert line == [line[0]] + line[1..];
      CollapseKeepsLine(line[1..]);
    }
  }

  /** A line that starts with no blank is left alone, whatever stands before it. */
  lemma {:induction false} CollapseAppend(s: string, line: string)
    requires line != "" && OneLine(line) && !IsBlank(line[0])
    ensures Collapse(s + line) == Collapse(s) + line
    decreases |s|
  {
    if s == "" {
      assert s + line == line;
      CollapseKeepsLine(line);
    } else {
      assert (s + line)[1..] == s[1..] + line;
      if s[0] == '\n' {
        TrimLeftAppend(s[1..], line, IsBlank);
        TrimLeftIsShort(s[1..]);
        CollapseAppend(TrimLeft(s[1..], IsBlank), line);
      } else {
        CollapseAppend(s[1..], line);
      }
    }
  }

  // ---------- the gh-ost command ----------

  const COMMAND := "command-to-run-gh-ost"

  function NameOption(flag: char, name: string): string { " -" + [flag] + " \"" + name + "\"" }

  function NameOptions(cluster: string, schema: string, table: string): string {
    NameOption('c', cluster) + NameOption('s', schema) + NameOption('t', table)
  }

  function AlterOption(alter: string): string { "-d '" + Escape(alter) + "' \"$@\"" }

  /** What stands between the indentation before and after it. */
  function AlterText(notes: string, cluster: string, schema: string, table: string, alter: string): string {
    Head(notes, cluster, schema, table) + AlterOption(alter)
  }

  function Head(notes: string, cluster: string, schema: string, table: string): string {
    "# " + notes + "\n\t\t# Run on utility box:\n\t\t" + COMMAND + NameOptions(cluster, schema, table) + " "
  }

  function AlterSuggestion(notes: string, cluster: string, schema: string, table: string, alter: string): string {
    "\n\t\t" + AlterText(notes, cluster, schema, table, alter) + "\n\t"
  }

  lemma OptionIsOneLine(alter: string)
    requires OneLine(alter)
    ensures OneLine(AlterOption(alter)) && AlterOption(alter)[0] == '-'
    ensures AlterOption(alter)[|AlterOption(alter)| - 1] == '"'
  {
    EscapeAddsNoBreak(alter);
    assert OneLine("-d '") && OneLine("' \"$@\"");
  }

  lemma TrimSuggestion(notes: string, cluster: string, schema: string, table: string, alter: string)
    requires OneLine(alter)
    ensures TrimSpace(AlterSuggestion(notes, cluster, schema, table, alter))
         == AlterText(notes, cluster, schema, table, alter)
  {
    hide Trim, Escape;
    var text := AlterText(notes, cluster, schema, table, alter);
    OptionIsOneLine(alter);
    assert text[0] == '#' && text[|text| - 1] == '"';
    TrimKeeps("\n\t\t", text, "\n\t", IsSpace);
  }

  /**
   * Tidying up leaves the -d option alone, whatever the other parts are, and a shell that reads
   * its argument gets the ALTER.
   */
  lemma AlterSurvives(notes: string, cluster: string, schema: string, table: string, alter: string)
    requires OneLine(alter)
    ensures Beautify(AlterSuggestion(notes, cluster, schema, table, alter))
         == "\n```\n" + (Collapse(Head(notes, cluster, schema, table)) + "-d ")
            + ("'" + Escape(alter) + ("'" + " \"$@\"\n```\n"))
    ensures Word("'" + Escape(alter) + ("'" + " \"$@\"\n```\n")) == Some((alter, " \"$@\"\n```\n"))
  {
    hide Collapse, Escape, Word, AlterSuggestion, Head;
    TrimSuggestion(notes, cluster, schema, table, alter);
    OptionIsOneLine(alter);
    CollapseAppend(Head(notes, cluster, schema, table), AlterOption(alter));
    SingleQuotesKeep(alter, " \"$@\"\n```\n");
  }

  // ---------- the whole command ----------

  /** Letters and dashes, which mean nothing to a shell. */
  predicate PlainWord(word: string) {
    forall c :: c in word ==> 'a' <= c <= 'z' || 'A' <= c <= 'Z' || c == '-'
  }

  lemma {:induction false} PlainWordKeeps(word: string, rest: string)
    requires PlainWord(word) && WordEnds(rest)
    ensures Word(word + rest) == Some((word, rest))
  {
    hide Single, Double;
    if word == "" {
      assert word + rest == rest;
    } else {
      assert (word + rest)[1..] == word[1..] + rest;
      assert word[0] in word && forall c :: c in word[1..] ==> c in word;
      PlainWordKeeps(word[1..], rest);
      assert word == [word[0]] + word[1..];
    }
  }

  /** After one blank, the next word. */
  lemma NextWord(s: string, word: string, rest: string, count: nat)
    requires s != "" && !IsBlank(s[0]) && Word(s) == Some((word, rest))
    ensures Words(s, count + 1) == AddWord(word, Words(rest, count))
    ensures Words(" " + s, count + 1) == AddWord(word, Words(rest, count))
  {
    hide Word;
    assert (" " + s)[1..] == s;
    assert TrimLeft(s, IsBlank) == s == TrimLeft(" " + s, IsBlank);
  }

  function AddWord(word: string, r: Option<(seq<string>, string)>): Option<(seq<string>, string)> {
    if r.None? then None else Some(([word] + r.value.0, r.value.1))
  }

  lemma FlagIsPlain(flag: char)
    requires flag in "cstdhP"
    ensures PlainWord("-" + [flag])
  {
  }

  lemma NameOptionWords(flag: char, name: string, rest: string, count: nat)
    requires flag in "csthP" && DoubleQuotable(name) && WordEnds(rest)
    ensures Words(NameOption(flag, name) + rest, count + 2)
         == AddWord("-" + [flag], AddWord(name, Words(rest, count)))
  {
    hide Word, Words, DoubleQuotable, PlainWord;
    var quoted := "\"" + name + ("\"" + rest);
    DoubleQuotesKeep(name, rest);
    NextWord(quoted, name, rest, count);
    var dashed := "-" + [flag] + (" " + quoted);
    FlagIsPlain(flag);
    PlainWordKeeps("-" + [flag], " " + quoted);
    NextWord(dashed, "-" + [flag], " " + quoted, count + 1);
    assert NameOption(flag, name) + rest == " " + dashed;
  }

  lemma AlterOptionWords(alter: string, after: string)
    requires WordEnds(after)
    ensures Words(" " + AlterOption(alter) + after, 2) == Some((["-d", alter], " \"$@\"" + after))
  {
    hide Word, PlainWord, Escape;
    var rest := " \"$@\"" + after;
    var quoted := "'" + Escape(alter) + ("'" + rest);
    SingleQuotesKeep(alter, rest);
    NextWord(quoted, alter, rest, 0);
    var dashed := "-d" + (" " + quoted);
    FlagIsPlain('d');
    assert "-" + ['d'] == "-d";
    PlainWordKeeps("-d", " " + quoted);
    NextWord(dashed, "-d", " " + quoted, 1);
    OptionText(alter, after);
    assert " " + AlterOption(alter) + after == " " + (AlterOption(alter) + after);
    NoWords(rest);
    assert Words(rest, 0) == Some(([], rest)) && ["-d"] + ([alter] + []) == ["-d", alter];
  }

  lemma OptionText(alter: string, after: string)
    ensures AlterOption(alter) + after == "-d" + (" " + ("'" + Escape(alter) + ("'" + (" \"$@\"" + after))))
  {
    hide Escape;
    assert "-d '" == "-d" + (" " + "'") && "' \"$@\"" == "'" + " \"$@\"";
  }

  function Command(cluster: string, schema: string, table: string, alter: string): string {
    COMMAND + NameOptions(cluster, schema, table) + " " + AlterOption(alter)
  }

  /** With names that double quotes keep, a shell reads the whole command as it was meant. */
  lemma CommandIsRead(cluster: string, schema: string, table: string, alter: string, after: string)
    requires DoubleQuotable(cluster) && DoubleQuotable(schema) && DoubleQuotable(table) && WordEnds(after)
    ensures Words(Command(cluster, schema, table, alter) + after, 9)
         == Some(([COMMAND, "-c", cluster, "-s", schema, "-t", table, "-d", alter], " \"$@\"" + after))
  {
    hide Word, Words, DoubleQuotable, PlainWord, AlterOption, NameOption;
    CommandIsPlain();
    var tail, after' := ["-d", alter], " \"$@\"" + after;
    var d := " " + AlterOption(alter) + after;
    var t := NameOption('t', table) + d;
    var s := NameOption('s', schema) + t;
    var c := NameOption('c', cluster) + s;
    AlterOptionWords(alter, after);
    NameOptionWords('t', table, d, 2);
    assert Words(t, 4) == Some((["-" + ['t'], table] + tail, after')) by {
      assert ["-" + ['t']] + ([table] + tail) == ["-" + ['t'], table] + tail;
    }
    OptionEnds('t', table);
    NameOptionWords('s', schema, t, 4);
    tail := ["-" + ['t'], table] + tail;
    assert Words(s, 6) == Some((["-" + ['s'], schema] + tail, after')) by {
      assert ["-" + ['s']] + ([schema] + tail) == ["-" + ['s'], schema] + tail;
    }
    OptionEnds('s', schema);
    NameOptionWords('c', cluster, s, 6);
    tail := ["-" + ['s'], schema] + tail;
    assert Words(c, 8) == Some((["-" + ['c'], cluster] + tail, after')) by {
      assert ["-" + ['c']] + ([cluster] + tail) == ["-" + ['c'], cluster] + tail;
    }
    OptionEnds('c', cluster);
    PlainWordKeeps(COMMAND, c);
    NextWord(COMMAND + c, COMMAND, c, 8);
    assert Command(cluster, schema, table, alter) + after == COMMAND + c;
    assert "-" + ['c'] == "-c" && "-" + ['s'] == "-s" && "-" + ['t'] == "-t";
    tail := ["-" + ['c'], cluster] + tail;
    assert [COMMAND] + tail == [COMMAND, "-c", cluster, "-s", schema, "-t", table, "-d", alter];
  }

  lemma OptionEnds(flag: char, name: string)
    ensures NameOption(flag, name) != "" && NameOption(flag, name)[0] == ' '
  {
  }

  lemma CommandIsPlain()
    ensures PlainWord(COMMAND)
  {
  }

  /** The pretty suggestion is two comment lines and the command. */
  lemma CommandIsALine(notes: string, cluster: string, schema: string, table: string, alter: string)
    requires OneLine(notes) && OneLine(cluster) && OneLine(schema) && OneLine(table) && OneLine(alter)
    ensures Beautify(AlterSuggestion(notes, cluster, schema, table, alter))
         == "\n```\n# " + notes + "\n# Run on utility box:\n" + Command(cluster, schema, table, alter) + "\n```\n"
  {
    hide Escape, AlterSuggestion, Head, Command, AlterText, TrimSpace, Collapse;
    var command := Command(cluster, schema, table, alter);
    TrimSuggestion(notes, cluster, schema, table, alter);
    CommandIsOneLine(cluster, schema, table, alter);
    ThreeLines(notes, cluster, schema, table, alter);
    CollapseLine("# Run on utility box:", command);
    CollapseLine("# " + notes, "# Run on utility box:" + ("\n\t\t" + command));
    CollapseKeepsLine(command);
  }

  lemma ThreeLines(notes: string, cluster: string, schema: string, table: string, alter: string)
    ensures AlterText(notes, cluster, schema, table, alter)
         == ("# " + notes)
            + ("\n\t\t" + ("# Run on utility box:" + ("\n\t\t" + Command(cluster, schema, table, alter))))
  {
    hide NameOptions, AlterOption;
  }

  lemma CommandIsOneLine(cluster: string, schema: string, table: string, alter: string)
    requires OneLine(cluster) && OneLine(schema) && OneLine(table) && OneLine(alter)
    ensures var command := Command(cluster, schema, table, alter);
            OneLine(command) && command != "" && command[0] == 'c'
  {
    OptionIsOneLine(alter);
  }

  lemma {:induction false} CollapseLine(line: string, text: string)
    requires OneLine(line) && text != "" && !IsBlank(text[0])
    ensures Collapse(line + ("\n\t\t" + text)) == line + "\n" + Collapse(text)
  {
    var s := line + ("\n\t\t" + text);
    if line == "" {
      assert s[1..] == "\t\t" + text;
      TrimLeftKeeps("\t\t", text, IsBlank);
    } else {
      assert s[1..] == line[1..] + ("\n\t\t" + text);
      CollapseLine(line[1..], text);
      assert line == [line[0]] + line[1..];
    }
  }

  // ---------- commands that run the statement in a shell ----------

  const MYSQL := "mysql"

  function ShellCommand(rwName: string, port: string, schema: string): string {
    MYSQL + NameOption('h', rwName) + NameOption('P', port) + (" \"" + schema + "\"")
  }

  function ShellSuggestion(rwName: string, port: string, schema: string, text: string): string {
    "\n\t\t" + ShellText(ShellCommand(rwName, port, schema), text) + "\n\t"
  }

  /** What stands between the indentation before and after it. */
  function ShellText(command: string, text: string): string {
    "# Run in shell:" + ("\n\t\t" + (command + ("\n" + ("\n\t\t" + text))))
  }

  /** With names that double quotes keep, a shell reads host, port and schema as they were meant. */
  lemma ShellCommandIsRead(rwName: string, port: string, schema: string, after: string)
    requires DoubleQuotable(rwName) && DoubleQuotable(port) && DoubleQuotable(schema) && WordEnds(after)
    ensures Words(ShellCommand(rwName, port, schema) + after, 6)
         == Some(([MYSQL, "-h", rwName, "-P", port, schema], after))
  {
    hide Word, Words, DoubleQuotable, PlainWord, NameOption;
    var quoted := "\"" + schema + ("\"" + after);
    var q := " " + quoted;
    var p := NameOption('P', port) + q;
    var h := NameOption('h', rwName) + p;
    DoubleQuotesKeep(schema, after);
    NextWord(quoted, schema, after, 0);
    NoWords(after);
    assert Words(q, 1) == Some(([schema], after)) by { assert [schema] + [] == [schema]; }
    NameOptionWords('P', port, q, 1);
    assert Words(p, 3) == Some((["-" + ['P'], port, schema], after)) by {
      assert ["-" + ['P']] + ([port] + [schema]) == ["-" + ['P'], port, schema];
    }
    OptionEnds('P', port);
    NameOptionWords('h', rwName, p, 3);
    assert Words(h, 5) == Some((["-" + ['h'], rwName, "-" + ['P'], port, schema], after)) by {
      assert ["-" + ['h']] + ([rwName] + ["-" + ['P'], port, schema])
          == ["-" + ['h'], rwName, "-" + ['P'], port, schema];
    }
    OptionEnds('h', rwName);
    MysqlIsPlain();
    PlainWordKeeps(MYSQL, h);
    NextWord(MYSQL + h, MYSQL, h, 5);
    assert ShellCommand(rwName, port, schema) + after == MYSQL + h;
    assert "-" + ['h'] == "-h" && "-" + ['P'] == "-P";
    assert [MYSQL] + ["-h", rwName, "-P", port, schema] == [MYSQL, "-h", rwName, "-P", port, schema];
  }

  lemma NoWords(s: string)
    ensures Words(s, 0) == Some(([], s))
  {
  }

  lemma MysqlIsPlain()
    ensures PlainWord(MYSQL) && MYSQL != "" && !IsBlank(MYSQL[0])
  {
  }

  /** The pretty suggestion is a comment line, the command, an empty line and the statement. */
  lemma ShellSuggestionIsPretty(rwName: string, port: string, schema: string, text: string)
    requires OneLine(rwName) && OneLine(port) && OneLine(schema)
    requires text != "" && !IsSpace(text[0]) && !IsSpace(text[|text| - 1])
    ensures Beautify(ShellSuggestion(rwName, port, schema, text))
         == "\n```\n" + ("# Run in shell:\n" + ShellCommand(rwName, port, schema) + "\n\n" + Collapse(text)) + "\n```\n"
  {
    hide Collapse, TrimSpace, IsSpace, ShellCommand, ShellText;
    var command := ShellCommand(rwName, port, schema);
    ShellCommandIsOneLine(rwName, port, schema);
    TrimmedShellText(command, text);
    SpaceOrNot(text[0]);
    CollapsedShellText(command, text);
  }

  lemma TrimmedShellText(command: string, text: string)
    requires text != "" && !IsSpace(text[|text| - 1])
    ensures TrimSpace("\n\t\t" + ShellText(command, text) + "\n\t") == ShellText(command, text)
  {
    hide Trim, IsSpace;
    var middle := ShellText(command, text);
    assert middle[0] == '#' && middle[|middle| - 1] == text[|text| - 1];
    SpaceOrNot('#');
    TrimKeeps("\n\t\t", middle, "\n\t", IsSpace);
  }

  lemma CollapsedShellText(command: string, text: string)
    requires OneLine(command) && command != "" && !IsBlank(command[0]) && text != "" && !IsBlank(text[0])
    ensures Collapse(ShellText(command, text)) == "# Run in shell:\n" + command + "\n\n" + Collapse(text)
  {
    hide Collapse;
    CollapseLine("# Run in shell:", command + ("\n" + ("\n\t\t" + text)));
    CollapseBreak(command, "\n\t\t" + text);
    CollapseLine("", text);
    assert "" + ("\n\t\t" + text) == "\n\t\t" + text;
  }

  lemma SpaceOrNot(c: char)
    ensures !IsSpace(c) ==> !IsBlank(c)
    ensures !IsSpace('#') && IsSpace('\n') && IsSpace('\t')
  {
  }

  lemma ShellCommandIsOneLine(rwName: string, port: string, schema: string)
    requires OneLine(rwName) && OneLine(port) && OneLine(schema)
    ensures var command := ShellCommand(rwName, port, schema);
            OneLine(command) && command != "" && !IsBlank(command[0])
  {
  }

  /** A line break stays, and so does what stands before it on its line. */
  lemma {:induction false} CollapseBreak(line: string, rest: string)
    requires OneLine(line) && rest != "" && !IsBlank(rest[0])
    ensures Collapse(line + ("\n" + rest)) == line + "\n" + Collapse(rest)
  {
    var s := line + ("\n" + rest);
    hide IsBlank;
    if line == "" {
      assert s == "\n" + rest && s[1..] == rest;
      assert TrimLeft(rest, IsBlank) == rest;
    } else {
      assert s[0] == line[0] && s[1..] == line[1..] + ("\n" + rest);
      CollapseBreak(line[1..], rest);
      assert line == [line[0]] + line[1..];
    }
  }
}
