/** The magic comment: how the Action writes it, and how it is parsed. */
module SkeemaDiff {
  import opened Options
  import opened Text

  const MAGIC := "<!-- skeema:magic:comment -->"
  const OLD_MAGIC := "<!-- skeema:diff -->"
  const DIFF := "\n-- skeema:diff"
  const FILE := "\n-- skeema:diff:file "
  const USE := "\n-- skeema:ddl:use "
  const BEGIN := "\n-- skeema:ddl:begin"
  const END := "\n-- skeema:ddl:end"

  datatype SkeemaDiffInfo = SkeemaDiffInfo(statements: seq<string>, fileName: string, schemaName: string)

  // ---------- parsing ----------

  /** What stands between the first `prefix` and the next line break. */
  function FirstLineAfter(text: string, prefix: string): Option<string> {
    var at := Find(text, prefix);
    if at.None? then None else
    var rest := text[at.value + |prefix|..];
    var end := Find(rest, "\n");
    if end.None? then None else Some(rest[..end.value])
  }

  /** What stands between begin and end markers: shortest matches, left to right, without overlap. */
  function Blocks(text: string): seq<string>
    decreases |text|
  {
    var at := Find(text, BEGIN);
    if at.None? then [] else
    var rest := text[at.value + |BEGIN|..];
    var end := Find(rest, END);
    if end.None? then [] else
    [rest[..end.value]] + Blocks(rest[end.value + |END|..])
  }

  function TrimAll(blocks: seq<string>): seq<string> {
    if blocks == [] then [] else [TrimSpace(blocks[0])] + TrimAll(blocks[1..])
  }

  function CleanSchema(schema: string): string {
    var name := Trim(TrimSpace(Trim(TrimSpace(schema), IsSemicolon)), IsBacktick);
    var tokens := Split(name, ":");
    tokens[|tokens| - 1]
  }

  /** The text after the last magic comment, if there is one. */
  function DiffClause(body: string): Option<string> {
    var tokens := Split(body, MAGIC);
    if |tokens| >= 2 then Some(tokens[|tokens| - 1]) else
    var older := Split(body, OLD_MAGIC);
    if |older| >= 2 then Some(older[|older| - 1]) else None
  }

  function ParseClause(clause: string): SkeemaDiffInfo {
    var file, use := FirstLineAfter(clause, FILE), FirstLineAfter(clause, USE);
    SkeemaDiffInfo(TrimAll(Blocks(clause)),
                   if file.None? then "" else TrimSpace(file.value),
                   if use.None? then "" else CleanSchema(use.value))
  }

  function Parse(body: string): SkeemaDiffInfo {
    var clause := DiffClause(body);
    if clause.None? then SkeemaDiffInfo([], "", "") else ParseClause(clause.value)
  }

  method ParseSkeemaDiffStatements(body: string) returns (info: SkeemaDiffInfo)
    ensures info == Parse(body)
  {
    hide DiffClause, FirstLineAfter, CleanSchema, Blocks, TrimSpace;
    info := SkeemaDiffInfo([], "", "");
    var clause := DiffClause(body);
    if clause.None? {
      return;
    }
    var file := FirstLineAfter(clause.value, FILE);
    if file.Some? {
      info := info.(fileName := TrimSpace(file.value));
    }
    var use := FirstLineAfter(clause.value, USE);
    if use.Some? {
      info := info.(schemaName := CleanSchema(use.value));
    }
    var blocks := Blocks(clause.value);
    assert TrimAll(blocks[..0]) == [];
    for i := 0 to |blocks|
      invariant info.statements == TrimAll(blocks[..i])
      invariant info.fileName == if file.None? then "" else TrimSpace(file.value)
      invariant info.schemaName == if use.None? then "" else CleanSchema(use.value)
    {
      TrimAllAppend(blocks[..i], blocks[i]);
      assert blocks[..i + 1] == blocks[..i] + [blocks[i]];
      info := info.(statements := info.statements + [TrimSpace(blocks[i])]);
    }
    assert blocks[..|blocks|] == blocks;
  }

  lemma {:induction false} TrimAllAppend(blocks: seq<string>, block: string)
    ensures TrimAll(blocks + [block]) == TrimAll(blocks) + [TrimSpace(block)]
  {
    if blocks != [] {
      assert (blocks + [block])[1..] == blocks[1..] + [block];
      TrimAllAppend(blocks[1..], block);
    }
  }

  // ---------- printing ----------

  /** The diff file's statements, as they follow each other in the comment. */
  function PrintBlocks(statements: seq<string>): string {
    if statements == [] then ""
    else BEGIN + ("\n" + statements[0]) + (END + PrintBlocks(statements[1..]))
  }

  function UseLine(schema: string): string { USE + "`" + schema + "`;" }

  /** The comment body the Action writes. */
  function Print(schema: string, statements: seq<string>): string {
    MAGIC + (DIFF + UseLine(schema) + PrintBlocks(statements))
  }

  /** A trimmed statement that cannot be cut short by an end marker of its own. */
  predicate Delimited(statement: string) {
    TrimSpace(statement) == statement && !Contains("\n" + statement, END)
  }

  /** No spaces, and none of the characters that quote, end or qualify a schema name. */
  predicate PlainName(schema: string) {
    forall c :: c in schema ==> !IsSpace(c) && c != '`' && c != ';' && c != ':'
  }

  // ---------- parsing inverts printing ----------

  lemma FirstBlock(x: string, first: string, after: string)
    requires !Contains(x, BEGIN) && StartsLine(first) && !Contains(first, END)
    ensures Blocks(x + (BEGIN + first + (END + after))) == [first] + Blocks(after)
  {
    hide Find, Contains;
    var printed := BEGIN + first + (END + after);
    var text := x + printed;
    assert IsAt(printed, BEGIN, 0) && IsAt(END + after, END, 0);
    FindAfter(x, printed, BEGIN);
    var rest := text[|x| + |BEGIN|..];
    assert rest == first + (END + after);
    FindAfter(first, END + after, END);
    assert rest[..|first|] == first && rest[|first| + |END|..] == after;
  }

  lemma CutBlock(x: string, first: string, after: string)
    requires !Contains(x, BEGIN) && StartsLine(first) && Contains(first, END)
    ensures var blocks := Blocks(x + (BEGIN + first + (END + after)));
            blocks != [] && |blocks[0]| + |END| <= |first|
  {
    hide Find;
    var printed := BEGIN + first + (END + after);
    var text := x + printed;
    assert IsAt(printed, BEGIN, 0);
    FindAfter(x, printed, BEGIN);
    var rest := text[|x| + |BEGIN|..];
    assert rest == first + (END + after);
    FindInPrefix(first, END + after, END);
  }

  lemma {:induction false} BlocksOfPrinted(x: string, statements: seq<string>)
    requires forall i :: 0 <= i < |statements| ==> Delimited(statements[i])
    requires !Contains(x, BEGIN)
    ensures TrimAll(Blocks(x + PrintBlocks(statements))) == statements
    decreases |statements|
  {
    hide Find, TrimSpace, IsAt;
    if statements == [] {
      assert x + PrintBlocks([]) == x;
    } else {
      hide Contains, Blocks, TrimAll;
      var first, after := "\n" + statements[0], PrintBlocks(statements[1..]);
      FirstBlock(x, first, after);
      TrimSpaceDropsNewline(statements[0]);
      EmptyContainsNot(BEGIN);
      BlocksOfPrinted("", statements[1..]);
      assert "" + after == after;
      TrimAllPrepend(first, Blocks(after));
    }
  }

  lemma {:induction false} OnlyDelimitedComeBack(x: string, statements: seq<string>)
    requires TrimAll(Blocks(x + PrintBlocks(statements))) == statements
    requires !Contains(x, BEGIN)
    ensures forall i :: 0 <= i < |statements| ==> Delimited(statements[i])
    decreases |statements|
  {
    hide Find, TrimSpace, Contains, Blocks;
    if statements != [] {
      var first, after := "\n" + statements[0], PrintBlocks(statements[1..]);
      if Contains(first, END) {
        CutBlock(x, first, after);
        TrimSpaceShortens(Blocks(x + PrintBlocks(statements))[0]);
      } else {
        FirstBlock(x, first, after);
        TrimSpaceDropsNewline(statements[0]);
        EmptyContainsNot(BEGIN);
        assert "" + after == after;
        TrimAllPrepend(first, Blocks(after));
        OnlyDelimitedComeBack("", statements[1..]);
        assert forall i :: 0 < i < |statements| ==> statements[i] == statements[1..][i - 1];
      }
    }
  }

  lemma TrimAllPrepend(block: string, blocks: seq<string>)
    ensures TrimAll([block] + blocks) == [TrimSpace(block)] + TrimAll(blocks)
  {
    assert ([block] + blocks)[1..] == blocks;
  }

  lemma EmptyContainsNot(p: string)
    requires p != ""
    ensures !Contains("", p)
  {
  }

  lemma TrimSpaceDropsNewline(s: string)
    ensures TrimSpace("\n" + s) == TrimSpace(s)
  {
    assert ("\n" + s)[1..] == s;
  }

  lemma TrimSpaceShortens(s: string)
    ensures |TrimSpace(s)| <= |s|
  {
    TrimShortens(s, IsSpace);
    TrimShortens(TrimLeft(s, IsSpace), IsSpace);
  }

  /** Every marker is shorter than the magic comment. */
  lemma NoMagicInMarkers()
    ensures !Contains(BEGIN, MAGIC) && !Contains(END, MAGIC) && !Contains(DIFF, MAGIC)
  {
    hide Find;
    assert |BEGIN| < |MAGIC| && |END| < |MAGIC| && |DIFF| < |MAGIC|;
  }

  lemma {:induction false} NoMagicInBlocks(statements: seq<string>)
    requires forall i :: 0 <= i < |statements| ==> !Contains(statements[i], MAGIC)
    ensures !Contains(PrintBlocks(statements), MAGIC)
  {
    hide Find, Contains, LinePattern;
    if statements == [] {
      EmptyContainsNot(MAGIC);
    } else {
      MarkersAreLinePatterns();
      NoMagicInBlocks(statements[1..]);
      NoMagicInMarkers();
      NotPrepended(statements[0], '\n', MAGIC);
      ContainsInPart(END, PrintBlocks(statements[1..]), MAGIC);
      ContainsInPart(BEGIN, "\n" + statements[0], MAGIC);
      ContainsInPart(BEGIN + ("\n" + statements[0]), END + PrintBlocks(statements[1..]), MAGIC);
    }
  }

  lemma UseLineIsOneLine(schema: string)
    requires PlainName(schema)
    ensures OneLine(UseLine(schema)[1..])
    ensures forall i :: |USE| <= i < |UseLine(schema)| ==> UseLine(schema)[i] != ' '
  {
    var line, rest := UseLine(schema), "`" + schema + "`;";
    assert line == USE + rest;
    assert '\n' !in USE[1..] && '\n' !in rest && ' ' !in rest by {
      assert rest == ("`" + schema) + "`;";
      assert forall c :: c in "`" ==> c == '`';
      assert forall c :: c in "`;" ==> c == '`' || c == ';';
    }
    assert line[1..] == USE[1..] + rest;
  }

  lemma NoMagicInLine(line: string)
    requires USE <= line && forall i :: |USE| <= i < |line| ==> line[i] != ' '
    ensures !Contains(line, MAGIC)
  {
    hide Contains;
    forall i | 0 <= i && i + |MAGIC| <= |line| ensures line[i] != MAGIC[0] || line[i + 4] != MAGIC[4] {
      assert i < |USE| ==> line[i] == USE[i] != '<';
    }
    NotSpread(line, MAGIC, 4);
  }

  /** The line that names the schema holds none of the markers searched for beyond it. */
  lemma UseLineIsClean(schema: string)
    requires PlainName(schema)
    ensures !Contains(UseLine(schema), MAGIC) && !Contains(UseLine(schema), BEGIN)
    ensures !Contains(DIFF, BEGIN) && !Contains(DIFF, USE) && StartsLine(UseLine(schema))
  {
    hide Find, PlainName, IsSpace;
    var line := UseLine(schema);
    UseLineIsOneLine(schema);
    NotAtStart(line, BEGIN, 15);
    NotInLine(line, BEGIN);
    NotAtStart(DIFF, BEGIN, 12);
    NotInLine(DIFF, BEGIN);
    NotAtStart(DIFF, USE, 12);
    NotInLine(DIFF, USE);
    NoMagicInLine(line);
  }

  /** The parser looks at exactly what follows the magic comment. */
  lemma ClauseOfPrinted(schema: string, statements: seq<string>)
    requires PlainName(schema)
    requires forall i :: 0 <= i < |statements| ==> !Contains(statements[i], MAGIC)
    ensures DiffClause(Print(schema, statements)) == Some(DIFF + UseLine(schema) + PrintBlocks(statements))
    ensures !Contains(DIFF + UseLine(schema), BEGIN)
  {
    hide Find, Contains, PlainName, PrintBlocks, DiffClause, LinePattern, StartsLine;
    var line, blocks := UseLine(schema), PrintBlocks(statements);
    UseLineIsClean(schema);
    NoMagicInMarkers();
    NoMagicInBlocks(statements);
    PrintedStartsLine(statements);
    MarkersAreLinePatterns();
    ContainsInPart(DIFF, line, MAGIC);
    ContainsInPart(DIFF + line, blocks, MAGIC);
    ContainsInPart(DIFF, line, BEGIN);
    LastClause(DIFF + line + blocks);
  }

  lemma MarkersAreLinePatterns()
    ensures LinePattern(MAGIC) && LinePattern(BEGIN)
  {
  }

  lemma LastClause(rest: string)
    requires !Contains(rest, MAGIC)
    ensures DiffClause(MAGIC + rest) == Some(rest)
  {
    hide DiffClause;
    LastMagicCommentCounts("", rest);
    assert "" + MAGIC + rest == MAGIC + rest;
  }

  lemma MarkersAreUnbordered()
    ensures Unbordered(MAGIC) && Unbordered(OLD_MAGIC)
  {
  }

  /** Of several magic comments the last one counts. */
  lemma LastMagicCommentCounts(before: string, rest: string)
    requires !Contains(rest, MAGIC)
    ensures DiffClause(before + MAGIC + rest) == Some(rest)
  {
    hide Contains, Split, Unbordered;
    MarkersAreUnbordered();
    LastToken(before, MAGIC, rest);
  }

  /** The old marker counts where there is no magic comment; again the last one. */
  lemma OldMarkerCounts(before: string, rest: string)
    requires !Contains(before + OLD_MAGIC + rest, MAGIC) && !Contains(rest, OLD_MAGIC)
    ensures DiffClause(before + OLD_MAGIC + rest) == Some(rest)
  {
    hide Find, Unbordered;
    var body := before + OLD_MAGIC + rest;
    MarkersAreUnbordered();
    LastToken(before, OLD_MAGIC, rest);
    assert Split(body, MAGIC) == [body];
  }

  /** Without either marker nothing is read. */
  lemma NothingWithoutMarker(body: string)
    requires !Contains(body, MAGIC) && !Contains(body, OLD_MAGIC)
    ensures Parse(body) == SkeemaDiffInfo([], "", "")
  {
    hide Find;
    assert Split(body, MAGIC) == [body] && Split(body, OLD_MAGIC) == [body];
  }

  lemma PrintedStartsLine(statements: seq<string>)
    ensures StartsLine(PrintBlocks(statements))
    ensures statements != [] ==> PrintBlocks(statements) != ""
  {
  }

  /** The first line with a prefix is read up to its end. */
  lemma LineIsRead(x: string, prefix: string, line: string, after: string)
    requires prefix != "" && prefix[0] == '\n' && LinePattern(prefix) && !Contains(x, prefix)
    requires !Contains(line, "\n") && after != "" && StartsLine(after)
    ensures FirstLineAfter(x + (prefix + line + after), prefix) == Some(line)
  {
    hide Find, LinePattern;
    var text := x + (prefix + line + after);
    assert (prefix + line + after)[..|prefix|] == prefix;
    assert IsAt(prefix + line + after, prefix, 0);
    FindAfter(x, prefix + line + after, prefix);
    assert text[|x| + |prefix|..] == line + after;
    BreakIsAPattern();
    assert IsAt(after, "\n", 0);
    FindAfter(line, after, "\n");
    assert (line + after)[..|line|] == line;
  }

  lemma BreakIsAPattern()
    ensures LinePattern("\n")
  {
  }

  lemma NoLineIsRead(text: string, prefix: string)
    requires !Contains(text, prefix)
    ensures FirstLineAfter(text, prefix).None?
  {
    hide Find;
  }

  lemma SchemaOfPrinted(schema: string, blocks: string)
    requires PlainName(schema) && blocks != "" && StartsLine(blocks)
    ensures FirstLineAfter(DIFF + UseLine(schema) + blocks, USE) == Some("`" + schema + "`;")
  {
    hide FirstLineAfter, Contains, PlainName, LinePattern, StartsLine;
    var name := "`" + schema + "`;";
    UseLineIsClean(schema);
    NameIsOneLine(schema);
    PrefixesAreLinePatterns();
    LineIsRead(DIFF, USE, name, blocks);
    assert DIFF + UseLine(schema) + blocks == DIFF + (USE + name + blocks);
  }

  lemma PrefixesAreLinePatterns()
    ensures LinePattern(USE) && LinePattern(FILE) && USE[0] == '\n' == FILE[0]
  {
  }

  lemma NameIsOneLine(schema: string)
    requires PlainName(schema)
    ensures !Contains("`" + schema + "`;", "\n")
  {
    hide Contains;
    UseLineIsOneLine(schema);
    var name, line := "`" + schema + "`;", UseLine(schema)[1..];
    assert line == USE[1..] + name;
    forall i | 0 <= i < |name| ensures name[i] != '\n' {
      assert name[i] == line[|USE| - 1 + i];
    }
    NotSpread(name, "\n", 0);
  }

  lemma CleanSchemaOfPrinted(schema: string)
    requires PlainName(schema)
    ensures CleanSchema("`" + schema + "`;") == schema
  {
    hide Find, Trim;
    var quoted := "`" + schema + "`";
    assert "`" + schema + "`;" == quoted + ";";
    assert "" + (quoted + ";") + "" == quoted + ";" && "" + quoted + ";" == quoted + ";" && "" + quoted + "" == quoted;
    TrimKeeps("", quoted + ";", "", IsSpace);
    TrimKeeps("", quoted, ";", IsSemicolon);
    TrimKeeps("", quoted, "", IsSpace);
    TrimKeeps("`", schema, "`", IsBacktick);
    assert Trim(TrimSpace(Trim(TrimSpace(quoted + ";"), IsSemicolon)), IsBacktick) == schema;
    forall i | 0 <= i < |schema| ensures schema[i] != ':' {
      assert schema[i] in schema;
    }
    NotSpread(schema, ":", 0);
  }

  lemma NoSchemaWithoutBlocks(schema: string)
    requires PlainName(schema)
    ensures FirstLineAfter(DIFF + UseLine(schema) + PrintBlocks([]), USE).None?
  {
    hide Find, PlainName;
    var name := "`" + schema + "`;";
    UseLineIsClean(schema);
    NameIsOneLine(schema);
    var text := DIFF + UseLine(schema) + PrintBlocks([]);
    assert text == DIFF + (USE + name);
    assert IsAt(USE + name, USE, 0);
    FindAfter(DIFF, USE + name, USE);
    assert text[|DIFF| + |USE|..] == name;
  }

  /**
   * The statements and the schema name that the Action printed come back, in order: exactly if
   * no statement holds an end marker, or blanks at its ends.
   */
  lemma ParseInvertsPrint(schema: string, statements: seq<string>)
    requires PlainName(schema)
    requires forall i :: 0 <= i < |statements| ==> !Contains(statements[i], MAGIC)
    ensures (Parse(Print(schema, statements)).statements == statements
            <==> forall i :: 0 <= i < |statements| ==> Delimited(statements[i]))
    ensures Parse(Print(schema, statements)).schemaName == if statements == [] then "" else schema
  {
    hide Find, Contains, PlainName, Delimited, PrintBlocks, TrimAll, CleanSchema, DiffClause, FirstLineAfter, Blocks;
    var x, blocks := DIFF + UseLine(schema), PrintBlocks(statements);
    ClauseOfPrinted(schema, statements);
    if Parse(Print(schema, statements)).statements == statements {
      OnlyDelimitedComeBack(x, statements);
    }
    if forall i :: 0 <= i < |statements| ==> Delimited(statements[i]) {
      BlocksOfPrinted(x, statements);
    }
    PrintedStartsLine(statements);
    CleanSchemaOfPrinted(schema);
    if statements == [] {
      NoSchemaWithoutBlocks(schema);
    } else {
      SchemaOfPrinted(schema, blocks);
    }
  }

  // ---------- other comments than the Action's ----------

  /** Trimming takes what is to be cut off both ends, up to the colon on the left. */
  lemma TrimQualified(q: string, tail: string, end: string, cut: char -> bool)
    requires !cut(':') && (tail == "" || !cut(tail[|tail| - 1])) && forall c :: c in end ==> cut(c)
    ensures Trim(q + (":" + tail + end), cut) == TrimLeft(q, cut) + (":" + tail)
  {
    hide TrimLeft, TrimRight;
    TrimLeftAppend(q, ":" + tail + end, cut);
    var kept := TrimLeft(q, cut) + (":" + tail);
    assert TrimLeft(q, cut) + (":" + tail + end) == kept + end;
    TrimRightKeeps(kept, end, cut);
  }

  /** Of a qualified name, quoted or not and with or without semicolons, what follows the last colon is the schema. */
  lemma QualifiedNameIsCleaned(q: string, schema: string, ticks: string, semicolons: string)
    requires PlainName(schema)
    requires (forall c :: c in ticks ==> c == '`') && forall c :: c in semicolons ==> c == ';'
    ensures CleanSchema(q + ":" + schema + ticks + semicolons) == schema
  {
    hide Find, Trim, TrimLeft, IsSpace, Split;
    var quoted := schema + ticks;
    SpacesAreOther();
    assert forall c :: c in quoted + semicolons ==> !IsSpace(c);
    assert q + ":" + schema + ticks + semicolons == q + (":" + (quoted + semicolons) + "");
    TrimQualified(q, quoted + semicolons, "", IsSpace);
    var q1 := TrimLeft(q, IsSpace);
    assert q1 + (":" + (quoted + semicolons)) == q1 + (":" + quoted + semicolons);
    assert forall c :: c in quoted ==> c != ';';
    assert quoted != "" ==> quoted[|quoted| - 1] in quoted;
    assert schema != "" ==> schema[|schema| - 1] in schema;
    TrimQualified(q1, quoted, semicolons, IsSemicolon);
    var q2 := TrimLeft(q1, IsSemicolon);
    assert q2 + (":" + quoted) == q2 + (":" + quoted + "");
    TrimQualified(q2, quoted, "", IsSpace);
    var q3 := TrimLeft(q2, IsSpace);
    assert q3 + (":" + quoted) == q3 + (":" + schema + ticks);
    TrimQualified(q3, schema, ticks, IsBacktick);
    var q4 := TrimLeft(q3, IsBacktick);
    assert q4 + (":" + schema) == q4 + ":" + schema;
    forall i | 0 <= i < |schema| ensures schema[i] != ':' {
      assert schema[i] in schema;
    }
    NotSpread(schema, ":", 0);
    LastToken(q4, ":", schema);
  }

  lemma SpacesAreOther()
    ensures !IsSpace(':') && !IsSpace('`') && !IsSpace(';')
  {
  }

  /**
   A comment with a qualified schema name, such as `skeema:my_schema;`: whatever the qualifier, the
   schema is what follows it.
   */
  lemma QualifiedSchemaIsRead(before: string, x: string, q: string, schema: string, ticks: string, semicolons: string,
                              after: string)
    requires PlainName(schema) && OneLine(q) && !Contains(x, USE) && after != "" && StartsLine(after)
    requires (forall c :: c in ticks ==> c == '`') && forall c :: c in semicolons ==> c == ';'
    requires !Contains(x + (USE + (q + ":" + schema + ticks + semicolons) + after), MAGIC)
    ensures Parse(before + MAGIC + (x + (USE + (q + ":" + schema + ticks + semicolons) + after))).schemaName == schema
  {
    hide Contains, DiffClause, FirstLineAfter, CleanSchema, LinePattern, StartsLine, Blocks, TrimAll;
    var name := q + ":" + schema + ticks + semicolons;
    LastMagicCommentCounts(before, x + (USE + name + after));
    QualifiedIsOneLine(q, schema, ticks, semicolons);
    PrefixesAreLinePatterns();
    LineIsRead(x, USE, name, after);
    QualifiedNameIsCleaned(q, schema, ticks, semicolons);
  }

  lemma QualifiedIsOneLine(q: string, schema: string, ticks: string, semicolons: string)
    requires PlainName(schema) && OneLine(q)
    requires (forall c :: c in ticks ==> c == '`') && forall c :: c in semicolons ==> c == ';'
    ensures !Contains(q + ":" + schema + ticks + semicolons, "\n")
  {
    hide Contains;
    var name := q + ":" + schema + ticks + semicolons;
    assert IsSpace('\n');
    assert '\n' !in name;
    forall i | 0 <= i < |name| ensures name[i] != '\n' {
      assert name[i] in name;
    }
    NotSpread(name, "\n", 0);
  }

  /** The file named in a comment is read, without blanks around it; where none is named there is none. */
  lemma FileIsRead(before: string, x: string, file: string, after: string)
    requires !Contains(x, FILE) && OneLine(file) && after != "" && StartsLine(after)
    requires !Contains(x + (FILE + file + after), MAGIC)
    ensures Parse(before + MAGIC + (x + (FILE + file + after))).fileName == TrimSpace(file)
  {
    hide Contains, DiffClause, FirstLineAfter, CleanSchema, LinePattern, StartsLine, Blocks, TrimAll, TrimSpace;
    LastMagicCommentCounts(before, x + (FILE + file + after));
    forall i | 0 <= i < |file| ensures file[i] != '\n' {
      assert file[i] in file;
    }
    NotSpread(file, "\n", 0);
    PrefixesAreLinePatterns();
    LineIsRead(x, FILE, file, after);
  }

  lemma NoFileIsRead(before: string, clause: string)
    requires !Contains(clause, FILE) && !Contains(clause, MAGIC)
    ensures Parse(before + MAGIC + clause).fileName == ""
  {
    hide Contains, DiffClause, FirstLineAfter, CleanSchema, Blocks, TrimAll;
    LastMagicCommentCounts(before, clause);
    NoLineIsRead(clause, FILE);
  }
}
