/**
 Taking statements apart with regular expressions, and making names of bounded length. A character
 stands for a byte, as lengths and cuts are in bytes.
 */
module Dissect {
  import opened Options
  import opened Text

  const CREATE_TABLE := "CREATE TABLE `"
  const DROP_TABLE := "DROP TABLE `"
  const ALTER_TABLE := "ALTER TABLE `"
  const ALTER_DATABASE := "ALTER DATABASE `"
  const END_NAME := "` "
  const MAX_TABLE_NAME_LENGTH := 64

  /** The text between a keyword and the next backtick, if they are on the same line. */
  function NameBefore(rest: string): Option<string> {
    var end := Find(rest, "`");
    if end.Some? && OneLine(rest[..end.value]) then Some(rest[..end.value]) else None
  }

  /** The quoted name after a keyword, and what follows it up to the end, all of it on one line. */
  function NameAndAlterIn(rest: string): Option<(string, string)> {
    var end := Find(rest, END_NAME);
    if OneLine(rest) && end.Some? && end.value + |END_NAME| < |rest|
    then Some((rest[..end.value], rest[end.value + |END_NAME|..])) else None
  }

  /** The leftmost match of a keyword and a name. */
  function Name(statement: string, keyword: string): Option<string>
    requires keyword != ""
    decreases |statement|
  {
    var at := Find(statement, keyword);
    if at.None? then None else
    var name := NameBefore(statement[at.value + |keyword|..]);
    if name.Some? then name else Name(statement[at.value + 1..], keyword)
  }

  /** The leftmost match of a keyword, a name and the rest of the statement. */
  function NameAndAlter(statement: string, keyword: string): Option<(string, string)>
    requires keyword != ""
    decreases |statement|
  {
    var at := Find(statement, keyword);
    if at.None? then None else
    var parts := NameAndAlterIn(statement[at.value + |keyword|..]);
    if parts.Some? then parts else NameAndAlter(statement[at.value + 1..], keyword)
  }

  function CreateTable(statement: string): Option<string> { Name(statement, CREATE_TABLE) }

  function DropTable(statement: string): Option<string> { Name(statement, DROP_TABLE) }

  function AlterTable(statement: string): Option<(string, string)> { NameAndAlter(statement, ALTER_TABLE) }

  function AlterDatabase(statement: string): Option<(string, string)> { NameAndAlter(statement, ALTER_DATABASE) }

  lemma NameBeforeBacktick(rest: string)
    requires NameBefore(rest).Some?
    ensures var name := NameBefore(rest).value;
            OneLine(name) && '`' !in name && name + "`" <= rest
  {
    hide Find, OneLine;
    var end := Find(rest, "`").value;
    assert rest[end..end + 1] == "`";
    forall i | 0 <= i < end ensures rest[i] != '`' {
      assert !IsAt(rest, "`", i);
      assert rest[i..i + 1] == [rest[i]];
    }
  }

  /** A dissected name has no backtick and no line break, and stands in the statement as it was quoted. */
  lemma {:induction false} NameWasQuoted(statement: string, keyword: string)
    requires keyword != "" && Name(statement, keyword).Some?
    ensures var name := Name(statement, keyword).value;
            OneLine(name) && '`' !in name && Contains(statement, keyword + (name + "`"))
    decreases |statement|
  {
    hide Find, OneLine, NameBefore, Contains;
    var at := Find(statement, keyword).value;
    var rest := statement[at + |keyword|..];
    var quoted := Name(statement, keyword).value + "`";
    if NameBefore(rest).Some? {
      NameBeforeBacktick(rest);
      QuotedAt(statement, at, keyword, quoted);
    } else {
      NameWasQuoted(statement[at + 1..], keyword);
      ContainsLater(statement, at + 1, keyword + quoted);
    }
  }

  lemma QuotedAt(s: string, at: nat, keyword: string, quoted: string)
    requires IsAt(s, keyword, at) && quoted <= s[at + |keyword|..]
    ensures Contains(s, keyword + quoted)
  {
    hide Find;
    assert s[at..at + |keyword + quoted|] == keyword + s[at + |keyword|..][..|quoted|];
    assert IsAt(s, keyword + quoted, at);
  }

  lemma ContainsLater(s: string, from: nat, pattern: string)
    requires from <= |s| && Contains(s[from..], pattern)
    ensures Contains(s, pattern)
  {
    hide Find;
    var at := Find(s[from..], pattern).value;
    assert s[from..][at..at + |pattern|] == s[from + at..from + at + |pattern|];
    assert IsAt(s, pattern, from + at);
  }

  lemma AlterInRest(rest: string)
    requires NameAndAlterIn(rest).Some?
    ensures var (name, alter) := NameAndAlterIn(rest).value;
            OneLine(name) && OneLine(alter) && alter != "" && rest == name + (END_NAME + alter)
  {
    hide Find;
    var end := Find(rest, END_NAME).value;
    assert rest == rest[..end] + rest[end..end + |END_NAME|] + rest[end + |END_NAME|..];
  }

  /** A dissected ALTER ends the statement, is not empty, and has no line break. */
  lemma {:induction false} AlterIsOneLine(statement: string, keyword: string)
    requires keyword != "" && NameAndAlter(statement, keyword).Some?
    ensures var (name, alter) := NameAndAlter(statement, keyword).value;
            OneLine(name) && OneLine(alter) && alter != "" && HasSuffix(statement, name + (END_NAME + alter))
    decreases |statement|
  {
    hide Find, OneLine, NameAndAlterIn, HasSuffix;
    var at := Find(statement, keyword).value;
    var rest := statement[at + |keyword|..];
    var (name, alter) := NameAndAlter(statement, keyword).value;
    if NameAndAlterIn(rest).Some? {
      AlterInRest(rest);
      WholeIsSuffix(rest);
      SuffixOfTail(statement, at + |keyword|, rest);
    } else {
      AlterIsOneLine(statement[at + 1..], keyword);
      SuffixOfTail(statement, at + 1, name + (END_NAME + alter));
    }
  }

  lemma WholeIsSuffix(s: string)
    ensures HasSuffix(s, s)
  {
  }

  /** Name finds the leftmost place where a keyword has a quoted name on its line, if there is one. */
  lemma {:induction false} NameIsLeftmost(statement: string, keyword: string)
    requires keyword != ""
    ensures Name(statement, keyword).None? ==>
              forall i: nat :: IsAt(statement, keyword, i) ==> NameBefore(statement[i + |keyword|..]).None?
    ensures Name(statement, keyword).Some? ==>
              exists i: nat :: IsAt(statement, keyword, i)
                && NameBefore(statement[i + |keyword|..]) == Name(statement, keyword)
                && forall j: nat :: j < i && IsAt(statement, keyword, j) ==>
                     NameBefore(statement[j + |keyword|..]).None?
    decreases |statement|
  {
    hide Find, NameBefore;
    var at := Find(statement, keyword);
    if at.Some? && NameBefore(statement[at.value + |keyword|..]).None? {
      var n := at.value + 1;
      var later := statement[n..];
      NameIsLeftmost(later, keyword);
      forall i: nat | IsAt(statement, keyword, i) && i >= n
        ensures IsAt(later, keyword, i - n) && later[i - n + |keyword|..] == statement[i + |keyword|..]
      {
        LaterPlace(statement, keyword, n, i);
      }
      if Name(later, keyword).Some? {
        var k: nat :| IsAt(later, keyword, k) && NameBefore(later[k + |keyword|..]) == Name(later, keyword)
          && forall j: nat :: j < k && IsAt(later, keyword, j) ==> NameBefore(later[j + |keyword|..]).None?;
        EarlierPlace(statement, keyword, n, k);
        assert IsAt(statement, keyword, n + k);
      }
    }
  }

  lemma LaterPlace(s: string, p: string, n: nat, i: nat)
    requires IsAt(s, p, i) && n <= i
    ensures IsAt(s[n..], p, i - n) && s[n..][i - n + |p|..] == s[i + |p|..]
  {
    assert s[n..][i - n..i - n + |p|] == s[i..i + |p|];
  }

  lemma EarlierPlace(s: string, p: string, n: nat, k: nat)
    requires n <= |s| && IsAt(s[n..], p, k)
    ensures IsAt(s, p, n + k) && s[n..][k + |p|..] == s[n + k + |p|..]
  {
    assert s[n..][k..k + |p|] == s[n + k..n + k + |p|];
  }

  /** So does NameAndAlter, for a name and a rest of the statement on one line. */
  lemma {:induction false} NameAndAlterIsLeftmost(statement: string, keyword: string)
    requires keyword != ""
    ensures NameAndAlter(statement, keyword).None? ==>
              forall i: nat :: IsAt(statement, keyword, i) ==> NameAndAlterIn(statement[i + |keyword|..]).None?
    ensures NameAndAlter(statement, keyword).Some? ==>
              exists i: nat :: IsAt(statement, keyword, i)
                && NameAndAlterIn(statement[i + |keyword|..]) == NameAndAlter(statement, keyword)
                && forall j: nat :: j < i && IsAt(statement, keyword, j) ==>
                     NameAndAlterIn(statement[j + |keyword|..]).None?
    decreases |statement|
  {
    hide Find, NameAndAlterIn;
    var at := Find(statement, keyword);
    if at.Some? && NameAndAlterIn(statement[at.value + |keyword|..]).None? {
      var n := at.value + 1;
      var later := statement[n..];
      NameAndAlterIsLeftmost(later, keyword);
      forall i: nat | IsAt(statement, keyword, i) && i >= n
        ensures IsAt(later, keyword, i - n) && later[i - n + |keyword|..] == statement[i + |keyword|..]
      {
        LaterPlace(statement, keyword, n, i);
      }
      if NameAndAlter(later, keyword).Some? {
        var k: nat :| IsAt(later, keyword, k) && NameAndAlterIn(later[k + |keyword|..]) == NameAndAlter(later, keyword)
          && forall j: nat :: j < k && IsAt(later, keyword, j) ==> NameAndAlterIn(later[j + |keyword|..]).None?;
        EarlierPlace(statement, keyword, n, k);
        assert IsAt(statement, keyword, n + k);
      }
    }
  }

  lemma SuffixOfTail(s: string, from: nat, suffix: string)
    requires from <= |s| && HasSuffix(s[from..], suffix)
    ensures HasSuffix(s, suffix)
  {
    assert s[|s| - |suffix|..] == s[from..][|s| - from - |suffix|..];
  }

  /** A quoted name comes back if it has no backtick and no line break of its own. */
  lemma QuotedNameIsFound(keyword: string, name: string, rest: string)
    requires keyword != "" && OneLine(name) && '`' !in name
    ensures Name(keyword + name + ("`" + rest), keyword) == Some(name)
  {
    var statement := keyword + name + ("`" + rest);
    assert IsAt(statement, keyword, 0);
    assert statement[|keyword|..] == name + ("`" + rest);
    FoundBehind(name, "`" + rest, "`");
    hide Find;
    assert (name + ("`" + rest))[..|name|] == name;
  }

  /** So do a quoted name and an ALTER of one line. */
  lemma QuotedAlterIsFound(keyword: string, name: string, alter: string)
    requires keyword != "" && OneLine(name) && '`' !in name && OneLine(alter) && alter != ""
    ensures NameAndAlter(keyword + name + (END_NAME + alter), keyword) == Some((name, alter))
  {
    var statement, rest := keyword + name + (END_NAME + alter), name + (END_NAME + alter);
    assert IsAt(statement, keyword, 0);
    assert statement[|keyword|..] == rest;
    hide Find;
    FoundBehind(name, END_NAME + alter, END_NAME);
    assert rest[..|name|] == name && rest[|name| + |END_NAME|..] == alter;
    assert OneLine(END_NAME);
  }

  // ---------- names of bounded length ----------

  /** The base name, cut only as far as the suffix needs; for a suffix that leaves no room the code panics. */
  function GetSafeTableNameWithSuffix(baseName: string, suffix: string): (name: string)
    requires |suffix| < MAX_TABLE_NAME_LENGTH
    ensures HasSuffix(name, "_" + suffix)
    ensures name[..|name| - |suffix| - 1] <= baseName
    ensures |name| == (var whole := |baseName| + 1 + |suffix|;
                       if whole <= MAX_TABLE_NAME_LENGTH then whole else MAX_TABLE_NAME_LENGTH)
  {
    var name := baseName + ("_" + suffix);
    if |name| <= MAX_TABLE_NAME_LENGTH then name else
    var extraCharacters := |name| - MAX_TABLE_NAME_LENGTH;
    baseName[..|baseName| - extraCharacters] + ("_" + suffix)
  }
}
