/**
 * How a POSIX shell reads one word of a command: sections 2.2.1 (escape character), 2.2.2 (single
 * quotes) and 2.2.3 (double quotes) of the Shell Command Language, IEEE Std 1003.1.
 */
module Shell {
  import opened Options
  import opened Text

  predicate IsBlank(c: char) { c == ' ' || c == '\t' }

  /** What may stand behind a word that has ended. */
  predicate WordEnds(s: string) { s == "" || IsBlank(s[0]) || s[0] == '\n' }

  /** Unquoted, these are operators, expansions, patterns or assignments: more than a word. */
  predicate IsSpecial(c: char) { c in "|&;<>()$`*?[#~=%" }

  /** After a backslash in double quotes, these lose their meaning and the backslash disappears. */
  predicate IsEscapable(c: char) { c == '$' || c == '`' || c == '"' || c == '\\' }

  function Prepend(c: char, r: Option<(string, string)>): Option<(string, string)> {
    if r.None? then None else Some(([c] + r.value.0, r.value.1))
  }

  /** The word at the start of `s`, and what follows it. None: more than a word, or not closed. */
  function Word(s: string): Option<(string, string)>
    decreases |s|
  {
    if WordEnds(s) then Some(("", s))
    else if s[0] == '\'' then Single(s[1..])
    else if s[0] == '"' then Double(s[1..])
    else if s[0] == '\\' then
      if |s| == 1 then None
      else if s[1] == '\n' then Word(s[2..])
      else Prepend(s[1], Word(s[2..]))
    else if IsSpecial(s[0]) then None
    else Prepend(s[0], Word(s[1..]))
  }

  /** The same, inside single quotes: every character stands for itself. */
  function Single(s: string): Option<(string, string)>
    decreases |s|
  {
    if s == "" then None
    else if s[0] == '\'' then Word(s[1..])
    else Prepend(s[0], Single(s[1..]))
  }

  /** The same, inside double quotes. */
  function Double(s: string): Option<(string, string)>
    decreases |s|
  {
    if s == "" || s[0] == '$' || s[0] == '`' then None
    else if s[0] == '"' then Word(s[1..])
    else if s[0] == '\\' && |s| > 1 && IsEscapable(s[1]) then Prepend(s[1], Double(s[2..]))
    else if s[0] == '\\' && |s| > 1 && s[1] == '\n' then Double(s[2..])
    else Prepend(s[0], Double(s[1..]))
  }

  /** The first `count` words of a command, and what follows them. */
  function Words(s: string, count: nat): Option<(seq<string>, string)>
    decreases count
  {
    if count == 0 then Some(([], s)) else
    var word := Word(TrimLeft(s, IsBlank));
    if word.None? then None else
    var others := Words(word.value.1, count - 1);
    if others.None? then None else Some(([word.value.0] + others.value.0, others.value.1))
  }

  // ---------- single quotes ----------

  const QUOTED_QUOTE := "'\"'\"'"

  /** Every single quote is replaced by one in double quotes, between two quoted parts. */
  function Escape(s: string): string {
    if s == "" then "" else (if s[0] == '\'' then QUOTED_QUOTE else [s[0]]) + Escape(s[1..])
  }

  lemma QuoteInQuotes(rest: string)
    ensures Single(QUOTED_QUOTE + rest) == Prepend('\'', Single(rest))
  {
    var s := QUOTED_QUOTE + rest;
    assert s[1..][1..][1..][1..][1..] == rest;
    assert Single(s) == Word(s[1..]) == Double(s[1..][1..]);
    assert Double(s[1..][1..]) == Prepend('\'', Double(s[1..][1..][1..]));
    assert Double(s[1..][1..][1..]) == Word(s[1..][1..][1..][1..]) == Single(rest);
  }

  lemma {:induction false} SingleKeeps(s: string, rest: string)
    requires WordEnds(rest)
    ensures Single(Escape(s) + ("'" + rest)) == Some((s, rest))
  {
    hide Double;
    var text := Escape(s) + ("'" + rest);
    if s == "" {
      assert text == "'" + rest && text[1..] == rest;
    } else {
      hide Word, WordEnds;
      var tail := Escape(s[1..]) + ("'" + rest);
      SingleKeeps(s[1..], rest);
      assert [s[0]] + s[1..] == s;
      if s[0] == '\'' {
        hide Single;
        assert text == QUOTED_QUOTE + tail;
        QuoteInQuotes(tail);
      } else {
        assert text == [s[0]] + tail && text[1..] == tail;
      }
    }
  }

  /** Whatever was quoted comes back from the shell unchanged. */
  lemma SingleQuotesKeep(s: string, rest: string)
    requires WordEnds(rest)
    ensures Word("'" + Escape(s) + ("'" + rest)) == Some((s, rest))
  {
    hide Single, Double, Escape;
    SingleKeeps(s, rest);
    assert ("'" + Escape(s) + ("'" + rest))[1..] == Escape(s) + ("'" + rest);
  }

  lemma {:induction false} EscapeAddsNoBreak(s: string)
    requires OneLine(s)
    ensures OneLine(Escape(s))
  {
    if s != "" {
      assert s == [s[0]] + s[1..];
      EscapeAddsNoBreak(s[1..]);
    }
  }

  // ---------- double quotes ----------

  /** No quote or expansion, and no backslash that the shell would take for its own. */
  predicate DoubleQuotable(s: string) {
    s == "" || (
      && s[0] != '"' && s[0] != '$' && s[0] != '`'
      && (s[0] == '\\' ==> |s| > 1 && !IsEscapable(s[1]) && s[1] != '\n')
      && DoubleQuotable(s[1..]))
  }

  /** Quoting costs characters: a word is shorter than its text if any of that text was quoted. */
  lemma {:induction false} WordsAreShort(s: string)
    ensures var r := Word(s);
            r.Some? ==> |r.value.0| + |r.value.1| < |s|
                        || (|r.value.0| + |r.value.1| == |s| && '"' !in r.value.0)
    ensures Single(s).Some? ==> |Single(s).value.0| + |Single(s).value.1| < |s|
    ensures Double(s).Some? ==> |Double(s).value.0| + |Double(s).value.1| < |s|
    decreases |s|
  {
    if s != "" {
      WordsAreShort(s[1..]);
      if |s| > 1 {
        WordsAreShort(s[2..]);
      }
      assert Single(s).Some? ==> |Single(s).value.0| + |Single(s).value.1| < |s| by {
        hide Word, Double;
      }
      assert Double(s).Some? ==> |Double(s).value.0| + |Double(s).value.1| < |s| by {
        hide Word, Single;
      }
      hide Single, Double;
    }
  }

  lemma {:induction false} OnlyQuotableComesBack(s: string, rest: string)
    requires Double(s + ("\"" + rest)) == Some((s, rest))
    ensures DoubleQuotable(s)
  {
    var text := s + ("\"" + rest);
    if s != "" {
      assert text[1..] == s[1..] + ("\"" + rest);
      WordsAreShort(text[1..]);
      WordsAreShort(text[2..]);
      assert s == [s[0]] + s[1..];
      if s[0] != '"' && (s[0] != '\\' || (|s| > 1 && !IsEscapable(s[1]) && s[1] != '\n')) {
        assert Double(text) == Prepend(s[0], Double(text[1..]));
        OnlyQuotableComesBack(s[1..], rest);
      }
    }
  }

  lemma {:induction false} QuotableComesBack(s: string, rest: string)
    requires WordEnds(rest) && DoubleQuotable(s)
    ensures Double(s + ("\"" + rest)) == Some((s, rest))
  {
    var text := s + ("\"" + rest);
    if s == "" {
      assert text == "\"" + rest && text[1..] == rest;
    } else {
      assert text[1..] == s[1..] + ("\"" + rest);
      QuotableComesBack(s[1..], rest);
      assert s == [s[0]] + s[1..];
    }
  }

  /** A text printed between double quotes comes back unchanged exactly if it is quotable. */
  lemma DoubleQuotesKeep(s: string, rest: string)
    requires WordEnds(rest)
    ensures Word("\"" + s + ("\"" + rest)) == Some((s, rest)) <==> DoubleQuotable(s)
  {
    hide Single, Double, DoubleQuotable;
    var text := "\"" + s + ("\"" + rest);
    assert text[0] == '"' && text[1..] == s + ("\"" + rest);
    assert Word(text) == Double(text[1..]);
    if DoubleQuotable(s) {
      QuotableComesBack(s, rest);
    } else if Double(s + ("\"" + rest)) == Some((s, rest)) {
      OnlyQuotableComesBack(s, rest);
    }
  }

  lemma {:induction false} DollarIsNotQuotable(s: string)
    requires '$' in s
    ensures !DoubleQuotable(s)
  {
    if s[0] != '$' {
      assert s == [s[0]] + s[1..];
      DollarIsNotQuotable(s[1..]);
    }
  }
}
