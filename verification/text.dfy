/** Searching, splitting and trimming of strings. */
module Text {
  import opened Options

  predicate IsAt(s: string, pattern: string, i: nat) {
    i + |pattern| <= |s| && s[i..i + |pattern|] == pattern
  }

  /** The first place of a pattern. */
  function Find(s: string, pattern: string): (r: Option<nat>)
    ensures r.Some? ==> IsAt(s, pattern, r.value) && forall i :: 0 <= i < r.value ==> !IsAt(s, pattern, i)
    ensures r.None? ==> forall i: nat :: !IsAt(s, pattern, i)
  {
    if |s| < |pattern| then None
    else if s[..|pattern|] == pattern then
      assert IsAt(s, pattern, 0);
      Some(0)
    else
      var r := Find(s[1..], pattern);
      assert forall i: nat :: i > 0 && IsAt(s, pattern, i) ==> IsAt(s[1..], pattern, i - 1) by {
        forall i: nat | i > 0 && IsAt(s, pattern, i) ensures IsAt(s[1..], pattern, i - 1) {
          assert s[1..][i - 1..i - 1 + |pattern|] == s[i..i + |pattern|];
        }
      }
      assert r.Some? ==> IsAt(s, pattern, r.value + 1) by {
        if r.Some? {
          assert s[1..][r.value..r.value + |pattern|] == s[r.value + 1..r.value + 1 + |pattern|];
        }
      }
      if r.None? then None else Some(r.value + 1)
  }

  predicate Contains(s: string, pattern: string) { Find(s, pattern).Some? }

  predicate HasSuffix(s: string, suffix: string) {
    |suffix| <= |s| && s[|s| - |suffix|..] == suffix
  }

  function Split(s: string, separator: string): (tokens: seq<string>)
    requires separator != ""
    ensures tokens != []
    decreases |s|
  {
    var at := Find(s, separator);
    if at.None? then [s] else [s[..at.value]] + Split(s[at.value + |separator|..], separator)
  }

  /** Go's unicode.IsSpace. */
  predicate IsSpace(c: char) {
    || '\t' <= c <= '\r' || c == ' ' || c == '\U{0085}' || c == '\U{00A0}' || c == '\U{1680}'
    || '\U{2000}' <= c <= '\U{200A}' || c == '\U{2028}' || c == '\U{2029}' || c == '\U{202F}'
    || c == '\U{205F}' || c == '\U{3000}'
  }

  predicate IsSemicolon(c: char) { c == ';' }

  predicate IsBacktick(c: char) { c == '`' }

  function TrimLeft(s: string, cut: char -> bool): string {
    if s != "" && cut(s[0]) then TrimLeft(s[1..], cut) else s
  }

  function TrimRight(s: string, cut: char -> bool): string {
    if s != "" && cut(s[|s| - 1]) then TrimRight(s[..|s| - 1], cut) else s
  }

  function Trim(s: string, cut: char -> bool): string { TrimRight(TrimLeft(s, cut), cut) }

  function TrimSpace(s: string): string { Trim(s, IsSpace) }

  // ---------- patterns and lines ----------

  predicate OneLine(s: string) { '\n' !in s }

  /** A pattern with no line break after its first character. */
  predicate LinePattern(p: string) { p != "" && forall k :: 0 < k < |p| ==> p[k] != '\n' }

  predicate StartsLine(s: string) { s == "" || s[0] == '\n' }

  /** Such a pattern cannot straddle the start of a line. */
  lemma NoStraddle(x: string, y: string, p: string, i: nat)
    requires LinePattern(p) && StartsLine(y) && IsAt(x + y, p, i)
    ensures IsAt(x, p, i) || (i >= |x| && IsAt(y, p, i - |x|))
  {
    var s := x + y;
    var k := if i < |x| then |x| - i else 0;
    assert k < |p| ==> s[i..i + |p|][k] == s[i + k];
    if i + |p| <= |x| {
      assert x[i..i + |p|] == s[i..i + |p|];
    } else {
      assert y[i - |x|..i - |x| + |p|] == s[i..i + |p|];
    }
  }

  lemma ContainsInPart(x: string, y: string, p: string)
    requires LinePattern(p) && StartsLine(y) && !Contains(x, p) && !Contains(y, p)
    ensures !Contains(x + y, p)
  {
    hide IsAt, Find;
    if Contains(x + y, p) {
      NoStraddle(x, y, p, Find(x + y, p).value);
    }
  }

  /** A pattern that stands at the start of `y`, and nowhere in `x`, is first found there. */
  lemma FindAfter(x: string, y: string, p: string)
    requires LinePattern(p) && StartsLine(y) && !Contains(x, p) && IsAt(y, p, 0)
    ensures Find(x + y, p) == Some(|x|)
  {
    hide Find, LinePattern, StartsLine;
    assert IsAt(x + y, p, |x|) by {
      assert (x + y)[|x|..|x| + |p|] == y[..|p|];
    }
    hide IsAt;
    forall i: nat | i < |x| ensures !IsAt(x + y, p, i) {
      if IsAt(x + y, p, i) {
        NoStraddle(x, y, p, i);
      }
    }
  }

  /** A pattern is not at the start of a string that differs from it early enough. */
  lemma NotAtStart(s: string, p: string, k: nat)
    requires k < |p| && k < |s| && s[k] != p[k]
    ensures !IsAt(s, p, 0)
  {
    assert |p| <= |s| ==> s[0..|p|][k] == s[k];
  }

  /** A pattern stands where nothing before it begins like it. */
  lemma FoundBehind(x: string, y: string, p: string)
    requires p != "" && p[0] !in x && p <= y
    ensures Find(x + y, p) == Some(|x|)
  {
    hide Find;
    assert (x + y)[|x|..|x| + |p|] == p;
    assert IsAt(x + y, p, |x|);
    forall i: nat | i < |x| ensures !IsAt(x + y, p, i) {
      assert (x + y)[i] == x[i] && x[i] in x;
      NotBegun(x + y, p, i);
    }
  }

  lemma NotBegun(s: string, p: string, i: nat)
    requires p != "" && i < |s| && s[i] != p[0]
    ensures !IsAt(s, p, i)
  {
    assert i + |p| <= |s| ==> s[i..i + |p|][0] == s[i];
  }

  /** Within one line, a pattern that begins with a line break can only be at its start. */
  lemma NotInLine(line: string, p: string)
    requires p != "" && p[0] == '\n' && line != "" && OneLine(line[1..]) && !IsAt(line, p, 0)
    ensures !Contains(line, p)
  {
    hide Find;
    forall i | 0 < i < |line| ensures line[i] != '\n' {
      assert line[i] == line[1..][i - 1];
    }
    assert forall i :: 0 <= i && i + |p| <= |line| ==> line[i..i + |p|][0] == line[i];
  }

  /** A pattern is nowhere in a string that lacks two of its characters at their distance. */
  lemma NotSpread(s: string, p: string, k: nat)
    requires k < |p|
    requires forall i :: 0 <= i && i + |p| <= |s| ==> s[i] != p[0] || s[i + k] != p[k]
    ensures !Contains(s, p)
  {
    hide Find;
    forall i: nat ensures !IsAt(s, p, i) {
      if i + |p| <= |s| {
        assert s[i..i + |p|][0] == s[i] && s[i..i + |p|][k] == s[i + k];
      }
    }
  }

  lemma NotPrepended(s: string, c: char, p: string)
    requires p != "" && p[0] != c && !Contains(s, p)
    ensures !Contains([c] + s, p)
  {
    hide Find;
    forall i: nat ensures !IsAt([c] + s, p, i) {
      if i == 0 && |p| <= |s| + 1 {
        NotAtStart([c] + s, p, 0);
      } else if i > 0 && i + |p| <= |s| + 1 {
        var j: nat := i - 1;
        assert ([c] + s)[i..i + |p|] == s[j..j + |p|];
        assert !IsAt(s, p, j);
      }
    }
  }

  /** Where the first place is can be read off a prefix that holds the pattern. */
  lemma FindInPrefix(x: string, y: string, p: string)
    requires Contains(x, p)
    ensures Find(x + y, p) == Find(x, p)
  {
    hide Find;
    var at := Find(x, p).value;
    assert (x + y)[at..at + |p|] == x[at..at + |p|];
    assert IsAt(x + y, p, at);
    forall i: nat | i < at ensures !IsAt(x + y, p, i) {
      assert (x + y)[i..i + |p|] == x[i..i + |p|];
      assert !IsAt(x, p, i);
    }
  }

  lemma {:induction false} TrimShortens(s: string, cut: char -> bool)
    ensures |TrimLeft(s, cut)| <= |s| && |TrimRight(s, cut)| <= |s|
    decreases |s|
  {
    if s != "" {
      TrimShortens(s[1..], cut);
      TrimShortens(s[..|s| - 1], cut);
    }
  }

  /** What is trimmed off at the end is all of the kind, and what is left does not end in it. */
  lemma {:induction false} TrimRightSplits(s: string, cut: char -> bool)
    ensures var t := TrimRight(s, cut);
            t <= s && (forall i :: |t| <= i < |s| ==> cut(s[i])) && (t == "" || !cut(t[|t| - 1]))
    decreases |s|
  {
    if s != "" && cut(s[|s| - 1]) {
      TrimRightSplits(s[..|s| - 1], cut);
    }
  }

  /** Nothing is split off a string that does not hold the separator. */
  lemma SplitOnce(s: string, separator: string)
    requires separator != "" && !Contains(s, separator)
    ensures Split(separator + s, separator) == ["", s]
  {
    hide Find;
    assert IsAt(separator + s, separator, 0) by {
      assert (separator + s)[0..|separator|] == separator;
    }
    assert Find(separator + s, separator) == Some(0);
    assert (separator + s)[|separator|..] == s;
    assert Split(s, separator) == [s];
  }

  lemma {:induction false} TrimLeftKeeps(x: string, y: string, cut: char -> bool)
    requires forall i :: 0 <= i < |x| ==> cut(x[i])
    requires y == "" || !cut(y[0])
    ensures TrimLeft(x + y, cut) == y
  {
    if x == "" {
      assert x + y == y;
    } else {
      assert (x + y)[1..] == x[1..] + y;
      TrimLeftKeeps(x[1..], y, cut);
    }
  }

  lemma {:induction false} TrimRightKeeps(x: string, y: string, cut: char -> bool)
    requires forall i :: 0 <= i < |y| ==> cut(y[i])
    requires x == "" || !cut(x[|x| - 1])
    ensures TrimRight(x + y, cut) == x
    decreases |y|
  {
    if y == "" {
      assert x + y == x;
    } else {
      assert (x + y)[..|x + y| - 1] == x + y[..|y| - 1];
      TrimRightKeeps(x, y[..|y| - 1], cut);
    }
  }

  lemma TrimKeeps(x: string, y: string, z: string, cut: char -> bool)
    requires forall c :: c in x || c in z ==> cut(c)
    requires y == "" || (!cut(y[0]) && !cut(y[|y| - 1]))
    ensures Trim(x + y + z, cut) == y
  {
    hide TrimLeft, TrimRight;
    if y == "" {
      assert x + y + z == x + z + "" && "" + "" == "";
      TrimLeftKeeps(x + z, "", cut);
      TrimRightKeeps("", "", cut);
    } else {
      assert x + y + z == x + (y + z);
      TrimLeftKeeps(x, y + z, cut);
      TrimRightKeeps(y, z, cut);
    }
  }

  /** Trimming on the left stops where something begins that is not to be cut. */
  lemma {:induction false} TrimLeftAppend(s: string, rest: string, cut: char -> bool)
    requires rest != "" && !cut(rest[0])
    ensures TrimLeft(s + rest, cut) == TrimLeft(s, cut) + rest
  {
    if s == "" {
      assert s + rest == rest;
    } else {
      assert (s + rest)[1..] == s[1..] + rest;
      TrimLeftAppend(s[1..], rest, cut);
    }
  }

  // ---------- the last token ----------

  /** A separator whose first character is nowhere else in it cannot overlap itself. */
  predicate Unbordered(p: string) { p != "" && forall k :: 0 < k < |p| ==> p[k] != p[0] }

  /** What follows the last separator is the last token, whatever comes before. */
  lemma {:induction false} LastToken(before: string, p: string, rest: string)
    requires Unbordered(p) && !Contains(rest, p)
    ensures var tokens := Split(before + p + rest, p);
            |tokens| >= 2 && tokens[|tokens| - 1] == rest
    decreases |before|
  {
    hide Find;
    var s := before + p + rest;
    FirstSeparator(before, p, rest);
    var at := Find(s, p).value;
    if at == |before| {
      assert s[at + |p|..] == rest;
      assert Split(rest, p) == [rest];
    } else {
      var later := before[at + |p|..];
      assert s[at + |p|..] == later + p + rest;
      LastToken(later, p, rest);
    }
  }

  lemma FirstSeparator(before: string, p: string, rest: string)
    requires Unbordered(p)
    ensures var s := before + p + rest;
            Contains(s, p) && (Find(s, p).value == |before| || Find(s, p).value + |p| <= |before|)
  {
    hide Find, Unbordered;
    var s := before + p + rest;
    assert IsAt(s, p, |before|) by {
      assert s[|before|..|before| + |p|] == p;
    }
    hide IsAt;
    if Find(s, p).value < |before| {
      PlacesDoNotOverlap(s, p, Find(s, p).value, |before|);
    }
  }

  lemma PlacesDoNotOverlap(s: string, p: string, i: nat, j: nat)
    requires Unbordered(p) && IsAt(s, p, i) && IsAt(s, p, j) && i < j
    ensures i + |p| <= j
  {
    var k := if j - i < |p| then j - i else 0;
    assert s[j..j + |p|][0] == s[j];
    assert s[i..i + |p|][k] == s[i + k];
  }
}
