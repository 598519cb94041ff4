/** Rust's `str::lines` and `str::replace`, and how they commute. */
module TextLines {

  /** Length of the text before its first newline. */
  function LineLength(t: string): (n: nat)
    ensures n <= |t|
    ensures '\n' !in t[..n]
    ensures n < |t| ==> t[n] == '\n'
  {
    if t == "" || t[0] == '\n' then 0
    else
      var n := LineLength(t[1..]);
      assert t[..n + 1] == [t[0]] + t[1..][..n];
      n + 1
  }

  /** A carriage return is dropped only directly before the newline. */
  function Strip(line: string): string {
    if line != "" && line[|line| - 1] == '\r' then line[..|line| - 1] else line
  }

  function Lines(t: string): seq<string>
    decreases |t|
  {
    if t == "" then []
    else
      var n := LineLength(t);
      if n == |t| then [t] else [Strip(t[..n])] + Lines(t[n + 1..])
  }

  predicate EndsInNewline(t: string) {
    t != "" && t[|t| - 1] == '\n'
  }

  /** How a line ends, given what stands before its newline. */
  function EndingOf(line: string): string {
    if Strip(line) == line then "\n" else "\r\n"
  }

  /** The terminator of each line; a last line without a newline has none. */
  function Endings(t: string): seq<string>
    decreases |t|
  {
    if t == "" then []
    else
      var n := LineLength(t);
      if n == |t| then [""] else [EndingOf(t[..n])] + Endings(t[n + 1..])
  }

  /** Lines put back together with bare newlines. */
  function Unlines(lines: seq<string>, finalNewline: bool): string {
    if lines == [] then ""
    else if |lines| == 1 then lines[0] + (if finalNewline then "\n" else "")
    else lines[0] + "\n" + Unlines(lines[1..], finalNewline)
  }

  lemma LineLengthIs(a: string, b: string)
    requires '\n' !in a
    ensures LineLength(a + "\n" + b) == |a|
    ensures LineLength(a) == |a|
  {
    var t := a + "\n" + b;
    assert t[|a|] == '\n' && forall i :: 0 <= i < |a| ==> t[i] == a[i];
    assert forall i :: 0 <= i < LineLength(t) ==> t[..LineLength(t)][i] == t[i];
  }

  lemma LinesOfFirst(a: string, b: string)
    requires '\n' !in a
    ensures Lines(a + "\n" + b) == [Strip(a)] + Lines(b)
  {
    var t := a + "\n" + b;
    LineLengthIs(a, b);
    assert t[..|a|] == a && t[|a| + 1..] == b;
  }

  /** A text is its first line and the rest. */
  lemma FirstLine(t: string) returns (a: string, b: string)
    requires LineLength(t) < |t|
    ensures '\n' !in a && t == a + "\n" + b && |b| < |t|
    ensures EndsInNewline(t) <==> b == "" || EndsInNewline(b)
  {
    var n := LineLength(t);
    a, b := t[..n], t[n + 1..];
    assert t == a + [t[n]] + b;
  }

  lemma EndingsOfFirst(a: string, b: string)
    requires '\n' !in a
    ensures Endings(a + "\n" + b) == [EndingOf(a)] + Endings(b)
  {
    var t := a + "\n" + b;
    LineLengthIs(a, b);
    assert t[..|a|] == a && t[|a| + 1..] == b;
  }

  /** A text is its lines and their terminators. */
  lemma {:induction false} LinesAndEndings(t: string, u: string)
    requires Lines(t) == Lines(u) && Endings(t) == Endings(u)
    ensures t == u
    decreases |t|
  {
    LinesNonEmpty(t);
    LinesNonEmpty(u);
    if t == "" {
    } else if LineLength(t) == |t| || LineLength(u) == |u| {
      OneEnding(t);
      OneEnding(u);
    } else {
      var a, b := FirstLine(t);
      var c, d := FirstLine(u);
      LinesOfFirst(a, b);
      LinesOfFirst(c, d);
      EndingsOfFirst(a, b);
      EndingsOfFirst(c, d);
      assert Lines(t)[1..] == Lines(b) && Lines(u)[1..] == Lines(d);
      assert Endings(t)[1..] == Endings(b) && Endings(u)[1..] == Endings(d);
      LinesAndEndings(b, d);
      SameFirstLine(a, c);
    }
  }

  /** The first terminator is missing exactly for a text of one unfinished line. */
  lemma OneEnding(t: string)
    requires t != ""
    ensures Endings(t) != [] && (Endings(t)[0] == "" <==> LineLength(t) == |t|)
    ensures LineLength(t) == |t| ==> Lines(t) == [t]
  {
  }

  lemma SameFirstLine(a: string, c: string)
    requires Strip(a) == Strip(c) && EndingOf(a) == EndingOf(c)
    ensures a == c
  {
    if Strip(a) != a {
      assert a == Strip(a) + "\r" && c == Strip(c) + "\r";
    }
  }

  lemma LinesNonEmpty(t: string)
    ensures Lines(t) == [] <==> t == ""
  {
  }

  /** Splitting joined lines gives them back. */
  lemma {:induction false} LinesOfUnlines(lines: seq<string>)
    requires forall i :: 0 <= i < |lines| ==> OneLine(lines[i])
    ensures Lines(Unlines(lines, true)) == lines
    ensures lines != [] ==> EndsInNewline(Unlines(lines, true))
  {
    if |lines| == 1 {
      LinesOfFirst(lines[0], "");
      assert Unlines(lines, true) == lines[0] + "\n" + "";
    } else if lines != [] {
      LinesOfUnlines(lines[1..]);
      LinesOfFirst(lines[0], Unlines(lines[1..], true));
      assert lines == [lines[0]] + lines[1..];
    }
  }

  // -------------------------------------------------------------------------
  // Replacement

  /** Every match, left to right, without overlap. */
  function Replace(t: string, from: string, to: string): string
    requires from != ""
    decreases |t|
  {
    if |t| < |from| then t
    else if from <= t then to + Replace(t[|from|..], from, to)
    else [t[0]] + Replace(t[1..], from, to)
  }

  predicate OneLine(s: string) {
    '\n' !in s && '\r' !in s
  }

  ghost predicate Occurs(t: string, from: string, i: nat) {
    i + |from| <= |t| && t[i..i + |from|] == from
  }

  lemma {:induction false} NoMatch(t: string, from: string, to: string)
    requires from != "" && forall i: nat :: !Occurs(t, from, i)
    ensures Replace(t, from, to) == t
    decreases |t|
  {
    if |t| >= |from| {
      assert !Occurs(t, from, 0);
      forall i: nat ensures !Occurs(t[1..], from, i) {
        assert i + 1 + |from| <= |t| ==> t[1..][i..i + |from|] == t[i + 1..i + 1 + |from|];
        assert !Occurs(t, from, i + 1);
      }
      NoMatch(t[1..], from, to);
    }
  }

  lemma WholeMatch(from: string, to: string)
    requires from != ""
    ensures Replace(from, from, to) == to
  {
    assert from[|from|..] == "";
    assert Replace("", from, to) == "";
  }

  /** A match never reaches over a separator that does not occur in it. */
  lemma PrefixStopsAtSeparator(a: string, c: char, b: string, from: string)
    requires c !in from
    ensures from <= a + [c] + b <==> from <= a
  {
    var t := a + [c] + b;
    assert forall i :: 0 <= i < |a| ==> t[i] == a[i];
    if |from| > |a| {
      assert from[|a|] != c && t[|a|] == c;
    }
  }

  lemma {:induction false} ReplaceSplits(a: string, c: char, b: string, from: string, to: string)
    requires from != "" && c !in from
    ensures Replace(a + [c] + b, from, to) == Replace(a, from, to) + [c] + Replace(b, from, to)
    decreases |a|
  {
    var t := a + [c] + b;
    PrefixStopsAtSeparator(a, c, b, from);
    if from <= a {
      assert t[|from|..] == a[|from|..] + [c] + b;
      ReplaceSplits(a[|from|..], c, b, from, to);
      SplitJoin(to, Replace(a[|from|..], from, to), c, Replace(b, from, to));
    } else if a == "" {
      assert t == [c] + b;
      ReplaceAfterSeparator(c, b, from, to);
      assert Replace(a, from, to) == "";
    } else {
      ReplaceUnmatched(t, from, to);
      ReplaceUnmatched(a, from, to);
      assert t[1..] == a[1..] + [c] + b;
      ReplaceSplits(a[1..], c, b, from, to);
      SplitJoin([a[0]], Replace(a[1..], from, to), c, Replace(b, from, to));
    }
  }

  lemma SplitJoin(x: string, y: string, c: char, z: string)
    ensures x + (y + [c] + z) == (x + y) + [c] + z
  {
  }

  lemma ReplaceUnmatched(t: string, from: string, to: string)
    requires from != "" && t != "" && !(from <= t)
    ensures Replace(t, from, to) == [t[0]] + Replace(t[1..], from, to)
  {
    assert |t| < |from| ==> t == [t[0]] + t[1..];
  }

  lemma ReplaceAfterSeparator(c: char, b: string, from: string, to: string)
    requires from != "" && c !in from
    ensures Replace([c] + b, from, to) == [c] + Replace(b, from, to)
  {
    var t := [c] + b;
    assert t[1..] == b && t[0] == c && from[0] in from;
    ReplaceUnmatched(t, from, to);
  }

  // -------------------------------------------------------------------------
  // Replacing in a text is replacing in its lines

  function ReplaceEach(lines: seq<string>, from: string, to: string): (r: seq<string>)
    requires from != ""
    ensures |r| == |lines|
    ensures forall i :: 0 <= i < |r| ==> r[i] == Replace(lines[i], from, to)
  {
    seq(|lines|, i requires 0 <= i < |lines| => Replace(lines[i], from, to))
  }

  lemma {:induction false} ReplaceKeepsOneLine(a: string, from: string, to: string, c: char)
    requires from != "" && c !in a && c !in to
    ensures c !in Replace(a, from, to)
    decreases |a|
  {
    if |a| >= |from| {
      if from <= a {
        ReplaceKeepsOneLine(a[|from|..], from, to, c);
      } else {
        ReplaceKeepsOneLine(a[1..], from, to, c);
      }
    }
  }

  predicate EndsIn(s: string, c: char) {
    s != "" && s[|s| - 1] == c
  }

  lemma JoinEnd(x: string, y: string, c: char)
    requires !EndsIn(y, c) && (y == "" ==> !EndsIn(x, c))
    ensures !EndsIn(x + y, c)
  {
    assert y == "" ==> x + y == x;
  }

  /** The last character of a replaced text comes from the text or from the replacement. */
  lemma {:induction false} ReplaceKeepsEnd(a: string, from: string, to: string, c: char)
    requires from != "" && to != "" && c !in to
    requires !EndsIn(a, c)
    ensures !EndsIn(Replace(a, from, to), c)
    decreases |a|
  {
    if |a| < |from| {
    } else if from <= a {
      ReplaceKeepsEnd(a[|from|..], from, to, c);
      assert to[|to| - 1] in to;
      JoinEnd(to, Replace(a[|from|..], from, to), c);
    } else {
      ReplaceKeepsEnd(a[1..], from, to, c);
      if Replace(a[1..], from, to) == "" {
        ReplaceEmpty(a[1..], from, to);
      }
      JoinEnd([a[0]], Replace(a[1..], from, to), c);
    }
  }

  lemma ReplaceEmpty(a: string, from: string, to: string)
    requires from != "" && to != "" && Replace(a, from, to) == ""
    ensures a == ""
  {
  }

  lemma StripReplace(a: string, from: string, to: string)
    requires from != "" && to != "" && OneLine(from) && OneLine(to)
    ensures Strip(Replace(a, from, to)) == Replace(Strip(a), from, to)
  {
    if a != "" && a[|a| - 1] == '\r' {
      var c := a[..|a| - 1];
      assert a == c + ['\r'] + "";
      ReplaceSplits(c, '\r', "", from, to);
      assert Replace("", from, to) == "";
      assert Replace(a, from, to) == Replace(c, from, to) + ['\r'];
    } else {
      ReplaceKeepsEnd(a, from, to, '\r');
    }
  }

  /** Lines of a replaced text are the replaced lines, and the final newline stays as it was. */
  lemma {:induction false} ReplaceLines(t: string, from: string, to: string)
    requires from != "" && to != "" && OneLine(from) && OneLine(to)
    ensures Lines(Replace(t, from, to)) == ReplaceEach(Lines(t), from, to)
    ensures EndsInNewline(Replace(t, from, to)) <==> EndsInNewline(t)
    decreases |t|
  {
    if t == "" {
      assert Replace(t, from, to) == "";
    } else if LineLength(t) == |t| {
      ReplaceLastLine(t, from, to);
    } else {
      var a, b := FirstLine(t);
      ReplaceSplits(a, '\n', b, from, to);
      ReplaceLines(b, from, to);
      FinalNewlineKept(Replace(a, from, to), b, Replace(b, from, to), t, from, to);
      ReplaceFirstLine(a, b, from, to);
    }
  }

  lemma ReplaceFirstLine(a: string, b: string, from: string, to: string)
    requires from != "" && to != "" && OneLine(from) && OneLine(to) && '\n' !in a
    requires Lines(Replace(b, from, to)) == ReplaceEach(Lines(b), from, to)
    ensures Lines(Replace(a, from, to) + "\n" + Replace(b, from, to)) == ReplaceEach(Lines(a + "\n" + b), from, to)
  {
    ReplaceKeepsOneLine(a, from, to, '\n');
    LinesOfFirst(a, b);
    LinesOfFirst(Replace(a, from, to), Replace(b, from, to));
    StripReplace(a, from, to);
    EachOfCons(Strip(a), Lines(b), from, to);
  }

  lemma EachOfCons(line: string, rest: seq<string>, from: string, to: string)
    requires from != ""
    ensures ReplaceEach([line] + rest, from, to) == [Replace(line, from, to)] + ReplaceEach(rest, from, to)
  {
  }

  lemma FinalNewlineKept(a': string, b: string, b': string, t: string, from: string, to: string)
    requires from != "" && to != "" && b' == Replace(b, from, to) && Replace(t, from, to) == a' + "\n" + b'
    requires EndsInNewline(t) <==> b == "" || EndsInNewline(b)
    requires EndsInNewline(b') <==> EndsInNewline(b)
    ensures EndsInNewline(Replace(t, from, to)) <==> EndsInNewline(t)
  {
    if b' == "" {
      ReplaceEmpty(b, from, to);
    }
  }

  lemma ReplaceLastLine(t: string, from: string, to: string)
    requires from != "" && to != "" && OneLine(from) && OneLine(to)
    requires t != "" && LineLength(t) == |t|
    ensures Lines(Replace(t, from, to)) == ReplaceEach(Lines(t), from, to)
    ensures !EndsInNewline(Replace(t, from, to)) && !EndsInNewline(t)
  {
    assert t[..|t|] == t && '\n' !in t;
    var r := Replace(t, from, to);
    ReplaceKeepsOneLine(t, from, to, '\n');
    if r == "" {
      ReplaceEmpty(t, from, to);
    }
    LineLengthIs(r, "");
    LineLengthIs(t, "");
  }

  /** Replacing within lines leaves every terminator as it was. */
  lemma {:induction false} ReplaceKeepsEndings(t: string, from: string, to: string)
    requires from != "" && to != "" && OneLine(from) && OneLine(to)
    ensures Endings(Replace(t, from, to)) == Endings(t)
    decreases |t|
  {
    if t == "" {
      assert Replace(t, from, to) == "";
    } else if LineLength(t) == |t| {
      ReplaceLastLine(t, from, to);
      var r := Replace(t, from, to);
      assert t[..|t|] == t;
      ReplaceKeepsOneLine(t, from, to, '\n');
      LineLengthIs(r, "");
      if r == "" {
        ReplaceEmpty(t, from, to);
      }
    } else {
      var a, b := FirstLine(t);
      ReplaceSplits(a, '\n', b, from, to);
      ReplaceKeepsEndings(b, from, to);
      ReplaceKeepsOneLine(a, from, to, '\n');
      EndingsOfFirst(a, b);
      EndingsOfFirst(Replace(a, from, to), Replace(b, from, to));
      ReplaceKeepsEnding(a, from, to);
    }
  }

  lemma ReplaceKeepsEnding(a: string, from: string, to: string)
    requires from != "" && to != "" && OneLine(from) && OneLine(to)
    ensures EndingOf(Replace(a, from, to)) == EndingOf(a)
  {
    if a != "" && a[|a| - 1] == '\r' {
      var c := a[..|a| - 1];
      assert a == c + ['\r'] + "";
      ReplaceSplits(c, '\r', "", from, to);
      assert Replace("", from, to) == "";
      assert Replace(a, from, to) == Replace(c, from, to) + ['\r'];
      assert |Strip(Replace(a, from, to))| < |Replace(a, from, to)|;
      assert |Strip(a)| < |a|;
    } else {
      ReplaceKeepsEnd(a, from, to, '\r');
    }
  }
}
