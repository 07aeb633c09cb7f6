/** The preparation of a QGRAF run in generator/qgraf_setup.py and its copy
    generate/qgraf_setup.py: reading a process string `p1 p2 > q1 q2 @ l`, filling the
    values of the `qgraf.dat` template, and checking particle names against a model. */
module QgrafSetup {
  import opened Base
  import opened Text

  // ---------------------------------------------------------------------------
  // The process-string pattern

  /** `[a-zA-Z0-9 ]`, the characters of a particle list. */
  predicate InNameClass(c: char)
  {
    IsLetter(c) || IsDigit(c) || c == ' '
  }

  predicate AllNameClass(s: string)
  {
    forall i :: 0 <= i < |s| ==> InNameClass(s[i])
  }

  /** `s.lstrip(cs)`. */
  function LStrip(s: string, cs: set<char>): (r: string)
    ensures |r| <= |s|
    ensures |r| > 0 ==> r[0] !in cs
  {
    if |s| > 0 && s[0] in cs then LStrip(s[1..], cs) else s
  }

  /** What `lstrip` removes is made of the characters given. */
  lemma {:induction false} LStripDropped(s: string, cs: set<char>)
    ensures LStrip(s, cs) == s[|s| - |LStrip(s, cs)|..]
    ensures forall i :: 0 <= i < |s| - |LStrip(s, cs)| ==> s[i] in cs
  {
    if |s| > 0 && s[0] in cs {
      LStripDropped(s[1..], cs);
      assert forall i :: 1 <= i < |s| ==> s[i] == s[1..][i - 1];
    }
  }

  /** `s.rstrip(cs)`. */
  function RStrip(s: string, cs: set<char>): (r: string)
    ensures |r| <= |s|
    ensures |r| > 0 ==> r[|r| - 1] !in cs
  {
    if |s| > 0 && s[|s| - 1] in cs then RStrip(s[..|s| - 1], cs) else s
  }

  /** What `rstrip` removes is made of the characters given. */
  lemma {:induction false} RStripDropped(s: string, cs: set<char>)
    ensures RStrip(s, cs) == s[..|RStrip(s, cs)|]
    ensures forall i :: |RStrip(s, cs)| <= i < |s| ==> s[i] in cs
  {
    if |s| > 0 && s[|s| - 1] in cs {
      RStripDropped(s[..|s| - 1], cs);
    }
  }

  /** `s.strip(cs)`. */
  function Strip(s: string, cs: set<char>): string
  {
    RStrip(LStrip(s, cs), cs)
  }

  /** The white space Python's `split()` and `int()` skip, restricted to ASCII. */
  const WhiteSpace: set<char> := {' ', '\t', '\n', '\r', '\U{000B}', '\U{000C}'}

  /** `[ ]*[0-9]+[ ]*`: the loop count after `@`. */
  predicate LoopCountShape(u: string)
  {
    var t := Strip(u, {' '});
    |t| > 0 && AllDigits(t)
  }

  /** What follows `>`: `[a-zA-Z0-9 ]+(@[ ]*[0-9]+){0,1}[ ]*`. */
  predicate AfterArrowShape(r: string)
  {
    var q := Split(r, '@');
    (|q| == 1 && |r| > 0 && AllNameClass(r)) ||
    (|q| == 2 && |q[0]| > 0 && AllNameClass(q[0]) && LoopCountShape(q[1]))
  }

  /** `re.match("^[a-zA-Z0-9 ]+>[a-zA-Z0-9 ]+(@[ ]*[0-9]+){0,1}[ ]*$", s)` succeeds:
      `$` also matches just before a newline that ends the string. */
  predicate MatchesProcessPattern(s: string)
  {
    var b := if |s| > 0 && s[|s| - 1] == '\n' then s[..|s| - 1] else s;
    var parts := Split(b, '>');
    |parts| == 2 && |parts[0]| > 0 && AllNameClass(parts[0]) && AfterArrowShape(parts[1])
  }

  // ---------------------------------------------------------------------------
  // parse_process_string

  /** `s.split()`: the runs of non-white-space characters. */
  function Words(s: string): seq<string>
  {
    NonEmpty(SplitAny(s, WhiteSpace))
  }

  /** `int(t)`, which ignores surrounding white space. */
  function PyInt(t: string): Option<int>
  {
    ParseInt(Strip(t, WhiteSpace))
  }

  /** The particles coming in, the particles going out, and the number of loops. */
  datatype Process = Process(incoming: seq<string>, outgoing: seq<string>, loops: int)

  /** `parse_process_string`: a string that does not have the expected shape raises
      `AssertionError`; otherwise the text after `@` gives the loop count (0 without
      `@`) and the two sides of `>` are split into particle names. */
  function ParseProcessString(s: string): (r: Result<Process>)
    ensures !MatchesProcessPattern(s) ==> r.Failure? && r.error.AssertionError?
    ensures r.Success? ==> MatchesProcessPattern(s)
    ensures r.Success? ==> |Split(s, '@')| == 1 ==> r.value.loops == 0
    ensures r.Success? ==> |Split(s, '@')| == 2 ==> PyInt(Strip(Split(s, '@')[1], {' '})) == Some(r.value.loops)
  {
    if !MatchesProcessPattern(s) then Failure(AssertionError("process string"))
    else
      var pl := Split(s, '@');
      var loops :-
        if |pl| == 2 then
          match PyInt(Strip(pl[1], {' '}))
          case None => Failure(ValueError(Strip(pl[1], {' '})))
          case Some(n) => Success(n)
        else if |pl| != 1 then Failure(IOError("process loop"))
        else Success(0);
      var sides := Split(pl[0], '>');
      if |sides| != 2 then Failure(ValueError("unpack"))
      else Success(Process(Words(sides[0]), Words(sides[1]), loops))
  }

  /** `" ".join(names) + ">" + " ".join(names') + "@" + str(n)`, the canonical way to
      write a process; without a loop count the `@` part is absent. */
  function ProcessText(ins: seq<string>, outs: seq<string>, loops: Option<nat>): string
  {
    Join(ins, " ") + ">" + Join(outs, " ") + (if loops.Some? then "@" + NatToString(loops.value) else "")
  }

  /** A particle name as the pattern admits it: letters and digits. */
  predicate IsName(x: string)
  {
    |x| > 0 && forall i :: 0 <= i < |x| ==> IsLetter(x[i]) || IsDigit(x[i])
  }

  predicate AllNames(xs: seq<string>)
  {
    |xs| > 0 && forall k :: 0 <= k < |xs| ==> IsName(xs[k])
  }

  // ---------------------------------------------------------------------------
  // Facts about the pieces of a process text

  lemma SplitAnyFreeOf(x: string, seps: set<char>, c: char)
    requires NoneIn(x, {c}) && seps == {c}
    ensures SplitAny(x, seps) == [x]
  {
    SplitAnyFree(x, seps);
  }

  /** Names joined by spaces: letters, digits and spaces, and never empty. */
  lemma {:induction false} JoinedNames(xs: seq<string>)
    requires AllNames(xs)
    ensures var j := Join(xs, " ");
      |j| > 0 && AllNameClass(j) && (IsLetter(j[|j| - 1]) || IsDigit(j[|j| - 1]))
  {
    if |xs| > 1 {
      JoinedNames(xs[1..]);
      var t := Join(xs[1..], " ");
      var j := xs[0] + " " + t;
      assert forall i :: 0 <= i < |j| ==> j[i] == if i < |xs[0]| then xs[0][i] else if i == |xs[0]| then ' ' else t[i - |xs[0]| - 1];
      assert j[|j| - 1] == t[|t| - 1];
    } else {
      assert Join(xs, " ") == xs[0];
    }
  }

  /** A string of letters, digits and spaces has none of `>`, `@` and white space
      other than spaces. */
  lemma NameClassFree(s: string)
    requires AllNameClass(s)
    ensures NoneIn(s, {'>'}) && NoneIn(s, {'@'}) && NoneIn(s, {'\n'})
  {
  }

  /** `split` by any white space of names joined by one space gives the names back. */
  lemma {:induction false} WordsOfJoin(xs: seq<string>)
    requires AllNames(xs)
    ensures SplitAny(Join(xs, " "), WhiteSpace) == xs
  {
    assert NoneIn(xs[0], WhiteSpace);
    if |xs| == 1 {
      SplitAnyFree(xs[0], WhiteSpace);
      assert Join(xs, " ") == xs[0];
    } else {
      WordsOfJoin(xs[1..]);
      assert Join(xs, " ") == xs[0] + [' '] + Join(xs[1..], " ");
      SplitAnyAt(xs[0], ' ', Join(xs[1..], " "), WhiteSpace);
      SplitAnyFree(xs[0], WhiteSpace);
      assert [xs[0]] + xs[1..] == xs;
    }
  }

  lemma {:induction false} NonEmptyKeeps(xs: seq<string>)
    requires forall k :: 0 <= k < |xs| ==> xs[k] != ""
    ensures NonEmpty(xs) == xs
  {
    if |xs| > 0 {
      NonEmptyKeeps(xs[1..]);
      assert [xs[0]] + xs[1..] == xs;
    }
  }

  /** `" ".join(names).split() == names`. */
  lemma WordsJoin(xs: seq<string>)
    requires AllNames(xs)
    ensures Words(Join(xs, " ")) == xs
  {
    WordsOfJoin(xs);
    NonEmptyKeeps(xs);
  }

  lemma StripDigits(d: string, cs: set<char>)
    requires |d| > 0 && NoneIn(d, cs)
    ensures Strip(d, cs) == d
  {
  }

  /** The two sides of `>` in a canonical process text. */
  lemma ArrowSplit(a: string, b: string)
    requires AllNameClass(a) && NoneIn(b, {'>'})
    ensures Split(a + ">" + b, '>') == [a, b]
  {
    NameClassFree(a);
    assert a + ">" + b == a + ['>'] + b;
    SplitAnyAt(a, '>', b, {'>'});
    SplitAnyFree(a, {'>'});
    SplitAnyFree(b, {'>'});
  }

  /** The two sides of `@` in a canonical process text. */
  lemma AtSplit(a: string, d: string)
    requires NoneIn(a, {'@'}) && AllDigits(d)
    ensures Split(a + "@" + d, '@') == [a, d]
  {
    assert a + "@" + d == a + ['@'] + d;
    SplitAnyAt(a, '@', d, {'@'});
    SplitAnyFree(a, {'@'});
    SplitAnyFree(d, {'@'});
  }

  lemma NoneInJoin(a: string, b: string, c: char)
    requires NoneIn(a, {c}) && NoneIn(b, {c}) && c != '>'
    ensures NoneIn(a + ">" + b, {c})
  {
    assert forall i :: 0 <= i < |a + ">" + b| ==> (a + ">" + b)[i] == if i < |a| then a[i] else if i == |a| then '>' else b[i - |a| - 1];
  }

  lemma LastCharNotNewline(s: string, t: string)
    requires |t| > 0 && (IsLetter(t[|t| - 1]) || IsDigit(t[|t| - 1]))
    ensures var u := s + t; |u| > 0 && u[|u| - 1] != '\n'
  {
    assert (s + t)[|s + t| - 1] == t[|t| - 1];
  }

  /** `a>b` with both sides made of letters, digits and spaces, `b` ending in a
      letter or digit, is accepted and read as a process without loops. */
  lemma MatchWithoutLoops(a: string, b: string)
    requires |a| > 0 && AllNameClass(a) && |b| > 0 && AllNameClass(b)
    requires IsLetter(b[|b| - 1]) || IsDigit(b[|b| - 1])
    ensures MatchesProcessPattern(a + ">" + b)
    ensures Split(a + ">" + b, '@') == [a + ">" + b]
  {
    NameClassFree(a);
    NameClassFree(b);
    LastCharNotNewline(a + ">", b);
    assert a + ">" + b == (a + ">") + b;
    ArrowSplit(a, b);
    SplitAnyFree(b, {'@'});
    NoneInJoin(a, b, '@');
    SplitAnyFree(a + ">" + b, {'@'});
  }

  lemma ParseWithoutLoops(a: string, b: string)
    requires MatchesProcessPattern(a + ">" + b) && Split(a + ">" + b, '@') == [a + ">" + b]
    requires Split(a + ">" + b, '>') == [a, b]
    ensures ParseProcessString(a + ">" + b) == Success(Process(Words(a), Words(b), 0))
  {
  }

  /** How `a>b@d` falls apart at `>` and at `@`. */
  lemma SplitsWithLoops(a: string, b: string, d: string)
    requires AllNameClass(a) && AllNameClass(b) && AllDigits(d)
    ensures Split(a + ">" + b + "@" + d, '>') == [a, b + "@" + d]
    ensures Split(b + "@" + d, '@') == [b, d]
    ensures Split(a + ">" + b + "@" + d, '@') == [a + ">" + b, d]
    ensures Split(a + ">" + b, '>') == [a, b]
  {
    NameClassFree(a);
    NameClassFree(b);
    assert NoneIn("@" + d, {'>'}) by {
      assert forall i :: 0 < i < |"@" + d| ==> ("@" + d)[i] == d[i - 1];
    }
    ArrowSplit(a, b + "@" + d);
    assert a + ">" + (b + "@" + d) == a + ">" + b + "@" + d;
    ArrowSplit(a, b);
    AtSplit(b, d);
    NoneInJoin(a, b, '@');
    AtSplit(a + ">" + b, d);
  }

  /** `a>b@d` with `d` a digit string is accepted and read with `d` loops. */
  lemma MatchWithLoops(a: string, b: string, d: string)
    requires |a| > 0 && AllNameClass(a) && |b| > 0 && AllNameClass(b) && |d| > 0 && AllDigits(d)
    ensures MatchesProcessPattern(a + ">" + b + "@" + d)
    ensures Split(a + ">" + b + "@" + d, '@') == [a + ">" + b, d]
    ensures Split(a + ">" + b, '>') == [a, b]
  {
    var s := a + ">" + b + "@" + d;
    SplitsWithLoops(a, b, d);
    LastCharNotNewline(a + ">" + b + "@", d);
    assert s == (a + ">" + b + "@") + d;
    DigitsLoopShape(d);
    AfterArrowWithLoops(b + "@" + d, b, d);
  }

  lemma DigitsLoopShape(d: string)
    requires |d| > 0 && AllDigits(d)
    ensures LoopCountShape(d)
  {
    DigitsNotWhite(d);
    StripDigits(d, {' '});
  }

  lemma AfterArrowWithLoops(r: string, q0: string, q1: string)
    requires Split(r, '@') == [q0, q1] && |q0| > 0 && AllNameClass(q0) && LoopCountShape(q1)
    ensures AfterArrowShape(r)
  {
  }

  lemma DigitsNotWhite(d: string)
    requires AllDigits(d)
    ensures NoneIn(d, WhiteSpace) && NoneIn(d, {' '})
  {
    forall i | 0 <= i < |d|
      ensures d[i] !in WhiteSpace
    {
      assert IsDigit(d[i]);
    }
  }

  lemma ParseWithLoops(a: string, b: string, d: string)
    requires |d| > 0 && AllDigits(d)
    requires MatchesProcessPattern(a + ">" + b + "@" + d)
    requires Split(a + ">" + b + "@" + d, '@') == [a + ">" + b, d]
    requires Split(a + ">" + b, '>') == [a, b]
    ensures ParseProcessString(a + ">" + b + "@" + d) == Success(Process(Words(a), Words(b), DigitsValue(d)))
  {
    DigitsNotWhite(d);
    StripDigits(d, {' '});
    StripDigits(d, WhiteSpace);
    DigitsRead(d);
    assert PyInt(Strip(d, {' '})) == Some(DigitsValue(d) as int);
  }

  /** The canonical text of a process is accepted by the pattern and read back as that
      process, with 0 loops when no count is written. */
  lemma ParseProcessText(ins: seq<string>, outs: seq<string>, loops: Option<nat>)
    requires AllNames(ins) && AllNames(outs)
    ensures ParseProcessString(ProcessText(ins, outs, loops))
         == Success(Process(ins, outs, if loops.Some? then loops.value else 0))
  {
    var a, b := Join(ins, " "), Join(outs, " ");
    JoinedNames(ins);
    JoinedNames(outs);
    WordsJoin(ins);
    WordsJoin(outs);
    match loops
    case None =>
      assert ProcessText(ins, outs, loops) == a + ">" + b;
      MatchWithoutLoops(a, b);
      ArrowSplit(a, b);
      ParseWithoutLoops(a, b);
    case Some(n) =>
      var d := NatToString(n);
      assert ProcessText(ins, outs, loops) == a + ">" + b + "@" + d;
      MatchWithLoops(a, b, d);
      ParseWithLoops(a, b, d);
      DigitsValueOfNatToString(n);
  }

  /** Cutting `x + y` gives the pieces of `x` and of `y`, the last of the one glued to
      the first of the other. */
  lemma {:induction false} SplitAnyLength(x: string, y: string, seps: set<char>)
    ensures |SplitAny(x + y, seps)| == |SplitAny(x, seps)| + |SplitAny(y, seps)| - 1
  {
    if |x| == 0 {
      assert x + y == y;
    } else {
      assert (x + y)[1..] == x[1..] + y;
      SplitAnyLength(x[1..], y, seps);
    }
  }

  /** A string the pattern accepts has at most one `@`, so the error raised for more
      pieces cannot happen. */
  lemma PatternLimitsLoops(s: string)
    requires MatchesProcessPattern(s)
    ensures |Split(s, '@')| == 1 || |Split(s, '@')| == 2
  {
    var b, nl := LastNewline(s);
    SplitTwo(b, '>');
    var p0, p1 := Split(b, '>')[0], Split(b, '>')[1];
    assert AllNameClass(p0) && AfterArrowShape(p1);
    NameClassFree(p0);
    SplitAnyFree(p0, {'@'});
    SplitAnyFree(['>'], {'@'});
    SplitAnyLength(p0, ['>'], {'@'});
    SplitAnyLength(p0 + ['>'], p1, {'@'});
    SplitAnyFree(nl, {'@'});
    SplitAnyLength(b, nl, {'@'});
  }

  /** No piece of a cut contains a separator. */
  lemma {:induction false} SplitAnyPiecesFree(s: string, seps: set<char>)
    ensures forall k :: 0 <= k < |SplitAny(s, seps)| ==> NoneIn(SplitAny(s, seps)[k], seps)
  {
    if |s| > 0 {
      SplitAnyPiecesFree(s[1..], seps);
      var rest := SplitAny(s[1..], seps);
      if s[0] !in seps {
        var h := [s[0]] + rest[0];
        assert forall i :: 0 < i < |h| ==> h[i] == rest[0][i - 1];
      }
    }
  }

  /** A text cut in two pieces at `c` is the two pieces around one `c`. */
  lemma SplitTwo(s: string, c: char)
    requires |Split(s, c)| == 2
    ensures s == Split(s, c)[0] + [c] + Split(s, c)[1]
    ensures NoneIn(Split(s, c)[0], {c}) && NoneIn(Split(s, c)[1], {c})
  {
    JoinSplit(s, c);
    SplitAnyPiecesFree(s, {c});
    var ps := Split(s, c);
    assert Join(ps, [c]) == ps[0] + [c] + Join(ps[1..], [c]);
    assert ps[1..] == [ps[1]];
  }

  lemma LStripAll(l: string, t: string, cs: set<char>)
    requires forall i :: 0 <= i < |l| ==> l[i] in cs
    requires |t| > 0 && t[0] !in cs
    ensures LStrip(l + t, cs) == t
    decreases |l|
  {
    if |l| > 0 {
      assert (l + t)[1..] == l[1..] + t;
      LStripAll(l[1..], t, cs);
    } else {
      assert l + t == t;
    }
  }

  lemma RStripAll(t: string, r: string, cs: set<char>)
    requires forall i :: 0 <= i < |r| ==> r[i] in cs
    requires |t| > 0 && t[|t| - 1] !in cs
    ensures RStrip(t + r, cs) == t
    decreases |r|
  {
    if |r| > 0 {
      assert (t + r)[..|t + r| - 1] == t + r[..|r| - 1];
      RStripAll(t, r[..|r| - 1], cs);
    } else {
      assert t + r == t;
    }
  }

  lemma LStripPart(u: string, cs: set<char>) returns (l: string)
    ensures u == l + LStrip(u, cs)
    ensures forall i :: 0 <= i < |l| ==> l[i] in cs
  {
    var L := LStrip(u, cs);
    LStripDropped(u, cs);
    l := u[..|u| - |L|];
    assert u == u[..|u| - |L|] + u[|u| - |L|..];
  }

  lemma RStripPart(u: string, cs: set<char>) returns (r: string)
    ensures u == RStrip(u, cs) + r
    ensures forall i :: 0 <= i < |r| ==> r[i] in cs
  {
    var t := RStrip(u, cs);
    RStripDropped(u, cs);
    r := u[|t|..];
    assert u == u[..|t|] + u[|t|..];
  }

  /** A text cut by its stripping: the stripped characters around what is left. */
  lemma StripParts(u: string, cs: set<char>) returns (l: string, r: string)
    ensures u == l + Strip(u, cs) + r
    ensures forall i :: 0 <= i < |l| ==> l[i] in cs
    ensures forall i :: 0 <= i < |r| ==> r[i] in cs
  {
    l := LStripPart(u, cs);
    r := RStripPart(LStrip(u, cs), cs);
    Assoc(l, Strip(u, cs), r);
  }

  lemma DigitsNotSpace(t: string, cs: set<char>)
    requires |t| > 0 && AllDigits(t) && cs <= WhiteSpace
    ensures t[0] !in cs && t[|t| - 1] !in cs
  {
    assert IsDigit(t[0]) && IsDigit(t[|t| - 1]);
  }

  /** Digits followed by white space strip down to the digits. */
  lemma StripOffWhite(t: string, x: string)
    requires |t| > 0 && AllDigits(t)
    requires forall i :: 0 <= i < |x| ==> x[i] in WhiteSpace
    ensures Strip(t + x, WhiteSpace) == t
  {
    DigitsNotSpace(t, WhiteSpace);
    assert (t + x)[0] == t[0];
    assert LStrip(t + x, WhiteSpace) == t + x;
    RStripAll(t, x, WhiteSpace);
  }

  /** Stripping spaces stops at a final newline. */
  lemma StripSpacesNewline(l: string, t: string, r: string)
    requires forall i :: 0 <= i < |l| ==> l[i] in {' '}
    requires |t| > 0 && t[0] != ' '
    ensures Strip(l + t + r + "\n", {' '}) == t + r + "\n"
  {
    Assoc(l, t, r);
    Assoc(l, t + r, "\n");
    LStripAll(l, t + r + "\n", {' '});
    var w := t + r + "\n";
    assert w[|w| - 1] == '\n';
  }

  /** Spaces and a newline are white space. */
  lemma SpacesNewlineWhite(r: string)
    requires forall i :: 0 <= i < |r| ==> r[i] in {' '}
    ensures forall i :: 0 <= i < |r + "\n"| ==> (r + "\n")[i] in WhiteSpace
  {
    assert forall i :: 0 <= i < |r + "\n"| ==> (r + "\n")[i] == if i < |r| then r[i] else '\n';
  }

  lemma DigitsRead(t: string)
    requires |t| > 0 && AllDigits(t)
    ensures ParseInt(t) == Some(DigitsValue(t) as int)
  {
    assert ParseInt(t) == Some(DigitsValue(t) as int);
  }

  lemma LoopCountPlain(u: string)
    requires LoopCountShape(u)
    ensures PyInt(Strip(u, {' '})).Some?
  {
    var t := Strip(u, {' '});
    DigitsRead(t);
    DigitsNotWhite(t);
    StripDigits(t, WhiteSpace);
  }

  lemma LoopCountNewline(u: string)
    requires LoopCountShape(u)
    ensures PyInt(Strip(u + "\n", {' '})).Some?
  {
    var t := Strip(u, {' '});
    DigitsRead(t);
    var l, r := StripParts(u, {' '});
    DigitsNotSpace(t, {' '});
    StripSpacesNewline(l, t, r);
    SpacesNewlineWhite(r);
    Assoc(t, r, "\n");
    StripOffWhite(t, r + "\n");
  }

  /** The text after `@` of an accepted string, with or without the final newline,
      reads as its digits. */
  lemma LoopCountReads(u: string, nl: string)
    requires LoopCountShape(u) && (nl == "" || nl == "\n")
    ensures PyInt(Strip(u + nl, {' '})).Some?
  {
    if nl == "" {
      assert u + nl == u;
      LoopCountPlain(u);
    } else {
      LoopCountNewline(u);
    }
  }

  /** A string with its final newline, if any, taken off. */
  lemma LastNewline(s: string) returns (b: string, nl: string)
    ensures b == (if |s| > 0 && s[|s| - 1] == '\n' then s[..|s| - 1] else s)
    ensures s == b + nl && (nl == "" || nl == "\n")
  {
    if |s| > 0 && s[|s| - 1] == '\n' {
      b, nl := s[..|s| - 1], "\n";
    } else {
      b, nl := s, "";
    }
  }

  lemma NamesNewline(p: string, nl: string)
    requires AllNameClass(p) && (nl == "" || nl == "\n")
    ensures NoneIn(p + nl, {'@'}) && NoneIn(p + nl, {'>'})
  {
    assert forall i :: 0 <= i < |p + nl| ==> (p + nl)[i] == if i < |p| then p[i] else '\n';
  }

  lemma TailNewline(q: string, nl: string)
    requires NoneIn(q, {'@'}) && (nl == "" || nl == "\n")
    ensures NoneIn(q + nl, {'@'})
  {
    assert forall i :: 0 <= i < |q + nl| ==> (q + nl)[i] == if i < |q| then q[i] else '\n';
  }

  /** An accepted string without `@` is one piece at `@` and two at `>`. */
  lemma AcceptedWithoutAt(p0: string, p1: string, nl: string)
    requires AllNameClass(p0) && AllNameClass(p1) && (nl == "" || nl == "\n")
    ensures Split(p0 + ['>'] + p1 + nl, '@') == [p0 + ['>'] + p1 + nl]
    ensures Split(p0 + ['>'] + p1 + nl, '>') == [p0, p1 + nl]
  {
    NamesNewline(p1, nl);
    NameClassFree(p0);
    assert p0 + ['>'] + p1 + nl == p0 + ">" + (p1 + nl);
    NoneInJoin(p0, p1 + nl, '@');
    SplitAnyFree(p0 + ">" + (p1 + nl), {'@'});
    ArrowSplit(p0, p1 + nl);
  }

  /** An accepted string with `@` is two pieces at `@`, the first of them two at `>`. */
  lemma AcceptedWithAt(p0: string, q0: string, q1: string, nl: string)
    requires AllNameClass(p0) && AllNameClass(q0) && NoneIn(q1, {'@'}) && (nl == "" || nl == "\n")
    ensures Split(p0 + ['>'] + (q0 + ['@'] + q1) + nl, '@') == [p0 + ">" + q0, q1 + nl]
    ensures Split(p0 + ">" + q0, '>') == [p0, q0]
  {
    var a := p0 + ">" + q0;
    assert p0 + ['>'] + (q0 + ['@'] + q1) + nl == a + ['@'] + (q1 + nl);
    NameClassFree(p0);
    NameClassFree(q0);
    NoneInJoin(p0, q0, '@');
    TailNewline(q1, nl);
    SplitAnyAt(a, '@', q1 + nl, {'@'});
    SplitAnyFree(a, {'@'});
    SplitAnyFree(q1 + nl, {'@'});
    ArrowSplit(p0, q0);
  }

  /** Every string the pattern accepts is read without error: the `IOError` and the
      failed unpacking of lines 117-136 cannot happen, and the loop count parses. */
  lemma AcceptedParses(s: string)
    requires MatchesProcessPattern(s)
    ensures ParseProcessString(s).Success?
  {
    var b, nl := LastNewline(s);
    SplitTwo(b, '>');
    var p0, p1 := Split(b, '>')[0], Split(b, '>')[1];
    if |Split(p1, '@')| == 1 {
      AcceptedWithoutAt(p0, p1, nl);
    } else {
      SplitTwo(p1, '@');
      var q0, q1 := Split(p1, '@')[0], Split(p1, '@')[1];
      AcceptedWithAt(p0, q0, q1, nl);
      LoopCountReads(q1, nl);
    }
  }

  /** Every character is one of the pattern's particle characters or white space. */
  predicate NameOrWhite(s: string)
  {
    forall i :: 0 <= i < |s| ==> InNameClass(s[i]) || s[i] in WhiteSpace
  }

  lemma {:induction false} PiecesNameOrWhite(s: string)
    requires NameOrWhite(s)
    ensures forall k :: 0 <= k < |SplitAny(s, WhiteSpace)| ==> NameOrWhite(SplitAny(s, WhiteSpace)[k])
  {
    if |s| > 0 {
      PiecesNameOrWhite(s[1..]);
      var rest := SplitAny(s[1..], WhiteSpace);
      if s[0] !in WhiteSpace {
        var h := [s[0]] + rest[0];
        assert forall i :: 0 < i < |h| ==> h[i] == rest[0][i - 1];
      }
    }
  }

  /** `split()` of letters, digits and white space gives names. */
  lemma WordsAreNames(s: string)
    requires NameOrWhite(s)
    ensures forall k :: 0 <= k < |Words(s)| ==> IsName(Words(s)[k])
  {
    var ps := SplitAny(s, WhiteSpace);
    PiecesNameOrWhite(s);
    SplitAnyPiecesFree(s, WhiteSpace);
    forall k | 0 <= k < |Words(s)| ensures IsName(Words(s)[k])
    {
      var x := Words(s)[k];
      assert x in ps;
      var j :| 0 <= j < |ps| && ps[j] == x;
      forall i | 0 <= i < |x| ensures IsLetter(x[i]) || IsDigit(x[i])
      {
        assert NameOrWhite(x) && x[i] !in WhiteSpace;
      }
    }
  }

  lemma NameClassOrWhite(p: string, nl: string)
    requires AllNameClass(p) && (nl == "" || nl == "\n")
    ensures NameOrWhite(p + nl)
  {
    assert forall i :: 0 <= i < |p + nl| ==> (p + nl)[i] == if i < |p| then p[i] else '\n';
  }

  /** The sides of an accepted string without `@`. */
  lemma SidesWithoutAt(s: string, p0: string, p1: string, nl: string)
    requires s == p0 + ['>'] + p1 + nl && AllNameClass(p0) && AllNameClass(p1) && (nl == "" || nl == "\n")
    requires ParseProcessString(s).Success?
    ensures ParseProcessString(s).value.incoming == Words(p0)
    ensures ParseProcessString(s).value.outgoing == Words(p1 + nl)
  {
    AcceptedWithoutAt(p0, p1, nl);
  }

  /** The sides of an accepted string with `@`. */
  lemma SidesWithAt(s: string, p0: string, q0: string, q1: string, nl: string)
    requires s == p0 + ['>'] + (q0 + ['@'] + q1) + nl && AllNameClass(p0) && AllNameClass(q0)
    requires NoneIn(q1, {'@'}) && (nl == "" || nl == "\n")
    requires ParseProcessString(s).Success?
    ensures ParseProcessString(s).value.incoming == Words(p0)
    ensures ParseProcessString(s).value.outgoing == Words(q0)
  {
    AcceptedWithAt(p0, q0, q1, nl);
  }

  /** The particles read from a process string are non-empty runs of letters and
      digits. */
  lemma ParsedNames(s: string)
    requires ParseProcessString(s).Success?
    ensures forall k :: 0 <= k < |ParseProcessString(s).value.incoming| ==> IsName(ParseProcessString(s).value.incoming[k])
    ensures forall k :: 0 <= k < |ParseProcessString(s).value.outgoing| ==> IsName(ParseProcessString(s).value.outgoing[k])
  {
    var a, c := ParsedSides(s);
    WordsAreNames(a);
    WordsAreNames(c);
  }

  /** The two texts whose words are the incoming and the outgoing particles. */
  lemma ParsedSides(s: string) returns (a: string, c: string)
    requires ParseProcessString(s).Success?
    ensures NameOrWhite(a) && ParseProcessString(s).value.incoming == Words(a)
    ensures NameOrWhite(c) && ParseProcessString(s).value.outgoing == Words(c)
  {
    var b, nl := LastNewline(s);
    SplitTwo(b, '>');
    var p0, p1 := Split(b, '>')[0], Split(b, '>')[1];
    assert s == p0 + ['>'] + p1 + nl;
    assert AllNameClass(p0) && AfterArrowShape(p1);
    NameClassOrWhite(p0, "");
    assert p0 + "" == p0;
    a := p0;
    if |Split(p1, '@')| == 1 {
      c := OutgoingWithoutAt(s, p0, p1, nl);
    } else {
      c := OutgoingWithAt(s, p0, p1, nl);
    }
  }

  lemma OutgoingWithoutAt(s: string, p0: string, p1: string, nl: string) returns (c: string)
    requires s == p0 + ['>'] + p1 + nl && AllNameClass(p0) && (nl == "" || nl == "\n")
    requires AfterArrowShape(p1) && |Split(p1, '@')| == 1
    requires ParseProcessString(s).Success?
    ensures ParseProcessString(s).value.incoming == Words(p0)
    ensures NameOrWhite(c) && ParseProcessString(s).value.outgoing == Words(c)
  {
    SidesWithoutAt(s, p0, p1, nl);
    NameClassOrWhite(p1, nl);
    c := p1 + nl;
  }

  lemma OutgoingWithAt(s: string, p0: string, p1: string, nl: string) returns (c: string)
    requires s == p0 + ['>'] + p1 + nl && AllNameClass(p0) && (nl == "" || nl == "\n")
    requires AfterArrowShape(p1) && |Split(p1, '@')| != 1
    requires ParseProcessString(s).Success?
    ensures ParseProcessString(s).value.incoming == Words(p0)
    ensures NameOrWhite(c) && ParseProcessString(s).value.outgoing == Words(c)
  {
    SplitTwo(p1, '@');
    var q0, q1 := Split(p1, '@')[0], Split(p1, '@')[1];
    assert p1 == q0 + ['@'] + q1;
    SidesWithAt(s, p0, q0, q1, nl);
    NameClassOrWhite(q0, "");
    assert q0 + "" == q0;
    c := q0;
  }

  // ---------------------------------------------------------------------------
  // The values filled into the qgraf.dat template (generate_qgraf_data)

  /** The value given as `optional_statements`: `()` is the default, and only the
      empty tuple compares equal to it. */
  datatype Statements = TupleOf(items: seq<string>) | ListOf(items: seq<string>)

  /** The named values `str.format` substitutes into the template. */
  datatype FormatDict = FormatDict(
    outputFile: string,
    styleFile: string,
    modelFile: string,
    incoming: string,
    outgoing: string,
    nLoops: int,
    options: string,
    optionalStatements: string)

  const OptionalStatementsMessage := "Optional statements not yet implemented in QGRAF handler"

  /** `os.path.basename(p)`: what follows the last `/`. */
  function Basename(p: string): (r: string)
    ensures NoneIn(r, {'/'})
  {
    var ps := Split(p, '/');
    SplitAnyPiecesFree(p, {'/'});
    ps[|ps| - 1]
  }

  /** `generate_qgraf_data` of generator/qgraf_setup.py up to the template: any
      optional statement raises `NotImplementedError`; the style and model files are
      named by their base names. */
  function GeneratorFormatDict(outputFile: string, styleFile: string, modelFile: string,
                               incoming: seq<string>, outgoing: seq<string>, nLoops: int,
                               options: seq<string>, optional: Statements): (r: Result<FormatDict>)
    ensures r.Failure? <==> optional != TupleOf([])
    ensures r.Failure? ==> r.error == NotImplementedError(OptionalStatementsMessage)
    ensures r.Success? ==> r.value.outputFile == outputFile && r.value.nLoops == nLoops
    ensures r.Success? ==> NoneIn(r.value.styleFile, {'/'}) && NoneIn(r.value.modelFile, {'/'})
    ensures r.Success? ==> r.value.optionalStatements == ""
  {
    if optional != TupleOf([]) then Failure(NotImplementedError(OptionalStatementsMessage))
    else Success(FormatDict(outputFile, Basename(styleFile), Basename(modelFile),
                            Join(incoming, ", "), Join(outgoing, ", "), nLoops,
                            Join(options, ","), ""))
  }

  /** `generate_qgraf_data` of generate/qgraf_setup.py up to the template: the style
      and model files are the paths `sanitize_input_file_path` finds for them, given
      here as its outcome; the first failure is the one raised. */
  function GenerateFormatDict(outputFile: string, styleFound: Result<string>, modelFound: Result<string>,
                              incoming: seq<string>, outgoing: seq<string>, nLoops: int,
                              options: seq<string>, optional: Statements): (r: Result<FormatDict>)
    ensures optional != TupleOf([]) ==> r == Failure(NotImplementedError(OptionalStatementsMessage))
    ensures optional == TupleOf([]) && styleFound.Failure? ==> r == Failure(styleFound.error)
    ensures optional == TupleOf([]) && styleFound.Success? && modelFound.Failure? ==> r == Failure(modelFound.error)
    ensures r.Success? <==> optional == TupleOf([]) && styleFound.Success? && modelFound.Success?
    ensures r.Success? ==> r.value.styleFile == styleFound.value && r.value.modelFile == modelFound.value
    ensures r.Success? ==> r.value.outputFile == outputFile && r.value.nLoops == nLoops && r.value.optionalStatements == ""
  {
    if optional != TupleOf([]) then Failure(NotImplementedError(OptionalStatementsMessage))
    else
      var style :- styleFound;
      var model :- modelFound;
      Success(FormatDict(outputFile, style, model, Join(incoming, ", "), Join(outgoing, ", "),
                         nLoops, Join(options, ","), ""))
  }

  /** The two copies fill in the same values but for the style and model files. */
  lemma FormatDictsAgree(outputFile: string, styleFile: string, modelFile: string,
                         styleFound: string, modelFound: string,
                         incoming: seq<string>, outgoing: seq<string>, nLoops: int,
                         options: seq<string>, optional: Statements)
    ensures var g := GeneratorFormatDict(outputFile, styleFile, modelFile, incoming, outgoing, nLoops, options, optional);
      var h := GenerateFormatDict(outputFile, Success(styleFound), Success(modelFound), incoming, outgoing, nLoops, options, optional);
      g.Success? == h.Success? &&
      (g.Success? ==> h.value == g.value.(styleFile := styleFound, modelFile := modelFound))
  {
  }

  /** With a last part free of `/`, the base name is that part. */
  lemma BasenameOfPath(dir: string, name: string)
    requires NoneIn(name, {'/'})
    ensures Basename(dir + "/" + name) == name
  {
    assert dir + "/" + name == dir + ['/'] + name;
    SplitAnyLength(dir + ['/'], name, {'/'});
    SplitAnyFree(name, {'/'});
    SplitAnyAt(dir, '/', name, {'/'});
    SplitAnyPiecesFree(dir, {'/'});
  }

  /** `", ".join(xs)` is `",".join` of the names with a space put before all but the
      first. */
  function Spaced(xs: seq<string>): (r: seq<string>)
    requires |xs| > 0
    ensures |r| == |xs| && r[0] == xs[0]
  {
    [xs[0]] + SpaceEach(xs[1..])
  }

  /** Each text with a space put in front. */
  function SpaceEach(ys: seq<string>): (r: seq<string>)
    ensures |r| == |ys|
  {
    if |ys| == 0 then [] else [" " + ys[0]] + SpaceEach(ys[1..])
  }

  lemma {:induction false} SpaceEachAt(ys: seq<string>)
    ensures forall k :: 0 <= k < |ys| ==> SpaceEach(ys)[k] == " " + ys[k]
  {
    if |ys| > 0 {
      SpaceEachAt(ys[1..]);
    }
  }

  lemma {:induction false} JoinCommaSpace(xs: seq<string>)
    requires |xs| > 0
    ensures Join(xs, ", ") == Join(Spaced(xs), ",")
  {
    if |xs| > 1 {
      JoinCommaSpace(xs[1..]);
      var sp := Spaced(xs);
      var tail := [" " + xs[1]] + Spaced(xs[1..])[1..];
      assert xs[1..][1..] == xs[2..];
      assert sp[1..] == SpaceEach(xs[1..]) == tail;
      assert Join(xs, ", ") == xs[0] + "," + (" " + Join(xs[1..], ", "));
      JoinSpaceHead(Spaced(xs[1..]));
    }
  }

  /** A space in front of the first of the joined parts. */
  lemma JoinSpaceHead(ys: seq<string>)
    requires |ys| > 0
    ensures " " + Join(ys, ",") == Join([" " + ys[0]] + ys[1..], ",")
  {
    var zs := [" " + ys[0]] + ys[1..];
    assert zs[0] == " " + ys[0] && zs[1..] == ys[1..];
    if |ys| > 1 {
      var j := Join(ys[1..], ",");
      assert Join(ys, ",") == ys[0] + "," + j;
      assert Join(zs, ",") == " " + ys[0] + "," + j;
      Assoc(" ", ys[0], ",");
      Assoc(" ", ys[0] + ",", j);
    }
  }

  /** Each text with the spaces around it removed. */
  function StripEach(ps: seq<string>): (r: seq<string>)
    ensures |r| == |ps|
  {
    if |ps| == 0 then [] else [Strip(ps[0], {' '})] + StripEach(ps[1..])
  }

  /** The entries of a comma separated list with the spaces around them removed. */
  function Entries(f: string): seq<string>
  {
    StripEach(Split(f, ','))
  }

  lemma {:induction false} StripEachOf(sp: seq<string>, xs: seq<string>)
    requires |sp| == |xs|
    requires forall k :: 0 <= k < |sp| ==> Strip(sp[k], {' '}) == xs[k]
    ensures StripEach(sp) == xs
  {
    if |sp| > 0 {
      StripEachOf(sp[1..], xs[1..]);
      assert [xs[0]] + xs[1..] == xs;
    }
  }

  lemma EntriesOf(f: string, sp: seq<string>, xs: seq<string>)
    requires Split(f, ',') == sp && |sp| == |xs|
    requires forall k :: 0 <= k < |sp| ==> Strip(sp[k], {' '}) == xs[k]
    ensures Entries(f) == xs
  {
    StripEachOf(sp, xs);
  }

  /** The particles written into the template read back as the names given. */
  lemma ParticleListReadBack(xs: seq<string>)
    requires AllNames(xs)
    ensures Entries(Join(xs, ", ")) == xs
  {
    JoinCommaSpace(xs);
    SpacedEntries(xs);
    EntriesOfJoin(Join(xs, ", "), Spaced(xs), xs);
  }

  /** `x` is an entry without commas that reads as `y`. */
  predicate EntryOf(x: string, y: string)
  {
    NoneIn(x, {','}) && Strip(x, {' '}) == y
  }

  lemma EntriesOfJoin(f: string, sp: seq<string>, xs: seq<string>)
    requires f == Join(sp, ",")
    requires |sp| == |xs| && |sp| > 0
    requires forall k :: 0 <= k < |xs| ==> EntryOf(sp[k], xs[k])
    ensures Entries(f) == xs
  {
    SplitJoin(sp, ',');
    EntriesOf(f, sp, xs);
  }

  lemma SpacedEntries(xs: seq<string>)
    requires AllNames(xs)
    ensures forall k :: 0 <= k < |xs| ==> EntryOf(Spaced(xs)[k], xs[k])
  {
    var sp := Spaced(xs);
    SpaceEachAt(xs[1..]);
    forall k | 0 <= k < |sp| ensures EntryOf(sp[k], xs[k])
    {
      assert IsName(xs[k]);
      if k > 0 {
        assert sp[k] == SpaceEach(xs[1..])[k - 1] == " " + xs[k];
        SpacedName(xs[k]);
      } else {
        NameNoSpace(xs[k]);
      }
    }
  }

  /** Options free of commas written into the template read back as given. */
  lemma OptionsReadBack(opts: seq<string>)
    requires |opts| > 0 && forall k :: 0 <= k < |opts| ==> NoneIn(opts[k], {','})
    ensures Split(Join(opts, ","), ',') == opts
  {
    SplitJoin(opts, ',');
  }

  lemma NameNoSpace(x: string)
    requires IsName(x)
    ensures NoneIn(x, {','}) && x[0] != ' ' && Strip(x, {' '}) == x
    ensures RStrip(x, {' '}) == x
  {
    assert NoneIn(x, {' '}) by {
      forall i | 0 <= i < |x| ensures x[i] != ' ' { assert IsLetter(x[i]) || IsDigit(x[i]); }
    }
    assert NoneIn(x, {','}) by {
      forall i | 0 <= i < |x| ensures x[i] != ',' { assert IsLetter(x[i]) || IsDigit(x[i]); }
    }
    StripDigits(x, {' '});
    assert LStrip(x, {' '}) == x;
  }

  lemma SpacedName(x: string)
    requires IsName(x)
    ensures NoneIn(" " + x, {','}) && Strip(" " + x, {' '}) == x
  {
    NameNoSpace(x);
    SpacedNoComma(" ", x);
    SpaceStrip(" ", x, {' '});
  }

  lemma SpaceStrip(l: string, x: string, cs: set<char>)
    requires l == [' '] && cs == {' '}
    requires |x| > 0 && x[0] != ' ' && RStrip(x, cs) == x
    ensures Strip(l + x, cs) == x
  {
    LStripAll(l, x, cs);
  }

  lemma SpacedNoComma(sp: string, x: string)
    requires NoneIn(sp, {','}) && NoneIn(x, {','})
    ensures NoneIn(sp + x, {','})
  {
    assert forall i :: 0 <= i < |sp + x| ==> (sp + x)[i] == if i < |sp| then sp[i] else x[i - |sp|];
  }

  // ---------------------------------------------------------------------------
  // valid_particle_list

  /** `all(p in model.particles for p in particles)`, the model's particles given as
      the names it holds. */
  function ValidParticleList(particles: seq<string>, modelParticles: set<string>): (r: bool)
    ensures r <==> forall k :: 0 <= k < |particles| ==> particles[k] in modelParticles
  {
    if |particles| == 0 then true
    else particles[0] in modelParticles && ValidParticleList(particles[1..], modelParticles)
  }

  /** A list is valid exactly when both of its parts are. */
  lemma {:induction false} ValidParticleListAppend(ps: seq<string>, qs: seq<string>, model: set<string>)
    ensures ValidParticleList(ps + qs, model) == (ValidParticleList(ps, model) && ValidParticleList(qs, model))
  {
    if |ps| > 0 {
      assert (ps + qs)[1..] == ps[1..] + qs;
      ValidParticleListAppend(ps[1..], qs, model);
    } else {
      assert ps + qs == qs;
    }
  }
}
