/** Python's string primitives as the modelled code uses them: `join`, `split`,
    `replace`, `str(int)` and `int(str)`, with the facts the other modules rely on. */
module Text {
  import opened Base

  /** `sep.join(parts)`. */
  function Join(parts: seq<string>, sep: string): string
  {
    if |parts| == 0 then ""
    else if |parts| == 1 then parts[0]
    else parts[0] + sep + Join(parts[1..], sep)
  }

  /** Concatenation regrouped. */
  lemma Assoc<T>(a: seq<T>, b: seq<T>, c: seq<T>)
    ensures a + b + c == a + (b + c)
  {
  }

  lemma {:induction false} JoinAppend(xs: seq<string>, ys: seq<string>, sep: string)
    requires |xs| > 0 && |ys| > 0
    ensures Join(xs + ys, sep) == Join(xs, sep) + sep + Join(ys, sep)
  {
    if |xs| == 1 {
      assert (xs + ys)[1..] == ys;
    } else {
      assert (xs + ys)[1..] == xs[1..] + ys;
      JoinAppend(xs[1..], ys, sep);
    }
  }

  /** `parts[0] + parts[1] + ...`. */
  function Concat(parts: seq<string>): string
  {
    if |parts| == 0 then "" else parts[0] + Concat(parts[1..])
  }

  lemma {:induction false} ConcatAppend(xs: seq<string>, ys: seq<string>)
    ensures Concat(xs + ys) == Concat(xs) + Concat(ys)
  {
    if |xs| == 0 {
      assert xs + ys == ys;
    } else {
      assert (xs + ys)[1..] == xs[1..] + ys;
      ConcatAppend(xs[1..], ys);
    }
  }

  /** True when no character of `s` is in `chars`. */
  predicate NoneIn(s: string, chars: set<char>)
  {
    forall i :: 0 <= i < |s| ==> s[i] !in chars
  }

  /** Splits `s` at every character of `seps`, keeping empty pieces, as
      `re.split("[...]", s)` and (for one separator) `s.split(c)` do. */
  function SplitAny(s: string, seps: set<char>): (r: seq<string>)
    ensures |r| >= 1
  {
    if |s| == 0 then [""]
    else
      var rest := SplitAny(s[1..], seps);
      if s[0] in seps then [""] + rest else [[s[0]] + rest[0]] + rest[1..]
  }

  /** `s.split(c)`. */
  function Split(s: string, c: char): seq<string>
  {
    SplitAny(s, {c})
  }

  lemma {:induction false} SplitAnyFree(x: string, seps: set<char>)
    requires NoneIn(x, seps)
    ensures SplitAny(x, seps) == [x]
  {
    if |x| > 0 {
      SplitAnyFree(x[1..], seps);
      assert [x[0]] + x[1..] == x;
    }
  }

  lemma {:induction false} SplitAnyAt(x: string, c: char, y: string, seps: set<char>)
    requires c in seps
    ensures SplitAny(x + [c] + y, seps) == SplitAny(x, seps) + SplitAny(y, seps)
  {
    if |x| == 0 {
      assert x + [c] + y == [c] + y;
      assert ([c] + y)[1..] == y;
    } else {
      assert (x + [c] + y)[1..] == x[1..] + [c] + y;
      SplitAnyAt(x[1..], c, y, seps);
    }
  }

  /** Splitting what `join` built gives back the parts: `c.join(ps).split(c) == ps`. */
  lemma {:induction false} SplitJoin(parts: seq<string>, c: char)
    requires |parts| > 0
    requires forall k :: 0 <= k < |parts| ==> NoneIn(parts[k], {c})
    ensures Split(Join(parts, [c]), c) == parts
  {
    if |parts| == 1 {
      SplitAnyFree(parts[0], {c});
    } else {
      SplitJoin(parts[1..], c);
      SplitAnyAt(parts[0], c, Join(parts[1..], [c]), {c});
      SplitAnyFree(parts[0], {c});
      assert [parts[0]] + parts[1..] == parts;
    }
  }

  /** Joining what `split` cut gives back the text: `c.join(s.split(c)) == s`. */
  lemma {:induction false} JoinSplit(s: string, c: char)
    ensures Join(Split(s, c), [c]) == s
  {
    if |s| > 0 {
      JoinSplit(s[1..], c);
      var rest := Split(s[1..], c);
      if s[0] != c {
        if |rest| > 1 {
          assert ([[s[0]] + rest[0]] + rest[1..])[1..] == rest[1..];
        }
      }
    }
  }

  /** The pieces of `parts` that are not empty, in order. */
  function NonEmpty(parts: seq<string>): (r: seq<string>)
    ensures forall k :: 0 <= k < |r| ==> r[k] != ""
    ensures forall x :: x in r <==> x in parts && x != ""
    ensures |r| <= |parts|
  {
    if |parts| == 0 then []
    else if parts[0] == "" then NonEmpty(parts[1..])
    else [parts[0]] + NonEmpty(parts[1..])
  }

  lemma {:induction false} NonEmptyAppend(xs: seq<string>, ys: seq<string>)
    ensures NonEmpty(xs + ys) == NonEmpty(xs) + NonEmpty(ys)
  {
    if |xs| == 0 {
      assert xs + ys == ys;
    } else {
      assert (xs + ys)[1..] == xs[1..] + ys;
      NonEmptyAppend(xs[1..], ys);
    }
  }

  /** `s` with every `c` deleted. */
  function Remove(s: string, c: char): (r: string)
    ensures NoneIn(r, {c})
  {
    if |s| == 0 then ""
    else if s[0] == c then Remove(s[1..], c)
    else [s[0]] + Remove(s[1..], c)
  }

  lemma {:induction false} RemoveAppend(x: string, y: string, c: char)
    ensures Remove(x + y, c) == Remove(x, c) + Remove(y, c)
  {
    if |x| == 0 {
      assert x + y == y;
    } else {
      assert (x + y)[1..] == x[1..] + y;
      RemoveAppend(x[1..], y, c);
    }
  }

  lemma {:induction false} RemoveFree(x: string, c: char)
    requires NoneIn(x, {c})
    ensures Remove(x, c) == x
  {
    if |x| > 0 {
      RemoveFree(x[1..], c);
      assert [x[0]] + x[1..] == x;
    }
  }

  /** Gluing the non-empty pieces of `s.split(c)` back together is deleting every `c`. */
  lemma {:induction false} ConcatNonEmptySplit(s: string, c: char)
    ensures Concat(NonEmpty(Split(s, c))) == Remove(s, c)
  {
    if |s| > 0 {
      ConcatNonEmptySplit(s[1..], c);
      var rest := Split(s[1..], c);
      if s[0] != c {
        var head := [s[0]] + rest[0];
        assert Split(s, c) == [head] + rest[1..];
        assert rest == [rest[0]] + rest[1..];
        NonEmptyAppend([rest[0]], rest[1..]);
        NonEmptyAppend([head], rest[1..]);
        assert NonEmpty([head]) == [head];
        ConcatAppend([head], NonEmpty(rest[1..]));
        ConcatAppend(NonEmpty([rest[0]]), NonEmpty(rest[1..]));
        if rest[0] == "" {
          assert NonEmpty([rest[0]]) == [];
          assert head == [s[0]];
        } else {
          assert NonEmpty([rest[0]]) == [rest[0]];
        }
      } else {
        assert Split(s, c) == [""] + rest;
        NonEmptyAppend([""], rest);
      }
    }
  }

  /** `pat` occurs in `s` at some position. */
  predicate Occurs(s: string, pat: string)
    decreases |s|
  {
    |s| >= |pat| && (s[..|pat|] == pat || (|s| > 0 && Occurs(s[1..], pat)))
  }

  /** `s.replace(pat, rep)` for a non-empty `pat`: every occurrence, scanning left to
      right without overlaps, is replaced. */
  function Replace(s: string, pat: string, rep: string): string
    requires |pat| > 0
    decreases |s|
  {
    if |s| < |pat| then s
    else if s[..|pat|] == pat then rep + Replace(s[|pat|..], pat, rep)
    else [s[0]] + Replace(s[1..], pat, rep)
  }

  lemma {:induction false} ReplaceAbsent(s: string, pat: string, rep: string)
    requires |pat| > 0 && !Occurs(s, pat)
    ensures Replace(s, pat, rep) == s
    decreases |s|
  {
    if |s| >= |pat| {
      ReplaceAbsent(s[1..], pat, rep);
      assert [s[0]] + s[1..] == s;
    }
  }

  lemma ReplaceWhole(pat: string, rep: string)
    requires |pat| > 0
    ensures Replace(pat, pat, rep) == rep
  {
    assert pat[..|pat|] == pat;
    assert pat[|pat|..] == "";
  }

  lemma ReplaceShort(s: string, pat: string, rep: string)
    requires |pat| > 0 && |s| < |pat|
    ensures Replace(s, pat, rep) == s
  {
  }

  /** A separator character that the pattern does not contain cuts `replace` in two. */
  lemma {:induction false} ReplaceAround(a: string, c: char, b: string, pat: string, rep: string)
    requires |pat| > 0 && c !in pat
    ensures Replace(a + [c] + b, pat, rep) == Replace(a, pat, rep) + [c] + Replace(b, pat, rep)
    decreases |a|
  {
    var s := a + [c] + b;
    if |a| == 0 {
      ReplaceAroundStart(c, b, pat, rep);
      assert s == [c] + b;
    } else if |s| < |pat| {
      ReplaceShort(a, pat, rep);
      ReplaceShort(b, pat, rep);
    } else if s[..|pat|] == pat {
      ReplaceAroundMatch(a, c, b, pat, rep);
      ReplaceAround(a[|pat|..], c, b, pat, rep);
    } else {
      DropFirst(a, c, b);
      ReplaceAround(a[1..], c, b, pat, rep);
      ReplaceAroundSkip(a, c, b, pat, rep);
      var r := Replace(a[1..], pat, rep);
      Assoc([a[0]], r, [c]);
      Assoc([a[0]], r + [c], Replace(b, pat, rep));
    }
  }

  lemma DropFirst(a: string, c: char, b: string)
    requires |a| > 0
    ensures (a + [c] + b)[1..] == a[1..] + [c] + b
  {
  }

  lemma ReplaceAroundStart(c: char, b: string, pat: string, rep: string)
    requires |pat| > 0 && c !in pat
    ensures Replace([c] + b, pat, rep) == [c] + Replace(b, pat, rep)
  {
    var s := [c] + b;
    assert s[1..] == b;
    if |s| >= |pat| {
      assert s[..|pat|][0] == c;
      assert s[..|pat|] != pat;
    } else {
      ReplaceShort(b, pat, rep);
    }
  }

  lemma ReplaceAroundMatch(a: string, c: char, b: string, pat: string, rep: string)
    requires |pat| > 0 && c !in pat
    requires |a + [c] + b| >= |pat| && (a + [c] + b)[..|pat|] == pat
    ensures |pat| <= |a| && a[..|pat|] == pat
    ensures (a + [c] + b)[|pat|..] == a[|pat|..] + [c] + b
  {
    SeparatorInLongPrefixes(a, c, b);
  }

  lemma SeparatorInLongPrefixes(a: string, c: char, b: string)
    ensures forall n :: |a| < n <= |a + [c] + b| ==> c in (a + [c] + b)[..n]
  {
    var s := a + [c] + b;
    forall n | |a| < n <= |s|
      ensures c in s[..n]
    {
      assert s[..n][|a|] == c;
    }
  }

  lemma ReplaceAroundSkip(a: string, c: char, b: string, pat: string, rep: string)
    requires |pat| > 0 && |a| > 0
    requires |a + [c] + b| >= |pat| && (a + [c] + b)[..|pat|] != pat
    ensures Replace(a, pat, rep) == [a[0]] + Replace(a[1..], pat, rep)
  {
    if |a| >= |pat| {
      assert a[..|pat|] == (a + [c] + b)[..|pat|];
    } else {
      ReplaceShort(a, pat, rep);
      ReplaceShort(a[1..], pat, rep);
      assert [a[0]] + a[1..] == a;
    }
  }

  /** Inserting a character right after each occurrence leaves the text the same once
      that character is deleted again. */
  lemma {:induction false} RemoveReplaceMark(s: string, pat: string, c: char)
    requires |pat| > 0
    ensures Remove(Replace(s, pat, pat + [c]), c) == Remove(s, c)
    decreases |s|
  {
    if |s| >= |pat| {
      if s[..|pat|] == pat {
        RemoveReplaceMark(s[|pat|..], pat, c);
        RemoveAppend(pat + [c], Replace(s[|pat|..], pat, pat + [c]), c);
        RemoveAppend(pat, [c], c);
        RemoveAppend(pat, s[|pat|..], c);
        assert s == pat + s[|pat|..];
      } else {
        RemoveReplaceMark(s[1..], pat, c);
        assert s == [s[0]] + s[1..];
        RemoveAppend([s[0]], s[1..], c);
        RemoveAppend([s[0]], Replace(s[1..], pat, pat + [c]), c);
      }
    }
  }

  /** The position of the first `c` in `s`. */
  function FirstIndex(s: string, c: char): nat
    requires c in s
  {
    if s[0] == c then 0 else 1 + FirstIndex(s[1..], c)
  }

  lemma {:induction false} FirstIndexAfter(x: string, c: char, y: string)
    requires NoneIn(x, {c})
    ensures c in x + [c] + y && FirstIndex(x + [c] + y, c) == |x|
  {
    var s := x + [c] + y;
    assert s[|x|] == c;
    if |x| > 0 {
      FirstIndexAfter(x[1..], c, y);
      assert s[1..] == x[1..] + [c] + y;
    }
  }

  /** `x + c + y` determines `x` and `y` when `x` has no `c`. */
  lemma CutAtFirst(x: string, y: string, x': string, y': string, c: char)
    requires NoneIn(x, {c}) && NoneIn(x', {c})
    requires x + [c] + y == x' + [c] + y'
    ensures x == x' && y == y'
  {
    var s := x + [c] + y;
    FirstIndexAfter(x, c, y);
    FirstIndexAfter(x', c, y');
    assert |x| == |x'|;
    assert x == s[..|x|] == x';
    assert y == s[|x| + 1..] == y';
  }

  // ---------------------------------------------------------------------------
  // Decimal numbers: str(n) and int(s)

  predicate IsDigit(c: char) { '0' <= c <= '9' }

  predicate AllDigits(s: string) { forall i :: 0 <= i < |s| ==> IsDigit(s[i]) }

  /** `[a-zA-Z]`. */
  predicate IsLetter(c: char) { 'a' <= c <= 'z' || 'A' <= c <= 'Z' }

  /** `[a-zA-Z0-9]`. */
  predicate IsAlnum(c: char) { IsLetter(c) || IsDigit(c) }

  function DigitChar(d: nat): (c: char)
    requires d < 10
    ensures IsDigit(c) && c as int - '0' as int == d
  {
    (d + '0' as int) as char
  }

  /** `str(n)` for a non-negative integer: its decimal digits, no leading zero. */
  function NatToString(n: nat): (r: string)
    ensures |r| > 0 && AllDigits(r)
    ensures r[0] == '0' ==> n == 0
    decreases n
  {
    if n < 10 then [DigitChar(n)] else NatToString(n / 10) + [DigitChar(n % 10)]
  }

  /** `str(i)` for any integer. */
  function IntToString(i: int): string
  {
    if i < 0 then "-" + NatToString(-i) else NatToString(i)
  }

  /** `str(i)` is made of digits and at most a leading minus sign. */
  lemma IntToStringChars(i: int)
    ensures forall k :: 0 <= k < |IntToString(i)| ==> IsDigit(IntToString(i)[k]) || IntToString(i)[k] == '-'
  {
    if i < 0 {
      var d := NatToString(-i);
      assert forall k :: 0 < k < |"-" + d| ==> ("-" + d)[k] == d[k - 1];
    }
  }

  /** The value of a string of decimal digits. */
  function DigitsValue(s: string): nat
    requires AllDigits(s)
  {
    if |s| == 0 then 0 else 10 * DigitsValue(s[..|s| - 1]) + (s[|s| - 1] as int - '0' as int)
  }

  lemma {:induction false} DigitsValueOfNatToString(n: nat)
    ensures DigitsValue(NatToString(n)) == n
    decreases n
  {
    var r := NatToString(n);
    if n >= 10 {
      DigitsValueOfNatToString(n / 10);
      assert r[..|r| - 1] == NatToString(n / 10);
    } else {
      assert r[..0] == "";
    }
  }

  /** `str` is injective on non-negative integers. */
  lemma NatToStringInjective(n: nat, m: nat)
    requires NatToString(n) == NatToString(m)
    ensures n == m
  {
    DigitsValueOfNatToString(n);
    DigitsValueOfNatToString(m);
  }

  /** `int(s)`: an optional sign followed by one or more ASCII digits. Python also
      accepts surrounding white space and underscores; the texts modelled here never
      carry them. */
  function ParseInt(s: string): Option<int>
  {
    if |s| > 1 && s[0] == '-' && AllDigits(s[1..]) then Some(-(DigitsValue(s[1..]) as int))
    else if |s| > 1 && s[0] == '+' && AllDigits(s[1..]) then Some(DigitsValue(s[1..]))
    else if |s| > 0 && AllDigits(s) then Some(DigitsValue(s))
    else None
  }

  /** `int(str(i)) == i`. */
  lemma ParseIntToString(i: int)
    ensures ParseInt(IntToString(i)) == Some(i)
  {
    if i < 0 {
      var d := NatToString(-i);
      var s := "-" + d;
      assert s[0] == '-' && s[1..] == d;
      DigitsValueOfNatToString(-i);
      assert |s| > 1 && AllDigits(s[1..]);
      assert ParseInt(s) == Some(-(DigitsValue(d) as int));
    } else {
      var d := NatToString(i);
      DigitsValueOfNatToString(i);
      assert d[0] != '-' && d[0] != '+' by {
        assert IsDigit(d[0]);
      }
      assert ParseInt(d) == Some(DigitsValue(d));
    }
  }

  /** A text `int()` accepts has no letter. */
  lemma ParsedHasNoLetter(s: string)
    requires ParseInt(s).Some?
    ensures forall i :: 0 <= i < |s| ==> !IsLetter(s[i])
  {
    forall i | 0 <= i < |s|
      ensures !IsLetter(s[i])
    {
      if i > 0 && (s[0] == '-' || s[0] == '+') && AllDigits(s[1..]) {
        assert s[1..][i - 1] == s[i];
      }
    }
  }
}
