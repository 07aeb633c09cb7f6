/** The string algebra of models/common_tools/algebra_tools.py: products and sums of
    parenthesised factors, the split of a momentum sum into its signed components, and
    the attachment of an index list to a combination of tensors. */
module AlgebraTools {
  import opened Base
  import opened Text

  // ---------------------------------------------------------------------------
  // parwrap, times, plus, minus

  /** `parwrap(*args)`: every argument between parentheses. */
  function Parwrap(args: seq<string>): (r: seq<string>)
    ensures |r| == |args|
    ensures forall k :: 0 <= k < |args| ==> r[k] == "(" + args[k] + ")"
  {
    seq(|args|, k requires 0 <= k < |args| => "(" + args[k] + ")")
  }

  /** `times(*args)`: the product `(a1)*(a2)*...*(an)`. */
  function Times(args: seq<string>): string
  {
    Join(Parwrap(args), "*")
  }

  /** `plus(*args)`: the sum `(a1)+(a2)+...+(an)`. */
  function Plus(args: seq<string>): string
  {
    Join(Parwrap(args), "+")
  }

  /** `minus(x)` as written: `"-" + parwrap(x)` adds a list to a string, which
      raises a TypeError whatever `x` is. */
  function Minus(x: string): (r: Result<string>)
    ensures r.Failure? && r.error.TypeError?
  {
    Failure(TypeError("can only concatenate str (not \"list\") to str"))
  }

  /** `minus(x)` as its documentation describes it: `-(x)`. */
  function MinusCorrected(x: string): string
  {
    "-" + Times([x])
  }

  /** The negation of a balanced expression is balanced and starts with `-(`. */
  lemma MinusCorrectedBalanced(x: string)
    requires Balanced(x)
    ensures Balanced(MinusCorrected(x))
    ensures MinusCorrected(x)[..2] == "-(" && MinusCorrected(x)[|MinusCorrected(x)| - 1] == ')'
  {
    BalancedWrap(x);
    BalancedPlain("-");
    BalancedAppend("-", "(" + x + ")");
    assert Times([x]) == "(" + x + ")";
  }

  lemma TimesShapes(a: string, b: string, c: string)
    ensures Times([]) == ""
    ensures Times([a]) == "(" + a + ")"
    ensures Times([a, b]) == "(" + a + ")*(" + b + ")"
    ensures Times([a, b, c]) == "(" + a + ")*(" + b + ")*(" + c + ")"
  {
    assert Parwrap([a]) == ["(" + a + ")"];
    assert Parwrap([a, b])[1..] == Parwrap([b]);
    assert Parwrap([a, b, c])[1..] == Parwrap([b, c]);
    assert Parwrap([b, c])[1..] == Parwrap([c]);
    assert Times([b]) == "(" + b + ")";
    assert Times([c]) == "(" + c + ")";
    assert Times([a, b]) == "(" + a + ")" + "*" + "(" + b + ")";
    assert Times([b, c]) == "(" + b + ")" + "*" + "(" + c + ")";
    assert Times([a, b, c]) == "(" + a + ")" + "*" + Times([b, c]);
  }

  lemma PlusShapes(a: string, b: string)
    ensures Plus([]) == ""
    ensures Plus([a]) == "(" + a + ")"
    ensures Plus([a, b]) == "(" + a + ")+(" + b + ")"
  {
    assert Parwrap([a]) == ["(" + a + ")"];
    assert Parwrap([a, b])[1..] == Parwrap([b]);
    assert Plus([b]) == "(" + b + ")";
    assert Plus([a, b]) == "(" + a + ")" + "+" + "(" + b + ")";
  }

  /** A product of two non-empty lists of factors is the two products joined by `*`. */
  lemma TimesAppend(xs: seq<string>, ys: seq<string>)
    requires |xs| > 0 && |ys| > 0
    ensures Times(xs + ys) == Times(xs) + "*" + Times(ys)
  {
    assert Parwrap(xs + ys) == Parwrap(xs) + Parwrap(ys);
    JoinAppend(Parwrap(xs), Parwrap(ys), "*");
  }

  // ---------------------------------------------------------------------------
  // Top-level factors: reading a product back

  function Delta(c: char): int
  {
    if c == '(' then 1 else if c == ')' then -1 else 0
  }

  /** Number of `(` minus number of `)`. */
  function Depth(s: string): int
  {
    if |s| == 0 then 0 else Delta(s[0]) + Depth(s[1..])
  }

  /** Every `)` closes an earlier `(` and none is left open. */
  predicate Balanced(s: string)
  {
    Depth(s) == 0 && forall i :: 0 <= i <= |s| ==> Depth(s[..i]) >= 0
  }

  lemma {:induction false} DepthAppend(x: string, y: string)
    ensures Depth(x + y) == Depth(x) + Depth(y)
  {
    if |x| > 0 {
      assert (x + y)[1..] == x[1..] + y;
      DepthAppend(x[1..], y);
    } else {
      assert x + y == y;
    }
  }

  lemma BalancedAppend(x: string, y: string)
    requires Depth(x) == 0 && (forall i :: 0 <= i <= |x| ==> Depth(x[..i]) >= 0)
    requires Balanced(y)
    ensures Balanced(x + y)
  {
    DepthAppend(x, y);
    forall i | 0 <= i <= |x + y|
      ensures Depth((x + y)[..i]) >= 0
    {
      if i <= |x| {
        assert (x + y)[..i] == x[..i];
      } else {
        assert (x + y)[..i] == x + y[..i - |x|];
        DepthAppend(x, y[..i - |x|]);
      }
    }
  }

  /** A text without parentheses is balanced. */
  lemma {:induction false} BalancedPlain(s: string)
    requires NoneIn(s, {'(', ')'})
    ensures Balanced(s)
  {
    DepthPlain(s);
    forall i | 0 <= i <= |s|
      ensures Depth(s[..i]) >= 0
    {
      DepthPlain(s[..i]);
    }
  }

  lemma {:induction false} DepthPlain(s: string)
    requires NoneIn(s, {'(', ')'})
    ensures Depth(s) == 0
  {
    if |s| > 0 {
      DepthPlain(s[1..]);
    }
  }

  lemma BalancedWrap(a: string)
    requires Balanced(a)
    ensures Balanced("(" + a + ")")
    ensures forall i :: 1 <= i <= |a| + 1 ==> Depth(("(" + a + ")")[..i]) >= 1
  {
    var w := "(" + a + ")";
    DepthAppend("(", a);
    DepthAppend("(" + a, ")");
    forall i | 1 <= i <= |a| + 1
      ensures Depth(w[..i]) >= 1
    {
      assert w[..i] == "(" + a[..i - 1];
      DepthAppend("(", a[..i - 1]);
    }
    assert w[..0] == "";
    assert w[..|w|] == w;
  }

  /** Cuts `s` at every `op` outside all parentheses; `d` is the depth reached so far
      and `acc` the factor being read. */
  function Cut(s: string, op: char, d: int, acc: string): (r: seq<string>)
    ensures |r| >= 1
  {
    if |s| == 0 then [acc]
    else if s[0] == op && d == 0 then [acc] + Cut(s[1..], op, 0, "")
    else Cut(s[1..], op, d + Delta(s[0]), acc + [s[0]])
  }

  /** The top-level factors (for `*`) or terms (for `+`) of an expression. */
  function TopLevel(s: string, op: char): seq<string>
  {
    Cut(s, op, 0, "")
  }

  lemma {:induction false} CutThrough(x: string, rest: string, op: char, d: int, acc: string)
    requires forall i :: 0 <= i < |x| && x[i] == op ==> d + Depth(x[..i]) != 0
    ensures Cut(x + rest, op, d, acc) == Cut(rest, op, d + Depth(x), acc + x)
  {
    if |x| == 0 {
      assert x + rest == rest;
      assert acc + x == acc;
    } else {
      assert x[..0] == "";
      assert (x + rest)[1..] == x[1..] + rest;
      var d' := d + Delta(x[0]);
      forall i | 0 <= i < |x[1..]| && x[1..][i] == op
        ensures d' + Depth(x[1..][..i]) != 0
      {
        assert x[..i + 1] == [x[0]] + x[1..][..i];
        assert x[i + 1] == op;
      }
      CutThrough(x[1..], rest, op, d', acc + [x[0]]);
      assert acc + [x[0]] + x[1..] == acc + x;
    }
  }

  /** Reading a product back: the top-level factors of `(a1)op...op(an)` are the
      parenthesised arguments, provided each argument is balanced. */
  lemma {:induction false} TopLevelOfJoin(args: seq<string>, op: char)
    requires |args| > 0 && op != '(' && op != ')'
    requires forall k :: 0 <= k < |args| ==> Balanced(args[k])
    ensures TopLevel(Join(Parwrap(args), [op]), op) == Parwrap(args)
  {
    var w := "(" + args[0] + ")";
    BalancedWrap(args[0]);
    assert w[..0] == "";
    if |args| == 1 {
      assert Join(Parwrap(args), [op]) == w + "";
      CutThrough(w, "", op, 0, "");
      assert "" + w == w;
      assert Parwrap(args) == [w];
    } else {
      var j := Join(Parwrap(args[1..]), [op]);
      assert Parwrap(args)[1..] == Parwrap(args[1..]);
      assert Join(Parwrap(args), [op]) == w + ([op] + j);
      CutThrough(w, [op] + j, op, 0, "");
      assert ([op] + j)[1..] == j && ([op] + j)[0] == op;
      assert "" + w == w;
      assert Cut([op] + j, op, 0, w) == [w] + Cut(j, op, 0, "");
      TopLevelOfJoin(args[1..], op);
      assert Parwrap(args) == [w] + Parwrap(args[1..]);
    }
  }

  /** A product of n balanced factors has exactly n top-level factors, each its
      argument in parentheses. */
  lemma TimesFactors(args: seq<string>)
    requires |args| > 0
    requires forall k :: 0 <= k < |args| ==> Balanced(args[k])
    ensures TopLevel(Times(args), '*') == Parwrap(args)
    ensures |TopLevel(Times(args), '*')| == |args|
  {
    TopLevelOfJoin(args, '*');
  }

  /** A sum of n balanced terms has exactly n top-level terms. */
  lemma PlusTerms(args: seq<string>)
    requires |args| > 0
    requires forall k :: 0 <= k < |args| ==> Balanced(args[k])
    ensures TopLevel(Plus(args), '+') == Parwrap(args)
  {
    TopLevelOfJoin(args, '+');
  }

  /** A product of balanced factors is balanced. */
  lemma {:induction false} TimesBalanced(args: seq<string>)
    requires forall k :: 0 <= k < |args| ==> Balanced(args[k])
    ensures Balanced(Times(args))
  {
    if |args| == 0 {
      BalancedPlain("");
    } else if |args| == 1 {
      BalancedWrap(args[0]);
    } else {
      TimesBalanced(args[1..]);
      BalancedWrap(args[0]);
      assert Parwrap(args)[1..] == Parwrap(args[1..]);
      var w := "(" + args[0] + ")";
      BalancedPlain("*");
      BalancedAppend("*", Times(args[1..]));
      BalancedAppend(w, "*" + Times(args[1..]));
      assert Times(args) == w + ("*" + Times(args[1..]));
    }
  }

  // ---------------------------------------------------------------------------
  // pparse: the signed components of a momentum sum

  const Signs: set<char> := {'+', '-'}

  predicate AllSigns(s: string)
  {
    forall i :: 0 <= i < |s| ==> s[i] in Signs
  }

  /** `re.split("[+-]", p)`: the sign-free runs of `p`. */
  function SplitSigns(p: string): seq<string>
  {
    SplitAny(p, Signs)
  }

  /** The loop of pparse and of the g,g,g vertex: for each `m` of `moms` in turn,
      `p = p.replace(m, m + suffix)`. */
  function FoldReplace(p: string, moms: seq<string>, suffix: string): string
    requires forall k :: 0 <= k < |moms| ==> moms[k] != ""
  {
    if |moms| == 0 then p
    else
      var last := moms[|moms| - 1];
      Replace(FoldReplace(p, moms[..|moms| - 1], suffix), last, last + suffix)
  }

  /** `pparse(p)`: mark the end of every run with a comma, split at the commas and
      drop the empty pieces. */
  function PParseSpec(p: string): (r: seq<string>)
    ensures forall k :: 0 <= k < |r| ==> r[k] != ""
  {
    NonEmpty(Split(FoldReplace(p, NonEmpty(SplitSigns(p)), ","), ','))
  }

  /** pparse, computed as the source computes it. */
  method PParse(p: string) returns (r: seq<string>)
    ensures r == PParseSpec(p)
  {
    var moms := NonEmpty(SplitSigns(p));
    var cur := p;
    var i := 0;
    while i < |moms|
      invariant 0 <= i <= |moms|
      invariant cur == FoldReplace(p, moms[..i], ",")
    {
      assert moms[..i + 1][..i] == moms[..i];
      cur := Replace(cur, moms[i], moms[i] + ",");
      i := i + 1;
    }
    assert moms[..|moms|] == moms;
    r := NonEmpty(Split(cur, ','));
  }

  /** Gluing the components back gives `p` with its commas deleted; for a momentum
      without commas, exactly `p`. This holds for every `p`. */
  lemma PParseConcat(p: string)
    ensures Concat(PParseSpec(p)) == Remove(p, ',')
    ensures NoneIn(p, {','}) ==> Concat(PParseSpec(p)) == p
  {
    var moms := NonEmpty(SplitSigns(p));
    FoldKeepsText(p, moms);
    ConcatNonEmptySplit(FoldReplace(p, moms, ","), ',');
    if NoneIn(p, {','}) {
      RemoveFree(p, ',');
    }
  }

  lemma {:induction false} FoldKeepsText(p: string, moms: seq<string>)
    requires forall k :: 0 <= k < |moms| ==> moms[k] != ""
    ensures Remove(FoldReplace(p, moms, ","), ',') == Remove(p, ',')
  {
    if |moms| > 0 {
      var last := moms[|moms| - 1];
      FoldKeepsText(p, moms[..|moms| - 1]);
      RemoveReplaceMark(FoldReplace(p, moms[..|moms| - 1], ","), last, ',');
    }
  }

  // --- an independent reference: signed terms

  /** A term with a body: signs, then a non-empty sign-free run. */
  predicate Shape(t: string)
    decreases |t|
  {
    |t| > 0 && if t[0] in Signs then Shape(t[1..]) else NoneIn(t, Signs)
  }

  /** A term: a body, or (only at the very end) a non-empty block of bare signs. */
  predicate TermShape(t: string)
  {
    Shape(t) || (t != "" && AllSigns(t))
  }

  /** Scans `s` character by character; `acc` is the term being read and `inRun` says
      whether it already has a sign-free character, so that the next sign starts a
      new term. */
  function TermsFrom(s: string, acc: string, inRun: bool): seq<string>
    decreases |s|
  {
    if |s| == 0 then (if acc == "" then [] else [acc])
    else if s[0] in Signs && inRun then [acc] + TermsFrom(s[1..], [s[0]], false)
    else TermsFrom(s[1..], acc + [s[0]], inRun || s[0] !in Signs)
  }

  /** The signed terms of `p`: each term is a maximal block of signs followed by the
      sign-free characters up to the next sign. */
  function Terms(p: string): seq<string>
  {
    TermsFrom(p, "", false)
  }

  lemma {:induction false} ScanSigns(sg: string, t: string, acc: string)
    requires AllSigns(sg)
    ensures TermsFrom(sg + t, acc, false) == TermsFrom(t, acc + sg, false)
  {
    if |sg| > 0 {
      assert (sg + t)[1..] == sg[1..] + t;
      ScanSigns(sg[1..], t, acc + [sg[0]]);
      assert acc + [sg[0]] + sg[1..] == acc + sg;
    } else {
      assert sg + t == t && acc + sg == acc;
    }
  }

  lemma {:induction false} ScanRun(run: string, t: string, acc: string, b: bool)
    requires NoneIn(run, Signs)
    ensures TermsFrom(run + t, acc, b) == TermsFrom(t, acc + run, b || run != "")
  {
    if |run| > 0 {
      assert (run + t)[1..] == run[1..] + t;
      ScanRun(run[1..], t, acc + [run[0]], true);
      assert acc + [run[0]] + run[1..] == acc + run;
    } else {
      assert run + t == t && acc + run == acc;
    }
  }

  /** After a finished term, the scan goes on exactly as a fresh scan of the rest. */
  lemma ScanCut(acc: string, rest: string)
    requires |rest| == 0 || rest[0] in Signs
    ensures TermsFrom(rest, acc, true) ==
            (if acc == "" && rest == "" then [] else [acc]) + Terms(rest)
  {
    if |rest| > 0 {
      assert "" + [rest[0]] == [rest[0]];
    }
  }

  lemma {:induction false} ScanShape(t: string, rest: string, acc: string)
    requires Shape(t) && (|rest| == 0 || rest[0] in Signs)
    ensures TermsFrom(t + rest, acc, false) == [acc + t] + Terms(rest)
    decreases |t|
  {
    if t[0] in Signs {
      assert (t + rest)[1..] == t[1..] + rest;
      ScanShape(t[1..], rest, acc + [t[0]]);
      assert acc + [t[0]] + t[1..] == acc + t;
    } else {
      ScanRun(t, rest, acc, false);
      ScanCut(acc + t, rest);
    }
  }

  /** A term with a body, followed by a sign or the end, is read as one term. */
  lemma TermsShape(t: string, rest: string)
    requires Shape(t) && (|rest| == 0 || rest[0] in Signs)
    ensures Terms(t + rest) == [t] + Terms(rest)
  {
    ScanShape(t, rest, "");
    assert "" + t == t;
  }

  lemma {:induction false} ShapeOf(sg: string, run: string)
    requires AllSigns(sg) && run != "" && NoneIn(run, Signs)
    ensures Shape(sg + run)
  {
    if |sg| > 0 {
      assert (sg + run)[1..] == sg[1..] + run;
      ShapeOf(sg[1..], run);
    } else {
      assert sg + run == run;
    }
  }

  /** A block of signs, a non-empty run and then a sign (or the end) is one term. */
  lemma TermsHead(sg: string, run: string, rest: string)
    requires AllSigns(sg) && run != "" && NoneIn(run, Signs)
    requires |rest| == 0 || rest[0] in Signs
    ensures Terms(sg + run + rest) == [sg + run] + Terms(rest)
  {
    ShapeOf(sg, run);
    TermsShape(sg + run, rest);
  }

  /** A non-empty block made only of signs is one term. */
  lemma TermsOfSigns(sg: string)
    requires AllSigns(sg) && sg != ""
    ensures Terms(sg) == [sg]
  {
    ScanSigns(sg, "", "");
    assert sg + "" == sg && "" + sg == sg;
  }

  lemma {:induction false} ShapeSuffix(t: string, idx: string)
    requires TermShape(t) && idx != "" && NoneIn(idx, Signs)
    ensures Shape(t + idx)
    decreases |t|
  {
    assert (t + idx)[0] == t[0];
    if t[0] !in Signs {
      assert NoneIn(t + idx, Signs);
    } else if |t| == 1 {
      assert (t + idx)[1..] == idx;
    } else {
      assert (t + idx)[1..] == t[1..] + idx;
      assert TermShape(t[1..]);
      ShapeSuffix(t[1..], idx);
    }
  }

  /** What the scan keeps true: an open term without a body holds only signs, one with
      a body is a `Shape`. */
  predicate ScanState(acc: string, inRun: bool)
  {
    if inRun then Shape(acc) else AllSigns(acc)
  }

  lemma {:induction false} AppendShape(acc: string, c: char, inRun: bool)
    requires ScanState(acc, inRun) && !(c in Signs && inRun)
    ensures ScanState(acc + [c], inRun || c !in Signs)
    decreases |acc|
  {
    if inRun {
      if acc[0] in Signs {
        assert (acc + [c])[1..] == acc[1..] + [c];
        AppendShape(acc[1..], c, true);
      } else {
        assert NoneIn(acc + [c], Signs);
      }
    } else if c !in Signs {
      ShapeOf(acc, [c]);
    }
  }

  /** Properties of the scan, by induction on the text still to read. */
  lemma {:induction false} ScanProperties(s: string, acc: string, inRun: bool)
    requires ScanState(acc, inRun)
    ensures Concat(TermsFrom(s, acc, inRun)) == acc + s
    ensures forall k :: 0 <= k < |TermsFrom(s, acc, inRun)| ==> TermShape(TermsFrom(s, acc, inRun)[k])
    ensures forall k :: 1 <= k < |TermsFrom(s, acc, inRun)| ==>
      TermsFrom(s, acc, inRun)[k] != "" && TermsFrom(s, acc, inRun)[k][0] in Signs
    ensures acc != "" ==> |TermsFrom(s, acc, inRun)| > 0 && TermsFrom(s, acc, inRun)[0] != "" &&
                          TermsFrom(s, acc, inRun)[0][0] == acc[0]
    ensures s != "" ==> |TermsFrom(s, acc, inRun)| > 0
    decreases |s|
  {
    var r := TermsFrom(s, acc, inRun);
    if |s| == 0 {
      assert acc + s == acc;
      if acc != "" {
        assert Concat(r) == acc + Concat([]);
      }
    } else if s[0] in Signs && inRun {
      var r' := TermsFrom(s[1..], [s[0]], false);
      ScanProperties(s[1..], [s[0]], false);
      assert r == [acc] + r';
      ConcatAppend([acc], r');
      assert Concat([acc]) == acc + Concat([]);
      assert [s[0]] + s[1..] == s;
      assert r'[0][0] == s[0];
    } else {
      AppendShape(acc, s[0], inRun);
      ScanProperties(s[1..], acc + [s[0]], inRun || s[0] !in Signs);
      assert acc + [s[0]] + s[1..] == acc + s;
      if acc != "" {
        assert (acc + [s[0]])[0] == acc[0];
      }
    }
  }

  /** The reference terms glue back to `p`, each has term shape, and every term after
      the first starts with a sign. */
  lemma TermsProperties(p: string)
    ensures Concat(Terms(p)) == p
    ensures forall k :: 0 <= k < |Terms(p)| ==> TermShape(Terms(p)[k]) && Terms(p)[k] != ""
    ensures forall k :: 1 <= k < |Terms(p)| ==> Terms(p)[k] != "" && Terms(p)[k][0] in Signs
    ensures p != "" ==> |Terms(p)| > 0 && Terms(p)[0] != "" && Terms(p)[0][0] == p[0]
  {
    ScanProperties(p, "", false);
    assert "" + p == p;
    if p != "" {
      var ts := Terms(p);
      ConcatAppend([ts[0]], ts[1..]);
      assert ts == [ts[0]] + ts[1..];
      assert Concat([ts[0]]) == ts[0] + Concat([]);
    }
  }

  /** A list of terms, each after the first starting with a sign, is read back as
      itself. */
  lemma {:induction false} TermsOfConcat(ts: seq<string>)
    requires forall k :: 0 <= k < |ts| ==> Shape(ts[k])
    requires forall k :: 1 <= k < |ts| ==> ts[k] != "" && ts[k][0] in Signs
    ensures Terms(Concat(ts)) == ts
    ensures |ts| > 0 ==> Concat(ts) != "" && ts[0] != "" && Concat(ts)[0] == ts[0][0]
  {
    if |ts| > 0 {
      TermsOfConcat(ts[1..]);
      var rest := Concat(ts[1..]);
      if |ts| > 1 {
        assert rest[0] == ts[1][0];
      }
      TermsShape(ts[0], rest);
      assert ts == [ts[0]] + ts[1..];
    }
  }

  // --- the structural proof that pparse computes the terms

  /** Length of the leading sign-free run. */
  function RunLen(p: string): (n: nat)
    ensures n <= |p|
  {
    if |p| > 0 && p[0] !in Signs then 1 + RunLen(p[1..]) else 0
  }

  lemma {:induction false} RunLenFree(p: string)
    ensures NoneIn(p[..RunLen(p)], Signs)
    ensures RunLen(p) < |p| ==> p[RunLen(p)] in Signs
  {
    if |p| > 0 && p[0] !in Signs {
      RunLenFree(p[1..]);
      assert p[..RunLen(p)] == [p[0]] + p[1..][..RunLen(p[1..])];
    }
  }

  /** No non-empty run of `p` occurs inside another run of `p` (a run may repeat). */
  predicate NoNestedRuns(p: string)
  {
    forall m, y :: m in SplitSigns(p) && m != "" && y in SplitSigns(p) && Occurs(y, m) ==> y == m
  }

  function Commas(k: nat): (r: string)
    ensures |r| == k && forall i :: 0 <= i < k ==> r[i] == ','
  {
    if k == 0 then "" else [','] + Commas(k - 1)
  }

  /** `p` with `c` commas after each run, `c` being how often the run is in `moms`. */
  function Mark(p: string, moms: seq<string>): string
    decreases |p|
  {
    var n := RunLen(p);
    p[..n] + Commas(multiset(moms)[p[..n]])
      + (if n == |p| then "" else [p[n]] + Mark(p[n + 1..], moms))
  }

  /** A sign-free text is a single run. */
  lemma SplitSignsRun(x: string)
    requires NoneIn(x, Signs)
    ensures SplitSigns(x) == [x]
  {
    SplitAnyFree(x, Signs);
  }

  /** A sign separates the runs before it from the runs after it. */
  lemma SplitSignsAt(x: string, c: char, y: string)
    requires c in Signs
    ensures SplitSigns(x + [c] + y) == SplitSigns(x) + SplitSigns(y)
  {
    SplitAnyAt(x, c, y, Signs);
  }

  lemma SliceAround(p: string, n: nat)
    requires n < |p|
    ensures p == p[..n] + [p[n]] + p[n + 1..]
  {
  }

  /** Cutting at a sign that ends a sign-free prefix. */
  lemma SplitSignsCut(p: string, n: nat)
    requires n < |p| && p[n] in Signs && NoneIn(p[..n], Signs)
    ensures SplitSigns(p) == [p[..n]] + SplitSigns(p[n + 1..])
  {
    SliceAround(p, n);
    SplitSignsAt(p[..n], p[n], p[n + 1..]);
    SplitSignsRun(p[..n]);
  }

  /** How `re.split` sees the first run. */
  lemma RunsStep(p: string)
    ensures NoneIn(p[..RunLen(p)], Signs)
    ensures RunLen(p) < |p| ==> p[RunLen(p)] in Signs
    ensures RunLen(p) == |p| ==> SplitSigns(p) == [p]
    ensures RunLen(p) < |p| ==>
      p == p[..RunLen(p)] + [p[RunLen(p)]] + p[RunLen(p) + 1..] &&
      SplitSigns(p) == [p[..RunLen(p)]] + SplitSigns(p[RunLen(p) + 1..])
  {
    var n := RunLen(p);
    RunLenFree(p);
    if n == |p| {
      assert p[..n] == p;
      SplitSignsRun(p);
    } else {
      SliceAround(p, n);
      SplitSignsCut(p, n);
    }
  }

  lemma {:induction false} SplitSignsPieces(p: string, x: set<char>)
    requires NoneIn(p, x)
    ensures forall y :: y in SplitSigns(p) ==> NoneIn(y, x) && NoneIn(y, Signs)
    decreases |p|
  {
    RunsStep(p);
    var n := RunLen(p);
    assert p[..n] == p[..n];
    assert NoneIn(p[..n], x);
    if n < |p| {
      SplitSignsPieces(p[n + 1..], x);
    }
  }

  lemma {:induction false} OccursFirstChar(s: string, m: string)
    requires m != "" && Occurs(s, m)
    ensures m[0] in s
    decreases |s|
  {
    if s[..|m|] == m {
      assert s[0] == m[0];
    } else {
      OccursFirstChar(s[1..], m);
    }
  }

  lemma OccursLength(s: string, m: string)
    requires Occurs(s, m)
    ensures |s| >= |m|
  {
  }

  /** One replacement step on a run followed by its commas. */
  lemma ReplaceRun(run: string, k: nat, m: string)
    requires m != "" && NoneIn(m, {','}) && NoneIn(run, {','})
    requires Occurs(run, m) ==> run == m
    ensures Replace(run + Commas(k), m, m + ",") ==
            run + Commas(k + if run == m then 1 else 0)
  {
    var cs := Commas(k);
    var r := if run == m then m + "," else run;
    if run == m {
      ReplaceWhole(m, m + ",");
    } else {
      ReplaceAbsent(run, m, m + ",");
    }
    if k == 0 {
      assert run + cs == run;
      assert r == run + Commas(if run == m then 1 else 0);
    } else {
      assert cs == [','] + Commas(k - 1);
      assert run + cs == run + [','] + Commas(k - 1);
      assert m[0] != ',';
      if Occurs(Commas(k - 1), m) {
        OccursFirstChar(Commas(k - 1), m);
      }
      ReplaceAbsent(Commas(k - 1), m, m + ",");
      ReplaceAround(run, ',', Commas(k - 1), m, m + ",");
      assert r + [','] + Commas(k - 1) == run + Commas(k + if run == m then 1 else 0);
    }
  }

  /** The first run is one of the runs, and so is every run after the first sign. */
  lemma RunsOf(p: string)
    ensures p[..RunLen(p)] in SplitSigns(p)
    ensures RunLen(p) < |p| ==>
      forall y :: y in SplitSigns(p[RunLen(p) + 1..]) ==> y in SplitSigns(p)
  {
    RunsStep(p);
    if RunLen(p) == |p| {
      assert p[..RunLen(p)] == p;
    } else {
      assert SplitSigns(p)[0] == p[..RunLen(p)];
    }
  }

  /** `Mark` of a text whose first run ends at a sign. */
  lemma MarkCons(p: string, moms: seq<string>)
    requires RunLen(p) < |p|
    ensures Mark(p, moms) == p[..RunLen(p)] + Commas(multiset(moms)[p[..RunLen(p)]])
                             + [p[RunLen(p)]] + Mark(p[RunLen(p) + 1..], moms)
  {
  }

  /** `Mark` of a text that is a single run. */
  lemma MarkRun(p: string, moms: seq<string>)
    requires RunLen(p) == |p|
    ensures Mark(p, moms) == p + Commas(multiset(moms)[p])
  {
    assert p[..RunLen(p)] == p;
  }

  /** A character outside the pattern cuts a replacement in two. */
  lemma ReplaceJoin(a: string, c: char, b: string, m: string, x: string, y: string)
    requires |m| > 0 && c !in m
    requires Replace(a, m, m + ",") == x && Replace(b, m, m + ",") == y
    ensures Replace(a + [c] + b, m, m + ",") == x + [c] + y
  {
    ReplaceAround(a, c, b, m, m + ",");
  }

  /** One replacement of a run name adds one comma after exactly the runs equal to it. */
  lemma {:induction false} MarkStep(p: string, moms: seq<string>, m: string)
    requires m != "" && NoneIn(m, {','}) && NoneIn(m, Signs) && NoneIn(p, {','})
    requires forall y :: y in SplitSigns(p) && Occurs(y, m) ==> y == m
    ensures Replace(Mark(p, moms), m, m + ",") == Mark(p, moms + [m])
    decreases |p|, 1
  {
    var n := RunLen(p);
    var run := p[..n];
    var k := multiset(moms)[run];
    var k' := multiset(moms + [m])[run];
    MarkStepHead(p, moms, m);
    if n < |p| {
      var rest := p[n + 1..];
      MarkStepTail(p, moms, m);
      MarkCons(p, moms);
      MarkCons(p, moms + [m]);
      ReplaceJoin(run + Commas(k), p[n], Mark(rest, moms), m, run + Commas(k'), Mark(rest, moms + [m]));
    } else {
      MarkRun(p, moms);
      MarkRun(p, moms + [m]);
      assert run == p;
    }
  }

  /** The first run and its commas. */
  lemma MarkStepHead(p: string, moms: seq<string>, m: string)
    requires m != "" && NoneIn(m, {','}) && NoneIn(p, {','})
    requires forall y :: y in SplitSigns(p) && Occurs(y, m) ==> y == m
    ensures Replace(p[..RunLen(p)] + Commas(multiset(moms)[p[..RunLen(p)]]), m, m + ",") ==
            p[..RunLen(p)] + Commas(multiset(moms + [m])[p[..RunLen(p)]])
  {
    var run := p[..RunLen(p)];
    RunsOf(p);
    assert NoneIn(run, {','});
    assert multiset(moms + [m])[run] == multiset(moms)[run] + if run == m then 1 else 0;
    ReplaceRun(run, multiset(moms)[run], m);
  }

  /** What follows the first sign. */
  lemma {:induction false} MarkStepTail(p: string, moms: seq<string>, m: string)
    requires m != "" && NoneIn(m, {','}) && NoneIn(m, Signs) && NoneIn(p, {','})
    requires forall y :: y in SplitSigns(p) && Occurs(y, m) ==> y == m
    requires RunLen(p) < |p|
    ensures p[RunLen(p)] !in m
    ensures Replace(Mark(p[RunLen(p) + 1..], moms), m, m + ",") == Mark(p[RunLen(p) + 1..], moms + [m])
    decreases |p|, 0
  {
    var rest := p[RunLen(p) + 1..];
    RunsStep(p);
    RunsOf(p);
    assert NoneIn(rest, {','});
    MarkStep(rest, moms, m);
  }

  lemma {:induction false} MarkNothing(p: string)
    ensures Mark(p, []) == p
    decreases |p|
  {
    var n := RunLen(p);
    RunsStep(p);
    if n < |p| {
      MarkNothing(p[n + 1..]);
    } else {
      assert p[..n] == p;
    }
  }

  /** Folding the replacements over run names builds `Mark`. */
  lemma {:induction false} FoldIsMark(p: string, moms: seq<string>)
    requires NoneIn(p, {','}) && NoNestedRuns(p)
    requires forall k :: 0 <= k < |moms| ==> moms[k] != "" && moms[k] in SplitSigns(p)
    ensures FoldReplace(p, moms, ",") == Mark(p, moms)
  {
    if |moms| == 0 {
      MarkNothing(p);
    } else {
      var init := moms[..|moms| - 1];
      var last := moms[|moms| - 1];
      FoldIsMark(p, init);
      SplitSignsPieces(p, {','});
      MarkStep(p, init, last);
      assert init + [last] == moms;
    }
  }

  /** The non-empty comma-separated pieces of a text. */
  function Pieces(s: string): seq<string>
  {
    NonEmpty(Split(s, ','))
  }

  lemma {:induction false} CommasThenSplit(j: nat, t: string)
    ensures Pieces(Commas(j) + t) == Pieces(t)
  {
    if j > 0 {
      assert Commas(j) + t == [] + [','] + (Commas(j - 1) + t);
      SplitAnyAt([], ',', Commas(j - 1) + t, {','});
      NonEmptyAppend([""], Split(Commas(j - 1) + t, ','));
      CommasThenSplit(j - 1, t);
    } else {
      assert Commas(j) + t == t;
    }
  }

  /** A comma-free head followed by at least one comma is one piece. */
  lemma PiecesHead(head: string, k: nat, tail: string)
    requires head != "" && NoneIn(head, {','}) && k > 0
    ensures Pieces(head + Commas(k) + tail) == [head] + Pieces(tail)
  {
    assert Commas(k) == [','] + Commas(k - 1);
    assert head + Commas(k) + tail == head + [','] + (Commas(k - 1) + tail);
    SplitAnyAt(head, ',', Commas(k - 1) + tail, {','});
    SplitAnyFree(head, {','});
    NonEmptyAppend([head], Split(Commas(k - 1) + tail, ','));
    CommasThenSplit(k - 1, tail);
  }

  /** A comma-free text is at most one piece. */
  lemma PiecesFree(s: string)
    requires NoneIn(s, {','})
    ensures Pieces(s) == if s == "" then [] else [s]
  {
    SplitAnyFree(s, {','});
  }

  /** What MarkedPieces asks of the comma counts: every non-empty run of `p` is counted,
      the empty run is not. */
  predicate CountsRuns(p: string, moms: seq<string>)
  {
    (forall y :: y in SplitSigns(p) && y != "" ==> multiset(moms)[y] > 0) && multiset(moms)[""] == 0
  }

  /** Splitting the marked text at its commas gives the reference terms. */
  lemma {:induction false} MarkedPieces(sg: string, p: string, moms: seq<string>)
    requires AllSigns(sg) && NoneIn(p, {','}) && CountsRuns(p, moms)
    ensures Pieces(sg + Mark(p, moms)) == Terms(sg + p)
    decreases |p|, 1
  {
    var n := RunLen(p);
    if n == |p| {
      MarkedPiecesLast(sg, p, moms);
    } else if n > 0 {
      MarkedPiecesRun(sg, p, moms);
    } else {
      MarkedPiecesSign(sg, p, moms);
    }
  }

  /** The last run (possibly empty). */
  lemma MarkedPiecesLast(sg: string, p: string, moms: seq<string>)
    requires AllSigns(sg) && NoneIn(p, {','}) && CountsRuns(p, moms) && RunLen(p) == |p|
    ensures Pieces(sg + Mark(p, moms)) == Terms(sg + p)
  {
    RunsOf(p);
    RunsStep(p);
    MarkRun(p, moms);
    var k := multiset(moms)[p];
    assert p[..RunLen(p)] == p;
    if p != "" {
      assert sg + Mark(p, moms) == (sg + p) + Commas(k) + "";
      assert NoneIn(sg + p, {','});
      PiecesHead(sg + p, k, "");
      PiecesFree("");
      TermsHead(sg, p, "");
      assert sg + p + "" == sg + p;
    } else {
      assert sg + Mark(p, moms) == sg;
      assert NoneIn(sg, {','});
      PiecesFree(sg);
      if sg != "" {
        TermsOfSigns(sg);
      }
      assert sg + p == sg;
    }
  }

  /** A non-empty run followed by a sign. */
  lemma {:induction false} MarkedPiecesRun(sg: string, p: string, moms: seq<string>)
    requires AllSigns(sg) && NoneIn(p, {','}) && CountsRuns(p, moms)
    requires 0 < RunLen(p) < |p|
    ensures Pieces(sg + Mark(p, moms)) == Terms(sg + p)
    decreases |p|, 0
  {
    var n := RunLen(p);
    var run := p[..n];
    var rest := p[n + 1..];
    PiecesAfterRun(sg, p, moms);
    TermsAfterRun(sg, p);
    RunsStep(p);
    RunsOf(p);
    assert NoneIn(rest, {','}) && CountsRuns(rest, moms);
    MarkedPieces([p[n]], rest, moms);
  }

  lemma PiecesAfterRun(sg: string, p: string, moms: seq<string>)
    requires AllSigns(sg) && NoneIn(p, {','}) && CountsRuns(p, moms)
    requires 0 < RunLen(p) < |p|
    ensures Pieces(sg + Mark(p, moms)) ==
            [sg + p[..RunLen(p)]] + Pieces([p[RunLen(p)]] + Mark(p[RunLen(p) + 1..], moms))
  {
    var n := RunLen(p);
    var run := p[..n];
    RunsOf(p);
    MarkCons(p, moms);
    var k := multiset(moms)[run];
    var tail := [p[n]] + Mark(p[n + 1..], moms);
    assert sg + Mark(p, moms) == (sg + run) + Commas(k) + tail;
    assert NoneIn(sg + run, {','});
    PiecesHead(sg + run, k, tail);
  }

  lemma TermsAfterRun(sg: string, p: string)
    requires AllSigns(sg) && 0 < RunLen(p) < |p|
    ensures Terms(sg + p) == [sg + p[..RunLen(p)]] + Terms([p[RunLen(p)]] + p[RunLen(p) + 1..])
  {
    var n := RunLen(p);
    RunLenFree(p);
    var run := p[..n];
    var r := [p[n]] + p[n + 1..];
    CutAt(p, n);
    Assoc(sg, run, r);
    TermsHeadEq(sg, run, r, sg + p);
  }

  lemma CutAt(p: string, n: nat)
    requires n < |p|
    ensures p == p[..n] + ([p[n]] + p[n + 1..])
  {
  }

  lemma TermsHeadEq(sg: string, run: string, rest: string, t: string)
    requires AllSigns(sg) && run != "" && NoneIn(run, Signs)
    requires |rest| == 0 || rest[0] in Signs
    requires t == sg + run + rest
    ensures Terms(t) == [sg + run] + Terms(rest)
  {
    TermsHead(sg, run, rest);
  }

  /** A sign right at the start of `p`. */
  lemma {:induction false} MarkedPiecesSign(sg: string, p: string, moms: seq<string>)
    requires AllSigns(sg) && NoneIn(p, {','}) && CountsRuns(p, moms)
    requires RunLen(p) == 0 < |p|
    ensures Pieces(sg + Mark(p, moms)) == Terms(sg + p)
    decreases |p|, 0
  {
    var rest := p[1..];
    RunsStep(p);
    RunsOf(p);
    assert multiset(moms)[""] == 0;
    MarkSign(p, moms);
    Assoc(sg, [p[0]], Mark(rest, moms));
    assert NoneIn(rest, {','}) && CountsRuns(rest, moms);
    MarkedPieces(sg + [p[0]], rest, moms);
    ConsFirst(p);
    Assoc(sg, [p[0]], rest);
  }

  /** A sign at the start is kept as it is. */
  lemma MarkSign(p: string, moms: seq<string>)
    requires RunLen(p) == 0 < |p| && multiset(moms)[""] == 0
    ensures Mark(p, moms) == [p[0]] + Mark(p[1..], moms)
  {
    var e := p[..0];
    assert e == "";
    var c := Commas(multiset(moms)[e]);
    assert c == "";
    var t := [p[0]] + Mark(p[1..], moms);
    assert Mark(p, moms) == e + c + t;
    EmptyBefore(e, c, t);
  }

  lemma EmptyBefore(e: string, c: string, t: string)
    requires e == "" && c == ""
    ensures e + c + t == t
  {
  }

  lemma ConsFirst(p: string)
    requires |p| > 0
    ensures p == [p[0]] + p[1..]
  {
  }

  /** When the momentum has no comma and no run name sits inside another run, pparse
      returns exactly the signed terms: they glue back to `p` and every component after
      the first starts with a sign. */
  lemma PParseIsTerms(p: string)
    requires NoneIn(p, {','}) && NoNestedRuns(p)
    ensures PParseSpec(p) == Terms(p)
    ensures Concat(PParseSpec(p)) == p
    ensures forall k :: 1 <= k < |PParseSpec(p)| ==> PParseSpec(p)[k][0] in Signs
  {
    var moms := NonEmpty(SplitSigns(p));
    forall k | 0 <= k < |moms|
      ensures moms[k] != "" && moms[k] in SplitSigns(p)
    {
      assert moms[k] in moms;
    }
    FoldIsMark(p, moms);
    forall y | y in SplitSigns(p) && y != ""
      ensures multiset(moms)[y] > 0
    {
      assert y in moms;
    }
    assert "" !in moms;
    MarkedPieces("", p, moms);
    assert "" + Mark(p, moms) == Mark(p, moms);
    assert Pieces(Mark(p, moms)) == PParseSpec(p);
    assert "" + p == p;
    TermsProperties(p);
  }

  // ---------------------------------------------------------------------------
  // attach_indices

  /** `"({})".format(",".join(indices))`. */
  function IndexList(indices: seq<string>): string
  {
    "(" + Join(indices, ",") + ")"
  }

  /** What attach_indices returns: `"0"` unchanged; otherwise, because the loop
      returns during its first step, only the first pparse component `t` is rewritten,
      at every occurrence, to `t + "(i1,...)"`; with no component the function falls off
      its end and returns None. */
  function AttachIndicesSpec(tensors: string, indices: seq<string>): Option<string>
  {
    if tensors == "0" then Some(tensors)
    else
      var l := PParseSpec(tensors);
      if |l| == 0 then None else Some(Replace(tensors, l[0], l[0] + IndexList(indices)))
  }

  method AttachIndices(tensors: string, indices: seq<string>) returns (r: Option<string>)
    ensures r == AttachIndicesSpec(tensors, indices)
    ensures tensors == "0" ==> r == Some("0")
  {
    if tensors != "0" {
      var tensorList := PParse(tensors);
      var between := IndexList(indices);
      for k := 0 to |tensorList|
        invariant k == 0
      {
        var t := tensorList[k];
        return Some(Replace(tensors, t, t + between));
      }
      return None;
    } else {
      return Some(tensors);
    }
  }

  /** attach_indices returns None exactly when the text is not `"0"` and holds
      nothing but commas (the empty text included). */
  lemma AttachIndicesNone(tensors: string, indices: seq<string>)
    ensures AttachIndicesSpec(tensors, indices).None? <==> tensors != "0" && Remove(tensors, ',') == ""
  {
    PParseConcat(tensors);
    var l := PParseSpec(tensors);
    if |l| > 0 {
      ConcatAppend([l[0]], l[1..]);
      assert l == [l[0]] + l[1..];
    }
  }

  /** Each string of `ts` followed by `suffix`. */
  function Suffixed(ts: seq<string>, suffix: string): (r: seq<string>)
    ensures |r| == |ts| && forall k :: 0 <= k < |ts| ==> r[k] == ts[k] + suffix
  {
    seq(|ts|, k requires 0 <= k < |ts| => ts[k] + suffix)
  }

  /** attach_indices as its documentation describes it: every component of the
      combination carries the index list. */
  function AttachIndicesCorrected(tensors: string, indices: seq<string>): Option<string>
  {
    if tensors == "0" then Some(tensors)
    else
      var l := PParseSpec(tensors);
      if |l| == 0 then None else Some(Concat(Suffixed(l, IndexList(indices))))
  }

  /** For a combination without commas or nested runs and an index list without signs,
      the corrected version's result has exactly one signed term per input term, that
      term followed by the index list. */
  lemma AttachIndicesCorrectedEveryTerm(tensors: string, indices: seq<string>)
    requires tensors != "0" && tensors != ""
    requires NoneIn(tensors, {','}) && NoNestedRuns(tensors)
    requires NoneIn(IndexList(indices), Signs)
    ensures AttachIndicesCorrected(tensors, indices).Some?
    ensures Terms(AttachIndicesCorrected(tensors, indices).value) ==
            Suffixed(Terms(tensors), IndexList(indices))
  {
    PParseIsTerms(tensors);
    TermsProperties(tensors);
    TermsSuffixed(tensors, IndexList(indices));
  }

  /** Suffixing every term with a sign-free, non-empty index list keeps the terms
      apart: reading the glued result back gives the suffixed terms. */
  lemma TermsSuffixed(p: string, idx: string)
    requires idx != "" && NoneIn(idx, Signs)
    ensures Terms(Concat(Suffixed(Terms(p), idx))) == Suffixed(Terms(p), idx)
  {
    TermsProperties(p);
    var ts := Suffixed(Terms(p), idx);
    forall k | 0 <= k < |ts|
      ensures Shape(ts[k])
    {
      ShapeSuffix(Terms(p)[k], idx);
    }
    TermsOfConcat(ts);
  }

  // ---------------------------------------------------------------------------
  // Worked shapes: the documented `-p1+p2-p3` and the `p1+p2` counterexample

  /** A run usable as a momentum name: non-empty, no sign, no comma. */
  predicate Name(x: string)
  {
    x != "" && NoneIn(x, {'+', '-', ','})
  }

  lemma NameFree(x: string)
    requires Name(x)
    ensures NoneIn(x, Signs) && NoneIn(x, {','})
  {
  }

  /** The documented pparse example in general form: for three names none of which
      occurs inside another, `pparse(s1 x s2 y s3 z)` is `[s1 x, s2 y, s3 z]`
      (`"-p1+p2-p3"` gives `["-p1", "+p2", "-p3"]`). */
  lemma PParseThreeTerms(s1: char, x: string, s2: char, y: string, s3: char, z: string)
    requires s1 in Signs && s2 in Signs && s3 in Signs
    requires Name(x) && Name(y) && Name(z)
    requires !Occurs(x, y) && !Occurs(x, z) && !Occurs(y, x) && !Occurs(y, z)
    requires !Occurs(z, x) && !Occurs(z, y)
    ensures PParseSpec([s1] + x + [s2] + y + [s3] + z) == [[s1] + x, [s2] + y, [s3] + z]
  {
    var p := [s1] + x + [s2] + y + [s3] + z;
    RunsOfThree(s1, x, s2, y, s3, z);
    forall m, w | m in SplitSigns(p) && m != "" && w in SplitSigns(p) && Occurs(w, m)
      ensures w == m
    {
      OccursLength(w, m);
    }
    NameFree(x);
    NameFree(y);
    NameFree(z);
    assert NoneIn(p, {','});
    PParseIsTerms(p);
    TermsOfThree(s1, x, s2, y, s3, z);
  }

  lemma RunsOfThree(s1: char, x: string, s2: char, y: string, s3: char, z: string)
    requires s1 in Signs && s2 in Signs && s3 in Signs
    requires Name(x) && Name(y) && Name(z)
    ensures SplitSigns([s1] + x + [s2] + y + [s3] + z) == ["", x, y, z]
  {
    NameFree(x);
    NameFree(y);
    NameFree(z);
    SplitSignsRun("");
    SplitSignsRun(x);
    SplitSignsRun(y);
    SplitSignsRun(z);
    SplitSignsAt(y, s3, z);
    SplitSignsAt(x, s2, y + [s3] + z);
    assert x + [s2] + (y + [s3] + z) == x + [s2] + y + [s3] + z;
    SplitSignsAt("", s1, x + [s2] + y + [s3] + z);
    assert "" + [s1] + (x + [s2] + y + [s3] + z) == [s1] + x + [s2] + y + [s3] + z;
  }

  lemma TermsOfThree(s1: char, x: string, s2: char, y: string, s3: char, z: string)
    requires s1 in Signs && s2 in Signs && s3 in Signs
    requires Name(x) && Name(y) && Name(z)
    ensures Terms([s1] + x + [s2] + y + [s3] + z) == [[s1] + x, [s2] + y, [s3] + z]
  {
    NameFree(x);
    NameFree(y);
    NameFree(z);
    var t3 := [s3] + z;
    var t2 := [s2] + y + t3;
    TermsHead([s3], z, "");
    assert [s3] + z + "" == t3;
    TermsHead([s2], y, t3);
    TermsHead([s1], x, t2);
    assert [s1] + x + t2 == [s1] + x + [s2] + y + [s3] + z;
  }

  /** The two-term analogue: `pparse(x s y)` is `[x, s y]`. */
  lemma PParseTwoTerms(x: string, s: char, y: string)
    requires s in Signs && Name(x) && Name(y) && !Occurs(x, y) && !Occurs(y, x)
    ensures PParseSpec(x + [s] + y) == [x, [s] + y]
  {
    NameFree(x);
    NameFree(y);
    var p := x + [s] + y;
    SplitSignsRun(x);
    SplitSignsRun(y);
    SplitSignsAt(x, s, y);
    forall m, w | m in SplitSigns(p) && m != "" && w in SplitSigns(p) && Occurs(w, m)
      ensures w == m
    {
    }
    assert NoneIn(p, {','});
    PParseIsTerms(p);
    TermsOfTwo(x, s, y);
  }

  lemma TermsOfTwo(x: string, s: char, y: string)
    requires s in Signs && Name(x) && Name(y)
    ensures Terms(x + [s] + y) == [x, [s] + y]
  {
    NameFree(x);
    NameFree(y);
    TermsHead([s], y, "");
    assert [s] + y + "" == [s] + y;
    TermsHead("", x, [s] + y);
    assert "" + x + ([s] + y) == x + [s] + y && "" + x == x;
  }

  /** As written, attach_indices indexes only the first term: on `x s y` (for `p1+p2`)
      it returns `x(i..) s y`, while every term should carry the indices. */
  lemma AttachIndicesFirstTermOnly(x: string, s: char, y: string, indices: seq<string>)
    requires s in Signs && Name(x) && Name(y) && !Occurs(x, y) && !Occurs(y, x)
    ensures AttachIndicesSpec(x + [s] + y, indices) == Some(x + IndexList(indices) + [s] + y)
    ensures AttachIndicesCorrected(x + [s] + y, indices) ==
            Some(x + IndexList(indices) + [s] + y + IndexList(indices))
    ensures AttachIndicesSpec(x + [s] + y, indices) != AttachIndicesCorrected(x + [s] + y, indices)
  {
    var il := IndexList(indices);
    AttachTwoAsWritten(x, s, y, il, indices);
    AttachTwoCorrected(x, s, y, il, indices);
    assert |il| >= 2;
    assert |x + il + [s] + y + il| > |x + il + [s] + y|;
  }

  lemma AttachTwoAsWritten(x: string, s: char, y: string, il: string, indices: seq<string>)
    requires s in Signs && Name(x) && Name(y) && !Occurs(x, y) && !Occurs(y, x)
    requires il == IndexList(indices)
    ensures AttachIndicesSpec(x + [s] + y, indices) == Some(x + il + [s] + y)
  {
    var p := x + [s] + y;
    PParseTwoTerms(x, s, y);
    assert p != "0" by {
      assert |p| >= 3;
    }
    ReplaceFirstOfTwo(x, s, y, il);
  }

  lemma AttachTwoCorrected(x: string, s: char, y: string, il: string, indices: seq<string>)
    requires s in Signs && Name(x) && Name(y) && !Occurs(x, y) && !Occurs(y, x)
    requires il == IndexList(indices)
    ensures AttachIndicesCorrected(x + [s] + y, indices) == Some(x + il + [s] + y + il)
  {
    var p := x + [s] + y;
    PParseTwoTerms(x, s, y);
    assert p != "0" by {
      assert |p| >= 3;
    }
    ConcatSuffixedTwo(x, [s] + y, il);
    Assoc(x + il, [s], y);
  }

  lemma ReplaceFirstOfTwo(x: string, s: char, y: string, il: string)
    requires s in Signs && Name(x) && !Occurs(y, x)
    ensures Replace(x + [s] + y, x, x + il) == x + il + [s] + y
  {
    NameFree(x);
    ReplaceAround(x, s, y, x, x + il);
    ReplaceWhole(x, x + il);
    ReplaceAbsent(y, x, x + il);
  }

  lemma ConcatSuffixedTwo(a: string, b: string, il: string)
    ensures Concat(Suffixed([a, b], il)) == a + il + b + il
  {
    var sf := Suffixed([a, b], il);
    assert sf == [a + il] + [b + il];
    ConcatAppend([a + il], [b + il]);
    assert Concat([a + il]) == a + il + Concat([]);
    assert Concat([b + il]) == b + il + Concat([]);
  }
}
