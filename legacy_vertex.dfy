/** The legacy vertex of vertex.py: a QGRAF vertex record with its field ids
    rewritten, and the FORM fragments it writes for itself and for the fermion
    propagator that leaves it. A write to the output file is modelled as text
    appended to the fragment a method returns. */
module LegacyVertex {
  import opened Base
  import opened Text
  import opened AlgebraTools
  import DiagramElements
  import GhtRules

  /** `FERMIONS`. */
  const Fermions: seq<string> := ["t", "b"]

  /** The vertex types `output` knows. */
  const KnownTypes: set<string> := {"tbar,t,g", "tbar,t,H", "H,H,H", "H,H,H,H", "g,g,g", "g,g,g,g"}

  /** A vertex: the momentum of each leg, the type text, the particle type of each
      leg and the field id of each leg. */
  datatype Vertex = Vertex(momenta: seq<string>, vtype: string, types: seq<string>, fields: seq<string>)

  // ---------------------------------------------------------------------------
  // Vertex.__init__: the id rewrite

  /** One step of the rewrite: a negative integer text `-n` becomes `ext<n>`; every
      other text is kept verbatim. */
  function RewriteId(f: string): (r: string)
    ensures r != f <==> ParseInt(f).Some? && ParseInt(f).value < 0
    ensures r != f ==> r == "ext" + NatToString(-ParseInt(f).value)
  {
    match ParseInt(f)
    case Some(n) =>
      if n < 0 then NegativeLead(f); "ext" + NatToString(-n) else f
    case None => f
  }

  /** A text that reads as a negative integer starts with a minus sign. */
  lemma NegativeLead(f: string)
    requires ParseInt(f).Some? && ParseInt(f).value < 0
    ensures |f| > 1 && f[0] == '-'
  {
  }

  /** How many leading field texts are integers: the bare `except` of `__init__` ends
      the rewrite at the first text `int()` refuses. */
  function IntegerPrefix(fs: seq<string>): (k: nat)
    ensures k <= |fs|
    ensures forall j :: 0 <= j < k ==> ParseInt(fs[j]).Some?
    ensures k < |fs| ==> ParseInt(fs[k]).None?
  {
    if |fs| == 0 || ParseInt(fs[0]).None? then 0 else 1 + IntegerPrefix(fs[1..])
  }

  /** The fields after `__init__`: the integer prefix rewritten, the rest verbatim. */
  function RewriteIds(fs: seq<string>): (r: seq<string>)
    ensures |r| == |fs|
  {
    seq(|fs|, j requires 0 <= j < |fs| => if j < IntegerPrefix(fs) then RewriteId(fs[j]) else fs[j])
  }

  /** `Vertex(element)` on the momenta, type and fields texts: each is split at its
      commas, and the field ids are rewritten in place, left to right. */
  method NewVertex(momentaText: string, typeText: string, fieldsText: string) returns (v: Vertex)
    ensures v.momenta == Split(momentaText, ',') && v.vtype == typeText
    ensures v.types == Split(typeText, ',')
    ensures v.fields == RewriteIds(Split(fieldsText, ','))
  {
    var fields := RewriteFields(Split(fieldsText, ','));
    v := Vertex(Split(momentaText, ','), typeText, Split(typeText, ','), fields);
  }

  /** The loop of `__init__` over the field texts. */
  method RewriteFields(original: seq<string>) returns (fields: seq<string>)
    ensures fields == RewriteIds(original)
  {
    fields := original;
    var i := 0;
    while i < |fields|
      invariant 0 <= i <= |fields| == |original|
      invariant forall j :: 0 <= j < i ==> ParseInt(original[j]).Some?
      invariant fields == Rewritten(original, i)
    {
      match ParseInt(fields[i])
      case None =>
        break;
      case Some(n) =>
        if n < 0 {
          fields := fields[i := "ext" + NatToString(-n)];
        }
        RewrittenStep(original, i, fields);
        i := i + 1;
    }
    RewrittenAll(original, i);
  }

  /** The fields once the first `i` have been rewritten. */
  function Rewritten(fs: seq<string>, i: nat): (r: seq<string>)
    requires i <= |fs|
    ensures |r| == |fs|
  {
    seq(|fs|, j requires 0 <= j < |fs| => if j < i then RewriteId(fs[j]) else fs[j])
  }

  lemma RewrittenStep(fs: seq<string>, i: nat, next: seq<string>)
    requires i < |fs| && ParseInt(fs[i]).Some?
    requires var n := ParseInt(fs[i]).value;
      next == if n < 0 then Rewritten(fs, i)[i := "ext" + NatToString(-n)] else Rewritten(fs, i)
    ensures next == Rewritten(fs, i + 1)
  {
  }

  lemma RewrittenAll(fs: seq<string>, i: nat)
    requires i <= |fs| && (i < |fs| ==> ParseInt(fs[i]).None?)
    requires forall j :: 0 <= j < i ==> ParseInt(fs[j]).Some?
    ensures Rewritten(fs, i) == RewriteIds(fs)
  {
    IntegerPrefixAt(fs, i);
  }

  lemma {:induction false} IntegerPrefixAt(fs: seq<string>, i: nat)
    requires i <= |fs| && (i < |fs| ==> ParseInt(fs[i]).None?)
    requires forall j :: 0 <= j < i ==> ParseInt(fs[j]).Some?
    ensures IntegerPrefix(fs) == i
  {
    if i > 0 {
      IntegerPrefixAt(fs[1..], i - 1);
    }
  }

  /** For field numbers that QGRAF writes, the rewrite agrees with the id
      normalisation of diagram_elements.py: `-n` becomes `ext<n>`, others keep their
      decimal form. */
  lemma RewriteIdsAgree(ns: seq<int>)
    ensures var fs := seq(|ns|, j requires 0 <= j < |ns| => IntToString(ns[j]));
      forall j :: 0 <= j < |ns| ==> RewriteIds(fs)[j] == DiagramElements.FieldId(ns[j])
  {
    var fs := seq(|ns|, j requires 0 <= j < |ns| => IntToString(ns[j]));
    forall j | 0 <= j < |ns|
      ensures ParseInt(fs[j]).Some? && RewriteId(fs[j]) == DiagramElements.FieldId(ns[j])
    {
      RewriteIdOfInt(ns[j]);
    }
    IntegerPrefixAt(fs, |fs|);
  }

  lemma RewriteIdOfInt(n: int)
    ensures ParseInt(IntToString(n)) == Some(n)
    ensures RewriteId(IntToString(n)) == DiagramElements.FieldId(n)
  {
    ParseIntToString(n);
    var f := IntToString(n);
    var r := RewriteId(f);
    if n < 0 {
      assert r != f;
      assert r == "ext" + NatToString(-n);
    } else {
      assert f == NatToString(n);
      assert r == f;
    }
  }

  /** From the first text that is not an integer on, nothing is rewritten. */
  lemma RewriteIdsStop(fs: seq<string>, k: nat)
    requires k < |fs| && ParseInt(fs[k]).None?
    ensures forall j :: k <= j < |fs| ==> RewriteIds(fs)[j] == fs[j]
  {
  }

  // ---------------------------------------------------------------------------
  // Vertex.output

  /** `"+d_(mu{fi},mu{fj})*(p1-(p2))"`, term `i` of the triple-gluon vertex, where
      `j` and `k` follow `i` cyclically. */
  function GggTerm(v: Vertex, i: nat): string
    requires i < 3 && |v.fields| >= 3 && |v.momenta| >= 3
  {
    var j := Next(i);
    var k := Next(j);
    var mu := LorentzIndex(v.fields[k]);
    MetricFactor(v.fields[i], v.fields[j]) + Difference(LegMomentum(v.momenta[i], mu), LegMomentum(v.momenta[j], mu))
  }

  /** `(i + 1) % 3` on a leg number `i` of the triple-gluon vertex. */
  function Next(i: nat): (j: nat)
    requires i < 3
    ensures j < 3 && j == (i + 1) % 3
  {
    if i == 2 then 0 else i + 1
  }

  /** `(mu{f})`, the index attached to a momentum component. */
  function LorentzIndex(f: string): string
  {
    "(mu" + f + ")"
  }

  /** `+d_(mu{a},mu{b})*`. */
  function MetricFactor(a: string, b: string): string
  {
    "+d_(mu" + a + ",mu" + b + ")*"
  }

  /** `(p1-(p2))`. */
  function Difference(p1: string, p2: string): string
  {
    "(" + p1 + "-(" + p2 + "))"
  }

  /** The first `n` terms of the triple-gluon vertex. */
  function GggTerms(v: Vertex, n: nat): string
    requires n <= 3 && |v.fields| >= 3 && |v.momenta| >= 3
  {
    if n == 0 then "" else GggTerms(v, n - 1) + GggTerm(v, n - 1)
  }

  function GggHead(v: Vertex): string
    requires |v.fields| >= 3
  {
    "(-g3*f(b" + v.fields[0] + ",b" + v.fields[1] + ",b" + v.fields[2] + ")*(0"
  }

  /** The `g,g,g` vertex; an index past the end of the fields or momenta raises
      IndexError. */
  function GggText(v: Vertex): Result<string>
  {
    if |v.fields| < 3 || |v.momenta| < 3 then Failure(IndexError)
    else Success(GggHead(v) + GggTerms(v, 3) + "))")
  }

  /** The loop over one leg's momentum: every component `mom` is followed by the
      index text, `p1 = p1.replace(mom, mom + "(mu..)")`, for as long as the momentum
      is not `"0"`. */
  function GuardedFold(p: string, moms: seq<string>, suffix: string): string
    requires forall k :: 0 <= k < |moms| ==> moms[k] != ""
  {
    if |moms| == 0 then p
    else
      var cur := GuardedFold(p, moms[..|moms| - 1], suffix);
      var last := moms[|moms| - 1];
      if cur != "0" then Replace(cur, last, last + suffix) else cur
  }

  /** A leg's momentum in a triple-gluon term, each component carrying the Lorentz
      index of the third leg. */
  function LegMomentum(p: string, suffix: string): string
  {
    GuardedFold(p, NonEmpty(SplitSigns(p)), suffix)
  }

  /** `f(b{a},b{b},bdummy)`. */
  function Structure(a: string, b: string): string
  {
    "f(b" + a + ",b" + b + ",bdummy)"
  }

  /** `d_(mu{a},mu{b})`. */
  function Metric(a: string, b: string): string
  {
    "d_(mu" + a + ",mu" + b + ")"
  }

  /** One colour channel of the four-gluon vertex: `f·f·(d·d-d·d)`. */
  function QuarticTerm(f1: string, f2: string, d1: string, d2: string, d3: string, d4: string): string
  {
    f1 + "*" + f2 + "*(" + d1 + "*" + d2 + "-" + d3 + "*" + d4 + ")"
  }

  /** The `g,g,g,g` vertex over legs `i, j, k, l` = 0, 1, 2, 3. */
  function GgggText(v: Vertex): Result<string>
  {
    if |v.fields| < 4 then Failure(IndexError)
    else
      var f := v.fields;
      Success("(-i_)*g^2*(" +
        QuarticTerm(Structure(f[0], f[1]), Structure(f[2], f[3]),
                    Metric(f[0], f[2]), Metric(f[1], f[3]), Metric(f[0], f[3]), Metric(f[1], f[2])) +
        "+" + QuarticTerm(Structure(f[0], f[2]), Structure(f[1], f[3]),
                          Metric(f[0], f[1]), Metric(f[2], f[3]), Metric(f[0], f[3]), Metric(f[1], f[2])) +
        "+" + QuarticTerm(Structure(f[0], f[3]), Structure(f[1], f[2]),
                          Metric(f[0], f[1]), Metric(f[2], f[3]), Metric(f[0], f[2]), Metric(f[1], f[3])) +
        ")")
  }

  /** What `output(file, line)` writes, by vertex type; an unknown type writes nothing
      (the source only prints a message). */
  function OutputText(v: Vertex, line: int): Result<string>
  {
    if v.vtype == "tbar,t,g" then
      if |v.fields| < 3 then Failure(IndexError)
      else Success("i_*g*g_(" + IntToString(line) + ",mu" + v.fields[2] + ")*T(b" + v.fields[2] +
                   ",col" + v.fields[0] + ",col" + v.fields[1] + ")")
    else if v.vtype == "tbar,t,H" then
      if |v.fields| < 2 then Failure(IndexError)
      else Success("i_*Y*d_(col" + v.fields[0] + ",col" + v.fields[1] + ")")
    else if v.vtype == "H,H,H" then Success("i_*h3")
    else if v.vtype == "H,H,H,H" then Success("i_*h4")
    else if v.vtype == "g,g,g" then GggText(v)
    else if v.vtype == "g,g,g,g" then GgggText(v)
    else Success("")
  }

  /** The leg loop of the triple-gluon vertex. */
  method AttachLegIndex(p: string, suffix: string) returns (r: string)
    ensures r == LegMomentum(p, suffix)
  {
    var moms := NonEmpty(SplitSigns(p));
    r := p;
    for n := 0 to |moms|
      invariant r == GuardedFold(p, moms[..n], suffix)
    {
      assert moms[..n + 1][..n] == moms[..n];
      if r != "0" {
        r := Replace(r, moms[n], moms[n] + suffix);
      }
    }
    assert moms[..|moms|] == moms;
  }

  /** `output` for a `g,g,g` vertex: the colour structure, then one term per leg. */
  method GggOutput(v: Vertex) returns (r: Result<string>)
    ensures r == GggText(v)
  {
    if |v.fields| < 3 || |v.momenta| < 3 {
      return Failure(IndexError);
    }
    var out := GggHead(v);
    for i := 0 to 3
      invariant out == GggHead(v) + GggTerms(v, i)
    {
      var term := GggTermOutput(v, i);
      out := out + term;
    }
    out := out + "))";
    r := Success(out);
  }

  /** One pass of the triple-gluon loop. */
  method GggTermOutput(v: Vertex, i: nat) returns (term: string)
    requires i < 3 && |v.fields| >= 3 && |v.momenta| >= 3
    ensures term == GggTerm(v, i)
  {
    var j := Next(i);
    var k := Next(j);
    var mu := LorentzIndex(v.fields[k]);
    var p1 := AttachLegIndex(v.momenta[i], mu);
    var p2 := AttachLegIndex(v.momenta[j], mu);
    var p := Difference(p1, p2);
    term := MetricFactor(v.fields[i], v.fields[j]) + p;
  }

  /** `Vertex.output(file, line)`. */
  method Output(v: Vertex, line: int) returns (r: Result<string>)
    ensures r == OutputText(v, line)
  {
    if v.vtype == "g,g,g" {
      r := GggOutput(v);
    } else {
      r := OutputText(v, line);
    }
  }

  /** Exactly the unknown vertex types write nothing. */
  lemma OutputEmptyIffUnknown(v: Vertex, line: int)
    ensures OutputText(v, line) == Success("") <==> v.vtype !in KnownTypes
  {
    if v.vtype == "g,g,g" && GggText(v).Success? {
      assert GggText(v).value[0] == '(';
    }
    if v.vtype == "g,g,g,g" && GgggText(v).Success? {
      assert GgggText(v).value[0] == '(';
    }
  }

  /** The Yukawa vertex carries the same colour delta, `tbar` id first, as the
      GHT model's `txtH`. */
  lemma YukawaColourDelta(v: Vertex, line: int)
    requires v.vtype == "tbar,t,H" && |v.fields| >= 2
    ensures OutputText(v, line) == Success("i_*Y*" + GhtRules.Delta("col", v.fields[0], v.fields[1]))
  {
    assert v.vtype != "tbar,t,g" by { assert "tbar,t,H"[7] != "tbar,t,g"[7]; }
    var a := v.fields[0];
    var b := v.fields[1];
    assert GhtRules.Delta("col", a, b) == "d_(col" + a + ",col" + b + ")" by {
      assert "d_(col" == "d_(" + "col" && ",col" == "," + "col";
    }
    assert OutputText(v, line) == Success("i_*Y*d_(col" + a + ",col" + b + ")");
    assert "i_*Y*d_(col" == "i_*Y*" + "d_(col";
    assert "i_*Y*d_(col" + a + ",col" + b + ")" == "i_*Y*" + ("d_(col" + a + ",col" + b + ")");
  }

  /** A momentum `"0"` is left alone. */
  lemma LegMomentumZero(suffix: string)
    ensures LegMomentum("0", suffix) == "0"
  {
    GuardedZero(NonEmpty(SplitSigns("0")), suffix);
  }

  lemma {:induction false} GuardedZero(moms: seq<string>, suffix: string)
    requires forall k :: 0 <= k < |moms| ==> moms[k] != ""
    ensures GuardedFold("0", moms, suffix) == "0"
  {
    if |moms| > 0 {
      GuardedZero(moms[..|moms| - 1], suffix);
    }
  }

  /** Marking an occurrence only ever lengthens a text. */
  lemma {:induction false} ReplaceLonger(s: string, pat: string, suffix: string)
    requires |pat| > 0 && |suffix| > 0
    ensures Replace(s, pat, pat + suffix) == s || |Replace(s, pat, pat + suffix)| > |s|
    decreases |s|
  {
    if |s| >= |pat| {
      if s[..|pat|] == pat {
        ReplaceLonger(s[|pat|..], pat, suffix);
      } else {
        ReplaceLonger(s[1..], pat, suffix);
        assert [s[0]] + s[1..] == s;
      }
    }
  }

  /** A momentum other than `"0"` never turns into `"0"`, so the guard has no effect
      on it: every component is marked in turn. */
  lemma {:induction false} GuardedNonZero(p: string, moms: seq<string>, suffix: string)
    requires forall k :: 0 <= k < |moms| ==> moms[k] != ""
    requires p != "0" && |suffix| > 0
    ensures GuardedFold(p, moms, suffix) == FoldReplace(p, moms, suffix)
    ensures GuardedFold(p, moms, suffix) != "0"
  {
    if |moms| > 0 {
      var init := moms[..|moms| - 1];
      GuardedNonZero(p, init, suffix);
      var cur := FoldReplace(p, init, suffix);
      var last := moms[|moms| - 1];
      ReplaceLonger(cur, last, suffix);
      if |cur| == 0 {
        ReplaceShort(cur, last, last + suffix);
      }
    }
  }

  /** A single momentum name other than `"0"` carries the index once. */
  lemma LegMomentumName(x: string, suffix: string)
    requires Name(x) && x != "0" && |suffix| > 0
    ensures LegMomentum(x, suffix) == x + suffix
  {
    NameFree(x);
    SplitAnyFree(x, Signs);
    assert NonEmpty(SplitSigns(x)) == [x];
    GuardedNonZero(x, [x], suffix);
    assert [x][..0] == [];
    ReplaceWhole(x, x + suffix);
  }

  /** The triple-gluon vertex with its legs turned once: leg 1 first, then 2, then 0. */
  function Rotate(v: Vertex): (w: Vertex)
    requires |v.fields| >= 3 && |v.momenta| >= 3
    ensures |w.fields| >= 3 && |w.momenta| >= 3
  {
    v.(fields := [v.fields[1], v.fields[2], v.fields[0]] + v.fields[3..],
       momenta := [v.momenta[1], v.momenta[2], v.momenta[0]] + v.momenta[3..])
  }

  /** Term `i` pairs leg `i` with the next leg and marks both momenta with the third
      leg's index, so turning the legs turns the terms. */
  lemma GggTermsRotate(v: Vertex, i: nat)
    requires i < 3 && |v.fields| >= 3 && |v.momenta| >= 3
    ensures GggTerm(Rotate(v), i) == GggTerm(v, Next(i))
  {
    var w := Rotate(v);
    forall t | 0 <= t < 3
      ensures w.fields[t] == v.fields[Next(t)] && w.momenta[t] == v.momenta[Next(t)]
    {
    }
  }

  // ---------------------------------------------------------------------------
  // Vertex.writenextprop

  /** `g_(line,p)+` for each component `p`. */
  function SlashTerms(ps: seq<string>, line: int): (r: seq<string>)
    ensures |r| == |ps|
    ensures forall k :: 0 <= k < |ps| ==> r[k] == SlashTerm(ps[k], line)
  {
    seq(|ps|, k requires 0 <= k < |ps| => SlashTerm(ps[k], line))
  }

  function SlashTerm(p: string, line: int): string
  {
    "g_(" + IntToString(line) + "," + p + ")+"
  }

  /** `mt)*D(p,mt)*d_(col{f0},col{f0-1})`, once `int(f0)` succeeded. */
  function NextPropTail(momentum: string, f0: string, n: int): string
  {
    "mt)*D(" + momentum + ",mt)*d_(col" + f0 + ",col" + IntToString(n - 1) + ")"
  }

  /** What `writenextprop(file, line)` writes: nothing when the second leg is not a
      fermion, else the slashed momentum of leg 0 plus the top mass, the propagator
      denominator and the colour delta to the field numbered one less; a first field
      that is not an integer raises ValueError, a missing leg IndexError. */
  function NextPropText(v: Vertex, line: int): Result<string>
  {
    if |v.types| < 2 then Failure(IndexError)
    else if v.types[1] !in Fermions then Success("")
    else if |v.momenta| == 0 || |v.fields| == 0 then Failure(IndexError)
    else match ParseInt(v.fields[0])
      case None => Failure(ValueError(v.fields[0]))
      case Some(n) =>
        Success("i_*(" + Concat(SlashTerms(PParseSpec(v.momenta[0]), line)) +
                NextPropTail(v.momenta[0], v.fields[0], n))
  }

  /** `Vertex.writenextprop(file, line)`. */
  method WriteNextProp(v: Vertex, line: int) returns (r: Result<string>)
    ensures r == NextPropText(v, line)
  {
    if |v.types| < 2 {
      return Failure(IndexError);
    }
    if v.types[1] !in Fermions {
      return Success("");
    }
    if |v.momenta| == 0 {
      return Failure(IndexError);
    }
    var lp := PParse(v.momenta[0]);
    var acc := "";
    for k := 0 to |lp|
      invariant acc == Concat(SlashTerms(lp[..k], line))
    {
      SlashStep(lp, k, line);
      acc := acc + SlashTerm(lp[k], line);
    }
    assert lp[..|lp|] == lp;
    if |v.fields| == 0 {
      return Failure(IndexError);
    }
    match ParseInt(v.fields[0])
    case None =>
      r := Failure(ValueError(v.fields[0]));
    case Some(n) =>
      r := Success("i_*(" + acc + NextPropTail(v.momenta[0], v.fields[0], n));
  }

  /** One more slashed term at the end of the ones written so far. */
  lemma SlashStep(lp: seq<string>, k: nat, line: int)
    requires k < |lp|
    ensures Concat(SlashTerms(lp[..k + 1], line)) == Concat(SlashTerms(lp[..k], line)) + SlashTerm(lp[k], line)
  {
    ConcatAppend(SlashTerms(lp[..k], line), [SlashTerm(lp[k], line)]);
    assert SlashTerms(lp[..k + 1], line) == SlashTerms(lp[..k], line) + [SlashTerm(lp[k], line)];
  }

  /** For a momentum without commas or nested runs there is one slashed term per
      signed term of the momentum, in order. */
  lemma NextPropSlashesEveryTerm(v: Vertex, line: int)
    requires |v.types| >= 2 && v.types[1] in Fermions && |v.momenta| > 0 && |v.fields| > 0
    requires ParseInt(v.fields[0]).Some?
    requires NoneIn(v.momenta[0], {','}) && NoNestedRuns(v.momenta[0])
    ensures NextPropText(v, line) == Success("i_*(" + Concat(SlashTerms(Terms(v.momenta[0]), line)) +
      NextPropTail(v.momenta[0], v.fields[0], ParseInt(v.fields[0]).value))
  {
    PParseIsTerms(v.momenta[0]);
  }

  /** The propagator's colour delta ends at the field numbered one less than the
      vertex's first field, and that number is written back in decimal. */
  lemma NextPropTailIndex(momentum: string, n: int)
    ensures NextPropTail(momentum, IntToString(n), n) ==
      "mt)*D(" + momentum + ",mt)*" + GhtRules.Delta("col", IntToString(n), IntToString(n - 1))
    ensures ParseInt(IntToString(n - 1)) == Some(n - 1)
  {
    ParseIntToString(n - 1);
    var a := IntToString(n);
    var b := IntToString(n - 1);
    ColourDeltaText(a, b);
    MassDeltaJoin();
    TailChain("mt)*D(", momentum, ",mt)*", "d_(col", a, ",col", b, ")");
  }

  lemma ColourDeltaText(a: string, b: string)
    ensures GhtRules.Delta("col", a, b) == "d_(col" + a + ",col" + b + ")"
  {
    assert "d_(col" == "d_(" + "col" && ",col" == "," + "col";
  }

  lemma MassDeltaJoin()
    ensures ",mt)*d_(col" == ",mt)*" + "d_(col"
  {
  }

  lemma TailChain(p: string, m: string, q1: string, q2: string, a: string, c: string, b: string, e: string)
    ensures p + m + (q1 + q2) + a + c + b + e == p + m + q1 + (q2 + a + c + b + e)
  {
  }
}
