/** The propagator rules of models/common_tools/standard_propagators.py: FORM texts
    built from `times` and format strings. */
module StandardPropagators {
  import opened Text
  import opened AlgebraTools

  /** FORM's imaginary unit, the value models/GHT/parameters.py gives `I`. */
  const I: string := "i_"

  /** `standard_denominator(momentum, mass)`: `Den(momentum,mass)`. */
  function StandardDenominator(momentum: string, mass: string): string
  {
    "Den(" + momentum + "," + mass + ")"
  }

  /** `scalar_propagator(momentum, mass)`: `i_` times the denominator. */
  function ScalarPropagator(momentum: string, mass: string): string
  {
    Times([I, StandardDenominator(momentum, mass)])
  }

  /** The numerator of the fermion propagator, `pslash + m`, written with two gamma
      strings running from the `from` spinor index to the `to` one. */
  function FermionNumerator(from: string, to: string, momentum: string, mass: string): string
  {
    "g(" + momentum + "," + SpinorPair(from, to) + ") + " + mass + "*g(" + SpinorPair(from, to) + ")"
  }

  /** `x<from>,x<to>`: the spinor indices a gamma string runs between. */
  function SpinorPair(from: string, to: string): string
  {
    "x" + from + ",x" + to
  }

  /** `fermionic_propagator(from_field, to_field, momentum, mass)`. */
  function FermionicPropagator(from: string, to: string, momentum: string, mass: string): string
  {
    Times([I, FermionNumerator(from, to, momentum, mass), StandardDenominator(momentum, mass)])
  }

  /** The colour delta of the quark propagator. */
  function ColourDelta(from: string, to: string): string
  {
    "d_(i" + from + ",i" + to + ")"
  }

  /** `quark_propagator(from_field, to_field, momentum, mass)`. */
  function QuarkPropagator(from: string, to: string, momentum: string, mass: string): string
  {
    Times([FermionicPropagator(from, to, momentum, mass), ColourDelta(from, to)])
  }

  // ---------------------------------------------------------------------------
  // Balance of the generated texts

  lemma BalancedCat(x: string, y: string)
    requires Balanced(x) && Balanced(y)
    ensures Balanced(x + y)
  {
    BalancedAppend(x, y);
  }

  /** `head(inner)` is balanced when `head` has no parenthesis and `inner` is balanced. */
  lemma BalancedCall(head: string, inner: string)
    requires NoneIn(head, {'(', ')'}) && Balanced(inner)
    ensures Balanced(head + "(" + inner + ")")
  {
    BalancedPlain(head);
    BalancedWrap(inner);
    BalancedCat(head, "(" + inner + ")");
    assert head + "(" + inner + ")" == head + ("(" + inner + ")");
  }

  /** Three balanced texts joined by a parenthesis-free text stay balanced. */
  lemma BalancedArgs(a: string, sep: string, b: string)
    requires Balanced(a) && Balanced(b) && NoneIn(sep, {'(', ')'})
    ensures Balanced(a + sep + b)
  {
    BalancedPlain(sep);
    BalancedCat(a, sep);
    BalancedCat(a + sep, b);
  }

  lemma DenominatorBalanced(momentum: string, mass: string)
    requires Balanced(momentum) && Balanced(mass)
    ensures Balanced(StandardDenominator(momentum, mass))
  {
    BalancedArgs(momentum, ",", mass);
    BalancedCall("Den", momentum + "," + mass);
    assert StandardDenominator(momentum, mass) == "Den" + "(" + (momentum + "," + mass) + ")";
  }

  /** `x<a>,x<b>`, the two spinor indices of a gamma string. */
  lemma SpinorPairBalanced(a: string, b: string)
    requires Balanced(a) && Balanced(b)
    ensures Balanced(SpinorPair(a, b))
  {
    BalancedPlain("x");
    BalancedCat("x", a);
    BalancedArgs("x" + a, ",x", b);
  }

  /** Read from depth `d` on, no prefix of `s` closes more parentheses than are open. */
  predicate Lifted(s: string, d: int)
  {
    forall i :: 0 <= i <= |s| ==> d + Depth(s[..i]) >= 0
  }

  lemma LiftedCat(x: string, y: string, d: int)
    requires Lifted(x, d) && Lifted(y, d + Depth(x))
    ensures Lifted(x + y, d) && Depth(x + y) == Depth(x) + Depth(y)
  {
    DepthAppend(x, y);
    forall i | 0 <= i <= |x + y|
      ensures d + Depth((x + y)[..i]) >= 0
    {
      if i <= |x| {
        assert (x + y)[..i] == x[..i];
      } else {
        assert (x + y)[..i] == x + y[..i - |x|];
        DepthAppend(x, y[..i - |x|]);
      }
    }
  }

  lemma BalancedLifted(s: string, d: int)
    requires Balanced(s) && d >= 0
    ensures Lifted(s, d) && Depth(s) == 0
  {
  }

  lemma PlainLifted(s: string, d: int)
    requires NoneIn(s, {'(', ')'}) && d >= 0
    ensures Lifted(s, d) && Depth(s) == 0
  {
    BalancedPlain(s);
  }

  lemma CharLifted(c: char, d: int)
    requires d >= 0 && d + Delta(c) >= 0
    ensures Lifted([c], d) && Depth([c]) == Delta(c)
  {
    assert [c][..0] == [] && [c][..1] == [c];
    assert [c][1..] == [];
  }

  /** A literal `a(b` or `a)b` with `a` and `b` free of parentheses. */
  lemma LiteralLifted(a: string, c: char, b: string, d: int)
    requires NoneIn(a, {'(', ')'}) && NoneIn(b, {'(', ')'}) && d >= 0 && d + Delta(c) >= 0
    ensures Lifted(a + [c] + b, d) && Depth(a + [c] + b) == Delta(c)
  {
    PlainLifted(a, d);
    CharLifted(c, d);
    LiftedCat(a, [c], d);
    PlainLifted(b, d + Delta(c));
    LiftedCat(a + [c], b, d);
  }

  lemma NumeratorBalanced(from: string, to: string, momentum: string, mass: string)
    requires Balanced(from) && Balanced(to) && Balanced(momentum) && Balanced(mass)
    ensures Balanced(FermionNumerator(from, to, momentum, mass))
  {
    var pair := SpinorPair(from, to);
    SpinorPairBalanced(from, to);
    var open1, open2, close1, close2 := "g(", "*g(", ") + ", ")";
    assert open1 == "g" + ['('] + "" && open2 == "*g" + ['('] + "";
    assert close1 == "" + [')'] + " + " && close2 == "" + [')'] + "";
    LiteralLifted("g", '(', "", 0);
    LiteralLifted("*g", '(', "", 0);
    LiteralLifted("", ')', " + ", 1);
    LiteralLifted("", ')', "", 1);
    BalancedLifted(momentum, 1);
    PlainLifted(",", 1);
    BalancedLifted(pair, 1);
    BalancedLifted(mass, 0);
    var t1 := open1 + momentum;
    LiftedCat(open1, momentum, 0);
    var t2 := t1 + ",";
    LiftedCat(t1, ",", 0);
    var t3 := t2 + pair;
    LiftedCat(t2, pair, 0);
    var t4 := t3 + close1;
    LiftedCat(t3, close1, 0);
    var t5 := t4 + mass;
    LiftedCat(t4, mass, 0);
    var t6 := t5 + open2;
    LiftedCat(t5, open2, 0);
    var t7 := t6 + pair;
    LiftedCat(t6, pair, 0);
    var t8 := t7 + close2;
    LiftedCat(t7, close2, 0);
    assert t8 == FermionNumerator(from, to, momentum, mass);
  }

  lemma ColourDeltaBalanced(from: string, to: string)
    requires Balanced(from) && Balanced(to)
    ensures Balanced(ColourDelta(from, to))
  {
    var open, sep, close := "d_(i", ",i", ")";
    assert open == "d_" + ['('] + "i" && close == "" + [')'] + "";
    LiteralLifted("d_", '(', "i", 0);
    LiteralLifted("", ')', "", 1);
    BalancedLifted(from, 1);
    PlainLifted(sep, 1);
    BalancedLifted(to, 1);
    var t1 := open + from;
    LiftedCat(open, from, 0);
    var t2 := t1 + sep;
    LiftedCat(t1, sep, 0);
    var t3 := t2 + to;
    LiftedCat(t2, to, 0);
    var t4 := t3 + close;
    LiftedCat(t3, close, 0);
    assert t4 == ColourDelta(from, to);
  }

  lemma FermionicBalanced(from: string, to: string, momentum: string, mass: string)
    requires Balanced(from) && Balanced(to) && Balanced(momentum) && Balanced(mass)
    ensures Balanced(FermionicPropagator(from, to, momentum, mass))
  {
    var args := [I, FermionNumerator(from, to, momentum, mass), StandardDenominator(momentum, mass)];
    BalancedPlain(I);
    NumeratorBalanced(from, to, momentum, mass);
    DenominatorBalanced(momentum, mass);
    TimesBalanced(args);
  }

  // ---------------------------------------------------------------------------
  // What the rules produce

  /** The denominator gives back its momentum and its mass, provided the momentum
      has no comma. */
  lemma DenominatorReadBack(momentum: string, mass: string, momentum': string, mass': string)
    requires NoneIn(momentum, {','}) && NoneIn(momentum', {','})
    requires StandardDenominator(momentum, mass) == StandardDenominator(momentum', mass')
    ensures momentum == momentum' && mass == mass'
  {
    var s := StandardDenominator(momentum, mass);
    assert s[4..] == momentum + [','] + (mass + ")");
    assert StandardDenominator(momentum', mass')[4..] == momentum' + [','] + (mass' + ")");
    CutAtFirst(momentum, mass + ")", momentum', mass' + ")", ',');
    assert mass == (mass + ")")[..|mass|];
    assert mass' == (mass' + ")")[..|mass'|];
  }

  /** A product of two balanced factors reads back as those two factors. */
  lemma TwoFactors(a: string, b: string)
    requires Balanced(a) && Balanced(b)
    ensures TopLevel(Times([a, b]), '*') == ["(" + a + ")", "(" + b + ")"]
  {
    TimesFactors([a, b]);
  }

  /** A product of three balanced factors reads back as those three factors. */
  lemma ThreeFactors(a: string, b: string, c: string)
    requires Balanced(a) && Balanced(b) && Balanced(c)
    ensures TopLevel(Times([a, b, c]), '*') == ["(" + a + ")", "(" + b + ")", "(" + c + ")"]
  {
    TimesFactors([a, b, c]);
  }

  /** A scalar propagator is the text `(i_)*(Den(momentum,mass))`. */
  lemma ScalarPropagatorText(momentum: string, mass: string)
    ensures ScalarPropagator(momentum, mass) == "(i_)*(Den(" + momentum + "," + mass + "))"
  {
    var den := StandardDenominator(momentum, mass);
    TimesShapes(I, den, "");
    assert "(" + I + ")*(" == "(i_)*(" && "(Den(" == "(" + "Den(" && "))" == ")" + ")";
  }

  /** A scalar propagator has two top-level factors, `i_` and the denominator. */
  lemma ScalarPropagatorFactors(momentum: string, mass: string)
    requires Balanced(momentum) && Balanced(mass)
    ensures TopLevel(ScalarPropagator(momentum, mass), '*') ==
      ["(" + I + ")", "(" + StandardDenominator(momentum, mass) + ")"]
  {
    BalancedPlain(I);
    DenominatorBalanced(momentum, mass);
    TwoFactors(I, StandardDenominator(momentum, mass));
  }

  /** A fermion propagator has exactly three top-level factors: `i_`, the numerator
      and the denominator. */
  lemma FermionicPropagatorFactors(from: string, to: string, momentum: string, mass: string)
    requires Balanced(from) && Balanced(to) && Balanced(momentum) && Balanced(mass)
    ensures TopLevel(FermionicPropagator(from, to, momentum, mass), '*') ==
      ["(" + I + ")", "(" + FermionNumerator(from, to, momentum, mass) + ")",
       "(" + StandardDenominator(momentum, mass) + ")"]
  {
    BalancedPlain(I);
    NumeratorBalanced(from, to, momentum, mass);
    DenominatorBalanced(momentum, mass);
    ThreeFactors(I, FermionNumerator(from, to, momentum, mass), StandardDenominator(momentum, mass));
  }

  /** Every text `pre + a + ",x" + ...` fixes `a` when `a` has no comma. */
  lemma SlotFixed(pre: string, a: string, rest: string, a': string, rest': string)
    requires NoneIn(a, {','}) && NoneIn(a', {','})
    requires pre + a + ",x" + rest == pre + a' + ",x" + rest'
    ensures a == a'
  {
    var s := pre + a + ",x" + rest;
    assert s[|pre|..] == a + [','] + ("x" + rest);
    assert (pre + a' + ",x" + rest')[|pre|..] == a' + [','] + ("x" + rest');
    CutAtFirst(a, "x" + rest, a', "x" + rest', ',');
  }

  /** The numerator is oriented: exchanging the two field ids changes it, unless they
      are equal. */
  lemma NumeratorOrientation(from: string, to: string, momentum: string, mass: string)
    requires NoneIn(from, {','}) && NoneIn(to, {','})
    ensures FermionNumerator(from, to, momentum, mass) == FermionNumerator(to, from, momentum, mass)
        <==> from == to
  {
    var pre := "g(" + momentum + ",x";
    var rest := to + ") + " + mass + "*g(" + SpinorPair(from, to) + ")";
    var rest' := from + ") + " + mass + "*g(" + SpinorPair(to, from) + ")";
    assert FermionNumerator(from, to, momentum, mass) == pre + from + ",x" + rest;
    assert FermionNumerator(to, from, momentum, mass) == pre + to + ",x" + rest';
    if FermionNumerator(from, to, momentum, mass) == FermionNumerator(to, from, momentum, mass) {
      SlotFixed(pre, from, rest, to, rest');
    }
  }

  /** `pre + x + post` determines `x` once `pre` and `post` are fixed. */
  lemma InnerFixed(pre: string, x: string, post: string, x': string)
    requires pre + x + post == pre + x' + post
    ensures x == x'
  {
    var s := pre + x + post;
    assert x == s[|pre|..|s| - |post|];
    assert x' == (pre + x' + post)[|pre|..|s| - |post|];
  }

  /** Two products of three factors that agree on the outer factors agree on the
      middle one. */
  lemma TimesMiddle(a: string, b: string, c: string, b': string)
    requires Times([a, b, c]) == Times([a, b', c])
    ensures b == b'
  {
    TimesShapes(a, b, c);
    TimesShapes(a, b', c);
    assert Times([a, b, c]) == "(" + a + ")*(" + b + (")*(" + c + ")");
    assert Times([a, b', c]) == "(" + a + ")*(" + b' + (")*(" + c + ")");
    InnerFixed("(" + a + ")*(", b, ")*(" + c + ")", b');
  }

  /** The fermion propagator is oriented: exchanging its two field ids changes it,
      unless they are equal. */
  lemma FermionicOrientation(from: string, to: string, momentum: string, mass: string)
    requires NoneIn(from, {','}) && NoneIn(to, {','})
    ensures FermionicPropagator(from, to, momentum, mass) == FermionicPropagator(to, from, momentum, mass)
        <==> from == to
  {
    var den := StandardDenominator(momentum, mass);
    if FermionicPropagator(from, to, momentum, mass) == FermionicPropagator(to, from, momentum, mass) {
      TimesMiddle(I, FermionNumerator(from, to, momentum, mass), den, FermionNumerator(to, from, momentum, mass));
    }
    NumeratorOrientation(from, to, momentum, mass);
  }

  /** A quark propagator is the fermion propagator times the colour delta of the same
      two ids, in the same order. */
  lemma QuarkPropagatorFactors(from: string, to: string, momentum: string, mass: string)
    requires Balanced(from) && Balanced(to) && Balanced(momentum) && Balanced(mass)
    ensures TopLevel(QuarkPropagator(from, to, momentum, mass), '*') ==
      ["(" + FermionicPropagator(from, to, momentum, mass) + ")", "(" + ColourDelta(from, to) + ")"]
  {
    FermionicBalanced(from, to, momentum, mass);
    ColourDeltaBalanced(from, to);
    TwoFactors(FermionicPropagator(from, to, momentum, mass), ColourDelta(from, to));
  }

  /** The quark propagator is oriented like the fermion propagator it contains. */
  lemma QuarkOrientation(from: string, to: string, momentum: string, mass: string)
    requires NoneIn(from, {','}) && NoneIn(to, {','})
    ensures QuarkPropagator(from, to, momentum, mass) == QuarkPropagator(to, from, momentum, mass)
        <==> from == to
  {
    var f := FermionicPropagator(from, to, momentum, mass);
    var b := FermionicPropagator(to, from, momentum, mass);
    var c := ColourDelta(from, to);
    var c' := ColourDelta(to, from);
    TimesShapes(f, c, "");
    TimesShapes(b, c', "");
    assert QuarkPropagator(from, to, momentum, mass) == "(" + f + (")*(" + c + ")");
    assert QuarkPropagator(to, from, momentum, mass) == "(" + b + (")*(" + c' + ")");
    if QuarkPropagator(from, to, momentum, mass) == QuarkPropagator(to, from, momentum, mass) {
      assert |f| == |b|;
      var q := QuarkPropagator(from, to, momentum, mass);
      assert f == q[1..1 + |f|];
      assert b == QuarkPropagator(to, from, momentum, mass)[1..1 + |b|];
    }
    FermionicOrientation(from, to, momentum, mass);
  }

  /** The fermion propagator begins `(i_)*(g(momentum,x...`. */
  lemma FermionicMomentumSlot(from: string, to: string, momentum: string, mass: string)
    ensures FermionicPropagator(from, to, momentum, mass) ==
      "(i_)*(g(" + momentum + ",x" + FermionicTail(from, to, momentum, mass)
  {
    var n := FermionNumerator(from, to, momentum, mass);
    var den := StandardDenominator(momentum, mass);
    var rest := from + ",x" + to + ") + " + mass + "*g(" + SpinorPair(from, to) + ")";
    NumeratorAfterMomentum(from, to, momentum, mass, rest);
    FermionicShape(from, to, momentum, mass);
    Regroup("(i_)*(", "g(", momentum, ",x", rest, ")*(" + den + ")");
    TailRegroup(from, to, mass, SpinorPair(from, to), den);
    assert "(i_)*(" + "g(" == "(i_)*(g(";
  }

  lemma Regroup(l: string, g: string, m: string, x: string, rest: string, y: string)
    ensures l + (g + m + x + rest) + y == (l + g) + m + x + (rest + y)
  {
  }

  lemma TailRegroup(from: string, to: string, mass: string, pair: string, den: string)
    ensures (from + ",x" + to + ") + " + mass + "*g(" + pair + ")") + (")*(" + den + ")")
         == from + ",x" + to + ") + " + mass + "*g(" + pair + "))*(" + den + ")"
  {
  }

  lemma NumeratorAfterMomentum(from: string, to: string, momentum: string, mass: string, rest: string)
    requires rest == from + ",x" + to + ") + " + mass + "*g(" + SpinorPair(from, to) + ")"
    ensures FermionNumerator(from, to, momentum, mass) == "g(" + momentum + ",x" + rest
  {
  }

  lemma FermionicShape(from: string, to: string, momentum: string, mass: string)
    ensures FermionicPropagator(from, to, momentum, mass)
         == "(i_)*(" + FermionNumerator(from, to, momentum, mass) + (")*(" + StandardDenominator(momentum, mass) + ")")
  {
    TimesShapes(I, FermionNumerator(from, to, momentum, mass), StandardDenominator(momentum, mass));
    assert "(" + I + ")*(" == "(i_)*(";
  }

  /** What follows the momentum's first occurrence in the fermion propagator. */
  function FermionicTail(from: string, to: string, momentum: string, mass: string): string
  {
    from + ",x" + to + ") + " + mass + "*g(" + SpinorPair(from, to) + "))*(" + StandardDenominator(momentum, mass) + ")"
  }

  /** The fermion propagator gives back its momentum, provided it has no comma. */
  lemma FermionicMomentumReadBack(from: string, to: string, momentum: string, mass: string,
                                  from': string, to': string, momentum': string, mass': string)
    requires NoneIn(momentum, {','}) && NoneIn(momentum', {','})
    requires FermionicPropagator(from, to, momentum, mass) == FermionicPropagator(from', to', momentum', mass')
    ensures momentum == momentum'
  {
    FermionicMomentumSlot(from, to, momentum, mass);
    FermionicMomentumSlot(from', to', momentum', mass');
    SlotFixed("(i_)*(g(", momentum, FermionicTail(from, to, momentum, mass),
              momentum', FermionicTail(from', to', momentum', mass'));
  }

  /** The quark propagator gives back its momentum, provided it has no comma. */
  lemma QuarkMomentumReadBack(from: string, to: string, momentum: string, mass: string,
                              momentum': string, mass': string)
    requires NoneIn(momentum, {','}) && NoneIn(momentum', {','})
    requires QuarkPropagator(from, to, momentum, mass) == QuarkPropagator(from, to, momentum', mass')
    ensures momentum == momentum'
  {
    var f := FermionicPropagator(from, to, momentum, mass);
    var f' := FermionicPropagator(from, to, momentum', mass');
    var c := ColourDelta(from, to);
    TimesShapes(f, c, "");
    TimesShapes(f', c, "");
    assert QuarkPropagator(from, to, momentum, mass) == "(" + f + (")*(" + c + ")");
    assert QuarkPropagator(from, to, momentum', mass') == "(" + f' + (")*(" + c + ")");
    InnerFixed("(", f, ")*(" + c + ")", f');
    FermionicMomentumReadBack(from, to, momentum, mass, from, to, momentum', mass');
  }
}
