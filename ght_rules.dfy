/** The Feynman rules of models/GHT/feynman_rules.py: the top Yukawa vertex and the
    top-quark propagator, written from the fields an interaction hands over, grouped
    by particle name. */
module GhtRules {
  import opened Base
  import opened Text
  import opened AlgebraTools
  import opened StandardPropagators
  import opened DiagramElements

  /** `field_index_mapper`: each particle name with the list of its fields. */
  type Mapper = map<string, seq<DiagramField>>

  /** `mapper[name][0]`: a missing name raises KeyError, an empty list IndexError. */
  function FirstField(mapper: Mapper, name: string): (r: Result<DiagramField>)
    ensures r.Success? <==> name in mapper && |mapper[name]| > 0
    ensures r.Success? ==> r.value == mapper[name][0]
    ensures name !in mapper ==> r == Failure(KeyError(name))
    ensures name in mapper && |mapper[name]| == 0 ==> r == Failure(IndexError)
  {
    if name !in mapper then Failure(KeyError(name))
    else if |mapper[name]| == 0 then Failure(IndexError)
    else Success(mapper[name][0])
  }

  const YukawaPrefactor: string := "(-i_)*Y"

  /** A Kronecker delta over two indices that share a prefix: `d_(<head><a>,<head><b>)`. */
  function Delta(head: string, a: string, b: string): string
  {
    "d_(" + head + a + "," + head + b + ")"
  }

  /** `txtH(field_index_mapper)`: the first `tbar` field and the first `t` field give
      the ids of a colour delta (`col`) and a Dirac delta (`s`), `tbar` first. */
  function TxtH(mapper: Mapper): (r: Result<string>)
    ensures r.Success? <==> FirstField(mapper, "tbar").Success? && FirstField(mapper, "t").Success?
    ensures FirstField(mapper, "tbar").Failure? ==> r == Failure(FirstField(mapper, "tbar").error)
    ensures FirstField(mapper, "tbar").Success? && FirstField(mapper, "t").Failure? ==>
      r == Failure(FirstField(mapper, "t").error)
  {
    var tx :- FirstField(mapper, "tbar");
    var t :- FirstField(mapper, "t");
    Success(Times([YukawaPrefactor, Delta("col", tx.id, t.id), Delta("s", tx.id, t.id)]))
  }

  /** Only the first `tbar` and the first `t` field matter: two mappers that agree on
      them give the same vertex. */
  lemma TxtHReadsFirstFields(mapper: Mapper, mapper': Mapper)
    requires FirstField(mapper, "tbar").Success? && FirstField(mapper, "t").Success?
    requires FirstField(mapper', "tbar") == FirstField(mapper, "tbar")
    requires FirstField(mapper', "t") == FirstField(mapper, "t")
    ensures TxtH(mapper') == TxtH(mapper)
  {
  }

  lemma DeltaBalanced(head: string, a: string, b: string)
    requires NoneIn(head, {'(', ')'}) && Balanced(a) && Balanced(b)
    ensures Balanced(Delta(head, a, b))
  {
    var sep := "," + head;
    assert NoneIn(sep, {'(', ')'}) by {
      forall i | 0 <= i < |sep|
        ensures sep[i] !in {'(', ')'}
      {
        if i > 0 {
          assert sep[i] == head[i - 1];
        }
      }
    }
    BalancedPlain(head);
    BalancedCat(head, a);
    BalancedArgs(head + a, sep, b);
    var inner := head + a + sep + b;
    BalancedCall("d_", inner);
    assert Delta(head, a, b) == "d_" + "(" + inner + ")";
  }

  lemma YukawaBalanced()
    ensures Balanced(YukawaPrefactor)
  {
    BalancedPlain("-i_");
    BalancedWrap("-i_");
    BalancedPlain("*Y");
    BalancedCat("(" + "-i_" + ")", "*Y");
    assert YukawaPrefactor == "(" + "-i_" + ")" + "*Y";
  }

  /** The Yukawa vertex is the three-factor product of `(-i_)*Y`, the colour delta
      and the Dirac delta, each holding the `tbar` id then the `t` id. */
  lemma TxtHFactors(mapper: Mapper)
    requires TxtH(mapper).Success?
    requires Balanced(mapper["tbar"][0].id) && Balanced(mapper["t"][0].id)
    ensures var tx := mapper["tbar"][0].id; var t := mapper["t"][0].id;
      TopLevel(TxtH(mapper).value, '*') ==
        ["(" + YukawaPrefactor + ")", "(" + Delta("col", tx, t) + ")", "(" + Delta("s", tx, t) + ")"]
  {
    var tx := mapper["tbar"][0].id;
    var t := mapper["t"][0].id;
    YukawaBalanced();
    DeltaBalanced("col", tx, t);
    DeltaBalanced("s", tx, t);
    ThreeFactors(YukawaPrefactor, Delta("col", tx, t), Delta("s", tx, t));
  }

  /** Every text `pre + a + "," + ...` fixes `a` when `a` has no comma. */
  lemma CommaSlotFixed(pre: string, a: string, rest: string, a': string, rest': string)
    requires NoneIn(a, {','}) && NoneIn(a', {','})
    requires pre + a + "," + rest == pre + a' + "," + rest'
    ensures a == a'
  {
    var s := pre + a + "," + rest;
    assert s[|pre|..] == a + [','] + rest;
    assert (pre + a' + "," + rest')[|pre|..] == a' + [','] + rest';
    CutAtFirst(a, rest, a', rest', ',');
  }

  /** The vertex text with its first index slot laid open. */
  lemma TxtHSlot(a: string, b: string)
    ensures Times([YukawaPrefactor, Delta("col", a, b), Delta("s", a, b)]) ==
      ("(" + YukawaPrefactor + ")*(d_(col") + a + "," + ("col" + b + ")" + ")*(" + Delta("s", a, b) + ")")
  {
    TimesShapes(YukawaPrefactor, Delta("col", a, b), Delta("s", a, b));
    assert "(" + YukawaPrefactor + ")*(d_(col" == "(" + YukawaPrefactor + ")*(" + "d_(" + "col" by {
      assert ")*(d_(col" == ")*(" + "d_(" + "col";
    }
  }

  /** Both deltas are oriented: exchanging the `tbar` and `t` fields changes the
      vertex unless their ids are equal. */
  lemma TxtHOrientation(mapper: Mapper, tx: DiagramField, t: DiagramField)
    requires NoneIn(tx.id, {','}) && NoneIn(t.id, {','})
    ensures TxtH(mapper["tbar" := [tx]]["t" := [t]]) == TxtH(mapper["tbar" := [t]]["t" := [tx]])
        <==> tx.id == t.id
  {
    var m1 := mapper["tbar" := [tx]]["t" := [t]];
    var m2 := mapper["tbar" := [t]]["t" := [tx]];
    assert FirstField(m1, "tbar") == Success(tx) && FirstField(m1, "t") == Success(t);
    assert FirstField(m2, "tbar") == Success(t) && FirstField(m2, "t") == Success(tx);
    if TxtH(m1) == TxtH(m2) {
      TxtHSlot(tx.id, t.id);
      TxtHSlot(t.id, tx.id);
      var pre := "(" + YukawaPrefactor + ")*(d_(col";
      CommaSlotFixed(pre, tx.id, "col" + t.id + ")" + ")*(" + Delta("s", tx.id, t.id) + ")",
                     t.id, "col" + tx.id + ")" + ")*(" + Delta("s", t.id, tx.id) + ")");
    }
  }

  // ---------------------------------------------------------------------------
  // top_prop

  /** `top_prop(field_index_mapper)` as written: after the two lookups it reads
      `t.mass`, an attribute a DiagramField does not have, so it always raises. Had
      it run, the call `quark_propagator(t.id, tx.id, t.mass, t.momentum)` would also
      have put the mass in the momentum slot and the momentum in the mass slot. */
  function TopPropAsWritten(mapper: Mapper): (r: Result<string>)
    ensures r.Failure?
    ensures FirstField(mapper, "tbar").Success? && FirstField(mapper, "t").Success? ==>
      r == Failure(AttributeError("mass"))
  {
    var tx :- FirstField(mapper, "tbar");
    var t :- FirstField(mapper, "t");
    Failure(AttributeError("mass"))
  }

  /** `top_prop` as intended: the `t` field is the `from` end, the `tbar` field the
      `to` end, with the `t` field's momentum and its particle's mass. */
  function TopPropCorrected(mapper: Mapper): (r: Result<string>)
    ensures r.Success? <==> FirstField(mapper, "tbar").Success? && FirstField(mapper, "t").Success?
    ensures r.Success? ==>
      var t := mapper["t"][0];
      r.value == QuarkPropagator(t.id, mapper["tbar"][0].id, t.momentum, t.particle.mass.text)
  {
    var tx :- FirstField(mapper, "tbar");
    var t :- FirstField(mapper, "t");
    Success(QuarkPropagator(t.id, tx.id, t.momentum, t.particle.mass.text))
  }

  /** The slot order matters: the call as written (mass first) gives a different text
      from the intended one unless the momentum and the mass coincide. */
  lemma TopPropSwapVisible(from: string, to: string, momentum: string, mass: string)
    requires NoneIn(momentum, {','}) && NoneIn(mass, {','})
    ensures QuarkPropagator(from, to, mass, momentum) == QuarkPropagator(from, to, momentum, mass)
        <==> momentum == mass
  {
    if QuarkPropagator(from, to, mass, momentum) == QuarkPropagator(from, to, momentum, mass) {
      QuarkMomentumReadBack(from, to, mass, momentum, momentum, mass);
    }
  }

  /** The intended propagator runs from the `t` field to the `tbar` field: exchanging
      the two changes it unless their ids are equal. */
  lemma TopPropCorrectedOrientation(mapper: Mapper, tx: DiagramField, t: DiagramField)
    requires NoneIn(tx.id, {','}) && NoneIn(t.id, {','})
    requires t.momentum == tx.momentum && t.particle == tx.particle
    ensures TopPropCorrected(mapper["tbar" := [tx]]["t" := [t]]) == TopPropCorrected(mapper["tbar" := [t]]["t" := [tx]])
        <==> tx.id == t.id
  {
    var m1 := mapper["tbar" := [tx]]["t" := [t]];
    var m2 := mapper["tbar" := [t]]["t" := [tx]];
    assert FirstField(m1, "tbar") == Success(tx) && FirstField(m1, "t") == Success(t);
    assert FirstField(m2, "tbar") == Success(t) && FirstField(m2, "t") == Success(tx);
    QuarkOrientation(t.id, tx.id, t.momentum, t.particle.mass.text);
  }
}
