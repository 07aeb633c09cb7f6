/** The Feynman rules of models/phi3/feynman_rules.py: the cubic scalar vertex and the
    scalar propagator. */
module Phi3Rules {
  import opened Text
  import opened StandardPropagators
  import opened DiagramElements

  /** `phi3(field_index_mapper)`: the vertex factor is `1`, whatever the fields. */
  function Phi3(mapper: map<string, seq<DiagramField>>): (r: string)
    ensures r == "1"
  {
    "1"
  }

  /** `phi_prop(from_field, to_field, momentum)`: the scalar propagator with the mass
      of the `from` field's particle. */
  function PhiProp(from: DiagramField, to: DiagramField, momentum: string): string
  {
    ScalarPropagator(momentum, from.particle.mass.text)
  }

  /** The `to` field plays no part. */
  lemma PhiPropIgnoresTo(from: DiagramField, to: DiagramField, to': DiagramField, momentum: string)
    ensures PhiProp(from, to, momentum) == PhiProp(from, to', momentum)
  {
  }

  /** The propagator is `(i_)*(Den(momentum,mass))`. */
  lemma PhiPropText(from: DiagramField, to: DiagramField, momentum: string)
    ensures PhiProp(from, to, momentum) == "(i_)*(Den(" + momentum + "," + from.particle.mass.text + "))"
  {
    ScalarPropagatorText(momentum, from.particle.mass.text);
  }

  /** The propagator gives back its momentum and the mass of the `from` particle,
      provided the momentum has no comma. */
  lemma PhiPropReadBack(from: DiagramField, to: DiagramField, momentum: string,
                        from': DiagramField, to': DiagramField, momentum': string)
    requires NoneIn(momentum, {','}) && NoneIn(momentum', {','})
    requires PhiProp(from, to, momentum) == PhiProp(from', to', momentum')
    ensures momentum == momentum' && from.particle.mass.text == from'.particle.mass.text
  {
    var den := StandardDenominator(momentum, from.particle.mass.text);
    var den' := StandardDenominator(momentum', from'.particle.mass.text);
    PhiPropText(from, to, momentum);
    PhiPropText(from', to', momentum');
    assert PhiProp(from, to, momentum) == "(i_)*(" + den + ")";
    assert PhiProp(from', to', momentum') == "(i_)*(" + den' + ")";
    InnerFixed("(i_)*(", den, ")", den');
    DenominatorReadBack(momentum, from.particle.mass.text, momentum', from'.particle.mass.text);
  }
}
