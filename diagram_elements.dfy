/** The diagram object model of diagram_elements.py: fields, vertices, propagators
    and whole diagrams, built from records already read out of QGRAF's output. The
    interaction and propagator registries of a model are taken as given maps from
    the list of particle names to a rule that writes the FORM expression. */
module DiagramElements {
  import opened Base
  import opened Text
  import opened Collections
  import opened AbstractObjects
  import opened AlgebraTools

  // ---------------------------------------------------------------------------
  // Field ids

  /** The id of the field QGRAF numbers `n`: `str(abs(n))`, prefixed `ext` when `n`
      is negative, as QGRAF numbers external legs. */
  function FieldId(n: int): (r: string)
    ensures n < 0 <==> |r| > 3 && r[..3] == "ext"
    ensures n >= 0 ==> |r| > 0 && AllDigits(r)
  {
    if n < 0 then "ext" + NatToString(-n) else NatToString(n)
  }

  /** Different field numbers get different ids. */
  lemma FieldIdInjective(n: int, m: int)
    requires FieldId(n) == FieldId(m)
    ensures n == m
  {
    if n < 0 && m < 0 {
      assert NatToString(-n) == FieldId(n)[3..] == NatToString(-m);
      NatToStringInjective(-n, -m);
    } else if n >= 0 && m >= 0 {
      NatToStringInjective(n, m);
    }
  }

  /** The number can be read back from its id. */
  lemma FieldIdReadBack(n: int)
    ensures n >= 0 ==> ParseInt(FieldId(n)) == Some(n)
    ensures n < 0 ==> ParseInt("-" + FieldId(n)[3..]) == Some(n)
  {
    ParseIntToString(n);
    if n < 0 {
      assert FieldId(n)[3..] == NatToString(-n);
    }
  }

  /** `DiagramField.__init__` on the id text: `int(field_id)` raises on a text that is
      not an integer. */
  function NormaliseId(text: string): (r: Result<string>)
    ensures r.Success? <==> ParseInt(text).Some?
    ensures r.Success? ==> r.value == FieldId(ParseInt(text).value)
    ensures r.Failure? ==> r.error == ValueError(text)
  {
    match ParseInt(text)
    case Some(n) => Success(FieldId(n))
    case None => Failure(ValueError(text))
  }

  // ---------------------------------------------------------------------------
  // DiagramField

  /** One field of a diagram: its particle type, its id, its momentum and the model's
      particle of that type. */
  datatype DiagramField = DiagramField(name: string, id: string, momentum: string, particle: Particle)

  /** The (particle type, field id, momentum) texts of one field. */
  datatype FieldRecord = FieldRecord(name: string, fieldId: string, momentum: string)

  /** `DiagramField(name, field_id, momentum, model)`: the id is normalised first, then
      the particle is looked up. */
  function NewField(rec: FieldRecord, particles: map<string, Particle>): (r: Result<DiagramField>)
    ensures r.Success? <==> ParseInt(rec.fieldId).Some? && rec.name in particles
    ensures ParseInt(rec.fieldId).None? ==> r == Failure(ValueError(rec.fieldId))
    ensures ParseInt(rec.fieldId).Some? && rec.name !in particles ==> r == Failure(KeyError(rec.name))
    ensures r.Success? ==>
      r.value.name == rec.name && r.value.momentum == rec.momentum &&
      r.value.id == FieldId(ParseInt(rec.fieldId).value) && r.value.particle == particles[rec.name]
  {
    var id :- NormaliseId(rec.fieldId);
    if rec.name in particles then Success(DiagramField(rec.name, id, rec.momentum, particles[rec.name]))
    else Failure(KeyError(rec.name))
  }

  // ---------------------------------------------------------------------------
  // The fields of a vertex

  /** The comma-separated momenta, types and field ids of a vertex record. */
  datatype VertexNode = VertexNode(momenta: string, types: string, fields: string)

  /** `parse_xml_vertex_node` after the texts are read: the three lists must have the
      same length, and are zipped as (type, field id, momentum). */
  function ParseVertexRecord(node: VertexNode): (r: Result<seq<FieldRecord>>)
    ensures r.Success? <==>
      |Split(node.momenta, ',')| == |Split(node.fields, ',')| == |Split(node.types, ',')|
    ensures r.Failure? ==> r.error.AssertionError?
    ensures r.Success? ==> |r.value| == |Split(node.types, ',')|
    ensures r.Success? ==> forall k :: 0 <= k < |r.value| ==>
      r.value[k] == FieldRecord(Split(node.types, ',')[k], Split(node.fields, ',')[k], Split(node.momenta, ',')[k])
  {
    var momenta := Split(node.momenta, ',');
    var types := Split(node.types, ',');
    var fields := Split(node.fields, ',');
    if |momenta| == |fields| && |momenta| == |types| then
      Success(seq(|types|, k requires 0 <= k < |types| => FieldRecord(types[k], fields[k], momenta[k])))
    else
      Failure(AssertionError("the list of momenta, field IDs and types do not match in length"))
  }

  function RecordTypes(recs: seq<FieldRecord>): (r: seq<string>)
    ensures |r| == |recs| && forall k :: 0 <= k < |recs| ==> r[k] == recs[k].name
  {
    seq(|recs|, k requires 0 <= k < |recs| => recs[k].name)
  }

  function RecordIds(recs: seq<FieldRecord>): (r: seq<string>)
    ensures |r| == |recs| && forall k :: 0 <= k < |recs| ==> r[k] == recs[k].fieldId
  {
    seq(|recs|, k requires 0 <= k < |recs| => recs[k].fieldId)
  }

  function RecordMomenta(recs: seq<FieldRecord>): (r: seq<string>)
    ensures |r| == |recs| && forall k :: 0 <= k < |recs| ==> r[k] == recs[k].momentum
  {
    seq(|recs|, k requires 0 <= k < |recs| => recs[k].momentum)
  }

  /** The zipped records hold the whole vertex record: joining each column with
      commas gives back its text. */
  lemma VertexRecordRoundTrip(node: VertexNode)
    requires ParseVertexRecord(node).Success?
    ensures Join(RecordTypes(ParseVertexRecord(node).value), ",") == node.types
    ensures Join(RecordIds(ParseVertexRecord(node).value), ",") == node.fields
    ensures Join(RecordMomenta(ParseVertexRecord(node).value), ",") == node.momenta
  {
    var recs := ParseVertexRecord(node).value;
    assert RecordTypes(recs) == Split(node.types, ',');
    assert RecordIds(recs) == Split(node.fields, ',');
    assert RecordMomenta(recs) == Split(node.momenta, ',');
    JoinSplit(node.types, ',');
    JoinSplit(node.fields, ',');
    JoinSplit(node.momenta, ',');
  }

  /** Each field keyed by its id, in order. */
  function FieldEntries(fs: seq<DiagramField>): (r: Dict<DiagramField>)
    ensures |r| == |fs| && forall k :: 0 <= k < |fs| ==> r[k] == (fs[k].id, fs[k])
  {
    seq(|fs|, k requires 0 <= k < |fs| => (fs[k].id, fs[k]))
  }

  /** The fields of every record, or the error of the first one that cannot be built. */
  function NewFields(recs: seq<FieldRecord>, particles: map<string, Particle>): Result<seq<DiagramField>>
  {
    MapResult(recs, rec => NewField(rec, particles))
  }

  /** `self.fields` as `DiagramVertex.__init__` leaves it: each field assigned under
      its id, in record order. */
  function VertexFields(recs: seq<FieldRecord>, particles: map<string, Particle>): Result<Dict<DiagramField>>
  {
    var fs :- NewFields(recs, particles);
    Success(Update([], FieldEntries(fs)))
  }

  /** The loop of `DiagramVertex.__init__` that fills `self.fields`. */
  method BuildVertexFields(recs: seq<FieldRecord>, particles: map<string, Particle>)
    returns (r: Result<Dict<DiagramField>>)
    ensures r == VertexFields(recs, particles)
  {
    var fields: Dict<DiagramField> := [];
    ghost var fs: seq<DiagramField> := [];
    for i := 0 to |recs|
      invariant NewFields(recs[..i], particles) == Success(fs)
      invariant fields == Update([], FieldEntries(fs))
    {
      var field := NewField(recs[i], particles);
      if field.Failure? {
        NewFieldsFailure(recs, particles, i);
        return Failure(field.error);
      }
      NewFieldsStep(recs, particles, i, fs);
      fields := Put(fields, field.value.id, field.value);
      fs := fs + [field.value];
    }
    assert recs[..|recs|] == recs;
    return Success(fields);
  }

  lemma NewFieldsFailure(recs: seq<FieldRecord>, particles: map<string, Particle>, i: nat)
    requires i < |recs| && NewField(recs[i], particles).Failure?
    requires NewFields(recs[..i], particles).Success?
    ensures NewFields(recs, particles) == Failure(NewField(recs[i], particles).error)
  {
    assert recs[..i + 1][..i] == recs[..i];
    MapResultPrefixFails(recs, rec => NewField(rec, particles), i + 1);
  }

  lemma NewFieldsStep(recs: seq<FieldRecord>, particles: map<string, Particle>, i: nat, fs: seq<DiagramField>)
    requires i < |recs| && NewField(recs[i], particles).Success?
    requires NewFields(recs[..i], particles) == Success(fs)
    ensures NewFields(recs[..i + 1], particles) == Success(fs + [NewField(recs[i], particles).value])
    ensures Update([], FieldEntries(fs + [NewField(recs[i], particles).value]))
         == Put(Update([], FieldEntries(fs)), NewField(recs[i], particles).value.id, NewField(recs[i], particles).value)
  {
    var f := NewField(recs[i], particles).value;
    MapResultSnoc(recs, rec => NewField(rec, particles), i, fs);
    assert FieldEntries(fs + [f]) == FieldEntries(fs) + [(f.id, f)];
    UpdateSnoc([], FieldEntries(fs), (f.id, f));
  }

  /** The field map of a vertex: its keys are distinct, there are at most as many as
      records, and under each id sits the field of the LAST record with that id. */
  lemma VertexFieldsLastWins(recs: seq<FieldRecord>, particles: map<string, Particle>, j: nat)
    requires VertexFields(recs, particles).Success?
    requires j < |recs|
    requires forall j' :: j < j' < |recs| ==>
      NewField(recs[j'], particles).value.id != NewField(recs[j], particles).value.id
    ensures Get(VertexFields(recs, particles).value, NewField(recs[j], particles).value.id)
      == Some(NewField(recs[j], particles).value)
  {
    var fs := NewFields(recs, particles).value;
    var e := FieldEntries(fs);
    var k := fs[j].id;
    UpdateGet([], e, k);
    LastWithLast(e, k, Get([], k), j);
  }

  lemma VertexFieldsShape(recs: seq<FieldRecord>, particles: map<string, Particle>)
    requires VertexFields(recs, particles).Success?
    ensures Distinct(Keys(VertexFields(recs, particles).value))
    ensures |VertexFields(recs, particles).value| <= |recs|
    ensures forall k :: k in Keys(VertexFields(recs, particles).value) <==>
      exists j :: 0 <= j < |recs| && NewField(recs[j], particles).value.id == k
  {
    var fs := NewFields(recs, particles).value;
    var e := FieldEntries(fs);
    UpdateDistinct([], e);
    UpdateSize([], e);
    forall k
      ensures k in Keys(Update([], e)) <==> exists j :: 0 <= j < |recs| && NewField(recs[j], particles).value.id == k
    {
      UpdateKeys([], e, k);
      if k in Keys(e) {
        var i :| 0 <= i < |e| && Keys(e)[i] == k;
        assert NewField(recs[i], particles).value.id == k;
      }
      if exists j :: 0 <= j < |recs| && NewField(recs[j], particles).value.id == k {
        var j :| 0 <= j < |recs| && NewField(recs[j], particles).value.id == k;
        assert Keys(e)[j] == k;
      }
    }
  }

  // ---------------------------------------------------------------------------
  // DiagramVertex

  /** The rule that writes a vertex's expression from its fields. */
  type VertexRule = seq<DiagramField> -> Result<string>

  /** The rule that writes a propagator's expression from its two fields and its
      momentum. */
  type PropagatorRule = (seq<DiagramField>, string) -> Result<string>

  /** The parts of a model the diagram elements use: its particles and its two rule
      registries, keyed by the list of particle names. */
  datatype Model = Model(
    particles: map<string, Particle>,
    interactions: map<seq<string>, VertexRule>,
    propagators: map<seq<string>, PropagatorRule>)

  /** A vertex: its fields keyed by id, and the registry key of its interaction. */
  datatype DiagramVertex = DiagramVertex(fields: Dict<DiagramField>, interaction: seq<string>)

  function FieldNames(fs: seq<DiagramField>): (r: seq<string>)
    ensures |r| == |fs| && forall k :: 0 <= k < |fs| ==> r[k] == fs[k].name
  {
    seq(|fs|, k requires 0 <= k < |fs| => fs[k].name)
  }

  /** `DiagramVertex(vertex_node, model)`: the record is checked and zipped, the fields
      are built, and the interaction is looked up under the names of the fields in
      the order the field map holds them. */
  function NewVertex(node: VertexNode, model: Model): (r: Result<DiagramVertex>)
    ensures r.Success? <==>
      ParseVertexRecord(node).Success? &&
      VertexFields(ParseVertexRecord(node).value, model.particles).Success? &&
      FieldNames(Values(VertexFields(ParseVertexRecord(node).value, model.particles).value)) in model.interactions
    ensures r.Success? ==>
      r.value.fields == VertexFields(ParseVertexRecord(node).value, model.particles).value &&
      r.value.interaction == FieldNames(Values(r.value.fields)) &&
      Distinct(Keys(r.value.fields))
  {
    var recs :- ParseVertexRecord(node);
    var fields :- VertexFields(recs, model.particles);
    var names := FieldNames(Values(fields));
    VertexFieldsShape(recs, model.particles);
    if names in model.interactions then Success(DiagramVertex(fields, names))
    else Failure(KeyError(Join(names, ",")))
  }

  /** `DiagramVertex.generate_expression()` as intended: the interaction's rule
      applied to the fields, a ValueError or KeyError of the rule logged and raised
      again unchanged. */
  function VertexExpressionCorrected(v: DiagramVertex, model: Model): (r: Result<string>)
    requires v.interaction in model.interactions
    ensures r == model.interactions[v.interaction](Values(v.fields))
  {
    model.interactions[v.interaction](Values(v.fields))
  }

  /** `DiagramVertex.generate_expression()` as written: its `except` clause formats
      the name `line`, which is bound nowhere in the file, so a ValueError or KeyError
      of the rule never reaches the caller: a NameError replaces it. */
  function VertexExpression(v: DiagramVertex, model: Model): (r: Result<string>)
    requires v.interaction in model.interactions
    ensures r.Success? <==> VertexExpressionCorrected(v, model).Success?
    ensures r.Success? ==> r == VertexExpressionCorrected(v, model)
    ensures r.Failure? ==> !r.error.ValueError? && !r.error.KeyError?
    ensures r.Failure? && !r.error.NameError? ==> r == VertexExpressionCorrected(v, model)
  {
    var out := model.interactions[v.interaction](Values(v.fields));
    if out.Failure? && (out.error.ValueError? || out.error.KeyError?) then Failure(NameError("line"))
    else out
  }

  /** The handler as written differs from the intended one exactly when the rule
      raises a ValueError or a KeyError, and then it raises a NameError about `line`. */
  lemma VertexHandlerMasksError(v: DiagramVertex, model: Model)
    requires v.interaction in model.interactions
    ensures VertexExpression(v, model) != VertexExpressionCorrected(v, model) <==>
      VertexExpressionCorrected(v, model).Failure? &&
      (VertexExpressionCorrected(v, model).error.ValueError? || VertexExpressionCorrected(v, model).error.KeyError?)
    ensures VertexExpression(v, model) != VertexExpressionCorrected(v, model) ==>
      VertexExpression(v, model) == Failure(NameError("line"))
  {
  }

  /** A key passed to `access_field_by_id`: an int, a str, or anything else. */
  datatype Key = IntKey(i: int) | StrKey(s: string) | OtherKey

  /** `access_field_by_id(field_id)` as written: the normalised id of an int key is
      computed but the lookup uses the key itself, which is never one of the string
      keys of the field map. */
  function AccessFieldById(v: DiagramVertex, key: Key): (r: Result<Option<DiagramField>>)
    ensures r.Failure? <==> key.OtherKey?
    ensures r.Failure? ==> r.error.TypeError?
    ensures key.IntKey? ==> r == Success(None)
    ensures key.StrKey? ==> r == Success(Get(v.fields, key.s))
  {
    match key
    case IntKey(_) => Success(None)
    case StrKey(s) => Success(Get(v.fields, s))
    case OtherKey => Failure(TypeError("DiagramVertex fields must be accessed using keys of type int or str"))
  }

  /** `access_field_by_id` as its documentation describes it: an int key is looked up
      under its normalised id. */
  function AccessFieldByIdCorrected(v: DiagramVertex, key: Key): (r: Result<Option<DiagramField>>)
    ensures r.Failure? <==> key.OtherKey?
    ensures key.IntKey? ==> r == AccessFieldById(v, StrKey(FieldId(key.i)))
  {
    match key
    case IntKey(n) => Success(Get(v.fields, FieldId(n)))
    case StrKey(s) => Success(Get(v.fields, s))
    case OtherKey => Failure(TypeError("DiagramVertex fields must be accessed using keys of type int or str"))
  }

  /** An int key misses a field that is present under its id; the corrected lookup
      finds it. */
  lemma IntKeyMissesField(v: DiagramVertex, n: int)
    requires FieldId(n) in Keys(v.fields)
    ensures AccessFieldById(v, IntKey(n)) == Success(None)
    ensures AccessFieldByIdCorrected(v, IntKey(n)) == Success(Get(v.fields, FieldId(n)))
    ensures AccessFieldByIdCorrected(v, IntKey(n)).value.Some?
  {
  }

  /** `field_id in vertex`. */
  function Contains(v: DiagramVertex, key: Key): (r: Result<bool>)
    ensures r.Failure? <==> key.OtherKey?
    ensures r.Failure? ==> r.error.TypeError?
    ensures key.IntKey? ==> r == Success(false)
    ensures key.StrKey? ==> r == Success(key.s in Keys(v.fields))
  {
    var found :- AccessFieldById(v, key);
    Success(found.Some?)
  }

  /** `vertex[field_id]`: a missing field raises KeyError. */
  function GetItem(v: DiagramVertex, key: Key): (r: Result<DiagramField>)
    ensures key.OtherKey? ==> r.Failure? && r.error.TypeError?
    ensures key.IntKey? ==> r == Failure(KeyError("No such field id in DiagramVertex"))
    ensures key.StrKey? ==> (r.Success? <==> key.s in Keys(v.fields))
    ensures key.StrKey? && r.Success? ==> Get(v.fields, key.s) == Some(r.value)
    ensures key.StrKey? && r.Failure? ==> r.error.KeyError?
  {
    var found :- AccessFieldById(v, key);
    if found.Some? then Success(found.value) else Failure(KeyError("No such field id in DiagramVertex"))
  }

  /** `vertex[key] = value`: the fields are immutable, so it always raises; a vertex is
      a value, so nothing about it changes. */
  function SetItem(v: DiagramVertex, key: Key, value: DiagramField): (r: Outcome)
    ensures r.Fail? && r.error.NotImplementedError?
  {
    Fail(NotImplementedError("DiagramVertex fields are immutable"))
  }

  /** `in` holds exactly when indexing succeeds, keys of another type raise a
      TypeError from both, and a str key finds the field stored under it. */
  lemma ContainsIffGetItem(v: DiagramVertex, key: Key)
    ensures Contains(v, key) == Success(true) <==> GetItem(v, key).Success?
    ensures Contains(v, key) == Success(false) <==> GetItem(v, key).Failure? && GetItem(v, key).error.KeyError?
    ensures key.OtherKey? <==> Contains(v, key).Failure? && Contains(v, key).error.TypeError?
    ensures key.OtherKey? ==> GetItem(v, key).Failure? && GetItem(v, key).error.TypeError?
    ensures key.StrKey? && GetItem(v, key).Success? ==> Get(v.fields, key.s) == Some(GetItem(v, key).value)
  {
  }

  // ---------------------------------------------------------------------------
  // DiagramPropagator

  /** The texts of a propagator record: the two particle types, the two field ids
      and the momentum. */
  datatype PropagatorNode = PropagatorNode(
    fromName: string, fromIndex: string, toName: string, toIndex: string, momentum: string)

  datatype DiagramPropagator = DiagramPropagator(
    fromField: DiagramField, toField: DiagramField, momentum: string, propagator: seq<string>)

  /** `DiagramPropagator(propagator_node, fields, model)`: both ends are looked up by
      id, then the rule by the two declared types, then each end's type is checked. */
  function NewPropagator(node: PropagatorNode, fields: Dict<DiagramField>, model: Model)
    : (r: Result<DiagramPropagator>)
    ensures r.Success? <==>
      node.fromIndex in Keys(fields) && node.toIndex in Keys(fields) &&
      [node.fromName, node.toName] in model.propagators &&
      Get(fields, node.fromIndex).value.name == node.fromName &&
      Get(fields, node.toIndex).value.name == node.toName
    ensures node.fromIndex !in Keys(fields) ==> r == Failure(KeyError(node.fromIndex))
    ensures node.fromIndex in Keys(fields) && node.toIndex !in Keys(fields) ==> r == Failure(KeyError(node.toIndex))
    ensures r.Failure? && node.fromIndex in Keys(fields) && node.toIndex in Keys(fields) ==>
      ([node.fromName, node.toName] in model.propagators <==> r.error.AssertionError?)
    ensures r.Success? ==>
      Some(r.value.fromField) == Get(fields, node.fromIndex) && Some(r.value.toField) == Get(fields, node.toIndex) &&
      r.value.momentum == node.momentum && r.value.propagator == [node.fromName, node.toName]
  {
    var from := Get(fields, node.fromIndex);
    if from.None? then Failure(KeyError(node.fromIndex))
    else
      var to := Get(fields, node.toIndex);
      if to.None? then Failure(KeyError(node.toIndex))
      else
        var key := [node.fromName, node.toName];
        if key !in model.propagators then Failure(KeyError(Join(key, ",")))
        else if from.value.name != node.fromName then
          Failure(AssertionError("the from_field type does not match the field with the same index"))
        else if to.value.name != node.toName then
          Failure(AssertionError("the to_field type does not match the field with the same index"))
        else Success(DiagramPropagator(from.value, to.value, node.momentum, key))
  }

  /** `DiagramPropagator.generate_expression()`: the rule applied to the two fields, in
      from-to order, and the momentum. Unlike the vertex handler, its `except` clause
      logs and raises the rule's ValueError or KeyError again unchanged, so every
      outcome of the rule, error or expression, is the propagator's. */
  function PropagatorExpression(p: DiagramPropagator, model: Model): (r: Result<string>)
    requires p.propagator in model.propagators
    ensures r.Success? <==> model.propagators[p.propagator]([p.fromField, p.toField], p.momentum).Success?
    ensures r.Failure? ==> r.error == model.propagators[p.propagator]([p.fromField, p.toField], p.momentum).error
    ensures r.Success? ==> r.value == model.propagators[p.propagator]([p.fromField, p.toField], p.momentum).value
  {
    model.propagators[p.propagator]([p.fromField, p.toField], p.momentum)
  }

  // ---------------------------------------------------------------------------
  // Diagram

  /** A diagram: its id, the number of its external legs (`external_fields` holds
      one None per leg), its vertices, the merged field map and its propagators. */
  datatype Diagram = Diagram(
    id: string,
    externalFields: nat,
    vertices: seq<DiagramVertex>,
    fields: Dict<DiagramField>,
    propagators: seq<DiagramPropagator>)

  /** `self.fields` after `Diagram.__init__` has merged the vertex maps in order. */
  function MergeFields(vs: seq<DiagramVertex>): Dict<DiagramField>
    decreases |vs|
  {
    if |vs| == 0 then [] else Update(MergeFields(vs[..|vs| - 1]), vs[|vs| - 1].fields)
  }

  /** The merging loop of `Diagram.__init__`. */
  method MergeVertexFields(vs: seq<DiagramVertex>) returns (fields: Dict<DiagramField>)
    ensures fields == MergeFields(vs)
  {
    fields := [];
    for i := 0 to |vs|
      invariant fields == MergeFields(vs[..i])
    {
      assert vs[..i + 1][..i] == vs[..i];
      fields := Update(fields, vs[i].fields);
    }
    assert vs[..|vs|] == vs;
  }

  /** The field the last vertex holding id `k` gives it, scanning from the end. */
  function LastVertexField(vs: seq<DiagramVertex>, k: string): Option<DiagramField>
    decreases |vs|
  {
    if |vs| == 0 then None
    else if k in Keys(vs[|vs| - 1].fields) then Get(vs[|vs| - 1].fields, k)
    else LastVertexField(vs[..|vs| - 1], k)
  }

  /** In the merged map an id holds the field of the last vertex that has it: a later
      vertex overrides an earlier one and clashes are not reported. */
  lemma {:induction false} MergeFieldsGet(vs: seq<DiagramVertex>, k: string)
    requires forall i :: 0 <= i < |vs| ==> Distinct(Keys(vs[i].fields))
    ensures Get(MergeFields(vs), k) == LastVertexField(vs, k)
    decreases |vs|
  {
    if |vs| > 0 {
      var last := vs[|vs| - 1];
      MergeFieldsGet(vs[..|vs| - 1], k);
      UpdateGet(MergeFields(vs[..|vs| - 1]), last.fields, k);
      LastWithDistinct(last.fields, k, Get(MergeFields(vs[..|vs| - 1]), k));
    }
  }

  /** The ids of the merged map are those of all the vertices. */
  lemma {:induction false} MergeFieldsKeys(vs: seq<DiagramVertex>, k: string)
    ensures k in Keys(MergeFields(vs)) <==> exists i :: 0 <= i < |vs| && k in Keys(vs[i].fields)
    decreases |vs|
  {
    if |vs| > 0 {
      var init := vs[..|vs| - 1];
      MergeFieldsKeys(init, k);
      UpdateKeys(MergeFields(init), vs[|vs| - 1].fields, k);
      if exists i :: 0 <= i < |vs| && k in Keys(vs[i].fields) {
        var i :| 0 <= i < |vs| && k in Keys(vs[i].fields);
        if i < |vs| - 1 {
          assert init[i] == vs[i];
        }
      }
      if exists i :: 0 <= i < |init| && k in Keys(init[i].fields) {
        var i :| 0 <= i < |init| && k in Keys(init[i].fields);
        assert vs[i] == init[i];
      }
    }
  }

  /** Every vertex record of the diagram builds a vertex. */
  predicate VerticesBuild(vertexNodes: seq<VertexNode>, model: Model)
  {
    forall i :: 0 <= i < |vertexNodes| ==> NewVertex(vertexNodes[i], model).Success?
  }

  /** The vertices built from records that all build. */
  function BuiltVertices(vertexNodes: seq<VertexNode>, model: Model): (vs: seq<DiagramVertex>)
    requires VerticesBuild(vertexNodes, model)
    ensures |vs| == |vertexNodes|
    ensures forall i :: 0 <= i < |vertexNodes| ==> NewVertex(vertexNodes[i], model) == Success(vs[i])
  {
    seq(|vertexNodes|, i requires 0 <= i < |vertexNodes| => NewVertex(vertexNodes[i], model).value)
  }

  /** `Diagram(diagram_node, model)`: the legs are built as fields (and dropped), then
      the vertices, the merged field map and the propagators, in that order; the
      first error met on the way is the diagram's. */
  function NewDiagram(id: string, legs: seq<FieldRecord>, vertexNodes: seq<VertexNode>,
                      propagatorNodes: seq<PropagatorNode>, model: Model): (r: Result<Diagram>)
    ensures r.Success? <==>
      NewFields(legs, model.particles).Success? && VerticesBuild(vertexNodes, model) &&
      forall j :: 0 <= j < |propagatorNodes| ==>
        NewPropagator(propagatorNodes[j], MergeFields(BuiltVertices(vertexNodes, model)), model).Success?
    ensures r.Success? ==>
      r.value.id == id && r.value.externalFields == |legs| &&
      r.value.vertices == BuiltVertices(vertexNodes, model) &&
      r.value.fields == MergeFields(r.value.vertices) &&
      |r.value.propagators| == |propagatorNodes| &&
      forall j :: 0 <= j < |propagatorNodes| ==>
        NewPropagator(propagatorNodes[j], r.value.fields, model) == Success(r.value.propagators[j])
    ensures r.Success? ==> Registered(r.value, model)
    ensures NewFields(legs, model.particles).Failure? ==> r == Failure(NewFields(legs, model.particles).error)
    ensures NewFields(legs, model.particles).Success? && !VerticesBuild(vertexNodes, model) ==>
      r.Failure? &&
      exists k :: 0 <= k < |vertexNodes| && NewVertex(vertexNodes[k], model) == Failure(r.error) &&
        forall j :: 0 <= j < k ==> NewVertex(vertexNodes[j], model).Success?
    ensures NewFields(legs, model.particles).Success? && VerticesBuild(vertexNodes, model) && r.Failure? ==>
      exists k :: 0 <= k < |propagatorNodes| &&
        NewPropagator(propagatorNodes[k], MergeFields(BuiltVertices(vertexNodes, model)), model) == Failure(r.error) &&
        forall j :: 0 <= j < k ==>
          NewPropagator(propagatorNodes[j], MergeFields(BuiltVertices(vertexNodes, model)), model).Success?
  {
    var _ :- NewFields(legs, model.particles);
    var vs :- MapResult(vertexNodes, node => NewVertex(node, model));
    assert vs == BuiltVertices(vertexNodes, model);
    var fields := MergeFields(vs);
    var ps :- MapResult(propagatorNodes, node => NewPropagator(node, fields, model));
    Success(Diagram(id, |legs|, vs, fields, ps))
  }

  /** Every vertex and propagator of `d` has its rule in the model's registries. */
  predicate Registered(d: Diagram, model: Model)
  {
    (forall i :: 0 <= i < |d.vertices| ==> d.vertices[i].interaction in model.interactions) &&
    (forall i :: 0 <= i < |d.propagators| ==> d.propagators[i].propagator in model.propagators)
  }

  /** The merged map of a built diagram keeps the field of the last vertex with each
      id. */
  lemma NewDiagramFields(id: string, legs: seq<FieldRecord>, vertexNodes: seq<VertexNode>,
                         propagatorNodes: seq<PropagatorNode>, model: Model, k: string)
    requires NewDiagram(id, legs, vertexNodes, propagatorNodes, model).Success?
    ensures var d := NewDiagram(id, legs, vertexNodes, propagatorNodes, model).value;
      Get(d.fields, k) == LastVertexField(d.vertices, k)
  {
    var d := NewDiagram(id, legs, vertexNodes, propagatorNodes, model).value;
    forall i | 0 <= i < |d.vertices|
      ensures Distinct(Keys(d.vertices[i].fields))
    {
      assert NewVertex(vertexNodes[i], model) == Success(d.vertices[i]);
    }
    MergeFieldsGet(d.vertices, k);
  }

  /** The expressions of the vertices, in vertex order. */
  function VertexExpressions(d: Diagram, model: Model): Result<seq<string>>
    requires Registered(d, model)
  {
    MapResult(d.vertices, (v: DiagramVertex) requires v.interaction in model.interactions => VertexExpression(v, model))
  }

  /** The expressions of the propagators, in propagator order. */
  function PropagatorExpressions(d: Diagram, model: Model): Result<seq<string>>
    requires Registered(d, model)
  {
    MapResult(d.propagators, (p: DiagramPropagator) requires p.propagator in model.propagators => PropagatorExpression(p, model))
  }

  /** `Diagram.generate_expression()`: the product of the vertex expressions followed
      by the propagator expressions. */
  function DiagramExpression(d: Diagram, model: Model): (r: Result<string>)
    requires Registered(d, model)
    ensures r.Success? <==> VertexExpressions(d, model).Success? && PropagatorExpressions(d, model).Success?
  {
    var vertices :- VertexExpressions(d, model);
    var propagators :- PropagatorExpressions(d, model);
    Success(Times(vertices + propagators))
  }

  /** The expression reads back, factor by factor, as the vertex expressions in order
      followed by the propagator expressions in order, when each one is balanced. */
  lemma DiagramExpressionFactors(d: Diagram, model: Model)
    requires Registered(d, model)
    requires DiagramExpression(d, model).Success?
    requires |d.vertices| + |d.propagators| > 0
    requires forall i :: 0 <= i < |d.vertices| ==> Balanced(VertexExpression(d.vertices[i], model).value)
    requires forall i :: 0 <= i < |d.propagators| ==> Balanced(PropagatorExpression(d.propagators[i], model).value)
    ensures var factors := TopLevel(DiagramExpression(d, model).value, '*');
      |factors| == |d.vertices| + |d.propagators| &&
      (forall i :: 0 <= i < |d.vertices| ==>
        factors[i] == "(" + VertexExpression(d.vertices[i], model).value + ")") &&
      (forall i :: 0 <= i < |d.propagators| ==>
        factors[|d.vertices| + i] == "(" + PropagatorExpression(d.propagators[i], model).value + ")")
  {
    var vs := VertexExpressions(d, model).value;
    var ps := PropagatorExpressions(d, model).value;
    var all := vs + ps;
    forall k | 0 <= k < |all|
      ensures Balanced(all[k])
    {
      if k < |vs| {
        assert all[k] == VertexExpression(d.vertices[k], model).value;
      } else {
        assert all[k] == PropagatorExpression(d.propagators[k - |vs|], model).value;
      }
    }
    TimesFactors(all);
  }

  /** How the diagram's expression fails, as written: the first vertex whose rule
      raises a ValueError or KeyError makes it a NameError about `line`, while once
      the vertices succeed, the first failing propagator rule's error comes out
      unchanged. */
  lemma DiagramExpressionErrors(d: Diagram, model: Model, k: nat)
    requires Registered(d, model)
    ensures (k < |d.vertices| && VertexExpressionCorrected(d.vertices[k], model).Failure? &&
             (VertexExpressionCorrected(d.vertices[k], model).error.ValueError? ||
              VertexExpressionCorrected(d.vertices[k], model).error.KeyError?) &&
             (forall j :: 0 <= j < k ==> VertexExpressionCorrected(d.vertices[j], model).Success?)) ==>
      DiagramExpression(d, model) == Failure(NameError("line"))
    ensures ((forall i :: 0 <= i < |d.vertices| ==> VertexExpressionCorrected(d.vertices[i], model).Success?) &&
             k < |d.propagators| && PropagatorExpression(d.propagators[k], model).Failure? &&
             (forall j :: 0 <= j < k ==> PropagatorExpression(d.propagators[j], model).Success?)) ==>
      DiagramExpression(d, model) == Failure(PropagatorExpression(d.propagators[k], model).error)
  {
    var fv := (v: DiagramVertex) requires v.interaction in model.interactions => VertexExpression(v, model);
    var fp := (p: DiagramPropagator) requires p.propagator in model.propagators => PropagatorExpression(p, model);
    if k < |d.vertices| && VertexExpressionCorrected(d.vertices[k], model).Failure? &&
      (VertexExpressionCorrected(d.vertices[k], model).error.ValueError? ||
       VertexExpressionCorrected(d.vertices[k], model).error.KeyError?) &&
      (forall j :: 0 <= j < k ==> VertexExpressionCorrected(d.vertices[j], model).Success?)
    {
      MapResultFirstFailure(d.vertices, fv, k);
    }
    if (forall i :: 0 <= i < |d.vertices| ==> VertexExpressionCorrected(d.vertices[i], model).Success?) &&
      k < |d.propagators| && PropagatorExpression(d.propagators[k], model).Failure? &&
      (forall j :: 0 <= j < k ==> PropagatorExpression(d.propagators[j], model).Success?)
    {
      MapResultFirstFailure(d.propagators, fp, k);
    }
  }
}
