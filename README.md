# qgraf_parser in Dafny

qgraf_parser reads the Feynman diagrams that QGRAF produces and writes each one as a
FORM expression: a product of vertex rules and propagator rules built as strings.
This project models the string-building core of that program and proves what its
pieces promise.

The model covers:

- **The string-algebra helpers.** Parenthesising, products `(a)*(b)`, sums, splitting
  a momentum sum into signed components (`pparse`), and attaching Lorentz indices to
  a tensor combination.
- **The rule builders.** The standard denominator and the scalar, fermionic and quark
  propagators; the GHT model's top-Higgs vertex and top propagator; the phi^3
  vertex and propagator.
- **The model containers.** `Parameter` and `Particle` records and the lists
  `ParameterList` and `ParticleList`, which are meant to hold entries of their own
  type with distinct names. As written, construction stores its arguments
  unchecked. Only `Append` refuses an entry of another type or a name already
  present, so it keeps a well-formed list well-formed.
- **The diagram objects.** Field ids with the `ext` prefix for external legs, the
  vertex record check, per-vertex field maps, field access, propagator endpoint
  checks, the diagram-wide field merge, and the diagram expression as an ordered
  product.
- **The legacy fermion-line converter** (`vertex.py`, `line.py`, `qgrafparser.py`).
  The id rewrite, the FORM text written for each vertex type, the fermion propagator
  written after each vertex, the `Line` class with its splice and `open` flag,
  grouping fermion vertices into lines, walking each line, the propagator factors,
  and one `Tracen` per line. Every file write becomes an append to an output string.
- **The process-string parser** (`p1 p2 > q1 q2 @ l`) of the two `qgraf_setup.py`
  copies, with the `format_dict` assembly and `valid_particle_list`.

Files and modules:

- `base.dfy` (`Base`): Option, Result and Outcome, and the Python exception kinds.
- `text.dfy` (`Text`): join, split, replace and decimal integers (`int()`, `str()`).
- `collections.dfy` (`Collections`): association lists standing for Python dicts.
- One file per core source file: `algebra_tools.dfy`, `abstract_objects.dfy`,
  `standard_propagators.dfy`, `ght_rules.dfy`, `phi3_rules.dfy`,
  `diagram_elements.dfy`, `legacy_vertex.dfy`, `legacy_line.dfy`,
  `legacy_parser.dfy`, `qgraf_setup.dfy`.

How loops are modelled:

- Loops that build a value step by step are methods with `while` or `for` loops.
  Each is proved equal to a specification function, and the properties are proved
  about that function: `PParse`, `AttachIndices`, `BuildVertexFields`,
  `MergeVertexFields`, `RewriteFields`, `Output`, `WriteNextProp`,
  `GroupVertices`, `WalkLineLoop`, `WriteOthers`, `WritePropagators`,
  `WriteTraces` and `ConvertDiagram`.
- Python exceptions become `Failure` values that carry the exception kind.

Where the code and its documentation disagree, the model follows the code:

- `Diagram.__init__` does not reject two vertices that share a field id. A later
  vertex simply overrides an earlier one in the merge.
- `ParameterList(...)` and `ParticleList(...)` store their arguments unchecked, and
  a ValueError or KeyError of a vertex rule becomes a NameError (see Findings).
- `generate_qgraf_data` raises unless `optional_statements` is exactly the empty
  tuple. An empty list raises too.

## Model

| member | source | states |
|---|---|---|
| AlgebraTools.Parwrap | models/common_tools/algebra_tools.py:5-10 | the result has the length of the input, and element k is `(` + args[k] + `)` |
| AlgebraTools.TimesShapes | models/common_tools/algebra_tools.py:12-18 | a product of no factor is empty; one factor gets no `*`; two and three factors are `(a)*(b)` and `(a)*(b)*(c)` |
| AlgebraTools.PlusShapes | models/common_tools/algebra_tools.py:20-26 | a sum has the same shape as a product, with `+` as separator |
| AlgebraTools.TimesAppend | models/common_tools/algebra_tools.py:12-18 | the product of two non-empty lists is their two products joined by `*` |
| AlgebraTools.TimesFactors | models/common_tools/algebra_tools.py:12-18 | splitting a product of balanced factors at its top-level `*` gives back exactly the parenthesised factors |
| AlgebraTools.PlusTerms | models/common_tools/algebra_tools.py:20-26 | splitting a sum of balanced terms at its top-level `+` gives back exactly the parenthesised terms |
| AlgebraTools.TimesBalanced | models/common_tools/algebra_tools.py:12-18 | a product of balanced factors is balanced |
| AlgebraTools.Minus | models/common_tools/algebra_tools.py:28-34 | as written, `minus` always fails with a TypeError, because it adds a str to a list |
| AlgebraTools.MinusCorrectedBalanced | models/common_tools/algebra_tools.py:28-34 | the documented `-(x)` is balanced for balanced x, and starts with `-(` and ends with `)` |
| AlgebraTools.PParse | models/common_tools/algebra_tools.py:36-48 | the loop computes the specification: every component gets a comma after it, then the text is split at the commas and the empty pieces are dropped |
| AlgebraTools.PParseSpec | models/common_tools/algebra_tools.py:44-48 | no component is empty |
| AlgebraTools.PParseConcat | models/common_tools/algebra_tools.py:44-48 | the components glued back together give p with its commas deleted; for a p without commas they give exactly p |
| AlgebraTools.PParseIsTerms | models/common_tools/algebra_tools.py:44-48 | for p without commas and with no component inside another, pparse equals an independent sign splitter; the components give back p, and every component after the first starts with `+` or `-` |
| AlgebraTools.TermsProperties | models/common_tools/algebra_tools.py:36-48 | the reference splitter loses nothing: it gives back its input, its pieces are non-empty signed runs, and all but the first start with a sign |
| AlgebraTools.TermsOfConcat | models/common_tools/algebra_tools.py:36-48 | the reference splitter undoes concatenation of signed runs |
| AlgebraTools.PParseThreeTerms | models/common_tools/algebra_tools.py:37-38 | the docstring example in general form: `s1 x s2 y s3 z` splits into `s1 x`, `s2 y` and `s3 z` |
| AlgebraTools.PParseTwoTerms | models/common_tools/algebra_tools.py:36-48 | `x s y` splits into `x` and `s y` |
| AlgebraTools.AttachIndices | models/common_tools/algebra_tools.py:50-65 | the loop computes the specification: `"0"` comes back unchanged; otherwise only the first component is rewritten; with no component the result is None |
| AlgebraTools.AttachIndicesNone | models/common_tools/algebra_tools.py:50-65 | the result is None exactly when the text is not `"0"` and holds nothing but commas |
| AlgebraTools.AttachIndicesFirstTermOnly | models/common_tools/algebra_tools.py:60-63 | on `x+y`, as written, only `x` gets the index list, and this differs from the documented result |
| AlgebraTools.AttachTwoAsWritten | models/common_tools/algebra_tools.py:60-63 | as written, `x+y` becomes `x(i..)+y` |
| AlgebraTools.AttachTwoCorrected | models/common_tools/algebra_tools.py:50-58 | as documented, `x+y` becomes `x(i..)+y(i..)` |
| AlgebraTools.AttachIndicesCorrectedEveryTerm | models/common_tools/algebra_tools.py:50-58 | as documented, every signed term of the input appears in the result followed by the index list, one term per input term |
| AlgebraTools.TermsSuffixed | models/common_tools/algebra_tools.py:50-58 | suffixing every term with a sign-free index list keeps the term structure |
| AbstractObjects.NewParameter | models/common_tools/abstract_objects.py:23-49 | construction succeeds exactly when the conjugate is absent or a str, and raises AssertionError otherwise; the name defaults to the value's text, and the conjugate defaults to it too |
| AbstractObjects.DefaultParameterIsReal | models/common_tools/abstract_objects.py:38-48 | a parameter given only its value is named after it, is its own conjugate (real) and has no info |
| AbstractObjects.Zero | models/common_tools/abstract_objects.py:194 | `zero` is the parameter built from `"zero"` |
| AbstractObjects.NewParticle | models/common_tools/abstract_objects.py:123-140 | the particle keeps its name, mass, spin and extra attributes |
| AbstractObjects.ParticleSpinDefault | models/common_tools/abstract_objects.py:132-134 | spin defaults to 0, with no extra attribute |
| AbstractObjects.NamesOf | models/common_tools/abstract_objects.py:93 | collecting the names succeeds exactly when every element has one, and then gives each element's name in order; otherwise AttributeError |
| AbstractObjects.ListCheck | models/common_tools/abstract_objects.py:75-84 | the checks construction is written to make succeed exactly when every element is an entry of the list's type and the names are distinct; the type failure comes first |
| AbstractObjects.WellFormedSnoc | models/common_tools/abstract_objects.py:86-96 | appending an entry with a new name keeps a well-formed list well-formed |
| AbstractObjects.ParameterList.constructor | models/common_tools/abstract_objects.py:74-85 | as written, construction always succeeds and the list holds its arguments unchecked |
| AbstractObjects.ParameterList.CreateChecked | models/common_tools/abstract_objects.py:75-85 | the checking loop agrees with ListCheck; on success the fresh list holds exactly the arguments and is well-formed |
| AbstractObjects.ParameterList.Append | models/common_tools/abstract_objects.py:86-96 | a non-Parameter is refused with AssertionError; an element without a name raises AttributeError; an existing name is refused with AssertionError; a refusal leaves the list unchanged, otherwise the entry goes at the end; a well-formed list stays well-formed |
| AbstractObjects.ParameterList.GetAttr | models/common_tools/abstract_objects.py:97-104 | an empty list yields None; the first element is returned when it bears the name; a nameless first element raises AttributeError; any other name raises TypeError (from the `% f` format) |
| AbstractObjects.ParticleList.constructor | models/common_tools/abstract_objects.py:153-164 | as written, construction always succeeds and the list holds its arguments unchecked |
| AbstractObjects.ParticleList.CreateChecked | models/common_tools/abstract_objects.py:154-164 | the checking loop agrees with ListCheck; on success the fresh list holds exactly the arguments and is well-formed |
| AbstractObjects.ParticleList.Append | models/common_tools/abstract_objects.py:165-175 | as for ParameterList: type check, then names, then the duplicate check; a refusal leaves the list unchanged; a well-formed list stays well-formed |
| AbstractObjects.ParticleList.GetAttr | models/common_tools/abstract_objects.py:176-183 | an empty list yields None; the first element is returned when it bears the name; a nameless first element raises AttributeError; any other name raises TypeError |
| AbstractObjects.ConstructionUnchecked | models/common_tools/abstract_objects.py:74-85 | as written, two Parameters with one name, a non-Parameter, or two Particles with one name, make a list that is not well-formed, while the intended checks refuse each |
| AbstractObjects.AppendTwiceRefused | models/common_tools/abstract_objects.py:86-96 | on a well-formed list, appending a new name succeeds, a second entry with the same name is refused, and the list gains only the first entry and stays well-formed |
| AbstractObjects.FirstEntryLookupOutcome | models/common_tools/abstract_objects.py:101-104 | as written, the lookup succeeds only on an empty list or for the first element's name; a failure is AttributeError exactly when that element has no name, and TypeError otherwise |
| AbstractObjects.FirstEntryLookupMissesSecond | models/common_tools/abstract_objects.py:101-104 | as written, the second element of a list with distinct names is never found, although a search by name finds it |
| AbstractObjects.NameLookup | models/common_tools/abstract_objects.py:97-100 | the documented lookup succeeds exactly when the name is present, returns the first entry with it, and otherwise raises AttributeError naming it |
| AbstractObjects.NameLookupFinds | models/common_tools/abstract_objects.py:97-100 | with distinct names, the documented lookup finds every entry by its own name |
| StandardPropagators.DenominatorBalanced | models/common_tools/standard_propagators.py:5-17 | `Den(p,m)` is balanced for balanced p and m |
| StandardPropagators.DenominatorReadBack | models/common_tools/standard_propagators.py:17 | the momentum and the mass can be read back from `Den(p,m)` when p has no comma |
| StandardPropagators.ScalarPropagatorText | models/common_tools/standard_propagators.py:19-31 | the scalar propagator is exactly `(i_)*(Den(p,m))` |
| StandardPropagators.ScalarPropagatorFactors | models/common_tools/standard_propagators.py:31 | the scalar propagator is a two-factor product, `i_` then the denominator |
| StandardPropagators.NumeratorBalanced | models/common_tools/standard_propagators.py:47 | the fermion numerator is balanced for balanced arguments |
| StandardPropagators.FermionicBalanced | models/common_tools/standard_propagators.py:33-49 | the fermionic propagator is balanced for balanced arguments |
| StandardPropagators.ColourDeltaBalanced | models/common_tools/standard_propagators.py:65 | the colour delta `d_(i{from},i{to})` is balanced for balanced ids |
| StandardPropagators.FermionicPropagatorFactors | models/common_tools/standard_propagators.py:48 | the fermionic propagator is the three-factor product of `i_`, the numerator and `Den(p,m)` |
| StandardPropagators.NumeratorOrientation | models/common_tools/standard_propagators.py:47 | swapping from and to changes the numerator exactly when they differ, so from sits in the first `x` slot and to in the second |
| StandardPropagators.FermionicOrientation | models/common_tools/standard_propagators.py:33-49 | swapping from and to changes the fermionic propagator exactly when they differ |
| StandardPropagators.FermionicMomentumSlot | models/common_tools/standard_propagators.py:47-48 | the momentum sits in the first gamma term and the mass in the numerator and in `Den` |
| StandardPropagators.FermionicMomentumReadBack | models/common_tools/standard_propagators.py:33-49 | two fermionic propagators that are equal have the same momentum |
| StandardPropagators.QuarkPropagatorFactors | models/common_tools/standard_propagators.py:51-65 | the quark propagator is the two-factor product of the fermionic propagator and the colour delta |
| StandardPropagators.QuarkOrientation | models/common_tools/standard_propagators.py:65 | swapping from and to changes the quark propagator exactly when they differ; the colour delta keeps the fermionic order |
| StandardPropagators.QuarkMomentumReadBack | models/common_tools/standard_propagators.py:51-65 | two quark propagators with the same ids that are equal have the same momentum |
| GhtRules.FirstField | models/GHT/feynman_rules.py:38-39 | `mapper[name][0]`: KeyError when the name is absent, IndexError when its list is empty, and otherwise the first field |
| GhtRules.TxtH | models/GHT/feynman_rules.py:25-43 | the rule succeeds exactly when both lookups succeed; a failed lookup's error propagates, `tbar` first |
| GhtRules.TxtHReadsFirstFields | models/GHT/feynman_rules.py:38-39 | two mappers with the same first `tbar` and first `t` fields give the same rule |
| GhtRules.TxtHFactors | models/GHT/feynman_rules.py:40-43 | the rule is the three-factor product of `(-i_)*Y`, the colour delta and the Dirac delta, both deltas listing the tbar id first |
| GhtRules.TxtHOrientation | models/GHT/feynman_rules.py:41-42 | exchanging the tbar and t fields changes the rule exactly when their ids differ |
| GhtRules.YukawaBalanced | models/GHT/feynman_rules.py:40 | the prefactor `(-i_)*Y` is balanced |
| GhtRules.DeltaBalanced | models/GHT/feynman_rules.py:41-42 | a delta `d_(h{a},h{b})` of balanced ids is balanced |
| GhtRules.TopPropAsWritten | models/GHT/feynman_rules.py:65-78 | as written, the rule always fails: a lookup's KeyError or IndexError, or else AttributeError `mass`, since a field has no `mass` attribute |
| GhtRules.TopPropSwapVisible | models/GHT/feynman_rules.py:78 | swapping the momentum and mass arguments of the quark propagator changes its text whenever they differ |
| GhtRules.TopPropCorrected | models/GHT/feynman_rules.py:65-78 | with the particle's mass and the field's momentum in their own slots, the rule succeeds exactly when both lookups do and is the quark propagator from the t id to the tbar id |
| GhtRules.TopPropCorrectedOrientation | models/GHT/feynman_rules.py:78 | exchanging the t and tbar fields changes the corrected rule exactly when their ids differ |
| Phi3Rules.Phi3 | models/phi3/feynman_rules.py:10-11 | the vertex rule is `"1"` whatever its argument |
| Phi3Rules.PhiPropIgnoresTo | models/phi3/feynman_rules.py:13-24 | changing `to_field` never changes the propagator |
| Phi3Rules.PhiPropText | models/phi3/feynman_rules.py:24 | the propagator is `(i_)*(Den(p,m))`, with m the mass of the from field's particle |
| Phi3Rules.PhiPropReadBack | models/phi3/feynman_rules.py:24 | the momentum and that mass can be read back from the propagator |
| DiagramElements.FieldId | diagram_elements.py:34-37 | the id starts with `ext` exactly when n < 0; otherwise it is a digit string |
| DiagramElements.FieldIdInjective | diagram_elements.py:34-37 | distinct integers get distinct ids |
| DiagramElements.FieldIdReadBack | diagram_elements.py:34-37 | the integer can be read back from its id |
| DiagramElements.NormaliseId | diagram_elements.py:34-37 | an integer text is normalised to its id; any other text raises ValueError |
| DiagramElements.NewField | diagram_elements.py:24-38 | a field is built exactly when its id is an integer and its name is a model particle; otherwise ValueError or KeyError of the name |
| DiagramElements.ParseVertexRecord | diagram_elements.py:163-171 | parsing succeeds exactly when the types, fields and momenta lists have equal lengths, and then yields their triples in order; otherwise AssertionError |
| DiagramElements.VertexRecordRoundTrip | diagram_elements.py:163-171 | joining the parsed triples' columns gives back the three record texts |
| DiagramElements.BuildVertexFields | diagram_elements.py:211-214 | the loop builds the field map keyed by normalised id, or the first error |
| DiagramElements.VertexFieldsLastWins | diagram_elements.py:211-214 | when two triples share an id, the later one's field is in the map |
| DiagramElements.VertexFieldsShape | diagram_elements.py:211-214 | the map's keys are distinct, they are the ids of the triples, and the map is no larger than the record |
| DiagramElements.NewVertex | diagram_elements.py:195-215 | a vertex is built exactly when the record parses, its fields build and the field names are a registered interaction |
| DiagramElements.VertexExpression | diagram_elements.py:217-234 | as written, it succeeds exactly when the interaction's rule does, with the rule's expression; it never raises ValueError or KeyError, and any other error is the rule's |
| DiagramElements.VertexHandlerMasksError | diagram_elements.py:228-234 | the handler as written differs from re-raising exactly when the rule raises ValueError or KeyError, and then raises NameError `line` |
| DiagramElements.AccessFieldById | diagram_elements.py:236-266 | only a key that is neither int nor str raises TypeError; a str key is looked up; an int key is normalised but never used, so it yields None |
| DiagramElements.IntKeyMissesField | diagram_elements.py:250-266 | as written, an int key whose id is in the map still yields None, while the corrected lookup finds the field |
| DiagramElements.AccessFieldByIdCorrected | diagram_elements.py:236-266 | the corrected access looks up an int key under its normalised id, and fails on the same keys |
| DiagramElements.Contains | diagram_elements.py:268-269 | TypeError exactly for a key neither int nor str; an int key is never contained; a str key is contained exactly when it is a field id |
| DiagramElements.GetItem | diagram_elements.py:271-277 | TypeError for a key neither int nor str; KeyError for every int key; a str key gives the field stored under it, or KeyError when absent |
| DiagramElements.ContainsIffGetItem | diagram_elements.py:268-277 | `in` holds exactly when `[]` succeeds, is false exactly when `[]` raises KeyError, and both raise TypeError on other keys |
| DiagramElements.SetItem | diagram_elements.py:279-282 | assignment always raises NotImplementedError |
| DiagramElements.NewPropagator | diagram_elements.py:330-363 | KeyError for a from or to index missing from the field map; failure when a found field's name differs from the declared type or the rule is not registered; otherwise it links the two found fields |
| DiagramElements.PropagatorExpression | diagram_elements.py:366-383 | the outcome is the propagator rule's on the from and to fields and the momentum: its expression, or its error unchanged |
| DiagramElements.MergeVertexFields | diagram_elements.py:447-449 | the loop computes the merge of the vertex field maps |
| DiagramElements.MergeFieldsGet | diagram_elements.py:447-449 | the merged map holds, for each id, the field of the last vertex that has it |
| DiagramElements.MergeFieldsKeys | diagram_elements.py:447-449 | the merged keys are the union of the vertices' keys |
| DiagramElements.NewDiagram | diagram_elements.py:429-451 | a diagram is built exactly when the legs, every vertex and every propagator (on the merged field map) build; it keeps the id, counts the legs, holds the vertices and propagators in record order and registers their rules; otherwise the error is the legs', else the first failing vertex's, else the first failing propagator's |
| DiagramElements.NewDiagramFields | diagram_elements.py:447-449 | a built diagram's field map holds the last vertex's field for each id, with no duplicate check |
| DiagramElements.DiagramExpression | diagram_elements.py:453-456 | the expression succeeds exactly when every vertex and propagator expression does |
| DiagramElements.DiagramExpressionErrors | diagram_elements.py:453-456 | the first vertex whose rule raises ValueError or KeyError makes the diagram's expression a NameError; with all vertices succeeding, the first failing propagator rule's error comes out unchanged |
| DiagramElements.DiagramExpressionFactors | diagram_elements.py:453-456 | its top-level factors are the vertex expressions in vertex order followed by the propagator expressions in order |
| LegacyVertex.RewriteId | vertex.py:21-23 | a text changes exactly when it is a negative integer -n, and then becomes `ext` + n |
| LegacyVertex.IntegerPrefix | vertex.py:21-25 | the rewrite reaches exactly the leading integer texts; the first non-integer ends it |
| LegacyVertex.NewVertex | vertex.py:15-25 | the vertex holds the split momenta and types, the type text, and the rewritten fields |
| LegacyVertex.RewriteFields | vertex.py:21-25 | the loop rewrites the fields as RewriteIds does |
| LegacyVertex.RewriteIdsStop | vertex.py:24-25 | every field from the first non-integer on is left verbatim |
| LegacyVertex.RewriteIdOfInt | vertex.py:21-23 | on an integer's text the rewrite agrees with the field id of diagram_elements |
| LegacyVertex.RewriteIdsAgree | vertex.py:21-23 | on integer texts the whole rewrite is the field id of each integer |
| LegacyVertex.Output | vertex.py:37-79 | the method writes OutputText: the fixed text of each known type, an IndexError when a record is too short, and nothing for an unknown type |
| LegacyVertex.OutputEmptyIffUnknown | vertex.py:77-79 | nothing is written exactly when the type is unknown |
| LegacyVertex.YukawaColourDelta | vertex.py:40-41 | the `tbar,t,H` vertex is `i_*Y*` followed by the colour delta that the GHT rule uses |
| LegacyVertex.GggOutput | vertex.py:46-66 | the loop writes the triple-gluon text, or IndexError on a short record |
| LegacyVertex.GggTermOutput | vertex.py:48-65 | the loop body writes term i of the triple-gluon vertex |
| LegacyVertex.GggTermsRotate | vertex.py:48-65 | rotating the legs of the vertex moves term i to term i+1 mod 3 |
| LegacyVertex.AttachLegIndex | vertex.py:53-63 | the loop attaches the third leg's index to every component of a momentum |
| LegacyVertex.LegMomentumZero | vertex.py:58-63 | the momentum `"0"` gets no index |
| LegacyVertex.GuardedNonZero | vertex.py:58-63 | a momentum other than `"0"` gets the index at every component and never becomes `"0"` |
| LegacyVertex.LegMomentumName | vertex.py:58-63 | a single momentum name is followed by the index |
| LegacyVertex.WriteNextProp | vertex.py:26-34 | the method writes NextPropText: nothing when the second leg is not a fermion, IndexError for a missing leg, ValueError when the first field is not an integer |
| LegacyVertex.NextPropSlashesEveryTerm | vertex.py:30-34 | one `g_(line,p)+` per component of the first momentum, then `mt)*D(p,mt)*d_(col{f0},col{f0-1})` |
| LegacyVertex.NextPropTailIndex | vertex.py:34 | the second colour index is the decimal of f0 - 1 |
| LegacyVertex.SlashTerms | vertex.py:30-32 | one slashed term per component, in order |
| LegacyLine.Connectors | line.py:13 | next is fields[1] + 1 and prev is fields[0] - 1, as decimal texts; a non-integer field raises ValueError |
| LegacyLine.FirstNeighbour | line.py:21-30 | the first vertex of the line whose fields[0] is next or whose fields[1] is prev; None when there is none |
| LegacyLine.InsertionPoint | line.py:21-32 | before the first neighbour when its fields[0] is next, after it otherwise, at the end when there is none |
| LegacyLine.SpliceKeepsOrder | line.py:21-32 | the splice adds exactly one copy of v and keeps the other vertices in their order |
| LegacyLine.AddOne | line.py:12-32 | adding succeeds exactly when the connectors can be computed, and the line grows by one |
| LegacyLine.AddAll | line.py:44-50 | adding several vertices grows the line by their number |
| LegacyLine.AddAllMultiset | line.py:44-50 | the new line holds the old vertices and the added ones, each once |
| LegacyLine.AddAllPrefixFails | line.py:44-50 | the first vertex that cannot be added decides the failure |
| LegacyLine.Line.constructor | line.py:5-7 | a new line has no vertex and is not open |
| LegacyLine.Line.AddItem | line.py:12-36 | on success the vertices are AddOne's result and the line becomes open, never closed, when v has a field with a letter; on failure nothing changes |
| LegacyLine.Line.MarkOpen | line.py:33-36 | open becomes old open or "v has an external field"; the vertices are unchanged |
| LegacyLine.Line.Add | line.py:44-50 | a fresh line holding this line's vertices with line2's added in turn, open when either is; this line is left as it was |
| LegacyParser.ConnectorSet | qgrafparser.py:59 | the set `{f0-1, f1+1}` as decimal texts; a non-integer field raises ValueError |
| LegacyParser.MatchingTouches | qgrafparser.py:62-67 | the matched lines are exactly those with a vertex field in the connector set, each recorded once, and the rest are untouched |
| LegacyParser.NoMatchAppends | qgrafparser.py:81-83 | with no match, the existing lines are kept as they are |
| LegacyParser.MergeAddsOne | qgrafparser.py:68-80 | a merge adds exactly the new vertex to the lines |
| LegacyParser.GroupStepAddsOne | qgrafparser.py:51-85 | a step adds the vertex to the lines when it is a fermion vertex, and to the non-fermion list otherwise |
| LegacyParser.GroupVertices | qgrafparser.py:51-85 | the grouping loop computes Group over all vertices |
| LegacyParser.GroupOne | qgrafparser.py:52-85 | the loop body computes one grouping step |
| LegacyParser.MergeLines | qgrafparser.py:62-80 | the matching and merge loop computes Merge |
| LegacyParser.LineTouches | qgrafparser.py:63-67 | the scan of one line decides whether any vertex meets the set |
| LegacyParser.MeetsSet | qgrafparser.py:64 | the intersection test of one vertex |
| LegacyParser.GroupPartition | qgrafparser.py:51-85 | the lines hold exactly the fermion vertices seen, and the non-fermion list holds the other vertices in input order |
| LegacyParser.EveryFermionOnce | qgrafparser.py:51-85 | every fermion vertex lies on exactly one line, once; the lines' total length is the number of fermion vertices |
| LegacyParser.Linked | qgrafparser.py:108 | vv follows v exactly when `int(vv.fields[1]) + 1 == int(v.fields[0])`; a non-integer field raises ValueError |
| LegacyParser.FindSuccessor | qgrafparser.py:107-111 | the scan finds the first remaining linked vertex, or none |
| LegacyParser.FindFrom | qgrafparser.py:107-111 | the found vertex is linked and no earlier one is; the error is that of a vertex's fields |
| LegacyParser.WalkLine | qgrafparser.py:95-111 | a walk of a non-empty line visits as many vertices as the line holds, starting at its first vertex |
| LegacyParser.WalkLineLoop | qgrafparser.py:89-111 | the while loop computes WalkLine |
| LegacyParser.WalkFollowsLinks | qgrafparser.py:100-111 | each visited vertex is linked to the one before it, or repeats it |
| LegacyParser.RepeatWithoutSuccessor | qgrafparser.py:107-111 | when no successor exists, the current vertex is visited again |
| LegacyParser.WalkVisitsLine | qgrafparser.py:96-111 | a walk without repeats visits each vertex of the line exactly once |
| LegacyParser.WalkEmitsVisited | qgrafparser.py:101-105 | each step writes `*`, the vertex output, `*`, and its next propagator, for the visited vertex |
| LegacyParser.WalkLineEmits | qgrafparser.py:101-105 | the walk of a line writes the outputs of exactly the visited vertices, tagged with the line number |
| LegacyParser.WalkAll | qgrafparser.py:89-111 | the loop over all lines computes WalkLines, numbering the lines from 1 |
| LegacyParser.WalkLinesPrefixFails | qgrafparser.py:89-111 | the first line that fails decides the failure |
| LegacyParser.Outputs | qgrafparser.py:113-115 | each non-fermion vertex is written with the default line 1 |
| LegacyParser.Starred | qgrafparser.py:113-115 | every non-fermion output is written, each preceded by `*` |
| LegacyParser.WriteOthers | qgrafparser.py:113-115 | the loop writes Starred of the outputs |
| LegacyParser.PropagatorFactor | qgrafparser.py:119-125 | a gluon with id n writes `*(-i_)*D(p,0)*d_(mu{2n},mu{2n-1})*d_(b{2n},b{2n-1})`, a Higgs writes `*i_*D(p,mH)`, any other field nothing; a non-integer gluon id raises ValueError |
| LegacyParser.GluonIdReadBack | qgrafparser.py:121-123 | two gluon factors with the same momentum are equal only for the same id |
| LegacyParser.GluonFactorInjective | qgrafparser.py:122-123 | the index pair `2n, 2n-1` determines n |
| LegacyParser.PropagatorsFailure | qgrafparser.py:119-125 | writing the propagators fails exactly when some gluon id is not an integer |
| LegacyParser.PropagatorsSkipOthers | qgrafparser.py:119-125 | a propagator that is neither gluon nor Higgs adds nothing |
| LegacyParser.WritePropagators | qgrafparser.py:119-125 | the loop writes PropagatorsText |
| LegacyParser.TraceStatements | qgrafparser.py:131-132 | one `Tracen,i;` per line, i running from 1 |
| LegacyParser.TracesCount | qgrafparser.py:131-132 | the trace text splits into exactly n statements, the i-th being `Tracen,i;` |
| LegacyParser.WriteTraces | qgrafparser.py:131-132 | the loop writes the trace text |
| LegacyParser.ConvertTraces | qgrafparser.py:51-132 | a converted diagram has one `Tracen` statement per fermion line |
| LegacyParser.ConvertDiagram | qgrafparser.py:46-132 | the whole conversion: prefactor, line walks, non-fermion outputs, propagators and `);`, together with the traces |
| QgrafSetup.ParseProcessString | generator/qgraf_setup.py:90-137 | a string that does not match the pattern raises AssertionError; otherwise the loop count is 0 without `@` and `int` of the stripped tail with it |
| QgrafSetup.AcceptedParses | generator/qgraf_setup.py:105-131 | every string the pattern accepts parses without error |
| QgrafSetup.PatternLimitsLoops | generator/qgraf_setup.py:117-131 | an accepted string has one or two `@` pieces, so the IOError branch is unreachable |
| QgrafSetup.ParsedNames | generator/qgraf_setup.py:133-137 | every incoming and outgoing token is a non-empty alphanumeric name |
| QgrafSetup.ParsedSides | generator/qgraf_setup.py:133-137 | incoming and outgoing are the whitespace-split tokens on either side of `>` |
| QgrafSetup.ParseWithoutLoops | generator/qgraf_setup.py:117-119 | `a>b` parses as the words of a and b with 0 loops |
| QgrafSetup.ParseWithLoops | generator/qgraf_setup.py:120-121 | `a>b@d` parses with the loop count the value of d |
| QgrafSetup.ParseProcessText | generator/qgraf_setup.py:90-137 | the text written from names and an optional loop count parses back to them, with 0 loops when none is written |
| QgrafSetup.WordsJoin | generator/qgraf_setup.py:136-137 | splitting names joined by spaces gives them back |
| QgrafSetup.GeneratorFormatDict | generator/qgraf_setup.py:68-83 | NotImplementedError exactly when optional statements are not the empty tuple; otherwise the style and model files are base names, the lists are joined and optional statements are empty |
| QgrafSetup.GenerateFormatDict | generate/qgraf_setup.py:63-78 | the same checks, with the located style and model files; a failed lookup's error propagates |
| QgrafSetup.FormatDictsAgree | generate/qgraf_setup.py:69-78 | the two copies fill in the same values but for the style and model files |
| QgrafSetup.BasenameOfPath | generator/qgraf_setup.py:76-77 | the base name of `dir/name` is name |
| QgrafSetup.ParticleListReadBack | generator/qgraf_setup.py:78-79 | particles joined by `", "` can be read back |
| QgrafSetup.OptionsReadBack | generator/qgraf_setup.py:81 | options joined by `","` can be read back |
| QgrafSetup.ValidParticleList | generator/qgraf_setup.py:140-157 | the list is valid exactly when every name is a model particle, so the empty list is valid |
| QgrafSetup.ValidParticleListAppend | generate/qgraf_setup.py:135-152 | a list is valid exactly when both of its parts are |

## Left out

- XML extraction (`find(...).text`, `parse_xml_vertex_node`'s reading of the node):
  the records are taken as already-extracted strings and triples. It is library work
  with no logic of its own.
- File I/O: the fixed FORM header and footer of `qgrafparser.py` (lines 16-32,
  129-130 and 133-144) are left out. The writes in between become appends to a
  string.
- A failure carries no output. The source has by then already written part of the
  file: `writenextprop` writes `i_*(` (`vertex.py:30`) before the IndexError or
  `int()` error at `vertex.py:31` and `:34`; `output` writes the head of the `g,g,g`
  rule (`vertex.py:47`) before its loop fails; and the diagram loop of
  `qgrafparser.py:87-111` has written the earlier vertices. The partial file is not
  modelled.
- ParameterList.Valid, ParticleList.Valid: construction as written does not establish
  them. `Append` keeps them once they hold, and `CreateChecked` is the construction
  that establishes them.
- `sanitize_input_file_path`, template reading and formatting,
  `create_process_directory`, `dispatch_qgraf_inputs` and `importer.py` are left
  out. They are filesystem work; the outcome of the path lookup is a parameter
  of `GenerateFormatDict`.
- Command shells, configuration (YAML) loading, the logger and its messages, and the
  `print` statements are left out. They change no value the core computes.
- The static model data under `models/GHT` and `models/phi3` is left out. The
  interaction and propagator registries are abstract maps keyed by the list of
  field names. The Python code indexes them with a list, which is unhashable; the
  registry classes are not part of this model. The particle registry is taken as a
  set or map of names.
- The token `I` is imported from `abstract_objects` but not defined there. It is
  taken as `"i_"`, as `models/GHT/parameters.py` defines it.
- `DiagramField.matches_id`, `create_leg_from_node` (which returns None; legs are
  only counted), `Vertex.contains`, and `Line.__len__`, `__contains__`,
  `__getitem__`, `__setitem__` and `__iter__` are left out. They are dead code or
  lack a `return`.
- `line.py` and `vertex.py:27` are not valid Python (`set i to 0.`, `! in`,
  `string(...)`, `insert(v, i)` with its arguments swapped). The model follows the
  evident intent, and the header comment of `legacy_line.dfy` lists each deviation.
- `list.remove` in `qgrafparser.py` removes by identity. The model works on vertex
  positions, which agree with identity because each vertex object is distinct.
- Python `int()` is modelled as an optional sign followed by ASCII digits. Surrounding
  whitespace and digit underscores are not modelled. Whitespace is the ASCII set.
- Python `str()` of a parameter's name or info is taken as given text. A parameter's
  value is kept as opaque text.
- `Vertex.__init__` has a bare `except` around the id rewrite. The model stops
  rewriting at the first non-integer text and keeps the vertex, which is what the
  interrupted loop leaves behind.
- GenerateFormatDict: the located style and model files are parameters, because the
  filesystem search of `sanitize_input_file_path` is not modelled.
- The meaning of the FORM tokens is not modelled: the code only assembles them.

## Findings

| source | as written | input that shows it | evidently intended | confidence | as-written member | corrected member |
|---|---|---|---|---|---|---|
| models/common_tools/algebra_tools.py:28-34 | `"-" + parwrap(x)` adds a str to the list parwrap returns | any x | the text `-(x)` | not executed | AlgebraTools.Minus | AlgebraTools.MinusCorrectedBalanced |
| models/common_tools/algebra_tools.py:60-63 | the `return` sits inside the loop, so only the first component gets the indices | `x+y` with indices `i1` gives `x(i1)+y` | every component indexed: `x(i1)+y(i1)` | not executed | AlgebraTools.AttachIndicesFirstTermOnly | AlgebraTools.AttachIndicesCorrectedEveryTerm |
| models/common_tools/abstract_objects.py:101-104 | the `raise` sits inside the loop, so only the first entry is inspected, and the `% f` format raises TypeError | a list of two parameters `a`, `b`, looking up `b` | the entry with that name, or AttributeError | not executed | AbstractObjects.FirstEntryLookupMissesSecond | AbstractObjects.NameLookupFinds |
| models/GHT/feynman_rules.py:78 | passes `t.mass` (absent on a field) as the momentum and `t.momentum` as the mass | any mapper with `t` and `tbar` fields | the field's momentum and the particle's mass, each in its own slot | not executed | GhtRules.TopPropAsWritten | GhtRules.TopPropCorrected |
| models/common_tools/abstract_objects.py:74-85 | `list.__new__` ignores its arguments and returns an empty list, so the type and name checks run over nothing and `list.__init__` stores the arguments unchecked | `ParameterList([Parameter("a"), Parameter("a")])` or `ParameterList([1])` | construction refuses both with AssertionError | not executed | AbstractObjects.ConstructionUnchecked | AbstractObjects.ParameterList.CreateChecked |
| models/common_tools/abstract_objects.py:153-164 | `list.__new__` ignores its arguments and returns an empty list, so the type and name checks run over nothing and `list.__init__` stores the arguments unchecked | `ParticleList([p, p])` for one Particle `p`, or `ParticleList([1])` | construction refuses both with AssertionError | not executed | AbstractObjects.ConstructionUnchecked | AbstractObjects.ParticleList.CreateChecked |
| diagram_elements.py:228-234 | the handler formats `line`, a name bound nowhere in the file, so it raises NameError instead of re-raising | a vertex whose rule raises KeyError | the rule's KeyError logged and raised again, as the propagator handler does | not executed | DiagramElements.VertexHandlerMasksError | DiagramElements.VertexExpressionCorrected |
| diagram_elements.py:250-266 | the int key is normalised but the raw key is looked up | key `1` when the vertex holds field id `"1"` | the field with the normalised id | not executed | DiagramElements.IntKeyMissesField | DiagramElements.AccessFieldByIdCorrected |
