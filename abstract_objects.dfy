/** The model containers of models/common_tools/abstract_objects.py: parameters and
    particles, and the two list classes meant to keep their names unique. */
module AbstractObjects {
  import opened Base
  import opened Collections

  // ---------------------------------------------------------------------------
  // Parameter

  /** A parameter is a string (its algebraic text) with extra attributes. The
      numerical `value` is never checked or used, so it is kept as an opaque text. */
  datatype Parameter = Parameter(
    text: string,
    name: string,
    info: string,
    value: Option<string>,
    complexConjugate: string)

  /** What was passed as `complex_conjugate`: a string (a Parameter is one) or any
      other object. */
  datatype ConjugateArg = StrArg(s: string) | NonStrArg

  /** `Parameter.__new__(text, name=..., info=..., value=..., complex_conjugate=...)`;
      `name` and `info` are given as their `str()` images. */
  function NewParameter(text: string, name: Option<string> := None, info: string := "",
                        value: Option<string> := None, conjugate: Option<ConjugateArg> := None)
    : (r: Result<Parameter>)
    ensures r.Success? <==> !(conjugate.Some? && conjugate.value.NonStrArg?)
    ensures r.Failure? ==> r.error.AssertionError?
    ensures r.Success? ==>
      r.value.text == text && r.value.info == info && r.value.value == value &&
      r.value.name == (if name.None? then text else name.value) &&
      r.value.complexConjugate == (if conjugate.None? then text else conjugate.value.s)
  {
    var n := if name.None? then text else name.value;
    match conjugate
    case None => Success(Parameter(text, n, info, value, text))
    case Some(StrArg(c)) => Success(Parameter(text, n, info, value, c))
    case Some(NonStrArg) => Failure(AssertionError("complex_conjugate must be a str"))
  }

  /** A parameter built with defaults only is real and named after its own text. */
  lemma DefaultParameterIsReal(text: string)
    ensures NewParameter(text).Success?
    ensures NewParameter(text).value.name == text
    ensures NewParameter(text).value.complexConjugate == NewParameter(text).value.text
    ensures NewParameter(text).value.info == ""
  {
  }

  /** `zero = Parameter("zero")`. */
  function Zero(): (p: Parameter)
    ensures NewParameter("zero") == Success(p)
  {
    Parameter("zero", "zero", "", None, "zero")
  }

  // ---------------------------------------------------------------------------
  // Particle

  /** A particle type: its name, its mass parameter, its spin (`2S+1`) and whatever
      other attributes were passed as keywords. */
  datatype Particle = Particle(name: string, mass: Parameter, spin: int, extra: map<string, string>)

  /** `Particle(name, mass=..., spin=0, **kwargs)`; `name` is given as its `str()` image.
      Python refuses `name`, `mass` and `spin` as extra keywords, so `kwargs` never
      holds them. */
  function NewParticle(name: string, mass: Parameter, spin: int := 0, kwargs: map<string, string> := map[])
    : (r: Particle)
    requires "name" !in kwargs && "mass" !in kwargs && "spin" !in kwargs
    ensures r.name == name && r.mass == mass && r.spin == spin && r.extra == kwargs
  {
    Particle(name, mass, spin, kwargs)
  }

  lemma ParticleSpinDefault(name: string, mass: Parameter)
    ensures NewParticle(name, mass).spin == 0
    ensures NewParticle(name, mass).extra == map[]
  {
  }

  // ---------------------------------------------------------------------------
  // ---------------------------------------------------------------------------
  // The elements of the two list classes

  /** An element of a ParameterList or a ParticleList: an entry of the list's own type,
      or any other object together with the `name` attribute it may carry. */
  datatype Element<T> = Entry(entry: T) | Other(otherName: Option<string>)

  type ParameterArg = Element<Parameter>
  type ParticleArg = Element<Particle>

  function ParameterName(p: Parameter): string { p.name }
  function ParticleName(p: Particle): string { p.name }

  /** `e.name`, or None when the object has no such attribute. */
  function ElementName<T>(e: Element<T>, nameOf: T -> string): Option<string>
  {
    match e
    case Entry(x) => Some(nameOf(x))
    case Other(n) => n
  }

  /** `[e.name for e in es]`: an AttributeError as soon as an element has no name. */
  function NamesOf<T>(es: seq<Element<T>>, nameOf: T -> string): (r: Result<seq<string>>)
    ensures r.Success? <==> forall k :: 0 <= k < |es| ==> ElementName(es[k], nameOf).Some?
    ensures r.Success? ==> |r.value| == |es|
    ensures r.Success? ==> forall k :: 0 <= k < |es| ==> ElementName(es[k], nameOf) == Some(r.value[k])
    ensures r.Failure? ==> r.error == AttributeError("name")
  {
    if |es| == 0 then Success([])
    else
      match ElementName(es[0], nameOf)
      case None => Failure(AttributeError("name"))
      case Some(n) =>
        var rest :- NamesOf(es[1..], nameOf);
        assert forall k :: 1 <= k < |es| ==> es[k] == es[1..][k - 1];
        Success([n] + rest)
  }

  /** Every element is an entry of the list's own type. */
  predicate AllEntries<T>(es: seq<Element<T>>)
  {
    forall k :: 0 <= k < |es| ==> es[k].Entry?
  }

  /** The invariant the two list classes are documented to keep: every element is an
      entry of the list's type, and no two of them share a name. */
  predicate WellFormed<T>(es: seq<Element<T>>, nameOf: T -> string)
  {
    AllEntries(es) && NamesOf(es, nameOf).Success? && Distinct(NamesOf(es, nameOf).value)
  }

  /** The checks `__new__` is written to make: the type of every element, then
      `len(names) == len(set(names))`. */
  function ListCheck<T>(es: seq<Element<T>>, nameOf: T -> string, typeMessage: string, nameMessage: string)
    : (r: Result<seq<Element<T>>>)
    ensures r.Success? <==> WellFormed(es, nameOf)
    ensures r.Success? ==> r.value == es
    ensures r.Failure? ==> r.error == AssertionError(if AllEntries(es) then nameMessage else typeMessage)
  {
    if !AllEntries(es) then Failure(AssertionError(typeMessage))
    else
      var names := NamesOf(es, nameOf).value;
      DistinctIffSetSize(names);
      if |names| == |ToSet(names)| then Success(es)
      else Failure(AssertionError(nameMessage))
  }

  /** The names of an extended list are the old names followed by the new one. */
  lemma NamesOfSnoc<T>(es: seq<Element<T>>, e: Element<T>, nameOf: T -> string)
    requires NamesOf(es, nameOf).Success? && ElementName(e, nameOf).Some?
    ensures NamesOf(es + [e], nameOf) == Success(NamesOf(es, nameOf).value + [ElementName(e, nameOf).value])
  {
    var t := es + [e];
    assert forall k :: 0 <= k < |es| ==> t[k] == es[k];
    assert forall k :: 0 <= k < |t| ==> ElementName(t[k], nameOf).Some?;
    var names := NamesOf(es, nameOf).value + [ElementName(e, nameOf).value];
    assert NamesOf(t, nameOf).value == names by {
      var v := NamesOf(t, nameOf).value;
      forall k | 0 <= k < |t|
        ensures v[k] == names[k]
      {
        assert Some(v[k]) == ElementName(t[k], nameOf);
      }
    }
  }

  /** Appending an entry whose name is new keeps a well-formed list well-formed. */
  lemma WellFormedSnoc<T>(es: seq<Element<T>>, x: T, nameOf: T -> string)
    requires WellFormed(es, nameOf) && nameOf(x) !in NamesOf(es, nameOf).value
    ensures WellFormed(es + [Entry(x)], nameOf)
  {
    NamesOfSnoc(es, Entry(x), nameOf);
    DistinctAppend(NamesOf(es, nameOf).value, nameOf(x));
    var t := es + [Entry(x)];
    assert forall k :: 0 <= k < |es| ==> t[k] == es[k];
  }

  // ---------------------------------------------------------------------------
  // The first-entry lookup of `__getattr__`

  /** `__getattr__(item)` as written: the loop's `raise` is inside its body, so only
      the first element is compared; and the message `"...name % found" % item` reads
      `% f` as a float conversion, so formatting it with a string raises a TypeError
      before the AttributeError can be built. A first element without a `name`
      raises AttributeError, and an empty list falls through: None. */
  function FirstEntryLookup<T>(es: seq<Element<T>>, nameOf: T -> string, item: string)
    : Result<Option<Element<T>>>
  {
    if |es| == 0 then Success(None)
    else
      match ElementName(es[0], nameOf)
      case None => Failure(AttributeError("name"))
      case Some(n) =>
        if item == n then Success(Some(es[0]))
        else Failure(TypeError("must be real number, not str"))
  }

  /** The first position holding `item`. */
  function IndexOf(names: seq<string>, item: string): (k: nat)
    requires item in names
    ensures k < |names| && names[k] == item
    ensures forall i :: 0 <= i < k ==> names[i] != item
  {
    if names[0] == item then 0 else 1 + IndexOf(names[1..], item)
  }

  /** The lookup the docstring describes: the entry bearing that name, or an
      AttributeError naming it. */
  function NameLookup<T>(names: seq<string>, entries: seq<T>, item: string): (r: Result<T>)
    requires |names| == |entries|
    ensures r.Success? <==> item in names
    ensures r.Failure? ==> r.error == AttributeError(item)
    ensures r.Success? ==> r.value == entries[IndexOf(names, item)]
  {
    if |entries| == 0 then Failure(AttributeError(item))
    else if item == names[0] then Success(entries[0])
    else NameLookup(names[1..], entries[1..], item)
  }

  /** With unique names the corrected lookup finds the one entry with that name. */
  lemma NameLookupFinds<T>(names: seq<string>, entries: seq<T>, k: nat)
    requires |names| == |entries| && Distinct(names) && k < |names|
    ensures NameLookup(names, entries, names[k]) == Success(entries[k])
  {
    var j := IndexOf(names, names[k]);
  }

  /** As written, an element after the first is never found: the lookup of the second
      element's name raises a TypeError, while the corrected lookup returns it. */
  lemma FirstEntryLookupMissesSecond<T>(es: seq<Element<T>>, nameOf: T -> string)
    requires |es| >= 2 && NamesOf(es, nameOf).Success? && Distinct(NamesOf(es, nameOf).value)
    ensures FirstEntryLookup(es, nameOf, NamesOf(es, nameOf).value[1]).Failure?
    ensures FirstEntryLookup(es, nameOf, NamesOf(es, nameOf).value[1]).error.TypeError?
    ensures NameLookup(NamesOf(es, nameOf).value, es, NamesOf(es, nameOf).value[1]) == Success(es[1])
  {
    var names := NamesOf(es, nameOf).value;
    assert ElementName(es[0], nameOf) == Some(names[0]);
    NameLookupFinds(names, es, 1);
  }

  /** As written, a lookup on a non-empty list succeeds only for the first element's
      name; it raises AttributeError only when that element has no name at all, and a
      TypeError otherwise. */
  lemma FirstEntryLookupOutcome<T>(es: seq<Element<T>>, nameOf: T -> string, item: string)
    ensures FirstEntryLookup(es, nameOf, item).Success? <==>
      (|es| == 0 || ElementName(es[0], nameOf) == Some(item))
    ensures FirstEntryLookup(es, nameOf, item).Failure? ==>
      (FirstEntryLookup(es, nameOf, item).error.AttributeError? <==> ElementName(es[0], nameOf).None?)
    ensures FirstEntryLookup(es, nameOf, item).Failure? ==>
      FirstEntryLookup(es, nameOf, item).error.AttributeError? ||
      FirstEntryLookup(es, nameOf, item).error.TypeError?
  {
  }

  // ---------------------------------------------------------------------------
  // ParameterList

  /** The messages of the two assertions of `ParameterList.__new__`. */
  const ParameterTypeMessage := "Cannot create a ParameterList: all entries should be of Parameter type"
  const ParameterNameMessage := "Cannot create a ParameterList: there are two entries with the same name attribute"
  /** The messages of `ParameterList.append`. */
  const ParameterAppendTypeMessage := "Cannot append to this ParameterList: all entries should be of Parameter type"
  const ParameterAppendNameMessage := "Cannot append Parameter to this ParameterList: this name already exists"

  /** A list meant to hold Parameters with pairwise different names. */
  class ParameterList {
    var items: seq<ParameterArg>

    predicate Valid()
      reads this
    {
      WellFormed(items, ParameterName)
    }

    /** `ParameterList(args)` as written. `list.__new__` ignores its arguments and
        returns an empty list, so the loop and the name check of `__new__` inspect
        nothing; `list.__init__` then fills the list with the arguments, unchecked. */
    constructor (args: seq<ParameterArg>)
      ensures items == args
    {
      items := args;
    }

    /** Construction as `__new__` is written to behave: the type of every argument
        is checked in turn, then the names; the list is built only when both hold. */
    static method CreateChecked(args: seq<ParameterArg>) returns (r: Result<ParameterList>)
      ensures r.Success? <==> ListCheck(args, ParameterName, ParameterTypeMessage, ParameterNameMessage).Success?
      ensures r.Failure? ==> r == Failure(ListCheck(args, ParameterName, ParameterTypeMessage, ParameterNameMessage).error)
      ensures r.Success? ==> fresh(r.value) && r.value.items == args && r.value.Valid()
    {
      var i := 0;
      while i < |args|
        invariant 0 <= i <= |args|
        invariant forall k :: 0 <= k < i ==> args[k].Entry?
      {
        if args[i].Other? {
          return Failure(AssertionError(ParameterTypeMessage));
        }
        i := i + 1;
      }
      var names := NamesOf(args, ParameterName).value;
      DistinctIffSetSize(names);
      if |names| != |ToSet(names)| {
        return Failure(AssertionError(ParameterNameMessage));
      }
      var l := new ParameterList(args);
      return Success(l);
    }

    /** `append(param)`: a non-Parameter is refused; then the names of the present
        elements are collected, which fails on an element without one; an existing
        name is refused. A refused element leaves the list as it was; otherwise it
        goes at the end. */
    method Append(arg: ParameterArg) returns (r: Outcome)
      modifies this
      ensures arg.Other? ==> r == Fail(AssertionError(ParameterAppendTypeMessage))
      ensures arg.Entry? && NamesOf(old(items), ParameterName).Failure? ==>
        r == Fail(AttributeError("name"))
      ensures arg.Entry? && NamesOf(old(items), ParameterName).Success? ==>
        r == (if arg.entry.name in NamesOf(old(items), ParameterName).value
              then Fail(AssertionError(ParameterAppendNameMessage)) else Pass)
      ensures r.Fail? ==> items == old(items)
      ensures r.Pass? ==> items == old(items) + [arg]
      ensures old(Valid()) ==> Valid()
    {
      if arg.Other? {
        return Fail(AssertionError(ParameterAppendTypeMessage));
      }
      var namesOf := NamesOf(items, ParameterName);
      if namesOf.Failure? {
        return Fail(namesOf.error);
      }
      var names := namesOf.value;
      if arg.entry.name in names {
        return Fail(AssertionError(ParameterAppendNameMessage));
      }
      if Valid() {
        WellFormedSnoc(items, arg.entry, ParameterName);
      }
      items := items + [arg];
      return Pass;
    }

    /** `__getattr__(item)`, as written. */
    function GetAttr(item: string): (r: Result<Option<ParameterArg>>)
      reads this
      ensures |items| == 0 ==> r == Success(None)
      ensures |items| > 0 && ElementName(items[0], ParameterName).None? ==>
        r == Failure(AttributeError("name"))
      ensures |items| > 0 && ElementName(items[0], ParameterName) == Some(item) ==>
        r == Success(Some(items[0]))
      ensures |items| > 0 && ElementName(items[0], ParameterName).Some? && ElementName(items[0], ParameterName) != Some(item) ==>
        r.Failure? && r.error.TypeError?
    {
      FirstEntryLookup(items, ParameterName, item)
    }
  }

  // ---------------------------------------------------------------------------
  // ParticleList

  /** The messages of the two assertions of `ParticleList.__new__`. */
  const ParticleTypeMessage := "Cannot create a ParticleList: all entries should be of Particle type"
  const ParticleNameMessage := "Cannot create a ParticleList: there are two entries with the same name attribute"
  /** The messages of `ParticleList.append`. */
  const ParticleAppendTypeMessage := "Cannot append to this ParticleList: all entries should be of Particle type"
  const ParticleAppendNameMessage := "Cannot append Particle to this ParticleList: this name already exists"

  /** A list meant to hold Particles with pairwise different names. */
  class ParticleList {
    var items: seq<ParticleArg>

    predicate Valid()
      reads this
    {
      WellFormed(items, ParticleName)
    }

    /** `ParticleList(args)` as written: as for ParameterList, the checks of
        `__new__` run over the empty list `list.__new__` returns, and the arguments
        are stored unchecked. */
    constructor (args: seq<ParticleArg>)
      ensures items == args
    {
      items := args;
    }

    /** Construction as `__new__` is written to behave. */
    static method CreateChecked(args: seq<ParticleArg>) returns (r: Result<ParticleList>)
      ensures r.Success? <==> ListCheck(args, ParticleName, ParticleTypeMessage, ParticleNameMessage).Success?
      ensures r.Failure? ==> r == Failure(ListCheck(args, ParticleName, ParticleTypeMessage, ParticleNameMessage).error)
      ensures r.Success? ==> fresh(r.value) && r.value.items == args && r.value.Valid()
    {
      var i := 0;
      while i < |args|
        invariant 0 <= i <= |args|
        invariant forall k :: 0 <= k < i ==> args[k].Entry?
      {
        if args[i].Other? {
          return Failure(AssertionError(ParticleTypeMessage));
        }
        i := i + 1;
      }
      var names := NamesOf(args, ParticleName).value;
      DistinctIffSetSize(names);
      if |names| != |ToSet(names)| {
        return Failure(AssertionError(ParticleNameMessage));
      }
      var l := new ParticleList(args);
      return Success(l);
    }

    /** `append(part)`. */
    method Append(arg: ParticleArg) returns (r: Outcome)
      modifies this
      ensures arg.Other? ==> r == Fail(AssertionError(ParticleAppendTypeMessage))
      ensures arg.Entry? && NamesOf(old(items), ParticleName).Failure? ==>
        r == Fail(AttributeError("name"))
      ensures arg.Entry? && NamesOf(old(items), ParticleName).Success? ==>
        r == (if arg.entry.name in NamesOf(old(items), ParticleName).value
              then Fail(AssertionError(ParticleAppendNameMessage)) else Pass)
      ensures r.Fail? ==> items == old(items)
      ensures r.Pass? ==> items == old(items) + [arg]
      ensures old(Valid()) ==> Valid()
    {
      if arg.Other? {
        return Fail(AssertionError(ParticleAppendTypeMessage));
      }
      var namesOf := NamesOf(items, ParticleName);
      if namesOf.Failure? {
        return Fail(namesOf.error);
      }
      var names := namesOf.value;
      if arg.entry.name in names {
        return Fail(AssertionError(ParticleAppendNameMessage));
      }
      if Valid() {
        WellFormedSnoc(items, arg.entry, ParticleName);
      }
      items := items + [arg];
      return Pass;
    }

    /** `__getattr__(item)`, as written. */
    function GetAttr(item: string): (r: Result<Option<ParticleArg>>)
      reads this
      ensures |items| == 0 ==> r == Success(None)
      ensures |items| > 0 && ElementName(items[0], ParticleName).None? ==>
        r == Failure(AttributeError("name"))
      ensures |items| > 0 && ElementName(items[0], ParticleName) == Some(item) ==>
        r == Success(Some(items[0]))
      ensures |items| > 0 && ElementName(items[0], ParticleName).Some? && ElementName(items[0], ParticleName) != Some(item) ==>
        r.Failure? && r.error.TypeError?
    {
      FirstEntryLookup(items, ParticleName, item)
    }
  }

  /** As written, construction accepts what `__new__` is meant to refuse: a list of
      two Parameters with the same name, a list holding a non-Parameter, and a list
      of two Particles with the same name are built as given and are not valid,
      while the intended checks refuse each. */
  method ConstructionUnchecked(p: Parameter, q: Particle)
    returns (twice: ParameterList, foreign: ParameterList, particles: ParticleList)
    ensures twice.items == [Entry(p), Entry(p)] && !twice.Valid()
    ensures foreign.items == [Other(None)] && !foreign.Valid()
    ensures ListCheck(twice.items, ParameterName, ParameterTypeMessage, ParameterNameMessage)
      == Failure(AssertionError(ParameterNameMessage))
    ensures ListCheck(foreign.items, ParameterName, ParameterTypeMessage, ParameterNameMessage)
      == Failure(AssertionError(ParameterTypeMessage))
    ensures particles.items == [Entry(q), Entry(q)] && !particles.Valid()
    ensures ListCheck(particles.items, ParticleName, ParticleTypeMessage, ParticleNameMessage)
      == Failure(AssertionError(ParticleNameMessage))
  {
    twice := new ParameterList([Entry(p), Entry(p)]);
    foreign := new ParameterList([Other(None)]);
    particles := new ParticleList([Entry(q), Entry(q)]);
    assert NamesOf(twice.items, ParameterName).value[0] == NamesOf(twice.items, ParameterName).value[1];
    assert NamesOf(particles.items, ParticleName).value[0] == NamesOf(particles.items, ParticleName).value[1];
  }

  /** Appending a fresh name to a valid list and then a second entry with the same
      name: the second is refused, so uniqueness survives any sequence of appends. */
  method AppendTwiceRefused(l: ParameterList, p: Parameter, q: Parameter) returns (first: Outcome, second: Outcome)
    requires l.Valid() && p.name !in NamesOf(l.items, ParameterName).value && q.name == p.name
    modifies l
    ensures first.Pass? && second.Fail? && l.items == old(l.items) + [Entry(p)] && l.Valid()
  {
    first := l.Append(Entry(p));
    assert NamesOf(l.items, ParameterName).value[|l.items| - 1] == p.name;
    second := l.Append(Entry(q));
  }
}
