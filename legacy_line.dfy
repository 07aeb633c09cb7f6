/** The legacy fermion line of line.py: an ordered chain of fermion vertices that
    each new vertex is spliced into next to its neighbour, and a flag recording that
    the chain has an external (open) end. The file is not valid Python as written
    (`set i to 0.`, `!Found`, `string(...)`, `it(...)`, `false`, `insert(v, i)` with
    its arguments swapped, `additem` called under the name `__additem__`); the model
    follows the evident intent. */
module LegacyLine {
  import opened Base
  import opened Text
  import opened LegacyVertex

  /** `re.search('[a-zA-Z]', f)`. */
  predicate HasLetter(f: string)
  {
    exists c :: 0 <= c < |f| && IsLetter(f[c])
  }

  /** Some field id of the vertex contains a letter: an `ext` leg. */
  predicate HasExternalField(v: Vertex)
  {
    exists k :: 0 <= k < |v.fields| && HasLetter(v.fields[k])
  }

  /** Every vertex of a chain has the two fermion fields the scan reads. */
  predicate Chainable(ws: seq<Vertex>)
  {
    forall k :: 0 <= k < |ws| ==> |ws[k].fields| >= 2
  }

  /** `(next, prev) = (str(int(v.fields[1]) + 1), str(int(v.fields[0]) - 1))`: the
      antiparticle field that follows the vertex's particle and the particle field
      that precedes its antiparticle. `fields[1]` is read first. */
  function Connectors(v: Vertex): (r: Result<(string, string)>)
    ensures r.Success? <==> |v.fields| >= 2 && ParseInt(v.fields[1]).Some? && ParseInt(v.fields[0]).Some?
    ensures r.Success? ==> r.value == (IntToString(ParseInt(v.fields[1]).value + 1),
                                       IntToString(ParseInt(v.fields[0]).value - 1))
    ensures |v.fields| >= 2 && ParseInt(v.fields[1]).None? ==> r == Failure(ValueError(v.fields[1]))
  {
    if |v.fields| < 2 then Failure(IndexError)
    else match ParseInt(v.fields[1])
      case None => Failure(ValueError(v.fields[1]))
      case Some(b) =>
        match ParseInt(v.fields[0])
        case None => Failure(ValueError(v.fields[0]))
        case Some(a) => Success((IntToString(b + 1), IntToString(a - 1)))
  }

  /** `w` is the vertex the scan stops at. */
  predicate Neighbour(w: Vertex, next: string, prev: string)
    requires |w.fields| >= 2
  {
    w.fields[0] == next || w.fields[1] == prev
  }

  /** The position of the first neighbour in the chain. */
  function FirstNeighbour(ws: seq<Vertex>, next: string, prev: string): (m: Option<nat>)
    requires Chainable(ws)
    ensures m.Some? ==> m.value < |ws| && Neighbour(ws[m.value], next, prev)
    ensures m.Some? ==> forall j :: 0 <= j < m.value ==> !Neighbour(ws[j], next, prev)
    ensures m.None? ==> forall j :: 0 <= j < |ws| ==> !Neighbour(ws[j], next, prev)
  {
    if |ws| == 0 then None
    else if Neighbour(ws[0], next, prev) then Some(0)
    else match FirstNeighbour(ws[1..], next, prev)
      case None => None
      case Some(i) => Some(i + 1)
  }

  /** Where the vertex goes: just before the first neighbour whose antiparticle field
      is `next`, just after one whose particle field is `prev` (the first test wins on
      the same vertex), at the end when there is none. */
  function InsertionPoint(ws: seq<Vertex>, next: string, prev: string): (p: nat)
    requires Chainable(ws)
    ensures p <= |ws|
    ensures FirstNeighbour(ws, next, prev).None? ==> p == |ws|
    ensures FirstNeighbour(ws, next, prev).Some? ==>
      (p < |ws| && ws[p].fields[0] == next) || (0 < p && ws[p - 1].fields[1] == prev)
  {
    match FirstNeighbour(ws, next, prev)
    case None => |ws|
    case Some(i) => if ws[i].fields[0] == next then i else i + 1
  }

  /** `v` placed at position `p` of the chain. */
  function Splice(ws: seq<Vertex>, v: Vertex, p: nat): (r: seq<Vertex>)
    requires p <= |ws|
    ensures |r| == |ws| + 1 && r[p] == v
  {
    ws[..p] + [v] + ws[p..]
  }

  /** The splice adds exactly one occurrence of `v` and keeps the other vertices in
      their order: taking `v` out again gives back the chain. */
  lemma SpliceKeepsOrder(ws: seq<Vertex>, v: Vertex, p: nat)
    requires p <= |ws|
    ensures multiset(Splice(ws, v, p)) == multiset(ws) + multiset{v}
    ensures Splice(ws, v, p)[..p] + Splice(ws, v, p)[p + 1..] == ws
  {
    var r := Splice(ws, v, p);
    assert r[..p] == ws[..p];
    assert r[p + 1..] == ws[p..];
    assert ws == ws[..p] + ws[p..];
  }

  /** One `additem` on the chain, as a value. */
  function AddOne(ws: seq<Vertex>, v: Vertex): (r: Result<seq<Vertex>>)
    requires Chainable(ws)
    ensures r.Success? <==> Connectors(v).Success?
    ensures r.Failure? ==> r.error == Connectors(v).error
    ensures r.Success? ==> Chainable(r.value) && |r.value| == |ws| + 1
  {
    var (next, prev) :- Connectors(v);
    Success(Splice(ws, v, InsertionPoint(ws, next, prev)))
  }

  /** Every vertex of `vs` added in turn; the first failure ends it. */
  function AddAll(ws: seq<Vertex>, vs: seq<Vertex>): (r: Result<seq<Vertex>>)
    requires Chainable(ws)
    ensures r.Success? ==> Chainable(r.value) && |r.value| == |ws| + |vs|
    decreases |vs|
  {
    if |vs| == 0 then Success(ws)
    else
      var prefix :- AddAll(ws, vs[..|vs| - 1]);
      AddOne(prefix, vs[|vs| - 1])
  }

  /** Adding a whole line puts each of its vertices in exactly once, besides the
      vertices already there. */
  lemma {:induction false} AddAllMultiset(ws: seq<Vertex>, vs: seq<Vertex>)
    requires Chainable(ws) && AddAll(ws, vs).Success?
    ensures multiset(AddAll(ws, vs).value) == multiset(ws) + multiset(vs)
    decreases |vs|
  {
    if |vs| > 0 {
      var init := vs[..|vs| - 1];
      var last := vs[|vs| - 1];
      AddAllMultiset(ws, init);
      var prefix := AddAll(ws, init).value;
      var c := Connectors(last).value;
      var p := InsertionPoint(prefix, c.0, c.1);
      assert AddAll(ws, vs).value == Splice(prefix, last, p);
      SpliceKeepsOrder(prefix, last, p);
      SnocMultiset(vs);
    }
  }

  lemma SnocMultiset<T>(s: seq<T>)
    requires |s| > 0
    ensures multiset(s) == multiset(s[..|s| - 1]) + multiset{s[|s| - 1]}
  {
    assert s == s[..|s| - 1] + [s[|s| - 1]];
  }

  /** A line of fermion vertices. */
  class Line {
    var vertices: seq<Vertex>
    var open: bool

    predicate Valid()
      reads this
    {
      Chainable(vertices)
    }

    /** `Line()`: no vertex, not open. */
    constructor ()
      ensures Valid() && vertices == [] && !open
    {
      vertices := [];
      open := false;
    }

    /** `additem(v)`: splice `v` in next to its first neighbour and mark the line
        open once a vertex with an external field joins it. A field that is not an
        integer raises ValueError and leaves the line as it was. */
    method AddItem(v: Vertex) returns (r: Outcome)
      requires Valid()
      modifies this
      ensures Valid()
      ensures r.Pass? <==> AddOne(old(vertices), v).Success?
      ensures r.Fail? ==> r.error == AddOne(old(vertices), v).error && vertices == old(vertices) && open == old(open)
      ensures r.Pass? ==> vertices == AddOne(old(vertices), v).value
      ensures r.Pass? ==> open == (old(open) || HasExternalField(v))
    {
      var c := Connectors(v);
      if c.Failure? {
        return Fail(c.error);
      }
      var (next, prev) := c.value;
      ghost var ws := vertices;
      var i := 0;
      var found := false;
      while i < |vertices|
        invariant vertices == ws && 0 <= i <= |ws|
        invariant forall j :: 0 <= j < i ==> !Neighbour(ws[j], next, prev)
      {
        var w := vertices[i];
        if next == w.fields[0] {
          vertices := vertices[..i] + [v] + vertices[i..];
          found := true;
          break;
        }
        if prev == w.fields[1] {
          vertices := vertices[..i + 1] + [v] + vertices[i + 1..];
          found := true;
          break;
        }
        i := i + 1;
      }
      if !found {
        vertices := vertices + [v];
      }
      FirstNeighbourAt(ws, next, prev, i);
      assert vertices == AddOne(ws, v).value;
      MarkOpen(v);
      r := Pass;
    }

    /** The end of `additem`: a closed line becomes open when a field of `v` holds a
        letter; an open line stays open. */
    method MarkOpen(v: Vertex)
      modifies this
      ensures vertices == old(vertices)
      ensures open == (old(open) || HasExternalField(v))
    {
      if !open {
        for k := 0 to |v.fields|
          invariant vertices == old(vertices)
          invariant open <==> exists j :: 0 <= j < k && HasLetter(v.fields[j])
        {
          if HasLetter(v.fields[k]) {
            open := true;
          }
        }
      }
    }

    /** `self + line2`: a new line holding this line's vertices with those of
        `line2` added in turn, open when either line is; this line is left as it was. */
    method Add(line2: Line) returns (nline: Line, r: Outcome)
      requires Valid() && line2.Valid()
      ensures fresh(nline) && nline.Valid()
      ensures r.Pass? <==> AddAll(vertices, line2.vertices).Success?
      ensures r.Pass? ==> nline.vertices == AddAll(vertices, line2.vertices).value
      ensures r.Pass? ==> nline.open == (open || line2.open)
      ensures r.Fail? ==> r.error == AddAll(vertices, line2.vertices).error
    {
      var base := vertices;
      var vs := line2.vertices;
      var isOpen := open || line2.open;
      nline := new Line();
      nline.vertices := base;
      for k := 0 to |vs|
        invariant fresh(nline) && nline.Valid()
        invariant AddAll(base, vs[..k]) == Success(nline.vertices)
      {
        AddAllStep(base, vs, k, nline.vertices);
        var step := nline.AddItem(vs[k]);
        if step.Fail? {
          AddAllPrefixFails(base, vs, k + 1);
          return nline, step;
        }
      }
      assert vs[..|vs|] == vs;
      nline.open := isOpen;
      r := Pass;
    }
  }

  /** Adding the first `k + 1` vertices is adding vertex `k` to the first `k`. */
  lemma AddAllStep(ws: seq<Vertex>, vs: seq<Vertex>, k: nat, prefix: seq<Vertex>)
    requires Chainable(ws) && k < |vs| && AddAll(ws, vs[..k]) == Success(prefix)
    ensures Chainable(prefix) && AddAll(ws, vs[..k + 1]) == AddOne(prefix, vs[k])
  {
    assert vs[..k + 1][..k] == vs[..k];
  }

  /** Where the scan stopped: at the first neighbour, or past the end. */
  lemma FirstNeighbourAt(ws: seq<Vertex>, next: string, prev: string, i: nat)
    requires Chainable(ws) && i <= |ws|
    requires forall j :: 0 <= j < i ==> !Neighbour(ws[j], next, prev)
    requires i < |ws| ==> Neighbour(ws[i], next, prev)
    ensures FirstNeighbour(ws, next, prev) == if i < |ws| then Some(i) else None
  {
  }

  /** Once adding the first `k` vertices fails, adding all of them fails the same way. */
  lemma {:induction false} AddAllPrefixFails(ws: seq<Vertex>, vs: seq<Vertex>, k: nat)
    requires Chainable(ws) && k <= |vs| && AddAll(ws, vs[..k]).Failure?
    ensures AddAll(ws, vs) == AddAll(ws, vs[..k])
    decreases |vs| - k
  {
    if k < |vs| {
      assert vs[..k + 1][..k] == vs[..k];
      AddAllPrefixFails(ws, vs, k + 1);
    } else {
      assert vs[..k] == vs;
    }
  }
}
