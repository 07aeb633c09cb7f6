/** The legacy conversion script qgrafparser.py, lines 46-132: fermion vertices are
    grouped into lines by their connecting field numbers, every line is walked from
    its first vertex writing each vertex and the fermion propagator after it, the
    other vertices and the gluon and Higgs propagators follow, and one `Tracen`
    statement is written per fermion line. A vertex is identified by its position in
    the diagram's vertex list, so a line is a list of positions. */
module LegacyParser {
  import opened Base
  import opened Text
  import opened LegacyVertex
  import GhtRules

  /** The vertex types the script treats as fermion vertices. */
  const FermionVertexTypes: set<string> := {"tbar,t,H", "tbar,t,g"}

  predicate IsFermionVertex(v: Vertex)
  {
    v.vtype in FermionVertexTypes
  }

  /** A fermion line: the positions of its vertices. */
  type Line = seq<nat>

  /** The fermion lines built so far and the non-fermion vertices in input order. */
  datatype Grouping = Grouping(lines: seq<Line>, nonFermion: seq<nat>)

  // ---------------------------------------------------------------------------
  // Grouping the vertices into lines (lines 51-85)

  /** `set([str(int(v.fields[0]) - 1), str(int(v.fields[1]) + 1)])`: the field that
      precedes the vertex's antiparticle and the one that follows its particle.
      `fields[0]` is read first. */
  function ConnectorSet(v: Vertex): (r: Result<set<string>>)
    ensures r.Success? <==> |v.fields| >= 2 && ParseInt(v.fields[0]).Some? && ParseInt(v.fields[1]).Some?
    ensures r.Success? ==> r.value == {IntToString(ParseInt(v.fields[0]).value - 1),
                                       IntToString(ParseInt(v.fields[1]).value + 1)}
    ensures |v.fields| > 0 && ParseInt(v.fields[0]).None? ==> r == Failure(ValueError(v.fields[0]))
  {
    if |v.fields| == 0 then Failure(IndexError)
    else match ParseInt(v.fields[0])
      case None => Failure(ValueError(v.fields[0]))
      case Some(a) =>
        if |v.fields| < 2 then Failure(IndexError)
        else match ParseInt(v.fields[1])
          case None => Failure(ValueError(v.fields[1]))
          case Some(b) => Success({IntToString(a - 1), IntToString(b + 1)})
  }

  /** `set(vl.fields) & sv` is not empty. */
  predicate Meets(v: Vertex, sv: set<string>)
  {
    exists f :: 0 <= f < |v.fields| && v.fields[f] in sv
  }

  predicate InRange(line: Line, n: nat)
  {
    forall k :: 0 <= k < |line| ==> line[k] < n
  }

  predicate AllInRange(ls: seq<Line>, n: nat)
  {
    forall i :: 0 <= i < |ls| ==> InRange(ls[i], n)
  }

  /** Some vertex of the line has a field in the connector set. */
  predicate Touches(vertices: seq<Vertex>, line: Line, sv: set<string>)
    requires InRange(line, |vertices|)
  {
    exists k :: 0 <= k < |line| && Meets(vertices[line[k]], sv)
  }

  /** The lines the vertex connects to, in their order. */
  function Matching(vertices: seq<Vertex>, ls: seq<Line>, sv: set<string>): (r: seq<Line>)
    requires AllInRange(ls, |vertices|)
    ensures AllInRange(r, |vertices|)
  {
    if |ls| == 0 then []
    else
      var last := ls[|ls| - 1];
      Matching(vertices, ls[..|ls| - 1], sv) + (if Touches(vertices, last, sv) then [last] else [])
  }

  /** The lines it does not connect to, in their order. */
  function Untouched(vertices: seq<Vertex>, ls: seq<Line>, sv: set<string>): (r: seq<Line>)
    requires AllInRange(ls, |vertices|)
    ensures AllInRange(r, |vertices|)
  {
    if |ls| == 0 then []
    else
      var last := ls[|ls| - 1];
      Untouched(vertices, ls[..|ls| - 1], sv) + (if Touches(vertices, last, sv) then [] else [last])
  }

  /** The lines picked out by the filters lie in any range the lines lie in. */
  lemma {:induction false} FiltersInRange(vertices: seq<Vertex>, ls: seq<Line>, sv: set<string>, n: nat)
    requires AllInRange(ls, |vertices|) && AllInRange(ls, n)
    ensures AllInRange(Matching(vertices, ls, sv), n) && AllInRange(Untouched(vertices, ls, sv), n)
  {
    if |ls| > 0 {
      FiltersInRange(vertices, ls[..|ls| - 1], sv, n);
    }
  }

  /** Every line the vertex connects to is one of the lines and touches it; every
      line kept apart is one of the lines and does not. */
  lemma {:induction false} MatchingTouches(vertices: seq<Vertex>, ls: seq<Line>, sv: set<string>)
    requires AllInRange(ls, |vertices|)
    ensures forall i :: 0 <= i < |Matching(vertices, ls, sv)| ==>
      Matching(vertices, ls, sv)[i] in ls && Touches(vertices, Matching(vertices, ls, sv)[i], sv)
    ensures forall i :: 0 <= i < |Untouched(vertices, ls, sv)| ==>
      Untouched(vertices, ls, sv)[i] in ls && !Touches(vertices, Untouched(vertices, ls, sv)[i], sv)
    ensures |Matching(vertices, ls, sv)| + |Untouched(vertices, ls, sv)| == |ls|
  {
    if |ls| > 0 {
      var init := ls[..|ls| - 1];
      MatchingTouches(vertices, init, sv);
      assert forall l :: l in init ==> l in ls;
    }
  }

  /** The lines glued one after another. */
  function Flatten(ls: seq<Line>): (r: seq<nat>)
  {
    if |ls| == 0 then [] else Flatten(ls[..|ls| - 1]) + ls[|ls| - 1]
  }

  lemma {:induction false} FlattenInRange(ls: seq<Line>, n: nat)
    requires AllInRange(ls, n)
    ensures InRange(Flatten(ls), n)
  {
    if |ls| > 0 {
      FlattenInRange(ls[..|ls| - 1], n);
    }
  }

  /** A fermion vertex joining existing lines: the lines that touch its connector
      set are taken, in order, behind it into one line that replaces them at the end;
      when none touches it, it starts a new line at the end. */
  function Merge(vertices: seq<Vertex>, ls: seq<Line>, sv: set<string>, idx: nat): (r: seq<Line>)
    requires idx < |vertices| && AllInRange(ls, idx)
    ensures AllInRange(r, idx + 1)
  {
    AllInRangeWiden(ls, idx, idx + 1);
    var matches := Matching(vertices, ls, sv);
    FiltersInRange(vertices, ls, sv, idx + 1);
    FlattenInRange(matches, idx + 1);
    if |matches| > 0 then Untouched(vertices, ls, sv) + [[idx] + Flatten(matches)]
    else ls + [[idx]]
  }

  /** One pass of the grouping loop for the vertex at position `idx`: a non-fermion
      vertex is set aside, the first fermion vertex starts the first line on its own,
      and every later one is merged with the lines it touches. */
  function GroupStep(vertices: seq<Vertex>, g: Grouping, idx: nat): (r: Result<Grouping>)
    requires idx < |vertices| && AllInRange(g.lines, idx)
    ensures r.Success? ==> AllInRange(r.value.lines, idx + 1)
  {
    var v := vertices[idx];
    if !IsFermionVertex(v) then Success(g.(nonFermion := g.nonFermion + [idx]))
    else if |g.lines| == 0 then Success(g.(lines := [[idx]]))
    else
      var sv :- ConnectorSet(v);
      Success(g.(lines := Merge(vertices, g.lines, sv, idx)))
  }

  lemma AllInRangeWiden(ls: seq<Line>, n: nat, m: nat)
    requires AllInRange(ls, n) && n <= m
    ensures AllInRange(ls, m)
  {
  }

  /** The grouping loop over the first `k` vertices. */
  function Group(vertices: seq<Vertex>, k: nat): (r: Result<Grouping>)
    requires k <= |vertices|
    ensures r.Success? ==> AllInRange(r.value.lines, k)
  {
    if k == 0 then Success(Grouping([], []))
    else
      var g :- Group(vertices, k - 1);
      GroupStep(vertices, g, k - 1)
  }

  /** The positions below `k` of the fermion vertices, in order. */
  function FermionsBelow(vertices: seq<Vertex>, k: nat): seq<nat>
    requires k <= |vertices|
  {
    if k == 0 then []
    else FermionsBelow(vertices, k - 1) + (if IsFermionVertex(vertices[k - 1]) then [k - 1] else [])
  }

  /** The positions below `k` of the other vertices, in order. */
  function OthersBelow(vertices: seq<Vertex>, k: nat): seq<nat>
    requires k <= |vertices|
  {
    if k == 0 then []
    else OthersBelow(vertices, k - 1) + (if IsFermionVertex(vertices[k - 1]) then [] else [k - 1])
  }

  /** The lines split into those touched and those not touched hold the same
      vertices as before. */
  lemma {:induction false} SplitLines(vertices: seq<Vertex>, ls: seq<Line>, sv: set<string>)
    requires AllInRange(ls, |vertices|)
    ensures multiset(Flatten(Untouched(vertices, ls, sv))) + multiset(Flatten(Matching(vertices, ls, sv)))
         == multiset(Flatten(ls))
  {
    if |ls| > 0 {
      var init := ls[..|ls| - 1];
      var last := ls[|ls| - 1];
      SplitLines(vertices, init, sv);
      var m := Matching(vertices, init, sv);
      var u := Untouched(vertices, init, sv);
      assert Flatten(ls) == Flatten(init) + last;
      assert multiset(Flatten(init) + last) == multiset(Flatten(init)) + multiset(last);
      if Touches(vertices, last, sv) {
        assert Matching(vertices, ls, sv) == m + [last];
        FlattenSnoc(m, last);
        assert multiset(Flatten(m) + last) == multiset(Flatten(m)) + multiset(last);
        assert Untouched(vertices, ls, sv) == u + [];
        assert u + [] == u;
      } else {
        assert Untouched(vertices, ls, sv) == u + [last];
        FlattenSnoc(u, last);
        assert multiset(Flatten(u) + last) == multiset(Flatten(u)) + multiset(last);
        assert Matching(vertices, ls, sv) == m + [];
        assert m + [] == m;
      }
    }
  }

  lemma FlattenSnoc(ls: seq<Line>, l: Line)
    ensures Flatten(ls + [l]) == Flatten(ls) + l
  {
    assert (ls + [l])[..|ls|] == ls;
  }

  /** The merge adds the new vertex to the lines and loses none of theirs. */
  lemma MergeAddsOne(vertices: seq<Vertex>, ls: seq<Line>, sv: set<string>, idx: nat)
    requires idx < |vertices| && AllInRange(ls, idx)
    ensures multiset(Flatten(Merge(vertices, ls, sv, idx))) == multiset(Flatten(ls)) + multiset([idx])
  {
    AllInRangeWiden(ls, idx, |vertices|);
    var matches := Matching(vertices, ls, sv);
    var kept := Untouched(vertices, ls, sv);
    var one: Line := [idx];
    if |matches| > 0 {
      SplitLines(vertices, ls, sv);
      var line: Line := one + Flatten(matches);
      FlattenSnoc(kept, line);
      assert multiset(Flatten(kept) + line) == multiset(Flatten(kept)) + multiset(line);
      assert multiset(line) == multiset(one) + multiset(Flatten(matches));
    } else {
      FlattenSnoc(ls, one);
      assert multiset(Flatten(ls) + one) == multiset(Flatten(ls)) + multiset(one);
    }
  }

  /** One pass adds a fermion vertex to the lines and any other vertex to the list
      set aside. */
  lemma GroupStepAddsOne(vertices: seq<Vertex>, g: Grouping, idx: nat)
    requires idx < |vertices| && AllInRange(g.lines, idx) && GroupStep(vertices, g, idx).Success?
    ensures var one: seq<nat> := if IsFermionVertex(vertices[idx]) then [idx] else [];
      multiset(Flatten(GroupStep(vertices, g, idx).value.lines)) == multiset(Flatten(g.lines)) + multiset(one)
    ensures GroupStep(vertices, g, idx).value.nonFermion ==
      g.nonFermion + (if IsFermionVertex(vertices[idx]) then [] else [idx])
  {
    var r := GroupStep(vertices, g, idx).value;
    var e: seq<nat> := [];
    if !IsFermionVertex(vertices[idx]) {
      assert r.lines == g.lines;
      assert multiset(e) == multiset{};
    } else if |g.lines| == 0 {
      var one: Line := [idx];
      assert r.lines == [one];
      assert Flatten([one]) == Flatten([]) + one;
      assert r.nonFermion == g.nonFermion + e;
    } else {
      MergeAddsOne(vertices, g.lines, ConnectorSet(vertices[idx]).value, idx);
      assert r.nonFermion == g.nonFermion + e;
    }
  }

  lemma PartitionStep(vertices: seq<Vertex>, k: nat, g: Grouping, r: Grouping)
    requires 0 < k <= |vertices| && AllInRange(g.lines, k - 1)
    requires GroupStep(vertices, g, k - 1) == Success(r)
    requires multiset(Flatten(g.lines)) == multiset(FermionsBelow(vertices, k - 1))
    requires g.nonFermion == OthersBelow(vertices, k - 1)
    ensures multiset(Flatten(r.lines)) == multiset(FermionsBelow(vertices, k))
    ensures r.nonFermion == OthersBelow(vertices, k)
  {
    GroupStepAddsOne(vertices, g, k - 1);
    var one: seq<nat> := if IsFermionVertex(vertices[k - 1]) then [k - 1] else [];
    assert FermionsBelow(vertices, k) == FermionsBelow(vertices, k - 1) + one;
    assert multiset(FermionsBelow(vertices, k - 1) + one) == multiset(FermionsBelow(vertices, k - 1)) + multiset(one);
  }

  /** After the vertices below `k`, the lines hold every fermion vertex seen exactly
      once, and the other vertices are listed in input order. */
  lemma {:induction false} GroupPartition(vertices: seq<Vertex>, k: nat)
    requires k <= |vertices| && Group(vertices, k).Success?
    ensures multiset(Flatten(Group(vertices, k).value.lines)) == multiset(FermionsBelow(vertices, k))
    ensures Group(vertices, k).value.nonFermion == OthersBelow(vertices, k)
  {
    if k > 0 {
      GroupPartition(vertices, k - 1);
      PartitionStep(vertices, k, Group(vertices, k - 1).value, Group(vertices, k).value);
    }
  }

  /** Each fermion vertex below `k` is listed once among the positions. */
  lemma {:induction false} FermionsBelowCount(vertices: seq<Vertex>, k: nat, idx: nat)
    requires k <= |vertices|
    ensures multiset(FermionsBelow(vertices, k))[idx] == if idx < k && IsFermionVertex(vertices[idx]) then 1 else 0
  {
    if k > 0 {
      FermionsBelowCount(vertices, k - 1, idx);
      var prev := FermionsBelow(vertices, k - 1);
      var add: seq<nat> := if IsFermionVertex(vertices[k - 1]) then [k - 1] else [];
      assert FermionsBelow(vertices, k) == prev + add;
      assert multiset(prev + add) == multiset(prev) + multiset(add);
      assert multiset(add)[idx] == if idx == k - 1 && IsFermionVertex(vertices[k - 1]) then 1 else 0;
    }
  }

  /** Every fermion vertex lies on exactly one line, once, and no other vertex lies
      on any; the line lengths add up to the number of fermion vertices. */
  lemma EveryFermionOnce(vertices: seq<Vertex>, idx: nat)
    requires Group(vertices, |vertices|).Success?
    ensures var ls := Group(vertices, |vertices|).value.lines;
      multiset(Flatten(ls))[idx] == if idx < |vertices| && IsFermionVertex(vertices[idx]) then 1 else 0
    ensures |Flatten(Group(vertices, |vertices|).value.lines)| == |FermionsBelow(vertices, |vertices|)|
  {
    GroupPartition(vertices, |vertices|);
    FermionsBelowCount(vertices, |vertices|, idx);
    var ls := Group(vertices, |vertices|).value.lines;
    assert |multiset(Flatten(ls))| == |multiset(FermionsBelow(vertices, |vertices|))|;
  }

  /** With no touching line, the merge appends `[v]` and keeps every line: exactly
      the untouched lines followed by the new one. */
  lemma {:induction false} NoMatchAppends(vertices: seq<Vertex>, ls: seq<Line>, sv: set<string>)
    requires AllInRange(ls, |vertices|) && |Matching(vertices, ls, sv)| == 0
    ensures Untouched(vertices, ls, sv) == ls
  {
    if |ls| > 0 {
      NoMatchAppends(vertices, ls[..|ls| - 1], sv);
      assert ls == ls[..|ls| - 1] + [ls[|ls| - 1]];
    }
  }

  /** Whether the vertex `vl` touches the set: some field of it lies in `sv`. */
  method MeetsSet(vl: Vertex, sv: set<string>) returns (b: bool)
    ensures b == Meets(vl, sv)
  {
    b := exists f :: 0 <= f < |vl.fields| && vl.fields[f] in sv;
  }

  /** The inner scan over one line: does any of its vertices touch the set? */
  method LineTouches(vertices: seq<Vertex>, line: Line, sv: set<string>) returns (b: bool)
    requires InRange(line, |vertices|)
    ensures b == Touches(vertices, line, sv)
  {
    b := false;
    for k := 0 to |line|
      invariant !b && forall j :: 0 <= j < k ==> !Meets(vertices[line[j]], sv)
    {
      var m := MeetsSet(vertices[line[k]], sv);
      if m {
        return true;
      }
    }
  }

  /** The merge of lines 59-83, as the script runs it: collect the touching lines,
      glue them behind the vertex, and put the result in their place at the end. */
  method MergeLines(vertices: seq<Vertex>, ls: seq<Line>, sv: set<string>, idx: nat) returns (r: seq<Line>)
    requires idx < |vertices| && AllInRange(ls, idx)
    ensures r == Merge(vertices, ls, sv, idx)
  {
    AllInRangeWiden(ls, idx, |vertices|);
    var found := false;
    var matches: seq<Line> := [];
    var kept: seq<Line> := [];
    for i := 0 to |ls|
      invariant matches == Matching(vertices, ls[..i], sv)
      invariant kept == Untouched(vertices, ls[..i], sv)
      invariant found <==> |matches| > 0
    {
      var pre := ls[..i + 1];
      assert pre[..i] == ls[..i] && pre[i] == ls[i];
      var t := LineTouches(vertices, ls[i], sv);
      if t {
        found := true;
        matches := matches + [ls[i]];
      } else {
        kept := kept + [ls[i]];
      }
    }
    assert ls[..|ls|] == ls;
    if found {
      var merged: Line := [idx];
      for i := 0 to |matches|
        invariant merged == [idx] + Flatten(matches[..i])
      {
        assert matches[..i + 1][..i] == matches[..i];
        merged := merged + matches[i];
      }
      assert matches[..|matches|] == matches;
      r := kept + [merged];
    } else {
      r := ls + [[idx]];
    }
  }

  /** One pass of the grouping loop, as the script runs it. */
  method GroupOne(vertices: seq<Vertex>, g: Grouping, idx: nat) returns (r: Result<Grouping>)
    requires idx < |vertices| && AllInRange(g.lines, idx)
    ensures r == GroupStep(vertices, g, idx)
  {
    var v := vertices[idx];
    if !IsFermionVertex(v) {
      return Success(g.(nonFermion := g.nonFermion + [idx]));
    }
    if |g.lines| == 0 {
      return Success(g.(lines := [[idx]]));
    }
    var c := ConnectorSet(v);
    if c.Failure? {
      return Failure(c.error);
    }
    var ls := MergeLines(vertices, g.lines, c.value, idx);
    r := Success(g.(lines := ls));
  }

  /** The grouping loop of lines 51-85. */
  method GroupVertices(vertices: seq<Vertex>) returns (r: Result<Grouping>)
    ensures r == Group(vertices, |vertices|)
  {
    var g := Grouping([], []);
    for idx := 0 to |vertices|
      invariant Group(vertices, idx) == Success(g)
    {
      GroupUnfold(vertices, idx, g);
      var step := GroupOne(vertices, g, idx);
      if step.Failure? {
        GroupStepFails(vertices, idx, g);
        return step;
      }
      g := step.value;
    }
    r := Success(g);
  }

  /** Once the grouping fails on a prefix, it fails the same way on every longer one. */
  lemma {:induction false} GroupPrefixFails(vertices: seq<Vertex>, k: nat, n: nat)
    requires k <= n <= |vertices| && Group(vertices, k).Failure?
    ensures Group(vertices, n) == Group(vertices, k)
    decreases n - k
  {
    if k < n {
      GroupFailureStays(vertices, k + 1);
      GroupPrefixFails(vertices, k + 1, n);
    }
  }

  lemma GroupUnfold(vertices: seq<Vertex>, idx: nat, g: Grouping)
    requires idx < |vertices| && Group(vertices, idx) == Success(g)
    ensures AllInRange(g.lines, idx) && Group(vertices, idx + 1) == GroupStep(vertices, g, idx)
  {
  }

  /** A pass that fails ends the whole grouping with its error. */
  lemma GroupStepFails(vertices: seq<Vertex>, idx: nat, g: Grouping)
    requires idx < |vertices| && Group(vertices, idx) == Success(g)
    requires AllInRange(g.lines, idx) && GroupStep(vertices, g, idx).Failure?
    ensures Group(vertices, |vertices|) == GroupStep(vertices, g, idx)
  {
    GroupPrefixFails(vertices, idx + 1, |vertices|);
  }

  lemma GroupFailureStays(vertices: seq<Vertex>, n: nat)
    requires 0 < n <= |vertices| && Group(vertices, n - 1).Failure?
    ensures Group(vertices, n) == Group(vertices, n - 1)
  {
  }

  // ---------------------------------------------------------------------------
  // Walking the fermion lines (lines 89-111)

  /** `int(vv.fields[1]) + 1 == int(v.fields[0])`: `vv` is the vertex that comes after
      `v` on its line. The left operand is evaluated first. */
  function Linked(vv: Vertex, v: Vertex): (r: Result<bool>)
    ensures r.Success? <==> |vv.fields| >= 2 && ParseInt(vv.fields[1]).Some? &&
                            |v.fields| >= 1 && ParseInt(v.fields[0]).Some?
    ensures r.Success? ==> (r.value <==> ParseInt(vv.fields[1]).value + 1 == ParseInt(v.fields[0]).value)
    ensures |vv.fields| >= 2 && ParseInt(vv.fields[1]).None? ==> r == Failure(ValueError(vv.fields[1]))
  {
    if |vv.fields| < 2 then Failure(IndexError)
    else match ParseInt(vv.fields[1])
      case None => Failure(ValueError(vv.fields[1]))
      case Some(b) =>
        if |v.fields| == 0 then Failure(IndexError)
        else match ParseInt(v.fields[0])
          case None => Failure(ValueError(v.fields[0]))
          case Some(a) => Success(b + 1 == a)
  }

  /** The scan of lines 107-111 from position `j` of the remaining vertices: the
      position of the first one linked to `cur`, or `None`. */
  function FindFrom(vertices: seq<Vertex>, cur: nat, rest: Line, j: nat): (r: Result<Option<nat>>)
    requires cur < |vertices| && InRange(rest, |vertices|) && j <= |rest|
    ensures r.Success? && r.value.Some? ==>
      j <= r.value.value < |rest| && Linked(vertices[rest[r.value.value]], vertices[cur]) == Success(true)
    ensures r.Success? ==> forall i :: j <= i < (if r.value.Some? then r.value.value else |rest|) ==>
      Linked(vertices[rest[i]], vertices[cur]) == Success(false)
    ensures r.Failure? ==> exists i :: j <= i < |rest| && Linked(vertices[rest[i]], vertices[cur]) == Failure(r.error)
    decreases |rest| - j
  {
    if j == |rest| then Success(None)
    else
      var linked :- Linked(vertices[rest[j]], vertices[cur]);
      if linked then Success(Some(j)) else FindFrom(vertices, cur, rest, j + 1)
  }

  /** `s` with the element at position `j` removed: `list.remove` of that element. */
  function Without(s: Line, j: nat): (r: Line)
    requires j < |s|
    ensures |r| == |s| - 1
    ensures forall n :: InRange(s, n) ==> InRange(r, n)
  {
    WithoutAt(s, j);
    s[..j] + s[j + 1..]
  }

  /** The elements before `j` stay where they are; those after it move down by one. */
  lemma WithoutAt(s: Line, j: nat)
    requires j < |s|
    ensures forall k :: 0 <= k < |s| - 1 ==> (s[..j] + s[j + 1..])[k] == if k < j then s[k] else s[k + 1]
  {
  }

  lemma WithoutMultiset(s: Line, j: nat)
    requires j < |s|
    ensures multiset(Without(s, j)) + multiset{s[j]} == multiset(s)
  {
    assert s == s[..j] + [s[j]] + s[j + 1..];
  }

  /** `*` + `output` + `*` + `writenextprop` for one vertex of line number `count`. */
  function Emit(v: Vertex, count: int): Result<string>
  {
    var o :- OutputText(v, count);
    var n :- NextPropText(v, count);
    Success("*" + o + "*" + n)
  }

  /** What a walk writes and the positions it visits, in order. */
  datatype Walked = Walked(text: string, order: seq<nat>)

  /** What `Emit` gives for every vertex of the diagram, by position. */
  function Emits(vertices: seq<Vertex>, count: int): (r: seq<Result<string>>)
    ensures |r| == |vertices|
  {
    seq(|vertices|, k requires 0 <= k < |vertices| => Emit(vertices[k], count))
  }

  lemma EmitsAt(vertices: seq<Vertex>, count: int, k: nat)
    requires k < |vertices|
    ensures Emits(vertices, count)[k] == Emit(vertices[k], count)
  {
  }

  /** `steps` passes of the loop of lines 100-111 from the vertex at `cur`, with
      `rest` the vertices not yet taken and `emits` what writing each vertex gives:
      each pass writes the current vertex and then moves to its successor, taking
      it out of `rest`; with no successor the same vertex is written again. */
  function Walk(vertices: seq<Vertex>, emits: seq<Result<string>>, cur: nat, rest: Line, steps: nat): (r: Result<Walked>)
    requires |emits| == |vertices| && cur < |vertices| && InRange(rest, |vertices|)
    ensures r.Success? ==> |r.value.order| == steps
    ensures r.Success? && steps > 0 ==> r.value.order[0] == cur
    decreases steps
  {
    if steps == 0 then Success(Walked("", []))
    else
      var e :- emits[cur];
      var s :- FindFrom(vertices, cur, rest, 0);
      var w :- match s
        case None => Walk(vertices, emits, cur, rest, steps - 1)
        case Some(j) => Walk(vertices, emits, rest[j], Without(rest, j), steps - 1);
      Success(Walked(e + w.text, [cur] + w.order))
  }

  /** A whole line of number `count`: the walk starts at its first vertex and makes
      one pass per vertex; an empty line fails at `line[0]`. */
  function WalkLine(vertices: seq<Vertex>, line: Line, count: int): (r: Result<Walked>)
    requires InRange(line, |vertices|)
    ensures r.Success? ==> |line| > 0 && |r.value.order| == |line| && r.value.order[0] == line[0]
  {
    if |line| == 0 then Failure(IndexError)
    else Walk(vertices, Emits(vertices, count), line[0], line[1..], |line|)
  }

  /** The texts in `emits` for the positions in `order`, concatenated. */
  function EmitAll(emits: seq<Result<string>>, order: seq<nat>): Result<string>
    requires InRange(order, |emits|)
  {
    if |order| == 0 then Success("")
    else
      var e :- emits[order[0]];
      var t :- EmitAll(emits, order[1..]);
      Success(e + t)
  }

  /** The positions a walk visits lie among the vertices. */
  lemma {:induction false} WalkInRange(vertices: seq<Vertex>, emits: seq<Result<string>>, cur: nat, rest: Line, steps: nat)
    requires |emits| == |vertices| && cur < |vertices| && InRange(rest, |vertices|)
    requires Walk(vertices, emits, cur, rest, steps).Success?
    ensures InRange(Walk(vertices, emits, cur, rest, steps).value.order, |vertices|)
    decreases steps
  {
    if steps > 0 {
      var next, rest' := WalkNext(vertices, emits, cur, rest, steps);
      WalkInRange(vertices, emits, next, rest', steps - 1);
      InRangeCons(cur, Walk(vertices, emits, next, rest', steps - 1).value.order, |vertices|);
    }
  }

  lemma InRangeCons(cur: nat, order: seq<nat>, n: nat)
    requires cur < n && InRange(order, n)
    ensures InRange([cur] + order, n)
  {
    assert forall k :: 0 < k < |[cur] + order| ==> ([cur] + order)[k] == order[k - 1];
  }

  /** A walk writes, for every position it visits, that vertex's text. */
  lemma {:induction false} WalkEmitsVisited(vertices: seq<Vertex>, emits: seq<Result<string>>, cur: nat, rest: Line, steps: nat)
    requires |emits| == |vertices| && cur < |vertices| && InRange(rest, |vertices|)
    requires Walk(vertices, emits, cur, rest, steps).Success?
    ensures InRange(Walk(vertices, emits, cur, rest, steps).value.order, |vertices|)
    ensures EmitAll(emits, Walk(vertices, emits, cur, rest, steps).value.order)
         == Success(Walk(vertices, emits, cur, rest, steps).value.text)
    decreases steps
  {
    WalkInRange(vertices, emits, cur, rest, steps);
    if steps > 0 {
      var next, rest' := WalkNext(vertices, emits, cur, rest, steps);
      WalkEmitsVisited(vertices, emits, next, rest', steps - 1);
      var o := Walk(vertices, emits, cur, rest, steps).value.order;
      assert o[0] == cur && o[1..] == Walk(vertices, emits, next, rest', steps - 1).value.order;
    }
  }

  /** A line's walk writes, for every vertex it visits, `*`, its factor, `*` and the
      propagator after it, all tagged with the line number. */
  lemma WalkLineEmits(vertices: seq<Vertex>, line: Line, count: int)
    requires InRange(line, |vertices|) && WalkLine(vertices, line, count).Success?
    ensures InRange(WalkLine(vertices, line, count).value.order, |vertices|)
    ensures EmitAll(Emits(vertices, count), WalkLine(vertices, line, count).value.order)
         == Success(WalkLine(vertices, line, count).value.text)
  {
    WalkEmitsVisited(vertices, Emits(vertices, count), line[0], line[1..], |line|);
  }

  /** Every vertex a walk moves to comes after the one before it: either its
      `fields[1] + 1` is the previous vertex's `fields[0]`, or it is the previous
      vertex again because no remaining vertex qualified. */
  lemma {:induction false} WalkFollowsLinks(vertices: seq<Vertex>, emits: seq<Result<string>>, cur: nat, rest: Line, steps: nat, i: nat)
    requires |emits| == |vertices| && cur < |vertices| && InRange(rest, |vertices|)
    requires Walk(vertices, emits, cur, rest, steps).Success?
    requires 0 < i < steps
    ensures var o := Walk(vertices, emits, cur, rest, steps).value.order;
      o[i - 1] < |vertices| && o[i] < |vertices| &&
      (o[i] == o[i - 1] || Linked(vertices[o[i]], vertices[o[i - 1]]) == Success(true))
    decreases steps
  {
    var next, rest' := WalkNext(vertices, emits, cur, rest, steps);
    var o := Walk(vertices, emits, cur, rest, steps).value.order;
    var o' := Walk(vertices, emits, next, rest', steps - 1).value.order;
    assert o[i] == o'[i - 1] && o[i - 1] == ([cur] + o')[i - 1];
    if i > 1 {
      WalkFollowsLinks(vertices, emits, next, rest', steps - 1, i - 1);
      assert o[i - 1] == o'[i - 2];
    }
  }

  /** The first pass of a walk: the vertex it moves to, the vertices left after it,
      and the rest of the walk from there. */
  lemma WalkNext(vertices: seq<Vertex>, emits: seq<Result<string>>, cur: nat, rest: Line, steps: nat)
    returns (next: nat, rest': Line)
    requires |emits| == |vertices| && cur < |vertices| && InRange(rest, |vertices|) && steps > 0
    requires Walk(vertices, emits, cur, rest, steps).Success?
    ensures next < |vertices| && InRange(rest', |vertices|)
    ensures next == cur || Linked(vertices[next], vertices[cur]) == Success(true)
    ensures Walk(vertices, emits, next, rest', steps - 1).Success?
    ensures Walk(vertices, emits, cur, rest, steps).value.order
         == [cur] + Walk(vertices, emits, next, rest', steps - 1).value.order
    ensures emits[cur].Success? && Walk(vertices, emits, cur, rest, steps).value.text
         == emits[cur].value + Walk(vertices, emits, next, rest', steps - 1).value.text
  {
    match FindFrom(vertices, cur, rest, 0).value
    case None =>
      next, rest' := cur, rest;
    case Some(j) =>
      next, rest' := rest[j], Without(rest, j);
  }

  predicate NoRepeat(o: seq<nat>)
  {
    forall i :: 0 < i < |o| ==> o[i] != o[i - 1]
  }

  /** A walk that never writes the same vertex twice in a row visits only vertices
      of its line, each at most once; with one pass per vertex it visits every one. */
  lemma {:induction false} WalkVisitsLine(vertices: seq<Vertex>, emits: seq<Result<string>>, cur: nat, rest: Line, steps: nat)
    requires |emits| == |vertices| && cur < |vertices| && InRange(rest, |vertices|)
    requires Walk(vertices, emits, cur, rest, steps).Success?
    requires NoRepeat(Walk(vertices, emits, cur, rest, steps).value.order)
    requires steps <= |rest| + 1
    ensures multiset(Walk(vertices, emits, cur, rest, steps).value.order) <= multiset([cur] + rest)
    ensures steps == |rest| + 1 ==>
      multiset(Walk(vertices, emits, cur, rest, steps).value.order) == multiset([cur] + rest)
    decreases steps
  {
    if steps == 1 {
      WalkOnePass(vertices, emits, cur, rest);
    } else if steps > 1 {
      var j := SuccessorTaken(vertices, emits, cur, rest, steps);
      var rest' := Without(rest, j);
      var o' := Walk(vertices, emits, rest[j], rest', steps - 1).value.order;
      NoRepeatTail([cur], o');
      WalkVisitsLine(vertices, emits, rest[j], rest', steps - 1);
      VisitMultiset(cur, rest, j, o');
    }
  }

  lemma WalkOnePass(vertices: seq<Vertex>, emits: seq<Result<string>>, cur: nat, rest: Line)
    requires |emits| == |vertices| && cur < |vertices| && InRange(rest, |vertices|)
    requires Walk(vertices, emits, cur, rest, 1).Success?
    ensures multiset(Walk(vertices, emits, cur, rest, 1).value.order) <= multiset([cur] + rest)
    ensures |rest| == 0 ==> multiset(Walk(vertices, emits, cur, rest, 1).value.order) == multiset([cur] + rest)
  {
    var head: seq<nat> := [cur];
    assert multiset([cur] + rest) == multiset(head) + multiset(rest);
    assert Walk(vertices, emits, cur, rest, 1).value.order == head;
  }

  /** A walk that does not repeat its first vertex moves on to a vertex it takes out
      of the remaining ones. */
  lemma SuccessorTaken(vertices: seq<Vertex>, emits: seq<Result<string>>, cur: nat, rest: Line, steps: nat)
    returns (j: nat)
    requires |emits| == |vertices| && cur < |vertices| && InRange(rest, |vertices|) && steps > 1
    requires Walk(vertices, emits, cur, rest, steps).Success?
    requires NoRepeat(Walk(vertices, emits, cur, rest, steps).value.order)
    ensures j < |rest| && Walk(vertices, emits, rest[j], Without(rest, j), steps - 1).Success?
    ensures Walk(vertices, emits, cur, rest, steps).value.order
         == [cur] + Walk(vertices, emits, rest[j], Without(rest, j), steps - 1).value.order
  {
    var o := Walk(vertices, emits, cur, rest, steps).value.order;
    assert o[1] != o[0];
    RepeatWithoutSuccessor(vertices, emits, cur, rest, steps);
    j := FindFrom(vertices, cur, rest, 0).value.value;
  }

  lemma VisitMultiset(cur: nat, rest: Line, j: nat, tail: seq<nat>)
    requires j < |rest| && multiset(tail) <= multiset([rest[j]] + Without(rest, j))
    ensures multiset([cur] + tail) <= multiset([cur] + rest)
    ensures multiset(tail) == multiset([rest[j]] + Without(rest, j)) ==> multiset([cur] + tail) == multiset([cur] + rest)
  {
    WithoutMultiset(rest, j);
    assert multiset([rest[j]] + Without(rest, j)) == multiset(rest);
  }

  /** With no successor, the walk writes the current vertex again. */
  lemma RepeatWithoutSuccessor(vertices: seq<Vertex>, emits: seq<Result<string>>, cur: nat, rest: Line, steps: nat)
    requires |emits| == |vertices| && cur < |vertices| && InRange(rest, |vertices|) && steps > 1
    requires Walk(vertices, emits, cur, rest, steps).Success?
    ensures FindFrom(vertices, cur, rest, 0).Success?
    ensures FindFrom(vertices, cur, rest, 0).value.None? ==> Walk(vertices, emits, cur, rest, steps).value.order[1] == cur
  {
    if FindFrom(vertices, cur, rest, 0).value.None? {
      var w' := Walk(vertices, emits, cur, rest, steps - 1).value;
      assert Walk(vertices, emits, cur, rest, steps).value.order == [cur] + w'.order;
    }
  }

  lemma NoRepeatTail(a: seq<nat>, b: seq<nat>)
    requires NoRepeat(a + b)
    ensures NoRepeat(b)
  {
    assert forall i :: 0 <= i < |b| ==> b[i] == (a + b)[|a| + i];
  }

  /** The scan of lines 107-111, as the script runs it. */
  method FindSuccessor(vertices: seq<Vertex>, cur: nat, rest: Line) returns (r: Result<Option<nat>>)
    requires cur < |vertices| && InRange(rest, |vertices|)
    ensures r == FindFrom(vertices, cur, rest, 0)
  {
    var j := 0;
    while j < |rest|
      invariant j <= |rest|
      invariant FindFrom(vertices, cur, rest, 0) == FindFrom(vertices, cur, rest, j)
    {
      var linked := Linked(vertices[rest[j]], vertices[cur]);
      if linked.Failure? {
        return Failure(linked.error);
      }
      if linked.value {
        return Success(Some(j));
      }
      j := j + 1;
    }
    r := Success(None);
  }

  /** What the rest of a walk adds to the text and positions gathered so far. */
  function After(text: string, order: seq<nat>, r: Result<Walked>): Result<Walked>
  {
    match r
    case Failure(e) => Failure(e)
    case Success(w) => Success(Walked(text + w.text, order + w.order))
  }

  /** One pass of the walk: whatever follows it is added after its own part. */
  lemma WalkPass(vertices: seq<Vertex>, emits: seq<Result<string>>, cur: nat, rest: Line, steps: nat,
                 text: string, order: seq<nat>, e: string, next: nat, rest': Line)
    requires |emits| == |vertices| && cur < |vertices| && InRange(rest, |vertices|) && steps > 0
    requires emits[cur] == Success(e)
    requires FindFrom(vertices, cur, rest, 0).Success?
    requires next < |vertices| && InRange(rest', |vertices|)
    requires match FindFrom(vertices, cur, rest, 0).value
      case None => next == cur && rest' == rest
      case Some(j) => next == rest[j] && rest' == Without(rest, j)
    ensures After(text, order, Walk(vertices, emits, cur, rest, steps))
         == After(text + e, order + [cur], Walk(vertices, emits, next, rest', steps - 1))
  {
    var tail := Walk(vertices, emits, next, rest', steps - 1);
    if tail.Success? {
      assert text + (e + tail.value.text) == text + e + tail.value.text;
      assert order + ([cur] + tail.value.order) == order + [cur] + tail.value.order;
    }
  }

  /** One vertex written as the loop writes it, by the two output methods. */
  method EmitOne(v: Vertex, count: int) returns (r: Result<string>)
    ensures r == Emit(v, count)
  {
    var o := Output(v, count);
    if o.Failure? {
      return Failure(o.error);
    }
    var n := WriteNextProp(v, count);
    if n.Failure? {
      return Failure(n.error);
    }
    r := Success("*" + o.value + "*" + n.value);
  }

  /** One pass of the loop of lines 100-111: write the current vertex, then look for
      its successor and take it out of the remaining vertices. */
  method WalkStep(vertices: seq<Vertex>, ghost emits: seq<Result<string>>, cur: nat, rest: Line, count: int,
                  ghost steps: nat, ghost text: string, ghost order: seq<nat>)
    returns (r: Result<(string, nat, Line)>)
    requires emits == Emits(vertices, count) && cur < |vertices| && InRange(rest, |vertices|) && steps > 0
    ensures r.Failure? ==> After(text, order, Walk(vertices, emits, cur, rest, steps)) == Failure(r.error)
    ensures r.Success? ==> r.value.1 < |vertices| && InRange(r.value.2, |vertices|)
    ensures r.Success? ==>
      After(text, order, Walk(vertices, emits, cur, rest, steps))
      == After(text + r.value.0, order + [cur], Walk(vertices, emits, r.value.1, r.value.2, steps - 1))
  {
    var e := EmitOne(vertices[cur], count);
    EmitsAt(vertices, count, cur);
    if e.Failure? {
      return Failure(e.error);
    }
    var s := FindSuccessor(vertices, cur, rest);
    if s.Failure? {
      return Failure(s.error);
    }
    var next := cur;
    var rest' := rest;
    if s.value.Some? {
      next := rest[s.value.value];
      rest' := Without(rest, s.value.value);
    }
    WalkPass(vertices, emits, cur, rest, steps, text, order, e.value, next, rest');
    r := Success((e.value, next, rest'));
  }

  /** The loop of lines 96-111 for one line, as the script runs it: `list.remove` of
      the first vertex and of each successor found. */
  method WalkLineLoop(vertices: seq<Vertex>, line: Line, count: int) returns (r: Result<Walked>)
    requires InRange(line, |vertices|)
    ensures r == WalkLine(vertices, line, count)
  {
    if |line| == 0 {
      return Failure(IndexError);
    }
    ghost var emits := Emits(vertices, count);
    ghost var goal := WalkLine(vertices, line, count);
    var nv := |line|;
    var cur: nat := line[0];
    var rest := line[1..];
    var text := "";
    var order: seq<nat> := [];
    AfterNothing(Walk(vertices, emits, cur, rest, nv));
    for i := 0 to nv
      invariant cur < |vertices| && InRange(rest, |vertices|)
      invariant goal == After(text, order, Walk(vertices, emits, cur, rest, nv - i))
    {
      var step := WalkStep(vertices, emits, cur, rest, count, nv - i, text, order);
      if step.Failure? {
        return Failure(step.error);
      }
      text := text + step.value.0;
      order := order + [cur];
      cur := step.value.1;
      rest := step.value.2;
    }
    AfterDone(text, order, Walk(vertices, emits, cur, rest, 0));
    r := Success(Walked(text, order));
  }

  lemma AfterDone(text: string, order: seq<nat>, r: Result<Walked>)
    requires r == Success(Walked("", []))
    ensures After(text, order, r) == Success(Walked(text, order))
  {
    assert text + "" == text && order + [] == order;
  }

  lemma AfterNothing(r: Result<Walked>)
    ensures After("", [], r) == r
  {
    if r.Success? {
      assert "" + r.value.text == r.value.text && [] + r.value.order == r.value.order;
    }
  }

  /** Lines 91-111 for all lines, numbered from 1: the text written so far. */
  function WalkLines(vertices: seq<Vertex>, ls: seq<Line>): (r: Result<string>)
    requires AllInRange(ls, |vertices|)
  {
    if |ls| == 0 then Success("")
    else
      var t :- WalkLines(vertices, ls[..|ls| - 1]);
      var w :- WalkLine(vertices, ls[|ls| - 1], |ls|);
      Success(t + w.text)
  }

  /** Once the walk fails on a prefix of the lines, it fails the same way on all. */
  lemma {:induction false} WalkLinesPrefixFails(vertices: seq<Vertex>, ls: seq<Line>, k: nat)
    requires AllInRange(ls, |vertices|) && k <= |ls| && WalkLines(vertices, ls[..k]).Failure?
    ensures WalkLines(vertices, ls) == WalkLines(vertices, ls[..k])
    decreases |ls| - k
  {
    if k < |ls| {
      WalkLinesFailureStays(vertices, ls[..k + 1], ls[..k]);
      WalkLinesPrefixFails(vertices, ls, k + 1);
    } else {
      assert ls[..k] == ls;
    }
  }

  lemma WalkLinesFailureStays(vertices: seq<Vertex>, ls: seq<Line>, init: seq<Line>)
    requires AllInRange(ls, |vertices|) && |ls| > 0 && init == ls[..|ls| - 1]
    requires WalkLines(vertices, init).Failure?
    ensures WalkLines(vertices, ls) == WalkLines(vertices, init)
  {
  }

  method WalkAll(vertices: seq<Vertex>, ls: seq<Line>) returns (r: Result<string>)
    requires AllInRange(ls, |vertices|)
    ensures r == WalkLines(vertices, ls)
  {
    var text := "";
    for k := 0 to |ls|
      invariant WalkLines(vertices, ls[..k]) == Success(text)
    {
      var w := WalkLineLoop(vertices, ls[k], k + 1);
      assert ls[..k + 1][..k] == ls[..k];
      if w.Failure? {
        WalkLinesPrefixFails(vertices, ls, k + 1);
        return Failure(w.error);
      }
      text := text + w.value.text;
    }
    assert ls[..|ls|] == ls;
    r := Success(text);
  }

  // ---------------------------------------------------------------------------
  // The other vertices and the propagators (lines 113-125)

  lemma {:induction false} OthersBelowInRange(vertices: seq<Vertex>, k: nat)
    requires k <= |vertices|
    ensures InRange(OthersBelow(vertices, k), k)
  {
    if k > 0 {
      OthersBelowInRange(vertices, k - 1);
    }
  }

  /** What `output(file)` gives for every vertex, by position, with the default line
      number 1. */
  function Outputs(vertices: seq<Vertex>): (r: seq<Result<string>>)
    ensures |r| == |vertices| && forall k :: 0 <= k < |r| ==> r[k] == OutputText(vertices[k], 1)
  {
    seq(|vertices|, k requires 0 <= k < |vertices| => OutputText(vertices[k], 1))
  }

  /** Lines 113-115: `*` and the output of each listed vertex, in order; `outs` holds
      each vertex's output by position. */
  function Starred(outs: seq<Result<string>>, nf: seq<nat>): (r: Result<string>)
    requires InRange(nf, |outs|)
    ensures r.Success? ==> forall k :: 0 <= k < |nf| ==> outs[nf[k]].Success?
    ensures r.Success? ==> |r.value| >= |nf|
  {
    if |nf| == 0 then Success("")
    else
      var t :- Starred(outs, nf[..|nf| - 1]);
      var o :- outs[nf[|nf| - 1]];
      Success(t + "*" + o)
  }

  /** Once writing fails on a prefix of the list, it fails the same way on all of it. */
  lemma {:induction false} StarredPrefixFails(outs: seq<Result<string>>, nf: seq<nat>, k: nat)
    requires InRange(nf, |outs|) && k <= |nf| && Starred(outs, nf[..k]).Failure?
    ensures Starred(outs, nf) == Starred(outs, nf[..k])
    decreases |nf| - k
  {
    if k < |nf| {
      assert nf[..k + 1][..k] == nf[..k];
      StarredPrefixFails(outs, nf, k + 1);
    } else {
      assert nf[..k] == nf;
    }
  }

  /** The loop of lines 113-115, as the script runs it. */
  method WriteOthers(vertices: seq<Vertex>, nf: seq<nat>) returns (r: Result<string>)
    requires InRange(nf, |vertices|)
    ensures r == Starred(Outputs(vertices), nf)
  {
    ghost var outs := Outputs(vertices);
    var text := "";
    for k := 0 to |nf|
      invariant Starred(outs, nf[..k]) == Success(text)
    {
      assert nf[..k + 1][..k] == nf[..k];
      var o := Output(vertices[nf[k]], 1);
      if o.Failure? {
        StarredPrefixFails(outs, nf, k + 1);
        return Failure(o.error);
      }
      text := text + "*" + o.value;
    }
    assert nf[..|nf|] == nf;
    r := Success(text);
  }

  /** A propagator record: its `field`, `id` and `momentum` texts. */
  datatype PropagatorRecord = PropagatorRecord(field: string, id: string, momentum: string)

  /** The factor of a gluon propagator whose two Lorentz and colour indices are `a`
      and `b`. */
  function GluonFactor(momentum: string, a: string, b: string): string
  {
    "*(-i_)*D(" + momentum + ",0)*d_(mu" + a + ",mu" + b + ")*d_(b" + a + ",b" + b + ")"
  }

  /** Lines 121-125: a gluon propagator with id `n` joins the indices `2n` and
      `2n - 1`, a Higgs propagator writes its denominator, and any other propagator
      writes nothing. */
  function PropagatorFactor(p: PropagatorRecord): (r: Result<string>)
    ensures r.Failure? <==> p.field == "g" && ParseInt(p.id).None?
    ensures r.Failure? ==> r.error == ValueError(p.id)
    ensures p.field == "g" && r.Success? ==>
      r.value == GluonFactor(p.momentum, IntToString(2 * ParseInt(p.id).value), IntToString(2 * ParseInt(p.id).value - 1))
    ensures p.field != "g" && p.field != "H" ==> r == Success("")
  {
    if p.field == "g" then
      match ParseInt(p.id)
      case None => Failure(ValueError(p.id))
      case Some(n) => Success(GluonFactor(p.momentum, IntToString(2 * n), IntToString(2 * n - 1)))
    else if p.field == "H" then Success("*i_*D(" + p.momentum + ",mH)")
    else Success("")
  }

  /** The gluon factor lays open its first index. */
  lemma GluonFactorSlot(momentum: string, a: string, b: string)
    ensures GluonFactor(momentum, a, b) ==
      "*(-i_)*D(" + momentum + ",0)*d_(mu" + a + "," + ("mu" + b + ")*d_(b" + a + ",b" + b + ")")
  {
    assert ",mu" == "," + "mu";
  }

  /** The factor determines the gluon's id: two gluon propagators with the same
      momentum and different ids get different index pairs. */
  lemma GluonIdReadBack(p: PropagatorRecord, q: PropagatorRecord)
    requires p.field == "g" && q.field == "g" && p.momentum == q.momentum
    requires PropagatorFactor(p).Success? && PropagatorFactor(p) == PropagatorFactor(q)
    ensures ParseInt(p.id) == ParseInt(q.id)
  {
    var n := ParseInt(p.id).value;
    var m := ParseInt(q.id).value;
    GluonFactorInjective(p.momentum, n, m);
  }

  /** Different gluon ids give different factors. */
  lemma GluonFactorInjective(momentum: string, n: int, m: int)
    requires GluonFactor(momentum, IntToString(2 * n), IntToString(2 * n - 1)) ==
             GluonFactor(momentum, IntToString(2 * m), IntToString(2 * m - 1))
    ensures n == m
  {
    var a, b := IntToString(2 * n), IntToString(2 * n - 1);
    var a', b' := IntToString(2 * m), IntToString(2 * m - 1);
    GluonFactorSlot(momentum, a, b);
    GluonFactorSlot(momentum, a', b');
    IntTextNoComma(2 * n);
    IntTextNoComma(2 * m);
    GhtRules.CommaSlotFixed("*(-i_)*D(" + momentum + ",0)*d_(mu", a, "mu" + b + ")*d_(b" + a + ",b" + b + ")",
                            a', "mu" + b' + ")*d_(b" + a' + ",b" + b' + ")");
    ParseIntToString(2 * n);
    ParseIntToString(2 * m);
  }

  lemma IntTextNoComma(i: int)
    ensures NoneIn(IntToString(i), {','})
  {
    IntToStringChars(i);
    var t := IntToString(i);
    forall k | 0 <= k < |t| ensures t[k] != ',' { assert IsDigit(t[k]) || t[k] == '-'; }
  }

  /** Lines 119-125 over all propagators, in order. */
  function PropagatorsText(ps: seq<PropagatorRecord>): (r: Result<string>)
  {
    if |ps| == 0 then Success("")
    else
      var t :- PropagatorsText(ps[..|ps| - 1]);
      var f :- PropagatorFactor(ps[|ps| - 1]);
      Success(t + f)
  }

  /** The propagators fail exactly when one of their factors does. */
  lemma {:induction false} PropagatorsFailure(ps: seq<PropagatorRecord>)
    ensures PropagatorsText(ps).Failure? <==> exists k :: 0 <= k < |ps| && PropagatorFactor(ps[k]).Failure?
  {
    if |ps| > 0 {
      var q := ps[..|ps| - 1];
      PropagatorsFailure(q);
      if PropagatorsText(ps).Failure? {
        if PropagatorsText(q).Failure? {
          var k :| 0 <= k < |q| && PropagatorFactor(q[k]).Failure?;
          assert ps[k] == q[k];
        } else {
          assert PropagatorFactor(ps[|ps| - 1]).Failure?;
        }
      } else {
        forall k | 0 <= k < |ps| ensures PropagatorFactor(ps[k]).Success?
        {
          if k < |q| {
            assert ps[k] == q[k];
          }
        }
      }
    }
  }

  /** Propagators other than gluons and Higgs bosons add nothing. */
  lemma {:induction false} PropagatorsSkipOthers(ps: seq<PropagatorRecord>, p: PropagatorRecord)
    requires p.field != "g" && p.field != "H"
    ensures PropagatorsText(ps + [p]) == PropagatorsText(ps)
  {
    assert (ps + [p])[..|ps|] == ps;
    var t := PropagatorsText(ps);
    if t.Success? {
      assert t.value + "" == t.value;
    }
  }

  lemma {:induction false} PropagatorsPrefixFails(ps: seq<PropagatorRecord>, k: nat)
    requires k <= |ps| && PropagatorsText(ps[..k]).Failure?
    ensures PropagatorsText(ps) == PropagatorsText(ps[..k])
    decreases |ps| - k
  {
    if k < |ps| {
      assert ps[..k + 1][..k] == ps[..k];
      PropagatorsPrefixFails(ps, k + 1);
    } else {
      assert ps[..k] == ps;
    }
  }

  /** The loop of lines 119-125, as the script runs it. */
  method WritePropagators(ps: seq<PropagatorRecord>) returns (r: Result<string>)
    ensures r == PropagatorsText(ps)
  {
    var text := "";
    for k := 0 to |ps|
      invariant PropagatorsText(ps[..k]) == Success(text)
    {
      assert ps[..k + 1][..k] == ps[..k];
      var p := ps[k];
      var f: string;
      if p.field == "g" {
        var n := ParseInt(p.id);
        if n.None? {
          PropagatorsPrefixFails(ps, k + 1);
          return Failure(ValueError(p.id));
        }
        var i := 2 * n.value;
        f := GluonFactor(p.momentum, IntToString(i), IntToString(i - 1));
      } else if p.field == "H" {
        f := "*i_*D(" + p.momentum + ",mH)";
      } else {
        f := "";
      }
      text := text + f;
    }
    assert ps[..|ps|] == ps;
    r := Success(text);
  }

  // ---------------------------------------------------------------------------
  // The trace statements (lines 131-132)

  function TraceStatement(i: int): string
  {
    "Tracen," + IntToString(i) + ";"
  }

  /** One `Tracen` statement per line, numbered from 1, each on its own line. */
  function Traces(n: nat): string
  {
    if n == 0 then "" else Traces(n - 1) + TraceStatement(n) + "\n"
  }

  /** The statements `Tracen,1;` to `Tracen,n;`. */
  function TraceStatements(n: nat): (r: seq<string>)
    ensures |r| == n && forall i :: 0 <= i < n ==> r[i] == TraceStatement(i + 1)
  {
    seq(n, i => TraceStatement(i + 1))
  }

  lemma TraceStatementOneLine(i: int)
    ensures NoneIn(TraceStatement(i), {'\n'})
  {
    var d := IntToString(i);
    IntToStringChars(i);
    assert NoneIn(d, {'\n'});
    var t := "Tracen," + d;
    assert forall k :: 0 <= k < |t| ==> t[k] == if k < 7 then "Tracen,"[k] else d[k - 7];
    assert NoneIn(t, {'\n'});
    assert forall k :: 0 <= k < |t + ";"| ==> (t + ";")[k] == if k < |t| then t[k] else ';';
  }

  /** Each text followed by a newline, concatenated. */
  function Terminated(xs: seq<string>): string
  {
    if |xs| == 0 then "" else Terminated(xs[..|xs| - 1]) + xs[|xs| - 1] + "\n"
  }

  lemma {:induction false} TerminatedSplit(xs: seq<string>, s: string)
    requires forall k :: 0 <= k < |xs| ==> NoneIn(xs[k], {'\n'})
    ensures Split(Terminated(xs) + s, '\n') == xs + Split(s, '\n')
  {
    if |xs| > 0 {
      var init, x := xs[..|xs| - 1], xs[|xs| - 1];
      var s' := x + ['\n'] + s;
      TerminatedSplit(init, s');
      assert Terminated(xs) + s == Terminated(init) + s';
      SplitLineOff(x, s);
      assert init + [x] == xs;
      assert init + ([x] + Split(s, '\n')) == init + [x] + Split(s, '\n');
    } else {
      assert Terminated(xs) + s == s;
    }
  }

  lemma {:induction false} TracesTerminated(n: nat)
    ensures Traces(n) == Terminated(TraceStatements(n))
  {
    if n > 0 {
      TracesTerminated(n - 1);
      assert TraceStatements(n)[..n - 1] == TraceStatements(n - 1);
    }
  }

  /** A text with no newline, a newline, and more: the text is the first piece. */
  lemma SplitLineOff(st: string, s: string)
    requires NoneIn(st, {'\n'})
    ensures Split(st + ['\n'] + s, '\n') == [st] + Split(s, '\n')
  {
    SplitAnyAt(st, '\n', s, {'\n'});
    SplitAnyFree(st, {'\n'});
  }

  /** The trace text holds exactly `n` statements, `Tracen,1;` to `Tracen,n;`, each
      ended by a newline. */
  lemma TracesCount(n: nat)
    ensures Split(Traces(n), '\n') == TraceStatements(n) + [""]
    ensures |Split(Traces(n), '\n')| == n + 1
  {
    TracesTerminated(n);
    forall k | 0 <= k < n
      ensures NoneIn(TraceStatements(n)[k], {'\n'})
    {
      TraceStatementOneLine(k + 1);
    }
    TerminatedSplit(TraceStatements(n), "");
    assert Traces(n) + "" == Traces(n);
  }

  /** The loop of lines 131-132, as the script runs it. */
  method WriteTraces(n: nat) returns (r: string)
    ensures r == Traces(n)
  {
    r := "";
    for i := 1 to n + 1
      invariant r == Traces(i - 1)
    {
      TraceLine(r, i);
      r := r + "Tracen," + IntToString(i) + ";\n";
    }
  }

  lemma TraceLine(r: string, i: int)
    ensures r + "Tracen," + IntToString(i) + ";\n" == r + TraceStatement(i) + "\n"
  {
    var d := IntToString(i);
    assert ";\n" == ";" + "\n";
    assert r + "Tracen," + d + ";\n" == r + ("Tracen," + d + ";") + "\n";
  }

  // ---------------------------------------------------------------------------
  // One diagram (lines 46-132)

  /** The opening of the `Local Diagram` statement (lines 33-34). */
  const DiagramOpen := "Local Diagram = 1/NA*Delta(bext1,bext3)*(\n"

  /** The `Local Diagram` statement and the trace statements written for a diagram. */
  datatype Converted = Converted(expression: string, traces: string)

  /** The script for one diagram with sign and symmetry prefactor `prefactor`: the
      vertices are grouped, the prefactor written, every fermion line walked, the
      other vertices and the propagators written, the statement closed, and one
      trace statement written per fermion line. */
  function Convert(prefactor: string, vertices: seq<Vertex>, ps: seq<PropagatorRecord>): (r: Result<Converted>)
  {
    var g :- Group(vertices, |vertices|);
    var walks :- WalkLines(vertices, g.lines);
    GroupPartition(vertices, |vertices|);
    OthersBelowInRange(vertices, |vertices|);
    var others :- Starred(Outputs(vertices), g.nonFermion);
    var props :- PropagatorsText(ps);
    Success(Converted(DiagramOpen + prefactor + walks + others + props + ");\n", Traces(|g.lines|)))
  }

  /** A converted diagram has one trace statement per fermion line, numbered from 1,
      and every fermion vertex lies on exactly one of those lines. */
  lemma ConvertTraces(prefactor: string, vertices: seq<Vertex>, ps: seq<PropagatorRecord>)
    requires Convert(prefactor, vertices, ps).Success?
    ensures Group(vertices, |vertices|).Success?
    ensures Split(Convert(prefactor, vertices, ps).value.traces, '\n')
         == TraceStatements(|Group(vertices, |vertices|).value.lines|) + [""]
  {
    TracesCount(|Group(vertices, |vertices|).value.lines|);
  }

  /** The script for one diagram, as it runs. */
  method ConvertDiagram(prefactor: string, vertices: seq<Vertex>, ps: seq<PropagatorRecord>) returns (r: Result<Converted>)
    ensures r == Convert(prefactor, vertices, ps)
  {
    var g := GroupVertices(vertices);
    if g.Failure? {
      return Failure(g.error);
    }
    var walks := WalkAll(vertices, g.value.lines);
    if walks.Failure? {
      return Failure(walks.error);
    }
    GroupPartition(vertices, |vertices|);
    OthersBelowInRange(vertices, |vertices|);
    var others := WriteOthers(vertices, g.value.nonFermion);
    if others.Failure? {
      return Failure(others.error);
    }
    var props := WritePropagators(ps);
    if props.Failure? {
      return Failure(props.error);
    }
    var traces := WriteTraces(|g.value.lines|);
    r := Success(Converted(DiagramOpen + prefactor + walks.value + others.value + props.value + ");\n", traces));
  }
}
