/** Python's list and dict behaviour as the modelled code relies on it: duplicate-free
    lists, and dictionaries with string keys that remember insertion order. */
module Collections {
  import opened Base

  // ---------------------------------------------------------------------------
  // Names and their uniqueness

  /** No two positions hold the same element. */
  predicate Distinct<T(==)>(s: seq<T>)
  {
    forall i, j :: 0 <= i < j < |s| ==> s[i] != s[j]
  }

  function ToSet<T(==)>(s: seq<T>): set<T>
  {
    set x | x in s
  }

  lemma {:induction false} ToSetBound<T>(s: seq<T>)
    ensures |ToSet(s)| <= |s|
  {
    if |s| > 0 {
      ToSetBound(s[1..]);
      assert ToSet(s) == {s[0]} + ToSet(s[1..]);
    } else {
      assert ToSet(s) == {};
    }
  }

  /** `len(names) == len(set(names))` is exactly the absence of duplicates. */
  lemma {:induction false} DistinctIffSetSize<T>(s: seq<T>)
    ensures Distinct(s) <==> |ToSet(s)| == |s|
  {
    if |s| == 0 {
      assert ToSet(s) == {};
    } else {
      DistinctIffSetSize(s[1..]);
      assert ToSet(s) == {s[0]} + ToSet(s[1..]);
      if s[0] in s[1..] {
        ToSetBound(s[1..]);
        assert s[0] in ToSet(s[1..]);
        assert ToSet(s) == ToSet(s[1..]);
        var j :| 0 <= j < |s[1..]| && s[1..][j] == s[0];
        assert s[0] == s[j + 1];
        assert !Distinct(s);
      } else {
        assert s[0] !in ToSet(s[1..]);
        assert Distinct(s) <==> Distinct(s[1..]) by {
          if Distinct(s[1..]) {
            forall i, j | 0 <= i < j < |s|
              ensures s[i] != s[j]
            {
              if i > 0 {
                assert s[i] == s[1..][i - 1] && s[j] == s[1..][j - 1];
              } else {
                assert s[j] in s[1..];
              }
            }
          }
          if Distinct(s) {
            forall i, j | 0 <= i < j < |s[1..]|
              ensures s[1..][i] != s[1..][j]
            {
              assert s[1..][i] == s[i + 1] && s[1..][j] == s[j + 1];
            }
          }
        }
      }
    }
  }

  lemma DistinctAppend<T>(s: seq<T>, x: T)
    requires Distinct(s) && x !in s
    ensures Distinct(s + [x])
  {
    var t := s + [x];
    forall i, j | 0 <= i < j < |t|
      ensures t[i] != t[j]
    {
      if j == |s| {
        assert t[i] == s[i];
      }
    }
  }

  // ---------------------------------------------------------------------------
  // Dictionaries with string keys

  /** A dict: its (key, value) entries in insertion order. */
  type Dict<V> = seq<(string, V)>

  /** `list(d.keys())`. */
  function Keys<V>(d: Dict<V>): (r: seq<string>)
    ensures |r| == |d| && forall i :: 0 <= i < |d| ==> r[i] == d[i].0
  {
    seq(|d|, i requires 0 <= i < |d| => d[i].0)
  }

  /** `list(d.values())`. */
  function Values<V>(d: Dict<V>): (r: seq<V>)
    ensures |r| == |d| && forall i :: 0 <= i < |d| ==> r[i] == d[i].1
  {
    seq(|d|, i requires 0 <= i < |d| => d[i].1)
  }

  /** `d[k]`, or None when `k` is not a key. */
  function Get<V>(d: Dict<V>, k: string): (r: Option<V>)
    ensures r.Some? <==> k in Keys(d)
  {
    if |d| == 0 then None
    else if d[0].0 == k then Some(d[0].1)
    else
      assert Keys(d[1..]) == Keys(d)[1..];
      Get(d[1..], k)
  }

  /** `d[k] = v`: an existing key keeps its place and takes the new value, a new key
      goes last. */
  function Put<V>(d: Dict<V>, k: string, v: V): Dict<V>
  {
    if |d| == 0 then [(k, v)]
    else if d[0].0 == k then [(k, v)] + d[1..]
    else [d[0]] + Put(d[1..], k, v)
  }

  /** `d.update(e)`: the entries of `e` assigned one after the other. */
  function Update<V>(d: Dict<V>, e: Dict<V>): Dict<V>
    decreases |e|
  {
    if |e| == 0 then d else Update(Put(d, e[0].0, e[0].1), e[1..])
  }

  /** The value the last entry of `e` with key `k` carries, `o` if there is none. */
  function LastWith<V>(e: Dict<V>, k: string, o: Option<V>): Option<V>
    decreases |e|
  {
    if |e| == 0 then o else LastWith(e[1..], k, if e[0].0 == k then Some(e[0].1) else o)
  }

  /** After `d[k] = v`, `k` maps to `v` and every other key to what it mapped to. */
  lemma {:induction false} PutGet<V>(d: Dict<V>, k: string, v: V, k': string)
    ensures Get(Put(d, k, v), k') == if k' == k then Some(v) else Get(d, k')
  {
    if |d| > 0 && d[0].0 != k {
      PutGet(d[1..], k, v, k');
      assert Put(d, k, v)[1..] == Put(d[1..], k, v);
    }
  }

  lemma KeysAppend<V>(a: Dict<V>, b: Dict<V>)
    ensures Keys(a + b) == Keys(a) + Keys(b)
  {
  }

  /** `d[k] = v` keeps the order of the keys and adds `k` last when it is new. */
  lemma {:induction false} PutKeys<V>(d: Dict<V>, k: string, v: V)
    ensures Keys(Put(d, k, v)) == if k in Keys(d) then Keys(d) else Keys(d) + [k]
  {
    if |d| > 0 {
      assert d == [d[0]] + d[1..];
      KeysCons(d[0], d[1..]);
      if d[0].0 != k {
        PutKeys(d[1..], k, v);
        KeysCons(d[0], Put(d[1..], k, v));
        if k !in Keys(d) {
          assert [d[0].0] + (Keys(d[1..]) + [k]) == [d[0].0] + Keys(d[1..]) + [k];
        }
      } else {
        KeysCons((k, v), d[1..]);
      }
    }
  }

  lemma KeysCons<V>(x: (string, V), d: Dict<V>)
    ensures Keys([x] + d) == [x.0] + Keys(d)
  {
  }

  /** The keys of a dict stay distinct under assignment. */
  lemma PutDistinct<V>(d: Dict<V>, k: string, v: V)
    requires Distinct(Keys(d))
    ensures Distinct(Keys(Put(d, k, v)))
  {
    PutKeys(d, k, v);
    if k !in Keys(d) {
      DistinctAppend(Keys(d), k);
    }
  }

  /** After `d.update(e)`, a key takes the value of its last entry in `e`, and keeps
      its old value when `e` does not mention it. */
  lemma {:induction false} UpdateGet<V>(d: Dict<V>, e: Dict<V>, k: string)
    ensures Get(Update(d, e), k) == LastWith(e, k, Get(d, k))
    decreases |e|
  {
    if |e| > 0 {
      UpdateGet(Put(d, e[0].0, e[0].1), e[1..], k);
      PutGet(d, e[0].0, e[0].1, k);
    }
  }

  lemma {:induction false} UpdateDistinct<V>(d: Dict<V>, e: Dict<V>)
    requires Distinct(Keys(d))
    ensures Distinct(Keys(Update(d, e)))
    decreases |e|
  {
    if |e| > 0 {
      PutDistinct(d, e[0].0, e[0].1);
      UpdateDistinct(Put(d, e[0].0, e[0].1), e[1..]);
    }
  }

  /** The keys after `d.update(e)` are those of `d` and of `e`. */
  lemma {:induction false} UpdateKeys<V>(d: Dict<V>, e: Dict<V>, k: string)
    ensures k in Keys(Update(d, e)) <==> k in Keys(d) || k in Keys(e)
    decreases |e|
  {
    if |e| > 0 {
      UpdateKeys(Put(d, e[0].0, e[0].1), e[1..], k);
      PutKeys(d, e[0].0, e[0].1);
      assert Keys(e) == [e[0].0] + Keys(e[1..]);
    }
  }

  /** A dict has at most as many entries as were assigned into it. */
  lemma {:induction false} UpdateSize<V>(d: Dict<V>, e: Dict<V>)
    ensures |Update(d, e)| <= |d| + |e|
    decreases |e|
  {
    if |e| > 0 {
      PutKeys(d, e[0].0, e[0].1);
      UpdateSize(Put(d, e[0].0, e[0].1), e[1..]);
    }
  }

  /** Updating with one more entry is assigning it last. */
  lemma {:induction false} UpdateSnoc<V>(d: Dict<V>, e: Dict<V>, x: (string, V))
    ensures Update(d, e + [x]) == Put(Update(d, e), x.0, x.1)
    decreases |e|
  {
    if |e| == 0 {
      assert e + [x] == [x];
    } else {
      assert (e + [x])[1..] == e[1..] + [x];
      UpdateSnoc(Put(d, e[0].0, e[0].1), e[1..], x);
    }
  }

  /** A key no entry of `e` carries keeps the value `o`. */
  lemma {:induction false} LastWithAbsent<V>(e: Dict<V>, k: string, o: Option<V>)
    requires k !in Keys(e)
    ensures LastWith(e, k, o) == o
    decreases |e|
  {
    if |e| > 0 {
      assert Keys(e) == [e[0].0] + Keys(e[1..]);
      LastWithAbsent(e[1..], k, o);
    }
  }

  /** The last entry of `e` with key `k` decides its value. */
  lemma {:induction false} LastWithLast<V>(e: Dict<V>, k: string, o: Option<V>, j: nat)
    requires j < |e| && e[j].0 == k
    requires forall j' :: j < j' < |e| ==> e[j'].0 != k
    ensures LastWith(e, k, o) == Some(e[j].1)
    decreases |e|
  {
    var o' := if e[0].0 == k then Some(e[0].1) else o;
    if j == 0 {
      assert k !in Keys(e[1..]) by {
        forall i | 0 <= i < |e[1..]|
          ensures Keys(e[1..])[i] != k
        {
          assert e[1..][i] == e[i + 1];
        }
      }
      LastWithAbsent(e[1..], k, o');
    } else {
      forall j' | j - 1 < j' < |e[1..]|
        ensures e[1..][j'].0 != k
      {
        assert e[1..][j'] == e[j' + 1];
      }
      LastWithLast(e[1..], k, o', j - 1);
    }
  }

  /** With distinct keys in `e`, the last entry with key `k` is its only one. */
  lemma {:induction false} LastWithDistinct<V>(e: Dict<V>, k: string, o: Option<V>)
    requires Distinct(Keys(e))
    ensures LastWith(e, k, o) == if k in Keys(e) then Get(e, k) else o
    decreases |e|
  {
    if |e| > 0 {
      assert Keys(e) == [e[0].0] + Keys(e[1..]);
      assert Distinct(Keys(e[1..])) by {
        forall i, j | 0 <= i < j < |e[1..]|
          ensures Keys(e[1..])[i] != Keys(e[1..])[j]
        {
          assert Keys(e[1..])[i] == Keys(e)[i + 1] && Keys(e[1..])[j] == Keys(e)[j + 1];
        }
      }
      var o' := if e[0].0 == k then Some(e[0].1) else o;
      LastWithDistinct(e[1..], k, o');
      if e[0].0 == k {
        assert k !in Keys(e[1..]) by {
          forall i | 0 <= i < |Keys(e[1..])|
            ensures Keys(e[1..])[i] != k
          {
            assert Keys(e[1..])[i] == Keys(e)[i + 1];
          }
        }
      }
    }
  }

  // ---------------------------------------------------------------------------
  // A list comprehension whose element expression may raise

  /** `[f(x) for x in xs]`: the results in order, or the error of the first element
      for which `f` raises. */
  function MapResult<A, B>(xs: seq<A>, f: A --> Result<B>): (r: Result<seq<B>>)
    requires forall k :: 0 <= k < |xs| ==> f.requires(xs[k])
    ensures r.Success? <==> forall k :: 0 <= k < |xs| ==> f(xs[k]).Success?
    ensures r.Success? ==> |r.value| == |xs| && forall k :: 0 <= k < |xs| ==> f(xs[k]) == Success(r.value[k])
    ensures r.Failure? ==>
      exists k :: 0 <= k < |xs| && f(xs[k]) == Failure(r.error) && forall j :: 0 <= j < k ==> f(xs[j]).Success?
    decreases |xs|
  {
    if |xs| == 0 then Success([])
    else
      var init := MapResult(xs[..|xs| - 1], f);
      if init.Failure? then Failure(init.error)
      else
        var y := f(xs[|xs| - 1]);
        if y.Failure? then Failure(y.error) else Success(init.value + [y.value])
  }

  /** A comprehension over one more element extends the one over the shorter list. */
  lemma MapResultSnoc<A, B>(xs: seq<A>, f: A --> Result<B>, i: nat, ys: seq<B>)
    requires i < |xs| && forall k :: 0 <= k < |xs| ==> f.requires(xs[k])
    requires MapResult(xs[..i], f) == Success(ys) && f(xs[i]).Success?
    ensures MapResult(xs[..i + 1], f) == Success(ys + [f(xs[i]).value])
  {
    assert xs[..i + 1][..i] == xs[..i];
  }

  /** Once the comprehension over a prefix raises, the whole comprehension raises the
      same error. */
  lemma {:induction false} MapResultPrefixFails<A, B>(xs: seq<A>, f: A --> Result<B>, i: nat)
    requires i <= |xs| && forall k :: 0 <= k < |xs| ==> f.requires(xs[k])
    requires MapResult(xs[..i], f).Failure?
    ensures MapResult(xs, f) == MapResult(xs[..i], f)
    decreases |xs| - i
  {
    if i < |xs| {
      assert xs[..i + 1][..i] == xs[..i];
      MapResultPrefixFails(xs, f, i + 1);
    } else {
      assert xs[..i] == xs;
    }
  }

  /** The comprehension raises the error of its first failing element. */
  lemma MapResultFirstFailure<A, B>(xs: seq<A>, f: A --> Result<B>, k: nat)
    requires k < |xs| && forall i :: 0 <= i < |xs| ==> f.requires(xs[i])
    requires f(xs[k]).Failure? && forall j :: 0 <= j < k ==> f(xs[j]).Success?
    ensures MapResult(xs, f) == Failure(f(xs[k]).error)
  {
    assert xs[..k + 1][..k] == xs[..k];
    assert MapResult(xs[..k], f).Success?;
    MapResultPrefixFails(xs, f, k + 1);
  }
}
