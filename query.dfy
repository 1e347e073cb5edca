/**
  A URL query as the WHATWG URL Standard keeps it: an ordered list of
  (name, value) pairs. `GetParam` and `SetPairs` are URLSearchParams.get and
  URLSearchParams.set (section 6.2 of the URL Standard); `Field` is what
  Node's querystring.parse makes of one name (a string, or an array of
  strings when the name repeats). Percent-encoding is not modelled: names and
  values are the decoded strings.
 */
module Query {
  import opened Wrappers

  type Pair = (string, string)

  /** Number of pairs named n. */
  function Count(l: seq<Pair>, n: string): nat
  {
    if l == [] then 0 else (if l[0].0 == n then 1 else 0) + Count(l[1..], n)
  }

  /** URLSearchParams.get: the value of the first pair named n, if any. */
  function GetParam(l: seq<Pair>, n: string): (r: Option<string>)
    ensures r.None? <==> Count(l, n) == 0
  {
    if l == [] then None else if l[0].0 == n then Some(l[0].1) else GetParam(l[1..], n)
  }

  /** The pairs whose names are not in names, in their original order. */
  function Without(l: seq<Pair>, names: set<string>): seq<Pair>
  {
    if l == [] then [] else (if l[0].0 in names then [] else [l[0]]) + Without(l[1..], names)
  }

  /** Position of the first pair named n. */
  function FirstIndexOf(l: seq<Pair>, n: string): (k: nat)
    requires Count(l, n) > 0
    ensures k < |l| && l[k].0 == n
    ensures forall j :: 0 <= j < k ==> l[j].0 != n
  {
    if l[0].0 == n then 0 else 1 + FirstIndexOf(l[1..], n)
  }

  /** Gives the first pair named n the value v and drops every later pair named n. */
  function ReplaceFirst(l: seq<Pair>, n: string, v: string): seq<Pair>
    requires Count(l, n) > 0
  {
    if l[0].0 == n then [(n, v)] + Without(l[1..], {n}) else [l[0]] + ReplaceFirst(l[1..], n, v)
  }

  /**
    URLSearchParams.set(n, v): when some pair is named n, the first such pair
    takes the value v and the others are removed; otherwise (n, v) is appended.
   */
  function SetPairs(l: seq<Pair>, n: string, v: string): (r: seq<Pair>)
    ensures Count(r, n) == 1
    ensures GetParam(r, n) == Some(v)
  {
    if Count(l, n) > 0 then
      ReplaceFirstSetsName(l, n, v);
      ReplaceFirst(l, n, v)
    else
      CountConcat(l, [(n, v)], n);
      GetConcat(l, [(n, v)], n);
      l + [(n, v)]
  }

  /** The names of a list of pairs, as a set. */
  function NamesOf(ps: seq<Pair>): set<string>
  {
    set i | 0 <= i < |ps| :: ps[i].0
  }

  predicate DistinctNames(ps: seq<Pair>)
  {
    forall i, j :: 0 <= i < j < |ps| ==> ps[i].0 != ps[j].0
  }

  /** URLSearchParams.set applied to each pair of ps in turn. */
  function SetAll(l: seq<Pair>, ps: seq<Pair>): seq<Pair>
  {
    if ps == [] then l else SetPairs(SetAll(l, ps[..|ps| - 1]), ps[|ps| - 1].0, ps[|ps| - 1].1)
  }

  // ---------------------------------------------------------------- lemmas

  lemma {:induction false} CountConcat(a: seq<Pair>, b: seq<Pair>, n: string)
    ensures Count(a + b, n) == Count(a, n) + Count(b, n)
  {
    if a == [] {
      assert a + b == b;
    } else {
      assert (a + b)[0] == a[0];
      assert (a + b)[1..] == a[1..] + b;
      CountConcat(a[1..], b, n);
    }
  }

  lemma {:induction false} CountWithout(l: seq<Pair>, names: set<string>, n: string)
    ensures Count(Without(l, names), n) == if n in names then 0 else Count(l, n)
  {
    if l != [] {
      CountWithout(l[1..], names, n);
      CountConcat(if l[0].0 in names then [] else [l[0]], Without(l[1..], names), n);
    }
  }

  lemma {:induction false} GetWithout(l: seq<Pair>, names: set<string>, m: string)
    requires m !in names
    ensures GetParam(Without(l, names), m) == GetParam(l, m)
  {
    if l != [] {
      GetWithout(l[1..], names, m);
      if l[0].0 !in names {
        assert Without(l, names) == [l[0]] + Without(l[1..], names);
      } else {
        assert [] + Without(l[1..], names) == Without(l[1..], names);
        assert Without(l, names) == Without(l[1..], names);
        assert GetParam(l, m) == GetParam(l[1..], m);
      }
    }
  }

  lemma {:induction false} WithoutConcat(a: seq<Pair>, b: seq<Pair>, names: set<string>)
    ensures Without(a + b, names) == Without(a, names) + Without(b, names)
  {
    if a == [] {
      assert a + b == b;
    } else {
      assert (a + b)[0] == a[0];
      assert (a + b)[1..] == a[1..] + b;
      WithoutConcat(a[1..], b, names);
    }
  }

  lemma {:induction false} WithoutWithout(l: seq<Pair>, inner: set<string>, outer: set<string>)
    requires inner <= outer
    ensures Without(Without(l, inner), outer) == Without(l, outer)
  {
    if l != [] {
      WithoutWithout(l[1..], inner, outer);
      WithoutConcat(if l[0].0 in inner then [] else [l[0]], Without(l[1..], inner), outer);
    }
  }

  lemma {:induction false} GetConcat(a: seq<Pair>, b: seq<Pair>, n: string)
    ensures GetParam(a + b, n) == if Count(a, n) > 0 then GetParam(a, n) else GetParam(b, n)
  {
    if a == [] {
      assert a + b == b;
    } else {
      assert (a + b)[0] == a[0];
      assert (a + b)[1..] == a[1..] + b;
      GetConcat(a[1..], b, n);
    }
  }

  lemma {:induction false} ReplaceFirstSetsName(l: seq<Pair>, n: string, v: string)
    requires Count(l, n) > 0
    ensures Count(ReplaceFirst(l, n, v), n) == 1
    ensures GetParam(ReplaceFirst(l, n, v), n) == Some(v)
  {
    if l[0].0 == n {
      CountWithout(l[1..], {n}, n);
    } else {
      ReplaceFirstSetsName(l[1..], n, v);
    }
  }

  /** set(n, v) leaves the count and the first value of every other name as they were. */
  lemma {:induction false} SetPairsOtherName(l: seq<Pair>, n: string, v: string, m: string)
    requires m != n
    ensures Count(SetPairs(l, n, v), m) == Count(l, m)
    ensures GetParam(SetPairs(l, n, v), m) == GetParam(l, m)
  {
    if Count(l, n) > 0 {
      ReplaceFirstOtherName(l, n, v, m);
    } else {
      CountConcat(l, [(n, v)], m);
      GetConcat(l, [(n, v)], m);
    }
  }

  lemma {:induction false} ReplaceFirstOtherName(l: seq<Pair>, n: string, v: string, m: string)
    requires m != n && Count(l, n) > 0
    ensures Count(ReplaceFirst(l, n, v), m) == Count(l, m)
    ensures GetParam(ReplaceFirst(l, n, v), m) == GetParam(l, m)
  {
    if l[0].0 == n {
      CountWithout(l[1..], {n}, m);
      GetWithout(l[1..], {n}, m);
    } else {
      ReplaceFirstOtherName(l[1..], n, v, m);
    }
  }

  /** Pairs whose names are not being set keep their values and their relative order. */
  lemma {:induction false} SetPairsKeepsOthers(l: seq<Pair>, n: string, v: string, names: set<string>)
    requires n in names
    ensures Without(SetPairs(l, n, v), names) == Without(l, names)
  {
    if Count(l, n) > 0 {
      ReplaceFirstKeepsOthers(l, n, v, names);
    } else {
      WithoutConcat(l, [(n, v)], names);
      assert Without([(n, v)], names) == [];
    }
  }

  lemma {:induction false} ReplaceFirstKeepsOthers(l: seq<Pair>, n: string, v: string, names: set<string>)
    requires n in names && Count(l, n) > 0
    ensures Without(ReplaceFirst(l, n, v), names) == Without(l, names)
  {
    if l[0].0 == n {
      WithoutConcat([(n, v)], Without(l[1..], {n}), names);
      WithoutWithout(l[1..], {n}, names);
    } else {
      ReplaceFirstKeepsOthers(l[1..], n, v, names);
      WithoutConcat([l[0]], ReplaceFirst(l[1..], n, v), names);
    }
  }

  /**
    When a pair named n exists, set(n, v) leaves everything before the first
    such pair in place, puts (n, v) at its position, and drops the later
    pairs named n from the rest.
   */
  lemma {:induction false} SetPairsKeepsPosition(l: seq<Pair>, n: string, v: string)
    requires Count(l, n) > 0
    ensures var k := FirstIndexOf(l, n);
            var r := SetPairs(l, n, v);
            k < |r| && r[..k] == l[..k] && r[k] == (n, v) && r[k + 1..] == Without(l[k + 1..], {n})
  {
    ReplaceFirstShape(l, n, v);
  }

  lemma {:induction false} ReplaceFirstShape(l: seq<Pair>, n: string, v: string)
    requires Count(l, n) > 0
    ensures ReplaceFirst(l, n, v) == l[..FirstIndexOf(l, n)] + [(n, v)] + Without(l[FirstIndexOf(l, n) + 1..], {n})
  {
    if l[0].0 == n {
      assert l[..0] == [];
    } else {
      var rest := l[1..];
      ReplaceFirstShape(rest, n, v);
      var k := FirstIndexOf(rest, n);
      var w := Without(rest[k + 1..], {n});
      assert FirstIndexOf(l, n) == k + 1;
      assert l[..k + 1] == [l[0]] + rest[..k];
      assert l[k + 2..] == rest[k + 1..];
      calc {
        ReplaceFirst(l, n, v);
        [l[0]] + ReplaceFirst(rest, n, v);
        [l[0]] + ((rest[..k] + [(n, v)]) + w);
        { AppendAssoc([l[0]], rest[..k] + [(n, v)], w); }
        ([l[0]] + (rest[..k] + [(n, v)])) + w;
        { AppendAssoc([l[0]], rest[..k], [(n, v)]); }
        (([l[0]] + rest[..k]) + [(n, v)]) + w;
      }
    }
  }

  lemma AppendAssoc(a: seq<Pair>, b: seq<Pair>, c: seq<Pair>)
    ensures a + (b + c) == (a + b) + c
  {
  }

  /** When no pair is named n, set(n, v) appends (n, v). */
  lemma SetPairsAppends(l: seq<Pair>, n: string, v: string)
    requires GetParam(l, n).None?
    ensures SetPairs(l, n, v) == l + [(n, v)]
  {
  }

  /** After setting every pair of ps (distinct names), each name of ps occurs once, with its value. */
  lemma {:induction false} SetAllSetsEach(l: seq<Pair>, ps: seq<Pair>)
    requires DistinctNames(ps)
    ensures forall j :: 0 <= j < |ps| ==>
              Count(SetAll(l, ps), ps[j].0) == 1 && GetParam(SetAll(l, ps), ps[j].0) == Some(ps[j].1)
  {
    if ps != [] {
      var init, last := ps[..|ps| - 1], ps[|ps| - 1];
      assert DistinctNames(init);
      SetAllSetsEach(l, init);
      forall j | 0 <= j < |ps|
        ensures Count(SetAll(l, ps), ps[j].0) == 1 && GetParam(SetAll(l, ps), ps[j].0) == Some(ps[j].1)
      {
        if j != |ps| - 1 {
          assert init[j] == ps[j];
          SetPairsOtherName(SetAll(l, init), last.0, last.1, ps[j].0);
        }
      }
    }
  }

  /** Setting pairs whose names lie in names does not touch the pairs with other names. */
  lemma {:induction false} SetAllKeepsOthers(l: seq<Pair>, ps: seq<Pair>, names: set<string>)
    requires NamesOf(ps) <= names
    ensures Without(SetAll(l, ps), names) == Without(l, names)
  {
    if ps != [] {
      var init, last := ps[..|ps| - 1], ps[|ps| - 1];
      assert NamesOf(init) <= NamesOf(ps) by {
        forall x | x in NamesOf(init) ensures x in NamesOf(ps) {
          var i :| 0 <= i < |init| && init[i].0 == x;
          assert ps[i] == init[i];
        }
      }
      assert last.0 in NamesOf(ps);
      SetAllKeepsOthers(l, init, names);
      SetPairsKeepsOthers(SetAll(l, init), last.0, last.1, names);
    }
  }

  /** Names that occur nowhere in l are appended in the order of ps. */
  lemma {:induction false} SetAllAppends(l: seq<Pair>, ps: seq<Pair>)
    requires DistinctNames(ps)
    requires forall j :: 0 <= j < |ps| ==> Count(l, ps[j].0) == 0
    ensures SetAll(l, ps) == l + ps
  {
    if ps != [] {
      var init, last := ps[..|ps| - 1], ps[|ps| - 1];
      assert DistinctNames(init);
      SetAllAppends(l, init);
      CountConcat(l, init, last.0);
      assert Count(init, last.0) == 0 by {
        CountAbsent(init, last.0);
      }
      assert l + init + [last] == l + ps;
    }
  }

  lemma {:induction false} CountAbsent(l: seq<Pair>, n: string)
    requires forall j :: 0 <= j < |l| ==> l[j].0 != n
    ensures Count(l, n) == 0
  {
    if l != [] {
      CountAbsent(l[1..], n);
    }
  }

  // ------------------------------------- several sets, as a single pass

  /**
    The part of l left after setting every pair of ps: a pair whose name ps
    sets takes ps's value at that name's first position and its later pairs
    go (seen holds the names already placed); every other pair stays.
   */
  function UpdateInPlace(l: seq<Pair>, ps: seq<Pair>, seen: set<string>): seq<Pair>
  {
    if l == [] then []
    else
      match GetParam(ps, l[0].0)
      case None => [l[0]] + UpdateInPlace(l[1..], ps, seen)
      case Some(v) =>
        if l[0].0 in seen then UpdateInPlace(l[1..], ps, seen)
        else [(l[0].0, v)] + UpdateInPlace(l[1..], ps, seen + {l[0].0})
  }

  /** The pairs of ps whose names occur nowhere in l, in the order of ps. */
  function NewPairs(l: seq<Pair>, ps: seq<Pair>): seq<Pair>
  {
    if ps == [] then []
    else NewPairs(l, ps[..|ps| - 1]) + (if Count(l, ps[|ps| - 1].0) == 0 then [ps[|ps| - 1]] else [])
  }

  /**
    Setting the pairs of ps (distinct names) one after another is one pass over
    l that updates the names already there at their first position, followed by
    the new names in the order of ps.
   */
  lemma {:induction false} SetAllUpdatesThenAppends(l: seq<Pair>, ps: seq<Pair>)
    requires DistinctNames(ps)
    ensures SetAll(l, ps) == UpdateInPlace(l, ps, {}) + NewPairs(l, ps)
  {
    if ps == [] {
      UpdateNothing(l, {});
    } else {
      var init, n, v := ps[..|ps| - 1], ps[|ps| - 1].0, ps[|ps| - 1].1;
      assert DistinctNames(init);
      assert ps == init + [(n, v)];
      SetAllUpdatesThenAppends(l, init);
      var a, b := UpdateInPlace(l, init, {}), NewPairs(l, init);
      CountAbsent(init, n);
      UpdateKeepsCount(l, init, {}, n);
      NewPairsCount(l, init, n);
      CountConcat(a, b, n);
      if Count(l, n) > 0 {
        ReplaceFirstConcat(a, b, n, v);
        UpdateSetsFirst(l, init, n, v, {});
        assert NewPairs(l, ps) == b + [];
      } else {
        UpdateIgnoresAbsent(l, init, n, v, {});
        assert NewPairs(l, ps) == b + [(n, v)];
        AppendAssoc(a, b, [(n, v)]);
      }
    }
  }

  lemma {:induction false} UpdateNothing(l: seq<Pair>, seen: set<string>)
    ensures UpdateInPlace(l, [], seen) == l
  {
    if l != [] {
      UpdateNothing(l[1..], seen);
    }
  }

  /** get on ps + [(n, v)], when ps lacks n. */
  lemma GetSnoc(ps: seq<Pair>, n: string, v: string, m: string)
    requires Count(ps, n) == 0
    ensures GetParam(ps + [(n, v)], m) == if m == n then Some(v) else GetParam(ps, m)
  {
    GetConcat(ps, [(n, v)], m);
  }

  /** A name ps does not set keeps its count. */
  lemma {:induction false} UpdateKeepsCount(l: seq<Pair>, ps: seq<Pair>, seen: set<string>, n: string)
    requires Count(ps, n) == 0
    ensures Count(UpdateInPlace(l, ps, seen), n) == Count(l, n)
  {
    if l != [] {
      var m := l[0].0;
      var rest := if GetParam(ps, m).Some? && m !in seen then seen + {m} else seen;
      UpdateKeepsCount(l[1..], ps, rest, n);
    }
  }

  lemma {:induction false} NewPairsCount(l: seq<Pair>, ps: seq<Pair>, n: string)
    ensures Count(NewPairs(l, ps), n) == if Count(l, n) > 0 then 0 else Count(ps, n)
  {
    if ps != [] {
      var init, last := ps[..|ps| - 1], ps[|ps| - 1];
      NewPairsCount(l, init, n);
      assert ps == init + [last];
      CountConcat(init, [last], n);
      CountConcat(NewPairs(l, init), if Count(l, last.0) == 0 then [last] else [], n);
    }
  }

  lemma WithoutAbsent(l: seq<Pair>, n: string)
    requires Count(l, n) == 0
    ensures Without(l, {n}) == l
  {
    if l != [] {
      WithoutAbsent(l[1..], n);
    }
  }

  lemma {:induction false} ReplaceFirstConcat(a: seq<Pair>, b: seq<Pair>, n: string, v: string)
    requires Count(a, n) > 0 && Count(b, n) == 0
    ensures Count(a + b, n) > 0
    ensures ReplaceFirst(a + b, n, v) == ReplaceFirst(a, n, v) + b
  {
    CountConcat(a, b, n);
    assert (a + b)[0] == a[0];
    assert (a + b)[1..] == a[1..] + b;
    if a[0].0 == n {
      WithoutConcat(a[1..], b, {n});
      WithoutAbsent(b, n);
      AppendAssoc([(n, v)], Without(a[1..], {n}), b);
    } else {
      ReplaceFirstConcat(a[1..], b, n, v);
      AppendAssoc([a[0]], ReplaceFirst(a[1..], n, v), b);
    }
  }

  /** Once n has been placed, setting n as well drops its remaining pairs. */
  lemma {:induction false} UpdateSeenDrops(l: seq<Pair>, ps: seq<Pair>, n: string, v: string, seen: set<string>)
    requires Count(ps, n) == 0
    ensures UpdateInPlace(l, ps + [(n, v)], seen + {n}) == Without(UpdateInPlace(l, ps, seen), {n})
  {
    if l != [] {
      var m := l[0].0;
      GetSnoc(ps, n, v, m);
      if m == n {
        UpdateSeenDrops(l[1..], ps, n, v, seen);
      } else if GetParam(ps, m).Some? && m !in seen {
        UpdateSeenDrops(l[1..], ps, n, v, seen + {m});
        assert seen + {m} + {n} == seen + {n} + {m};
      } else {
        UpdateSeenDrops(l[1..], ps, n, v, seen);
      }
    }
  }

  /** Setting a name that l holds replaces its first pair and drops the later ones. */
  lemma {:induction false} UpdateSetsFirst(l: seq<Pair>, ps: seq<Pair>, n: string, v: string, seen: set<string>)
    requires Count(ps, n) == 0 && n !in seen && Count(l, n) > 0
    ensures Count(UpdateInPlace(l, ps, seen), n) > 0
    ensures UpdateInPlace(l, ps + [(n, v)], seen) == ReplaceFirst(UpdateInPlace(l, ps, seen), n, v)
  {
    UpdateKeepsCount(l, ps, seen, n);
    var m := l[0].0;
    GetSnoc(ps, n, v, m);
    if m == n {
      UpdateSeenDrops(l[1..], ps, n, v, seen);
    } else if GetParam(ps, m).Some? && m !in seen {
      UpdateSetsFirst(l[1..], ps, n, v, seen + {m});
    } else {
      UpdateSetsFirst(l[1..], ps, n, v, seen);
    }
  }

  /** Setting a name that l lacks does not touch l's part. */
  lemma {:induction false} UpdateIgnoresAbsent(l: seq<Pair>, ps: seq<Pair>, n: string, v: string, seen: set<string>)
    requires Count(ps, n) == 0 && Count(l, n) == 0
    ensures UpdateInPlace(l, ps + [(n, v)], seen) == UpdateInPlace(l, ps, seen)
  {
    if l != [] {
      var m := l[0].0;
      GetSnoc(ps, n, v, m);
      var rest := if GetParam(ps, m).Some? && m !in seen then seen + {m} else seen;
      UpdateIgnoresAbsent(l[1..], ps, n, v, rest);
    }
  }

  // ------------------------------------------------------ querystring view

  /** What querystring.parse stores under one name. */
  datatype QValue = One(s: string) | Many(all: seq<string>)

  /** All values of the pairs named n, in order. */
  function Values(l: seq<Pair>, n: string): (vs: seq<string>)
    ensures |vs| == Count(l, n)
    ensures forall v :: v in vs <==> (n, v) in l
  {
    if l == [] then [] else (if l[0].0 == n then [l[0].1] else []) + Values(l[1..], n)
  }

  /** querystring.parse(q)[n]: a string for one occurrence, an array for several, undefined for none. */
  function Field(l: seq<Pair>, n: string): Option<QValue>
  {
    var vs := Values(l, n);
    if |vs| == 0 then None else if |vs| == 1 then Some(One(vs[0])) else Some(Many(vs))
  }

  /** Truthiness of a parsed field: a non-empty string or any array. */
  predicate FieldTruthy(f: Option<QValue>)
  {
    f.Some? && (f.value.Many? || f.value.s != "")
  }

  /** The parsed field is the first value when the name occurs once, and lists every value otherwise. */
  lemma {:induction false} FieldAgreesWithGet(l: seq<Pair>, n: string)
    ensures Field(l, n).None? <==> GetParam(l, n).None?
    ensures GetParam(l, n).Some? ==> Values(l, n)[0] == GetParam(l, n).value
  {
    if l != [] {
      FieldAgreesWithGet(l[1..], n);
    }
  }
}
