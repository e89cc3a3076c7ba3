/** Shared vocabulary: optional values, blank strings, and Python's insertion-ordered dict. */
module Kernel {

  datatype Option<+T> = None | Some(value: T)

  /** A value, or the error that is raised instead. */
  datatype Fallible<+T, +E> = Ok(value: T) | Err(error: E)

  /** True exactly when `text.strip()` is empty, over the ASCII white space characters. */
  predicate Blank(text: string) {
    forall i :: 0 <= i < |text| ==> text[i] in [' ', '\t', '\n', '\r', '\U{0B}', '\U{0C}']
  }

  /** Blankness character by character: it is lost with the first that is not white space. */
  lemma BlankByCharacter(text: string, c: char)
    ensures Blank("")
    ensures Blank(text + [c]) <==>
              Blank(text) && (c == ' ' || c == '\t' || c == '\n' || c == '\r' || c == '\U{0B}' || c == '\U{0C}')
  {
    assert (text + [c])[|text|] == c;
    assert forall i :: 0 <= i < |text| ==> (text + [c])[i] == text[i];
  }

  ghost predicate Distinct<T>(s: seq<T>) {
    forall i, j :: 0 <= i < j < |s| ==> s[i] != s[j]
  }

  lemma DistinctSingleton<T>(s: seq<T>, x: T)
    requires Distinct(s) && x in s && forall y :: y in s ==> y == x
    ensures s == [x]
  {
    assert s[0] in s && s[|s| - 1] in s;
  }

  ghost function Elements<T>(s: seq<T>): set<T> {
    set x | x in s
  }

  lemma {:induction false} DistinctSize<T>(s: seq<T>)
    requires Distinct(s)
    ensures |Elements(s)| == |s|
  {
    if s == [] {
      assert Elements(s) == {};
    } else {
      var earlier, last := s[..|s| - 1], s[|s| - 1];
      DistinctSize(earlier);
      assert s == earlier + [last];
      assert Elements(s) == Elements(earlier) + {last};
    }
  }

  /** The members of `s` that lie in `chosen`, in the order of `s`. */
  ghost function Select<T>(s: seq<T>, chosen: set<T>): seq<T> {
    if s == [] then []
    else (if s[0] in chosen then [s[0]] else []) + Select(s[1..], chosen)
  }

  lemma {:induction false} SelectAll<T>(s: seq<T>, chosen: set<T>)
    requires forall x :: x in s ==> x in chosen
    ensures Select(s, chosen) == s
  {
    if s != [] {
      SelectAll(s[1..], chosen);
      assert s == [s[0]] + s[1..];
    }
  }

  lemma Associate<T>(a: seq<T>, b: seq<T>, c: seq<T>)
    ensures a + (b + c) == (a + b) + c
  {
  }

  lemma {:induction false} SelectConcat<T>(s: seq<T>, t: seq<T>, chosen: set<T>)
    ensures Select(s + t, chosen) == Select(s, chosen) + Select(t, chosen)
  {
    if s == [] {
      assert s + t == t;
    } else {
      SelectConcat(s[1..], t, chosen);
      assert (s + t)[0] == s[0] && (s + t)[1..] == s[1..] + t;
      var head := if s[0] in chosen then [s[0]] else [];
      Associate(head, Select(s[1..], chosen), Select(t, chosen));
    }
  }

  lemma {:induction false} SelectNone<T>(s: seq<T>, chosen: set<T>)
    requires forall x :: x in s ==> x !in chosen
    ensures Select(s, chosen) == []
  {
    if s != [] {
      SelectNone(s[1..], chosen);
    }
  }

  lemma {:induction false} SelectCongruent<T>(s: seq<T>, a: set<T>, b: set<T>)
    requires forall x :: x in s ==> (x in a <==> x in b)
    ensures Select(s, a) == Select(s, b)
  {
    if s != [] {
      SelectCongruent(s[1..], a, b);
    }
  }

  lemma {:induction false} SelectMembers<T>(s: seq<T>, chosen: set<T>)
    ensures forall x :: x in Select(s, chosen) <==> x in s && x in chosen
    ensures Distinct(s) ==> Distinct(Select(s, chosen))
  {
    if s != [] {
      SelectMembers(s[1..], chosen);
      forall x
        ensures x in Select(s, chosen) <==> x in s && x in chosen
      {
        assert x in s <==> x == s[0] || x in s[1..];
      }
      if Distinct(s) {
        assert Distinct(s[1..]);
        assert s[0] !in s[1..];
      }
    }
  }

  // ----- what a filter keeps -----

  /** The positions of `s` whose element is kept, in ascending order. */
  ghost function Positions<T>(s: seq<T>, keep: T -> bool): seq<nat> {
    if s == [] then []
    else Positions(s[..|s| - 1], keep) + (if keep(s[|s| - 1]) then [|s| - 1] else [])
  }

  lemma {:induction false} PositionsSnoc<T>(s: seq<T>, x: T, keep: T -> bool)
    ensures Positions(s + [x], keep) == Positions(s, keep) + (if keep(x) then [|s|] else [])
  {
    assert (s + [x])[..|s|] == s;
  }

  /** `p` lists, in ascending order, the positions of `s` whose element is kept, and no others. */
  ghost predicate Lists<T(!new)>(p: seq<nat>, s: seq<T>, keep: T -> bool) {
    && (forall a, b :: 0 <= a < b < |p| ==> p[a] < p[b])
    && (forall i: nat :: i in p <==> i < |s| && keep(s[i]))
  }

  lemma ListsSnoc<T(!new)>(p: seq<nat>, s: seq<T>, x: T, keep: T -> bool)
    requires Lists(p, s, keep)
    ensures Lists(p + (if keep(x) then [|s|] else []), s + [x], keep)
  {
    var q, t := p + (if keep(x) then [|s|] else []), s + [x];
    forall a, b | 0 <= a < b < |q|
      ensures q[a] < q[b]
    {
      assert p[a] in p;
    }
    forall i: nat
      ensures i in q <==> i < |t| && keep(t[i])
    {
      assert i in q <==> i in p || (keep(x) && i == |s|);
    }
  }

  lemma {:induction false} PositionsList<T(!new)>(s: seq<T>, keep: T -> bool)
    ensures Lists(Positions(s, keep), s, keep)
  {
    if s != [] {
      var front := s[..|s| - 1];
      PositionsList(front, keep);
      ListsSnoc(Positions(front, keep), front, s[|s| - 1], keep);
      assert s == front + [s[|s| - 1]];
    }
  }
}

/** Python's dict: key order is insertion order, an overwrite keeps its place. */
module OrderedDict {
  import opened Kernel

  type Dict<K, V> = seq<(K, V)>

  function Keys<K, V>(d: Dict<K, V>): (keys: seq<K>)
    ensures |keys| == |d|
  {
    seq(|d|, i requires 0 <= i < |d| => d[i].0)
  }

  function Get<K(==), V>(d: Dict<K, V>, key: K): Option<V> {
    if d == [] then None
    else if d[0].0 == key then Some(d[0].1)
    else Get(d[1..], key)
  }

  function Put<K(==), V>(d: Dict<K, V>, key: K, value: V): Dict<K, V> {
    if d == [] then [(key, value)]
    else if d[0].0 == key then [(key, value)] + d[1..]
    else [d[0]] + Put(d[1..], key, value)
  }

  function Remove<K(==), V>(d: Dict<K, V>, key: K): Dict<K, V> {
    if d == [] then []
    else if d[0].0 == key then d[1..]
    else [d[0]] + Remove(d[1..], key)
  }

  /** `d.update(e)`. */
  function Update<K(==), V>(d: Dict<K, V>, e: Dict<K, V>): Dict<K, V>
    decreases |e|
  {
    if e == [] then d else Update(Put(d, e[0].0, e[0].1), e[1..])
  }

  lemma {:induction false} GetFinds<K, V>(d: Dict<K, V>, key: K)
    ensures Get(d, key).Some? <==> key in Keys(d)
    ensures Get(d, key).Some? ==> (key, Get(d, key).value) in d
  {
    if d != [] {
      GetFinds(d[1..], key);
      assert Keys(d) == [d[0].0] + Keys(d[1..]);
    }
  }

  lemma {:induction false} GetAt<K, V>(d: Dict<K, V>, i: nat)
    requires Distinct(Keys(d)) && i < |d|
    ensures Get(d, d[i].0) == Some(d[i].1)
  {
    if i > 0 {
      assert Keys(d)[0] != Keys(d)[i];
      assert Distinct(Keys(d[1..])) by {
        assert Keys(d[1..]) == Keys(d)[1..];
      }
      GetAt(d[1..], i - 1);
    }
  }

  lemma {:induction false} PutGets<K, V>(d: Dict<K, V>, key: K, value: V, other: K)
    ensures Get(Put(d, key, value), other) == if other == key then Some(value) else Get(d, other)
  {
    if d != [] && d[0].0 != key {
      PutGets(d[1..], key, value, other);
    }
  }

  /** A new key goes to the end; a known key keeps its position. */
  lemma {:induction false} PutKeys<K, V>(d: Dict<K, V>, key: K, value: V)
    ensures Keys(Put(d, key, value)) == if key in Keys(d) then Keys(d) else Keys(d) + [key]
    ensures key !in Keys(d) ==> Put(d, key, value) == d + [(key, value)]
  {
    if d != [] {
      PutKeys(d[1..], key, value);
      assert Keys(d) == [d[0].0] + Keys(d[1..]);
      if d[0].0 != key {
        assert Keys(Put(d, key, value)) == [d[0].0] + Keys(Put(d[1..], key, value));
      } else {
        assert Keys(Put(d, key, value)) == Keys(d);
      }
    }
  }

  lemma {:induction false} PutDistinct<K, V>(d: Dict<K, V>, key: K, value: V)
    requires Distinct(Keys(d))
    ensures Distinct(Keys(Put(d, key, value)))
  {
    PutKeys(d, key, value);
  }

  lemma {:induction false} RemoveGets<K, V>(d: Dict<K, V>, key: K, other: K)
    requires Distinct(Keys(d))
    ensures Get(Remove(d, key), other) == if other == key then None else Get(d, other)
    ensures Distinct(Keys(Remove(d, key)))
    ensures forall k :: k in Keys(Remove(d, key)) <==> k in Keys(d) && k != key
  {
    if d != [] {
      assert Keys(d[1..]) == Keys(d)[1..];
      assert Keys(d) == [d[0].0] + Keys(d[1..]);
      assert d[0].0 !in Keys(d[1..]) by {
        assert forall i :: 0 < i < |d| ==> Keys(d)[0] != Keys(d)[i];
      }
      if d[0].0 == key {
        GetFinds(d[1..], key);
      } else {
        RemoveGets(d[1..], key, other);
        assert Keys(Remove(d, key)) == [d[0].0] + Keys(Remove(d[1..], key));
      }
    }
  }

  lemma {:induction false} PutEntries<K, V>(d: Dict<K, V>, key: K, value: V)
    ensures forall e :: e in Put(d, key, value) ==> e == (key, value) || e in d
    ensures Put(d, key, value) != []
  {
    if d != [] {
      PutEntries(d[1..], key, value);
      assert d == [d[0]] + d[1..];
    }
  }

  lemma {:induction false} RemoveEntries<K, V>(d: Dict<K, V>, key: K)
    ensures forall e :: e in Remove(d, key) ==> e in d
  {
    if d != [] {
      RemoveEntries(d[1..], key);
      assert d == [d[0]] + d[1..];
    }
  }

  lemma {:induction false} UpdateGets<K, V>(d: Dict<K, V>, e: Dict<K, V>, key: K)
    requires Distinct(Keys(e))
    ensures Get(Update(d, e), key) == if Get(e, key).Some? then Get(e, key) else Get(d, key)
    decreases |e|
  {
    if e != [] {
      TailKeys(e);
      GetFinds(e[1..], key);
      PutGets(d, e[0].0, e[0].1, key);
      UpdateGets(Put(d, e[0].0, e[0].1), e[1..], key);
    }
  }

  lemma TailKeys<K, V>(d: Dict<K, V>)
    requires d != [] && Distinct(Keys(d))
    ensures Keys(d) == [d[0].0] + Keys(d[1..]) && Distinct(Keys(d[1..])) && d[0].0 !in Keys(d[1..])
  {
    assert Keys(d[1..]) == Keys(d)[1..];
    assert forall i :: 0 < i < |d| ==> Keys(d)[0] != Keys(d)[i];
  }

  lemma FirstOfRestIsFresh<K, V>(d: Dict<K, V>, e: Dict<K, V>)
    requires e != [] && Distinct(Keys(d + e))
    ensures e[0].0 !in Keys(d)
  {
    forall i | 0 <= i < |d|
      ensures Keys(d)[i] != e[0].0
    {
      assert Keys(d + e)[i] == Keys(d)[i] && Keys(d + e)[|d|] == e[0].0;
    }
  }

  /** Updating with fresh, distinct keys appends. */
  lemma {:induction false} UpdateAppends<K, V>(d: Dict<K, V>, e: Dict<K, V>)
    requires Distinct(Keys(d + e))
    ensures Update(d, e) == d + e
    decreases |e|
  {
    if e == [] {
      assert d + e == d;
    } else {
      FirstOfRestIsFresh(d, e);
      PutKeys(d, e[0].0, e[0].1);
      assert d + [(e[0].0, e[0].1)] + e[1..] == d + e;
      UpdateAppends(d + [(e[0].0, e[0].1)], e[1..]);
    }
  }
}
