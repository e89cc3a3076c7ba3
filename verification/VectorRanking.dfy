/** The order of query results, and what it means to be the best `k` under it. */
module VectorRanking {
  import opened VectorContracts

  // ----- Python's order of strings -----

  predicate TextBefore(a: string, b: string) {
    b != [] && (a == [] || a[0] < b[0] || (a[0] == b[0] && TextBefore(a[1..], b[1..])))
  }

  lemma {:induction false} TextOrderIsTotal(a: string, b: string)
    ensures a == b || TextBefore(a, b) || TextBefore(b, a)
    ensures !(TextBefore(a, b) && TextBefore(b, a))
    ensures TextBefore(a, b) ==> a != b
  {
    if a != [] && b != [] && a[0] == b[0] {
      TextOrderIsTotal(a[1..], b[1..]);
      assert a == [a[0]] + a[1..] && b == [b[0]] + b[1..];
    }
  }

  lemma {:induction false} TextOrderIsTransitive(a: string, b: string, c: string)
    requires TextBefore(a, b) && TextBefore(b, c)
    ensures TextBefore(a, c)
  {
    if a != [] && a[0] == b[0] && b[0] == c[0] {
      TextOrderIsTransitive(a[1..], b[1..], c[1..]);
    }
  }

  // ----- the ranking key: descending score, then identifier -----

  predicate Before(a: Match, b: Match) {
    b.score < a.score || (a.score == b.score && TextBefore(a.id, b.id))
  }

  lemma BeforeIsTotal(a: Match, b: Match)
    ensures a.id != b.id ==> Before(a, b) || Before(b, a)
    ensures !(Before(a, b) && Before(b, a))
  {
    TextOrderIsTotal(a.id, b.id);
  }

  lemma BeforeIsTransitive(a: Match, b: Match, c: Match)
    requires Before(a, b) && Before(b, c)
    ensures Before(a, c)
  {
    if a.score == b.score == c.score {
      TextOrderIsTransitive(a.id, b.id, c.id);
    }
  }

  ghost predicate Ordered(s: seq<Match>) {
    forall i, j :: 0 <= i < j < |s| ==> Before(s[i], s[j])
  }

  ghost predicate DistinctIds(s: seq<Match>) {
    forall i, j :: 0 <= i < j < |s| ==> s[i].id != s[j].id
  }

  // ----- the sort -----

  function Insert(m: Match, s: seq<Match>): seq<Match> {
    if s == [] || !Before(s[0], m) then [m] + s else [s[0]] + Insert(m, s[1..])
  }

  /** `matches.sort(key=...)`: a stable sort. */
  function Sorted(s: seq<Match>): seq<Match> {
    if s == [] then [] else Insert(s[0], Sorted(s[1..]))
  }

  lemma {:induction false} InsertMembers(m: Match, s: seq<Match>)
    ensures |Insert(m, s)| == |s| + 1
    ensures forall x :: x in Insert(m, s) <==> x == m || x in s
  {
    if s != [] && Before(s[0], m) {
      InsertMembers(m, s[1..]);
      assert s == [s[0]] + s[1..];
    }
  }

  lemma {:induction false} InsertOrdered(m: Match, s: seq<Match>)
    requires Ordered(s) && forall x :: x in s ==> x.id != m.id
    ensures Ordered(Insert(m, s))
  {
    if s == [] {
    } else if Before(s[0], m) {
      var rest := Insert(m, s[1..]);
      InsertOrdered(m, s[1..]);
      InsertMembers(m, s[1..]);
      forall j | 0 <= j < |rest|
        ensures Before(s[0], rest[j])
      {
        assert rest[j] in rest;
      }
    } else {
      BeforeIsTotal(m, s[0]);
      assert s[0] in s;
      forall j | 0 <= j < |s|
        ensures Before(m, s[j])
      {
        if j > 0 {
          BeforeIsTransitive(m, s[0], s[j]);
        }
      }
    }
  }

  lemma {:induction false} SortedIsOrdered(s: seq<Match>)
    requires DistinctIds(s)
    ensures Ordered(Sorted(s)) && |Sorted(s)| == |s|
    ensures forall x :: x in Sorted(s) <==> x in s
  {
    if s != [] {
      SortedIsOrdered(s[1..]);
      InsertMembers(s[0], Sorted(s[1..]));
      assert s == [s[0]] + s[1..];
      InsertOrdered(s[0], Sorted(s[1..]));
    }
  }

  // ----- the best k -----

  function Cut(n: nat, k: nat): nat {
    if k <= n then k else n
  }

  /** `r` holds the first `k` of `candidates`, in order, and nothing it leaves out precedes anything it holds. */
  ghost predicate IsBest(candidates: seq<Match>, k: nat, r: seq<Match>) {
    && |r| == Cut(|candidates|, k)
    && Ordered(r)
    && (forall x :: x in r ==> x in candidates)
    && (forall m :: m in candidates && m !in r ==> forall x :: x in r ==> Before(x, m))
  }

  lemma PrefixPrecedesRest(r: seq<Match>, t: seq<Match>, x: Match, m: Match)
    requires Ordered(r + t) && x in r && m in t
    ensures Before(x, m)
  {
    var i :| 0 <= i < |r| && r[i] == x;
    var j :| 0 <= j < |t| && t[j] == m;
    assert (r + t)[i] == x && (r + t)[|r| + j] == m;
  }

  lemma {:induction false} SortedTakesBest(candidates: seq<Match>, k: nat)
    requires DistinctIds(candidates)
    ensures |Sorted(candidates)| == |candidates|
    ensures IsBest(candidates, k, Sorted(candidates)[..Cut(|candidates|, k)])
  {
    SortedIsOrdered(candidates);
    var s := Sorted(candidates);
    var r, t := s[..Cut(|s|, k)], s[Cut(|s|, k)..];
    assert s == r + t;
    forall m, x | m in candidates && m !in r && x in r
      ensures Before(x, m)
    {
      assert m in s;
      PrefixPrecedesRest(r, t, x, m);
    }
  }

  ghost predicate SameMembers(a: seq<Match>, b: seq<Match>) {
    |a| == |b| && forall x :: x in a <==> x in b
  }

  lemma SameIdSameMatch(candidates: seq<Match>, a: Match, b: Match)
    requires DistinctIds(candidates) && a in candidates && b in candidates && a.id == b.id
    ensures a == b
  {
  }

  lemma OrderedIsDistinct(r: seq<Match>)
    requires Ordered(r)
    ensures forall i, j :: 0 <= i < j < |r| ==> r[i] != r[j]
  {
    forall i, j | 0 <= i < j < |r|
      ensures r[i] != r[j]
    {
      BeforeIsTotal(r[i], r[j]);
    }
  }

  /** One step of uniqueness: where two best lists agree so far, the later one cannot hold a worse match. */
  lemma NextIsNoWorse(candidates: seq<Match>, k: nat, r: seq<Match>, q: seq<Match>, i: nat)
    requires IsBest(candidates, k, r) && IsBest(candidates, k, q)
    requires i < |r| && forall j :: 0 <= j < i ==> r[j] == q[j]
    ensures !Before(r[i], q[i])
  {
    var a, b := r[i], q[i];
    assert b in q;
    BeforeIsTotal(a, b);
    OrderedIsDistinct(r);
    if a in q {
      var j :| 0 <= j < |q| && q[j] == a;
      if i <= j {
        BeforeIsTotal(q[j], q[i]);
      }
    }
  }

  lemma {:induction false} BestAgreeUpTo(candidates: seq<Match>, k: nat, r: seq<Match>, q: seq<Match>, i: nat)
    requires DistinctIds(candidates) && IsBest(candidates, k, r) && IsBest(candidates, k, q) && i <= |r|
    ensures forall j :: 0 <= j < i ==> r[j] == q[j]
  {
    if i > 0 {
      BestAgreeUpTo(candidates, k, r, q, i - 1);
      NextIsNoWorse(candidates, k, r, q, i - 1);
      NextIsNoWorse(candidates, k, q, r, i - 1);
      BeforeIsTotal(r[i - 1], q[i - 1]);
      assert r[i - 1] in r && q[i - 1] in q;
      SameIdSameMatch(candidates, r[i - 1], q[i - 1]);
    }
  }

  /** There is only one best list. */
  lemma BestIsUnique(candidates: seq<Match>, k: nat, r: seq<Match>, q: seq<Match>)
    requires DistinctIds(candidates) && IsBest(candidates, k, r) && IsBest(candidates, k, q)
    ensures r == q
  {
    BestAgreeUpTo(candidates, k, r, q, |r|);
  }

  /** The best list does not depend on the order of the candidates. */
  lemma BestIgnoresOrder(a: seq<Match>, b: seq<Match>, k: nat, r: seq<Match>)
    requires SameMembers(a, b) && IsBest(a, k, r)
    ensures IsBest(b, k, r)
  {
  }
}
