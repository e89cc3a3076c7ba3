/** What the answer to a vector query is, in the scores and identifiers of the stored records. */
module VectorAnswers {
  import opened Kernel
  import opened OrderedDict
  import opened RealAlgebra
  import opened VectorMath
  import opened VectorContracts
  import opened VectorRanking
  import opened VectorStore
  import opened VectorStoreTheorems

  // ----- the order of identifiers -----

  /** The texts agree up to `n`, where `a` ends or has the smaller character. */
  ghost predicate PartsAt(a: string, b: string, n: nat) {
    n <= |a| && n < |b| && a[..n] == b[..n] && (n < |a| ==> a[n] < b[n])
  }

  /** Dictionary order: decided by the first character in which the texts differ, or by one being the
      beginning of the other. */
  ghost predicate TextFirst(a: string, b: string) {
    exists n: nat :: PartsAt(a, b, n)
  }

  lemma SameBeginning(a: string, b: string, n: nat)
    requires PartsAt(a, b, n)
    ensures 0 < n ==> a[0] == b[0]
  {
    if 0 < n {
      assert a[..n][0] == b[..n][0];
    }
  }

  lemma {:induction false} TextBeforeParts(a: string, b: string)
    ensures TextBefore(a, b) <==> TextFirst(a, b)
  {
    if a == [] || b == [] || a[0] != b[0] {
      assert TextBefore(a, b) ==> PartsAt(a, b, 0);
      if n: nat :| PartsAt(a, b, n) {
        SameBeginning(a, b, n);
      }
    } else {
      TextBeforeParts(a[1..], b[1..]);
      if n: nat :| PartsAt(a[1..], b[1..], n) {
        assert a[..n + 1] == [a[0]] + a[1..][..n] && b[..n + 1] == [b[0]] + b[1..][..n];
        assert PartsAt(a, b, n + 1);
      }
      if n: nat :| PartsAt(a, b, n) {
        assert a[1..][..n - 1] == a[..n][1..] && b[1..][..n - 1] == b[..n][1..];
        assert PartsAt(a[1..], b[1..], n - 1);
      }
    }
  }

  // ----- the score -----

  /** The inner product, component by component. */
  lemma {:induction false} DotAddsProducts(a: Vector, b: Vector, x: real, y: real)
    requires |a| == |b|
    ensures Dot([], []) == 0.0
    ensures Dot(a + [x], b + [y]) == Dot(a, b) + x * y
  {
    if a == [] {
      assert (a + [x])[1..] == [] && (b + [y])[1..] == [];
    } else {
      DotAddsProducts(a[1..], b[1..], x, y);
      assert (a + [x])[1..] == a[1..] + [x] && (b + [y])[1..] == b[1..] + [y];
    }
  }

  /** The cosine of two vectors: their inner product over the product of their norms. */
  ghost predicate IsCosine(score: real, a: Vector, b: Vector, hypot: Vector -> real) {
    |a| == |b| && 0.0 < hypot(a) && 0.0 < hypot(b) && score * (hypot(a) * hypot(b)) == Dot(a, b)
  }

  lemma SameProduct(x: real, y: real, p: real)
    requires 0.0 < p && Times(x, p) == Times(y, p)
    ensures x == y
  {
    QuotientIs(x, Times(x, p), p);
    QuotientIs(y, Times(y, p), p);
  }

  /** There is only one. */
  lemma CosineIsUnique(x: real, y: real, a: Vector, b: Vector, hypot: Vector -> real)
    requires IsCosine(x, a, b, hypot) && IsCosine(y, a, b, hypot)
    ensures x == y
  {
    PositiveProduct(hypot(a), hypot(b));
    SameProduct(x, y, Times(hypot(a), hypot(b)));
  }

  // ----- one candidate, one stored record -----

  /** The match is that of a stored record: its identifier, its metadata, and its cosine to the query. */
  ghost predicate MatchOfStored(m: Match, t: Table, namespace: string, query: Vector, hypot: Vector -> real) {
    && Find(t, namespace, m.id).Some?
    && var stored := Find(t, namespace, m.id).value;
    m.metadata == stored.metadata && IsCosine(m.score, query, stored.vector, hypot)
  }

  lemma CandidateIsStored(
      t: Table, dimensions: nat, namespace: string, query: Vector, hypot: Vector -> real, k: nat)
    requires TableInv(t, dimensions) && IsHypot(hypot) && Nonzero(query)
    requires AllComparable(query, Records(t, namespace), hypot) && k < |Records(t, namespace)|
    ensures Find(t, namespace, Records(t, namespace)[k].0) == Some(Records(t, namespace)[k].1)
    ensures MatchOfStored(Candidates(query, Records(t, namespace), hypot)[k], t, namespace, query, hypot)
  {
    var n := Records(t, namespace);
    assert NamespaceInv(n, dimensions);
    assert EntryInv(n[k], dimensions);
    GetAt(n, k);
    SimilarityIsCosine(query, n[k].1, hypot);
  }

  lemma SimilarityIsCosine(query: Vector, stored: Record, hypot: Vector -> real)
    requires IsHypot(hypot) && Nonzero(query) && WellFormed(stored) && Comparable(query, stored.vector, hypot)
    ensures IsCosine(Similarity(query, stored.vector, hypot), query, stored.vector, hypot)
  {
    ChecksNeverFire(query, stored, hypot);
    assert IsNorm(query, hypot(query)) && IsNorm(stored.vector, hypot(stored.vector));
    CosineOfProduct(Similarity(query, stored.vector, hypot), query, stored.vector, hypot);
  }

  lemma {:induction false} CosineOfProduct(score: real, a: Vector, b: Vector, hypot: Vector -> real)
    requires |a| == |b| && 0.0 <= hypot(a) && 0.0 <= hypot(b) && hypot(a) != 0.0 && hypot(b) != 0.0
    requires Times(score, Times(hypot(a), hypot(b))) == Dot(a, b)
    ensures IsCosine(score, a, b, hypot)
  {
  }

  /** Whatever is stored but left out of the answer scores no better than anything in it. */
  ghost predicate NoBetter(
      id: string, t: Table, namespace: string, query: Vector, hypot: Vector -> real, kept: Match)
    requires Find(t, namespace, id).Some?
  {
    exists score ::
      && IsCosine(score, query, Find(t, namespace, id).value.vector, hypot)
      && score <= kept.score && (score == kept.score ==> TextFirst(kept.id, id))
  }

  lemma LeftOutIsNoBetter(
      t: Table, dimensions: nat, namespace: string, query: Vector, hypot: Vector -> real, limit: nat,
      r: seq<Match>, id: string, i: nat)
    requires TableInv(t, dimensions) && IsHypot(hypot) && Nonzero(query)
    requires AllComparable(query, Records(t, namespace), hypot)
    requires IsBest(Candidates(query, Records(t, namespace), hypot), limit, r) && i < |r|
    requires Find(t, namespace, id).Some? && forall j :: 0 <= j < |r| ==> r[j].id != id
    ensures NoBetter(id, t, namespace, query, hypot, r[i])
  {
    var n := Records(t, namespace);
    GetFinds(n, id);
    var k :| 0 <= k < |n| && n[k] == (id, Find(t, namespace, id).value);
    var candidates := Candidates(query, n, hypot);
    var m := candidates[k];
    CandidateIsStored(t, dimensions, namespace, query, hypot, k);
    assert NamespaceInv(n, dimensions) && EntryInv(n[k], dimensions);
    assert m in candidates && m !in r && r[i] in r;
    assert Before(r[i], m);
    TextBeforeParts(r[i].id, m.id);
    assert IsCosine(m.score, query, Find(t, namespace, id).value.vector, hypot);
  }

  /** The `i`-th match comes before the `j`-th: it scores higher, or the same with the smaller identifier. */
  ghost predicate InOrder(r: seq<Match>, i: nat, j: nat)
    requires i < |r| && j < |r|
  {
    r[j].score <= r[i].score && (r[i].score == r[j].score ==> TextFirst(r[i].id, r[j].id))
  }

  /** An accepted query is answered with the nearest records of its namespace: as many as there are, up to
      the limit; each with its own metadata and its cosine to the query; scores never increasing, equal
      ones by identifier; and no record left out scores better than one returned, or as well with a
      smaller identifier. */
  lemma AnswersAreNearest(
      t: Table, dimensions: nat, hypot: Vector -> real, components: seq<Component>, namespace: string, limit: int)
    requires TableInv(t, dimensions) && IsHypot(hypot) && AcceptsQuery(components, dimensions, namespace, limit)
    ensures Answer(t, dimensions, hypot, components, namespace, limit).Ok?
    ensures var r := Answer(t, dimensions, hypot, components, namespace, limit).value;
      && |r| == (if |Records(t, namespace)| < limit then |Records(t, namespace)| else limit)
      && (forall i: nat, j: nat :: i < j < |r| ==> InOrder(r, i, j))
      && (forall i: nat :: i < |r| ==> MatchOfStored(r[i], t, namespace, Values(components), hypot))
      && (forall id, i: nat :: i < |r| && Find(t, namespace, id).Some? && (forall j :: 0 <= j < |r| ==> r[j].id != id) ==>
            NoBetter(id, t, namespace, Values(components), hypot, r[i]))
  {
    QueryReturnsBest(t, dimensions, hypot, components, namespace, limit);
    BestIsNearest(t, dimensions, namespace, Values(components), hypot, limit,
                  Answer(t, dimensions, hypot, components, namespace, limit).value);
  }

  lemma BestIsNearest(
      t: Table, dimensions: nat, namespace: string, query: Vector, hypot: Vector -> real, limit: nat, r: seq<Match>)
    requires TableInv(t, dimensions) && IsHypot(hypot) && Nonzero(query)
    requires AllComparable(query, Records(t, namespace), hypot)
    requires IsBest(Candidates(query, Records(t, namespace), hypot), limit, r)
    ensures forall i: nat, j: nat :: i < j < |r| ==> InOrder(r, i, j)
    ensures forall i: nat :: i < |r| ==> MatchOfStored(r[i], t, namespace, query, hypot)
    ensures forall id, i: nat :: i < |r| && Find(t, namespace, id).Some? && (forall j :: 0 <= j < |r| ==> r[j].id != id) ==>
              NoBetter(id, t, namespace, query, hypot, r[i])
  {
    forall i: nat, j: nat | i < j < |r|
      ensures InOrder(r, i, j)
    {
      assert Before(r[i], r[j]);
      TextBeforeParts(r[i].id, r[j].id);
    }
    forall i: nat | i < |r|
      ensures MatchOfStored(r[i], t, namespace, query, hypot)
    {
      var candidates := Candidates(query, Records(t, namespace), hypot);
      assert r[i] in candidates;
      var k :| 0 <= k < |candidates| && candidates[k] == r[i];
      CandidateIsStored(t, dimensions, namespace, query, hypot, k);
    }
    forall id, i: nat | i < |r| && Find(t, namespace, id).Some? && forall j :: 0 <= j < |r| ==> r[j].id != id
      ensures NoBetter(id, t, namespace, query, hypot, r[i])
    {
      LeftOutIsNoBetter(t, dimensions, namespace, query, hypot, limit, r, id, i);
    }
  }
}
