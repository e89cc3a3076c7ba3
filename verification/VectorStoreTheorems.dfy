/** What the vector store guarantees over every sequence of changes and for every query. */
module VectorStoreTheorems {
  import opened Kernel
  import opened OrderedDict
  import RealAlgebra
  import opened VectorMath
  import opened VectorContracts
  import opened VectorRanking
  import opened VectorStore

  // ----- which changes are accepted -----

  ghost predicate AcceptsUpsert(dimensions: nat, records: seq<Record>, namespace: string) {
    && ValidNamespace(namespace)
    && records != []
    && Distinct(Keys(Entries(records)))
    && forall i :: 0 <= i < |records| ==> |records[i].vector| == dimensions
  }

  ghost predicate AcceptsIds(ids: seq<string>, namespace: string) {
    && ValidNamespace(namespace)
    && Distinct(ids)
    && forall i :: 0 <= i < |ids| ==> !Blank(ids[i])
  }

  lemma {:induction false} BatchAdmitted(records: seq<Record>, dimensions: nat, i: nat)
    requires i <= |records|
    ensures BatchFault(records, dimensions, i).None?
       <==> forall j :: i <= j < |records| ==>
              records[j].id !in Keys(Entries(records[..j])) && |records[j].vector| == dimensions
    ensures BatchFault(records, dimensions, i).Some? ==>
              exists j :: i <= j < |records| && FaultAt(records, dimensions, j, BatchFault(records, dimensions, i).value)
                          && forall k :: i <= k < j ==> |records[k].vector| == dimensions
    decreases |records| - i
  {
    if i < |records| {
      BatchAdmitted(records, dimensions, i + 1);
      FaultHere(records, dimensions, i);
    }
  }

  lemma FaultHere(records: seq<Record>, dimensions: nat, i: nat)
    requires i < |records|
    ensures records[i].id in Keys(Entries(records[..i])) ==> FaultAt(records, dimensions, i, DuplicateId)
    ensures records[i].id !in Keys(Entries(records[..i])) && |records[i].vector| != dimensions ==>
              FaultAt(records, dimensions, i, WrongDimensions)
  {
    var keys := Keys(Entries(records[..i]));
    forall k | 0 <= k < i
      ensures records[k].id == keys[k] && keys[k] in keys
    {
    }
    if records[i].id in keys {
      var k :| 0 <= k < i && keys[k] == records[i].id;
    }
  }

  /** What is wrong with record `j` of a batch: it repeats an earlier identifier, or has the wrong length. */
  ghost predicate FaultAt(records: seq<Record>, dimensions: nat, j: nat, fault: Error)
    requires j < |records|
  {
    if exists k :: 0 <= k < j && records[k].id == records[j].id then fault == DuplicateId
    else fault == WrongDimensions && |records[j].vector| != dimensions
  }

  lemma FreshAmongEarlier(records: seq<Record>, j: nat)
    requires j < |records|
    ensures records[j].id in Keys(Entries(records[..j]))
       <==> exists i :: 0 <= i < j && Keys(Entries(records))[i] == records[j].id
  {
    var keys, earlier := Keys(Entries(records)), Keys(Entries(records[..j]));
    assert forall i :: 0 <= i < j ==> earlier[i] == keys[i];
  }

  lemma UpsertAccepts(t: Table, dimensions: nat, records: seq<Record>, namespace: string)
    ensures Upserted(t, dimensions, records, namespace).Ok? <==> AcceptsUpsert(dimensions, records, namespace)
    ensures Upserted(t, dimensions, records, namespace).Err? ==>
              var error := Upserted(t, dimensions, records, namespace).error;
              if !ValidNamespace(namespace) then error == BadNamespace
              else if records == [] then error == EmptyBatch
              else exists j :: 0 <= j < |records| && FaultAt(records, dimensions, j, error)
  {
    BatchAdmitted(records, dimensions, 0);
    var keys := Keys(Entries(records));
    forall j | 0 <= j < |records|
      ensures records[j].id in Keys(Entries(records[..j])) <==> exists i :: 0 <= i < j && keys[i] == keys[j]
    {
      FreshAmongEarlier(records, j);
    }
  }

  lemma {:induction false} IdsAccepted(ids: seq<string>, namespace: string)
    requires ValidNamespace(namespace)
    ensures IdsFault(ids, 0).None? <==> AcceptsIds(ids, namespace)
  {
    IdsAdmitted(ids, 0);
  }

  /** A deletion or a fetch is refused exactly when its arguments are not acceptable, for the first reason
      there is. */
  lemma {:induction false} IdsRefused(t: Table, ids: seq<string>, namespace: string)
    ensures Deleted(t, ids, namespace).Ok? <==> AcceptsIds(ids, namespace)
    ensures Fetched(t, ids, namespace).Ok? <==> AcceptsIds(ids, namespace)
    ensures !AcceptsIds(ids, namespace) ==>
              && Deleted(t, ids, namespace).error == Fetched(t, ids, namespace).error
              && var error := Fetched(t, ids, namespace).error;
              if !ValidNamespace(namespace) then error == BadNamespace
              else
                exists j :: 0 <= j < |ids| && Distinct(ids[..j]) && (forall i :: 0 <= i < j ==> !Blank(ids[i]))
                            && if Blank(ids[j]) then error == BlankId else ids[j] in ids[..j] && error == DuplicateId
  {
    if ValidNamespace(namespace) {
      IdsAccepted(ids, namespace);
      IdsAdmitted(ids, 0);
      if j :| 0 <= j < |ids| && (forall k :: 0 <= k < j ==> !Blank(ids[k]) && ids[k] !in ids[..k])
              && (if Blank(ids[j]) then IdsFault(ids, 0) == Some(BlankId)
                  else ids[j] in ids[..j] && IdsFault(ids, 0) == Some(DuplicateId)) {
        assert Distinct(ids[..j]) by {
          forall i, k | 0 <= i < k < j
            ensures ids[i] != ids[k]
          {
            assert ids[..k][i] == ids[i];
          }
        }
      }
    }
  }

  // ----- what a change leaves in the table -----

  /** An accepted batch replaces or adds exactly its own records, in exactly its own namespace. */
  lemma {:induction false} UpsertContents(
      t: Table, dimensions: nat, records: seq<Record>, namespace: string, other: string, id: string)
    requires AcceptsUpsert(dimensions, records, namespace)
    ensures Upserted(t, dimensions, records, namespace).Ok?
    ensures Find(Upserted(t, dimensions, records, namespace).value, other, id)
         == if other == namespace && Get(Entries(records), id).Some? then Get(Entries(records), id)
            else Find(t, other, id)
    ensures forall n :: n != namespace ==>
              Records(Upserted(t, dimensions, records, namespace).value, n) == Records(t, n)
  {
    UpsertAccepts(t, dimensions, records, namespace);
    UpdateGets(Records(t, namespace), Entries(records), id);
  }

  /** An accepted deletion removes exactly the named records, from exactly its own namespace. */
  lemma DeleteContents(t: Table, dimensions: nat, ids: seq<string>, namespace: string, other: string, id: string)
    requires TableInv(t, dimensions) && AcceptsIds(ids, namespace)
    ensures Deleted(t, ids, namespace).Ok?
    ensures Find(Deleted(t, ids, namespace).value, other, id)
         == if other == namespace && id in ids then None else Find(t, other, id)
    ensures forall n :: n != namespace ==> Records(Deleted(t, ids, namespace).value, n) == Records(t, n)
  {
    IdsAccepted(ids, namespace);
    if namespace in t {
      RemoveAllGets(t[namespace], ids, id);
    }
  }

  // ----- the invariant is kept -----

  lemma UpsertKeepsInv(t: Table, dimensions: nat, records: seq<Record>, namespace: string)
    requires TableInv(t, dimensions) && AcceptsUpsert(dimensions, records, namespace)
    requires forall r :: r in records ==> WellFormed(r)
    ensures Upserted(t, dimensions, records, namespace).Ok?
    ensures TableInv(Upserted(t, dimensions, records, namespace).value, dimensions)
  {
    UpsertAccepts(t, dimensions, records, namespace);
    UpdateKeepsInv(Records(t, namespace), dimensions, records);
  }

  lemma DeleteKeepsInv(t: Table, dimensions: nat, ids: seq<string>, namespace: string)
    requires TableInv(t, dimensions) && AcceptsIds(ids, namespace)
    ensures Deleted(t, ids, namespace).Ok?
    ensures TableInv(Deleted(t, ids, namespace).value, dimensions)
  {
    IdsAccepted(ids, namespace);
    if namespace in t {
      RemoveAllGets(t[namespace], ids, "");
    }
  }

  // ----- whole histories -----

  datatype Change =
    | Upsert(records: seq<Record>, namespace: string)
    | Delete(ids: seq<string>, namespace: string)

  /** The records in a change were built by the record constructor. */
  ghost predicate Built(c: Change) {
    c.Upsert? ==> forall r :: r in c.records ==> WellFormed(r)
  }

  /** The table after a change; a rejected change leaves it as it was. */
  function After(t: Table, dimensions: nat, c: Change): Table {
    match c
    case Upsert(records, namespace) =>
      var r := Upserted(t, dimensions, records, namespace);
      if r.Ok? then r.value else t
    case Delete(ids, namespace) =>
      var r := Deleted(t, ids, namespace);
      if r.Ok? then r.value else t
  }

  function AfterAll(dimensions: nat, changes: seq<Change>): Table
    decreases |changes|
  {
    if changes == [] then map[]
    else After(AfterAll(dimensions, changes[..|changes| - 1]), dimensions, changes[|changes| - 1])
  }

  /** What the last accepted change that mentions `id` said about it. */
  ghost function Latest(dimensions: nat, changes: seq<Change>, namespace: string, id: string): Option<Record>
    decreases |changes|
  {
    if changes == [] then None
    else
      var c, earlier := changes[|changes| - 1], changes[..|changes| - 1];
      if c.Upsert? && c.namespace == namespace && AcceptsUpsert(dimensions, c.records, namespace)
         && Get(Entries(c.records), id).Some? then Get(Entries(c.records), id)
      else if c.Delete? && c.namespace == namespace && AcceptsIds(c.ids, namespace) && id in c.ids then None
      else Latest(dimensions, earlier, namespace, id)
  }

  lemma AfterKeepsInv(t: Table, dimensions: nat, c: Change)
    requires TableInv(t, dimensions) && Built(c)
    ensures TableInv(After(t, dimensions, c), dimensions)
  {
    match c
    case Upsert(records, namespace) =>
      UpsertAccepts(t, dimensions, records, namespace);
      if AcceptsUpsert(dimensions, records, namespace) {
        UpsertKeepsInv(t, dimensions, records, namespace);
      }
    case Delete(ids, namespace) =>
      if ValidNamespace(namespace) {
        IdsAccepted(ids, namespace);
        if AcceptsIds(ids, namespace) {
          DeleteKeepsInv(t, dimensions, ids, namespace);
        }
      }
  }

  /** One change, seen through `Find`. */
  lemma {:induction false} AfterContents(t: Table, dimensions: nat, c: Change, namespace: string, id: string)
    requires TableInv(t, dimensions)
    ensures Find(After(t, dimensions, c), namespace, id)
         == if c.Upsert? && c.namespace == namespace && AcceptsUpsert(dimensions, c.records, namespace)
               && Get(Entries(c.records), id).Some? then Get(Entries(c.records), id)
            else if c.Delete? && c.namespace == namespace && AcceptsIds(c.ids, namespace) && id in c.ids then None
            else Find(t, namespace, id)
  {
    match c
    case Upsert(records, target) =>
      UpsertAccepts(t, dimensions, records, target);
      if AcceptsUpsert(dimensions, records, target) {
        UpsertContents(t, dimensions, records, target, namespace, id);
      }
    case Delete(ids, target) =>
      if ValidNamespace(target) {
        IdsAccepted(ids, target);
        if AcceptsIds(ids, target) {
          DeleteContents(t, dimensions, ids, target, namespace, id);
        }
      }
  }

  lemma {:induction false} HistoryKeepsInv(dimensions: nat, changes: seq<Change>)
    requires forall c :: c in changes ==> Built(c)
    ensures TableInv(AfterAll(dimensions, changes), dimensions)
    decreases |changes|
  {
    if changes != [] {
      HistoryKeepsInv(dimensions, changes[..|changes| - 1]);
      AfterKeepsInv(AfterAll(dimensions, changes[..|changes| - 1]), dimensions, changes[|changes| - 1]);
    }
  }

  /** The table a history leaves holds, for each identifier, the last accepted word on it. */
  lemma {:induction false} HistoryContents(dimensions: nat, changes: seq<Change>, namespace: string, id: string)
    requires forall c :: c in changes ==> Built(c)
    ensures Find(AfterAll(dimensions, changes), namespace, id) == Latest(dimensions, changes, namespace, id)
    decreases |changes|
  {
    if changes != [] {
      var earlier := changes[..|changes| - 1];
      HistoryKeepsInv(dimensions, earlier);
      HistoryContents(dimensions, earlier, namespace, id);
      AfterContents(AfterAll(dimensions, earlier), dimensions, changes[|changes| - 1], namespace, id);
    }
  }

  // ----- queries -----

  ghost predicate AllComparable(query: Vector, n: Namespace, hypot: Vector -> real) {
    forall i :: 0 <= i < |n| ==> Comparable(query, n[i].1.vector, hypot)
  }

  /** One match per stored record, before any check. */
  function Candidates(query: Vector, n: Namespace, hypot: Vector -> real): (c: seq<Match>)
    requires forall i :: 0 <= i < |n| ==> Comparable(query, n[i].1.vector, hypot)
    ensures |c| == |n|
  {
    seq(|n|, i requires 0 <= i < |n| =>
      Match(n[i].1.id, Similarity(query, n[i].1.vector, hypot), n[i].1.metadata))
  }

  /** The score of a stored record is the exact cosine: clamping changed nothing, and the match
      constructor would accept the sum even without the clamp. */
  lemma {:induction false} ChecksNeverFire(query: Vector, r: Record, hypot: Vector -> real)
    requires IsHypot(hypot) && Nonzero(query) && WellFormed(r) && Comparable(query, r.vector, hypot)
    ensures Similarity(query, r.vector, hypot) == CosineSum(query, r.vector, hypot(query), hypot(r.vector))
    ensures RealAlgebra.Times(Similarity(query, r.vector, hypot), RealAlgebra.Times(hypot(query), hypot(r.vector)))
         == Dot(query, r.vector)
    ensures MatchOf(r.id, CosineSum(query, r.vector, hypot(query), hypot(r.vector)), r.metadata)
         == Ok(Match(r.id, Similarity(query, r.vector, hypot), r.metadata))
  {
    assert IsNorm(query, hypot(query)) && IsNorm(r.vector, hypot(r.vector));
    CosineIsBounded(query, r.vector, hypot(query), hypot(r.vector));
  }

  /** Neither the score bound nor any other match check can refuse a stored record. */
  lemma {:induction false} MatchesSucceed(query: Vector, n: Namespace, dimensions: nat, hypot: Vector -> real)
    requires IsHypot(hypot) && Nonzero(query)
    requires forall e :: e in n ==> EntryInv(e, dimensions)
    requires AllComparable(query, n, hypot)
    ensures Matches(query, n, hypot) == Ok(Candidates(query, n, hypot))
    decreases |n|
  {
    if n == [] {
    } else {
      var earlier, last := n[..|n| - 1], n[|n| - 1];
      assert EntryInv(last, dimensions);
      MatchesSucceed(query, earlier, dimensions, hypot);
      ChecksNeverFire(query, last.1, hypot);
      assert Candidates(query, n, hypot)
          == Candidates(query, earlier, hypot) + [Candidates(query, n, hypot)[|n| - 1]];
    }
  }

  lemma CandidatesHaveDistinctIds(query: Vector, n: Namespace, dimensions: nat, hypot: Vector -> real)
    requires NamespaceInv(n, dimensions) && AllComparable(query, n, hypot)
    ensures DistinctIds(Candidates(query, n, hypot))
  {
    var c := Candidates(query, n, hypot);
    forall i, j | 0 <= i < j < |c|
      ensures c[i].id != c[j].id
    {
      assert EntryInv(n[i], dimensions) && EntryInv(n[j], dimensions);
      assert Keys(n)[i] != Keys(n)[j];
    }
  }

  ghost predicate AcceptsQuery(components: seq<Component>, dimensions: nat, namespace: string, limit: int) {
    && ValidNamespace(namespace)
    && 0 < limit
    && |components| == dimensions
    && AllNumbers(components)
    && Nonzero(Values(components))
  }

  /** A query answers exactly when its arguments are acceptable, and then with the best `limit`
      candidates of its namespace: no check on a stored record can fail. */
  lemma QueryReturnsBest(
      t: Table, dimensions: nat, hypot: Vector -> real, components: seq<Component>, namespace: string, limit: int)
    requires TableInv(t, dimensions) && IsHypot(hypot)
    ensures Answer(t, dimensions, hypot, components, namespace, limit).Ok?
       <==> AcceptsQuery(components, dimensions, namespace, limit)
    ensures Answer(t, dimensions, hypot, components, namespace, limit).Err? ==>
              var error := Answer(t, dimensions, hypot, components, namespace, limit).error;
              if !ValidNamespace(namespace) then error == BadNamespace
              else if limit <= 0 then error == BadLimit
              else NormalizeRefuses(error, components, Some(dimensions))
    ensures AcceptsQuery(components, dimensions, namespace, limit) ==>
              && AllComparable(Values(components), Records(t, namespace), hypot)
              && DistinctIds(Candidates(Values(components), Records(t, namespace), hypot))
              && IsBest(Candidates(Values(components), Records(t, namespace), hypot), limit,
                        Answer(t, dimensions, hypot, components, namespace, limit).value)
  {
    NormalizedAdmits(components, Some(dimensions), hypot);
    if AcceptsQuery(components, dimensions, namespace, limit) {
      StoredAreComparable(t, dimensions, hypot, components, namespace);
      var n := Records(t, namespace);
      MatchesSucceed(Values(components), n, dimensions, hypot);
      CandidatesHaveDistinctIds(Values(components), n, dimensions, hypot);
      SortedTakesBest(Candidates(Values(components), n, hypot), limit);
    }
  }

  lemma SameHypot(h: Vector -> real, k: Vector -> real, v: Vector)
    requires IsHypot(h) && IsHypot(k)
    ensures h(v) == k(v)
  {
    assert IsNorm(v, h(v)) && IsNorm(v, k(v));
    NormUnique(v, h(v), k(v));
  }

  lemma {:induction false} SameMatches(query: Vector, n: Namespace, h: Vector -> real, k: Vector -> real)
    requires IsHypot(h) && IsHypot(k)
    requires AllComparable(query, n, h) && AllComparable(query, n, k)
    ensures Matches(query, n, h) == Matches(query, n, k)
    decreases |n|
  {
    if n != [] {
      SameMatches(query, n[..|n| - 1], h, k);
      SameHypot(h, k, query);
      SameHypot(h, k, n[|n| - 1].1.vector);
    }
  }

  /** The law of the norm determines every answer: two functions that obey it cannot be told apart. */
  lemma AnswersFollowFromTheNormLaw(
      t: Table, dimensions: nat, h: Vector -> real, k: Vector -> real,
      components: seq<Component>, namespace: string, limit: int)
    requires TableInv(t, dimensions) && IsHypot(h) && IsHypot(k)
    ensures Answer(t, dimensions, h, components, namespace, limit) == Answer(t, dimensions, k, components, namespace, limit)
  {
    NormalizedAdmits(components, Some(dimensions), h);
    NormalizedAdmits(components, Some(dimensions), k);
    if AllNumbers(components) {
      SameHypot(h, k, Values(components));
    }
    if AcceptsQuery(components, dimensions, namespace, limit) {
      StoredAreComparable(t, dimensions, h, components, namespace);
      StoredAreComparable(t, dimensions, k, components, namespace);
      SameMatches(Values(components), Records(t, namespace), h, k);
    }
  }

  // ----- insertion order does not show -----

  ghost predicate SameContents(n: Namespace, m: Namespace) {
    forall id :: Get(n, id) == Get(m, id)
  }

  lemma EntriesAgree(n: Namespace, m: Namespace, e: (string, Record))
    requires Distinct(Keys(n)) && SameContents(n, m) && e in n
    ensures e in m
  {
    var i :| 0 <= i < |n| && n[i] == e;
    GetAt(n, i);
    assert Get(m, e.0) == Some(e.1);
    GetFinds(m, e.0);
  }

  lemma SameContentsSameSize(n: Namespace, m: Namespace)
    requires Distinct(Keys(n)) && Distinct(Keys(m)) && SameContents(n, m)
    ensures |n| == |m|
  {
    forall id
      ensures id in Keys(n) <==> id in Keys(m)
    {
      GetFinds(n, id);
      GetFinds(m, id);
    }
    assert Elements(Keys(n)) == Elements(Keys(m));
    DistinctSize(Keys(n));
    DistinctSize(Keys(m));
  }

  lemma CandidatesFollowEntries(query: Vector, n: Namespace, m: Namespace, hypot: Vector -> real, x: Match)
    requires AllComparable(query, n, hypot) && AllComparable(query, m, hypot)
    requires forall e :: e in n ==> e in m
    requires x in Candidates(query, n, hypot)
    ensures x in Candidates(query, m, hypot)
  {
    var i :| 0 <= i < |n| && Candidates(query, n, hypot)[i] == x;
    assert n[i] in m;
    var j :| 0 <= j < |m| && m[j] == n[i];
    assert Candidates(query, m, hypot)[j] == x;
  }

  lemma CandidatesAgree(query: Vector, n: Namespace, m: Namespace, hypot: Vector -> real)
    requires Distinct(Keys(n)) && Distinct(Keys(m)) && SameContents(n, m)
    requires AllComparable(query, n, hypot) && AllComparable(query, m, hypot)
    ensures SameMembers(Candidates(query, n, hypot), Candidates(query, m, hypot))
  {
    SameContentsSameSize(n, m);
    forall e | e in n
      ensures e in m
    {
      EntriesAgree(n, m, e);
    }
    forall e | e in m
      ensures e in n
    {
      EntriesAgree(m, n, e);
    }
    forall x
      ensures x in Candidates(query, n, hypot) <==> x in Candidates(query, m, hypot)
    {
      if x in Candidates(query, n, hypot) {
        CandidatesFollowEntries(query, n, m, hypot, x);
      }
      if x in Candidates(query, m, hypot) {
        CandidatesFollowEntries(query, m, n, hypot, x);
      }
    }
  }

  /** Two tables with the same contents answer every query alike, however they were filled. */
  lemma QueriesSeeOnlyContents(
      t: Table, u: Table, dimensions: nat, hypot: Vector -> real,
      components: seq<Component>, namespace: string, limit: int)
    requires TableInv(t, dimensions) && TableInv(u, dimensions) && IsHypot(hypot)
    requires forall id :: Find(t, namespace, id) == Find(u, namespace, id)
    ensures Answer(t, dimensions, hypot, components, namespace, limit)
         == Answer(u, dimensions, hypot, components, namespace, limit)
  {
    QueryReturnsBest(t, dimensions, hypot, components, namespace, limit);
    QueryReturnsBest(u, dimensions, hypot, components, namespace, limit);
    if AcceptsQuery(components, dimensions, namespace, limit) {
      var query, n, m := Values(components), Records(t, namespace), Records(u, namespace);
      assert SameContents(n, m) by {
        assert forall id :: Get(n, id) == Find(t, namespace, id) && Get(m, id) == Find(u, namespace, id);
      }
      CandidatesAgree(query, n, m, hypot);
      var a := Answer(t, dimensions, hypot, components, namespace, limit).value;
      var b := Answer(u, dimensions, hypot, components, namespace, limit).value;
      BestIgnoresOrder(Candidates(query, n, hypot), Candidates(query, m, hypot), limit, a);
      BestIsUnique(Candidates(query, m, hypot), limit, a, b);
    } else {
      NormalizedAdmits(components, Some(dimensions), hypot);
    }
  }

  /** Fetching returns, in the order asked, exactly the named records that are present. */
  lemma {:induction false} FetchFollowsRequest(n: Namespace, dimensions: nat, ids: seq<string>)
    requires NamespaceInv(n, dimensions)
    ensures Keys(Entries(Present(n, ids))) == Select(ids, Elements(Keys(n)))
    ensures forall r :: r in Present(n, ids) ==> Get(n, r.id) == Some(r)
    decreases |ids|
  {
    if ids != [] {
      var earlier, last := ids[..|ids| - 1], ids[|ids| - 1];
      FetchFollowsRequest(n, dimensions, earlier);
      SelectConcat(earlier, [last], Elements(Keys(n)));
      assert ids == earlier + [last];
      assert Select([last], Elements(Keys(n))) == if last in Keys(n) then [last] else [];
      GetFinds(n, last);
      if last in Keys(n) {
        var found := Get(n, last).value;
        assert EntryInv((last, found), dimensions);
        assert Keys(Entries(Present(n, ids))) == Keys(Entries(Present(n, earlier))) + [last];
      }
    }
  }

  /** An accepted fetch returns the records stored under the ids it names, in the order it names them, and
      nothing for an id under which there is none. */
  lemma {:induction false} FetchReturnsStored(t: Table, dimensions: nat, ids: seq<string>, namespace: string)
    returns (p: seq<nat>)
    requires TableInv(t, dimensions) && AcceptsIds(ids, namespace)
    ensures Fetched(t, ids, namespace).Ok?
    ensures Lists(p, ids, (id: string) => Find(t, namespace, id).Some?)
    ensures var r := Fetched(t, ids, namespace).value;
      |r| == |p| && forall a :: 0 <= a < |p| ==> p[a] < |ids| && Find(t, namespace, ids[p[a]]) == Some(r[a])
  {
    IdsRefused(t, ids, namespace);
    var stored := (id: string) => Find(t, namespace, id).Some?;
    p := Positions(ids, stored);
    PositionsList(ids, stored);
    PresentPositions(t, namespace, ids, stored);
  }

  lemma {:induction false} PresentPositions(t: Table, namespace: string, ids: seq<string>, stored: string -> bool)
    requires forall id :: stored(id) <==> Find(t, namespace, id).Some?
    ensures var r, p := Present(Records(t, namespace), ids), Positions(ids, stored);
      |r| == |p| && forall a :: 0 <= a < |p| ==> p[a] < |ids| && Find(t, namespace, ids[p[a]]) == Some(r[a])
    decreases |ids|
  {
    if ids != [] {
      PresentPositions(t, namespace, ids[..|ids| - 1], stored);
    }
  }

  lemma {:induction false} FetchSeesOnlyContents(n: Namespace, m: Namespace, ids: seq<string>)
    requires SameContents(n, m)
    ensures Present(n, ids) == Present(m, ids)
    decreases |ids|
  {
    if ids != [] {
      FetchSeesOnlyContents(n, m, ids[..|ids| - 1]);
    }
  }

  /** Two histories that leave the same last word on every identifier cannot be told apart. */
  lemma {:induction false} HistoriesIndistinguishable(
      dimensions: nat, hypot: Vector -> real, a: seq<Change>, b: seq<Change>,
      components: seq<Component>, ids: seq<string>, namespace: string, limit: int)
    requires IsHypot(hypot)
    requires forall c :: c in a || c in b ==> Built(c)
    requires forall id :: Latest(dimensions, a, namespace, id) == Latest(dimensions, b, namespace, id)
    ensures TableInv(AfterAll(dimensions, a), dimensions) && TableInv(AfterAll(dimensions, b), dimensions)
    ensures Answer(AfterAll(dimensions, a), dimensions, hypot, components, namespace, limit)
         == Answer(AfterAll(dimensions, b), dimensions, hypot, components, namespace, limit)
    ensures Fetched(AfterAll(dimensions, a), ids, namespace) == Fetched(AfterAll(dimensions, b), ids, namespace)
  {
    HistoryKeepsInv(dimensions, a);
    HistoryKeepsInv(dimensions, b);
    var t, u := AfterAll(dimensions, a), AfterAll(dimensions, b);
    forall id
      ensures Find(t, namespace, id) == Find(u, namespace, id)
    {
      HistoryContents(dimensions, a, namespace, id);
      HistoryContents(dimensions, b, namespace, id);
    }
    QueriesSeeOnlyContents(t, u, dimensions, hypot, components, namespace, limit);
    var n, m := Records(t, namespace), Records(u, namespace);
    assert SameContents(n, m) by {
      assert forall id :: Get(n, id) == Find(t, namespace, id) && Get(m, id) == Find(u, namespace, id);
    }
    FetchSeesOnlyContents(n, m, ids);
  }
}
