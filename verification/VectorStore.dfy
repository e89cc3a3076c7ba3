/** The exact in-memory vector store: its tables, its operations, and what they promise. */
module VectorStore {
  import opened Kernel
  import opened OrderedDict
  import opened VectorMath
  import opened VectorContracts
  import opened VectorRanking

  type Namespace = Dict<string, Record>

  type Table = map<string, Namespace>

  function Records(t: Table, namespace: string): Namespace {
    if namespace in t then t[namespace] else []
  }

  function Find(t: Table, namespace: string, id: string): Option<Record> {
    Get(Records(t, namespace), id)
  }

  function Entries(records: seq<Record>): (entries: Namespace)
    ensures |entries| == |records|
  {
    seq(|records|, i requires 0 <= i < |records| => (records[i].id, records[i]))
  }

  // ----- the invariant -----

  ghost predicate EntryInv(e: (string, Record), dimensions: nat) {
    e.0 == e.1.id && |e.1.vector| == dimensions && WellFormed(e.1)
  }

  ghost predicate NamespaceInv(n: Namespace, dimensions: nat) {
    Distinct(Keys(n)) && forall e :: e in n ==> EntryInv(e, dimensions)
  }

  /** Keys are record identifiers, every vector has the store's length, no namespace is empty. */
  ghost predicate TableInv(t: Table, dimensions: nat) {
    forall namespace :: namespace in t ==>
      ValidNamespace(namespace) && t[namespace] != [] && NamespaceInv(t[namespace], dimensions)
  }

  // ----- upsert -----

  /** What is wrong with the first unacceptable record at or after position `i`. */
  function BatchFault(records: seq<Record>, dimensions: nat, i: nat): Option<Error>
    requires i <= |records|
    decreases |records| - i
  {
    if i == |records| then None
    else if records[i].id in Keys(Entries(records[..i])) then Some(DuplicateId)
    else if |records[i].vector| != dimensions then Some(WrongDimensions)
    else BatchFault(records, dimensions, i + 1)
  }

  function Upserted(t: Table, dimensions: nat, records: seq<Record>, namespace: string): Fallible<Table, Error> {
    if !ValidNamespace(namespace) then Err(BadNamespace)
    else if records == [] then Err(EmptyBatch)
    else
      var fault := BatchFault(records, dimensions, 0);
      if fault.Some? then Err(fault.value)
      else Ok(t[namespace := Update(Records(t, namespace), Entries(records))])
  }

  // ----- delete -----

  function RemoveAll(n: Namespace, ids: seq<string>): Namespace
    decreases |ids|
  {
    if ids == [] then n else Remove(RemoveAll(n, ids[..|ids| - 1]), ids[|ids| - 1])
  }

  function Deleted(t: Table, ids: seq<string>, namespace: string): Fallible<Table, Error> {
    if !ValidNamespace(namespace) then Err(BadNamespace)
    else if IdsFault(ids, 0).Some? then Err(IdsFault(ids, 0).value)
    else if namespace !in t then Ok(t)
    else
      var records := RemoveAll(t[namespace], ids);
      Ok(if records == [] then t - {namespace} else t[namespace := records])
  }

  // ----- fetch -----

  function Present(n: Namespace, ids: seq<string>): seq<Record>
    decreases |ids|
  {
    if ids == [] then []
    else
      var found := Get(n, ids[|ids| - 1]);
      Present(n, ids[..|ids| - 1]) + if found.Some? then [found.value] else []
  }

  function Fetched(t: Table, ids: seq<string>, namespace: string): Fallible<seq<Record>, Error> {
    if !ValidNamespace(namespace) then Err(BadNamespace)
    else if IdsFault(ids, 0).Some? then Err(IdsFault(ids, 0).value)
    else Ok(Present(Records(t, namespace), ids))
  }

  // ----- query -----

  predicate Comparable(query: Vector, stored: Vector, hypot: Vector -> real) {
    |query| == |stored| && hypot(query) != 0.0 && hypot(stored) != 0.0
  }

  function Similarity(query: Vector, stored: Vector, hypot: Vector -> real): real
    requires Comparable(query, stored, hypot)
  {
    Clamp(CosineSum(query, stored, hypot(query), hypot(stored)))
  }

  /** The matches built from the stored records, or the first check that refuses one. */
  function Matches(query: Vector, n: Namespace, hypot: Vector -> real): Fallible<seq<Match>, Error>
    requires forall i :: 0 <= i < |n| ==> Comparable(query, n[i].1.vector, hypot)
  {
    if n == [] then Ok([])
    else
      var stored := n[|n| - 1].1;
      var earlier := Matches(query, n[..|n| - 1], hypot);
      var last := MatchOf(stored.id, Similarity(query, stored.vector, hypot), stored.metadata);
      if earlier.Err? then earlier
      else if last.Err? then Err(last.error)
      else Ok(earlier.value + [last.value])
  }

  function Answer(
      t: Table, dimensions: nat, hypot: Vector -> real,
      components: seq<Component>, namespace: string, limit: int): Fallible<seq<Match>, Error>
    requires TableInv(t, dimensions) && IsHypot(hypot)
  {
    if !ValidNamespace(namespace) then Err(BadNamespace)
    else if limit <= 0 then Err(BadLimit)
    else
      var query := Normalized(components, Some(dimensions), hypot);
      if query.Err? then Err(query.error)
      else
        StoredAreComparable(t, dimensions, hypot, components, namespace);
        var matches := Matches(query.value, Records(t, namespace), hypot);
        if matches.Err? then matches
        else Ok(Sorted(matches.value)[..Cut(|Sorted(matches.value)|, limit)])
  }

  lemma StoredAreComparable(
      t: Table, dimensions: nat, hypot: Vector -> real, components: seq<Component>, namespace: string)
    requires TableInv(t, dimensions) && IsHypot(hypot)
    requires Normalized(components, Some(dimensions), hypot).Ok?
    ensures forall e :: e in Records(t, namespace) ==> Comparable(Values(components), e.1.vector, hypot)
  {
    forall e | e in Records(t, namespace)
      ensures Comparable(Values(components), e.1.vector, hypot)
    {
      assert EntryInv(e, dimensions);
      assert IsNorm(e.1.vector, hypot(e.1.vector));
      NormPositive(e.1.vector, hypot(e.1.vector));
    }
  }

  // ----- what the operations keep -----

  lemma {:induction false} RemoveAllGets(n: Namespace, ids: seq<string>, id: string)
    requires Distinct(Keys(n))
    ensures Get(RemoveAll(n, ids), id) == if id in ids then None else Get(n, id)
    ensures Distinct(Keys(RemoveAll(n, ids)))
    ensures forall e :: e in RemoveAll(n, ids) ==> e in n
    decreases |ids|
  {
    if ids != [] {
      var earlier, last := ids[..|ids| - 1], ids[|ids| - 1];
      RemoveAllGets(n, earlier, id);
      RemoveGets(RemoveAll(n, earlier), last, id);
      RemoveEntries(RemoveAll(n, earlier), last);
      assert ids == earlier + [last];
    }
  }

  lemma {:induction false} RemoveAllKeepsInv(n: Namespace, dimensions: nat, ids: seq<string>)
    requires NamespaceInv(n, dimensions)
    ensures NamespaceInv(RemoveAll(n, ids), dimensions)
  {
    RemoveAllGets(n, ids, "");
  }

  lemma {:induction false} PutKeepsInv(n: Namespace, dimensions: nat, r: Record)
    requires NamespaceInv(n, dimensions) && WellFormed(r) && |r.vector| == dimensions
    ensures NamespaceInv(Put(n, r.id, r), dimensions) && Put(n, r.id, r) != []
  {
    PutDistinct(n, r.id, r);
    PutEntries(n, r.id, r);
    assert EntryInv((r.id, r), dimensions);
  }

  lemma {:induction false} UpdateKeepsInv(n: Namespace, dimensions: nat, records: seq<Record>)
    requires NamespaceInv(n, dimensions)
    requires forall r :: r in records ==> WellFormed(r) && |r.vector| == dimensions
    ensures NamespaceInv(Update(n, Entries(records)), dimensions)
    ensures n != [] || records != [] ==> Update(n, Entries(records)) != []
    decreases |records|
  {
    if records != [] {
      var r := records[0];
      PutKeepsInv(n, dimensions, r);
      UpdateKeepsInv(Put(n, r.id, r), dimensions, records[1..]);
      assert Entries(records)[1..] == Entries(records[1..]);
    }
  }
}
