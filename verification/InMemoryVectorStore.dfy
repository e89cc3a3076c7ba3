/** The vector store as an object. */
module InMemoryVectorStores {
  import opened Kernel
  import opened OrderedDict
  import opened VectorMath
  import opened VectorContracts
  import opened VectorRanking
  import opened VectorStore

  class InMemoryVectorStore {
    const dimensions: nat
    const hypot: Vector -> real
    var namespaces: Table

    ghost predicate Valid()
      reads this
    {
      0 < dimensions && IsHypot(hypot) && TableInv(namespaces, dimensions)
    }

    constructor (dimensions: nat, hypot: Vector -> real)
      requires 0 < dimensions && IsHypot(hypot)
      ensures Valid() && namespaces == map[]
      ensures this.dimensions == dimensions && this.hypot == hypot
    {
      this.dimensions := dimensions;
      this.hypot := hypot;
      this.namespaces := map[];
    }

    static method Create(dimensions: int, hypot: Vector -> real) returns (r: Fallible<InMemoryVectorStore, Error>)
      requires IsHypot(hypot)
      ensures r.Err? <==> dimensions <= 0
      ensures r.Err? ==> r.error == BadDimensions
      ensures r.Ok? ==> fresh(r.value) && r.value.Valid() && r.value.dimensions == dimensions && r.value.namespaces == map[]
    {
      if dimensions <= 0 {
        return Err(BadDimensions);
      }
      var store := new InMemoryVectorStore(dimensions, hypot);
      return Ok(store);
    }

    /** The batch, if no record in it repeats an identifier or has the wrong length. */
    method ValidateBatch(records: seq<Record>) returns (r: Fallible<seq<Record>, Error>)
      ensures r == if BatchFault(records, dimensions, 0).Some? then Err(BatchFault(records, dimensions, 0).value)
                   else Ok(records)
      ensures r.Ok? ==> forall record :: record in records ==> |record.vector| == dimensions
    {
      var validated: seq<Record> := [];
      var identifiers: set<string> := {};
      for i := 0 to |records|
        invariant validated == records[..i]
        invariant forall id :: id in identifiers <==> id in Keys(Entries(validated))
        invariant BatchFault(records, dimensions, 0) == BatchFault(records, dimensions, i)
        invariant forall record :: record in validated ==> |record.vector| == dimensions
      {
        var record := records[i];
        if record.id in identifiers {
          return Err(DuplicateId);
        }
        if |record.vector| != dimensions {
          return Err(WrongDimensions);
        }
        identifiers := identifiers + {record.id};
        assert Keys(Entries(validated + [record])) == Keys(Entries(validated)) + [record.id];
        validated := validated + [record];
      }
      assert validated == records;
      return Ok(validated);
    }

    /** A refused batch changes nothing. */
    method Upsert(records: seq<Record>, namespace: string) returns (fault: Option<Error>)
      requires Valid() && forall r :: r in records ==> WellFormed(r)
      modifies this`namespaces
      ensures Valid()
      ensures var after := Upserted(old(namespaces), dimensions, records, namespace);
        if after.Ok? then fault.None? && namespaces == after.value
        else fault == Some(after.error) && namespaces == old(namespaces)
    {
      if !ValidNamespace(namespace) {
        return Some(BadNamespace);
      }
      if records == [] {
        return Some(EmptyBatch);
      }
      var validated := ValidateBatch(records);
      if validated.Err? {
        return Some(validated.error);
      }
      var target := Records(namespaces, namespace);
      namespaces := namespaces[namespace := Update(target, Entries(validated.value))];
      UpdateKeepsInv(target, dimensions, records);
      return None;
    }

    method Query(components: seq<Component>, namespace: string, limit: int) returns (r: Fallible<seq<Match>, Error>)
      requires Valid()
      ensures r == Answer(namespaces, dimensions, hypot, components, namespace, limit)
    {
      if !ValidNamespace(namespace) {
        return Err(BadNamespace);
      }
      if limit <= 0 {
        return Err(BadLimit);
      }
      var query := NormalizeVector(components, Some(dimensions), hypot);
      if query.Err? {
        return Err(query.error);
      }
      StoredAreComparable(namespaces, dimensions, hypot, components, namespace);
      var matches := Matches(query.value, Records(namespaces, namespace), hypot);
      if matches.Err? {
        return matches;
      }
      var ranked := Sorted(matches.value);
      return Ok(ranked[..Cut(|ranked|, limit)]);
    }

    method Fetch(ids: seq<string>, namespace: string) returns (r: Fallible<seq<Record>, Error>)
      requires Valid()
      ensures r == Fetched(namespaces, ids, namespace)
    {
      if !ValidNamespace(namespace) {
        return Err(BadNamespace);
      }
      var fault := ValidateRecordIds(ids);
      if fault.Some? {
        return Err(fault.value);
      }
      return Ok(Present(Records(namespaces, namespace), ids));
    }

    method Delete(ids: seq<string>, namespace: string) returns (fault: Option<Error>)
      requires Valid()
      modifies this`namespaces
      ensures Valid()
      ensures var after := Deleted(old(namespaces), ids, namespace);
        if after.Ok? then fault.None? && namespaces == after.value
        else fault == Some(after.error) && namespaces == old(namespaces)
    {
      if !ValidNamespace(namespace) {
        return Some(BadNamespace);
      }
      fault := ValidateRecordIds(ids);
      if fault.Some? {
        return;
      }
      if namespace !in namespaces {
        return None;
      }
      var records := namespaces[namespace];
      for i := 0 to |ids|
        invariant records == RemoveAll(namespaces[namespace], ids[..i])
      {
        assert ids[..i + 1][..i] == ids[..i];
        records := Remove(records, ids[i]);
      }
      assert ids[..|ids|] == ids;
      RemoveAllKeepsInv(namespaces[namespace], dimensions, ids);
      namespaces := if records == [] then namespaces - {namespace} else namespaces[namespace := records];
      return None;
    }
  }
}
