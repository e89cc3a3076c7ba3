/** Memory entries, queries, and the store contract as operations on an insertion-ordered dict. */
module MemoryContracts {
  import opened Kernel
  import opened OrderedDict

  /** A metadata value up to Python equality: `None`, or some other object. */
  datatype Value = Nothing | Other(token: int)

  type Metadata = map<string, Value>

  type Instant = int

  datatype Entry = Entry(id: string, content: string, tags: set<string>, metadata: Metadata, createdAt: Instant)

  datatype Query = Query(id: Option<string>, tag: Option<string>, metadata: Metadata, text: Option<string>)

  /** What the entry constructor checks. */
  predicate WellFormed(e: Entry) {
    !Blank(e.id) && !Blank(e.content)
  }

  predicate OccursAt(text: string, part: string, i: nat) {
    i + |part| <= |text| && text[i..i + |part|] == part
  }

  predicate Contains(text: string, part: string) {
    exists i :: 0 <= i <= |text| && OccursAt(text, part, i)
  }

  /** `metadata.get(key)`: a missing key reads as `None`. */
  function Lookup(metadata: Metadata, key: string): Value {
    if key in metadata then metadata[key] else Nothing
  }

  predicate Matches(e: Entry, q: Query) {
    && (q.id.Some? ==> e.id == q.id.value)
    && (q.tag.Some? ==> q.tag.value in e.tags)
    && (q.text.Some? ==> Contains(e.content, q.text.value))
    && forall key :: key in q.metadata ==> Lookup(e.metadata, key) == q.metadata[key]
  }

  const EVERYTHING := Query(None, None, map[], None)

  type Store = Dict<string, Entry>

  function Values(d: Store): (entries: seq<Entry>)
    ensures |entries| == |d|
  {
    seq(|d|, i requires 0 <= i < |d| => d[i].1)
  }

  function Matching(entries: seq<Entry>, q: Query): seq<Entry>
    decreases |entries|
  {
    if entries == [] then []
    else
      var last := entries[|entries| - 1];
      Matching(entries[..|entries| - 1], q) + if Matches(last, q) then [last] else []
  }

  ghost function Hits(entries: seq<Entry>, q: Query): set<Entry> {
    set e | e in entries && Matches(e, q)
  }

  /** A search finds exactly the matching entries, in the store's own order. */
  lemma {:induction false} MatchingSelects(entries: seq<Entry>, q: Query)
    ensures Matching(entries, q) == Select(entries, Hits(entries, q))
    decreases |entries|
  {
    if entries != [] {
      var earlier, last := entries[..|entries| - 1], entries[|entries| - 1];
      MatchingSelects(earlier, q);
      SelectCongruent(earlier, Hits(earlier, q), Hits(entries, q));
      SelectConcat(earlier, [last], Hits(entries, q));
      assert entries == earlier + [last];
      assert [last][1..] == [];
    }
  }

  datatype Operation =
    | Add(entry: Entry)
    | Fetch(id: string)
    | Search(query: Query)
    | Delete(id: string)
    | Clear

  datatype Reply =
    | Done
    | Failed
    | Found(entry: Option<Entry>)
    | Results(entries: seq<Entry>)
    | Removed(present: bool)

  /** The in-memory store: one operation, the dict it leaves and its reply. */
  function Step(d: Store, op: Operation): (Store, Reply) {
    match op
    case Add(e) => (Put(d, e.id, e), Done)
    case Fetch(id) => (d, Found(Get(d, id)))
    case Search(q) => (d, Results(Matching(Values(d), q)))
    case Delete(id) => (Remove(d, id), Removed(Get(d, id).Some?))
    case Clear => ([], Done)
  }

  function Replies(d: Store, ops: seq<Operation>): seq<Reply>
    decreases |ops|
  {
    if ops == [] then []
    else
      var (after, reply) := Step(d, ops[0]);
      [reply] + Replies(after, ops[1..])
  }

  // ----- what the contract promises about order -----

  ghost predicate StoreInv(d: Store) {
    Distinct(Keys(d)) && forall i :: 0 <= i < |d| ==> d[i].0 == d[i].1.id
  }

  lemma StepKeepsInv(d: Store, op: Operation)
    requires StoreInv(d)
    ensures StoreInv(Step(d, op).0)
  {
    match op
    case Add(e) =>
      PutDistinct(d, e.id, e);
      PutEntries(d, e.id, e);
      forall i | 0 <= i < |Put(d, e.id, e)|
        ensures Put(d, e.id, e)[i].0 == Put(d, e.id, e)[i].1.id
      {
        assert Put(d, e.id, e)[i] in Put(d, e.id, e);
      }
    case Delete(id) =>
      RemoveGets(d, id, id);
      RemoveEntries(d, id);
      forall i | 0 <= i < |Remove(d, id)|
        ensures Remove(d, id)[i].0 == Remove(d, id)[i].1.id
      {
        assert Remove(d, id)[i] in Remove(d, id);
      }
    case _ =>
  }

  lemma {:induction false} EverythingMatches(entries: seq<Entry>)
    ensures Matching(entries, EVERYTHING) == entries
    decreases |entries|
  {
    if entries != [] {
      EverythingMatches(entries[..|entries| - 1]);
    }
  }

  /** What a search without filters returns. */
  function Listing(d: Store): seq<Entry> {
    Step(d, Search(EVERYTHING)).1.entries
  }

  lemma ListingIsValues(d: Store)
    ensures Listing(d) == Values(d)
  {
    EverythingMatches(Values(d));
  }

  /** Overwriting keeps every entry's place. */
  lemma OverwriteKeepsPlaces(d: Store, e: Entry, i: nat)
    requires StoreInv(d) && e.id in Keys(d) && i < |d|
    ensures |Listing(d)| == |d| && |Listing(Step(d, Add(e)).0)| == |d|
    ensures Listing(Step(d, Add(e)).0)[i] == if Listing(d)[i].id == e.id then e else Listing(d)[i]
  {
    ListingIsValues(d);
    ListingIsValues(Put(d, e.id, e));
    PlaceAfterPut(d, e, i);
  }

  lemma {:induction false} PlaceAfterPut(d: Store, e: Entry, i: nat)
    requires StoreInv(d) && e.id in Keys(d) && i < |d|
    ensures |Put(d, e.id, e)| == |d|
    ensures Put(d, e.id, e)[i].1 == if d[i].0 == e.id then e else d[i].1
  {
    var after := Put(d, e.id, e);
    PutKeys(d, e.id, e);
    assert Keys(after)[i] == Keys(d)[i];
    GetAt(after, i);
    GetAt(d, i);
    PutGets(d, e.id, e, d[i].0);
  }

  /** A new identifier is listed last. */
  lemma NewEntryIsLast(d: Store, e: Entry)
    requires StoreInv(d) && e.id !in Keys(d)
    ensures Listing(Step(d, Add(e)).0) == Listing(d) + [e]
  {
    ListingIsValues(d);
    ListingIsValues(Put(d, e.id, e));
    PutKeys(d, e.id, e);
    assert Values(Put(d, e.id, e)) == Values(d) + [e];
  }

  /** Deleting an entry and adding it again moves it to the end. */
  lemma ReaddedEntryIsLast(d: Store, e: Entry)
    requires StoreInv(d)
    ensures var kept := Step(d, Delete(e.id)).0;
      Listing(Step(kept, Add(e)).0) == Listing(kept) + [e]
  {
    StepKeepsInv(d, Delete(e.id));
    RemoveGets(d, e.id, e.id);
    NewEntryIsLast(Remove(d, e.id), e);
  }
}

/** The in-memory store as an object. */
module InMemoryStores {
  import opened Kernel
  import opened OrderedDict
  import opened MemoryContracts

  class InMemoryStore {
    var entries: Store

    constructor ()
      ensures entries == []
    {
      entries := [];
    }

    method Add(entry: Entry)
      modifies this
      ensures (entries, Done) == Step(old(entries), Operation.Add(entry))
    {
      entries := Put(entries, entry.id, entry);
    }

    method Fetch(id: string) returns (entry: Option<Entry>)
      ensures (entries, Found(entry)) == Step(entries, Operation.Fetch(id))
    {
      entry := Get(entries, id);
    }

    method Search(query: Query) returns (found: seq<Entry>)
      ensures (entries, Results(found)) == Step(entries, Operation.Search(query))
    {
      found := Matching(Values(entries), query);
    }

    method Delete(id: string) returns (present: bool)
      modifies this
      ensures (entries, Removed(present)) == Step(old(entries), Operation.Delete(id))
    {
      present := Get(entries, id).Some?;
      entries := Remove(entries, id);
    }

    method Clear()
      modifies this
      ensures (entries, Done) == Step(old(entries), Operation.Clear)
    {
      entries := [];
    }
  }
}
