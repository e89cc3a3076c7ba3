/** What a memory store answers after any sequence of operations, in the operations' own terms. */
module MemorySearches {
  import opened Kernel
  import opened OrderedDict
  import opened MemoryContracts

  // ----- what the operations said -----

  /** The last entry added under `id`, unless it was deleted or the store cleared since. */
  ghost function LastWord(ops: seq<Operation>, id: string): Option<Entry>
    decreases |ops|
  {
    if ops == [] then None
    else
      var earlier := LastWord(ops[..|ops| - 1], id);
      match ops[|ops| - 1]
      case Add(e) => if e.id == id then Some(e) else earlier
      case Delete(gone) => if gone == id then None else earlier
      case Clear => None
      case _ => earlier
  }

  /** Which operation put `id` where it is: the add that found it absent. */
  ghost function InsertedBy(ops: seq<Operation>, id: string): nat
    decreases |ops|
  {
    if ops == [] then 0
    else
      var earlier, last := ops[..|ops| - 1], ops[|ops| - 1];
      if last.Add? && last.entry.id == id && LastWord(earlier, id).None? then |ops| - 1 else InsertedBy(earlier, id)
  }

  /** The filters an entry has to pass, each one only if it is set: its id, one of its tags, a part of its
      content, and its metadata, where a missing key reads as none. */
  ghost predicate Passes(e: Entry, q: Query) {
    && (q.id.Some? ==> e.id == q.id.value)
    && (q.tag.Some? ==> q.tag.value in e.tags)
    && (q.text.Some? ==> exists a, b :: e.content == a + q.text.value + b)
    && forall key :: key in q.metadata ==>
         if key in e.metadata then e.metadata[key] == q.metadata[key] else q.metadata[key] == Nothing
  }

  lemma ContainsMeansPart(text: string, part: string)
    ensures Contains(text, part) <==> exists a, b :: text == a + part + b
  {
    if Contains(text, part) {
      var i :| 0 <= i <= |text| && OccursAt(text, part, i);
      assert text == text[..i] + part + text[i + |part|..];
    }
    if a, b :| text == a + part + b {
      assert OccursAt(text, part, |a|);
    }
  }

  lemma PassesMatches(e: Entry, q: Query)
    ensures Matches(e, q) <==> Passes(e, q)
  {
    if q.text.Some? {
      ContainsMeansPart(e.content, q.text.value);
    }
    forall key | key in q.metadata
      ensures Lookup(e.metadata, key) == q.metadata[key]
         <==> (if key in e.metadata then e.metadata[key] == q.metadata[key] else q.metadata[key] == Nothing)
    {
    }
  }

  // ----- the store after them -----

  function After(ops: seq<Operation>): Store
    decreases |ops|
  {
    if ops == [] then [] else Step(After(ops[..|ops| - 1]), ops[|ops| - 1]).0
  }

  lemma {:induction false} RepliesSnoc(d: Store, before: seq<Operation>, ops: seq<Operation>, op: Operation)
    requires d == After(before)
    ensures |Replies(d, ops + [op])| == |ops| + 1
    ensures Replies(d, ops + [op])[|ops|] == Step(After(before + ops), op).1
    decreases |ops|
  {
    if ops == [] {
      assert before + ops == before && ops + [op] == [op] && [op][1..] == [];
    } else {
      var next := before + [ops[0]];
      assert next[..|before|] == before && (ops + [op])[1..] == ops[1..] + [op];
      RepliesSnoc(Step(d, ops[0]).0, next, ops[1..], op);
      assert next + ops[1..] == before + ops;
    }
  }

  /** The reply to one more operation. */
  lemma {:induction false} LastReply(ops: seq<Operation>, op: Operation)
    ensures |Replies([], ops + [op])| == |ops| + 1
    ensures Replies([], ops + [op])[|ops|] == Step(After(ops), op).1
  {
    RepliesSnoc([], [], ops, op);
    assert [] + ops == ops;
  }

  lemma {:induction false} AfterKeepsInv(ops: seq<Operation>)
    ensures StoreInv(After(ops))
    decreases |ops|
  {
    if ops != [] {
      AfterKeepsInv(ops[..|ops| - 1]);
      StepKeepsInv(After(ops[..|ops| - 1]), ops[|ops| - 1]);
    }
  }

  lemma {:induction false} AfterHolds(ops: seq<Operation>, id: string)
    ensures Get(After(ops), id) == LastWord(ops, id)
    decreases |ops|
  {
    if ops != [] {
      var d := After(ops[..|ops| - 1]);
      AfterHolds(ops[..|ops| - 1], id);
      AfterKeepsInv(ops[..|ops| - 1]);
      match ops[|ops| - 1]
      case Add(e) => PutGets(d, e.id, e, id);
      case Delete(gone) => RemoveGets(d, gone, id);
      case _ =>
    }
  }

  // ----- insertion order -----

  ghost predicate InOrder(ops: seq<Operation>, d: Store) {
    forall i, j :: 0 <= i < j < |d| ==> InsertedBy(ops, d[i].0) < InsertedBy(ops, d[j].0)
  }

  ghost predicate InsertedBefore(ops: seq<Operation>, d: Store, n: nat) {
    forall i :: 0 <= i < |d| ==> InsertedBy(ops, d[i].0) < n
  }

  lemma {:induction false} RemoveIsPart(d: Store, id: string) returns (p: seq<nat>)
    ensures |p| == |Remove(d, id)|
    ensures forall a :: 0 <= a < |p| ==> p[a] < |d| && Remove(d, id)[a] == d[p[a]]
    ensures forall a, b :: 0 <= a < b < |p| ==> p[a] < p[b]
  {
    if d == [] {
      p := [];
    } else if d[0].0 == id {
      p := seq(|d| - 1, a requires 0 <= a < |d| - 1 => a + 1);
    } else {
      var rest := RemoveIsPart(d[1..], id);
      p := [0] + seq(|rest|, a requires 0 <= a < |rest| => rest[a] + 1);
    }
  }

  lemma {:induction false} AfterInOrder(ops: seq<Operation>)
    ensures InOrder(ops, After(ops)) && InsertedBefore(ops, After(ops), |ops|)
    decreases |ops|
  {
    if ops != [] {
      var earlier, last := ops[..|ops| - 1], ops[|ops| - 1];
      AfterInOrder(earlier);
      AfterKeepsInv(earlier);
      match last
      case Add(e) => AddInOrder(ops, e);
      case Delete(id) => var p := RemoveIsPart(After(earlier), id);
      case _ =>
    }
  }

  lemma {:induction false} AddInOrder(ops: seq<Operation>, e: Entry)
    requires ops != [] && ops[|ops| - 1] == Add(e)
    requires InOrder(ops[..|ops| - 1], After(ops[..|ops| - 1]))
    requires InsertedBefore(ops[..|ops| - 1], After(ops[..|ops| - 1]), |ops| - 1)
    ensures InOrder(ops, After(ops)) && InsertedBefore(ops, After(ops), |ops|)
  {
    var earlier := ops[..|ops| - 1];
    var d, after := After(earlier), After(ops);
    PutKeys(d, e.id, e);
    GetFinds(d, e.id);
    AfterHolds(earlier, e.id);
    forall i | 0 <= i < |after|
      ensures i < |d| ==> after[i].0 == d[i].0 && InsertedBy(ops, d[i].0) == InsertedBy(earlier, d[i].0)
      ensures i >= |d| ==> after[i].0 == e.id && InsertedBy(ops, e.id) == |ops| - 1
    {
      assert after[i].0 == Keys(after)[i];
      if i < |d| {
        assert Keys(d)[i] == d[i].0 && d[i].0 in Keys(d);
      }
    }
  }

  lemma {:induction false} MatchingIsPart(entries: seq<Entry>, q: Query) returns (p: seq<nat>)
    ensures |p| == |Matching(entries, q)|
    ensures forall a :: 0 <= a < |p| ==> p[a] < |entries| && Matching(entries, q)[a] == entries[p[a]]
    ensures forall a, b :: 0 <= a < b < |p| ==> p[a] < p[b]
    ensures forall i: nat :: i in p <==> i < |entries| && Matches(entries[i], q)
    decreases |entries|
  {
    if entries == [] {
      p := [];
    } else {
      var earlier, n := entries[..|entries| - 1], |entries| - 1;
      var front := MatchingIsPart(earlier, q);
      p := front + if Matches(entries[n], q) then [n] else [];
      forall i: nat
        ensures i in p <==> i < |entries| && Matches(entries[i], q)
      {
        assert i in p <==> i in front || (i == n && Matches(entries[n], q));
      }
    }
  }

  // ----- the replies -----

  /** A search, after any operations, returns exactly the entries that are stored and pass every filter
      that is set, each once, in the order in which their identifiers were inserted. */
  lemma {:induction false} SearchFindsExactly(ops: seq<Operation>, q: Query)
    ensures |Replies([], ops + [Search(q)])| == |ops| + 1 && Replies([], ops + [Search(q)])[|ops|].Results?
    ensures var found := Replies([], ops + [Search(q)])[|ops|].entries;
      && (forall e :: e in found <==> LastWord(ops, e.id) == Some(e) && Passes(e, q))
      && forall i, j :: 0 <= i < j < |found| ==> InsertedBy(ops, found[i].id) < InsertedBy(ops, found[j].id)
  {
    LastReply(ops, Search(q));
    AfterKeepsInv(ops);
    AfterInOrder(ops);
    var d := After(ops);
    var p := MatchingIsPart(Values(d), q);
    var found := Matching(Values(d), q);
    forall e
      ensures e in found <==> LastWord(ops, e.id) == Some(e) && Passes(e, q)
    {
      AfterHolds(ops, e.id);
      PassesMatches(e, q);
      StoredMeansListed(d, e);
      FoundMeansListed(Values(d), q, found, p, e);
    }
    forall i, j | 0 <= i < j < |found|
      ensures InsertedBy(ops, found[i].id) < InsertedBy(ops, found[j].id)
    {
      assert found[i] == d[p[i]].1 && found[j] == d[p[j]].1;
    }
  }

  lemma {:induction false} StoredMeansListed(d: Store, e: Entry)
    requires StoreInv(d)
    ensures Get(d, e.id) == Some(e) <==> e in Values(d)
  {
    if Get(d, e.id) == Some(e) {
      GetFinds(d, e.id);
      var i :| 0 <= i < |d| && d[i] == (e.id, e);
      assert Values(d)[i] == e;
    }
    if e in Values(d) {
      var i :| 0 <= i < |d| && Values(d)[i] == e;
      GetAt(d, i);
    }
  }

  lemma FoundMeansListed(entries: seq<Entry>, q: Query, found: seq<Entry>, p: seq<nat>, e: Entry)
    requires |p| == |found| && forall a :: 0 <= a < |p| ==> p[a] < |entries| && found[a] == entries[p[a]]
    requires forall i: nat :: i in p <==> i < |entries| && Matches(entries[i], q)
    ensures e in found <==> e in entries && Matches(e, q)
  {
    if e in found {
      var a :| 0 <= a < |found| && found[a] == e;
      assert p[a] in p;
    }
    if e in entries && Matches(e, q) {
      var i :| 0 <= i < |entries| && entries[i] == e;
      assert i in p;
      var a :| 0 <= a < |p| && p[a] == i;
      assert found[a] == e;
    }
  }

  /** Getting an entry returns the last one added under its id, and deleting tells whether there was one. */
  lemma {:induction false} LookupsFollowTheLastWord(ops: seq<Operation>, id: string)
    ensures |Replies([], ops + [Fetch(id)])| == |ops| + 1 == |Replies([], ops + [Delete(id)])|
    ensures Replies([], ops + [Fetch(id)])[|ops|] == Found(LastWord(ops, id))
    ensures Replies([], ops + [Delete(id)])[|ops|] == Removed(LastWord(ops, id).Some?)
  {
    LastReply(ops, Fetch(id));
    LastReply(ops, Delete(id));
    AfterHolds(ops, id);
  }

  /** What a search after these operations returns. */
  ghost function FoundBy(ops: seq<Operation>, q: Query): seq<Entry> {
    SearchFindsExactly(ops, q);
    Replies([], ops + [Search(q)])[|ops|].entries
  }

  /** Setting the id filter drops exactly the entries with another id. */
  lemma FilterById(ops: seq<Operation>, q: Query, e: Entry, id: string)
    requires q.id.None?
    ensures e in FoundBy(ops, q.(id := Some(id))) <==> e in FoundBy(ops, q) && e.id == id
  {
    SearchFindsExactly(ops, q);
    SearchFindsExactly(ops, q.(id := Some(id)));
  }

  /** Setting the tag filter drops exactly the entries without that tag. */
  lemma FilterByTag(ops: seq<Operation>, q: Query, e: Entry, tag: string)
    requires q.tag.None?
    ensures e in FoundBy(ops, q.(tag := Some(tag))) <==> e in FoundBy(ops, q) && tag in e.tags
  {
    SearchFindsExactly(ops, q);
    SearchFindsExactly(ops, q.(tag := Some(tag)));
  }

  /** Setting the text filter drops exactly the entries whose content does not hold that text. */
  lemma FilterByText(ops: seq<Operation>, q: Query, e: Entry, text: string)
    requires q.text.None?
    ensures e in FoundBy(ops, q.(text := Some(text)))
       <==> e in FoundBy(ops, q) && exists a, b :: e.content == a + text + b
  {
    SearchFindsExactly(ops, q);
    SearchFindsExactly(ops, q.(text := Some(text)));
  }

  /** One more metadata filter drops exactly the entries that hold another value under its key, or none
      where it asks for one. */
  lemma FilterByMetadata(ops: seq<Operation>, q: Query, e: Entry, key: string, value: Value)
    requires key !in q.metadata
    ensures e in FoundBy(ops, q.(metadata := q.metadata[key := value]))
       <==> e in FoundBy(ops, q) && if key in e.metadata then e.metadata[key] == value else value == Nothing
  {
    var more := q.(metadata := q.metadata[key := value]);
    SearchFindsExactly(ops, q);
    SearchFindsExactly(ops, more);
    assert key in more.metadata && more.metadata[key] == value;
    assert forall k :: k in q.metadata ==> k in more.metadata && more.metadata[k] == q.metadata[k];
  }
}

/** The same of the SQLite store, by its agreement with the in-memory one. */
module SqliteSearches {
  import opened Kernel
  import opened MemoryContracts
  import opened MemorySearches
  import opened SqliteTable
  import opened SqliteSteps

  /** A search of the table, after any operations on representable entries, returns exactly the entries
      that are stored and pass every filter that is set, in insertion order. */
  lemma {:induction false} TableSearchFindsExactly(
      c: Codec, tables: seq<Rows>, ops: seq<Operation>, q: Query, replies: seq<Reply>)
    requires Lawful(c) && SqlRun(c, tables, ops + [Search(q)], replies) && tables[0] == map[]
    requires forall op :: op in ops ==> Representable(c, op)
    ensures |replies| == |ops| + 1 && replies[|ops|].Results?
    ensures var found := replies[|ops|].entries;
      && (forall e :: e in found <==> LastWord(ops, e.id) == Some(e) && Passes(e, q))
      && forall i, j :: 0 <= i < j < |found| ==> InsertedBy(ops, found[i].id) < InsertedBy(ops, found[j].id)
  {
    StoresAgree(c, tables, ops + [Search(q)], replies);
    SearchFindsExactly(ops, q);
  }

  /** And a lookup returns the last entry added under the id. */
  lemma {:induction false} TableLookupFollowsTheLastWord(
      c: Codec, tables: seq<Rows>, ops: seq<Operation>, id: string, replies: seq<Reply>)
    requires Lawful(c) && SqlRun(c, tables, ops + [Fetch(id)], replies) && tables[0] == map[]
    requires forall op :: op in ops ==> Representable(c, op)
    ensures |replies| == |ops| + 1 && replies[|ops|] == Found(LastWord(ops, id))
  {
    StoresAgree(c, tables, ops + [Fetch(id)], replies);
    LookupsFollowTheLastWord(ops, id);
  }
}
