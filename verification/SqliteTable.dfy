/** The five SQL statements over one table, and the store's operations on top of them. */
module SqliteTable {
  import opened Kernel
  import opened OrderedDict
  import opened MemoryContracts

  datatype Row = Row(id: string, content: string, tags: string, metadata: string, createdAt: string)

  type Rowid = k: int | 1 <= k witness 1

  /** The table by rowid. */
  type Rows = map<Rowid, Row>

  /** json.dumps/json.loads and datetime.isoformat/fromisoformat; `dumpMetadata` is absent where dumps raises. */
  datatype Codec = Codec(
    dumpTags: set<string> -> string,
    loadTags: string -> set<string>,
    dumpMetadata: Metadata -> Option<string>,
    loadMetadata: string -> Metadata,
    formatTime: Instant -> string,
    parseTime: string -> Instant)

  /** The laws assumed of tags and times, which every string set and time obeys. */
  ghost predicate Lawful(c: Codec) {
    && (forall tags :: c.loadTags(c.dumpTags(tags)) == tags)
    && (forall time :: c.parseTime(c.formatTime(time)) == time)
  }

  /** The metadata comes back from JSON as it went in. */
  predicate RoundTrips(c: Codec, m: Metadata) {
    c.dumpMetadata(m).Some? && c.loadMetadata(c.dumpMetadata(m).value) == m
  }

  function RowOf(c: Codec, e: Entry): (row: Row)
    requires c.dumpMetadata(e.metadata).Some?
  {
    Row(e.id, e.content, c.dumpTags(e.tags), c.dumpMetadata(e.metadata).value, c.formatTime(e.createdAt))
  }

  function EntryOf(c: Codec, row: Row): Entry {
    Entry(row.id, row.content, c.loadTags(row.tags), c.loadMetadata(row.metadata), c.parseTime(row.createdAt))
  }

  /** Writing an entry and reading it back gives the same entry exactly when its metadata round-trips. */
  lemma RowRestores(c: Codec, e: Entry)
    requires Lawful(c) && c.dumpMetadata(e.metadata).Some?
    ensures EntryOf(c, RowOf(c, e)) == e <==> RoundTrips(c, e.metadata)
    ensures EntryOf(c, RowOf(c, e)).id == e.id
  {
    assert c.loadTags(c.dumpTags(e.tags)) == e.tags;
    assert c.parseTime(c.formatTime(e.createdAt)) == e.createdAt;
  }

  // ----- rowids -----

  ghost predicate Bounds(rows: Rows, top: nat) {
    forall k :: k in rows ==> k <= top
  }

  /** The largest rowid in use, or 0. */
  ghost predicate IsLargest(rows: Rows, top: nat) {
    Bounds(rows, top) && (top == 0 || top in rows)
  }

  ghost predicate HasId(rows: Rows, k: Rowid, id: string) {
    k in rows && rows[k].id == id
  }

  /** The primary key: no identifier has two rows. */
  ghost predicate UniqueIds(rows: Rows) {
    forall j: Rowid, k: Rowid, id :: HasId(rows, j, id) && HasId(rows, k, id) ==> j == k
  }

  // ----- the rows in rowid order, as the dict they stand for -----

  /** The rows with rowid at most `top`, in ascending order. */
  function Ordered(rows: Rows, top: nat): seq<Row> {
    if top == 0 then []
    else if top in rows then Ordered(rows, top - 1) + [rows[top]]
    else Ordered(rows, top - 1)
  }

  /** The dict the table stands for: the decoded rows, keyed by identifier, in rowid order. */
  function View(c: Codec, rows: Rows, top: nat): Store {
    if top == 0 then []
    else if top in rows then View(c, rows, top - 1) + [(rows[top].id, EntryOf(c, rows[top]))]
    else View(c, rows, top - 1)
  }

  function Decoded(c: Codec, rows: seq<Row>): (entries: seq<Entry>)
    ensures |entries| == |rows|
  {
    seq(|rows|, i requires 0 <= i < |rows| => EntryOf(c, rows[i]))
  }

  lemma {:induction false} ViewValues(c: Codec, rows: Rows, top: nat)
    ensures Values(View(c, rows, top)) == Decoded(c, Ordered(rows, top))
  {
    if top > 0 {
      ViewValues(c, rows, top - 1);
      if top in rows {
        var d, x := View(c, rows, top - 1), (rows[top].id, EntryOf(c, rows[top]));
        assert Values(d + [x]) == Values(d) + [x.1];
        assert Decoded(c, Ordered(rows, top - 1) + [rows[top]]) == Decoded(c, Ordered(rows, top - 1)) + [x.1];
      }
    }
  }

  lemma {:induction false} ViewKeys(c: Codec, rows: Rows, top: nat, id: string)
    ensures id in Keys(View(c, rows, top)) <==> exists k: Rowid :: k <= top && HasId(rows, k, id)
  {
    if top > 0 {
      ViewKeys(c, rows, top - 1, id);
      if top in rows {
        var d, x := View(c, rows, top - 1), (rows[top].id, EntryOf(c, rows[top]));
        assert Keys(d + [x]) == Keys(d) + [x.0];
        assert rows[top].id == id <==> HasId(rows, top, id);
      }
    }
  }

  /** The dict holds an identifier from its row's rowid on. */
  lemma {:induction false} KeyPlace(c: Codec, rows: Rows, k: Rowid, id: string, top: nat)
    requires UniqueIds(rows) && HasId(rows, k, id)
    ensures id in Keys(View(c, rows, top)) <==> k <= top
  {
    ViewKeys(c, rows, top, id);
  }

  /** Rowids above the largest in use add nothing. */
  lemma {:induction false} ViewStops(c: Codec, rows: Rows, low: nat, high: nat)
    requires Bounds(rows, low) && low <= high
    ensures View(c, rows, high) == View(c, rows, low)
  {
    if low < high {
      ViewStops(c, rows, low, high - 1);
    }
  }

  // ----- dict operations on an extended dict -----

  lemma KeysOfRest(d: Store, id: string)
    requires d != []
    ensures id in Keys(d) <==> id == d[0].0 || id in Keys(d[1..])
  {
    assert Keys(d) == [d[0].0] + Keys(d[1..]);
  }

  lemma {:induction false} PutLast(d: Store, x: (string, Entry), id: string, e: Entry)
    ensures Put(d + [x], id, e)
         == if id in Keys(d) then Put(d, id, e) + [x]
            else if x.0 == id then d + [(id, e)]
            else d + [x] + [(id, e)]
  {
    if d == [] {
      assert d + [x] == [x];
    } else {
      PutLast(d[1..], x, id, e);
      assert (d + [x])[0] == d[0] && (d + [x])[1..] == d[1..] + [x];
      KeysOfRest(d, id);
      Associate([d[0]], Put(d[1..], id, e), [x]);
      assert d + [x] + [(id, e)] == [d[0]] + (d[1..] + [x] + [(id, e)]);
      assert d + [(id, e)] == [d[0]] + (d[1..] + [(id, e)]);
    }
  }

  lemma {:induction false} RemoveLast(d: Store, x: (string, Entry), id: string)
    ensures Remove(d + [x], id)
         == if id in Keys(d) then Remove(d, id) + [x] else if x.0 == id then d else d + [x]
  {
    if d == [] {
      assert d + [x] == [x];
    } else {
      RemoveLast(d[1..], x, id);
      assert (d + [x])[0] == d[0] && (d + [x])[1..] == d[1..] + [x];
      KeysOfRest(d, id);
      Associate([d[0]], Remove(d[1..], id), [x]);
      assert d + [x] == [d[0]] + (d[1..] + [x]);
    }
  }

  lemma {:induction false} RemoveMissing(d: Store, id: string)
    requires id !in Keys(d)
    ensures Remove(d, id) == d
  {
    if d != [] {
      assert Keys(d) == [d[0].0] + Keys(d[1..]);
      RemoveMissing(d[1..], id);
    }
  }

  // ----- the statements, seen through the view -----

  /** Updating a row in place overwrites its dict entry in place. */
  lemma {:induction false} UpdateInPlace(c: Codec, rows: Rows, k: Rowid, row: Row, top: nat)
    requires UniqueIds(rows) && HasId(rows, k, row.id)
    ensures View(c, rows[k := row], top)
         == if k <= top then Put(View(c, rows, top), row.id, EntryOf(c, row)) else View(c, rows, top)
  {
    if top > 0 {
      UpdateInPlace(c, rows, k, row, top - 1);
      if top in rows {
        KeyPlace(c, rows, k, row.id, top - 1);
        UpdatedView(c, rows, k, row, top);
        PutLast(View(c, rows, top - 1), (rows[top].id, EntryOf(c, rows[top])), row.id, EntryOf(c, row));
      }
    }
  }

  lemma {:induction false} UpdatedView(c: Codec, rows: Rows, k: Rowid, row: Row, top: nat)
    requires k in rows && top in rows && 0 < top
    ensures View(c, rows[k := row], top)
         == View(c, rows[k := row], top - 1)
            + if top == k then [(row.id, EntryOf(c, row))] else [(rows[top].id, EntryOf(c, rows[top]))]
  {
  }

  /** A row above every rowid in use becomes the last dict entry. */
  lemma {:induction false} InsertAbove(c: Codec, rows: Rows, k: Rowid, row: Row, top: nat)
    requires UniqueIds(rows) && Bounds(rows, top) && top < k
    requires row.id !in Keys(View(c, rows, top))
    ensures View(c, rows[k := row], k) == Put(View(c, rows, top), row.id, EntryOf(c, row))
  {
    ViewStops(c, rows, top, k - 1);
    ViewBelow(c, rows, k, row, k - 1);
    PutKeys(View(c, rows, top), row.id, EntryOf(c, row));
  }

  lemma {:induction false} ViewBelow(c: Codec, rows: Rows, k: Rowid, row: Row, top: nat)
    requires top < k
    ensures View(c, rows[k := row], top) == View(c, rows, top)
  {
    if top > 0 {
      ViewBelow(c, rows, k, row, top - 1);
    }
  }

  /** `after` is the table without row `k`. */
  ghost predicate Drops(rows: Rows, k: Rowid, after: Rows) {
    && k !in after
    && (forall j: Rowid :: j in after ==> j in rows && after[j] == rows[j])
    && (forall j: Rowid :: j in rows ==> j == k || j in after)
  }

  /** Deleting a row removes its dict entry. */
  lemma {:induction false} DeleteRow(c: Codec, rows: Rows, k: Rowid, id: string, after: Rows, top: nat)
    requires UniqueIds(rows) && HasId(rows, k, id) && Drops(rows, k, after)
    ensures View(c, after, top) == if k <= top then Remove(View(c, rows, top), id) else View(c, rows, top)
  {
    if top > 0 {
      DeleteRow(c, rows, k, id, after, top - 1);
      if top in rows {
        KeyPlace(c, rows, k, id, top - 1);
        RemoveLast(View(c, rows, top - 1), (rows[top].id, EntryOf(c, rows[top])), id);
        assert rows[top].id == id ==> HasId(rows, top, id);
      }
    }
  }

  /** Looking a row up by identifier is looking its dict entry up. */
  lemma {:induction false} SelectRow(c: Codec, rows: Rows, k: Rowid, id: string, top: nat)
    requires UniqueIds(rows) && HasId(rows, k, id) && k <= top
    ensures Get(View(c, rows, top), id) == Some(EntryOf(c, rows[k]))
  {
    if k < top {
      SelectRow(c, rows, k, id, top - 1);
    }
    if top in rows {
      KeyPlace(c, rows, k, id, top - 1);
      GetAppended(View(c, rows, top - 1), (rows[top].id, EntryOf(c, rows[top])), id);
    }
  }

  lemma {:induction false} GetAppended(d: Store, x: (string, Entry), id: string)
    ensures Get(d + [x], id) == if id in Keys(d) then Get(d, id) else if x.0 == id then Some(x.1) else None
  {
    if d == [] {
      assert d + [x] == [x] && [x][1..] == [];
    } else {
      GetAppended(d[1..], x, id);
      assert (d + [x])[0] == d[0] && (d + [x])[1..] == d[1..] + [x];
      KeysOfRest(d, id);
    }
  }
}
