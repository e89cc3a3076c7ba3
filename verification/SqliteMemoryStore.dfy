/** The SQLite-backed store's operations, and their agreement with the in-memory store. */
module SqliteSteps {
  import opened Kernel
  import opened OrderedDict
  import opened MemoryContracts
  import opened SqliteTable

  ghost predicate NoRow(rows: Rows, id: string) {
    forall k: Rowid :: !HasId(rows, k, id)
  }

  /** INSERT ... ON CONFLICT(id) DO UPDATE: in place, or under the largest rowid in use plus one. */
  ghost predicate Upserts(rows: Rows, row: Row, after: Rows) {
    || (exists k: Rowid :: HasId(rows, k, row.id) && after == rows[k := row])
    || (NoRow(rows, row.id) && exists top: nat :: IsLargest(rows, top) && after == rows[top + 1 := row])
  }

  /** SELECT ... WHERE id = ? */
  ghost predicate SelectsOne(rows: Rows, id: string, row: Option<Row>) {
    if row.Some? then exists k: Rowid :: HasId(rows, k, id) && rows[k] == row.value
    else NoRow(rows, id)
  }

  /** SELECT ... ORDER BY rowid */
  ghost predicate SelectsAll(rows: Rows, selected: seq<Row>) {
    exists top: nat :: IsLargest(rows, top) && selected == Ordered(rows, top)
  }

  /** DELETE ... WHERE id = ?, with the number of rows it touched. */
  ghost predicate DeletesOne(rows: Rows, id: string, after: Rows, count: nat) {
    || (count == 1 && exists k: Rowid :: HasId(rows, k, id) && after == rows - {k})
    || (count == 0 && NoRow(rows, id) && after == rows)
  }

  function Read(c: Codec, row: Option<Row>): Option<Entry> {
    if row.Some? then Some(EntryOf(c, row.value)) else None
  }

  function Answer(c: Codec, selected: seq<Row>, q: Query): Reply {
    Results(Matching(Decoded(c, selected), q))
  }

  /** One operation of the store: the table it leaves and its reply. */
  ghost predicate SqlStep(c: Codec, rows: Rows, op: Operation, after: Rows, reply: Reply) {
    match op
    case Add(e) =>
      if c.dumpMetadata(e.metadata).None? then after == rows && reply == Failed
      else Upserts(rows, RowOf(c, e), after) && reply == Done
    case Fetch(id) =>
      after == rows && exists row :: SelectsOne(rows, id, row) && reply == Found(Read(c, row))
    case Search(q) =>
      after == rows && exists selected :: SelectsAll(rows, selected) && reply == Answer(c, selected, q)
    case Delete(id) => exists count: nat :: DeletesOne(rows, id, after, count) && reply == Removed(count > 0)
    case Clear => after == map[] && reply == Done
  }

  // ----- the coupling with the in-memory store -----

  /** The dict lists the decoded rows in rowid order. */
  ghost predicate CoupledAt(c: Codec, rows: Rows, d: Store, top: nat) {
    UniqueIds(rows) && Bounds(rows, top) && View(c, rows, top) == d
  }

  ghost predicate Coupled(c: Codec, rows: Rows, d: Store) {
    exists top: nat :: CoupledAt(c, rows, d, top)
  }

  /** The entries an operation stores survive JSON. */
  ghost predicate Representable(c: Codec, op: Operation) {
    op.Add? ==> RoundTrips(c, op.entry.metadata)
  }

  lemma CoupledAbove(c: Codec, rows: Rows, d: Store, top: nat)
    requires Coupled(c, rows, d) && Bounds(rows, top)
    ensures CoupledAt(c, rows, d, top)
  {
    var t: nat :| CoupledAt(c, rows, d, t);
    if t <= top {
      ViewStops(c, rows, t, top);
    } else {
      ViewStops(c, rows, top, t);
    }
  }

  lemma {:induction false} NoRowNoKey(c: Codec, rows: Rows, top: nat, id: string)
    requires NoRow(rows, id)
    ensures id !in Keys(View(c, rows, top))
  {
    ViewKeys(c, rows, top, id);
  }

  lemma ReplacingKeepsIds(rows: Rows, k: Rowid, row: Row)
    requires UniqueIds(rows) && (HasId(rows, k, row.id) || NoRow(rows, row.id))
    ensures UniqueIds(rows[k := row])
  {
    var after := rows[k := row];
    forall i: Rowid, j: Rowid, id | HasId(after, i, id) && HasId(after, j, id)
      ensures i == j
    {
      assert i != k ==> HasId(rows, i, id);
      assert j != k ==> HasId(rows, j, id);
    }
  }

  lemma {:induction false} AddAgrees(c: Codec, rows: Rows, d: Store, e: Entry, after: Rows)
    requires Lawful(c) && Coupled(c, rows, d) && RoundTrips(c, e.metadata)
    requires Upserts(rows, RowOf(c, e), after)
    ensures Coupled(c, after, Put(d, e.id, e))
  {
    var row := RowOf(c, e);
    RowRestores(c, e);
    if exists k: Rowid :: HasId(rows, k, row.id) && after == rows[k := row] {
      var k: Rowid :| HasId(rows, k, row.id) && after == rows[k := row];
      var top: nat :| CoupledAt(c, rows, d, top);
      UpdateInPlace(c, rows, k, row, top);
      ReplacingKeepsIds(rows, k, row);
      assert CoupledAt(c, after, Put(d, e.id, e), top);
    } else {
      var top: nat :| IsLargest(rows, top) && after == rows[top + 1 := row];
      CoupledAbove(c, rows, d, top);
      NoRowNoKey(c, rows, top, row.id);
      InsertAbove(c, rows, top + 1, row, top);
      ReplacingKeepsIds(rows, top + 1, row);
      assert CoupledAt(c, after, Put(d, e.id, e), top + 1);
    }
  }

  lemma {:induction false} DeleteAgrees(c: Codec, rows: Rows, d: Store, id: string, after: Rows, count: nat)
    requires Coupled(c, rows, d) && DeletesOne(rows, id, after, count)
    ensures Coupled(c, after, Remove(d, id)) && (count > 0 <==> Get(d, id).Some?)
  {
    var top: nat :| CoupledAt(c, rows, d, top);
    if exists k: Rowid :: HasId(rows, k, id) && after == rows - {k} {
      var k: Rowid :| HasId(rows, k, id) && after == rows - {k};
      DeleteRow(c, rows, k, id, after, top);
      SelectRow(c, rows, k, id, top);
      RemovingKeepsIds(rows, k);
      assert CoupledAt(c, after, Remove(d, id), top);
    } else {
      NoRowNoKey(c, rows, top, id);
      RemoveMissing(d, id);
      GetFinds(d, id);
    }
  }

  lemma RemovingKeepsIds(rows: Rows, k: Rowid)
    requires UniqueIds(rows)
    ensures UniqueIds(rows - {k})
  {
    var after := rows - {k};
    forall i: Rowid, j: Rowid, id | HasId(after, i, id) && HasId(after, j, id)
      ensures i == j
    {
      assert HasId(rows, i, id) && HasId(rows, j, id);
    }
  }

  lemma {:induction false} FetchAgrees(c: Codec, rows: Rows, d: Store, id: string, row: Option<Row>)
    requires Coupled(c, rows, d) && SelectsOne(rows, id, row)
    ensures Get(d, id) == Read(c, row)
  {
    var top: nat :| CoupledAt(c, rows, d, top);
    if row.Some? {
      var k: Rowid :| HasId(rows, k, id) && rows[k] == row.value;
      SelectRow(c, rows, k, id, top);
    } else {
      NoRowNoKey(c, rows, top, id);
      GetFinds(d, id);
    }
  }

  lemma SearchAgrees(c: Codec, rows: Rows, d: Store, selected: seq<Row>)
    requires Coupled(c, rows, d) && SelectsAll(rows, selected)
    ensures Values(d) == Decoded(c, selected)
  {
    var top: nat :| IsLargest(rows, top) && selected == Ordered(rows, top);
    CoupledAbove(c, rows, d, top);
    ViewValues(c, rows, top);
  }

  /** One step: the same reply, and the coupling again. */
  lemma StepsAgree(c: Codec, rows: Rows, d: Store, op: Operation, after: Rows, reply: Reply)
    requires Lawful(c) && Coupled(c, rows, d) && Representable(c, op)
    requires SqlStep(c, rows, op, after, reply)
    ensures Coupled(c, after, Step(d, op).0) && reply == Step(d, op).1
  {
    match op
    case Add(e) =>
      AddAgrees(c, rows, d, e, after);
    case Fetch(id) =>
      var row :| SelectsOne(rows, id, row) && reply == Found(Read(c, row));
      FetchAgrees(c, rows, d, id, row);
    case Search(q) =>
      var selected :| SelectsAll(rows, selected) && reply == Answer(c, selected, q);
      SearchAgrees(c, rows, d, selected);
    case Delete(id) =>
      var count: nat :| DeletesOne(rows, id, after, count) && reply == Removed(count > 0);
      DeleteAgrees(c, rows, d, id, after, count);
    case Clear =>
      assert CoupledAt(c, map[], [], 0);
  }

  // ----- whole runs -----

  /** `tables` and `replies` record a run of `ops` against the table. */
  ghost predicate SqlRun(c: Codec, tables: seq<Rows>, ops: seq<Operation>, replies: seq<Reply>) {
    && |tables| == |ops| + 1
    && |replies| == |ops|
    && forall i :: 0 <= i < |ops| ==> SqlStep(c, tables[i], ops[i], tables[i + 1], replies[i])
  }

  lemma {:induction false} RunsAgree(c: Codec, tables: seq<Rows>, d: Store, ops: seq<Operation>, replies: seq<Reply>)
    requires Lawful(c) && SqlRun(c, tables, ops, replies) && Coupled(c, tables[0], d)
    requires forall op :: op in ops ==> Representable(c, op)
    ensures replies == Replies(d, ops)
    decreases |ops|
  {
    if ops != [] {
      StepsAgree(c, tables[0], d, ops[0], tables[1], replies[0]);
      var after := Step(d, ops[0]).0;
      assert SqlRun(c, tables[1..], ops[1..], replies[1..]) by {
        forall i | 0 <= i < |ops[1..]|
          ensures SqlStep(c, tables[1..][i], ops[1..][i], tables[1..][i + 1], replies[1..][i])
        {
          assert SqlStep(c, tables[i + 1], ops[i + 1], tables[i + 2], replies[i + 1]);
        }
      }
      RunsAgree(c, tables[1..], after, ops[1..], replies[1..]);
      assert replies == [replies[0]] + replies[1..];
    }
  }

  /** From empty stores, every sequence of operations on JSON-representable entries gets the same
      answers, in the same order, from both stores. */
  lemma {:induction false} StoresAgree(c: Codec, tables: seq<Rows>, ops: seq<Operation>, replies: seq<Reply>)
    requires Lawful(c) && SqlRun(c, tables, ops, replies) && tables[0] == map[]
    requires forall op :: op in ops ==> Representable(c, op)
    ensures replies == Replies([], ops)
  {
    assert CoupledAt(c, map[], [], 0);
    RunsAgree(c, tables, [], ops, replies);
  }

  /** Representability is exactly what agreement on adding an entry and reading it back needs. */
  lemma AgreementNeedsRoundTrip(c: Codec, e: Entry, tables: seq<Rows>, replies: seq<Reply>)
    requires Lawful(c) && SqlRun(c, tables, [Add(e), Fetch(e.id)], replies) && tables[0] == map[]
    ensures replies == Replies([], [Add(e), Fetch(e.id)]) <==> RoundTrips(c, e.metadata)
  {
    var ops := [Add(e), Fetch(e.id)];
    if RoundTrips(c, e.metadata) {
      StoresAgree(c, tables, ops, replies);
    } else {
      assert SqlStep(c, tables[0], ops[0], tables[1], replies[0]);
      assert SqlStep(c, tables[1], ops[1], tables[2], replies[1]);
      ReadBackDiffers(c, e, tables[1], replies[0], replies[1]);
      assert Replies([], ops)[0] == Done;
      assert Put([], e.id, e) == [(e.id, e)];
      assert Replies([], ops)[1] == Replies(Put([], e.id, e), ops[1..])[0] == Found(Some(e));
    }
  }

  lemma ReadBackDiffers(c: Codec, e: Entry, rows: Rows, first: Reply, second: Reply)
    requires Lawful(c) && !RoundTrips(c, e.metadata)
    requires SqlStep(c, map[], Add(e), rows, first) && SqlStep(c, rows, Fetch(e.id), rows, second)
    ensures first == Failed || second != Found(Some(e))
  {
    if c.dumpMetadata(e.metadata).Some? {
      RowRestores(c, e);
      var row :| SelectsOne(rows, e.id, row) && second == Found(Read(c, row));
      if row.Some? {
        var k: Rowid :| HasId(rows, k, e.id) && rows[k] == row.value;
        assert row.value == RowOf(c, e);
      }
    }
  }

  const TUPLE := Other(0)
  const LIST := Other(1)

  function Listed(m: Metadata): Metadata {
    map key | key in m :: if m[key] == TUPLE then LIST else m[key]
  }

  /** JSON has no tuples: a tuple is written as the list of its items, and a list is what comes back. */
  function WithoutTuples(c: Codec): Codec {
    c.(dumpMetadata := m => c.dumpMetadata(Listed(m)))
  }

  /** An entry the stores disagree on: its metadata holds a tuple, which dumps without an error. The
      in-memory store gives the tuple back, the SQLite store the list. */
  lemma TupleComesBackAsList(c: Codec, e: Entry, tables: seq<Rows>, replies: seq<Reply>)
    requires Lawful(c) && RoundTrips(c, map["k" := LIST])
    requires e.metadata == map["k" := TUPLE]
    requires SqlRun(WithoutTuples(c), tables, [Add(e), Fetch(e.id)], replies) && tables[0] == map[]
    ensures replies == [Done, Found(Some(e.(metadata := map["k" := LIST])))]
    ensures Replies([], [Add(e), Fetch(e.id)]) == [Done, Found(Some(e))]
  {
    var d := WithoutTuples(c);
    assert Listed(e.metadata) == map["k" := LIST];
    assert EntryOf(d, RowOf(d, e)) == e.(metadata := map["k" := LIST]) by {
      assert d.loadTags(d.dumpTags(e.tags)) == e.tags;
      assert d.parseTime(d.formatTime(e.createdAt)) == e.createdAt;
    }
    assert SqlStep(d, tables[0], Add(e), tables[1], replies[0]);
    assert SqlStep(d, tables[1], Fetch(e.id), tables[2], replies[1]);
    assert HasId(tables[1], 1, e.id) && tables[1] == map[1 := RowOf(d, e)];
    var row :| SelectsOne(tables[1], e.id, row) && replies[1] == Found(Read(d, row));
    DictReadsBack(e);
  }

  lemma DictReadsBack(e: Entry)
    ensures Replies([], [Add(e), Fetch(e.id)]) == [Done, Found(Some(e))]
  {
    var d := Put([], e.id, e);
    assert d == [(e.id, e)];
    assert [Add(e), Fetch(e.id)][1..] == [Fetch(e.id)];
    assert [Fetch(e.id)][1..] == [];
    assert Replies(d, [Fetch(e.id)]) == [Found(Some(e))] + Replies(d, []);
  }

  /** Along the dict's insertion order the rowids strictly increase. */
  lemma RowidsFollowInsertion(c: Codec, rows: Rows, d: Store, i: nat, j: nat, ki: Rowid, kj: Rowid)
    requires Coupled(c, rows, d) && i < j < |d|
    requires HasId(rows, ki, d[i].0) && HasId(rows, kj, d[j].0)
    ensures ki < kj
  {
    var top: nat :| CoupledAt(c, rows, d, top);
    ViewAscends(c, rows, top, i, j, ki, kj);
  }

  lemma {:induction false} ViewAscends(c: Codec, rows: Rows, top: nat, i: nat, j: nat, ki: Rowid, kj: Rowid)
    requires UniqueIds(rows) && i < j < |View(c, rows, top)|
    requires HasId(rows, ki, View(c, rows, top)[i].0) && HasId(rows, kj, View(c, rows, top)[j].0)
    ensures ki < kj
  {
    var d := View(c, rows, top - 1);
    if j < |d| {
      ViewAscends(c, rows, top - 1, i, j, ki, kj);
    } else {
      assert HasId(rows, top, View(c, rows, top)[j].0);
      assert View(c, rows, top)[i] == d[i];
      assert Keys(d)[i] == d[i].0;
      KeyPlace(c, rows, ki, d[i].0, top - 1);
    }
  }
}

/** The SQLite-backed store as an object over a connection. */
module SqliteMemoryStores {
  import opened Kernel
  import opened MemoryContracts
  import opened SqliteTable
  import opened SqliteSteps

  /** The table behind the connection, with one method per statement. */
  class Connection {
    var rows: Rows

    constructor ()
      ensures rows == map[]
    {
      rows := map[];
    }

    method RowidOf(id: string) returns (found: Option<Rowid>)
      ensures if found.Some? then HasId(rows, found.value, id) else NoRow(rows, id)
    {
      var left := rows.Keys;
      while left != {}
        invariant left <= rows.Keys
        invariant forall k: Rowid :: HasId(rows, k, id) ==> k in left
      {
        var k :| k in left;
        if rows[k].id == id {
          return Some(k);
        }
        left := left - {k};
      }
      return None;
    }

    method LargestRowid() returns (top: nat)
      ensures IsLargest(rows, top)
    {
      var left := rows.Keys;
      top := 0;
      while left != {}
        invariant left <= rows.Keys
        invariant forall k :: k in rows ==> k in left || k <= top
        invariant top == 0 || top in rows
      {
        var k :| k in left;
        if top < k {
          top := k;
        }
        left := left - {k};
      }
    }

    method Upsert(row: Row)
      modifies this
      ensures Upserts(old(rows), row, rows)
    {
      var place := RowidOf(row.id);
      if place.Some? {
        rows := rows[place.value := row];
      } else {
        var top := LargestRowid();
        rows := rows[top + 1 := row];
      }
    }

    method SelectOne(id: string) returns (row: Option<Row>)
      ensures SelectsOne(rows, id, row)
    {
      var place := RowidOf(id);
      row := if place.Some? then Some(rows[place.value]) else None;
    }

    method SelectAll() returns (selected: seq<Row>)
      ensures SelectsAll(rows, selected)
    {
      var top := LargestRowid();
      selected := [];
      for k := 0 to top
        invariant selected == Ordered(rows, k)
      {
        if k + 1 in rows {
          selected := selected + [rows[k + 1]];
        }
      }
    }

    method DeleteOne(id: string) returns (count: nat)
      modifies this
      ensures DeletesOne(old(rows), id, rows, count)
    {
      var place := RowidOf(id);
      if place.Some? {
        rows := rows - {place.value};
        return 1;
      } else {
        return 0;
      }
    }

    method DeleteAll()
      modifies this
      ensures rows == map[]
    {
      rows := map[];
    }
  }

  /** What the entry constructor accepts when a row is read back. */
  ghost predicate ReadsBack(rows: Rows) {
    forall k :: k in rows ==> !Blank(rows[k].id) && !Blank(rows[k].content)
  }

  lemma {:induction false} OrderedReadsBack(rows: Rows, top: nat)
    requires ReadsBack(rows)
    ensures forall row :: row in Ordered(rows, top) ==> !Blank(row.id) && !Blank(row.content)
  {
    if top > 0 {
      OrderedReadsBack(rows, top - 1);
    }
  }

  class SQLiteMemoryStore {
    const codec: Codec
    const connection: Connection

    ghost predicate Valid()
      reads this, connection
    {
      UniqueIds(connection.rows) && ReadsBack(connection.rows)
    }

    constructor (codec: Codec, connection: Connection)
      requires connection.rows == map[]
      ensures Valid() && this.codec == codec && this.connection == connection
    {
      this.codec := codec;
      this.connection := connection;
    }

    method Add(entry: Entry) returns (reply: Reply)
      requires Valid() && WellFormed(entry)
      modifies connection
      ensures Valid()
      ensures SqlStep(codec, old(connection.rows), Operation.Add(entry), connection.rows, reply)
    {
      if codec.dumpMetadata(entry.metadata).None? {
        return Failed;
      }
      var row := RowOf(codec, entry);
      connection.Upsert(row);
      UpsertKeepsIds(old(connection.rows), row, connection.rows);
      return Done;
    }

    /** The entry a row holds, or nothing where the entry constructor refuses it. */
    method RowToEntry(row: Row) returns (entry: Option<Entry>)
      ensures entry == if Blank(row.id) || Blank(row.content) then None else Some(EntryOf(codec, row))
    {
      var e := EntryOf(codec, row);
      entry := if WellFormed(e) then Some(e) else None;
    }

    /** The constructor's check never fires on a stored row. */
    method Fetch(id: string) returns (reply: Reply)
      requires Valid()
      ensures SqlStep(codec, connection.rows, Operation.Fetch(id), connection.rows, reply)
    {
      var row := connection.SelectOne(id);
      if row.None? {
        return Found(None);
      }
      var entry := RowToEntry(row.value);
      return if entry.Some? then Found(entry) else Failed;
    }

    method Search(query: Query) returns (reply: Reply)
      requires Valid()
      ensures SqlStep(codec, connection.rows, Operation.Search(query), connection.rows, reply)
    {
      var selected := connection.SelectAll();
      ghost var top: nat :| IsLargest(connection.rows, top) && selected == Ordered(connection.rows, top);
      OrderedReadsBack(connection.rows, top);
      var entries := [];
      for i := 0 to |selected|
        invariant entries == Decoded(codec, selected[..i])
      {
        var entry := RowToEntry(selected[i]);
        if entry.None? {
          return Failed;
        }
        assert selected[..i + 1] == selected[..i] + [selected[i]];
        entries := entries + [entry.value];
      }
      assert selected[..|selected|] == selected;
      return Results(Matching(entries, query));
    }

    method Delete(id: string) returns (reply: Reply)
      requires Valid()
      modifies connection
      ensures Valid()
      ensures SqlStep(codec, old(connection.rows), Operation.Delete(id), connection.rows, reply)
    {
      var count := connection.DeleteOne(id);
      DeleteKeepsIds(old(connection.rows), id, connection.rows, count);
      return Removed(count > 0);
    }

    method Clear() returns (reply: Reply)
      modifies connection
      ensures Valid()
      ensures SqlStep(codec, old(connection.rows), Operation.Clear, connection.rows, reply)
    {
      connection.DeleteAll();
      return Done;
    }
  }

  lemma UpsertKeepsIds(rows: Rows, row: Row, after: Rows)
    requires UniqueIds(rows) && Upserts(rows, row, after)
    ensures UniqueIds(after)
  {
    if exists k: Rowid :: HasId(rows, k, row.id) && after == rows[k := row] {
      var k: Rowid :| HasId(rows, k, row.id) && after == rows[k := row];
      ReplacingKeepsIds(rows, k, row);
    } else {
      var top: nat :| IsLargest(rows, top) && after == rows[top + 1 := row];
      ReplacingKeepsIds(rows, top + 1, row);
    }
  }

  lemma DeleteKeepsIds(rows: Rows, id: string, after: Rows, count: nat)
    requires UniqueIds(rows) && DeletesOne(rows, id, after, count)
    ensures UniqueIds(after)
  {
    if exists k: Rowid :: HasId(rows, k, id) && after == rows - {k} {
      var k: Rowid :| HasId(rows, k, id) && after == rows - {k};
      RemovingKeepsIds(rows, k);
    }
  }
}
